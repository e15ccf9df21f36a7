/**
  The todo collection of the routing example and its seven request handlers,
  written as pure functions from the collection (and the parsed request) to the
  new collection and the response. The class in RoutingServer runs the same
  handlers imperatively and is proved to agree with these functions.

  A handler's request is reduced to what the handler reads from it after the
  library parsers have run:
    - the `{id}` path segment as the result of integer parsing (None: not an int);
    - the form as the result of form parsing (None: the form did not parse),
      holding the `content` text, the raw `done` text and the result of
      boolean parsing of that text (None: not a bool).
*/
module Routing {
  import opened Wrappers

  /** One todo item; its identity is its current position in the collection. */
  datatype TodoItem = TodoItem(content: string, done: bool)

  /** What a handler writes as the response body. */
  datatype Body =
    | NoBody
    | Text(message: string)              // a plain-text error message
    | ItemJson(item: TodoItem)           // one item, JSON-encoded
    | ListJson(items: seq<TodoItem>)     // the whole collection, JSON-encoded

  /** Status code, body, and the index part of the `Location` header, if one is set. */
  datatype Response = Response(status: int, body: Body, location: Option<int>)

  /** The parsed form fields of a create, replace or update request. */
  datatype Form = Form(content: string, doneText: string, done: Option<bool>)

  /** The collection after a handler has run, and the handler's response. */
  datatype Outcome = Outcome(items: seq<TodoItem>, response: Response)

  const StatusOK := 200
  const StatusCreated := 201
  const StatusBadRequest := 400
  const StatusNotFound := 404

  const IdNotInt := "`id` must be of type int"
  const IdNotFound := "`id` not found"
  const InvalidForm := "invalid form"
  const DoneNotBool := "`done` must be of type bool"

  /** A failure response: status and a plain-text message, no Location. */
  function Fail(status: int, message: string): (r: Response)
  {
    Response(status, Text(message), None)
  }

  /** The handlers' bounds test, `id < 0 || id > len - 1`. */
  function OutOfRange(id: int, len: nat): (r: bool)
    ensures r <==> !(0 <= id < len)
  {
    id < 0 || id > len - 1
  }

  /**
    The first two checks every handler with an `{id}` runs, in order: the id must
    parse as an integer (else 400), then it must be in range (else 404).
    None means both checks passed.
  */
  function IdFailure(items: seq<TodoItem>, id: Option<int>): (r: Option<Response>)
    ensures r.None? <==> id.Some? && 0 <= id.value < |items|
    ensures id.None? ==> r == Some(Fail(StatusBadRequest, IdNotInt))
    ensures id.Some? && r.Some? ==> r == Some(Fail(StatusNotFound, IdNotFound))
  {
    match id
    case None => Some(Fail(StatusBadRequest, IdNotInt))
    case Some(i) => if OutOfRange(i, |items|) then Some(Fail(StatusNotFound, IdNotFound)) else None
  }

  /** The collection without the item at index i; later items move down one place. */
  function RemoveAt(s: seq<TodoItem>, i: nat): (r: seq<TodoItem>)
    requires i < |s|
    ensures |r| == |s| - 1
    ensures forall j :: 0 <= j < i ==> r[j] == s[j]
    ensures forall j :: i <= j < |r| ==> r[j] == s[j + 1]
  {
    s[..i] + s[i + 1..]
  }

  /** GET /todo-item: the whole collection, unchanged. */
  function ListItems(items: seq<TodoItem>): (r: Response)
    ensures r.status == StatusOK && r.location.None?
    ensures r.body.ListJson? && r.body.items == items
  {
    Response(StatusOK, ListJson(items), None)
  }

  /** GET /todo-item/{id}: the item at id. */
  function GetItem(items: seq<TodoItem>, id: Option<int>): (r: Response)
    ensures r.status == StatusOK <==> id.Some? && 0 <= id.value < |items|
    ensures r.status != StatusOK ==> Some(r) == IdFailure(items, id)
    ensures r.status == StatusOK ==> r.body == ItemJson(items[id.value]) && r.location.None?
  {
    match IdFailure(items, id)
    case Some(failure) => failure
    case None => Response(StatusOK, ItemJson(items[id.value]), None)
  }

  /** HEAD /todo-item/{id}: the same checks as GetItem, and no body on success. */
  function ItemExists(items: seq<TodoItem>, id: Option<int>): (r: Response)
    ensures r.status == StatusOK <==> id.Some? && 0 <= id.value < |items|
    ensures r.status != StatusOK ==> Some(r) == IdFailure(items, id)
    ensures r.status == StatusOK ==> r.body == NoBody && r.location.None?
    ensures r.status == GetItem(items, id).status
  {
    match IdFailure(items, id)
    case Some(failure) => failure
    case None => Response(StatusOK, NoBody, None)
  }

  /** POST /todo-item: append a new item; Location is its index. */
  function CreateItem(items: seq<TodoItem>, form: Option<Form>): (o: Outcome)
    ensures o.response.status == StatusCreated <==> form.Some? && form.value.done.Some?
    ensures o.response.status != StatusCreated ==>
              o.items == items && o.response.status == StatusBadRequest
    ensures form.None? ==> o.response == Fail(StatusBadRequest, InvalidForm)
    ensures form.Some? && form.value.done.None? ==> o.response == Fail(StatusBadRequest, DoneNotBool)
    ensures o.response.status == StatusCreated ==>
              |o.items| == |items| + 1 && o.items[..|items|] == items
              && o.items[|items|] == TodoItem(form.value.content, form.value.done.value)
              && o.response.location == Some(|items|) && o.response.body == NoBody
  {
    match form
    case None => Outcome(items, Fail(StatusBadRequest, InvalidForm))
    case Some(f) =>
      match f.done
      case None => Outcome(items, Fail(StatusBadRequest, DoneNotBool))
      case Some(d) =>
        var items' := items + [TodoItem(f.content, d)];
        Outcome(items', Response(StatusCreated, NoBody, Some(|items'| - 1)))
  }

  /**
    PUT /todo-item/{id}: overwrite the item at id. The bounds check comes before the
    form is parsed. Location is built from the length of the collection, as on create,
    so it names the last index rather than id.
  */
  function ReplaceItem(items: seq<TodoItem>, id: Option<int>, form: Option<Form>): (o: Outcome)
    ensures IdFailure(items, id).Some? ==> o == Outcome(items, IdFailure(items, id).value)
    ensures o.response.status == StatusOK <==>
              id.Some? && 0 <= id.value < |items| && form.Some? && form.value.done.Some?
    ensures o.response.status != StatusOK ==> o.items == items
    ensures IdFailure(items, id).None? && form.None? ==> o.response == Fail(StatusBadRequest, InvalidForm)
    ensures IdFailure(items, id).None? && form.Some? && form.value.done.None? ==>
              o.response == Fail(StatusBadRequest, DoneNotBool)
    ensures o.response.status == StatusOK ==>
              |o.items| == |items|
              && o.items[id.value] == TodoItem(form.value.content, form.value.done.value)
              && (forall j :: 0 <= j < |items| && j != id.value ==> o.items[j] == items[j])
              && o.response.location == Some(|items| - 1) && o.response.body == NoBody
  {
    match IdFailure(items, id)
    case Some(failure) => Outcome(items, failure)
    case None =>
      var i := id.value;
      match form
      case None => Outcome(items, Fail(StatusBadRequest, InvalidForm))
      case Some(f) =>
        match f.done
        case None => Outcome(items, Fail(StatusBadRequest, DoneNotBool))
        case Some(d) =>
          var items' := items[i := TodoItem(f.content, d)];
          Outcome(items', Response(StatusOK, NoBody, Some(|items'| - 1)))
  }

  /**
    PATCH /todo-item/{id}: overwrite each field for which a non-empty value is given.
    The content is written before the `done` text is parsed, so a request with new
    content and a malformed `done` keeps the new content and still fails with 400.
  */
  function UpdateItem(items: seq<TodoItem>, id: Option<int>, form: Option<Form>): (o: Outcome)
    ensures IdFailure(items, id).Some? ==> o == Outcome(items, IdFailure(items, id).value)
    ensures IdFailure(items, id).None? && form.None? ==>
              o == Outcome(items, Fail(StatusBadRequest, InvalidForm))
    ensures o.response.status == StatusOK <==>
              id.Some? && 0 <= id.value < |items| && form.Some?
              && (form.value.doneText == "" || form.value.done.Some?)
    ensures |o.items| == |items|
    ensures forall j :: 0 <= j < |items| && (id.None? || j != id.value) ==> o.items[j] == items[j]
    ensures IdFailure(items, id).None? && form.Some? ==>
              var i, f := id.value, form.value;
              o.items[i].content == (if f.content == "" then items[i].content else f.content)
              && o.items[i].done == (if f.doneText == "" || f.done.None? then items[i].done else f.done.value)
              && o.response == (if f.doneText != "" && f.done.None? then Fail(StatusBadRequest, DoneNotBool)
                                else Response(StatusOK, NoBody, None))
  {
    match IdFailure(items, id)
    case Some(failure) => Outcome(items, failure)
    case None =>
      var i := id.value;
      match form
      case None => Outcome(items, Fail(StatusBadRequest, InvalidForm))
      case Some(f) =>
        var withContent := if f.content != "" then items[i := items[i].(content := f.content)] else items;
        if f.doneText == "" then
          Outcome(withContent, Response(StatusOK, NoBody, None))
        else
          match f.done
          case None => Outcome(withContent, Fail(StatusBadRequest, DoneNotBool))
          case Some(d) => Outcome(withContent[i := withContent[i].(done := d)], Response(StatusOK, NoBody, None))
  }

  /** DELETE /todo-item/{id}: remove the item at id; later items are renumbered down by one. */
  function DeleteItem(items: seq<TodoItem>, id: Option<int>): (o: Outcome)
    ensures IdFailure(items, id).Some? ==> o == Outcome(items, IdFailure(items, id).value)
    ensures o.response.status == StatusOK <==> id.Some? && 0 <= id.value < |items|
    ensures o.response.status == StatusOK ==>
              |o.items| == |items| - 1
              && (forall j :: 0 <= j < id.value ==> o.items[j] == items[j])
              && (forall j :: id.value <= j < |o.items| ==> o.items[j] == items[j + 1])
              && o.response == Response(StatusOK, NoBody, None)
  {
    match IdFailure(items, id)
    case Some(failure) => Outcome(items, failure)
    case None => Outcome(RemoveAt(items, id.value), Response(StatusOK, NoBody, None))
  }
}
