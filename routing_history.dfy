/**
  Handler calls in sequence. The server runs each incoming request through one of
  the seven handlers, all of which share the one collection; here a history of
  requests is folded over the collection, and the lemmas say what a history
  preserves: which requests leave the collection alone, and that indices stay
  put as long as nothing is replaced, updated or deleted.
*/
module RoutingHistory {
  import opened Wrappers
  import opened Routing

  /** One request, by the handler it is routed to, with its parsed parameters. */
  datatype Request =
    | ListRequest
    | GetRequest(id: Option<int>)
    | HeadRequest(id: Option<int>)
    | CreateRequest(form: Option<Form>)
    | ReplaceRequest(id: Option<int>, form: Option<Form>)
    | UpdateRequest(id: Option<int>, form: Option<Form>)
    | DeleteRequest(id: Option<int>)

  /** The collection after a history, and the responses in request order. */
  datatype Trace = Trace(items: seq<TodoItem>, responses: seq<Response>)

  /** The handler a request is routed to. */
  function Handle(items: seq<TodoItem>, req: Request): (o: Outcome)
    ensures |items| - 1 <= |o.items| <= |items| + 1
  {
    match req
    case ListRequest => Outcome(items, ListItems(items))
    case GetRequest(id) => Outcome(items, GetItem(items, id))
    case HeadRequest(id) => Outcome(items, ItemExists(items, id))
    case CreateRequest(form) => CreateItem(items, form)
    case ReplaceRequest(id, form) => ReplaceItem(items, id, form)
    case UpdateRequest(id, form) => UpdateItem(items, id, form)
    case DeleteRequest(id) => DeleteItem(items, id)
  }

  /** Requests served one after another, each on the collection the previous one left. */
  function Run(items: seq<TodoItem>, reqs: seq<Request>): (t: Trace)
    ensures |t.responses| == |reqs|
    ensures |items| - |reqs| <= |t.items| <= |items| + |reqs|
    ensures reqs != [] ==> t.responses[0] == Handle(items, reqs[0]).response
    decreases |reqs|
  {
    if reqs == [] then Trace(items, [])
    else
      var o := Handle(items, reqs[0]);
      var rest := Run(o.items, reqs[1..]);
      Trace(rest.items, [o.response] + rest.responses)
  }

  /** List, GET and HEAD only read the collection. */
  predicate ReadOnly(req: Request)
  {
    req.ListRequest? || req.GetRequest? || req.HeadRequest?
  }

  /** Requests that never move or change an existing item: reads and creates. */
  predicate AppendOnly(req: Request)
  {
    ReadOnly(req) || req.CreateRequest?
  }

  /** A history of reads leaves the collection as it was. */
  lemma {:induction false} ReadOnlyHistoryKeepsItems(items: seq<TodoItem>, reqs: seq<Request>)
    requires forall k :: 0 <= k < |reqs| ==> ReadOnly(reqs[k])
    ensures Run(items, reqs).items == items
    decreases |reqs|
  {
    if reqs != [] {
      ReadOnlyHistoryKeepsItems(items, reqs[1..]);
    }
  }

  /**
    A history of reads and creates keeps every existing item at its index: the
    collection only grows at the end.
  */
  lemma {:induction false} AppendOnlyHistoryKeepsIndices(items: seq<TodoItem>, reqs: seq<Request>)
    requires forall k :: 0 <= k < |reqs| ==> AppendOnly(reqs[k])
    ensures |Run(items, reqs).items| >= |items|
    ensures Run(items, reqs).items[..|items|] == items
    decreases |reqs|
  {
    if reqs != [] {
      var o := Handle(items, reqs[0]);
      assert |o.items| >= |items| && o.items[..|items|] == items;
      AppendOnlyHistoryKeepsIndices(o.items, reqs[1..]);
      var final := Run(items, reqs).items;
      assert final == Run(o.items, reqs[1..]).items;
      assert final[..|items|] == final[..|o.items|][..|items|];
    }
  }

  /**
    Create with a parsed form, then any history of reads and creates, then a GET at
    the index the create returned in its Location: the created item comes back.
  */
  lemma CreatedItemIsReadBack(items: seq<TodoItem>, content: string, doneText: string, done: bool,
                              reqs: seq<Request>)
    requires forall k :: 0 <= k < |reqs| ==> AppendOnly(reqs[k])
    ensures GetItem(Run(CreateItem(items, Some(Form(content, doneText, Some(done)))).items, reqs).items,
                    CreateItem(items, Some(Form(content, doneText, Some(done)))).response.location)
            == Response(StatusOK, ItemJson(TodoItem(content, done)), None)
  {
    var created := CreateItem(items, Some(Form(content, doneText, Some(done))));
    AppendOnlyHistoryKeepsIndices(created.items, reqs);
    var final := Run(created.items, reqs).items;
    assert final[|items|] == final[..|created.items|][|items|];
  }
}
