/**
  The process-wide todo collection and the seven handlers that read and change it
  in place, as one object called sequentially. Each method follows its handler's
  chain of checks with early returns and is proved to agree with the matching
  pure function in Routing, whose contract states what the handler promises.
*/
module RoutingServer {
  import opened Wrappers
  import opened Routing

  class TodoStore {
    /** The collection; an item's identity is its index. */
    var items: seq<TodoItem>

    /** The collection starts empty. */
    constructor ()
      ensures items == []
    {
      items := [];
    }

    /** GET /todo-item */
    method GetTodoItems() returns (resp: Response)
      ensures resp == ListItems(items)
    {
      resp := Response(StatusOK, ListJson(items), None);
    }

    /** GET /todo-item/{id} */
    method GetTodoItem(id: Option<int>) returns (resp: Response)
      ensures resp == GetItem(items, id)
    {
      if id.None? {
        return Fail(StatusBadRequest, IdNotInt);
      }
      var i := id.value;
      if OutOfRange(i, |items|) {
        return Fail(StatusNotFound, IdNotFound);
      }
      resp := Response(StatusOK, ItemJson(items[i]), None);
    }

    /** HEAD /todo-item/{id} */
    method GetTodoItemExists(id: Option<int>) returns (resp: Response)
      ensures resp == ItemExists(items, id)
    {
      if id.None? {
        return Fail(StatusBadRequest, IdNotInt);
      }
      if OutOfRange(id.value, |items|) {
        return Fail(StatusNotFound, IdNotFound);
      }
      resp := Response(StatusOK, NoBody, None);
    }

    /** POST /todo-item */
    method CreateTodoItem(form: Option<Form>) returns (resp: Response)
      modifies this
      ensures Outcome(items, resp) == CreateItem(old(items), form)
    {
      if form.None? {
        return Fail(StatusBadRequest, InvalidForm);
      }
      var content := form.value.content;
      if form.value.done.None? {
        return Fail(StatusBadRequest, DoneNotBool);
      }
      items := items + [TodoItem(content, form.value.done.value)];
      resp := Response(StatusCreated, NoBody, Some(|items| - 1));
    }

    /** PUT /todo-item/{id} */
    method ReplaceTodoItem(id: Option<int>, form: Option<Form>) returns (resp: Response)
      modifies this
      ensures Outcome(items, resp) == ReplaceItem(old(items), id, form)
    {
      if id.None? {
        return Fail(StatusBadRequest, IdNotInt);
      }
      var i := id.value;
      if OutOfRange(i, |items|) {
        return Fail(StatusNotFound, IdNotFound);
      }
      if form.None? {
        return Fail(StatusBadRequest, InvalidForm);
      }
      var content := form.value.content;
      if form.value.done.None? {
        return Fail(StatusBadRequest, DoneNotBool);
      }
      items := items[i := TodoItem(content, form.value.done.value)];
      resp := Response(StatusOK, NoBody, Some(|items| - 1));
    }

    /** PATCH /todo-item/{id} */
    method UpdateTodoItem(id: Option<int>, form: Option<Form>) returns (resp: Response)
      modifies this
      ensures Outcome(items, resp) == UpdateItem(old(items), id, form)
    {
      if id.None? {
        return Fail(StatusBadRequest, IdNotInt);
      }
      var i := id.value;
      if OutOfRange(i, |items|) {
        return Fail(StatusNotFound, IdNotFound);
      }
      if form.None? {
        return Fail(StatusBadRequest, InvalidForm);
      }
      var content := form.value.content;
      if content != "" {
        items := items[i := items[i].(content := content)];
      }
      var doneText := form.value.doneText;
      if doneText != "" {
        if form.value.done.None? {
          return Fail(StatusBadRequest, DoneNotBool);
        }
        items := items[i := items[i].(done := form.value.done.value)];
      }
      resp := Response(StatusOK, NoBody, None);
    }

    /** DELETE /todo-item/{id} */
    method DeleteTodoItem(id: Option<int>) returns (resp: Response)
      modifies this
      ensures Outcome(items, resp) == DeleteItem(old(items), id)
    {
      if id.None? {
        return Fail(StatusBadRequest, IdNotInt);
      }
      var i := id.value;
      if OutOfRange(i, |items|) {
        return Fail(StatusNotFound, IdNotFound);
      }
      items := items[..i] + items[i + 1..];
      resp := Response(StatusOK, NoBody, None);
    }
  }

  /**
    A client of TodoStore: create "buy milk", read it back, mark it done with a
    request that carries only `done`, read it again, delete it, and find it gone.
  */
  method BuyMilkScenario()
  {
    var store := new TodoStore();
    var r := store.CreateTodoItem(Some(Form("buy milk", "false", Some(false))));
    assert r.status == StatusCreated && r.location == Some(0);
    r := store.GetTodoItem(Some(0));
    assert r == Response(StatusOK, ItemJson(TodoItem("buy milk", false)), None);
    r := store.UpdateTodoItem(Some(0), Some(Form("", "true", Some(true))));
    assert r.status == StatusOK;
    r := store.GetTodoItem(Some(0));
    assert r == Response(StatusOK, ItemJson(TodoItem("buy milk", true)), None);
    r := store.DeleteTodoItem(Some(0));
    assert r.status == StatusOK;
    r := store.GetTodoItem(Some(0));
    assert r == Fail(StatusNotFound, IdNotFound);
  }
}
