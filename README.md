# Todo-item router: the in-memory collection and its handlers

This project models the CRUD router of the routing example
(`examples/2-routing/main.go`). The server keeps one process-wide, ordered
collection of todo items. Each item holds a `Content` text and a `Done` flag.
An item is identified by its current index. Seven HTTP handlers read and change
that collection:

- list: `GET /todo-item`
- read one: `GET /todo-item/{id}`
- exists: `HEAD /todo-item/{id}`
- create: `POST /todo-item`
- replace: `PUT /todo-item/{id}`
- partial update: `PATCH /todo-item/{id}`
- delete: `DELETE /todo-item/{id}`

Every handler runs a fixed chain of checks and stops at the first failure with
a 4xx response. The checks are, in order:

1. `id` must be an integer, else 400 `` `id` must be of type int ``.
2. `id` must be in range, else 404 `` `id` not found ``.
3. The form must parse, else 400 `invalid form`.
4. `done` must be a boolean, else 400 `` `done` must be of type bool ``.

The model has four modules:

- `Wrappers` holds the `Option` type.
- `Routing` holds the data model (`TodoItem`, `Response`, `Form`, `Outcome`).
  It also holds each handler as a pure function from the collection and the
  parsed request to the new collection and the response. The contracts of these
  functions state what each handler promises.
- `RoutingServer` holds the class `TodoStore`. Its field `items` is the
  collection. It has one method per handler, written with the handler's early
  returns. Each method is proved to agree with its pure function.
  `BuyMilkScenario` is a client that creates an item, reads it, marks it done,
  deletes it and then gets 404.
- `RoutingHistory` folds a sequence of requests over the collection. It proves
  that reads leave the collection alone. It also proves that while only reads
  and creates happen, every item keeps its index, so a created item can be read
  back at the index its `Location` named.

Parser results are inputs. The path id is the result of integer parsing
(`None` means "not an int"). A signed id such as `-1` parses and then fails the
bounds check. The form is the result of form parsing (`None` means it did not
parse). It holds the `content` text, the raw `done` text, and the result of
boolean parsing of that text.

Two handler behaviours are worth knowing, and the model keeps both:

- A PATCH with non-empty `content` and a malformed, non-empty `done` writes the
  new content (main.go:236) before it returns 400 (main.go:244-248). That
  failed request has therefore changed the collection.
- PUT sets `Location` from the length of the collection (main.go:201), the same
  way create does. It therefore names the last index, not the replaced `id`.

## Model

| member | source | states |
|---|---|---|
| Routing.OutOfRange | examples/2-routing/main.go:96 | the bounds test `id < 0 \|\| id > len-1` holds exactly when `id` is not in `0..len-1` |
| Routing.IdFailure | examples/2-routing/main.go:87-100 | the shared id checks pass exactly when the id parsed and is in range; an unparsed id gives 400 "`id` must be of type int" before any bounds check; a parsed out-of-range id gives 404 "`id` not found" |
| Routing.RemoveAt | examples/2-routing/main.go:276 | the splice drops one element: items before `i` keep their index and each later item moves down one index |
| Routing.ListItems | examples/2-routing/main.go:77-82 | list answers 200 with the whole collection as the body |
| Routing.GetItem | examples/2-routing/main.go:85-104 | read answers 200 exactly when `0 <= id < len`, and then its body is `items[id]`; otherwise it answers the id-check failure |
| Routing.ItemExists | examples/2-routing/main.go:107-125 | exists answers 200 exactly when `0 <= id < len`, with no body; its status always equals read's status |
| Routing.CreateItem | examples/2-routing/main.go:128-157 | create answers 201 exactly when the form parsed and `done` is a bool; then the collection grows by exactly one, the old items are a prefix, the last item is (content, done) and Location is the old length; otherwise 400 with the matching message and the collection unchanged |
| Routing.ReplaceItem | examples/2-routing/main.go:160-204 | id failures return before the form is looked at, with the collection unchanged; replace answers 200 exactly when the id is in range, the form parsed and `done` is a bool; then `items[id]` becomes (content, done), the length and all other positions are unchanged, and Location is `len-1`; every failure leaves the collection unchanged |
| Routing.UpdateItem | examples/2-routing/main.go:207-254 | id and form failures leave the collection unchanged; the length and every other position never change; content is overwritten only when non-empty; done is overwritten only when its text is non-empty and parses; when the text is non-empty and malformed the answer is 400, but a non-empty content has still been written; otherwise 200 |
| Routing.DeleteItem | examples/2-routing/main.go:257-279 | delete answers 200 exactly when `0 <= id < len`; then the length drops by one, earlier items keep their index and later items move down one; id failures leave the collection unchanged |
| RoutingServer.TodoStore.constructor | examples/2-routing/main.go:22 | the collection starts empty |
| RoutingServer.TodoStore.GetTodoItems | examples/2-routing/main.go:77-82 | the list handler's response is `ListItems` of the current collection, and the collection is not modified |
| RoutingServer.TodoStore.GetTodoItem | examples/2-routing/main.go:85-104 | the read handler answers `GetItem` of the current collection and does not modify it |
| RoutingServer.TodoStore.GetTodoItemExists | examples/2-routing/main.go:107-125 | the exists handler answers `ItemExists` of the current collection and does not modify it |
| RoutingServer.TodoStore.CreateTodoItem | examples/2-routing/main.go:128-157 | the new collection and the response are those of `CreateItem` on the old collection |
| RoutingServer.TodoStore.ReplaceTodoItem | examples/2-routing/main.go:160-204 | the new collection and the response are those of `ReplaceItem` on the old collection |
| RoutingServer.TodoStore.UpdateTodoItem | examples/2-routing/main.go:207-254 | the new collection and the response are those of `UpdateItem` on the old collection, including the content write that comes before a 400 for a malformed `done` |
| RoutingServer.TodoStore.DeleteTodoItem | examples/2-routing/main.go:257-279 | the new collection and the response are those of `DeleteItem` on the old collection |
| RoutingHistory.Handle | examples/2-routing/main.go:33-47 | one handled request changes the collection's length by at most one |
| RoutingHistory.Run | examples/2-routing/main.go:33-47 | a history of requests yields one response per request, the first being the response of the handler the first request is routed to, and the length moves by at most one per request |
| RoutingHistory.ReadOnlyHistoryKeepsItems | examples/2-routing/main.go:77-125 | any sequence of list, read and exists requests leaves the collection exactly as it was |
| RoutingHistory.AppendOnlyHistoryKeepsIndices | examples/2-routing/main.go:77-157 | any sequence of reads and creates keeps every existing item at its index |
| RoutingHistory.CreatedItemIsReadBack | examples/2-routing/main.go:147-156 | after a create whose form parsed with a bool `done`, followed by any reads and creates, a read at the Location index returns the created (content, done) pair |

## Left out

- The server lifecycle in all three programs is not modelled: the `-p` port flag, `http.NewServeMux` routing by method and path, `http.Server`, `ListenAndServe` in a goroutine, interrupt handling, and the 5-second graceful `Shutdown` (examples/2-routing/main.go:25-74, examples/1-shutdown/main.go:15-73, examples/0-hello-world/main.go:18-59). These are I/O and concurrency handled by net/http. `RoutingHistory.Handle` stands in for the route table only as a map from request kind to handler.
- `recoverer` (examples/2-routing/main.go:281-286, examples/1-shutdown/main.go:80-87) is not modelled. It is process-level panic handling: it logs and exits with status 1.
- `pingHandler` and `helloWorld` (examples/1-shutdown/main.go:76-78, examples/0-hello-world/main.go:61-63) are not modelled. Each writes a constant string.
- Integer parsing, form parsing and boolean parsing are not modelled; their results are inputs. The model does not relate the raw `done` text to its parsed value, except where the handler itself tests the text for emptiness.
- Go's integer width is not modelled. Ids are unbounded integers; the integer parser's range errors arrive as an unparsed id.
- JSON encoding is not modelled. A body is abstracted to "one item" or "the whole collection"; the encoder's exact bytes, including its trailing newline, are not.
- The `Location` header's host prefix (`r.URL.Host`) is not modelled; only its index part is.
- For HEAD requests, net/http drops any body a handler writes. The model keeps the handler's error text on 400/404 as the handler writes it.
- Concurrent, unsynchronised access to the collection from parallel handlers is not modelled. Handlers are sequential calls on one object.
