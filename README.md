# Task API store, modelled in Dafny

A model of the core of a small task-tracking HTTP service (`index.js`). The
service keeps its tasks in a module-level array `tasks` and counts every
request whose body parses in `requestCount`. A middleware counts each such
request and gives it a trace id. The route handlers then read or change the array:

- GET /health
- GET /metrics
- GET /tasks
- POST /tasks appends a task.
- PUT /tasks/:id sets `completed` on the first task with that id.
- DELETE /tasks/:id splices out the first task with that id.

Files:

- `wrappers.dfy`: `Option`, used for JSON fields that may be absent.
- `task_model.dfy` (module `TaskModel`): the store as values. It holds the
  `Task` record, the parsed `Request` and the `Response`, and `IndexOf`
  (`find`/`findIndex`). It gives each handler's change to the store as a
  function (`Create`, `Update`, `Delete`, dispatched by `Next`) and each
  handler's response (`Reply`). `Run` serves a sequence of requests. The
  lemmas cover idempotence, ids on traces without deletions and the id
  collision after a deletion.
- `task_server.dfy` (module `TaskServer`): the class `Server`. Its fields
  `tasks: seq<Task>` and `requestCount: nat` are updated in place. `Serve` is
  the counting middleware followed by dispatch to one method per handler. Each
  handler method is proved against `Next`/`Reply`. `FindIndex` is the linear
  scan, a loop proved equal to `IndexOf`.
- `counted_ids.dfy` (module `CountedIds`): the corrected id policy that the
  finding below calls for. Ids come from a counter that only grows. The module
  proves that ids stay unique on every trace.

Ids are derived from the array's length (`index.js:57`), and the class models
them that way. So ids are unique only while nothing is deleted. The model
proves uniqueness under that condition only, not as a class invariant. The
counter-based policy in `CountedIds` is the corrected alternative; see
"## Findings".

Inputs that the source takes from the runtime are request parameters in the
model. The trace id is the `traceId` of a `Request`. The ISO timestamp of a
created task is the `createdAt` of `CreateTask`. The count that GET /metrics
reports includes the metrics request itself, because the middleware runs
first. The middleware runs for every request whose body parses, including requests that match
none of the six routes. Those are the `Unrouted` route: they are counted,
leave the store unchanged and get Express's default 404 page, whose text the
model does not spell out.

## Model

| member | source | states |
|---|---|---|
| `TaskModel.IndexOf` | index.js:94-96 | -1 exactly when no task has the id; otherwise the position of a task with that id, with no earlier task having it (the first match) |
| `TaskServer.FindIndex` | index.js:94 | the linear scan returns exactly `IndexOf`: the first position holding the id, or -1 |
| `TaskModel.Create` | index.js:47-63 | a falsy title (absent or "") leaves the store unchanged; a truthy one appends exactly one task at the end with id = old length + 1, the given title, `completed = false` and the given timestamp, and keeps all earlier tasks |
| `TaskModel.Update` | index.js:74-83 | the length and every id are unchanged; with no matching id, or with `completed` absent/null, the store is unchanged; otherwise only the first matching task changes, and only its `completed`, which becomes the given value (an explicit `false` included) |
| `TaskModel.Delete` | index.js:94-103 | with no matching id the store is unchanged; otherwise the length drops by one, the tasks before the first match are unchanged and the ones after it shift down by one in the same order |
| `TaskModel.Reply` | index.js:25-109 | health is always 200 `{status: "UP"}`; metrics reports the count and the number of tasks; list returns the store in order; create is 400 exactly when the title is falsy, else 201 with the new task; update and delete are 404 exactly when no task has the id, else 200 with the updated task or the deletion message; a successful update returns the first task with the id, after its update; a request matching no route is 404 with Express's default page; every other error body echoes the trace id with "Title is required" or "Task not found" |
| `TaskModel.UpdateIsIdempotent` | index.js:83 | applying the same update twice gives the same store as applying it once |
| `TaskModel.NextKeepsIdsSequential` | index.js:56-63 | every handler other than DELETE keeps the ids exactly 1..n in store order |
| `TaskModel.SequentialIdsAreUnique` | index.js:57 | ids that are exactly 1..n are pairwise distinct |
| `TaskModel.IdsSequentialWithoutDeletes` | index.js:57 | on any trace with no DELETE request, the ids stay exactly 1..n in insertion order, and therefore unique |
| `TaskModel.DeleteThenCreateDuplicatesId` | index.js:57 | with ids 1..n, deleting any task but the last and then creating one gives the new task id n, which the old last task still holds; ids are no longer unique, and a lookup by that id finds the old task |
| `TaskModel.DuplicateIdExample` | index.js:46-109 | create "a", create "b", DELETE /tasks/1, create "c" leaves two tasks with id 2; PUT /tasks/2 then changes only "b", and DELETE /tasks/2 removes only "b" |
| `TaskServer.Server.constructor` | index.js:6-7 | the process starts with no tasks and a zero request count |
| `TaskServer.Server.Serve` | index.js:10-22 | the middleware adds exactly one to the request count, on every request whose body parses, unrouted ones included; then the handler changes the store as `Next` says and replies as `Reply` says, seeing the count that includes this request |
| `TaskServer.Server.GetHealth` | index.js:25-27 | replies 200 `{status: "UP"}` whatever the store holds |
| `TaskServer.Server.GetMetrics` | index.js:30-35 | replies 200 with the current request count and number of tasks |
| `TaskServer.Server.GetTasks` | index.js:38-43 | replies 200 with the trace id and the store's tasks, unchanged and in insertion order |
| `TaskServer.Server.PostTask` | index.js:46-70 | the new store is `Create` of the old one, and the reply is `Reply`'s: 400 "Title is required" or 201 with the pushed task |
| `TaskServer.Server.PutTask` | index.js:73-90 | the new store is `Update` of the old one, and the reply is `Reply`'s: 404 "Task not found" or 200 with the updated task |
| `TaskServer.Server.DeleteTaskById` | index.js:93-109 | the new store is `Delete` of the old one, and the reply is `Reply`'s: 404 "Task not found" or 200 "Task deleted" |
| `CountedIds.CountedNextKeepsIds` | index.js:57 | with counter-based ids, every handler keeps the ids strictly increasing and below the counter |
| `CountedIds.CountedRunKeepsIdsUnique` | index.js:57 | with counter-based ids, ids stay unique on every trace, deletions included |
| `CountedIds.CountedIdsUniqueFromStart` | index.js:57 | starting from an empty store with counter 1, every reachable store has unique ids |

## Left out

- Express routing, `express.json()` body parsing and `app.listen` on port 3000 (index.js:1-4, index.js:112-114). These are framework and network plumbing. A request arrives already parsed as a `Request`.
- `console.log` of each request (index.js:14-19): output only.
- Trace id generation with `Math.random()` (index.js:12): randomness. The trace id is an input of each request, and the responses of the /tasks routes echo it.
- `new Date().toISOString()` (index.js:60): wall-clock time. It becomes the `createdAt` input of a create request.
- JavaScript coercions. The loose `==` between the string path parameter and the numeric id is modelled as integer equality on an `int` path id. `title` is modelled as `Option<string>`, so the truthiness of non-string JSON titles is out of scope. `completed` is modelled as `Option<bool>`, so non-boolean values are out of scope. `null` and absent both map to `None`.
- Object identity. In the source, the task that PUT returns is the same object that is stored. In the model, it is the updated value. The response is serialised at once, so the two cannot be told apart.
- Requests whose body `express.json()` rejects (400/413/415) are answered by Express's error handler and are never counted (index.js:4 runs before index.js:10). OPTIONS on a routed path gets Express's automatic 200 reply listing the allowed methods, not the `Unrouted` 404.
- Concurrency. The source runs each handler to completion on one event loop.
- The model assumes Express 4, where `express.json()` leaves `req.body` as `{}` when no JSON body is sent; a body-less request therefore maps to absent fields (`CreateTask(None, _)`, `UpdateTask(_, None)`). Under Express 5 `req.body` is `undefined`, so POST /tasks (index.js:47) and PUT on an existing id (index.js:83) throw and get Express's 500. The request is still counted and the store is unchanged. That 500 path is not modelled.
- The test file's `require("../index")`. `index.js` does not export `app`, so that call does not yield the server. The test assertions are reflected only in `Reply`'s contract.

## Findings

| source | as written | input that shows it | evidently intended | confidence | as-written member | corrected member |
|---|---|---|---|---|---|---|
| index.js:57 | a new task's id is `tasks.length + 1` | POST "a", POST "b", DELETE /tasks/1, POST "c": both remaining tasks have id 2, and PUT/DELETE /tasks/2 can never reach "c" while "b" exists | ids are never reused, because they come from a counter that only grows | high, by proof; not executed | `TaskModel.DeleteThenCreateDuplicatesId` | `CountedIds.CountedRunKeepsIdsUnique` |

The class `TaskServer.Server` models the code as written, length-derived ids
included. The corrected policy lives in `CountedIds` beside it. It reuses
`Update` and `Delete` unchanged and replaces only the id assignment on create.
