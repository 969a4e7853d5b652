/**
 * The task API server: the module-level `tasks` array and `requestCount`
 * counter of the service, updated in place by the counting middleware and
 * the route handlers. Each handler is proved against the pure transition and
 * response of TaskModel.
 */
module TaskServer {
  import opened Wrappers
  import opened TaskModel

  /** Linear scan for the first task with id `id` (`findIndex`); -1 when there is none. */
  method FindIndex(tasks: seq<Task>, id: int) returns (index: int)
    ensures index == IndexOf(tasks, id)
  {
    index := 0;
    while index < |tasks|
      invariant 0 <= index <= |tasks|
      invariant forall k :: 0 <= k < index ==> tasks[k].id != id
    {
      if tasks[index].id == id {
        return;
      }
      index := index + 1;
    }
    index := -1;
  }

  class Server {
    var tasks: seq<Task>
    var requestCount: nat

    /** A fresh process: no tasks, no requests served. */
    constructor ()
      ensures tasks == [] && requestCount == 0
    {
      tasks := [];
      requestCount := 0;
    }

    /**
     * One request: the middleware counts it, then the matching handler runs
     * (Express's default 404 when no route matches).
     * The handler sees the count that already includes this request.
     */
    method Serve(req: Request) returns (r: Response)
      modifies this
      ensures requestCount == old(requestCount) + 1
      ensures tasks == Next(old(tasks), req)
      ensures r == Reply(old(tasks), requestCount, req)
    {
      requestCount := requestCount + 1;
      match req.route
      case Health =>
        r := GetHealth();
      case Metrics =>
        r := GetMetrics();
      case ListTasks =>
        r := GetTasks(req.traceId);
      case CreateTask(title, createdAt) =>
        r := PostTask(req.traceId, title, createdAt);
      case UpdateTask(id, completed) =>
        r := PutTask(req.traceId, id, completed);
      case DeleteTask(id) =>
        r := DeleteTaskById(req.traceId, id);
      case Unrouted =>
        r := Response(404, NoRoute);
    }

    /** GET /health: always UP, whatever the store holds. */
    method GetHealth() returns (r: Response)
      ensures r == Response(200, Status("UP"))
    {
      r := Response(200, Status("UP"));
    }

    /** GET /metrics: the request count and the number of tasks. */
    method GetMetrics() returns (r: Response)
      ensures r.code == 200 && r.body.Counts?
      ensures r.body.requests == requestCount && r.body.tasks == |tasks|
    {
      r := Response(200, Counts(requestCount, |tasks|));
    }

    /** GET /tasks: every task, in insertion order. */
    method GetTasks(traceId: string) returns (r: Response)
      ensures r == Response(200, Listing(traceId, tasks))
    {
      r := Response(200, Listing(traceId, tasks));
    }

    /** POST /tasks: 400 without a truthy title, otherwise push a new task with id length + 1. */
    method PostTask(traceId: string, title: Option<string>, createdAt: string) returns (r: Response)
      modifies this`tasks
      ensures tasks == Create(old(tasks), title, createdAt)
      ensures r == Reply(old(tasks), requestCount, Request(traceId, CreateTask(title, createdAt)))
    {
      if !HasTitle(title) {
        return Response(400, Failure(traceId, TitleRequired));
      }
      var task := Task(|tasks| + 1, title.value, false, createdAt);
      tasks := tasks + [task];
      r := Response(201, WithTask(traceId, "Task created", task));
    }

    /** PUT /tasks/:id: 404 when no task has the id, otherwise set `completed ?? old value` on the first one. */
    method PutTask(traceId: string, id: int, completed: Option<bool>) returns (r: Response)
      modifies this`tasks
      ensures tasks == Update(old(tasks), id, completed)
      ensures r == Reply(old(tasks), requestCount, Request(traceId, UpdateTask(id, completed)))
    {
      var index := FindIndex(tasks, id);
      if index == -1 {
        return Response(404, Failure(traceId, TaskNotFound));
      }
      var task := tasks[index].(completed := Coalesce(completed, tasks[index].completed));
      tasks := tasks[index := task];
      r := Response(200, WithTask(traceId, "Task updated", task));
    }

    /** DELETE /tasks/:id: 404 when no task has the id, otherwise splice out the first one. */
    method DeleteTaskById(traceId: string, id: int) returns (r: Response)
      modifies this`tasks
      ensures tasks == Delete(old(tasks), id)
      ensures r == Reply(old(tasks), requestCount, Request(traceId, DeleteTask(id)))
    {
      var index := FindIndex(tasks, id);
      if index == -1 {
        return Response(404, Failure(traceId, TaskNotFound));
      }
      tasks := tasks[..index] + tasks[index + 1..];
      r := Response(200, Message(traceId, "Task deleted"));
    }
  }
}
