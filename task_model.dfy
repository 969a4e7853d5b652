/**
 * The in-memory task store of the task API, as values.
 *
 * The store is the ordered sequence `tasks`; each route handler is a pure
 * transition of that sequence (`Next`) plus the JSON response it sends
 * (`Reply`). The class in task_server.dfy performs the same changes in place
 * and is proved against these functions.
 */
module TaskModel {
  import opened Wrappers

  /** One task record; `id` is derived from the store's length at creation. */
  datatype Task = Task(id: nat, title: string, completed: bool, createdAt: string)

  /**
   * What a request asks for once the HTTP layer has parsed it. The path
   * parameter `:id` is abstracted to an integer, the body's `title` to an
   * optional string, its `completed` to an optional boolean. `createdAt` is
   * the wall-clock time the handler would read.
   */
  datatype Route =
    | Health
    | Metrics
    | ListTasks
    | CreateTask(title: Option<string>, createdAt: string)
    | UpdateTask(id: int, completed: Option<bool>)
    | DeleteTask(id: int)
      /** A request no handler matches; Express answers it with its default 404 page. */
    | Unrouted

  /** A request together with the trace id the middleware assigned to it. */
  datatype Request = Request(traceId: string, route: Route)

  /** The JSON bodies the handlers send. */
  datatype Body =
    | Status(status: string)
    | Counts(requests: nat, tasks: nat)
    | Listing(traceId: string, data: seq<Task>)
    | WithTask(traceId: string, message: string, task: Task)
    | Message(traceId: string, message: string)
    | Failure(traceId: string, error: string)
      /** Express's default "Cannot GET /..." page, whose text is not modelled. */
    | NoRoute

  datatype Response = Response(code: nat, body: Body)

  const TitleRequired := "Title is required"
  const TaskNotFound := "Task not found"

  /** JavaScript truthiness of the body's `title`: absent and "" are falsy. */
  predicate HasTitle(title: Option<string>)
  {
    title.Some? && title.value != ""
  }

  /** The `??` operator: the given value when present (even `false`), else the current one. */
  function Coalesce(given: Option<bool>, current: bool): bool
  {
    if given.Some? then given.value else current
  }

  /**
   * `findIndex` by id: the position of the first task with that id, or -1
   * when no task has it.
   */
  function IndexOf(tasks: seq<Task>, id: int): (i: int)
    ensures -1 <= i < |tasks|
    ensures i == -1 <==> forall k :: 0 <= k < |tasks| ==> tasks[k].id != id
    ensures 0 <= i ==> tasks[i].id == id && forall k :: 0 <= k < i ==> tasks[k].id != id
  {
    if |tasks| == 0 then -1
    else if tasks[0].id == id then 0
    else
      var j := IndexOf(tasks[1..], id);
      if j == -1 then -1 else j + 1
  }

  /** POST /tasks on the store: append a fresh, uncompleted task when the title is truthy. */
  function Create(tasks: seq<Task>, title: Option<string>, createdAt: string): (r: seq<Task>)
    ensures !HasTitle(title) ==> r == tasks
    ensures HasTitle(title) ==>
      |r| == |tasks| + 1 && r[..|tasks|] == tasks &&
      r[|tasks|] == Task(|tasks| + 1, title.value, false, createdAt)
  {
    if HasTitle(title) then tasks + [Task(|tasks| + 1, title.value, false, createdAt)] else tasks
  }

  /** PUT /tasks/:id on the store: set `completed` of the first task with that id. */
  function Update(tasks: seq<Task>, id: int, completed: Option<bool>): (r: seq<Task>)
    ensures |r| == |tasks|
    ensures IndexOf(tasks, id) == -1 ==> r == tasks
    ensures completed.None? ==> r == tasks
    ensures forall k :: 0 <= k < |tasks| ==> r[k].id == tasks[k].id
    ensures var i := IndexOf(tasks, id);
      0 <= i ==>
        r[i] == tasks[i].(completed := Coalesce(completed, tasks[i].completed)) &&
        (completed.Some? ==> r[i].completed == completed.value) &&
        forall k :: 0 <= k < |tasks| && k != i ==> r[k] == tasks[k]
  {
    var i := IndexOf(tasks, id);
    if i == -1 then tasks
    else tasks[i := tasks[i].(completed := Coalesce(completed, tasks[i].completed))]
  }

  /** DELETE /tasks/:id on the store: splice out the first task with that id. */
  function Delete(tasks: seq<Task>, id: int): (r: seq<Task>)
    ensures IndexOf(tasks, id) == -1 ==> r == tasks
    ensures var i := IndexOf(tasks, id);
      0 <= i ==>
        |r| == |tasks| - 1 &&
        (forall k :: 0 <= k < i ==> r[k] == tasks[k]) &&
        (forall k :: i <= k < |r| ==> r[k] == tasks[k + 1])
  {
    var i := IndexOf(tasks, id);
    if i == -1 then tasks else tasks[..i] + tasks[i + 1..]
  }

  /** The store after the handler for `req` has run. */
  function Next(tasks: seq<Task>, req: Request): seq<Task>
  {
    match req.route
    case CreateTask(title, createdAt) => Create(tasks, title, createdAt)
    case UpdateTask(id, completed) => Update(tasks, id, completed)
    case DeleteTask(id) => Delete(tasks, id)
    case _ => tasks
  }

  /**
   * The response the handler for `req` sends, given the store before the
   * handler runs and the request count after the middleware has counted it.
   */
  function Reply(tasks: seq<Task>, count: nat, req: Request): (r: Response)
    ensures req.route.Health? ==> r == Response(200, Status("UP"))
    ensures req.route.Metrics? ==> r == Response(200, Counts(count, |tasks|))
    ensures req.route.ListTasks? ==> r == Response(200, Listing(req.traceId, tasks))
    ensures req.route.CreateTask? ==>
      (r.code == 400 <==> !HasTitle(req.route.title)) &&
      (r.code == 400 || r.code == 201) &&
      (r.code == 201 ==> r.body == WithTask(req.traceId, "Task created", Next(tasks, req)[|tasks|]))
    ensures (req.route.UpdateTask? || req.route.DeleteTask?) ==>
      (r.code == 404 <==> forall k :: 0 <= k < |tasks| ==> tasks[k].id != req.route.id) &&
      (r.code == 404 || r.code == 200)
    ensures req.route.UpdateTask? && r.code == 200 ==>
      var i := IndexOf(tasks, req.route.id);
      0 <= i && r.body == WithTask(req.traceId, "Task updated", Next(tasks, req)[i])
    ensures req.route.DeleteTask? && r.code == 200 ==> r.body == Message(req.traceId, "Task deleted")
    ensures req.route.Unrouted? ==> r == Response(404, NoRoute)
    ensures r.code >= 400 && !req.route.Unrouted? ==>
      r.body == Failure(req.traceId, if req.route.CreateTask? then TitleRequired else TaskNotFound)
  {
    match req.route
    case Health => Response(200, Status("UP"))
    case Metrics => Response(200, Counts(count, |tasks|))
    case ListTasks => Response(200, Listing(req.traceId, tasks))
    case CreateTask(title, createdAt) =>
      if !HasTitle(title) then Response(400, Failure(req.traceId, TitleRequired))
      else Response(201, WithTask(req.traceId, "Task created", Task(|tasks| + 1, title.value, false, createdAt)))
    case UpdateTask(id, completed) =>
      var i := IndexOf(tasks, id);
      if i == -1 then Response(404, Failure(req.traceId, TaskNotFound))
      else Response(200, WithTask(req.traceId, "Task updated", Update(tasks, id, completed)[i]))
    case DeleteTask(id) =>
      if IndexOf(tasks, id) == -1 then Response(404, Failure(req.traceId, TaskNotFound))
      else Response(200, Message(req.traceId, "Task deleted"))
    case Unrouted => Response(404, NoRoute)
  }

  /** The store after serving `reqs` in order, starting from `tasks`. */
  function Run(tasks: seq<Task>, reqs: seq<Request>): seq<Task>
    decreases |reqs|
  {
    if reqs == [] then tasks else Run(Next(tasks, reqs[0]), reqs[1..])
  }

  /** Ids are exactly 1..n in store order. */
  ghost predicate IdsSequential(tasks: seq<Task>)
  {
    forall k :: 0 <= k < |tasks| ==> tasks[k].id == k + 1
  }

  ghost predicate IdsUnique(tasks: seq<Task>)
  {
    forall j, k :: 0 <= j < k < |tasks| ==> tasks[j].id != tasks[k].id
  }

  /** Applying the same update twice leaves the same store as applying it once. */
  lemma UpdateIsIdempotent(tasks: seq<Task>, id: int, completed: Option<bool>)
    ensures Update(Update(tasks, id, completed), id, completed) == Update(tasks, id, completed)
  {
    var once := Update(tasks, id, completed);
    var i := IndexOf(tasks, id);
    IndexOfSameIds(tasks, once, id);
    if 0 <= i {
      var twice := Update(once, id, completed);
      assert forall k :: 0 <= k < |tasks| ==> twice[k] == once[k];
    }
  }

  /** `IndexOf` only looks at ids, so two stores with the same ids agree on it. */
  lemma IndexOfSameIds(a: seq<Task>, b: seq<Task>, id: int)
    requires |a| == |b|
    requires forall k :: 0 <= k < |a| ==> a[k].id == b[k].id
    ensures IndexOf(a, id) == IndexOf(b, id)
  {
    var i, j := IndexOf(a, id), IndexOf(b, id);
    if 0 <= i && 0 <= j {
      assert !(i < j) && !(j < i);
    }
  }

  /** Every handler except DELETE keeps the ids exactly 1..n. */
  lemma NextKeepsIdsSequential(tasks: seq<Task>, req: Request)
    requires IdsSequential(tasks)
    requires !req.route.DeleteTask?
    ensures IdsSequential(Next(tasks, req))
  {
    var r := Next(tasks, req);
    if req.route.CreateTask? && HasTitle(req.route.title) {
      forall k | 0 <= k < |r| ensures r[k].id == k + 1 {
        if k < |tasks| {
          assert r[k] == r[..|tasks|][k];
        }
      }
    }
  }

  /** Ids that are exactly 1..n are pairwise distinct. */
  lemma SequentialIdsAreUnique(tasks: seq<Task>)
    requires IdsSequential(tasks)
    ensures IdsUnique(tasks)
  {
  }

  /**
   * As long as no DELETE request has been served, the ids are exactly 1..n
   * in insertion order, hence unique.
   */
  lemma {:induction false} IdsSequentialWithoutDeletes(tasks: seq<Task>, reqs: seq<Request>)
    requires IdsSequential(tasks)
    requires forall k :: 0 <= k < |reqs| ==> !reqs[k].route.DeleteTask?
    ensures IdsSequential(Run(tasks, reqs))
    ensures IdsUnique(Run(tasks, reqs))
    decreases |reqs|
  {
    if reqs == [] {
      SequentialIdsAreUnique(tasks);
    } else {
      NextKeepsIdsSequential(tasks, reqs[0]);
      IdsSequentialWithoutDeletes(Next(tasks, reqs[0]), reqs[1..]);
    }
  }

  /** In a store with ids 1..n, the task with id `id` sits at position id - 1. */
  lemma IndexOfSequential(tasks: seq<Task>, id: int)
    requires IdsSequential(tasks)
    requires 1 <= id <= |tasks|
    ensures IndexOf(tasks, id) == id - 1
  {
    var i := IndexOf(tasks, id);
    assert tasks[id - 1].id == id;
  }

  /**
   * The length-derived id collides: deleting any task but the last from a
   * store with ids 1..n and then creating one gives the new task the id n,
   * which the old last task still holds. Lookups by that id then reach the
   * old task, not the new one.
   */
  lemma DeleteThenCreateDuplicatesId(tasks: seq<Task>, id: int, title: Option<string>, createdAt: string)
    requires IdsSequential(tasks)
    requires 1 <= id < |tasks|
    requires HasTitle(title)
    ensures var t := Create(Delete(tasks, id), title, createdAt);
      |t| == |tasks| &&
      t[|t| - 2] == tasks[|tasks| - 1] &&
      t[|t| - 1].id == |tasks| && t[|t| - 2].id == |tasks| &&
      !IdsUnique(t) &&
      IndexOf(t, |tasks|) == |t| - 2
  {
    IndexOfSequential(tasks, id);
    var d := Delete(tasks, id);
    var t := Create(d, title, createdAt);
    assert t[|t| - 2] == t[..|d|][|d| - 1];
    assert forall k :: 0 <= k < |t| - 2 ==> t[k] == d[k];
    assert forall k :: 0 <= k < |t| - 2 ==> t[k].id < |tasks|;
  }

  /**
   * The same collision on a concrete trace: create "a" and "b", delete task 1,
   * create "c". Both remaining tasks have id 2; PUT /tasks/2 changes "b" only
   * and DELETE /tasks/2 removes "b".
   */
  lemma DuplicateIdExample()
    ensures var t := Run([], [
        Request("t1", CreateTask(Some("a"), "c1")),
        Request("t2", CreateTask(Some("b"), "c2")),
        Request("t3", DeleteTask(1)),
        Request("t4", CreateTask(Some("c"), "c4"))]);
      t == [Task(2, "b", false, "c2"), Task(2, "c", false, "c4")] &&
      Update(t, 2, Some(true)) == [Task(2, "b", true, "c2"), Task(2, "c", false, "c4")] &&
      Delete(t, 2) == [Task(2, "c", false, "c4")]
  {
  }
}
