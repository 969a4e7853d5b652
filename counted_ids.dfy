/**
 * The task store with the id policy the service evidently intends: ids come
 * from a counter that only grows, not from the store's length. Update and
 * delete are those of TaskModel; only create differs.
 */
module CountedIds {
  import opened Wrappers
  import opened TaskModel

  /** The tasks and the id the next created task receives. */
  datatype Store = Store(tasks: seq<Task>, nextId: nat)

  const Initial := Store([], 1)

  /** The store after the handler for `req` has run, with counter-based ids. */
  function CountedNext(s: Store, req: Request): Store
  {
    match req.route
    case CreateTask(title, createdAt) =>
      if HasTitle(title) then Store(s.tasks + [Task(s.nextId, title.value, false, createdAt)], s.nextId + 1)
      else s
    case UpdateTask(id, completed) => Store(Update(s.tasks, id, completed), s.nextId)
    case DeleteTask(id) => Store(Delete(s.tasks, id), s.nextId)
    case _ => s
  }

  function CountedRun(s: Store, reqs: seq<Request>): Store
    decreases |reqs|
  {
    if reqs == [] then s else CountedRun(CountedNext(s, reqs[0]), reqs[1..])
  }

  /** Ids strictly increase along the store and all lie below the counter. */
  ghost predicate IdsBelowCounter(s: Store)
  {
    (forall j, k :: 0 <= j < k < |s.tasks| ==> s.tasks[j].id < s.tasks[k].id) &&
    (forall k :: 0 <= k < |s.tasks| ==> s.tasks[k].id < s.nextId)
  }

  /** Every handler keeps the ids increasing and below the counter. */
  lemma CountedNextKeepsIds(s: Store, req: Request)
    requires IdsBelowCounter(s)
    ensures IdsBelowCounter(CountedNext(s, req))
  {
    var r := CountedNext(s, req);
    match req.route
    case DeleteTask(id) =>
      var i := IndexOf(s.tasks, id);
      if 0 <= i {
        forall j, k | 0 <= j < k < |r.tasks| ensures r.tasks[j].id < r.tasks[k].id {
          var j' := if j < i then j else j + 1;
          var k' := if k < i then k else k + 1;
          assert r.tasks[j] == s.tasks[j'] && r.tasks[k] == s.tasks[k'];
        }
      }
    case _ =>
  }

  /** Under the counter policy, ids stay unique across any trace, deletions included. */
  lemma {:induction false} CountedRunKeepsIdsUnique(s: Store, reqs: seq<Request>)
    requires IdsBelowCounter(s)
    ensures IdsBelowCounter(CountedRun(s, reqs))
    ensures IdsUnique(CountedRun(s, reqs).tasks)
    decreases |reqs|
  {
    if reqs == [] {
    } else {
      CountedNextKeepsIds(s, reqs[0]);
      CountedRunKeepsIdsUnique(CountedNext(s, reqs[0]), reqs[1..]);
    }
  }

  /** Starting from an empty store, every reachable store has unique ids. */
  lemma CountedIdsUniqueFromStart(reqs: seq<Request>)
    ensures IdsUnique(CountedRun(Initial, reqs).tasks)
  {
    CountedRunKeepsIdsUnique(Initial, reqs);
  }
}
