/** The queue and the replay loop as a state machine. Between any two steps of a replay the page may
    enqueue more actions, and it may be reloaded: the queue comes back from browser storage, the replay does
    not. Only one replay runs at a time. */
module ReplayMachine {
  import opened Wrappers
  import opened Sequences
  import opened OfflineActions

  /** A replay in progress: the rest of its snapshot, and the action whose executor is awaited. */
  datatype Replay = Replay(todo: seq<Action>, current: Option<Action>)

  datatype Machine = Machine(queue: QueueState, replay: Option<Replay>)

  datatype Event =
    | Enqueued(action: Action)
    | Dismissed(id: string)
    | AuthFlagged(requiresAuth: bool)
    | Began
    | Took
    | Finished(outcome: Outcome)
    | Ended
    | Reloaded

  function Todo(m: Machine): seq<Action> {
    if m.replay.Some? then m.replay.value.todo else []
  }

  function Current(m: Machine): Option<Action> {
    if m.replay.Some? then m.replay.value.current else None
  }

  /** The snapshots that the running replay still holds. */
  function Held(m: Machine): seq<Action> {
    Todo(m) + if Current(m).Some? then [Current(m).value] else []
  }

  predicate FreshId(m: Machine, id: string) {
    && (forall x :: x in m.queue.actions ==> x.id != id)
    && (forall x :: x in Todo(m) ==> x.id != id)
    && (Current(m).Some? ==> Current(m).value.id != id)
  }

  /** The page enqueues fresh pending actions whose uploads name a kind and list their photos, and
      offers to dismiss only conflicts. A replay starts only when none is running. */
  predicate Enabled(m: Machine, e: Event) {
    match e
    case Enqueued(a) =>
      && a.status == Pending && a.retryCount == 0 && FreshId(m, a.id)
      && (a.actionType == UploadStopPhotos ==> Mergeable(a.payload))
    case Dismissed(id) => exists x :: x in m.queue.actions && x.id == id && x.status == Conflict
    case AuthFlagged(_) => true
    case Began => m.replay.None?
    case Took => m.replay.Some? && Current(m).None? && Todo(m) != []
    case Finished(_) => Current(m).Some?
    case Ended => m.replay.Some? && Current(m).None? && Todo(m) == []
    case Reloaded => true
  }

  function Next(m: Machine, e: Event, registered: set<ActionType>): Machine
    requires Enabled(m, e)
  {
    match e
    case Enqueued(a) => m.(queue := Enqueue(m.queue, a))
    case Dismissed(id) => m.(queue := SetStatus(m.queue, id, Done))
    case AuthFlagged(b) => m.(queue := m.queue.(requiresAuth := b))
    case Began => m.(replay := Some(Replay(Snapshot(m.queue), None)))
    case Took =>
      var a, rest := Todo(m)[0], Todo(m)[1..];
      if a.actionType !in registered then m.(replay := Some(Replay(rest, None)))
      else Machine(SetStatus(m.queue, a.id, Running), Some(Replay(rest, Some(a))))
    case Finished(o) =>
      var a := Current(m).value;
      Machine(Finish(m.queue, a, o), if Breaks(o) then None else Some(Replay(Todo(m), None)))
    case Ended => m.(replay := None)
    case Reloaded => m.(replay := None)
  }

  /** Runs of the machine: all the events are enabled when they happen. */
  ghost predicate IsRun(m: Machine, events: seq<Event>, registered: set<ActionType>)
    decreases |events|
  {
    events == [] || (Enabled(m, events[0]) && IsRun(Next(m, events[0], registered), events[1..], registered))
  }

  function After(m: Machine, events: seq<Event>, registered: set<ActionType>): Machine
    requires IsRun(m, events, registered)
    decreases |events|
  {
    if events == [] then m else After(Next(m, events[0], registered), events[1..], registered)
  }

  const INITIAL := Machine(EMPTY_QUEUE, None)

  // -- Updating one action by its id ---------------------------------------------------------------

  ghost predicate DistinctIds(s: seq<Action>) {
    forall i, j :: 0 <= i < j < |s| ==> s[i].id != s[j].id
  }

  ghost predicate KeepsIdentity(update: Action -> Action) {
    forall a :: update(a).id == a.id && update(a).actionType == a.actionType
             && update(a).stop == a.stop && update(a).payload == a.payload
  }

  /** With distinct ids an update by id is pointwise. */
  lemma UpdateIsPointwise(q: QueueState, id: string, update: Action -> Action)
    requires DistinctIds(q.actions)
    ensures var r := UpdateById(q, id, update);
      && |r.actions| == |q.actions| && r.requiresAuth == q.requiresAuth
      && forall i :: 0 <= i < |r.actions| ==>
           r.actions[i] == if q.actions[i].id == id then update(q.actions[i]) else q.actions[i]
  {
  }

  lemma UpdateAt(q: QueueState, i: nat, update: Action -> Action)
    requires DistinctIds(q.actions) && i < |q.actions|
    ensures UpdateById(q, q.actions[i].id, update) == q.(actions := q.actions[i := update(q.actions[i])])
  {
    UpdateIsPointwise(q, q.actions[i].id, update);
  }

  ghost predicate IsQueued(s: seq<Action>, id: string) {
    exists x :: x in s && x.id == id
  }

  lemma UpdateKeepsQueued(q: QueueState, id: string, update: Action -> Action)
    requires DistinctIds(q.actions) && KeepsIdentity(update)
    ensures forall other :: IsQueued(q.actions, other) <==> IsQueued(UpdateById(q, id, update).actions, other)
  {
    UpdateIsPointwise(q, id, update);
    var s, r := q.actions, UpdateById(q, id, update).actions;
    forall other ensures IsQueued(s, other) <==> IsQueued(r, other) {
      if IsQueued(s, other) {
        var i :| 0 <= i < |s| && s[i].id == other;
        assert r[i] in r && r[i].id == other;
      }
      if IsQueued(r, other) {
        var i :| 0 <= i < |r| && r[i].id == other;
        assert s[i] in s && s[i].id == other;
      }
    }
  }

  lemma UpdateKeepsOthers(q: QueueState, id: string, update: Action -> Action, x: Action)
    requires DistinctIds(q.actions) && x in q.actions && x.id != id
    ensures x in UpdateById(q, id, update).actions
  {
    var i :| 0 <= i < |q.actions| && q.actions[i] == x;
    UpdateIsPointwise(q, id, update);
    assert UpdateById(q, id, update).actions[i] == x;
  }

  lemma SameIdSameAction(s: seq<Action>, x: Action, y: Action)
    requires DistinctIds(s) && x in s && y in s && x.id == y.id
    ensures x == y
  {
    var i :| 0 <= i < |s| && s[i] == x;
    var j :| 0 <= j < |s| && s[j] == y;
  }

  lemma StatusUpdatesKeepIdentity(status: Status, lastError: Option<string>, retryCount: nat)
    ensures KeepsIdentity(ToStatus(status, lastError)) && KeepsIdentity(ToRetry(retryCount))
  {
  }

  // -- Invariant -----------------------------------------------------------------------------------

  ghost predicate SameIdentity(x: Action, t: Action) {
    x.actionType == t.actionType && x.stop == t.stop && x.retryCount == t.retryCount
  }

  /** Snapshotted actions that are still queued are pending. */
  ghost predicate TodoIsPending(actions: seq<Action>, todo: seq<Action>) {
    forall x, t :: x in actions && t in todo && x.id == t.id ==> x.status == Pending && SameIdentity(x, t)
  }

  /** The awaited action, if still queued, is running, and it is no longer in the snapshot. */
  ghost predicate CurrentIsRunning(actions: seq<Action>, todo: seq<Action>, current: Action) {
    && (forall t :: t in todo ==> t.id != current.id)
    && (forall x :: x in actions && x.id == current.id ==> x.status == Running && SameIdentity(x, current))
  }

  ghost predicate RetriesBounded(actions: seq<Action>) {
    forall x :: x in actions ==> x.retryCount <= MAX_RETRIES
  }

  ghost predicate Consistent(m: Machine) {
    && DistinctIds(m.queue.actions)
    && DistinctIds(Todo(m))
    && TodoIsPending(m.queue.actions, Todo(m))
    && (Current(m).Some? ==> CurrentIsRunning(m.queue.actions, Todo(m), Current(m).value))
    && RetriesBounded(m.queue.actions)
  }

  ghost predicate UpdatedFrom(r: seq<Action>, s: seq<Action>, id: string, update: Action -> Action) {
    forall x :: x in r ==> exists y :: y in s && x == if y.id == id then update(y) else y
  }

  lemma UpdateKeepsIds(q: QueueState, id: string, update: Action -> Action)
    requires DistinctIds(q.actions) && KeepsIdentity(update)
    ensures DistinctIds(UpdateById(q, id, update).actions)
    ensures UpdatedFrom(UpdateById(q, id, update).actions, q.actions, id, update)
  {
    UpdateIsPointwise(q, id, update);
    var r := UpdateById(q, id, update);
    forall x | x in r.actions ensures exists y :: y in q.actions && x == if y.id == id then update(y) else y {
      var i :| 0 <= i < |r.actions| && r.actions[i] == x;
      assert q.actions[i] in q.actions;
    }
  }

  lemma FinishUpdateFacts(a: Action, o: Outcome)
    ensures KeepsIdentity(FinishUpdate(a, o))
    ensures forall x :: FinishUpdate(a, o)(x).status != Running
    ensures forall x :: FinishUpdate(a, o)(x).retryCount <= if x.retryCount > MAX_RETRIES then x.retryCount else MAX_RETRIES
  {
  }

  /** What enqueueing does to the list of actions: it appends, changes nothing, or rewrites one pending
      action of the same type and stop. */
  lemma EnqueueShape(actions: seq<Action>, a: Action) returns (k: int, merged: Action)
    requires a.status == Pending && (a.actionType == UploadStopPhotos ==> Mergeable(a.payload))
    ensures -1 <= k <= |actions|
    ensures k == -1 ==> EnqueueActions(actions, a) == actions && a.actionType == StartStop
    ensures k == |actions| ==> EnqueueActions(actions, a) == actions + [a]
    ensures 0 <= k < |actions| ==>
      && EnqueueActions(actions, a) == actions[k := merged]
      && actions[k].status == Pending && actions[k].actionType == a.actionType && actions[k].stop == a.stop
      && if a.actionType == UploadStopPhotos
         then merged == MergePhotos(actions[k], PhotosIn(a.payload)) && HasKind(actions[k].payload, a.payload.kind.value)
         else merged == a
  {
    merged := a;
    match a.actionType
    case UploadStopPhotos =>
      var f := FindIndex(actions, PendingUploadLike(a.stop, a.payload.kind.value));
      k := if f.Some? then f.value else |actions|;
      if f.Some? {
        merged := MergePhotos(actions[k], PhotosIn(a.payload));
      }
    case SkipStopWithHazard =>
      var f := FindIndex(actions, PendingSkipAt(a.stop));
      k := if f.Some? then f.value else |actions|;
    case StartStop =>
      k := if FindIndex(actions, LiveStartAt(a.stop)).Some? then -1 else |actions|;
    case _ =>
      k := |actions|;
  }

  /** Every action after enqueueing `a` is `a` or carries on an action from before. */
  ghost predicate Inherits(r: seq<Action>, s: seq<Action>, a: Action) {
    forall x :: x in r ==> x == a || exists y :: y in s && x.id == y.id && x.status == y.status && SameIdentity(x, y)
  }

  lemma EnqueueInherits(actions: seq<Action>, a: Action)
    requires a.status == Pending && (a.actionType == UploadStopPhotos ==> Mergeable(a.payload))
    requires DistinctIds(actions) && forall x :: x in actions ==> x.id != a.id
    ensures Inherits(EnqueueActions(actions, a), actions, a)
    ensures DistinctIds(EnqueueActions(actions, a))
  {
    var k, merged := EnqueueShape(actions, a);
    var r := EnqueueActions(actions, a);
    assert forall i :: 0 <= i < |actions| ==> actions[i] in actions;
    forall x | x in r && x != a ensures exists y :: y in actions && x.id == y.id && x.status == y.status && SameIdentity(x, y) {
      var i :| 0 <= i < |r| && r[i] == x;
      assert actions[i] in actions;
    }
  }

  lemma SnapshotMembers(q: QueueState)
    requires DistinctIds(q.actions)
    ensures DistinctIds(Snapshot(q))
    ensures forall t :: t in Snapshot(q) <==> t in q.actions && t.status == Pending
    ensures multiset(Snapshot(q)) == multiset(Filter(q.actions, IsPending()))
  {
    var p := Filter(q.actions, IsPending());
    SortPermutes(p, ReplayOrder());
    FilterMembers(q.actions, IsPending());
    FilterKeepsDistinctIds(q.actions, IsPending());
    PermutationKeepsDistinctIds(p, Snapshot(q));
  }

  lemma {:induction false} FilterKeepsDistinctIds(s: seq<Action>, keep: Action -> bool)
    requires DistinctIds(s)
    ensures DistinctIds(Filter(s, keep))
  {
    if s != [] {
      FilterKeepsDistinctIds(s[1..], keep);
      FilterMembers(s[1..], keep);
      var f := Filter(s[1..], keep);
      forall j | 0 <= j < |f| ensures f[j].id != s[0].id {
        assert f[j] in f;
      }
    }
  }

  lemma {:induction false} PermutationKeepsDistinctIds(s: seq<Action>, t: seq<Action>)
    requires DistinctIds(s) && multiset(s) == multiset(t)
    ensures DistinctIds(t)
  {
    forall i, j | 0 <= i < j < |t| ensures t[i].id != t[j].id {
      if t[i].id == t[j].id {
        assert t[i] in multiset(s) && t[j] in multiset(s);
        assert t[i] == t[j];
        TwiceMeansTwo(t, i, j);
        DistinctMeansOne(s, t[i]);
        assert false;
      }
    }
  }

  lemma InheritsKeepsRest(r: seq<Action>, s: seq<Action>, a: Action, todo: seq<Action>)
    requires Inherits(r, s, a) && a.status == Pending && a.retryCount == 0
    requires TodoIsPending(s, todo) && forall t :: t in todo ==> t.id != a.id
    requires RetriesBounded(s)
    ensures TodoIsPending(r, todo) && RetriesBounded(r)
  {
  }

  lemma InheritsKeepsCurrent(r: seq<Action>, s: seq<Action>, a: Action, todo: seq<Action>, current: Action)
    requires Inherits(r, s, a) && a.id != current.id
    requires CurrentIsRunning(s, todo, current)
    ensures CurrentIsRunning(r, todo, current)
  {
  }

  lemma EnqueueKeepsConsistent(m: Machine, a: Action)
    requires Consistent(m) && Enabled(m, Enqueued(a))
    ensures Consistent(m.(queue := Enqueue(m.queue, a)))
  {
    EnqueueInherits(m.queue.actions, a);
    InheritsKeepsRest(EnqueueActions(m.queue.actions, a), m.queue.actions, a, Todo(m));
    if Current(m).Some? {
      InheritsKeepsCurrent(EnqueueActions(m.queue.actions, a), m.queue.actions, a, Todo(m), Current(m).value);
    }
  }

  /** An update of an action that the replay does not hold, to a state other than running. */
  lemma UpdateElsewhere(r: seq<Action>, s: seq<Action>, id: string, update: Action -> Action, todo: seq<Action>,
                        current: Option<Action>)
    requires UpdatedFrom(r, s, id, update) && KeepsIdentity(update)
    requires forall x :: update(x).status != Running && update(x).retryCount == x.retryCount
    requires forall t :: t in todo ==> t.id != id
    requires TodoIsPending(s, todo) && RetriesBounded(s)
    ensures TodoIsPending(r, todo) && RetriesBounded(r)
    ensures current.Some? && current.value.id != id && CurrentIsRunning(s, todo, current.value)
      ==> CurrentIsRunning(r, todo, current.value)
  {
  }

  lemma DismissKeepsConsistent(m: Machine, id: string)
    requires Consistent(m) && Enabled(m, Dismissed(id))
    ensures Consistent(m.(queue := SetStatus(m.queue, id, Done)))
  {
    var c :| c in m.queue.actions && c.id == id && c.status == Conflict;
    StatusUpdatesKeepIdentity(Done, None, 0);
    UpdateKeepsIds(m.queue, id, ToStatus(Done, None));
    UpdateElsewhere(SetStatus(m.queue, id, Done).actions, m.queue.actions, id, ToStatus(Done, None), Todo(m), Current(m));
  }

  lemma UpdateStarts(r: seq<Action>, s: seq<Action>, todo: seq<Action>)
    requires todo != [] && DistinctIds(todo) && TodoIsPending(s, todo) && RetriesBounded(s)
    requires UpdatedFrom(r, s, todo[0].id, ToStatus(Running, None))
    ensures TodoIsPending(r, todo[1..]) && RetriesBounded(r)
    ensures CurrentIsRunning(r, todo[1..], todo[0])
  {
    assert todo[0] in todo;
    assert forall t :: t in todo[1..] ==> t in todo && t.id != todo[0].id;
  }

  lemma TakeKeepsConsistent(m: Machine, registered: set<ActionType>)
    requires Consistent(m) && Enabled(m, Took)
    ensures Consistent(Next(m, Took, registered))
  {
    var a, rest := Todo(m)[0], Todo(m)[1..];
    if a.actionType !in registered {
      assert forall t :: t in rest ==> t in Todo(m);
    } else {
      StatusUpdatesKeepIdentity(Running, None, 0);
      UpdateKeepsIds(m.queue, a.id, ToStatus(Running, None));
      UpdateStarts(SetStatus(m.queue, a.id, Running).actions, m.queue.actions, Todo(m));
    }
  }

  lemma UpdateFinishes(r: seq<Action>, s: seq<Action>, a: Action, update: Action -> Action, todo: seq<Action>)
    requires UpdatedFrom(r, s, a.id, update) && KeepsIdentity(update)
    requires forall x: Action :: x.retryCount <= MAX_RETRIES ==> update(x).retryCount <= MAX_RETRIES
    requires CurrentIsRunning(s, todo, a) && TodoIsPending(s, todo) && RetriesBounded(s)
    ensures TodoIsPending(r, todo) && RetriesBounded(r)
  {
  }

  lemma FinishKeepsQueue(q: QueueState, a: Action, update: Action -> Action, todo: seq<Action>)
    requires DistinctIds(q.actions) && KeepsIdentity(update)
    requires forall x: Action :: x.retryCount <= MAX_RETRIES ==> update(x).retryCount <= MAX_RETRIES
    requires CurrentIsRunning(q.actions, todo, a) && TodoIsPending(q.actions, todo) && RetriesBounded(q.actions)
    ensures var r := UpdateById(q, a.id, update).actions;
      DistinctIds(r) && TodoIsPending(r, todo) && RetriesBounded(r)
  {
    UpdateKeepsIds(q, a.id, update);
    UpdateFinishes(UpdateById(q, a.id, update).actions, q.actions, a, update, todo);
  }

  lemma FinishKeepsActions(m: Machine, o: Outcome)
    requires Consistent(m) && Current(m).Some?
    ensures var r := Finish(m.queue, Current(m).value, o).actions;
      DistinctIds(r) && TodoIsPending(r, Todo(m)) && RetriesBounded(r)
  {
    var a := Current(m).value;
    FinishUpdateFacts(a, o);
    FinishKeepsQueue(if o.Auth? then m.queue.(requiresAuth := true) else m.queue, a, FinishUpdate(a, o), Todo(m));
  }

  lemma FinishKeepsConsistent(m: Machine, o: Outcome, registered: set<ActionType>)
    requires Consistent(m) && Enabled(m, Finished(o))
    ensures Consistent(Next(m, Finished(o), registered))
  {
    FinishKeepsActions(m, o);
  }

  lemma BeginKeepsConsistent(m: Machine, registered: set<ActionType>)
    requires Consistent(m) && Enabled(m, Began)
    ensures Consistent(Next(m, Began, registered))
  {
    SnapshotMembers(m.queue);
    BeganIsPending(m.queue.actions, Snapshot(m.queue));
  }

  lemma BeganIsPending(s: seq<Action>, todo: seq<Action>)
    requires DistinctIds(s) && forall t :: t in todo ==> t in s && t.status == Pending
    ensures TodoIsPending(s, todo)
  {
    forall x, t | x in s && t in todo && x.id == t.id ensures x == t {
      SameIdSameAction(s, x, t);
    }
  }

  lemma IdleKeepsConsistent(m: Machine)
    requires Consistent(m)
    ensures Consistent(m.(replay := None))
    ensures forall b :: Consistent(m.(queue := m.queue.(requiresAuth := b)))
  {
  }

  /** Every step of queue and replay, reloads included, keeps the machine consistent. */
  lemma StepKeepsConsistent(m: Machine, e: Event, registered: set<ActionType>)
    requires Consistent(m) && Enabled(m, e)
    ensures Consistent(Next(m, e, registered))
  {
    match e
    case Enqueued(a) => EnqueueKeepsConsistent(m, a);
    case Dismissed(id) => DismissKeepsConsistent(m, id);
    case Began => BeginKeepsConsistent(m, registered);
    case Took => TakeKeepsConsistent(m, registered);
    case Finished(o) => FinishKeepsConsistent(m, o, registered);
    case AuthFlagged(_) => IdleKeepsConsistent(m);
    case Ended => IdleKeepsConsistent(m);
    case Reloaded => IdleKeepsConsistent(m);
  }
}
