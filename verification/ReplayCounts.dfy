/** How many executor calls replays can make when nothing is enqueued, whatever else the page does
    meanwhile and wherever replays break off. */
module ReplayCounts {
  import opened Wrappers
  import opened Sequences
  import opened OfflineActions
  import opened ReplayMachine

  function CallsOf(e: Event): nat {
    if e.Finished? then 1 else 0
  }

  function BreaksOf(e: Event): nat {
    if e.Finished? && Breaks(e.outcome) then 1 else 0
  }

  /** The executor calls that the events bring to an end. */
  function Calls(events: seq<Event>): nat {
    if events == [] then 0 else CallsOf(events[0]) + Calls(events[1..])
  }

  /** The calls that break off a replay. */
  function BreakCount(events: seq<Event>): nat {
    if events == [] then 0 else BreaksOf(events[0]) + BreakCount(events[1..])
  }

  /** The replays that get through their whole snapshot. */
  function FullReplays(events: seq<Event>): nat {
    if events == [] then 0 else (if events[0].Ended? then 1 else 0) + FullReplays(events[1..])
  }

  ghost predicate NothingEnqueued(events: seq<Event>) {
    forall e :: e in events ==> !e.Enqueued?
  }

  /** Executor calls that an action can still cost without breaking a replay. */
  function Weight(a: Action, registered: set<ActionType>): nat {
    if a.status == Pending && a.actionType in registered && a.retryCount <= MAX_RETRIES
    then MAX_RETRIES + 1 - a.retryCount else 0
  }

  function Potential(s: seq<Action>, registered: set<ActionType>): nat {
    if s == [] then 0 else Weight(s[0], registered) + Potential(s[1..], registered)
  }

  lemma {:induction false} PotentialUpdate(s: seq<Action>, i: nat, x: Action, registered: set<ActionType>)
    requires i < |s|
    ensures Potential(s[i := x], registered) + Weight(s[i], registered) == Potential(s, registered) + Weight(x, registered)
  {
    if i == 0 {
      assert s[0 := x][1..] == s[1..];
    } else {
      assert s[i := x][1..] == s[1..][i - 1 := x];
      PotentialUpdate(s[1..], i - 1, x, registered);
    }
  }

  // -- Calls use up potential ----------------------------------------------------------------------

  ghost predicate HeldIsQueued(m: Machine) {
    forall t :: t in Held(m) ==> IsQueued(m.queue.actions, t.id)
  }

  /** What the current call can still cost. */
  function Pledged(m: Machine): int {
    if Current(m).Some? then MAX_RETRIES + 1 - Current(m).value.retryCount else 0
  }

  function Owed(m: Machine, registered: set<ActionType>): int {
    Potential(m.queue.actions, registered) + Pledged(m)
  }

  /** An update by id rewrites one position of the queue. */
  lemma UpdateOne(q: QueueState, id: string, update: Action -> Action, registered: set<ActionType>) returns (x: Action)
    requires DistinctIds(q.actions) && IsQueued(q.actions, id)
    ensures x in q.actions && x.id == id
    ensures Potential(UpdateById(q, id, update).actions, registered) + Weight(x, registered)
      == Potential(q.actions, registered) + Weight(update(x), registered)
  {
    x :| x in q.actions && x.id == id;
    var i :| 0 <= i < |q.actions| && q.actions[i] == x;
    UpdateAt(q, i, update);
    PotentialUpdate(q.actions, i, update(x), registered);
  }

  lemma StepKeepsHeldQueued(m: Machine, e: Event, registered: set<ActionType>)
    requires Consistent(m) && HeldIsQueued(m) && Enabled(m, e) && !e.Enqueued?
    ensures HeldIsQueued(Next(m, e, registered))
  {
    match e
    case Dismissed(id) =>
      StatusUpdatesKeepIdentity(Done, None, 0);
      UpdateKeepsQueued(m.queue, id, ToStatus(Done, None));
    case Took =>
      var a := Todo(m)[0];
      StatusUpdatesKeepIdentity(Running, None, 0);
      UpdateKeepsQueued(m.queue, a.id, ToStatus(Running, None));
      assert forall t :: t in Held(Next(m, Took, registered)) ==> t in Held(m);
    case Finished(o) =>
      var a := Current(m).value;
      FinishUpdateFacts(a, o);
      UpdateKeepsQueued(if o.Auth? then m.queue.(requiresAuth := true) else m.queue, a.id, FinishUpdate(a, o));
      assert forall t :: t in Held(Next(m, Finished(o), registered)) ==> t in Held(m);
    case Began =>
      SnapshotMembers(m.queue);
      assert forall t :: t in m.queue.actions ==> IsQueued(m.queue.actions, t.id);
    case AuthFlagged(_) =>
      assert Held(Next(m, e, registered)) == Held(m);
    case Ended =>
    case Reloaded =>
  }

  lemma TakingOwesTheSame(m: Machine, registered: set<ActionType>)
    requires Consistent(m) && HeldIsQueued(m) && Enabled(m, Took)
    ensures Owed(Next(m, Took, registered), registered) == Owed(m, registered)
  {
    var a := Todo(m)[0];
    assert a in Held(m) && a in Todo(m);
    if a.actionType in registered {
      var x := UpdateOne(m.queue, a.id, ToStatus(Running, None), registered);
      assert SameIdentity(x, a);
    }
  }

  lemma FinishWeight(a: Action, o: Outcome, x: Action, registered: set<ActionType>)
    requires x.retryCount == a.retryCount <= MAX_RETRIES && x.status == Running
    ensures 1 + Weight(FinishUpdate(a, o)(x), registered) <= MAX_RETRIES + 1 - a.retryCount + BreaksOf(Finished(o))
  {
  }

  lemma FinishingPaysForTheCall(m: Machine, o: Outcome, registered: set<ActionType>)
    requires Consistent(m) && HeldIsQueued(m) && Enabled(m, Finished(o))
    ensures 1 + Owed(Next(m, Finished(o), registered), registered) <= Owed(m, registered) + BreaksOf(Finished(o))
  {
    var a := Current(m).value;
    assert a in Held(m);
    var x := UpdateOne(if o.Auth? then m.queue.(requiresAuth := true) else m.queue, a.id, FinishUpdate(a, o), registered);
    assert SameIdentity(x, a);
    FinishWeight(a, o, x, registered);
  }

  lemma DismissingOwesTheSame(m: Machine, id: string, registered: set<ActionType>)
    requires Consistent(m) && Enabled(m, Dismissed(id))
    ensures Owed(Next(m, Dismissed(id), registered), registered) == Owed(m, registered)
  {
    var c :| c in m.queue.actions && c.id == id && c.status == Conflict;
    var x := UpdateOne(m.queue, id, ToStatus(Done, None), registered);
    SameIdSameAction(m.queue.actions, x, c);
  }

  lemma StepPaysForItsCall(m: Machine, e: Event, registered: set<ActionType>)
    requires Consistent(m) && HeldIsQueued(m) && Enabled(m, e) && !e.Enqueued?
    ensures CallsOf(e) + Owed(Next(m, e, registered), registered) <= Owed(m, registered) + BreaksOf(e)
  {
    match e
    case Dismissed(id) => DismissingOwesTheSame(m, id, registered);
    case Took => TakingOwesTheSame(m, registered);
    case Finished(o) => FinishingPaysForTheCall(m, o, registered);
    case _ =>
  }

  lemma {:induction false} RunPaysForItsCalls(m: Machine, events: seq<Event>, registered: set<ActionType>)
    requires IsRun(m, events, registered) && NothingEnqueued(events) && Consistent(m) && HeldIsQueued(m)
    ensures Consistent(After(m, events, registered)) && HeldIsQueued(After(m, events, registered))
    ensures Calls(events) + Owed(After(m, events, registered), registered) <= Owed(m, registered) + BreakCount(events)
    decreases |events|
  {
    if events != [] {
      assert events[0] in events;
      StepKeepsConsistent(m, events[0], registered);
      StepKeepsHeldQueued(m, events[0], registered);
      StepPaysForItsCall(m, events[0], registered);
      RunPaysForItsCalls(Next(m, events[0], registered), events[1..], registered);
    }
  }

  /** From an idle queue and with no new enqueues, the executor calls of any number of replays, together with
      those the remaining actions can still cost, are at most the sum of `4 - retryCount` over the registered
      pending actions plus the number of calls that break off a replay. */
  lemma TotalCallsAreBounded(m: Machine, events: seq<Event>, registered: set<ActionType>)
    requires IsRun(m, events, registered) && NothingEnqueued(events) && Consistent(m) && m.replay.None?
    ensures Calls(events) + Potential(After(m, events, registered).queue.actions, registered)
      <= Potential(m.queue.actions, registered) + BreakCount(events)
  {
    RunPaysForItsCalls(m, events, registered);
    var last := After(m, events, registered);
    if Current(last).Some? {
      assert Current(last).value in Held(last);
      var x :| x in last.queue.actions && x.id == Current(last).value.id;
      assert SameIdentity(x, Current(last).value);
    }
  }

  // -- Full replays use up retries -----------------------------------------------------------------

  predicate InSnapshot(m: Machine, x: Action) {
    exists t :: t in Todo(m) && t.id == x.id
  }

  /** After `n` full replays every registered action that still waits has been retried `n` times, and once
      more if the running replay has been through it. */
  ghost predicate Retried(m: Machine, registered: set<ActionType>, n: nat) {
    && (forall x :: x in m.queue.actions && x.actionType in registered && x.status == Pending ==>
         x.retryCount >= if m.replay.Some? && !InSnapshot(m, x) then n + 1 else n)
    && (Current(m).Some? ==>
         forall x :: x in m.queue.actions && x.actionType in registered && x.id == Current(m).value.id ==> x.retryCount >= n)
  }

  lemma SnapshotAfterTake(m: Machine, x: Action, registered: set<ActionType>)
    requires Enabled(m, Took) && x.id != Todo(m)[0].id
    ensures InSnapshot(Next(m, Took, registered), x) <==> InSnapshot(m, x)
  {
    assert forall t :: t in Todo(m) <==> t == Todo(m)[0] || t in Todo(m)[1..];
  }

  /** Taking up an action leaves every other registered action as it was. */
  lemma TakenFrom(m: Machine, registered: set<ActionType>, x: Action) returns (y: Action)
    requires Consistent(m) && Enabled(m, Took)
    requires x in Next(m, Took, registered).queue.actions && x.actionType in registered
    ensures y in m.queue.actions && SameIdentity(x, y) && x.id == y.id
    ensures if x.id == Todo(m)[0].id then x.status == Running && y.status == Pending else x == y
  {
    var a := Todo(m)[0];
    assert a in Todo(m);
    y := x;
    if a.actionType in registered {
      StatusUpdatesKeepIdentity(Running, None, 0);
      UpdateKeepsIds(m.queue, a.id, ToStatus(Running, None));
      y :| y in m.queue.actions && x == if y.id == a.id then ToStatus(Running, None)(y) else y;
    }
  }

  lemma TakingKeepsRetried(m: Machine, registered: set<ActionType>, n: nat)
    requires Consistent(m) && Retried(m, registered, n) && Enabled(m, Took)
    ensures Retried(Next(m, Took, registered), registered, n)
  {
    var a, next := Todo(m)[0], Next(m, Took, registered);
    forall x | x in next.queue.actions && x.actionType in registered
      ensures x.retryCount >= if x.status == Pending && !InSnapshot(next, x) then n + 1 else 0
      ensures x.status == Pending || x.id == a.id ==> x.retryCount >= n
    {
      var y := TakenFrom(m, registered, x);
      if x.id != a.id {
        SnapshotAfterTake(m, x, registered);
      }
    }
  }

  /** The end of a call that does not break the replay either ends the action or counts as a retry. */
  lemma EndedOrRetried(a: Action, o: Outcome, y: Action)
    requires !Breaks(o) && y.retryCount == a.retryCount
    ensures var x := FinishUpdate(a, o)(y); x.status == Pending ==> x.retryCount == a.retryCount + 1
  {
  }

  lemma FinishedFrom(m: Machine, o: Outcome, registered: set<ActionType>, x: Action)
    returns (y: Action)
    requires Consistent(m) && Enabled(m, Finished(o)) && !Breaks(o)
    requires x in Next(m, Finished(o), registered).queue.actions && x.status == Pending
    ensures y in m.queue.actions && x.id == y.id && x.actionType == y.actionType
    ensures if x.id == Current(m).value.id then x.retryCount == y.retryCount + 1 else x == y
  {
    var a := Current(m).value;
    FinishUpdateFacts(a, o);
    UpdateKeepsIds(if o.Auth? then m.queue.(requiresAuth := true) else m.queue, a.id, FinishUpdate(a, o));
    y :| y in m.queue.actions && x == if y.id == a.id then FinishUpdate(a, o)(y) else y;
    if y.id == a.id {
      EndedOrRetried(a, o, y);
    }
  }

  lemma FinishingKeepsRetried(m: Machine, o: Outcome, registered: set<ActionType>, n: nat)
    requires Consistent(m) && Retried(m, registered, n) && Enabled(m, Finished(o)) && !Breaks(o)
    ensures Retried(Next(m, Finished(o), registered), registered, n)
  {
    var next := Next(m, Finished(o), registered);
    forall x | x in next.queue.actions && x.actionType in registered && x.status == Pending
      ensures x.retryCount >= if !InSnapshot(next, x) then n + 1 else n
    {
      var y := FinishedFrom(m, o, registered, x);
    }
  }

  lemma StepKeepsRetried(m: Machine, e: Event, registered: set<ActionType>, n: nat)
    requires Consistent(m) && Retried(m, registered, n) && Enabled(m, e) && !e.Enqueued? && BreaksOf(e) == 0
    ensures Retried(Next(m, e, registered), registered, if e.Ended? then n + 1 else n)
  {
    match e
    case Dismissed(id) =>
      StatusUpdatesKeepIdentity(Done, None, 0);
      UpdateKeepsIds(m.queue, id, ToStatus(Done, None));
    case Took => TakingKeepsRetried(m, registered, n);
    case Finished(o) => FinishingKeepsRetried(m, o, registered, n);
    case Began =>
      SnapshotMembers(m.queue);
    case _ =>
  }

  lemma {:induction false} FullReplaysRetry(m: Machine, events: seq<Event>, registered: set<ActionType>, n: nat)
    requires IsRun(m, events, registered) && NothingEnqueued(events) && BreakCount(events) == 0
    requires Consistent(m) && Retried(m, registered, n)
    ensures Consistent(After(m, events, registered))
    ensures Retried(After(m, events, registered), registered, n + FullReplays(events))
    decreases |events|
  {
    if events != [] {
      assert events[0] in events;
      StepKeepsConsistent(m, events[0], registered);
      StepKeepsRetried(m, events[0], registered, n);
      FullReplaysRetry(Next(m, events[0], registered), events[1..], registered,
                       if events[0].Ended? then n + 1 else n);
    }
  }

  /** From an idle queue and with no new enqueues, four replays that are not broken off leave no registered
      action pending, whatever the executors answer. */
  lemma FourReplaysDrain(m: Machine, events: seq<Event>, registered: set<ActionType>)
    requires IsRun(m, events, registered) && NothingEnqueued(events) && BreakCount(events) == 0
    requires Consistent(m) && m.replay.None? && FullReplays(events) >= 4
    ensures forall x :: x in After(m, events, registered).queue.actions && x.actionType in registered ==>
      x.status != Pending
  {
    FullReplaysRetry(m, events, registered, 0);
  }
}
