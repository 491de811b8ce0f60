/** A page that is reloaded in mid-replay: the queue comes back from browser storage, the replay does not,
    and nothing takes up the action that was being sent. */
module ReplayReload {
  import opened Wrappers
  import opened Sequences
  import opened OfflineActions
  import opened ReplayMachine

  /** The action is marked running, but no replay holds it. */
  ghost predicate Abandoned(m: Machine, x: Action) {
    x in m.queue.actions && x.status == Running && forall t :: t in Held(m) ==> t.id != x.id
  }

  // -- Abandoned actions stay abandoned --------------------------------------------------------------

  lemma EnqueueLeavesAbandoned(m: Machine, a: Action, x: Action)
    requires Abandoned(m, x) && Enabled(m, Enqueued(a))
    ensures Abandoned(m.(queue := Enqueue(m.queue, a)), x)
  {
    var s := m.queue.actions;
    var i :| 0 <= i < |s| && s[i] == x;
    var k, merged := EnqueueShape(s, a);
    assert EnqueueActions(s, a)[i] == x;
    assert Held(m.(queue := Enqueue(m.queue, a))) == Held(m);
  }

  lemma SnapshotPassesOver(m: Machine, x: Action)
    requires Consistent(m) && Abandoned(m, x)
    ensures forall t :: t in Snapshot(m.queue) ==> t.id != x.id
  {
    SnapshotMembers(m.queue);
    forall t | t in Snapshot(m.queue) ensures t.id != x.id {
      if t.id == x.id {
        SameIdSameAction(m.queue.actions, t, x);
      }
    }
  }

  lemma StepLeavesAbandoned(m: Machine, e: Event, registered: set<ActionType>, x: Action)
    requires Consistent(m) && Abandoned(m, x) && Enabled(m, e)
    ensures Abandoned(Next(m, e, registered), x)
  {
    match e
    case Enqueued(a) => EnqueueLeavesAbandoned(m, a, x);
    case Dismissed(id) =>
      var c :| c in m.queue.actions && c.id == id && c.status == Conflict;
      if x.id == id {
        SameIdSameAction(m.queue.actions, x, c);
      }
      UpdateKeepsOthers(m.queue, id, ToStatus(Done, None), x);
      assert Held(Next(m, e, registered)) == Held(m);
    case Took =>
      var a := Todo(m)[0];
      assert a in Held(m);
      assert forall t :: t in Held(Next(m, e, registered)) ==> t in Held(m);
      UpdateKeepsOthers(m.queue, a.id, ToStatus(Running, None), x);
    case Finished(o) =>
      var a := Current(m).value;
      assert a in Held(m);
      assert forall t :: t in Held(Next(m, e, registered)) ==> t in Held(m);
      UpdateKeepsOthers(if o.Auth? then m.queue.(requiresAuth := true) else m.queue, a.id, FinishUpdate(a, o), x);
    case Began => SnapshotPassesOver(m, x);
    case AuthFlagged(_) => assert Held(Next(m, e, registered)) == Held(m);
    case Ended =>
    case Reloaded =>
  }

  /** Whatever happens afterwards, further replays and reloads included, an abandoned action stays as it is:
      no replay snapshots it or hands it to an executor again. */
  lemma {:induction false} AbandonedForever(m: Machine, events: seq<Event>, registered: set<ActionType>, x: Action)
    requires Consistent(m) && Abandoned(m, x) && IsRun(m, events, registered)
    ensures Abandoned(After(m, events, registered), x)
    decreases |events|
  {
    if events != [] {
      StepKeepsConsistent(m, events[0], registered);
      StepLeavesAbandoned(m, events[0], registered, x);
      AbandonedForever(Next(m, events[0], registered), events[1..], registered, x);
    }
  }

  /** An abandoned start blocks its stop for good: every later start of the stop is dropped. */
  lemma AbandonedStartBlocksStop(m: Machine, events: seq<Event>, registered: set<ActionType>, x: Action, a: Action)
    requires Consistent(m) && Abandoned(m, x) && x.actionType == StartStop && IsRun(m, events, registered)
    requires a.actionType == StartStop && Live(a) && a.stop == x.stop
    ensures var q := After(m, events, registered).queue; Enqueue(q, a) == q
  {
    AbandonedForever(m, events, registered, x);
    assert LiveStartAt(a.stop)(x);
  }

  // -- When an action is abandoned -------------------------------------------------------------------

  ghost predicate IsAbandoned(m: Machine, id: string) {
    exists x :: Abandoned(m, x) && x.id == id
  }

  /** The page is reloaded while the executor call for the action with this id is awaited, and the action is
      still queued. */
  ghost predicate Interrupts(m: Machine, e: Event, id: string) {
    e.Reloaded? && Current(m).Some? && Current(m).value.id == id && IsQueued(m.queue.actions, id)
  }

  ghost predicate SomeInterrupts(m: Machine, events: seq<Event>, registered: set<ActionType>, id: string)
    requires IsRun(m, events, registered)
    decreases |events|
  {
    events != [] &&
    (Interrupts(m, events[0], id) || SomeInterrupts(Next(m, events[0], registered), events[1..], registered, id))
  }

  lemma ReloadAbandonsCurrent(m: Machine, id: string)
    requires Consistent(m) && Interrupts(m, Reloaded, id)
    ensures IsAbandoned(m.(replay := None), id)
  {
    var x :| x in m.queue.actions && x.id == id;
    assert Abandoned(m.(replay := None), x);
  }

  /** A running action is either the current one or abandoned. */
  lemma RunningIsHeldOrAbandoned(m: Machine, x: Action)
    requires Consistent(m) && x in m.queue.actions && x.status == Running
    ensures Abandoned(m, x) <==> !(Current(m).Some? && Current(m).value.id == x.id)
  {
    if Current(m).Some? {
      assert Current(m).value in Held(m);
    }
    assert forall t :: t in Held(m) ==> t in Todo(m) || (Current(m).Some? && t == Current(m).value);
  }

  ghost predicate RunsIn(s: seq<Action>, id: string) {
    exists y :: y in s && y.status == Running && y.id == id
  }

  /** An update to a state other than running starts no action. */
  lemma UpdateStartsNone(r: seq<Action>, s: seq<Action>, id: string, update: Action -> Action, x: Action)
    requires UpdatedFrom(r, s, id, update) && KeepsIdentity(update) && x in r && x.status == Running
    requires x.id == id ==> forall y :: update(y).status != Running
    ensures RunsIn(s, x.id) && x.id != id
  {
    var y :| y in s && x == if y.id == id then update(y) else y;
  }

  /** A running action was running before the step, unless the step takes it up. */
  lemma RunningBefore(m: Machine, e: Event, registered: set<ActionType>, x: Action)
    requires Consistent(m) && Enabled(m, e)
    requires x in Next(m, e, registered).queue.actions && x.status == Running
    requires e.Took? ==> x.id != Todo(m)[0].id
    ensures RunsIn(m.queue.actions, x.id)
    ensures e.Finished? ==> x.id != Current(m).value.id
  {
    match e
    case Enqueued(a) => EnqueueInherits(m.queue.actions, a);
    case Dismissed(id) =>
      StatusUpdatesKeepIdentity(Done, None, 0);
      UpdateKeepsIds(m.queue, id, ToStatus(Done, None));
      UpdateStartsNone(SetStatus(m.queue, id, Done).actions, m.queue.actions, id, ToStatus(Done, None), x);
    case Took =>
      var a := Todo(m)[0];
      if a.actionType in registered {
        StatusUpdatesKeepIdentity(Running, None, 0);
        UpdateKeepsIds(m.queue, a.id, ToStatus(Running, None));
        UpdateStartsNone(SetStatus(m.queue, a.id, Running).actions, m.queue.actions, a.id, ToStatus(Running, None), x);
      }
    case Finished(o) =>
      var a := Current(m).value;
      FinishUpdateFacts(a, o);
      UpdateKeepsIds(if o.Auth? then m.queue.(requiresAuth := true) else m.queue, a.id, FinishUpdate(a, o));
      UpdateStartsNone(Finish(m.queue, a, o).actions, m.queue.actions, a.id, FinishUpdate(a, o), x);
    case _ =>
  }

  /** A step abandons an action only by a reload that interrupts its call. */
  lemma StepAbandonsIff(m: Machine, e: Event, registered: set<ActionType>, id: string)
    requires Consistent(m) && Enabled(m, e)
    ensures IsAbandoned(Next(m, e, registered), id) <==> IsAbandoned(m, id) || Interrupts(m, e, id)
  {
    var n := Next(m, e, registered);
    StepKeepsConsistent(m, e, registered);
    if IsAbandoned(m, id) {
      var x :| Abandoned(m, x) && x.id == id;
      StepLeavesAbandoned(m, e, registered, x);
    } else if Interrupts(m, e, id) {
      ReloadAbandonsCurrent(m, id);
    } else if IsAbandoned(n, id) {
      var x :| Abandoned(n, x) && x.id == id;
      RunningIsHeldOrAbandoned(n, x);
      AbandonedBefore(m, e, registered, x);
    }
  }

  lemma AbandonedBefore(m: Machine, e: Event, registered: set<ActionType>, x: Action)
    requires Consistent(m) && Enabled(m, e) && Abandoned(Next(m, e, registered), x)
    requires Consistent(Next(m, e, registered))
    ensures IsAbandoned(m, x.id) || Interrupts(m, e, x.id)
  {
    var n := Next(m, e, registered);
    RunningIsHeldOrAbandoned(n, x);
    if e.Took? && x.id == Todo(m)[0].id {
      TakenIsPending(m, registered, x);
    } else {
      RunningBefore(m, e, registered, x);
      var y :| y in m.queue.actions && y.status == Running && y.id == x.id;
      RunningIsHeldOrAbandoned(m, y);
    }
  }

  lemma TakenIsPending(m: Machine, registered: set<ActionType>, x: Action)
    requires Consistent(m) && Enabled(m, Took) && x.id == Todo(m)[0].id
    requires x in Next(m, Took, registered).queue.actions && x.status == Running
    ensures Todo(m)[0].actionType in registered
  {
    assert Todo(m)[0] in Todo(m);
  }

  /** Exactly which actions a run abandons: those whose executor call some reload interrupts. */
  lemma {:induction false} AbandonedIff(m: Machine, events: seq<Event>, registered: set<ActionType>, id: string)
    requires Consistent(m) && IsRun(m, events, registered)
    ensures IsAbandoned(After(m, events, registered), id)
      <==> IsAbandoned(m, id) || SomeInterrupts(m, events, registered, id)
    decreases |events|
  {
    if events != [] {
      StepKeepsConsistent(m, events[0], registered);
      StepAbandonsIff(m, events[0], registered, id);
      AbandonedIff(Next(m, events[0], registered), events[1..], registered, id);
    }
  }

  /** The action waits, or its executor call is awaited. */
  predicate CanStillBeSent(m: Machine, x: Action) {
    x.status == Pending || (Current(m).Some? && Current(m).value.id == x.id)
  }

  lemma AbandonedMeansStuck(m: Machine, x: Action)
    requires Consistent(m) && x in m.queue.actions && Live(x)
    ensures IsAbandoned(m, x.id) <==> !CanStillBeSent(m, x)
  {
    if IsAbandoned(m, x.id) {
      var y :| Abandoned(m, y) && y.id == x.id;
      SameIdSameAction(m.queue.actions, x, y);
    }
    if x.status == Running {
      RunningIsHeldOrAbandoned(m, x);
    }
  }

  ghost predicate LiveCanBeSent(m: Machine) {
    forall x :: x in m.queue.actions && Live(x) ==> CanStillBeSent(m, x)
  }

  lemma LiveCanBeSentIff(m: Machine)
    requires Consistent(m)
    ensures LiveCanBeSent(m) <==> forall id :: !IsAbandoned(m, id)
  {
    forall x | x in m.queue.actions && Live(x) ensures IsAbandoned(m, x.id) <==> !CanStillBeSent(m, x) {
      AbandonedMeansStuck(m, x);
    }
  }

  /** No reload interrupts an executor call. */
  ghost predicate Uninterrupted(m: Machine, events: seq<Event>, registered: set<ActionType>)
    requires IsRun(m, events, registered)
  {
    forall id :: !SomeInterrupts(m, events, registered, id)
  }

  lemma StepKeepsLiveSent(m: Machine, e: Event, registered: set<ActionType>)
    requires Consistent(m) && Enabled(m, e) && LiveCanBeSent(m) && forall id :: !Interrupts(m, e, id)
    ensures Consistent(Next(m, e, registered)) && LiveCanBeSent(Next(m, e, registered))
  {
    StepKeepsConsistent(m, e, registered);
    LiveCanBeSentIff(m);
    LiveCanBeSentIff(Next(m, e, registered));
    forall id ensures !IsAbandoned(Next(m, e, registered), id) {
      StepAbandonsIff(m, e, registered, id);
    }
  }

  lemma UninterruptedTail(m: Machine, events: seq<Event>, registered: set<ActionType>)
    requires events != [] && IsRun(m, events, registered) && Uninterrupted(m, events, registered)
    ensures forall id :: !Interrupts(m, events[0], id)
    ensures Uninterrupted(Next(m, events[0], registered), events[1..], registered)
  {
    forall id
      ensures !Interrupts(m, events[0], id)
      ensures !SomeInterrupts(Next(m, events[0], registered), events[1..], registered, id)
    {
      assert !SomeInterrupts(m, events, registered, id);
    }
  }

  /** From the empty queue, every live action can still be sent exactly when no reload of the run came while
      the executor call of a queued action was awaited. */
  lemma LiveActionsCanBeSentIff(events: seq<Event>, registered: set<ActionType>)
    requires IsRun(INITIAL, events, registered)
    ensures LiveCanBeSent(After(INITIAL, events, registered)) <==> Uninterrupted(INITIAL, events, registered)
  {
    RunKeepsConsistent(INITIAL, events, registered);
    LiveCanBeSentIff(After(INITIAL, events, registered));
    forall id ensures IsAbandoned(After(INITIAL, events, registered), id) <==> SomeInterrupts(INITIAL, events, registered, id) {
      AbandonedIff(INITIAL, events, registered, id);
    }
  }

  lemma {:induction false} RunKeepsConsistent(m: Machine, events: seq<Event>, registered: set<ActionType>)
    requires Consistent(m) && IsRun(m, events, registered)
    ensures Consistent(After(m, events, registered))
    decreases |events|
  {
    if events != [] {
      StepKeepsConsistent(m, events[0], registered);
      RunKeepsConsistent(Next(m, events[0], registered), events[1..], registered);
    }
  }

  // -- How many actions run ----------------------------------------------------------------------------

  function One(a: Action): nat {
    if a.status == Running then 1 else 0
  }

  function RunningCount(s: seq<Action>): nat {
    if s == [] then 0 else One(s[0]) + RunningCount(s[1..])
  }

  /** The queued action whose executor call is awaited. */
  ghost function Awaited(m: Machine): nat {
    if Current(m).Some? && IsQueued(m.queue.actions, Current(m).value.id) then 1 else 0
  }

  /** The calls that reloads interrupt. */
  ghost function Interruptions(m: Machine, events: seq<Event>, registered: set<ActionType>): nat
    requires IsRun(m, events, registered)
    decreases |events|
  {
    if events == [] then 0
    else InterruptedBy(m, events[0]) + Interruptions(Next(m, events[0], registered), events[1..], registered)
  }

  ghost function InterruptedBy(m: Machine, e: Event): nat {
    if e.Reloaded? then Awaited(m) else 0
  }

  lemma {:induction false} CountUpdate(s: seq<Action>, i: nat, x: Action)
    requires i < |s|
    ensures RunningCount(s[i := x]) + One(s[i]) == RunningCount(s) + One(x)
  {
    if i == 0 {
      assert s[0 := x][1..] == s[1..];
    } else {
      assert s[i := x][1..] == s[1..][i - 1 := x];
      CountUpdate(s[1..], i - 1, x);
    }
  }

  lemma {:induction false} CountSnoc(s: seq<Action>, x: Action)
    ensures RunningCount(s + [x]) == RunningCount(s) + One(x)
  {
    if s == [] {
      assert [x][1..] == [];
    } else {
      assert (s + [x])[1..] == s[1..] + [x];
      CountSnoc(s[1..], x);
    }
  }

  lemma UpdateCounts(q: QueueState, id: string, update: Action -> Action) returns (x: Action)
    requires DistinctIds(q.actions) && IsQueued(q.actions, id)
    ensures x in q.actions && x.id == id
    ensures RunningCount(UpdateById(q, id, update).actions) + One(x) == RunningCount(q.actions) + One(update(x))
  {
    x :| x in q.actions && x.id == id;
    var i :| 0 <= i < |q.actions| && q.actions[i] == x;
    UpdateAt(q, i, update);
    CountUpdate(q.actions, i, update(x));
  }

  lemma UpdateOfNone(q: QueueState, id: string, update: Action -> Action)
    requires !IsQueued(q.actions, id)
    ensures UpdateById(q, id, update) == q
  {
  }

  lemma EnqueueCounts(m: Machine, a: Action)
    requires Consistent(m) && Enabled(m, Enqueued(a))
    ensures RunningCount(EnqueueActions(m.queue.actions, a)) == RunningCount(m.queue.actions)
    ensures Awaited(m.(queue := Enqueue(m.queue, a))) == Awaited(m)
  {
    var s, r := m.queue.actions, EnqueueActions(m.queue.actions, a);
    var k, merged := EnqueueShape(s, a);
    if k == |s| {
      CountSnoc(s, a);
    } else if k >= 0 {
      CountUpdate(s, k, merged);
    }
    if Current(m).Some? {
      EnqueueKeepsCurrent(m, a, Current(m).value.id);
    }
  }

  /** An enqueue neither adds nor removes the action that is being sent. */
  lemma EnqueueKeepsCurrent(m: Machine, a: Action, id: string)
    requires Consistent(m) && Enabled(m, Enqueued(a)) && Current(m).Some? && Current(m).value.id == id
    ensures IsQueued(EnqueueActions(m.queue.actions, a), id) <==> IsQueued(m.queue.actions, id)
  {
    var s, r := m.queue.actions, EnqueueActions(m.queue.actions, a);
    EnqueueInherits(s, a);
    var k, merged := EnqueueShape(s, a);
    if IsQueued(s, id) {
      var i :| 0 <= i < |s| && s[i].id == id;
      assert s[i] in s;
      assert r[i] == s[i] && r[i] in r;
    }
  }

  lemma DismissCounts(m: Machine, id: string)
    requires Consistent(m) && Enabled(m, Dismissed(id))
    ensures RunningCount(SetStatus(m.queue, id, Done).actions) == RunningCount(m.queue.actions)
    ensures Awaited(m.(queue := SetStatus(m.queue, id, Done))) == Awaited(m)
  {
    var c :| c in m.queue.actions && c.id == id && c.status == Conflict;
    var x := UpdateCounts(m.queue, id, ToStatus(Done, None));
    SameIdSameAction(m.queue.actions, x, c);
    StatusUpdatesKeepIdentity(Done, None, 0);
    UpdateKeepsQueued(m.queue, id, ToStatus(Done, None));
  }

  lemma TakeCounts(m: Machine, registered: set<ActionType>)
    requires Consistent(m) && Enabled(m, Took)
    ensures var n := Next(m, Took, registered);
      RunningCount(n.queue.actions) == RunningCount(m.queue.actions) + Awaited(n)
  {
    var a := Todo(m)[0];
    assert a in Todo(m);
    if a.actionType in registered {
      StatusUpdatesKeepIdentity(Running, None, 0);
      UpdateKeepsQueued(m.queue, a.id, ToStatus(Running, None));
      if IsQueued(m.queue.actions, a.id) {
        var x := UpdateCounts(m.queue, a.id, ToStatus(Running, None));
      } else {
        UpdateOfNone(m.queue, a.id, ToStatus(Running, None));
      }
    }
  }

  lemma FinishCounts(m: Machine, o: Outcome)
    requires Consistent(m) && Enabled(m, Finished(o))
    ensures RunningCount(Finish(m.queue, Current(m).value, o).actions) + Awaited(m) == RunningCount(m.queue.actions)
  {
    var a := Current(m).value;
    var q := if o.Auth? then m.queue.(requiresAuth := true) else m.queue;
    FinishUpdateFacts(a, o);
    if IsQueued(q.actions, a.id) {
      var x := UpdateCounts(q, a.id, FinishUpdate(a, o));
    } else {
      UpdateOfNone(q, a.id, FinishUpdate(a, o));
    }
  }

  lemma StepCounts(m: Machine, e: Event, registered: set<ActionType>)
    requires Consistent(m) && Enabled(m, e)
    ensures var n := Next(m, e, registered);
      RunningCount(n.queue.actions) + Awaited(m) == RunningCount(m.queue.actions) + Awaited(n) + InterruptedBy(m, e)
  {
    match e
    case Enqueued(a) => EnqueueCounts(m, a);
    case Dismissed(id) => DismissCounts(m, id);
    case Took => TakeCounts(m, registered);
    case Finished(o) => FinishCounts(m, o);
    case _ =>
  }

  lemma {:induction false} RunCounts(m: Machine, events: seq<Event>, registered: set<ActionType>)
    requires Consistent(m) && IsRun(m, events, registered)
    ensures var n := After(m, events, registered);
      RunningCount(n.queue.actions) + Awaited(m)
      == RunningCount(m.queue.actions) + Awaited(n) + Interruptions(m, events, registered)
    decreases |events|
  {
    if events != [] {
      StepKeepsConsistent(m, events[0], registered);
      StepCounts(m, events[0], registered);
      RunCounts(Next(m, events[0], registered), events[1..], registered);
    }
  }

  /** From the empty queue, as many actions are marked running as reloads interrupted calls, and the awaited
      one besides. */
  lemma RunningActionsAreCounted(events: seq<Event>, registered: set<ActionType>)
    requires IsRun(INITIAL, events, registered)
    ensures var m := After(INITIAL, events, registered);
      RunningCount(m.queue.actions) == Interruptions(INITIAL, events, registered) + Awaited(m)
  {
    RunCounts(INITIAL, events, registered);
  }
}
