/** How many live actions of one kind the queue can hold, over every run of the machine. */
module ReplayLimits {
  import opened Wrappers
  import opened Sequences
  import opened OfflineActions
  import opened ReplayMachine
  import opened ReplayReload

  function LiveSkipAt(stop: string): Action -> bool {
    (a: Action) => a.actionType == SkipStopWithHazard && Live(a) && a.stop == stop
  }

  function LiveUploadAt(stop: string, kind: string): Action -> bool {
    (a: Action) => a.actionType == UploadStopPhotos && Live(a) && a.stop == stop && HasKind(a.payload, kind)
  }

  ghost predicate AtMostOne(s: seq<Action>, group: Action -> bool) {
    forall i, j :: 0 <= i < j < |s| ==> !(group(s[i]) && group(s[j]))
  }

  ghost predicate AtMostTwo(s: seq<Action>, group: Action -> bool) {
    forall i, j, k :: 0 <= i < j < k < |s| ==> !(group(s[i]) && group(s[j]) && group(s[k]))
  }

  ghost predicate AtMost(n: nat, s: seq<Action>, group: Action -> bool) {
    (n == 1 ==> AtMostOne(s, group)) && (n == 2 ==> AtMostTwo(s, group))
  }

  /** At most one live start per stop, and at most `n` live skips per stop and uploads per stop and kind. */
  ghost predicate Limited(s: seq<Action>, n: nat) {
    && (forall stop :: AtMostOne(s, LiveStartAt(stop)))
    && (forall stop :: AtMost(n, s, LiveSkipAt(stop)))
    && (forall stop, kind :: AtMost(n, s, LiveUploadAt(stop, kind)))
  }

  /** No action becomes a member of the group. */
  ghost predicate NoneJoins(s: seq<Action>, r: seq<Action>, group: Action -> bool) {
    |r| == |s| && forall i :: 0 <= i < |s| && group(r[i]) ==> group(s[i])
  }

  lemma NoneJoinsKeepsLimits(s: seq<Action>, r: seq<Action>, group: Action -> bool)
    requires NoneJoins(s, r, group)
    ensures AtMostOne(s, group) ==> AtMostOne(r, group)
    ensures AtMostTwo(s, group) ==> AtMostTwo(r, group)
  {
  }

  lemma LimitsUnderUpdate(s: seq<Action>, r: seq<Action>, n: nat)
    requires Limited(s, n) && |r| == |s|
    requires forall i :: 0 <= i < |s| ==>
      && r[i].actionType == s[i].actionType && r[i].stop == s[i].stop
      && (Live(r[i]) ==> Live(s[i]))
      && (r[i].actionType == UploadStopPhotos ==> forall kind :: HasKind(r[i].payload, kind) ==> HasKind(s[i].payload, kind))
    ensures Limited(r, n)
  {
    forall stop ensures AtMostOne(r, LiveStartAt(stop)) && AtMost(n, r, LiveSkipAt(stop)) {
      NoneJoinsKeepsLimits(s, r, LiveStartAt(stop));
      NoneJoinsKeepsLimits(s, r, LiveSkipAt(stop));
    }
    forall stop, kind ensures AtMost(n, r, LiveUploadAt(stop, kind)) {
      NoneJoinsKeepsLimits(s, r, LiveUploadAt(stop, kind));
    }
  }

  lemma AppendToGroup(s: seq<Action>, a: Action, group: Action -> bool)
    ensures AtMostOne(s, group) ==> AtMostTwo(s + [a], group)
    ensures (forall x :: x in s ==> !group(x)) ==> AtMostOne(s + [a], group)
    ensures !group(a) && AtMostOne(s, group) ==> AtMostOne(s + [a], group)
    ensures !group(a) && AtMostTwo(s, group) ==> AtMostTwo(s + [a], group)
  {
  }

  /** A group without pending members holds at most the one running action. */
  lemma NoPendingMeansOne(m: Machine, group: Action -> bool)
    requires DistinctIds(m.queue.actions) && LiveCanBeSent(m)
    requires forall x :: x in m.queue.actions && group(x) ==> x.status == Running
    ensures AtMostOne(m.queue.actions, group)
    ensures Current(m).None? ==> forall x :: x in m.queue.actions ==> !group(x)
  {
    var s := m.queue.actions;
    forall i, j | 0 <= i < j < |s| ensures !(group(s[i]) && group(s[j])) {
      assert s[i] in s && s[j] in s;
    }
  }

  lemma AppendKeepsGroup(m: Machine, a: Action, n: nat, group: Action -> bool)
    requires DistinctIds(m.queue.actions) && LiveCanBeSent(m)
    requires AtMost(n, m.queue.actions, group) && (n == 2 || (n == 1 && Current(m).None?))
    requires group(a) ==> forall x :: x in m.queue.actions && group(x) ==> x.status == Running
    ensures AtMost(n, m.queue.actions + [a], group)
  {
    if group(a) {
      NoPendingMeansOne(m, group);
    }
    AppendToGroup(m.queue.actions, a, group);
  }

  /** The action finds no live action of its kind, or only running ones. */
  ghost predicate FindsNoPending(s: seq<Action>, a: Action) {
    && (LiveStartAt(a.stop)(a) ==> forall x :: x in s ==> !LiveStartAt(a.stop)(x))
    && (forall x :: x in s && LiveSkipAt(a.stop)(a) && LiveSkipAt(a.stop)(x) ==> x.status == Running)
    && (forall x, kind :: x in s && LiveUploadAt(a.stop, kind)(a) && LiveUploadAt(a.stop, kind)(x) ==> x.status == Running)
  }

  lemma AppendedFindsNoPending(s: seq<Action>, a: Action)
    requires a.status == Pending && (a.actionType == UploadStopPhotos ==> Mergeable(a.payload))
    requires EnqueueActions(s, a) == s + [a]
    ensures FindsNoPending(s, a)
  {
    assert |s + [a]| != |s|;
    assert forall x :: x in s ==> exists j :: 0 <= j < |s| && s[j] == x;
  }

  lemma AppendKeepsLimits(m: Machine, a: Action, n: nat)
    requires Limited(m.queue.actions, n) && DistinctIds(m.queue.actions) && LiveCanBeSent(m)
    requires n == 2 || (n == 1 && Current(m).None?)
    requires FindsNoPending(m.queue.actions, a)
    ensures Limited(m.queue.actions + [a], n)
  {
    var s := m.queue.actions;
    forall stop ensures AtMostOne(s + [a], LiveStartAt(stop)) && AtMost(n, s + [a], LiveSkipAt(stop)) {
      AppendToGroup(s, a, LiveStartAt(stop));
      AppendKeepsGroup(m, a, n, LiveSkipAt(stop));
    }
    forall stop, kind ensures AtMost(n, s + [a], LiveUploadAt(stop, kind)) {
      AppendKeepsGroup(m, a, n, LiveUploadAt(stop, kind));
    }
  }

  lemma RewriteKeepsLimits(s: seq<Action>, k: nat, merged: Action, n: nat)
    requires Limited(s, n) && k < |s| && Live(s[k])
    requires merged.actionType == s[k].actionType && merged.stop == s[k].stop
    requires merged.actionType == UploadStopPhotos ==> forall kind :: HasKind(merged.payload, kind) ==> HasKind(s[k].payload, kind)
    ensures Limited(s[k := merged], n)
  {
    LimitsUnderUpdate(s, s[k := merged], n);
  }

  lemma EnqueueKeepsLimits(m: Machine, a: Action, n: nat)
    requires Consistent(m) && LiveCanBeSent(m) && Enabled(m, Enqueued(a)) && Limited(m.queue.actions, n)
    requires n == 2 || (n == 1 && m.replay.None?)
    ensures Limited(EnqueueActions(m.queue.actions, a), n)
  {
    var s := m.queue.actions;
    var k, merged := EnqueueShape(s, a);
    if k == |s| {
      AppendedFindsNoPending(s, a);
      AppendKeepsLimits(m, a, n);
    } else if k >= 0 {
      RewriteKeepsLimits(s, k, merged, n);
    }
  }

  lemma TakingKeepsLimits(m: Machine, registered: set<ActionType>, n: nat)
    requires Consistent(m) && Enabled(m, Took) && Limited(m.queue.actions, n) && (n == 1 || n == 2)
    ensures Limited(Next(m, Took, registered).queue.actions, n)
  {
    var a := Todo(m)[0];
    assert a in Todo(m);
    UpdateIsPointwise(m.queue, a.id, ToStatus(Running, None));
    assert forall i :: 0 <= i < |m.queue.actions| ==> m.queue.actions[i] in m.queue.actions;
    LimitsUnderUpdate(m.queue.actions, SetStatus(m.queue, a.id, Running).actions, n);
  }

  lemma FinishingKeepsLimits(m: Machine, o: Outcome, registered: set<ActionType>, n: nat)
    requires Consistent(m) && Enabled(m, Finished(o)) && Limited(m.queue.actions, n) && (n == 1 || n == 2)
    ensures Limited(Next(m, Finished(o), registered).queue.actions, n)
  {
    var a := Current(m).value;
    var q := if o.Auth? then m.queue.(requiresAuth := true) else m.queue;
    FinishUpdateFacts(a, o);
    UpdateIsPointwise(q, a.id, FinishUpdate(a, o));
    assert forall i :: 0 <= i < |m.queue.actions| ==> m.queue.actions[i] in m.queue.actions;
    LimitsUnderUpdate(m.queue.actions, Finish(m.queue, a, o).actions, n);
  }

  lemma DismissingKeepsLimits(m: Machine, id: string, registered: set<ActionType>, n: nat)
    requires Consistent(m) && Enabled(m, Dismissed(id)) && Limited(m.queue.actions, n) && (n == 1 || n == 2)
    ensures Limited(Next(m, Dismissed(id), registered).queue.actions, n)
  {
    UpdateIsPointwise(m.queue, id, ToStatus(Done, None));
    LimitsUnderUpdate(m.queue.actions, SetStatus(m.queue, id, Done).actions, n);
  }

  /** Each step keeps the limits; enqueueing during a replay costs the tighter ones. */
  lemma StepKeepsLimits(m: Machine, e: Event, registered: set<ActionType>, n: nat)
    requires Consistent(m) && LiveCanBeSent(m) && Enabled(m, e) && Limited(m.queue.actions, n)
    requires n == 2 || (n == 1 && (e.Enqueued? ==> m.replay.None?))
    ensures Limited(Next(m, e, registered).queue.actions, n)
  {
    match e
    case Enqueued(a) => EnqueueKeepsLimits(m, a, n);
    case Dismissed(id) => DismissingKeepsLimits(m, id, registered, n);
    case Took => TakingKeepsLimits(m, registered, n);
    case Finished(o) => FinishingKeepsLimits(m, o, registered, n);
    case _ =>
  }

  // -- Over whole runs -------------------------------------------------------------------------------

  /** No action is enqueued while a replay is in progress. */
  ghost predicate Quiet(m: Machine, events: seq<Event>, registered: set<ActionType>)
    requires IsRun(m, events, registered)
    decreases |events|
  {
    events == [] ||
    ((events[0].Enqueued? ==> m.replay.None?) && Quiet(Next(m, events[0], registered), events[1..], registered))
  }

  lemma {:induction false} RunsAreLimited(m: Machine, events: seq<Event>, registered: set<ActionType>)
    requires IsRun(m, events, registered) && Consistent(m) && LiveCanBeSent(m) && Limited(m.queue.actions, 2)
    requires Uninterrupted(m, events, registered)
    ensures Consistent(After(m, events, registered)) && LiveCanBeSent(After(m, events, registered))
    ensures Limited(After(m, events, registered).queue.actions, 2)
    ensures Limited(m.queue.actions, 1) && Quiet(m, events, registered)
      ==> Limited(After(m, events, registered).queue.actions, 1)
    decreases |events|
  {
    if events != [] {
      UninterruptedTail(m, events, registered);
      StepKeepsLiveSent(m, events[0], registered);
      StepKeepsLimits(m, events[0], registered, 2);
      if Limited(m.queue.actions, 1) && Quiet(m, events, registered) {
        StepKeepsLimits(m, events[0], registered, 1);
      }
      RunsAreLimited(Next(m, events[0], registered), events[1..], registered);
    }
  }

  function RunningActions(): Action -> bool {
    (a: Action) => a.status == Running
  }

  /** When no reload interrupts an executor call, then in every reachable state at most one action is running,
      each stop has at most one live start, and at most two live skips and two live uploads of a kind; one
      each when no enqueue overlaps a replay. */
  lemma ReachableQueuesAreLimited(events: seq<Event>, registered: set<ActionType>)
    requires IsRun(INITIAL, events, registered) && Uninterrupted(INITIAL, events, registered)
    ensures var q := After(INITIAL, events, registered).queue.actions;
      && AtMostOne(q, RunningActions())
      && (forall stop :: AtMostOne(q, LiveStartAt(stop)))
      && (forall stop :: AtMostTwo(q, LiveSkipAt(stop)))
      && (forall stop, kind :: AtMostTwo(q, LiveUploadAt(stop, kind)))
    ensures var q := After(INITIAL, events, registered).queue.actions;
      Quiet(INITIAL, events, registered) ==>
        && (forall stop :: AtMostOne(q, LiveSkipAt(stop)))
        && (forall stop, kind :: AtMostOne(q, LiveUploadAt(stop, kind)))
  {
    InitialRunsAreLimited(events, registered);
    var m := After(INITIAL, events, registered);
    NoPendingMeansOne(m, RunningActions());
    LimitedByTwo(m.queue.actions);
    if Quiet(INITIAL, events, registered) {
      LimitedByOne(m.queue.actions);
    }
  }

  lemma InitialRunsAreLimited(events: seq<Event>, registered: set<ActionType>)
    requires IsRun(INITIAL, events, registered) && Uninterrupted(INITIAL, events, registered)
    ensures var m := After(INITIAL, events, registered);
      && DistinctIds(m.queue.actions) && LiveCanBeSent(m) && Limited(m.queue.actions, 2)
      && (Quiet(INITIAL, events, registered) ==> Limited(m.queue.actions, 1))
  {
    InitialIsLimited();
    RunsAreLimited(INITIAL, events, registered);
  }

  lemma InitialIsLimited()
    ensures Consistent(INITIAL) && LiveCanBeSent(INITIAL)
    ensures Limited(INITIAL.queue.actions, 1) && Limited(INITIAL.queue.actions, 2)
  {
    NothingIsLimited([], 1);
    NothingIsLimited([], 2);
  }

  lemma NothingIsLimited(s: seq<Action>, n: nat)
    requires s == []
    ensures Limited(s, n)
  {
    forall stop ensures AtMostOne(s, LiveStartAt(stop)) && AtMost(n, s, LiveSkipAt(stop)) {
    }
    forall stop, kind ensures AtMost(n, s, LiveUploadAt(stop, kind)) {
    }
  }

  lemma LimitedByTwo(s: seq<Action>)
    requires Limited(s, 2)
    ensures forall stop :: AtMostOne(s, LiveStartAt(stop))
    ensures forall stop :: AtMostTwo(s, LiveSkipAt(stop))
    ensures forall stop, kind :: AtMostTwo(s, LiveUploadAt(stop, kind))
  {
    forall stop ensures AtMostTwo(s, LiveSkipAt(stop)) {
      assert AtMost(2, s, LiveSkipAt(stop));
    }
    forall stop, kind ensures AtMostTwo(s, LiveUploadAt(stop, kind)) {
      assert AtMost(2, s, LiveUploadAt(stop, kind));
    }
  }

  lemma LimitedByOne(s: seq<Action>)
    requires Limited(s, 1)
    ensures forall stop :: AtMostOne(s, LiveSkipAt(stop))
    ensures forall stop, kind :: AtMostOne(s, LiveUploadAt(stop, kind))
  {
    forall stop ensures AtMostOne(s, LiveSkipAt(stop)) {
      assert AtMost(1, s, LiveSkipAt(stop));
    }
    forall stop, kind ensures AtMostOne(s, LiveUploadAt(stop, kind)) {
      assert AtMost(1, s, LiveUploadAt(stop, kind));
    }
  }

  // A run that reaches the bound of two.

  const SKIPS := {SkipStopWithHazard}

  function SkipOf(id: string, status: Status): Action {
    Action(id, SkipStopWithHazard, "run", "stop", 0, SkipReport([]), status, None, 0)
  }

  function OverlapState(k: nat): Machine {
    var a, b := SkipOf("a", Pending), SkipOf("b", Pending);
    match k
    case 0 => INITIAL
    case 1 => Machine(QueueState([a], false), None)
    case 2 => Machine(QueueState([a], false), Some(Replay([a], None)))
    case 3 => Machine(QueueState([SkipOf("a", Running)], false), Some(Replay([], Some(a))))
    case _ => Machine(QueueState([SkipOf("a", Running), b], false), Some(Replay([], Some(a))))
  }

  const OVERLAP := [Enqueued(SkipOf("a", Pending)), Began, Took, Enqueued(SkipOf("b", Pending))]

  ghost predicate StepsTo(m: Machine, e: Event, after: Machine, registered: set<ActionType>) {
    Enabled(m, e) && Next(m, e, registered) == after
  }

  lemma RunOfFour(m: seq<Machine>, e: seq<Event>, registered: set<ActionType>)
    requires |m| == 5 && |e| == 4
    requires forall k :: 0 <= k < 4 ==> StepsTo(m[k], e[k], m[k + 1], registered)
    ensures IsRun(m[0], e, registered) && After(m[0], e, registered) == m[4]
  {
    assert StepsTo(m[0], e[0], m[1], registered) && StepsTo(m[1], e[1], m[2], registered);
    assert StepsTo(m[2], e[2], m[3], registered) && StepsTo(m[3], e[3], m[4], registered);
    assert e[1..][1..][1..][1..] == [];
    assert e[1..][1..][1..][0] == e[3] && e[1..][1..][0] == e[2] && e[1..][0] == e[1];
    assert IsRun(m[3], e[1..][1..][1..], registered) && After(m[3], e[1..][1..][1..], registered) == m[4];
    assert IsRun(m[2], e[1..][1..], registered) && After(m[2], e[1..][1..], registered) == m[4];
    assert IsRun(m[1], e[1..], registered) && After(m[1], e[1..], registered) == m[4];
  }

  lemma OverlapBegins()
    ensures StepsTo(OverlapState(1), Began, OverlapState(2), SKIPS)
  {
    var s := [SkipOf("a", Pending)];
    FilterAll(s, IsPending());
    SortOfSorted(s, ReplayOrder());
  }

  lemma OverlapTakes()
    ensures StepsTo(OverlapState(2), Took, OverlapState(3), SKIPS)
  {
    var m := OverlapState(2);
    UpdateIsPointwise(m.queue, "a", ToStatus(Running, None));
    assert SetStatus(m.queue, "a", Running).actions == [SkipOf("a", Running)];
  }

  lemma OverlapEnqueues()
    ensures StepsTo(OverlapState(0), Enqueued(SkipOf("a", Pending)), OverlapState(1), SKIPS)
    ensures StepsTo(OverlapState(3), Enqueued(SkipOf("b", Pending)), OverlapState(4), SKIPS)
  {
  }

  lemma OverlapRuns()
    ensures IsRun(INITIAL, OVERLAP, SKIPS) && After(INITIAL, OVERLAP, SKIPS) == OverlapState(4)
  {
    OverlapEnqueues();
    OverlapBegins();
    OverlapTakes();
    RunOfFour([OverlapState(0), OverlapState(1), OverlapState(2), OverlapState(3), OverlapState(4)], OVERLAP, SKIPS);
  }

  /** Skipping a stop again while its first skip is being sent leaves two live skips. */
  lemma TwoSkipsCanBeLive()
    ensures IsRun(INITIAL, OVERLAP, SKIPS)
    ensures After(INITIAL, OVERLAP, SKIPS).queue.actions == [SkipOf("a", Running), SkipOf("b", Pending)]
    ensures !AtMostOne(After(INITIAL, OVERLAP, SKIPS).queue.actions, LiveSkipAt("stop"))
  {
    OverlapRuns();
    var q := After(INITIAL, OVERLAP, SKIPS).queue.actions;
    assert LiveSkipAt("stop")(q[0]) && LiveSkipAt("stop")(q[1]);
  }

  // -- Settled actions -------------------------------------------------------------------------------

  predicate Settled(a: Action) {
    a.status == Done || a.status == Failed
  }

  lemma EnqueueKeepsSettled(s: seq<Action>, a: Action, x: Action)
    requires a.status == Pending && (a.actionType == UploadStopPhotos ==> Mergeable(a.payload))
    requires x in s && Settled(x)
    ensures x in EnqueueActions(s, a)
  {
    var i :| 0 <= i < |s| && s[i] == x;
    var k, merged := EnqueueShape(s, a);
    assert EnqueueActions(s, a)[i] == x;
  }

  lemma StepKeepsSettled(m: Machine, e: Event, registered: set<ActionType>, x: Action)
    requires Consistent(m) && Enabled(m, e) && x in m.queue.actions && Settled(x)
    ensures x in Next(m, e, registered).queue.actions
  {
    match e
    case Enqueued(a) => EnqueueKeepsSettled(m.queue.actions, a, x);
    case Dismissed(id) =>
      var c :| c in m.queue.actions && c.id == id && c.status == Conflict;
      if x.id == id {
        SameIdSameAction(m.queue.actions, x, c);
      }
      UpdateKeepsOthers(m.queue, id, ToStatus(Done, None), x);
    case Took =>
      assert Todo(m)[0] in Todo(m);
      UpdateKeepsOthers(m.queue, Todo(m)[0].id, ToStatus(Running, None), x);
    case Finished(o) =>
      var a := Current(m).value;
      UpdateKeepsOthers(if o.Auth? then m.queue.(requiresAuth := true) else m.queue, a.id, FinishUpdate(a, o), x);
    case _ =>
  }

  /** Done and failed actions never change again, whatever the rest of the run does. */
  lemma {:induction false} SettledActionsStay(m: Machine, events: seq<Event>, registered: set<ActionType>, x: Action)
    requires IsRun(m, events, registered) && Consistent(m)
    requires x in m.queue.actions && Settled(x)
    ensures x in After(m, events, registered).queue.actions
    decreases |events|
  {
    if events != [] {
      StepKeepsConsistent(m, events[0], registered);
      StepKeepsSettled(m, events[0], registered, x);
      SettledActionsStay(Next(m, events[0], registered), events[1..], registered, x);
    }
  }
}
