/** One call of `runReplay`: the loop over the snapshot, with whatever the page does to the queue while
    an executor is awaited. */
module ReplayRun {
  import opened Wrappers
  import opened Sequences
  import opened OfflineActions
  import opened ReplayMachine

  /** What happens during one executor call: page events first, then the outcome. */
  datatype Turn = Turn(during: seq<Event>, outcome: Outcome)

  type Script = nat -> Turn

  function ApplyPage(q: QueueState, events: seq<Event>): QueueState
    decreases |events|
  {
    if events == [] then q
    else
      var next := match events[0]
        case Enqueued(a) => Enqueue(q, a)
        case Dismissed(id) => SetStatus(q, id, Done)
        case AuthFlagged(b) => q.(requiresAuth := b)
        case _ => q;
      ApplyPage(next, events[1..])
  }

  datatype Result = Result(queue: QueueState, executed: seq<Action>, reported: bool, broke: bool)

  /** One executor call on `a`: mark it running, let the page act, apply the outcome. */
  function Execute(q: QueueState, a: Action, t: Turn): QueueState {
    Finish(ApplyPage(SetStatus(q, a.id, Running), t.during), a, t.outcome)
  }

  function ReplayFrom(q: QueueState, todo: seq<Action>, registered: set<ActionType>, script: Script, k: nat): Result
    decreases |todo|
  {
    if todo == [] then Result(q, [], false, false)
    else
      var a := todo[0];
      if a.actionType !in registered then ReplayFrom(q, todo[1..], registered, script, k)
      else
        var t := script(k);
        var after := Execute(q, a, t);
        if Breaks(t.outcome) then Result(after, [a], false, true)
        else
          var rest := ReplayFrom(after, todo[1..], registered, script, k + 1);
          Result(rest.queue, [a] + rest.executed, ReportsTerminal(a, t.outcome) || rest.reported, rest.broke)
  }

  function RunReplay(q: QueueState, registered: set<ActionType>, script: Script): Result {
    ReplayFrom(q, Snapshot(q), registered, script, 0)
  }

  // -- Which actions are executed ------------------------------------------------------------------

  function OutcomeAt(script: Script, k: nat, n: nat): Outcome {
    script(k + n).outcome
  }

  function Executable(registered: set<ActionType>): Action -> bool {
    (a: Action) => a.actionType in registered
  }

  /** The executed actions are a prefix of the registered ones in replay order, and all of them unless
      the replay broke off. Page events have no influence on this. */
  lemma {:induction false} ExecutedIsPrefix(q: QueueState, todo: seq<Action>, registered: set<ActionType>, script: Script, k: nat)
    ensures var r, all := ReplayFrom(q, todo, registered, script, k), Filter(todo, Executable(registered));
      && |r.executed| <= |all| && r.executed == all[..|r.executed|]
      && (!r.broke ==> r.executed == all)
    decreases |todo|
  {
    if todo != [] {
      var a, others := todo[0], Filter(todo[1..], Executable(registered));
      if a.actionType !in registered {
        ExecutedIsPrefix(q, todo[1..], registered, script, k);
      } else if Breaks(script(k).outcome) {
        assert ([a] + others)[..1] == [a];
      } else {
        var after := Execute(q, a, script(k));
        ExecutedIsPrefix(after, todo[1..], registered, script, k + 1);
        var n := |ReplayFrom(after, todo[1..], registered, script, k + 1).executed|;
        assert ([a] + others)[..n + 1] == [a] + others[..n];
      }
    }
  }

  /** A replay breaks off exactly when its last executor call ended in an auth or network error; no
      earlier call did. */
  lemma {:induction false} OnlyLastCallBreaks(q: QueueState, todo: seq<Action>, registered: set<ActionType>, script: Script, k: nat)
    ensures var r := ReplayFrom(q, todo, registered, script, k);
      && (r.broke <==> r.executed != [] && Breaks(OutcomeAt(script, k, |r.executed| - 1)))
      && (forall n :: 0 <= n < |r.executed| - 1 ==> !Breaks(OutcomeAt(script, k, n)))
    decreases |todo|
  {
    if todo != [] {
      var a := todo[0];
      if a.actionType !in registered {
        OnlyLastCallBreaks(q, todo[1..], registered, script, k);
      } else if !Breaks(script(k).outcome) {
        var after := Execute(q, a, script(k));
        OnlyLastCallBreaks(after, todo[1..], registered, script, k + 1);
        forall n: nat | n > 0 ensures OutcomeAt(script, k, n) == OutcomeAt(script, k + 1, n - 1) {
        }
      }
    }
  }

  // -- A replay is a run of the machine ------------------------------------------------------------

  /** The page behaves during the rest of the replay: only page events, each enabled when it happens. */
  ghost predicate PageBehaves(m: Machine, events: seq<Event>, registered: set<ActionType>)
    decreases |events|
  {
    events == [] ||
    (!events[0].Began? && !events[0].Took? && !events[0].Finished? && !events[0].Ended? && !events[0].Reloaded?
     && Enabled(m, events[0])
     && PageBehaves(Next(m, events[0], registered), events[1..], registered))
  }

  lemma {:induction false} PageEventsAreSteps(m: Machine, events: seq<Event>, registered: set<ActionType>)
    requires PageBehaves(m, events, registered)
    ensures IsRun(m, events, registered)
    ensures After(m, events, registered) == m.(queue := ApplyPage(m.queue, events))
    decreases |events|
  {
    if events != [] {
      PageEventsAreSteps(Next(m, events[0], registered), events[1..], registered);
    }
  }

  ghost predicate ScriptBehaves(q: QueueState, todo: seq<Action>, registered: set<ActionType>, script: Script, k: nat)
    decreases |todo|
  {
    todo == [] ||
    (var a := todo[0];
     if a.actionType !in registered then ScriptBehaves(q, todo[1..], registered, script, k)
     else
       && PageBehaves(Machine(SetStatus(q, a.id, Running), Some(Replay(todo[1..], Some(a)))), script(k).during, registered)
       && (Breaks(script(k).outcome) || ScriptBehaves(Execute(q, a, script(k)), todo[1..], registered, script, k + 1)))
  }

  lemma {:induction false} RunConcat(m: Machine, a: seq<Event>, b: seq<Event>, registered: set<ActionType>)
    requires IsRun(m, a, registered) && IsRun(After(m, a, registered), b, registered)
    ensures IsRun(m, a + b, registered)
    ensures After(m, a + b, registered) == After(After(m, a, registered), b, registered)
    decreases |a|
  {
    if a == [] {
      assert a + b == b;
    } else {
      assert (a + b)[1..] == a[1..] + b;
      RunConcat(Next(m, a[0], registered), a[1..], b, registered);
    }
  }

  /** The loop from any point is a run of the machine that ends with no replay in progress. */
  lemma {:induction false} LoopIsRun(q: QueueState, todo: seq<Action>, registered: set<ActionType>, script: Script, k: nat)
    returns (events: seq<Event>)
    requires ScriptBehaves(q, todo, registered, script, k)
    ensures var m := Machine(q, Some(Replay(todo, None)));
      && IsRun(m, events, registered)
      && After(m, events, registered) == Machine(ReplayFrom(q, todo, registered, script, k).queue, None)
    decreases |todo|
  {
    var m := Machine(q, Some(Replay(todo, None)));
    if todo == [] {
      events := [Ended];
      assert events[1..] == [];
    } else {
      var a := todo[0];
      var m1 := Next(m, Took, registered);
      if a.actionType !in registered {
        var rest := LoopIsRun(q, todo[1..], registered, script, k);
        events := [Took] + rest;
        assert events[1..] == rest;
      } else {
        var t := script(k);
        PageEventsAreSteps(m1, t.during, registered);
        var m2 := After(m1, t.during, registered);
        var m3 := Next(m2, Finished(t.outcome), registered);
        assert m3.queue == Execute(q, a, t);
        var rest: seq<Event> := [];
        if !Breaks(t.outcome) {
          rest := LoopIsRun(Execute(q, a, t), todo[1..], registered, script, k + 1);
        }
        var tail := [Finished(t.outcome)] + rest;
        assert tail[1..] == rest;
        RunConcat(m1, t.during, tail, registered);
        events := [Took] + (t.during + tail);
        assert events[1..] == t.during + tail;
      }
    }
  }

  /** `runReplay` started on an idle queue is a run of the machine, so every invariant of the machine
      holds when it returns. */
  lemma ReplayIsRun(q: QueueState, registered: set<ActionType>, script: Script) returns (events: seq<Event>)
    requires ScriptBehaves(q, Snapshot(q), registered, script, 0)
    ensures IsRun(Machine(q, None), events, registered)
    ensures After(Machine(q, None), events, registered) == Machine(RunReplay(q, registered, script).queue, None)
  {
    var rest := LoopIsRun(q, Snapshot(q), registered, script, 0);
    events := [Began] + rest;
    assert events[1..] == rest;
  }
}
