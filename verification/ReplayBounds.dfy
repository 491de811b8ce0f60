/** Replays during which nothing is enqueued: exactly what they change. */
module ReplayBounds {
  import opened Wrappers
  import opened Sequences
  import opened OfflineActions
  import opened ReplayMachine
  import opened ReplayRun

  ghost predicate EnqueuesNothing(script: Script) {
    forall k, e :: e in script(k).during ==> !e.Enqueued?
  }

  /** During the replay the page may dismiss conflicts and set the auth flag, but it enqueues nothing. */
  ghost predicate Undisturbed(q: QueueState, todo: seq<Action>, registered: set<ActionType>, script: Script, k: nat) {
    ScriptBehaves(q, todo, registered, script, k) && EnqueuesNothing(script)
  }

  /** The same action, or a conflict that has been dismissed. */
  predicate UpToDismissal(x: Action, y: Action) {
    y == x || (x.status == Conflict && y == ToStatus(Done, None)(x))
  }

  ghost predicate Dismissals(s: seq<Action>, r: seq<Action>) {
    |r| == |s| && forall i :: 0 <= i < |s| ==> UpToDismissal(s[i], r[i])
  }

  lemma DismissalsCompose(s: seq<Action>, m: seq<Action>, r: seq<Action>)
    requires Dismissals(s, m) && Dismissals(m, r)
    ensures Dismissals(s, r)
  {
    forall i | 0 <= i < |s| ensures UpToDismissal(s[i], r[i]) {
      assert UpToDismissal(s[i], m[i]) && UpToDismissal(m[i], r[i]);
    }
  }

  lemma DismissIsDismissal(m: Machine, id: string)
    requires DistinctIds(m.queue.actions) && Enabled(m, Dismissed(id))
    ensures Dismissals(m.queue.actions, SetStatus(m.queue, id, Done).actions)
    ensures DistinctIds(SetStatus(m.queue, id, Done).actions)
  {
    UpdateIsPointwise(m.queue, id, ToStatus(Done, None));
    var c :| c in m.queue.actions && c.id == id && c.status == Conflict;
    forall i | 0 <= i < |m.queue.actions| && m.queue.actions[i].id == id ensures m.queue.actions[i].status == Conflict {
      SameIdSameAction(m.queue.actions, m.queue.actions[i], c);
    }
  }

  /** What the page does meanwhile is to dismiss conflicts. */
  lemma {:induction false} PageOnlyDismisses(m: Machine, events: seq<Event>, registered: set<ActionType>)
    requires PageBehaves(m, events, registered) && DistinctIds(m.queue.actions)
    requires forall e :: e in events ==> !e.Enqueued?
    ensures Dismissals(m.queue.actions, ApplyPage(m.queue, events).actions)
    decreases |events|
  {
    if events != [] {
      var next := Next(m, events[0], registered);
      assert events[0] in events;
      if events[0].Dismissed? {
        DismissIsDismissal(m, events[0].id);
      }
      PageOnlyDismisses(next, events[1..], registered);
      DismissalsCompose(m.queue.actions, next.queue.actions, ApplyPage(next.queue, events[1..]).actions);
    }
  }

  /** The action after its executor call ended. */
  function EndOf(a: Action, o: Outcome): Action {
    FinishUpdate(a, o)(ToStatus(Running, None)(a))
  }

  /** The snapshot's rest is queued as it was snapshotted, and still pending. */
  ghost predicate Synced(q: QueueState, todo: seq<Action>) {
    && DistinctIds(q.actions) && DistinctIds(todo) && RetriesBounded(q.actions)
    && forall t :: t in todo ==> t in q.actions && t.status == Pending
  }

  lemma DismissalsKeep(s: seq<Action>, r: seq<Action>, i: nat)
    requires Dismissals(s, r) && i < |s| && s[i].status != Conflict
    ensures r[i] == s[i]
  {
    assert UpToDismissal(s[i], r[i]);
  }

  lemma DismissalsElsewhere(s: seq<Action>, r: seq<Action>, i: nat, x: Action)
    requires Dismissals(s, r) && i < |s|
    ensures Dismissals(s[i := x], r[i := x])
  {
    var s', r' := s[i := x], r[i := x];
    forall j | 0 <= j < |s| ensures UpToDismissal(s'[j], r'[j]) {
      assert j != i ==> UpToDismissal(s[j], r[j]);
    }
  }

  /** The queue while the executor of `todo[0]` is awaited and the page acts. */
  lemma AwaitUndisturbed(q: QueueState, i: nat, rest: seq<Action>, t: Turn, registered: set<ActionType>)
    requires DistinctIds(q.actions) && i < |q.actions|
    requires var awaiting := Machine(SetStatus(q, q.actions[i].id, Running), Some(Replay(rest, Some(q.actions[i]))));
      PageBehaves(awaiting, t.during, registered)
    requires forall e :: e in t.during ==> !e.Enqueued?
    ensures var running := ToStatus(Running, None)(q.actions[i]);
      var awaited := ApplyPage(SetStatus(q, q.actions[i].id, Running), t.during);
      Dismissals(q.actions[i := running], awaited.actions) && awaited.actions[i] == running
  {
    var running := ToStatus(Running, None)(q.actions[i]);
    UpdateAt(q, i, ToStatus(Running, None));
    var awaiting := Machine(SetStatus(q, q.actions[i].id, Running), Some(Replay(rest, Some(q.actions[i]))));
    PageOnlyDismisses(awaiting, t.during, registered);
    DismissalsKeep(q.actions[i := running], ApplyPage(SetStatus(q, q.actions[i].id, Running), t.during).actions, i);
  }

  lemma DismissalsKeepIds(s: seq<Action>, r: seq<Action>)
    requires Dismissals(s, r)
    ensures forall i :: 0 <= i < |s| ==> r[i].id == s[i].id
    ensures DistinctIds(s) ==> DistinctIds(r)
    ensures RetriesBounded(s) ==> RetriesBounded(r)
  {
    forall i | 0 <= i < |s| ensures r[i].id == s[i].id && r[i].retryCount == s[i].retryCount {
      assert UpToDismissal(s[i], r[i]);
    }
    assert forall i :: 0 <= i < |s| ==> s[i] in s;
  }

  lemma ExecuteUndisturbed(q: QueueState, todo: seq<Action>, registered: set<ActionType>, script: Script, k: nat)
    returns (i: nat)
    requires Synced(q, todo) && todo != [] && Undisturbed(q, todo, registered, script, k) && todo[0].actionType in registered
    ensures i < |q.actions| && q.actions[i] == todo[0]
    ensures Dismissals(q.actions[i := EndOf(todo[0], script(k).outcome)], Execute(q, todo[0], script(k)).actions)
    ensures Synced(Execute(q, todo[0], script(k)), todo[1..])
  {
    var a, t := todo[0], script(k);
    assert a in todo;
    i :| 0 <= i < |q.actions| && q.actions[i] == a;
    AwaitUndisturbed(q, i, todo[1..], t, registered);
    var awaited := ApplyPage(SetStatus(q, a.id, Running), t.during);
    SyncedAfter(q.actions, todo, i, ToStatus(Running, None)(a));
    FinishUndisturbed(q.actions, awaited, i, t.outcome);
    SyncedAfter(q.actions, todo, i, EndOf(a, t.outcome));
    SyncedUpToDismissal(q.actions[i := EndOf(a, t.outcome)], Execute(q, a, t), todo[1..]);
  }

  /** The end of the call for `s[i]`, which the page has not touched. */
  lemma FinishUndisturbed(s: seq<Action>, awaited: QueueState, i: nat, o: Outcome)
    requires i < |s| && DistinctIds(s[i := ToStatus(Running, None)(s[i])])
    requires Dismissals(s[i := ToStatus(Running, None)(s[i])], awaited.actions)
    requires awaited.actions[i] == ToStatus(Running, None)(s[i])
    ensures Dismissals(s[i := EndOf(s[i], o)], Finish(awaited, s[i], o).actions)
  {
    var running := ToStatus(Running, None)(s[i]);
    DismissalsKeepIds(s[i := running], awaited.actions);
    UpdateAt(if o.Auth? then awaited.(requiresAuth := true) else awaited, i, FinishUpdate(s[i], o));
    DismissalsElsewhere(s[i := running], awaited.actions, i, EndOf(s[i], o));
    assert s[i := running][i := EndOf(s[i], o)] == s[i := EndOf(s[i], o)];
  }

  lemma SyncedUpToDismissal(s: seq<Action>, q: QueueState, todo: seq<Action>)
    requires Dismissals(s, q.actions) && DistinctIds(s) && DistinctIds(todo) && RetriesBounded(s)
    requires forall t :: t in todo ==> t in s && t.status == Pending
    ensures Synced(q, todo)
  {
    DismissalsKeepIds(s, q.actions);
    forall t | t in todo ensures t in q.actions {
      var p :| 0 <= p < |s| && s[p] == t;
      DismissalsKeep(s, q.actions, p);
    }
  }

  lemma SyncedAfter(s: seq<Action>, todo: seq<Action>, i: nat, x: Action)
    requires i < |s| && todo != [] && s[i] == todo[0] && x.id == s[i].id && x.retryCount <= MAX_RETRIES
    requires DistinctIds(s) && DistinctIds(todo) && RetriesBounded(s)
    requires forall t :: t in todo ==> t in s && t.status == Pending
    ensures DistinctIds(s[i := x]) && DistinctIds(todo[1..]) && RetriesBounded(s[i := x])
    ensures forall t :: t in todo[1..] ==> t in s[i := x] && t.status == Pending
  {
    forall y | y in s[i := x] ensures y.retryCount <= MAX_RETRIES {
      assert y == x || y in s;
    }
    forall t | t in todo[1..] ensures t in s[i := x] && t.status == Pending {
      var j :| 0 <= j < |todo[1..]| && todo[1..][j] == t;
      assert todo[j + 1] == t && t in todo && t.id != todo[0].id;
      var p :| 0 <= p < |s| && s[p] == t;
      assert s[i := x][p] == t;
    }
  }

  lemma ExecutedFromTodo(q: QueueState, todo: seq<Action>, registered: set<ActionType>, script: Script, k: nat)
    ensures forall x :: x in ReplayFrom(q, todo, registered, script, k).executed ==> x in todo
  {
    ExecutedIsPrefix(q, todo, registered, script, k);
    FilterMembers(todo, Executable(registered));
    var r, all := ReplayFrom(q, todo, registered, script, k), Filter(todo, Executable(registered));
    forall x | x in r.executed ensures x in todo {
      assert x in all;
    }
  }

  /** `r` is `s` with every executed action in the state its own outcome puts it in; besides, conflicts may
      have been dismissed. */
  ghost predicate Effect(s: seq<Action>, r: seq<Action>, executed: seq<Action>, script: Script, k: nat) {
    && |r| == |s|
    && (forall i :: 0 <= i < |s| && s[i] !in executed ==> UpToDismissal(s[i], r[i]))
    && (forall i, n :: 0 <= i < |s| && 0 <= n < |executed| && s[i] == executed[n] ==>
         UpToDismissal(EndOf(executed[n], OutcomeAt(script, k, n)), r[i]))
  }

  lemma EffectOfOne(s: seq<Action>, r: seq<Action>, i0: nat, script: Script, k: nat)
    requires DistinctIds(s) && i0 < |s| && Dismissals(s[i0 := EndOf(s[i0], OutcomeAt(script, k, 0))], r)
    ensures Effect(s, r, [s[i0]], script, k)
  {
    var mid := s[i0 := EndOf(s[i0], OutcomeAt(script, k, 0))];
    assert forall i :: 0 <= i < |s| ==> UpToDismissal(mid[i], r[i]);
    assert s[i0] in [s[i0]];
  }

  /** The actions that the rest of the replay executes are still pending after the first call. */
  lemma RestIsUntouched(mid: seq<Action>, next: seq<Action>, rest: seq<Action>, i: nat)
    requires Dismissals(mid, next) && i < |mid| && forall x :: x in rest ==> x.status == Pending
    ensures mid[i] in rest ==> next[i] == mid[i]
    ensures mid[i] !in rest ==> next[i] !in rest
  {
    assert UpToDismissal(mid[i], next[i]);
  }

  lemma EffectOfMore(s: seq<Action>, next: seq<Action>, r: seq<Action>, i0: nat, rest: seq<Action>, script: Script, k: nat)
    requires DistinctIds(s) && i0 < |s|
    requires forall x :: x in rest ==> x.id != s[i0].id && x.status == Pending
    requires Dismissals(s[i0 := EndOf(s[i0], OutcomeAt(script, k, 0))], next) && Effect(next, r, rest, script, k + 1)
    ensures Effect(s, r, [s[i0]] + rest, script, k)
  {
    var mid, executed := s[i0 := EndOf(s[i0], OutcomeAt(script, k, 0))], [s[i0]] + rest;
    assert mid[i0].id == s[i0].id && executed[0] == s[i0];
    forall i | 0 <= i < |s| && s[i] !in executed ensures UpToDismissal(s[i], r[i]) {
      assert s[i] !in rest && s[i0] in executed;
      RestIsUntouched(mid, next, rest, i);
      assert UpToDismissal(mid[i], next[i]) && UpToDismissal(next[i], r[i]);
    }
    forall i, n | 0 <= i < |s| && 0 <= n < |executed| && s[i] == executed[n]
      ensures UpToDismissal(EndOf(executed[n], OutcomeAt(script, k, n)), r[i])
    {
      EffectOfMoreAt(s, next, r, i0, rest, script, k, i, n);
    }
  }

  lemma EffectOfMoreAt(s: seq<Action>, next: seq<Action>, r: seq<Action>, i0: nat, rest: seq<Action>, script: Script, k: nat,
                       i: nat, n: nat)
    requires DistinctIds(s) && i0 < |s| && i < |s| && n <= |rest| && s[i] == ([s[i0]] + rest)[n]
    requires forall x :: x in rest ==> x.id != s[i0].id && x.status == Pending
    requires Dismissals(s[i0 := EndOf(s[i0], OutcomeAt(script, k, 0))], next) && Effect(next, r, rest, script, k + 1)
    ensures UpToDismissal(EndOf(s[i], OutcomeAt(script, k, n)), r[i])
  {
    var mid := s[i0 := EndOf(s[i0], OutcomeAt(script, k, 0))];
    assert mid[i0].id == s[i0].id;
    RestIsUntouched(mid, next, rest, i);
    if n == 0 {
      assert i == i0 && mid[i] !in rest;
      assert UpToDismissal(mid[i], next[i]) && UpToDismissal(next[i], r[i]);
    } else {
      assert s[i] == rest[n - 1] && rest[n - 1] in rest;
      assert OutcomeAt(script, k, n) == OutcomeAt(script, k + 1, n - 1);
    }
  }

  /** The complete effect of a replay during which nothing is enqueued: each executed action is where it
      was, in the state its own outcome puts it in, and no other action is touched, except that conflicts may
      be dismissed meanwhile; no id is gained or lost. */
  lemma {:induction false} ReplayEffect(q: QueueState, todo: seq<Action>, registered: set<ActionType>, script: Script, k: nat)
    requires Synced(q, todo) && Undisturbed(q, todo, registered, script, k)
    ensures var r := ReplayFrom(q, todo, registered, script, k);
      Effect(q.actions, r.queue.actions, r.executed, script, k)
    decreases |todo|
  {
    if todo != [] {
      var a := todo[0];
      if a.actionType !in registered {
        ReplayEffect(q, todo[1..], registered, script, k);
      } else {
        var t := script(k);
        assert OutcomeAt(script, k, 0) == t.outcome;
        var i0 := ExecuteUndisturbed(q, todo, registered, script, k);
        var after := Execute(q, a, t);
        if Breaks(t.outcome) {
          EffectOfOne(q.actions, after.actions, i0, script, k);
        } else {
          ReplayEffect(after, todo[1..], registered, script, k + 1);
          ExecutedFromTodo(after, todo[1..], registered, script, k + 1);
          var rest := ReplayFrom(after, todo[1..], registered, script, k + 1);
          assert forall x :: x in todo[1..] ==> x in todo && x.id != todo[0].id;
          EffectOfMore(q.actions, after.actions, rest.queue.actions, i0, rest.executed, script, k);
        }
      }
    }
  }

  lemma SnapshotIsSynced(q: QueueState)
    requires DistinctIds(q.actions) && RetriesBounded(q.actions)
    ensures Synced(q, Snapshot(q))
  {
    SnapshotMembers(q);
  }

  lemma EffectKeepsIds(s: seq<Action>, r: seq<Action>, executed: seq<Action>, script: Script, k: nat)
    requires Effect(s, r, executed, script, k)
    ensures forall i :: 0 <= i < |s| ==> r[i].id == s[i].id
  {
    forall i | 0 <= i < |s| ensures r[i].id == s[i].id {
      if s[i] in executed {
        var n :| 0 <= n < |executed| && executed[n] == s[i];
        assert UpToDismissal(EndOf(executed[n], OutcomeAt(script, k, n)), r[i]);
      } else {
        assert UpToDismissal(s[i], r[i]);
      }
    }
  }

  /** What the parts of such a replay say together. */
  ghost predicate ReplayFacts(s: seq<Action>, r: Result, all: seq<Action>, script: Script) {
    && Effect(s, r.queue.actions, r.executed, script, 0)
    && DistinctIds(all) && (forall x :: x in all ==> x.status == Pending)
    && |r.executed| <= |all| && r.executed == all[..|r.executed|]
    && (r.broke ==> r.executed != [] && Breaks(OutcomeAt(script, 0, |r.executed| - 1)))
  }

  lemma SnapshotReplayEffect(q: QueueState, registered: set<ActionType>, script: Script)
    requires DistinctIds(q.actions) && RetriesBounded(q.actions)
    requires Undisturbed(q, Snapshot(q), registered, script, 0)
    ensures var r := RunReplay(q, registered, script);
      Effect(q.actions, r.queue.actions, r.executed, script, 0)
  {
    SnapshotIsSynced(q);
    ReplayEffect(q, Snapshot(q), registered, script, 0);
  }

  lemma ReplayHasFacts(q: QueueState, registered: set<ActionType>, script: Script)
    requires DistinctIds(q.actions) && RetriesBounded(q.actions)
    requires Undisturbed(q, Snapshot(q), registered, script, 0)
    ensures ReplayFacts(q.actions, RunReplay(q, registered, script), Filter(Snapshot(q), Executable(registered)), script)
  {
    SnapshotReplayEffect(q, registered, script);
    ExecutedIsPrefix(q, Snapshot(q), registered, script, 0);
    OnlyLastCallBreaks(q, Snapshot(q), registered, script, 0);
    ExecutableArePending(q, registered);
  }

  lemma ExecutableArePending(q: QueueState, registered: set<ActionType>)
    requires DistinctIds(q.actions) && RetriesBounded(q.actions)
    ensures var all := Filter(Snapshot(q), Executable(registered));
      DistinctIds(all) && forall x :: x in all ==> x.status == Pending
  {
    var todo := Snapshot(q);
    SnapshotIsSynced(q);
    FilterMembers(todo, Executable(registered));
    FilterKeepsDistinctIds(todo, Executable(registered));
    forall x | x in Filter(todo, Executable(registered)) ensures x.status == Pending {
      assert x in todo;
    }
  }

  /** A replay during which nothing is enqueued executes a prefix of the stably sorted registered pending actions, and no id
      is gained or lost. Whatever follows an auth or network error is left exactly as it was, still
      pending, and the action that met the error is pending again with its retries unchanged. */
  lemma BrokenReplayLeavesRest(q: QueueState, registered: set<ActionType>, script: Script)
    requires DistinctIds(q.actions) && RetriesBounded(q.actions)
    requires Undisturbed(q, Snapshot(q), registered, script, 0)
    ensures var r, all := RunReplay(q, registered, script), Filter(Snapshot(q), Executable(registered));
      && |r.executed| <= |all| && r.executed == all[..|r.executed|] && (r.broke ==> r.executed != [])
      && |r.queue.actions| == |q.actions|
      && (forall i :: 0 <= i < |q.actions| ==> r.queue.actions[i].id == q.actions[i].id)
      && (forall i :: 0 <= i < |q.actions| && q.actions[i] in all[|r.executed|..] ==> LeftPending(q.actions[i], r.queue.actions[i]))
      && (r.broke ==> forall i :: 0 <= i < |q.actions| && q.actions[i] == r.executed[|r.executed| - 1] ==>
            r.queue.actions[i] == q.actions[i].(lastError := None))
  {
    var r, all := RunReplay(q, registered, script), Filter(Snapshot(q), Executable(registered));
    ReplayHasFacts(q, registered, script);
    EffectKeepsIds(q.actions, r.queue.actions, r.executed, script, 0);
    RestIsLeft(q.actions, r.queue.actions, r.executed, all, script);
    if r.broke {
      BreakLeavesPending(q.actions, r.queue.actions, r.executed, all, script);
    }
  }

  lemma RestIsLeft(s: seq<Action>, t: seq<Action>, executed: seq<Action>, all: seq<Action>, script: Script)
    requires Effect(s, t, executed, script, 0) && |executed| <= |all| && executed == all[..|executed|]
    requires DistinctIds(all) && forall x :: x in all ==> x.status == Pending
    ensures forall i :: 0 <= i < |s| && s[i] in all[|executed|..] ==> LeftPending(s[i], t[i])
  {
    forall i | 0 <= i < |s| && s[i] in all[|executed|..] ensures LeftPending(s[i], t[i]) {
      RestNotExecuted(all, |executed|, s[i]);
      assert UpToDismissal(s[i], t[i]);
    }
  }

  lemma BreakLeavesPending(s: seq<Action>, t: seq<Action>, executed: seq<Action>, all: seq<Action>, script: Script)
    requires Effect(s, t, executed, script, 0) && 0 < |executed| <= |all| && executed == all[..|executed|]
    requires Breaks(OutcomeAt(script, 0, |executed| - 1)) && forall x :: x in all ==> x.status == Pending
    ensures forall i :: 0 <= i < |s| && s[i] == executed[|executed| - 1] ==> t[i] == s[i].(lastError := None)
  {
    var n := |executed| - 1;
    assert executed[n] == all[n] && all[n] in all;
    EndedByBreak(executed[n], OutcomeAt(script, 0, n));
    forall i | 0 <= i < |s| && s[i] == executed[n] ensures t[i] == s[i].(lastError := None) {
      assert UpToDismissal(EndOf(executed[n], OutcomeAt(script, 0, n)), t[i]);
    }
  }

  ghost predicate LeftPending(before: Action, after: Action) {
    after == before && before.status == Pending
  }

  lemma EndedByBreak(a: Action, o: Outcome)
    requires Breaks(o) && a.status == Pending
    ensures EndOf(a, o) == a.(lastError := None)
  {
  }

  lemma RestNotExecuted(all: seq<Action>, n: nat, x: Action)
    requires n <= |all| && DistinctIds(all) && x in all[n..]
    ensures x !in all[..n] && x in all
  {
  }
}
