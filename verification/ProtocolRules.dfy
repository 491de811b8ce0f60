/** The steps of the replay protocol, one by one: what each is allowed to do, and what one executor call that
    nothing disturbs achieves. */
module ProtocolRules {
  import opened Wrappers
  import opened Sequences
  import opened OfflineActions
  import opened ReplayMachine
  import opened ReplayProtocol
  import opened QueueRules
  import T = StopTables
  import V = StopViews
  import ReplayMeaning

  // -- What may happen -------------------------------------------------------------------------------

  /** Nothing keeps the network from losing an answer or the executor from failing, and a request that was ever
      sent may arrive at any time, again and again, with or without a breakdown. Others use the server freely. */
  lemma AnythingCanGoWrong(s: System, g: Message, now: int, fault: T.Fault, req: T.Request, run: T.RunId, status: T.RunStatus,
                         text: string)
    ensures Allowed(s, Foreign(req, now, fault)) && Allowed(s, ForeignRun(run, status))
    ensures g in s.sent ==> Allowed(s, Deliver(g, now, fault)) && Allowed(s, Fail(g))
    ensures Allowed(s, Client(Reloaded)) && (s.m.replay == None ==> Allowed(s, Client(Began)))
    ensures Current(s.m).Some? ==> Allowed(s, Client(Finished(Network))) && Allowed(s, Client(Finished(Auth)))
    ensures Current(s.m).Some? ==> Allowed(s, Client(Finished(RetryPhoto))) && Allowed(s, Client(Finished(OtherError(text))))
  {
  }

  ghost predicate WasAnswered(s: System, response: T.Response) {
    exists r :: r in s.replies && r.call == s.call && r.response == response
  }

  /** A call succeeds only when the server accepted its request, unless it sends none. It tells a code only when
      the server answered with that code, or a started stop with a conflict. */
  lemma OutcomeIsAnswered(s: System, o: Outcome)
    requires Allowed(s, Client(Finished(o))) && (o.Ok? || o.Code?)
    ensures Current(s.m).Some?
    ensures o.Ok? ==> RequestOf(Current(s.m).value) == None || WasAnswered(s, T.Accepted)
    ensures o.Code? && !WasAnswered(s, T.Rejected(o.code)) ==>
      Current(s.m).value.actionType == StartStop && o.code == "ALREADY_COMPLETE" && WasAnswered(s, T.Rejected("CONFLICT"))
  {
  }

  // -- What the steps do -----------------------------------------------------------------------------

  /** The server's part: a delivery changes the tables as the handler says, and its answer is on its way. */
  lemma DeliveryIs(s: System, g: Message, now: int, fault: T.Fault)
    requires g in s.sent
    ensures var after := Take(s, Deliver(g, now, fault));
      && after.t == T.Handle(s.t, g.req, now, fault).0 && after.m == s.m && after.sent == s.sent && after.call == s.call
      && after.settled == s.settled && after.dismissed == s.dismissed
      && s.replies <= after.replies
      && exists r :: r in after.replies && r.call == g.call && r.req == g.req
           && r.response == T.Handle(s.t, g.req, now, fault).1
  {
    var recorded := V.ViewOf(s.t, V.StopOf(g.req)).visit.Some?;
    assert Reply(g.call, g.req, T.Handle(s.t, g.req, now, fault).1, recorded) in Take(s, Deliver(g, now, fault)).replies;
  }

  /** A replay takes up the next action of its snapshot: it is running in the queue, and its request is on its
      way under a new number. */
  lemma TakingUpIs(s: System, k: nat)
    requires s.m.replay.Some? && Current(s.m) == None && Todo(s.m) != [] && !Todo(s.m)[0].actionType.OtherType?
    requires FirstWithId(s.m.queue.actions, k, Todo(s.m)[0].id)
    ensures Allowed(s, Client(Took))
    ensures var a, after := Todo(s.m)[0], Take(s, Client(Took));
      && Current(after.m) == Some(a) && Todo(after.m) == Todo(s.m)[1..] && after.call == s.call + 1
      && after.m.queue == s.m.queue.(actions :=
           s.m.queue.actions[k := s.m.queue.actions[k].(status := Status.Running, lastError := None)])
      && (RequestOf(a) == None ==> after.sent == s.sent)
      && (RequestOf(a).Some? ==> after.sent == s.sent + {Message(s.call + 1, RequestOf(a).value)})
      && after.t == s.t && after.replies == s.replies && after.settled == s.settled && after.dismissed == s.dismissed
  {
    UpdatedStatus(s.m.queue, Todo(s.m)[0].id, Status.Running, None);
  }

  /** An action of a type without an executor is passed over. */
  lemma PassingOverIs(s: System)
    requires s.m.replay.Some? && Current(s.m) == None && Todo(s.m) != [] && Todo(s.m)[0].actionType.OtherType?
    ensures Allowed(s, Client(Took))
    ensures var after := Take(s, Client(Took));
      after == s.(m := after.m) && after.m == Machine(s.m.queue, Some(Replay(Todo(s.m)[1..], None)))
  {
  }

  /** The end of a call: the queued action as its outcome says, and the replay goes on unless the worker has to
      sign in or the network is gone. */
  lemma EndOfCallIs(s: System, o: Outcome, k: nat)
    requires Allowed(s, Client(Finished(o))) && FirstWithId(s.m.queue.actions, k, Current(s.m).value.id)
    ensures var a, after := Current(s.m).value, Take(s, Client(Finished(o)));
      && after.m.queue.actions == s.m.queue.actions[k := AfterOutcome(s.m.queue.actions[k], a.retryCount, o)]
      && after.m.queue.requiresAuth == (s.m.queue.requiresAuth || o == Auth)
      && after.m.replay == (if o == Auth || o == Network then None else Some(Replay(Todo(s.m), None)))
      && after.settled == s.settled
           + (if o == Ok || (o.Code? && (o.code == "ALREADY_COMPLETE" || o.code == "ALREADY_SKIPPED")) then {a} else {})
      && after.t == s.t && after.sent == s.sent && after.replies == s.replies && after.call == s.call
  {
    FinishedCall(s.m.queue, Current(s.m).value, o);
  }

  /** What begins, ends or cuts off a replay leaves the queue as it is. */
  lemma ReplayEdgesAre(s: System)
    ensures s.m.replay == None ==>
      Take(s, Client(Began)) == s.(m := Machine(s.m.queue, Some(Replay(Snapshot(s.m.queue), None))))
    ensures Allowed(s, Client(Ended)) <==> s.m.replay == Some(Replay([], None))
    ensures s.m.replay == Some(Replay([], None)) ==> Take(s, Client(Ended)) == s.(m := Machine(s.m.queue, None))
    ensures Take(s, Client(Reloaded)) == s.(m := Machine(s.m.queue, None))
  {
  }

  /** What the worker's page does to the queue. */
  lemma PageStepIs(s: System, a: Action, id: string, b: bool, k: nat)
    ensures Enabled(s.m, Enqueued(a)) <==>
      && a.status == Pending && a.retryCount == 0 && FreshId(s.m, a.id)
      && (a.actionType == UploadStopPhotos ==>
           a.payload.Upload? && a.payload.kind.GetOr("") != "" && a.payload.photoIds.Some?)
    ensures Enabled(s.m, Enqueued(a)) ==>
      Take(s, Client(Enqueued(a))) == s.(m := s.m.(queue := s.m.queue.(actions := EnqueueActions(s.m.queue.actions, a))))
    ensures Enabled(s.m, Dismissed(id)) <==> exists x :: x in s.m.queue.actions && x.id == id && x.status == Conflict
    ensures Enabled(s.m, Dismissed(id)) && FirstWithId(s.m.queue.actions, k, id) ==>
      Take(s, Client(Dismissed(id))).m == s.m.(queue := s.m.queue.(actions :=
        s.m.queue.actions[k := s.m.queue.actions[k].(status := Done, lastError := None)]))
    ensures Take(s, Client(AuthFlagged(b))) == s.(m := s.m.(queue := QueueState(s.m.queue.actions, b)))
  {
    UpdatedStatus(s.m.queue, id, Done, None);
  }

  // -- One call that nothing disturbs ------------------------------------------------------------------

  lemma ThreeSteps(s: System, a: Step, b: Step, c: Step)
    requires Allowed(s, a) && Allowed(Take(s, a), b) && Allowed(Take(Take(s, a), b), c)
    ensures IsExecution(s, [a, b, c]) && Final(s, [a, b, c]) == Take(Take(Take(s, a), b), c)
  {
    assert [a, b, c][1..] == [b, c] && [b, c][1..] == [c] && [c][1..] == [];
    var t := Take(Take(s, a), b);
    assert IsExecution(Take(t, c), []) && Final(Take(t, c), []) == Take(t, c);
    assert IsExecution(t, [c]) && Final(t, [c]) == Take(t, c);
    assert IsExecution(Take(s, a), [b, c]) && Final(Take(s, a), [b, c]) == Take(t, c);
  }

  /** The steps of a call: taken up, its request arrived, its answer back. */
  function CallSteps(s: System, now: int, o: Outcome): seq<Step>
    requires Todo(s.m) != [] && RequestOf(Todo(s.m)[0]).Some?
  {
    [Client(Took), Deliver(Message(s.call + 1, RequestOf(Todo(s.m)[0]).value), now, T.NoFault), Client(Finished(o))]
  }

  function Told(response: T.Response): Outcome {
    if response.Accepted? then Ok else OtherError(response.code)
  }

  /** Taken up and answered. */
  lemma Answered(s: System, now: int, k: nat) returns (s2: System)
    requires s.m.replay.Some? && Current(s.m) == None && Todo(s.m) != [] && !Todo(s.m)[0].actionType.OtherType?
    requires RequestOf(Todo(s.m)[0]).Some? && FirstWithId(s.m.queue.actions, k, Todo(s.m)[0].id)
    ensures var a := Todo(s.m)[0];
      var steps := CallSteps(s, now, Ok);
      && Allowed(s, steps[0]) && Allowed(Take(s, steps[0]), steps[1]) && s2 == Take(Take(s, steps[0]), steps[1])
      && s2.t == T.Handle(s.t, RequestOf(a).value, now, T.NoFault).0
      && Allowed(s2, Client(Finished(Told(T.Handle(s.t, RequestOf(a).value, now, T.NoFault).1))))
      && Current(s2.m) == Some(a)
      && s2.m.queue == s.m.queue.(actions :=
           s.m.queue.actions[k := s.m.queue.actions[k].(status := Status.Running, lastError := None)])
  {
    var g := Message(s.call + 1, RequestOf(Todo(s.m)[0]).value);
    var took := Take(s, Client(Took));
    TakingUpIs(s, k);
    assert g in took.sent;
    DeliveryIs(took, g, now, T.NoFault);
    s2 := Take(took, Deliver(g, now, T.NoFault));
  }

  lemma StillFirst(actions: seq<Action>, k: nat, id: string, x: Action)
    requires FirstWithId(actions, k, id) && x.id == id
    ensures FirstWithId(actions[k := x], k, id)
  {
  }

  /** The action at `k` done if its request was accepted, and failed with the server's text otherwise. */
  function WithEnd(q: QueueState, k: nat, response: T.Response): QueueState
    requires k < |q.actions|
  {
    q.(actions := q.actions[k :=
      if response.Accepted? then q.actions[k].(status := Done, lastError := None)
      else q.actions[k].(status := Failed, lastError := Some(response.code))])
  }

  /** Take up the next action, let its request arrive once and its answer come back: this is an execution of the
      protocol. The server has done what its handler does for the request, and the action is done if the handler
      accepted it, and failed with the handler's text otherwise. */
  lemma UndisturbedCall(s: System, now: int, k: nat)
    requires s.m.replay.Some? && Current(s.m) == None && Todo(s.m) != [] && !Todo(s.m)[0].actionType.OtherType?
    requires RequestOf(Todo(s.m)[0]).Some? && FirstWithId(s.m.queue.actions, k, Todo(s.m)[0].id)
    ensures var (t, response) := T.Handle(s.t, RequestOf(Todo(s.m)[0]).value, now, T.NoFault);
      var steps := CallSteps(s, now, Told(response));
      && IsExecution(s, steps)
      && Final(s, steps).t == t
      && Final(s, steps).m == Machine(WithEnd(s.m.queue, k, response), Some(Replay(Todo(s.m)[1..], None)))
  {
    var o := Told(T.Handle(s.t, RequestOf(Todo(s.m)[0]).value, now, T.NoFault).1);
    var steps := CallSteps(s, now, o);
    var s2 := Answered(s, now, k);
    StillFirst(s.m.queue.actions, k, Todo(s.m)[0].id, s2.m.queue.actions[k]);
    EndOfCallIs(s2, o, k);
    ThreeSteps(s, steps[0], steps[1], steps[2]);
  }

  // -- A whole replay that nothing disturbs --------------------------------------------------------------

  lemma {:induction false} ExecutionsJoin(s: System, a: seq<Step>, b: seq<Step>)
    requires IsExecution(s, a) && IsExecution(Final(s, a), b)
    ensures IsExecution(s, a + b) && Final(s, a + b) == Final(Final(s, a), b)
    decreases |a|
  {
    if a == [] {
      assert a + b == b;
    } else {
      assert (a + b)[1..] == a[1..] + b;
      ExecutionsJoin(Take(s, a[0]), a[1..], b);
    }
  }

  /** An action that sends nothing is done as soon as it is taken up. */
  lemma CallWithoutRequest(s: System, k: nat)
    requires s.m.replay.Some? && Current(s.m) == None && Todo(s.m) != [] && !Todo(s.m)[0].actionType.OtherType?
    requires RequestOf(Todo(s.m)[0]).None? && FirstWithId(s.m.queue.actions, k, Todo(s.m)[0].id)
    ensures var steps := [Client(Took), Client(Finished(Ok))];
      && IsExecution(s, steps)
      && Final(s, steps).t == s.t
      && Final(s, steps).m == Machine(WithEnd(s.m.queue, k, T.Accepted), Some(Replay(Todo(s.m)[1..], None)))
  {
    var steps := [Client(Took), Client(Finished(Ok))];
    TakingUpIs(s, k);
    var took := Take(s, Client(Took));
    StillFirst(s.m.queue.actions, k, Todo(s.m)[0].id, took.m.queue.actions[k]);
    EndOfCallIs(took, Ok, k);
    TwoSteps(s, steps[0], steps[1]);
  }

  lemma TwoSteps(s: System, a: Step, b: Step)
    requires Allowed(s, a) && Allowed(Take(s, a), b)
    ensures IsExecution(s, [a, b]) && Final(s, [a, b]) == Take(Take(s, a), b)
  {
    assert [a, b][1..] == [b] && [b][1..] == [];
    var t := Take(s, a);
    assert IsExecution(Take(t, b), []) && Final(Take(t, b), []) == Take(t, b);
    assert IsExecution(t, [b]) && Final(t, [b]) == Take(t, b);
  }

  lemma OneCall(s: System, k: nat) returns (steps: seq<Step>)
    requires s.m.replay.Some? && Current(s.m) == None && Todo(s.m) != [] && !Todo(s.m)[0].actionType.OtherType?
    requires FirstWithId(s.m.queue.actions, k, Todo(s.m)[0].id)
    ensures var (t, response) := ReplayMeaning.ExecuteOne(s.t, Todo(s.m)[0]);
      && IsExecution(s, steps)
      && Final(s, steps).t == t
      && Final(s, steps).m == Machine(WithEnd(s.m.queue, k, response), Some(Replay(Todo(s.m)[1..], None)))
  {
    if RequestOf(Todo(s.m)[0]).None? {
      CallWithoutRequest(s, k);
      steps := [Client(Took), Client(Finished(Ok))];
    } else {
      UndisturbedCall(s, 0, k);
      steps := CallSteps(s, 0, Told(ReplayMeaning.ExecuteOne(s.t, Todo(s.m)[0]).1));
    }
  }

  /** The queue after the calls for `todo`, with the responses of `log`: what was called is done or failed, and the
      rest is as it was. */
  ghost predicate EndedAs(was: seq<Action>, now: seq<Action>, todo: seq<Action>, log: seq<ReplayMeaning.Entry>) {
    && |now| == |was| && |log| == |todo|
    && (forall k, n :: 0 <= k < |was| && 0 <= n < |todo| && was[k].id == todo[n].id ==>
         now[k] == if log[n].1.Accepted? then was[k].(status := Done, lastError := None)
                   else was[k].(status := Failed, lastError := Some(log[n].1.code)))
    && (forall k :: 0 <= k < |was| && (forall n :: 0 <= n < |todo| ==> was[k].id != todo[n].id) ==> now[k] == was[k])
  }

  lemma EndedAsOfCons(was: seq<Action>, mid: seq<Action>, now: seq<Action>, a: Action, todo: seq<Action>,
                      e: ReplayMeaning.Entry, log: seq<ReplayMeaning.Entry>, k: nat)
    requires DistinctIds(was) && DistinctIds([a] + todo) && k < |was| && was[k].id == a.id
    requires mid == was[k := if e.1.Accepted? then was[k].(status := Done, lastError := None)
                             else was[k].(status := Failed, lastError := Some(e.1.code))]
    requires EndedAs(mid, now, todo, log)
    ensures EndedAs(was, now, [a] + todo, [e] + log)
  {
    var all, entries := [a] + todo, [e] + log;
    forall j, n | 0 <= j < |was| && 0 <= n < |all| && was[j].id == all[n].id
      ensures now[j] == if entries[n].1.Accepted? then was[j].(status := Done, lastError := None)
                        else was[j].(status := Failed, lastError := Some(entries[n].1.code))
    {
      if n > 0 {
        assert all[0].id != all[n].id;
        assert j != k && mid[j] == was[j] && todo[n - 1] == all[n] && log[n - 1] == entries[n];
      } else {
        assert j == k;
        forall m | 0 <= m < |todo| ensures mid[k].id != todo[m].id {
          assert all[0].id != all[m + 1].id;
        }
      }
    }
    forall j | 0 <= j < |was| && (forall n :: 0 <= n < |all| ==> was[j].id != all[n].id) ensures now[j] == was[j] {
      assert was[j].id != all[0].id;
      forall n | 0 <= n < |todo| ensures mid[j].id != todo[n].id {
        assert was[j].id != all[n + 1].id;
      }
    }
  }

  ghost predicate AllQueued(actions: seq<Action>, todo: seq<Action>) {
    forall a :: a in todo ==> IsQueued(actions, a.id)
  }

  lemma StillQueued(was: seq<Action>, k: nat, x: Action, todo: seq<Action>)
    requires k < |was| && x.id == was[k].id && todo != [] && AllQueued(was, todo) && DistinctIds(was)
    ensures AllQueued(was[k := x], todo[1..]) && DistinctIds(was[k := x])
  {
    forall a | a in todo[1..] ensures IsQueued(was[k := x], a.id) {
      assert IsQueued(was, a.id);
      var y :| y in was && y.id == a.id;
      var j :| 0 <= j < |was| && was[j] == y;
      assert was[k := x][j].id == a.id && was[k := x][j] in was[k := x];
    }
  }

  lemma PlaceOf(actions: seq<Action>, id: string) returns (k: nat)
    requires DistinctIds(actions) && IsQueued(actions, id)
    ensures FirstWithId(actions, k, id)
  {
    var x :| x in actions && x.id == id;
    k :| 0 <= k < |actions| && actions[k] == x;
  }

  /** What remains of the replay after its first call. */
  lemma FirstCall(s: System) returns (first: seq<Step>, k: nat)
    requires s.m.replay.Some? && Current(s.m) == None && Todo(s.m) != [] && !Todo(s.m)[0].actionType.OtherType?
    requires DistinctIds(s.m.queue.actions) && AllQueued(s.m.queue.actions, Todo(s.m))
    ensures k < |s.m.queue.actions| && s.m.queue.actions[k].id == Todo(s.m)[0].id
    ensures var (t, response) := ReplayMeaning.ExecuteOne(s.t, Todo(s.m)[0]);
      && IsExecution(s, first)
      && Final(s, first).t == t
      && Final(s, first).m == Machine(WithEnd(s.m.queue, k, response), Some(Replay(Todo(s.m)[1..], None)))
    ensures DistinctIds(Final(s, first).m.queue.actions) && AllQueued(Final(s, first).m.queue.actions, Todo(s.m)[1..])
  {
    assert Todo(s.m)[0] in Todo(s.m);
    k := PlaceOf(s.m.queue.actions, Todo(s.m)[0].id);
    first := OneCall(s, k);
    StillQueued(s.m.queue.actions, k, Final(s, first).m.queue.actions[k], Todo(s.m));
  }

  lemma ExecuteAllOfCons(t: T.Tables, actions: seq<Action>)
    requires actions != []
    ensures var (after, response) := ReplayMeaning.ExecuteOne(t, actions[0]);
      var rest := ReplayMeaning.ExecuteAll(after, actions[1..]);
      ReplayMeaning.ExecuteAll(t, actions) == ReplayMeaning.Outcomes(rest.t, [(actions[0], response)] + rest.log)
  {
  }

  /** A replay in which every request arrives once and every answer comes back is an execution of the protocol. It
      does to the server what executing its actions one after the other does, and leaves each of them done or
      failed as it was answered. */
  lemma {:induction false} UndisturbedReplay(s: System) returns (steps: seq<Step>)
    requires s.m.replay.Some? && Current(s.m) == None && forall a :: a in Todo(s.m) ==> !a.actionType.OtherType?
    requires DistinctIds(s.m.queue.actions) && DistinctIds(Todo(s.m)) && AllQueued(s.m.queue.actions, Todo(s.m))
    ensures IsExecution(s, steps)
    ensures var r, last := ReplayMeaning.ExecuteAll(s.t, Todo(s.m)), Final(s, steps);
      && last.t == r.t
      && last.m.replay == Some(Replay([], None))
      && EndedAs(s.m.queue.actions, last.m.queue.actions, Todo(s.m), r.log)
    decreases |Todo(s.m)|
  {
    var todo := Todo(s.m);
    if todo == [] {
      steps := [];
    } else {
      var first, k := FirstCall(s);
      var next := Final(s, first);
      assert forall b :: b in todo[1..] ==> b in todo;
      var rest := UndisturbedReplay(next);
      ExecutionsJoin(s, first, rest);
      steps := first + rest;
      ExecuteAllOfCons(s.t, todo);
      assert todo == [todo[0]] + todo[1..];
      EndedAsOfCons(s.m.queue.actions, next.m.queue.actions, Final(next, rest).m.queue.actions, todo[0], todo[1..],
                    (todo[0], ReplayMeaning.ExecuteOne(s.t, todo[0]).1), ReplayMeaning.ExecuteAll(next.t, todo[1..]).log, k);
    }
  }
}
