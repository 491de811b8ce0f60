/** Replay over the API wrappers as they are: which completions and skips that the server took up are ever
    marked done. */
module PlainReplay {
  import opened Wrappers
  import opened Sequences
  import opened OfflineActions
  import opened ReplayMachine
  import opened ReplayProtocol
  import opened ApiErrors
  import T = StopTables
  import V = StopViews

  /** The executor of the current call can be answered so: with a success only if the server accepted the
      call's request. Whatever else an answer says is left open. */
  ghost predicate Possible(s: System, x: Exchange) {
    x.Answered? && x.ok && x.body.Json? ==> exists r :: r in s.replies && r.call == s.call && r.response == T.Accepted
  }

  ghost predicate IsPlain(s: System, step: Step)
    requires Allowed(s, step)
  {
    step.Client? && step.event.Finished? ==>
      exists x :: Possible(s, x) && step.event.outcome == OutcomeOf(Current(s.m).value, x)
  }

  /** Every executor call of the execution ends as its exchange with the server lets it end. */
  ghost predicate AllPlain(s: System, steps: seq<Step>)
    requires IsExecution(s, steps)
    decreases |steps|
  {
    steps == [] || (IsPlain(s, steps[0]) && AllPlain(Take(s, steps[0]), steps[1..]))
  }

  /** Whatever comes of a call, the protocol allows it, so what holds of all its executions holds of the
      plain ones. */
  lemma ExchangesAreAllowed(s: System, x: Exchange)
    requires Current(s.m).Some? && Possible(s, x)
    ensures Allowed(s, Client(Finished(OutcomeOf(Current(s.m).value, x))))
  {
    AnsweredIsNeverCoded(Current(s.m).value, x);
  }

  /** A call is done only by an answer that accepts it. */
  lemma PlainCallIsAccepted(s: System, o: Outcome)
    requires Allowed(s, Client(Finished(o))) && IsPlain(s, Client(Finished(o))) && CountsAsDone(o)
    ensures o.Ok?
    ensures RequestOf(Current(s.m).value).Some? ==>
      exists r :: r in s.replies && r.call == s.call && r.response == T.Accepted
  {
    var x :| Possible(s, x) && o == OutcomeOf(Current(s.m).value, x);
    AnsweredIsNeverCoded(Current(s.m).value, x);
    SettlesIff(Current(s.m).value, x);
  }

  // -- Stops that are spent ----------------------------------------------------------------------------

  /** The server rejects every further action of this type for the stop. */
  predicate Spent(v: V.View, kind: ActionType) {
    (kind == CompleteStop && v.status == Some(T.Done)) || (kind == SkipStopWithHazard && V.IsTerminal(v))
  }

  predicate IsFor(a: Action, kind: ActionType, stop: string) {
    a.actionType == kind && a.stop == stop
  }

  predicate CurrentIsFor(s: System, kind: ActionType, stop: string) {
    Current(s.m).Some? && IsFor(Current(s.m).value, kind, stop)
  }

  /** No accepting answer is on its way to a call for the stop. */
  ghost predicate NoneAccepted(s: System, kind: ActionType, stop: string) {
    CurrentIsFor(s, kind, stop) ==> forall r :: r in s.replies && r.call == s.call ==> r.response != T.Accepted
  }

  function SettledFor(settled: set<Action>, kind: ActionType, stop: string): set<Action> {
    set a | a in settled && IsFor(a, kind, stop)
  }

  lemma SpentStays(s: System, step: Step, kind: ActionType, stop: string)
    requires Invariant(s) && Allowed(s, step) && Spent(V.ViewOf(s.t, stop), kind)
    ensures Invariant(Take(s, step)) && Spent(V.ViewOf(Take(s, step).t, stop), kind)
  {
    StepKeepsInvariant(s, step);
    StepGoesForward(s, step);
    assert V.Later(V.ViewOf(s.t, stop), V.ViewOf(Take(s, step).t, stop));
  }

  lemma SpentRejects(v: V.View, kind: ActionType, a: Action, now: int, fault: T.Fault)
    requires Spent(v, kind) && a.actionType == kind
    ensures V.StepView(v, RequestOf(a).value, now, fault).1 != T.Accepted
  {
  }

  lemma DeliverAcceptsNone(s: System, g: Message, now: int, fault: T.Fault, kind: ActionType, stop: string)
    requires Invariant(s) && g in s.sent && Spent(V.ViewOf(s.t, stop), kind) && NoneAccepted(s, kind, stop)
    ensures NoneAccepted(Take(s, Deliver(g, now, fault)), kind, stop)
  {
    if CurrentIsFor(s, kind, stop) && g.call == s.call {
      var a := Current(s.m).value;
      assert RequestOf(a) == Some(g.req);
      RequestStop(a);
      V.HandleRefinesViews(s.t, g.req, now, fault, stop);
      SpentRejects(V.ViewOf(s.t, stop), kind, a, now, fault);
    }
  }

  lemma RepliesAreOld(s: System)
    requires Invariant(s)
    ensures forall r :: r in s.replies ==> r.call <= s.call
  {
    forall r | r in s.replies ensures r.call <= s.call {
      assert Message(r.call, r.req) in s.sent;
    }
  }

  /** A new call has no answers yet. */
  lemma ClientAcceptsNone(s: System, e: Event, kind: ActionType, stop: string)
    requires Invariant(s) && Enabled(s.m, e) && NoneAccepted(s, kind, stop)
    ensures NoneAccepted(ClientStep(s, e), kind, stop)
  {
    if e.Took? {
      RepliesAreOld(s);
    }
  }

  lemma StepAcceptsNone(s: System, step: Step, kind: ActionType, stop: string)
    requires Invariant(s) && Allowed(s, step) && Spent(V.ViewOf(s.t, stop), kind) && NoneAccepted(s, kind, stop)
    ensures NoneAccepted(Take(s, step), kind, stop)
  {
    match step
    case Deliver(g, now, fault) => DeliverAcceptsNone(s, g, now, fault, kind, stop);
    case Client(e) => ClientAcceptsNone(s, e, kind, stop);
    case _ =>
  }

  lemma StepSettlesNone(s: System, step: Step, kind: ActionType, stop: string)
    requires Allowed(s, step) && IsPlain(s, step) && NoneAccepted(s, kind, stop)
    requires kind == CompleteStop || kind == SkipStopWithHazard
    ensures SettledFor(Take(s, step).settled, kind, stop) == SettledFor(s.settled, kind, stop)
  {
    if step.Client? && step.event.Finished? && CountsAsDone(step.event.outcome) {
      PlainCallIsAccepted(s, step.event.outcome);
    }
  }

  /** Once the server is done with a stop, replay marks no further completion of it as done, and once a stop
      is skipped or done, no further skip: every answer from then on is a plain error. */
  lemma {:induction false} SpentStopSettlesNoMore(s: System, steps: seq<Step>, kind: ActionType, stop: string)
    requires Invariant(s) && IsExecution(s, steps) && AllPlain(s, steps)
    requires Spent(V.ViewOf(s.t, stop), kind) && NoneAccepted(s, kind, stop)
    ensures SettledFor(Final(s, steps).settled, kind, stop) == SettledFor(s.settled, kind, stop)
    decreases |steps|
  {
    if steps != [] {
      SpentStays(s, steps[0], kind, stop);
      StepAcceptsNone(s, steps[0], kind, stop);
      StepSettlesNone(s, steps[0], kind, stop);
      SpentStopSettlesNoMore(Take(s, steps[0]), steps[1..], kind, stop);
    }
  }

  // -- The call that was taken up ------------------------------------------------------------------------

  /** The call that is awaited now ends with an accepting answer: it is neither lost nor cut off by a
      reload. */
  predicate AnswerComesBack(steps: seq<Step>)
    decreases |steps|
  {
    steps != [] && if EndsCall(steps[0]) then Answers(steps[0]) else AnswerComesBack(steps[1..])
  }

  lemma OtherStepsAwait(s: System, step: Step)
    requires Allowed(s, step) && Current(s.m).Some?
    requires !EndsCall(step)
    ensures Current(Take(s, step).m) == Current(s.m) && Take(s, step).settled == s.settled
  {
  }

  lemma FinishingSettles(s: System, o: Outcome, kind: ActionType, stop: string)
    requires Allowed(s, Client(Finished(o))) && IsPlain(s, Client(Finished(o))) && CurrentIsFor(s, kind, stop)
    ensures var after := ClientStep(s, Finished(o));
      && Current(after.m).None?
      && SettledFor(after.settled, kind, stop)
         == SettledFor(s.settled, kind, stop) + if o.Ok? then {Current(s.m).value} else {}
  {
    if CountsAsDone(o) {
      PlainCallIsAccepted(s, o);
    }
  }

  /** The step ends the current call or cuts it off. */
  predicate EndsCall(step: Step) {
    step.Client? && (step.event.Finished? || step.event.Reloaded?)
  }

  predicate Answers(step: Step) {
    step.Client? && step.event.Finished? && step.event.outcome.Ok?
  }

  lemma EndSettles(s: System, step: Step, kind: ActionType, stop: string)
    requires Allowed(s, step) && IsPlain(s, step) && CurrentIsFor(s, kind, stop) && EndsCall(step)
    ensures Current(Take(s, step).m).None?
    ensures SettledFor(Take(s, step).settled, kind, stop)
      == SettledFor(s.settled, kind, stop) + if Answers(step) then {Current(s.m).value} else {}
  {
    if step.event.Finished? {
      FinishingSettles(s, step.event.outcome, kind, stop);
    }
  }

  lemma EndOfCallDecides(s: System, steps: seq<Step>, kind: ActionType, stop: string)
    requires Invariant(s) && IsExecution(s, steps) && AllPlain(s, steps)
    requires CurrentIsFor(s, kind, stop) && Spent(V.ViewOf(s.t, stop), kind)
    requires steps != [] && EndsCall(steps[0])
    ensures SettledFor(Final(s, steps).settled, kind, stop)
      == SettledFor(s.settled, kind, stop) + if Answers(steps[0]) then {Current(s.m).value} else {}
  {
    SpentStays(s, steps[0], kind, stop);
    EndSettles(s, steps[0], kind, stop);
    SpentStopSettlesNoMore(Take(s, steps[0]), steps[1..], kind, stop);
  }

  /** The exact fate of a completion or skip that the server has taken up, over every execution from then on:
      replay marks an action of this type as done for the stop exactly when the answer to the very call that
      is awaited comes back. If it is lost, or the page reloaded, no later call makes up for it. */
  lemma {:induction false} TakenUpActionIsDoneIff(s: System, steps: seq<Step>, kind: ActionType, stop: string)
    requires Invariant(s) && IsExecution(s, steps) && AllPlain(s, steps)
    requires CurrentIsFor(s, kind, stop) && Spent(V.ViewOf(s.t, stop), kind)
    ensures SettledFor(Final(s, steps).settled, kind, stop)
      == SettledFor(s.settled, kind, stop) + if AnswerComesBack(steps) then {Current(s.m).value} else {}
    decreases |steps|
  {
    if steps != [] {
      if EndsCall(steps[0]) {
        EndOfCallDecides(s, steps, kind, stop);
      } else {
        SpentStays(s, steps[0], kind, stop);
        OtherStepsAwait(s, steps[0]);
        TakenUpActionIsDoneIff(Take(s, steps[0]), steps[1..], kind, stop);
      }
    }
  }

  // -- A completion that is applied and then fails ----------------------------------------------------------

  predicate FreshCompletion(a: Action) {
    && a.actionType == CompleteStop && a.status == Pending && a.retryCount == 0 && a.lastError == None
    && a.payload.Completion?
  }

  function CompletionRequest(a: Action): T.Request
    requires a.payload.Completion?
  {
    T.Complete(a.stop, a.payload.report)
  }

  function QueueOf(a: Action): QueueState {
    QueueState([a], false)
  }

  /** One replay of a queue that holds the completion alone: its request arrives, and the call ends with `o`. */
  function CallSteps(a: Action, call: nat, now: int, o: Outcome): seq<Step>
    requires a.payload.Completion?
  {
    [Client(Began), Client(Took), Deliver(Message(call, CompletionRequest(a)), now, T.NoFault), Client(Finished(o))]
  }

  function Begun(s: System, a: Action): System {
    s.(m := Machine(QueueOf(a), Some(Replay([a], None))))
  }

  function Taken(s: System, a: Action): System
    requires a.payload.Completion?
  {
    s.(m := Machine(QueueOf(a.(status := Running, lastError := None)), Some(Replay([], Some(a)))), call := s.call + 1,
       sent := s.sent + {Message(s.call + 1, CompletionRequest(a))})
  }

  /** The request has arrived, and the server has answered with the reply. */
  function Delivered(s: System, a: Action, t: T.Tables, reply: Reply): System
    requires a.payload.Completion?
  {
    Taken(s, a).(t := t, replies := s.replies + {reply})
  }

  /** The call has ended as anything but done. */
  function AfterCall(s: System, a: Action, t: T.Tables, reply: Reply, o: Outcome): System
    requires a.payload.Completion?
  {
    Delivered(s, a, t, reply).(
      m := Machine(QueueOf(FinishUpdate(a, o)(a.(status := Running, lastError := None))),
                   if Breaks(o) then None else Some(Replay([], None))))
  }

  /** What the server makes of the completion. */
  predicate Serves(s: System, a: Action, now: int, t: T.Tables, reply: Reply)
    requires a.payload.Completion?
  {
    var req := CompletionRequest(a);
    && T.Handle(s.t, req, now, T.NoFault) == (t, reply.response)
    && reply == Reply(s.call + 1, req, reply.response, V.ViewOf(s.t, a.stop).visit.Some?)
  }

  lemma SnapshotOfOne(a: Action)
    requires a.status == Pending
    ensures Snapshot(QueueOf(a)) == [a]
  {
    FilterAll([a], IsPending());
    SortOfSorted([a], ReplayOrder());
  }

  lemma UpdateOfOne(a: Action, auth: bool, update: Action -> Action)
    ensures UpdateById(QueueState([a], auth), a.id, update) == QueueState([update(a)], auth)
  {
    assert FindIndex([a], HasId(a.id)) == Some(0);
  }

  lemma FourSteps(a: System, b: System, c: System, d: System, e: System, steps: seq<Step>)
    requires |steps| == 4 && StepsTo(a, steps[0], b) && StepsTo(b, steps[1], c)
    requires StepsTo(c, steps[2], d) && StepsTo(d, steps[3], e)
    ensures IsExecution(a, steps) && AllPlain(a, steps) && Final(a, steps) == e
  {
    var s1, s2, s3 := steps[1..], steps[1..][1..], steps[1..][1..][1..];
    assert s3[1..] == [] && s3[0] == steps[3] && s2[0] == steps[2] && s1[0] == steps[1];
    assert IsExecution(d, s3) && AllPlain(d, s3) && Final(d, s3) == e;
    assert IsExecution(c, s2) && AllPlain(c, s2) && Final(c, s2) == e;
    assert IsExecution(b, s1) && AllPlain(b, s1) && Final(b, s1) == e;
  }

  ghost predicate StepsTo(s: System, step: Step, after: System) {
    Allowed(s, step) && IsPlain(s, step) && Take(s, step) == after
  }

  lemma BeginsWith(s: System, a: Action)
    requires FreshCompletion(a) && s.m == Machine(QueueOf(a), None)
    ensures StepsTo(s, Client(Began), Begun(s, a))
  {
    SnapshotOfOne(a);
  }

  lemma TakesUp(s: System, a: Action)
    requires FreshCompletion(a)
    ensures StepsTo(Begun(s, a), Client(Took), Taken(s, a))
  {
    UpdateOfOne(a, false, ToStatus(Running, None));
    assert [a][1..] == [];
  }

  lemma Arrives(s: System, a: Action, now: int, t: T.Tables, reply: Reply)
    requires FreshCompletion(a) && Serves(s, a, now, t, reply)
    ensures StepsTo(Taken(s, a), Deliver(Message(s.call + 1, CompletionRequest(a)), now, T.NoFault), Delivered(s, a, t, reply))
  {
  }

  /** The exchange may end the call with this outcome, which leaves the action undone. */
  ghost predicate Undone(a: Action, x: Exchange, o: Outcome) {
    o == OutcomeOf(a, x) && !CountsAsDone(o) && !o.Auth? && !(x.Answered? && x.ok)
  }

  lemma Ends(s: System, a: Action, t: T.Tables, reply: Reply, o: Outcome, x: Exchange)
    requires FreshCompletion(a) && Undone(a, x, o)
    ensures StepsTo(Delivered(s, a, t, reply), Client(Finished(o)), AfterCall(s, a, t, reply, o))
  {
    var d := Delivered(s, a, t, reply);
    UpdateOfOne(a.(status := Running, lastError := None), false, FinishUpdate(a, o));
    assert Current(d.m) == Some(a) && Possible(d, x);
    ExchangesAreAllowed(d, x);
    assert IsPlain(d, Client(Finished(o)));
  }

  /** One replay in which the call breaks off or fails. */
  lemma OneCall(s: System, a: Action, now: int, t: T.Tables, reply: Reply, o: Outcome, x: Exchange)
    requires FreshCompletion(a) && s.m == Machine(QueueOf(a), None) && Serves(s, a, now, t, reply) && Undone(a, x, o)
    ensures var steps := CallSteps(a, s.call + 1, now, o);
      IsExecution(s, steps) && AllPlain(s, steps) && Final(s, steps) == AfterCall(s, a, t, reply, o)
  {
    var steps := CallSteps(a, s.call + 1, now, o);
    BeginsWith(s, a);
    TakesUp(s, a);
    Arrives(s, a, now, t, reply);
    Ends(s, a, t, reply, o, x);
    FourSteps(s, Begun(s, a), Taken(s, a), Delivered(s, a, t, reply), AfterCall(s, a, t, reply, o), steps);
  }

  lemma {:induction false} ExecutionsConcat(s: System, first: seq<Step>, second: seq<Step>)
    requires IsExecution(s, first) && IsExecution(Final(s, first), second)
    requires AllPlain(s, first) && AllPlain(Final(s, first), second)
    ensures IsExecution(s, first + second) && AllPlain(s, first + second)
    ensures Final(s, first + second) == Final(Final(s, first), second)
    decreases |first|
  {
    if first == [] {
      assert first + second == second;
    } else {
      assert (first + second)[1..] == first[1..] + second;
      ExecutionsConcat(Take(s, first[0]), first[1..], second);
    }
  }

  /** The completion is taken up by the server, but its answer is lost; the next replay sends it again. */
  function LostAnswerSteps(a: Action, now: int): seq<Step>
    requires a.payload.Completion?
  {
    [Client(Enqueued(a))] + (CallSteps(a, 1, now, Network) + CallSteps(a, 2, now, OtherError(ALREADY_COMPLETE)))
  }

  lemma DoneAfterCompletion(t: T.Tables, a: Action, now: int)
    requires FreshCompletion(a) && a.payload.report.photoKeys && V.LawfulTables(t)
    requires T.CompleteRejection(t, a.stop, a.payload.report).None?
    ensures var after := T.Handle(t, CompletionRequest(a), now, T.NoFault).0;
      && V.ViewOf(after, a.stop).status == Some(T.Done)
      && T.Handle(after, CompletionRequest(a), now, T.NoFault) == (after, T.Rejected(ALREADY_COMPLETE))
  {
  }

  lemma EnqueuesOne(t: T.Tables, a: Action)
    requires FreshCompletion(a)
    ensures StepsTo(Initial(t), Client(Enqueued(a)), Initial(t).(m := Machine(QueueOf(a), None)))
  {
  }

  /** A lost answer leaves the queue as it was. */
  lemma LostCall(s: System, a: Action, now: int, t: T.Tables, reply: Reply)
    requires FreshCompletion(a) && s.m == Machine(QueueOf(a), None) && Serves(s, a, now, t, reply)
    requires Undone(a, Unreachable(""), Network)
    ensures var steps, middle := CallSteps(a, s.call + 1, now, Network), AfterCall(s, a, t, reply, Network);
      && IsExecution(s, steps) && AllPlain(s, steps) && Final(s, steps) == middle
      && middle.m == Machine(QueueOf(a), None) && middle.call == s.call + 1
  {
    OneCall(s, a, now, t, reply, Network, Unreachable(""));
    assert FinishUpdate(a, Network)(a.(status := Running, lastError := None)) == a;
  }

  /** The two replays, from the queue that holds the completion alone. */
  lemma TwoCalls(s: System, a: Action, now: int, t: T.Tables, first: Reply, second: Reply)
    requires FreshCompletion(a) && s.m == Machine(QueueOf(a), None)
    requires Serves(s, a, now, t, first) && Undone(a, Unreachable(""), Network)
    requires Serves(AfterCall(s, a, t, first, Network), a, now, t, second)
    requires Undone(a, AnswerOf(T.Rejected(ALREADY_COMPLETE)), OtherError(ALREADY_COMPLETE))
    ensures var steps := CallSteps(a, s.call + 1, now, Network) + CallSteps(a, s.call + 2, now, OtherError(ALREADY_COMPLETE));
      && IsExecution(s, steps) && AllPlain(s, steps)
      && Final(s, steps) == AfterCall(AfterCall(s, a, t, first, Network), a, t, second, OtherError(ALREADY_COMPLETE))
  {
    var middle := AfterCall(s, a, t, first, Network);
    LostCall(s, a, now, t, first);
    OneCall(middle, a, now, t, second, OtherError(ALREADY_COMPLETE), AnswerOf(T.Rejected(ALREADY_COMPLETE)));
    ExecutionsConcat(s, CallSteps(a, s.call + 1, now, Network), CallSteps(a, s.call + 2, now, OtherError(ALREADY_COMPLETE)));
  }

  lemma LostIsNetwork(a: Action)
    requires FreshCompletion(a)
    ensures OutcomeOf(a, Unreachable("")) == Network
  {
    forall part | part in PhotoPhrases(CompleteStop) ensures !Contains("", part) {
    }
  }

  /** The server accepts the completion and rejects its repetition. */
  lemma ServedTwice(s: System, a: Action, now: int) returns (t: T.Tables, first: Reply, second: Reply)
    requires FreshCompletion(a) && a.payload.report.photoKeys && V.LawfulTables(s.t)
    requires T.CompleteRejection(s.t, a.stop, a.payload.report).None?
    ensures Serves(s, a, now, t, first) && Serves(AfterCall(s, a, t, first, Network), a, now, t, second)
    ensures second.response == T.Rejected(ALREADY_COMPLETE)
    ensures V.ViewOf(t, a.stop).status == Some(T.Done)
  {
    DoneAfterCompletion(s.t, a, now);
    t := T.Handle(s.t, CompletionRequest(a), now, T.NoFault).0;
    first := Reply(s.call + 1, CompletionRequest(a), T.Accepted, V.ViewOf(s.t, a.stop).visit.Some?);
    second := Reply(s.call + 2, CompletionRequest(a), T.Rejected(ALREADY_COMPLETE), V.ViewOf(t, a.stop).visit.Some?);
  }

  /** How the two calls end. */
  lemma BothUndone(a: Action, t: T.Tables, now: int)
    requires FreshCompletion(a) && T.Handle(t, CompletionRequest(a), now, T.NoFault).1 == T.Rejected(ALREADY_COMPLETE)
    ensures Undone(a, Unreachable(""), Network)
    ensures Undone(a, AnswerOf(T.Rejected(ALREADY_COMPLETE)), OtherError(ALREADY_COMPLETE))
  {
    LostIsNetwork(a);
    RejectedCompletionFails(a, t, now, ALREADY_COMPLETE);
  }

  lemma EnqueuedFirst(t: T.Tables, a: Action, rest: seq<Step>)
    requires FreshCompletion(a)
    requires var s := Initial(t).(m := Machine(QueueOf(a), None)); IsExecution(s, rest) && AllPlain(s, rest)
    ensures var s, steps := Initial(t).(m := Machine(QueueOf(a), None)), [Client(Enqueued(a))] + rest;
      IsExecution(Initial(t), steps) && AllPlain(Initial(t), steps) && Final(Initial(t), steps) == Final(s, rest)
  {
    var steps := [Client(Enqueued(a))] + rest;
    EnqueuesOne(t, a);
    assert steps[1..] == rest;
  }

  /** The queue after the second call. */
  lemma FailedInTheEnd(s: System, a: Action, t: T.Tables, first: Reply, second: Reply)
    requires FreshCompletion(a)
    ensures var last := AfterCall(AfterCall(s, a, t, first, Network), a, t, second, OtherError(ALREADY_COMPLETE));
      last.t == t && last.m.queue.actions == [a.(status := Failed, lastError := Some(ALREADY_COMPLETE))]
  {
  }

  /** The tail of the run. */
  lemma LostAnswerTail(s: System, a: Action, now: int, rest: seq<Step>) returns (last: System)
    requires FreshCompletion(a) && a.payload.report.photoKeys && V.LawfulTables(s.t)
    requires T.CompleteRejection(s.t, a.stop, a.payload.report).None?
    requires s.m == Machine(QueueOf(a), None)
    requires rest == CallSteps(a, s.call + 1, now, Network) + CallSteps(a, s.call + 2, now, OtherError(ALREADY_COMPLETE))
    ensures IsExecution(s, rest) && AllPlain(s, rest) && Final(s, rest) == last
    ensures last.m.queue.actions == [a.(status := Failed, lastError := Some(ALREADY_COMPLETE))]
    ensures V.ViewOf(last.t, a.stop).status == Some(T.Done)
  {
    var t, first, second := ServedTwice(s, a, now);
    BothUndone(a, t, now);
    TwoCalls(s, a, now, t, first, second);
    FailedInTheEnd(s, a, t, first, second);
    last := AfterCall(AfterCall(s, a, t, first, Network), a, t, second, OtherError(ALREADY_COMPLETE));
  }

  /** From any tables and for every completion with a photo that the server accepts there, such a run leaves
      the stop done on the server, while the queue holds the completion as failed for being complete
      already. */
  lemma LostAnswerFailsCompletion(t: T.Tables, a: Action, now: int)
    requires FreshCompletion(a) && a.payload.report.photoKeys && V.LawfulTables(t)
    requires T.CompleteRejection(t, a.stop, a.payload.report).None?
    ensures var steps := LostAnswerSteps(a, now);
      && IsExecution(Initial(t), steps) && AllPlain(Initial(t), steps)
      && var s := Final(Initial(t), steps);
      && s.m.queue.actions == [a.(status := Failed, lastError := Some(ALREADY_COMPLETE))]
      && V.ViewOf(s.t, a.stop).status == Some(T.Done)
  {
    var s := Initial(t).(m := Machine(QueueOf(a), None));
    var rest := CallSteps(a, 1, now, Network) + CallSteps(a, 2, now, OtherError(ALREADY_COMPLETE));
    var last := LostAnswerTail(s, a, now, rest);
    EnqueuedFirst(t, a, rest);
  }
}
