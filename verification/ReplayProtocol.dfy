/** Client queue and server together, over a network that may lose, delay, reorder and repeat requests
    and lose responses, while other clients use the same server. */
module ReplayProtocol {
  import opened Wrappers
  import opened Sequences
  import opened OfflineActions
  import opened ReplayMachine
  import T = StopTables
  import V = StopViews

  /** The action types that `OfflineSyncManager` has an executor for. */
  const EXECUTORS := {StartStop, UploadStopPhotos, SkipStopWithHazard, CompleteStop}

  /** The request that the executor of an action sends; an upload without photos sends none. */
  function RequestOf(a: Action): Option<T.Request> {
    match a.actionType
    case StartStop => Some(T.Start(a.stop))
    case UploadStopPhotos =>
      if PhotosIn(a.payload) == [] then None
      else Some(T.Upload(a.stop, if a.payload.kind.GetOr("") == "" then "completion" else a.payload.kind.value, PhotosIn(a.payload)))
    case SkipStopWithHazard => Some(T.Skip(a.stop, if a.payload.SkipReport? then a.payload.hazards else []))
    case CompleteStop =>
      Some(T.Complete(a.stop, if a.payload.Completion? then a.payload.report else Report(false, false, false, None)))
    case OtherType(_) => None
  }

  datatype Message = Message(call: nat, req: T.Request)

  /** A response on its way to executor call `call`; `recorded` says whether the stop had a visit when
      the request was handled. */
  datatype Reply = Reply(call: nat, req: T.Request, response: T.Response, recorded: bool)

  /** `call` numbers the executor calls; `settled` are the snapshots that replay marked done, and
      `dismissed` the ids that the worker marked done. */
  datatype System = System(
    m: Machine,
    t: T.Tables,
    call: nat,
    sent: set<Message>,
    replies: set<Reply>,
    settled: set<Action>,
    dismissed: set<string>)

  datatype Step =
    | Client(event: Event)
    | Deliver(message: Message, now: int, fault: T.Fault)
    | Fail(message: Message)
    | Foreign(req: T.Request, when: int, fault: T.Fault)
    | ForeignRun(run: T.RunId, status: T.RunStatus)

  // -- How a response surfaces at the executor -------------------------------------------------------

  /** A lost response is a network error, whatever the server did. A rejection surfaces with its code, as the
      replay loop has it, or as a plain error, which is what the API wrappers make of it. */
  predicate Surfaces(s: System, a: Action, o: Outcome) {
    match o
    case Network => true
    case Auth => true
    case OtherError(_) => true
    case Ok => RequestOf(a).None? || exists r :: r in s.replies && r.call == s.call && r.response == T.Accepted
    case RetryPhoto => true
    case Code(c, _) =>
      || (exists r :: r in s.replies && r.call == s.call && r.response == T.Rejected(c))
      || (a.actionType == StartStop && c == ALREADY_COMPLETE
          && exists r :: r in s.replies && r.call == s.call && r.response == T.Rejected(T.CONFLICT))
  }

  predicate Allowed(s: System, step: Step) {
    match step
    case Client(e) => Enabled(s.m, e) && (e.Finished? ==> Surfaces(s, Current(s.m).value, e.outcome))
    case Deliver(message, _, _) => message in s.sent
    case Fail(message) => message in s.sent
    case Foreign(_, _, _) => true
    case ForeignRun(_, _) => true
  }

  /** Whether taking the next action of the snapshot starts an executor call. */
  predicate Calls(m: Machine) {
    Todo(m) != [] && Todo(m)[0].actionType in EXECUTORS
  }

  function ClientStep(s: System, e: Event): System
    requires Enabled(s.m, e)
  {
    var m := Next(s.m, e, EXECUTORS);
    match e
    case Took =>
      if !Calls(s.m) then s.(m := m)
      else
        var req := RequestOf(Todo(s.m)[0]);
        s.(m := m, call := s.call + 1, sent := if req.Some? then s.sent + {Message(s.call + 1, req.value)} else s.sent)
    case Finished(o) =>
      s.(m := m, settled := if CountsAsDone(o) then s.settled + {Current(s.m).value} else s.settled)
    case Dismissed(id) => s.(m := m, dismissed := s.dismissed + {id})
    case _ => s.(m := m)
  }

  function Take(s: System, step: Step): System
    requires Allowed(s, step)
  {
    match step
    case Client(e) => ClientStep(s, e)
    case Deliver(message, now, fault) =>
      var (t, response) := T.Handle(s.t, message.req, now, fault);
      s.(t := t, replies := s.replies + {Reply(message.call, message.req, response, V.ViewOf(s.t, V.StopOf(message.req)).visit.Some?)})
    case Fail(message) => s.(replies := s.replies + {Reply(message.call, message.req, T.Rejected(T.SERVER_ERROR), false)})
    case Foreign(req, when, fault) => s.(t := T.Handle(s.t, req, when, fault).0)
    case ForeignRun(run, status) => s.(t := T.SetRun(s.t, run, status))
  }

  ghost predicate IsExecution(s: System, steps: seq<Step>)
    decreases |steps|
  {
    steps == [] || (Allowed(s, steps[0]) && IsExecution(Take(s, steps[0]), steps[1..]))
  }

  function Final(s: System, steps: seq<Step>): System
    requires IsExecution(s, steps)
    decreases |steps|
  {
    if steps == [] then s else Final(Take(s, steps[0]), steps[1..])
  }

  function Initial(t: T.Tables): System {
    System(INITIAL, t, 0, {}, {}, {}, {})
  }

  // -- Invariant -------------------------------------------------------------------------------------

  predicate StopIsTerminal(t: T.Tables, stop: T.StopId) {
    V.IsTerminal(V.ViewOf(t, stop))
  }

  predicate HasVisit(t: T.Tables, stop: T.StopId) {
    V.ViewOf(t, stop).visit.Some?
  }

  /** A response that lets the client call the stop finished. */
  predicate ClaimsTerminal(r: Reply) {
    || (r.req.Complete? && (r.response == T.Accepted || r.response == T.Rejected(ALREADY_COMPLETE)))
    || (r.req.Skip? && (r.response == T.Accepted || r.response == T.Rejected(ALREADY_SKIPPED)))
  }

  /** A response that lets the client call the stop started. */
  predicate ClaimsStarted(r: Reply) {
    r.req.Start? && (r.response == T.Accepted || r.response == T.Rejected(T.CONFLICT))
  }

  /** What a reply tells about its stop holds of the stop's view, and no reply carries a code that its request
      cannot get. */
  ghost predicate TrueOf(v: V.View, r: Reply) {
    && (ClaimsTerminal(r) ==> V.IsTerminal(v))
    && (ClaimsStarted(r) ==> v.visit.Some?)
    && (r.req.Complete? || r.req.Start? ==> r.response != T.Rejected(ALREADY_SKIPPED))
    && (r.req.Skip? || r.req.Start? ==> r.response != T.Rejected(ALREADY_COMPLETE))
    && (r.req.Upload? ==> r.response == T.Accepted || r.response == T.Rejected(T.SERVER_ERROR))
    && (r.req.Upload? && r.response == T.Accepted && r.recorded ==>
         forall p :: p in r.req.photos ==> (r.req.kind, p) in v.photos)
  }

  ghost predicate ReplyIsTrue(t: T.Tables, r: Reply) {
    TrueOf(V.ViewOf(t, V.StopOf(r.req)), r)
  }

  ghost predicate RepliesAreTrue(t: T.Tables, replies: set<Reply>) {
    forall r :: r in replies ==> ReplyIsTrue(t, r)
  }

  /** Messages and replies belong to calls already made; those of the current call carry its request. */
  ghost predicate CallsMatch(s: System) {
    && (forall g :: g in s.sent ==> g.call <= s.call)
    && (forall r :: r in s.replies ==> Message(r.call, r.req) in s.sent)
    && (Current(s.m).Some? ==> forall g :: g in s.sent && g.call == s.call ==> RequestOf(Current(s.m).value) == Some(g.req))
  }

  predicate EndsStop(a: Action) {
    a.actionType == CompleteStop || a.actionType == SkipStopWithHazard
  }

  ghost predicate SettledIsTerminal(t: T.Tables, settled: set<Action>) {
    forall a :: a in settled && EndsStop(a) ==> StopIsTerminal(t, a.stop)
  }

  /** A settled upload that sent photos was accepted by the server. */
  ghost predicate UploadsWereAccepted(replies: set<Reply>, settled: set<Action>) {
    forall a :: a in settled && a.actionType == UploadStopPhotos && RequestOf(a).Some? ==> AcceptedFor(replies, a)
  }

  ghost predicate AcceptedFor(replies: set<Reply>, a: Action) {
    exists r :: r in replies && RequestOf(a) == Some(r.req) && r.response == T.Accepted
  }

  /** A start of the stop is settled: the client may take the stop to be started. */
  ghost predicate Started(settled: set<Action>, stop: string) {
    exists a :: a in settled && a.actionType == StartStop && a.stop == stop
  }

  ghost predicate StartedHaveVisits(t: T.Tables, settled: set<Action>) {
    forall a :: a in settled && a.actionType == StartStop ==> HasVisit(t, a.stop)
  }

  /** Whatever the server accepted for the current call of a started stop, it accepted with the visit there. */
  ghost predicate CallIsRecorded(s: System) {
    Current(s.m).Some? && Started(s.settled, Current(s.m).value.stop) ==>
      forall r :: r in s.replies && r.call == s.call && r.response == T.Accepted ==> r.recorded
  }

  ghost predicate SettledAs(settled: set<Action>, x: Action) {
    exists a :: a in settled && a.id == x.id && a.actionType == x.actionType && a.stop == x.stop
  }

  /** Whatever is done was settled by replay or dismissed by the worker. */
  ghost predicate DoneIsExplained(actions: seq<Action>, settled: set<Action>, dismissed: set<string>) {
    forall x :: x in actions && x.status == Done ==> x.id in dismissed || SettledAs(settled, x)
  }

  ghost predicate Invariant(s: System) {
    && Consistent(s.m)
    && V.LawfulTables(s.t)
    && CallsMatch(s)
    && RepliesAreTrue(s.t, s.replies)
    && SettledIsTerminal(s.t, s.settled)
    && StartedHaveVisits(s.t, s.settled)
    && CallIsRecorded(s)
    && UploadsWereAccepted(s.replies, s.settled)
    && DoneIsExplained(s.m.queue.actions, s.settled, s.dismissed)
  }

  // -- The server moves only forward -----------------------------------------------------------------

  ghost predicate Forward(t: T.Tables, after: T.Tables) {
    forall s :: V.Later(V.ViewOf(t, s), V.ViewOf(after, s))
  }

  lemma TruthSurvives(t: T.Tables, after: T.Tables, replies: set<Reply>, settled: set<Action>)
    requires Forward(t, after) && RepliesAreTrue(t, replies)
    requires SettledIsTerminal(t, settled) && StartedHaveVisits(t, settled)
    ensures RepliesAreTrue(after, replies)
    ensures SettledIsTerminal(after, settled) && StartedHaveVisits(after, settled)
  {
    forall r | r in replies ensures ReplyIsTrue(after, r) {
      assert ReplyIsTrue(t, r);
      assert V.Later(V.ViewOf(t, V.StopOf(r.req)), V.ViewOf(after, V.StopOf(r.req)));
    }
    forall a | a in settled && EndsStop(a) ensures StopIsTerminal(after, a.stop) {
      assert V.Later(V.ViewOf(t, a.stop), V.ViewOf(after, a.stop));
    }
    forall a | a in settled && a.actionType == StartStop ensures HasVisit(after, a.stop) {
      assert V.Later(V.ViewOf(t, a.stop), V.ViewOf(after, a.stop));
    }
  }

  lemma {:induction false} PhotosContains(kind: string, ids: seq<string>, p: string)
    requires p in ids
    ensures (kind, p) in V.Photos(kind, ids)
  {
    if p != ids[0] {
      PhotosContains(kind, ids[1..], p);
    }
  }

  lemma StepAnswersTruly(v: V.View, g: Message, now: int, fault: T.Fault)
    requires V.Lawful(v)
    ensures var (w, response) := V.StepView(v, g.req, now, fault);
      TrueOf(w, Reply(g.call, g.req, response, v.visit.Some?))
  {
    if g.req.Upload? && v.visit.Some? {
      forall p | p in g.req.photos ensures (g.req.kind, p) in V.Photos(g.req.kind, g.req.photos) {
        PhotosContains(g.req.kind, g.req.photos, p);
      }
    }
  }

  /** The response to a handled request is true of the tables right afterwards. */
  lemma ResponseIsTrue(t: T.Tables, g: Message, now: int, fault: T.Fault)
    requires V.LawfulTables(t)
    ensures var (after, response) := T.Handle(t, g.req, now, fault);
      ReplyIsTrue(after, Reply(g.call, g.req, response, V.ViewOf(t, V.StopOf(g.req)).visit.Some?))
  {
    var stop := V.StopOf(g.req);
    V.HandleRefinesViews(t, g.req, now, fault, stop);
    assert V.Lawful(V.ViewOf(t, stop));
    StepAnswersTruly(V.ViewOf(t, stop), g, now, fault);
  }

  lemma ServerStep(s: System, req: T.Request, now: int, fault: T.Fault)
    requires Invariant(s)
    ensures Invariant(s.(t := T.Handle(s.t, req, now, fault).0))
  {
    V.HandleKeepsLawful(s.t, req, now, fault);
    TruthSurvives(s.t, T.Handle(s.t, req, now, fault).0, s.replies, s.settled);
  }

  lemma DeliverKeeps(s: System, g: Message, now: int, fault: T.Fault)
    requires Invariant(s) && g in s.sent
    ensures Invariant(Take(s, Deliver(g, now, fault)))
  {
    ServerStep(s, g.req, now, fault);
    ResponseIsTrue(s.t, g, now, fault);
    MoreReplies(s.replies, Take(s, Deliver(g, now, fault)).replies, s.settled);
    DeliverKeepsRecorded(s, g, now, fault);
  }

  lemma DeliverKeepsRecorded(s: System, g: Message, now: int, fault: T.Fault)
    requires Invariant(s) && g in s.sent
    ensures CallIsRecorded(Take(s, Deliver(g, now, fault)))
  {
    if Current(s.m).Some? && Started(s.settled, Current(s.m).value.stop) && g.call == s.call {
      var a := Current(s.m).value;
      RequestStop(a);
      assert RequestOf(a) == Some(g.req);
      assert HasVisit(s.t, a.stop);
    }
  }

  lemma RequestStop(a: Action)
    ensures RequestOf(a).Some? ==> V.StopOf(RequestOf(a).value) == a.stop
  {
  }

  lemma MoreReplies(replies: set<Reply>, more: set<Reply>, settled: set<Action>)
    requires replies <= more && UploadsWereAccepted(replies, settled)
    ensures UploadsWereAccepted(more, settled)
  {
    forall a | a in settled && a.actionType == UploadStopPhotos && RequestOf(a).Some? ensures AcceptedFor(more, a) {
      assert AcceptedFor(replies, a);
    }
  }

  lemma RunsAreOutOfView(t: T.Tables, run: T.RunId, status: T.RunStatus)
    ensures forall x :: V.ViewOf(T.SetRun(t, run, status), x) == V.ViewOf(t, x)
  {
    forall x ensures V.ViewOf(T.SetRun(t, run, status), x) == V.ViewOf(t, x) {
    }
  }

  lemma RunStepKeeps(s: System, run: T.RunId, status: T.RunStatus)
    requires Invariant(s)
    ensures Invariant(s.(t := T.SetRun(s.t, run, status)))
  {
    var after := T.SetRun(s.t, run, status);
    RunsAreOutOfView(s.t, run, status);
    TruthSurvives(s.t, after, s.replies, s.settled);
  }

  // -- Client steps ----------------------------------------------------------------------------------

  lemma EnqueueKeepsExplained(s: System, a: Action)
    requires Invariant(s) && Enabled(s.m, Enqueued(a))
    ensures DoneIsExplained(EnqueueActions(s.m.queue.actions, a), s.settled, s.dismissed)
  {
    EnqueueInherits(s.m.queue.actions, a);
    var r := EnqueueActions(s.m.queue.actions, a);
    forall x | x in r && x.status == Done ensures x.id in s.dismissed || SettledAs(s.settled, x) {
      var y :| y in s.m.queue.actions && x.id == y.id && x.status == y.status && SameIdentity(x, y);
    }
  }

  lemma UpdateKeepsExplained(r: seq<Action>, actions: seq<Action>, id: string, update: Action -> Action,
                             settled: set<Action>, dismissed: set<string>)
    requires UpdatedFrom(r, actions, id, update) && KeepsIdentity(update)
    requires DoneIsExplained(actions, settled, dismissed)
    requires id in dismissed || forall x :: x in actions && x.id == id && update(x).status == Done ==> SettledAs(settled, x)
    ensures DoneIsExplained(r, settled, dismissed)
  {
    forall x | x in r && x.status == Done ensures x.id in dismissed || SettledAs(settled, x) {
      var y :| y in actions && x == if y.id == id then update(y) else y;
      assert y.id == id ==> id in dismissed || SettledAs(settled, y);
    }
  }

  lemma MoreExplained(actions: seq<Action>, settled: set<Action>, dismissed: set<string>, more: set<Action>, others: set<string>)
    requires DoneIsExplained(actions, settled, dismissed)
    ensures DoneIsExplained(actions, settled + more, dismissed + others)
  {
    forall x | x in actions && x.status == Done ensures x.id in dismissed + others || SettledAs(settled + more, x) {
      if x.id !in dismissed {
        var a :| a in settled && a.id == x.id && a.actionType == x.actionType && a.stop == x.stop;
        assert a in settled + more;
      }
    }
  }

  lemma DismissKeeps(s: System, id: string)
    requires Invariant(s) && Enabled(s.m, Dismissed(id))
    ensures Invariant(ClientStep(s, Dismissed(id)))
  {
    StepKeepsConsistent(s.m, Dismissed(id), EXECUTORS);
    StatusUpdatesKeepIdentity(Done, None, 0);
    UpdateKeepsIds(s.m.queue, id, ToStatus(Done, None));
    MoreExplained(s.m.queue.actions, s.settled, s.dismissed, {}, {id});
    assert s.settled + {} == s.settled;
    UpdateKeepsExplained(SetStatus(s.m.queue, id, Done).actions, s.m.queue.actions, id, ToStatus(Done, None),
                         s.settled, s.dismissed + {id});
  }

  lemma TakeKeeps(s: System)
    requires Invariant(s) && Enabled(s.m, Took)
    ensures Invariant(ClientStep(s, Took))
  {
    StepKeepsConsistent(s.m, Took, EXECUTORS);
    if Calls(s.m) {
      var a := Todo(s.m)[0];
      StatusUpdatesKeepIdentity(Running, None, 0);
      UpdateKeepsIds(s.m.queue, a.id, ToStatus(Running, None));
      UpdateKeepsExplained(SetStatus(s.m.queue, a.id, Running).actions, s.m.queue.actions, a.id,
                           ToStatus(Running, None), s.settled, s.dismissed);
    }
  }

  /** When a call counts as done, the stop of a completion or skip really is terminal. */
  lemma SettledCallIsTerminal(s: System, o: Outcome)
    requires Invariant(s) && Current(s.m).Some? && Surfaces(s, Current(s.m).value, o) && CountsAsDone(o)
    ensures var a := Current(s.m).value;
      && (EndsStop(a) ==> StopIsTerminal(s.t, a.stop))
      && (a.actionType == StartStop ==> HasVisit(s.t, a.stop))
      && (a.actionType == UploadStopPhotos && RequestOf(a).Some? ==> AcceptedFor(s.replies, a))
  {
    var a := Current(s.m).value;
    if EndsStop(a) || (a.actionType == UploadStopPhotos && RequestOf(a).Some?) {
      var response := if o.Ok? then T.Accepted else T.Rejected(o.code);
      var r :| r in s.replies && r.call == s.call && r.response == response;
      assert ReplyIsTrue(s.t, r);
      assert Message(r.call, r.req) in s.sent;
    } else if a.actionType == StartStop {
      var r :| r in s.replies && r.call == s.call
        && (r.response == (if o.Ok? then T.Accepted else T.Rejected(o.code)) || (o.Code? && r.response == T.Rejected(T.CONFLICT)));
      assert ReplyIsTrue(s.t, r);
      assert Message(r.call, r.req) in s.sent;
    }
  }

  lemma FinishKeeps(s: System, o: Outcome)
    requires Invariant(s) && Allowed(s, Client(Finished(o)))
    ensures Invariant(ClientStep(s, Finished(o)))
  {
    var a := Current(s.m).value;
    var q := if o.Auth? then s.m.queue.(requiresAuth := true) else s.m.queue;
    StepKeepsConsistent(s.m, Finished(o), EXECUTORS);
    FinishUpdateFacts(a, o);
    UpdateKeepsIds(q, a.id, FinishUpdate(a, o));
    var after := ClientStep(s, Finished(o));
    if CountsAsDone(o) {
      SettledCallIsTerminal(s, o);
      MoreExplained(s.m.queue.actions, s.settled, s.dismissed, {a}, {});
      assert s.dismissed + {} == s.dismissed;
      assert a in s.settled + {a};
    }
    UpdateKeepsExplained(Finish(s.m.queue, a, o).actions, s.m.queue.actions, a.id, FinishUpdate(a, o), after.settled, after.dismissed);
  }

  lemma ClientKeeps(s: System, e: Event)
    requires Invariant(s) && Allowed(s, Client(e))
    ensures Invariant(ClientStep(s, e))
  {
    match e
    case Enqueued(a) =>
      StepKeepsConsistent(s.m, e, EXECUTORS);
      EnqueueKeepsExplained(s, a);
    case Dismissed(id) => DismissKeeps(s, id);
    case Took => TakeKeeps(s);
    case Finished(o) => FinishKeeps(s, o);
    case _ => StepKeepsConsistent(s.m, e, EXECUTORS);
  }

  /** Every step of client, network, server and other clients keeps the invariant. */
  lemma StepKeepsInvariant(s: System, step: Step)
    requires Invariant(s) && Allowed(s, step)
    ensures Invariant(Take(s, step))
  {
    match step
    case Client(e) => ClientKeeps(s, e);
    case Deliver(g, now, fault) => DeliverKeeps(s, g, now, fault);
    case Fail(g) => MoreReplies(s.replies, Take(s, step).replies, s.settled);
    case Foreign(req, when, fault) => ServerStep(s, req, when, fault);
    case ForeignRun(run, status) => RunStepKeeps(s, run, status);
  }

  lemma {:induction false} ExecutionsKeepInvariant(s: System, steps: seq<Step>)
    requires Invariant(s) && IsExecution(s, steps)
    ensures Invariant(Final(s, steps))
    decreases |steps|
  {
    if steps != [] {
      StepKeepsInvariant(s, steps[0]);
      ExecutionsKeepInvariant(Take(s, steps[0]), steps[1..]);
    }
  }

  ghost predicate OneVisitPerStop(t: T.Tables) {
    forall j, k :: 0 <= j < k < |t.visits| ==> t.visits[j].clientVisitId != t.visits[k].clientVisitId
  }

  /** Safety over all executions from freshly planned runs and an empty queue: each stop has at most one
      visit; a completion has been accepted, with its one batch of observations, exactly when the stop is
      done, and never twice; and a completion or skip that is done in the queue, other than by
      dismissal, has its stop terminal on the server. */
  lemma ReplayIsSafe(t: T.Tables, steps: seq<Step>)
    requires V.Fresh(t) && IsExecution(Initial(t), steps)
    ensures var s := Final(Initial(t), steps);
      && OneVisitPerStop(s.t)
      && (forall stop :: V.ViewOf(s.t, stop).completions == if V.ViewOf(s.t, stop).status == Some(T.Done) then 1 else 0)
      && (forall x :: x in s.m.queue.actions && x.status == Done && EndsStop(x) && x.id !in s.dismissed ==>
            StopIsTerminal(s.t, x.stop))
  {
    V.FreshIsLawful(t);
    ExecutionsKeepInvariant(Initial(t), steps);
    var s := Final(Initial(t), steps);
    forall stop ensures V.ViewOf(s.t, stop).completions == if V.ViewOf(s.t, stop).status == Some(T.Done) then 1 else 0 {
      assert V.Lawful(V.ViewOf(s.t, stop));
    }
    forall x | x in s.m.queue.actions && x.status == Done && EndsStop(x) && x.id !in s.dismissed
      ensures StopIsTerminal(s.t, x.stop)
    {
      var a :| a in s.settled && a.id == x.id && a.actionType == x.actionType && a.stop == x.stop;
    }
  }

  /** Photos are delivered at least once: an upload that replay marked done was accepted by the server, and
      whenever the server accepted it with the stop's visit there, every photo handed to the executor is
      recorded for the stop, and stays recorded. */
  lemma UploadedPhotosAreRecorded(t: T.Tables, steps: seq<Step>, a: Action)
    requires V.Fresh(t) && IsExecution(Initial(t), steps)
    requires a in Final(Initial(t), steps).settled && a.actionType == UploadStopPhotos && PhotosIn(a.payload) != []
    ensures AcceptedFor(Final(Initial(t), steps).replies, a)
    ensures forall r :: r in Final(Initial(t), steps).replies && AcceptedWithVisit(r, a) ==>
      AllRecorded(Final(Initial(t), steps).t, a)
  {
    V.FreshIsLawful(t);
    ExecutionsKeepInvariant(Initial(t), steps);
    var s := Final(Initial(t), steps);
    forall r | r in s.replies && AcceptedWithVisit(r, a) ensures AllRecorded(s.t, a) {
      assert ReplyIsTrue(s.t, r);
    }
  }

  predicate AcceptedWithVisit(r: Reply, a: Action) {
    RequestOf(a) == Some(r.req) && r.response == T.Accepted && r.recorded
  }

  /** Every photo of the upload is recorded for its stop, under the kind it was sent with. */
  ghost predicate AllRecorded(t: T.Tables, u: Action)
    requires RequestOf(u).Some? && u.actionType == UploadStopPhotos
  {
    forall p :: p in PhotosIn(u.payload) ==> (RequestOf(u).value.kind, p) in V.ViewOf(t, u.stop).photos
  }

  // -- Uploads after a settled start -----------------------------------------------------------------

  predicate SendsPhotos(u: Action) {
    u.actionType == UploadStopPhotos && RequestOf(u).Some?
  }

  /** The uploads for the stop that were settled since then are recorded. */
  ghost predicate NewUploadsRecorded(t: T.Tables, since: set<Action>, settled: set<Action>, stop: string) {
    forall u :: u in settled && u !in since && u.stop == stop && SendsPhotos(u) ==> AllRecorded(t, u)
  }

  lemma RecordedStays(t: T.Tables, after: T.Tables, u: Action)
    requires SendsPhotos(u) && AllRecorded(t, u) && Forward(t, after)
    ensures AllRecorded(after, u)
  {
    var v, w := V.ViewOf(t, u.stop), V.ViewOf(after, u.stop);
    assert V.Later(v, w);
    assert w.photos[..|v.photos|] == v.photos;
  }

  lemma SettledUploadIsRecorded(s: System, o: Outcome)
    requires Invariant(s) && Allowed(s, Client(Finished(o))) && CountsAsDone(o)
    requires SendsPhotos(Current(s.m).value) && Started(s.settled, Current(s.m).value.stop)
    ensures AllRecorded(s.t, Current(s.m).value)
  {
    var a := Current(s.m).value;
    if o.Ok? {
      var r :| r in s.replies && r.call == s.call && r.response == T.Accepted;
      assert Message(r.call, r.req) in s.sent;
      assert RequestOf(a) == Some(r.req);
      assert ReplyIsTrue(s.t, r);
    }
  }

  lemma NothingGoesBack(t: T.Tables)
    ensures Forward(t, t)
  {
  }

  lemma StepGoesForward(s: System, step: Step)
    requires Invariant(s) && Allowed(s, step)
    ensures Forward(s.t, Take(s, step).t)
  {
    match step
    case Deliver(g, now, fault) => V.HandleKeepsLawful(s.t, g.req, now, fault);
    case Foreign(req, when, fault) => V.HandleKeepsLawful(s.t, req, when, fault);
    case ForeignRun(run, status) => RunsAreOutOfView(s.t, run, status);
    case Client(e) =>
      NothingGoesBack(s.t);
      assert Take(s, step).t == s.t;
    case Fail(_) => NothingGoesBack(s.t);
  }

  lemma SettledGrows(s: System, step: Step)
    requires Allowed(s, step)
    ensures s.settled <= Take(s, step).settled
  {
  }

  lemma StepRecordsNewUploads(s: System, step: Step, since: set<Action>, stop: string)
    requires Invariant(s) && Allowed(s, step) && Started(s.settled, stop)
    requires NewUploadsRecorded(s.t, since, s.settled, stop)
    ensures NewUploadsRecorded(Take(s, step).t, since, Take(s, step).settled, stop)
  {
    var after := Take(s, step);
    StepGoesForward(s, step);
    SettledGrows(s, step);
    forall u | u in after.settled && u !in since && u.stop == stop && SendsPhotos(u) ensures AllRecorded(after.t, u) {
      if u !in s.settled {
        SettledUploadIsRecorded(s, step.event.outcome);
      }
      RecordedStays(s.t, after.t, u);
    }
  }

  lemma {:induction false} ExecutionRecordsNewUploads(s: System, steps: seq<Step>, since: set<Action>, stop: string)
    requires Invariant(s) && IsExecution(s, steps) && Started(s.settled, stop)
    requires NewUploadsRecorded(s.t, since, s.settled, stop)
    ensures NewUploadsRecorded(Final(s, steps).t, since, Final(s, steps).settled, stop)
    decreases |steps|
  {
    if steps != [] {
      StepKeepsInvariant(s, steps[0]);
      StepRecordsNewUploads(s, steps[0], since, stop);
      SettledGrows(s, steps[0]);
      ExecutionRecordsNewUploads(Take(s, steps[0]), steps[1..], since, stop);
    }
  }

  /** What the client can rely on: once replay has marked a start of the stop done, every upload for the stop
      that it marks done afterwards has all its photos recorded on the server, for good. */
  lemma UploadsAfterStartAreRecorded(t: T.Tables, first: seq<Step>, second: seq<Step>, u: Action)
    requires V.Fresh(t) && IsExecution(Initial(t), first) && IsExecution(Final(Initial(t), first), second)
    requires var s := Final(Initial(t), first); Started(s.settled, u.stop) && u !in s.settled
    requires u in Final(Final(Initial(t), first), second).settled && SendsPhotos(u)
    ensures AllRecorded(Final(Final(Initial(t), first), second).t, u)
  {
    V.FreshIsLawful(t);
    ExecutionsKeepInvariant(Initial(t), first);
    var s := Final(Initial(t), first);
    ExecutionRecordsNewUploads(s, second, s.settled, u.stop);
  }
}
