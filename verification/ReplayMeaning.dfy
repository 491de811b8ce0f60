/** Replaying a queue in (rank, createdAt) order means the same as executing it in enqueue order. */
module ReplayMeaning {
  import opened Wrappers
  import opened Sequences
  import opened OfflineActions
  import T = StopTables
  import V = StopViews
  import P = ReplayProtocol
  import R = RunCompletion

  type Entry = (Action, T.Response)

  datatype Outcomes = Outcomes(t: T.Tables, log: seq<Entry>)

  function ExecuteOne(t: T.Tables, a: Action): (T.Tables, T.Response) {
    match P.RequestOf(a)
    case None => (t, T.Accepted)
    case Some(req) => T.Handle(t, req, 0, T.NoFault)
  }

  /** Executes the actions one after the other over a faultless network; timestamps aside. */
  function ExecuteAll(t: T.Tables, actions: seq<Action>): Outcomes
    decreases |actions|
  {
    if actions == [] then Outcomes(t, [])
    else
      var (after, response) := ExecuteOne(t, actions[0]);
      var rest := ExecuteAll(after, actions[1..]);
      Outcomes(rest.t, [(actions[0], response)] + rest.log)
  }

  datatype ViewOutcomes = ViewOutcomes(v: V.View, log: seq<Entry>)

  function ExecuteOnView(v: V.View, a: Action): (V.View, T.Response) {
    match P.RequestOf(a)
    case None => (v, T.Accepted)
    case Some(req) => V.StepView(v, req, 0, T.NoFault)
  }

  /** The same for one stop alone. */
  function ExecuteView(v: V.View, actions: seq<Action>): ViewOutcomes
    decreases |actions|
  {
    if actions == [] then ViewOutcomes(v, [])
    else
      var (after, response) := ExecuteOnView(v, actions[0]);
      var rest := ExecuteView(after, actions[1..]);
      ViewOutcomes(rest.v, [(actions[0], response)] + rest.log)
  }

  function AtStop(stop: string): Action -> bool {
    (a: Action) => a.stop == stop
  }

  function LoggedAt(stop: string): Entry -> bool {
    (e: Entry) => e.0.stop == stop
  }

  lemma ExecuteOneRefines(t: T.Tables, a: Action, stop: string)
    requires V.WellFormed(t)
    ensures var (after, response) := ExecuteOne(t, a);
      && V.WellFormed(after)
      && response == ExecuteOnView(V.ViewOf(t, a.stop), a).1
      && V.ViewOf(after, stop) == if a.stop == stop then ExecuteOnView(V.ViewOf(t, stop), a).0 else V.ViewOf(t, stop)
  {
    if P.RequestOf(a).Some? {
      P.RequestStop(a);
      RequestRefines(t, P.RequestOf(a).value, a.stop, stop);
    }
  }

  lemma RequestRefines(t: T.Tables, req: T.Request, own: string, stop: string)
    requires V.WellFormed(t) && V.StopOf(req) == own
    ensures V.WellFormed(T.Handle(t, req, 0, T.NoFault).0)
    ensures T.Handle(t, req, 0, T.NoFault).1 == V.StepView(V.ViewOf(t, own), req, 0, T.NoFault).1
    ensures V.ViewOf(T.Handle(t, req, 0, T.NoFault).0, stop)
      == if own == stop then V.StepView(V.ViewOf(t, stop), req, 0, T.NoFault).0 else V.ViewOf(t, stop)
  {
    V.HandleRefinesViews(t, req, 0, T.NoFault, stop);
  }

  /** What happens to a stop depends only on the stop's own actions, in their order. */
  lemma {:induction false} StopsAreIndependent(t: T.Tables, actions: seq<Action>, stop: string)
    requires V.WellFormed(t)
    ensures var r, alone := ExecuteAll(t, actions), ExecuteView(V.ViewOf(t, stop), Filter(actions, AtStop(stop)));
      && V.WellFormed(r.t) && V.ViewOf(r.t, stop) == alone.v && Filter(r.log, LoggedAt(stop)) == alone.log
    decreases |actions|
  {
    if actions != [] {
      var a := actions[0];
      var (after, response) := ExecuteOne(t, a);
      ExecuteOneRefines(t, a, stop);
      StopsAreIndependent(after, actions[1..], stop);
      var rest := ExecuteAll(after, actions[1..]);
      assert ([(a, response)] + rest.log)[1..] == rest.log;
      if a.stop == stop {
        assert ([a] + Filter(actions[1..], AtStop(stop)))[1..] == Filter(actions[1..], AtStop(stop));
      }
    }
  }

  // -- The status of the run -------------------------------------------------------------------------

  /** A completion or skip of a stop of the run was accepted. */
  ghost predicate EndedOne(t: T.Tables, log: seq<Entry>, run: T.RunId) {
    exists e :: e in log && EndsIn(t, e, run)
  }

  ghost predicate EndsIn(t: T.Tables, e: Entry, run: T.RunId) {
    P.EndsStop(e.0) && e.1 == T.Accepted && e.0.stop in t.stops && t.stops[e.0.stop].run == run
  }

  /** One action changes the status of a run only by finishing it, and only when an accepted completion or
      skip leaves all its stops terminal. */
  lemma ExecuteOneRun(t: T.Tables, a: Action, run: T.RunId)
    requires run in t.runs
    ensures var (after, response) := ExecuteOne(t, a);
      && R.SameStops(t, after)
      && after.runs[run] == (if EndsIn(t, (a, response), run) && R.AllTerminal(after, run) && !V.Concluded(t, run)
                             then T.Finished else t.runs[run])
      && (!EndsIn(t, (a, response), run) ==> (R.AllTerminal(after, run) <==> R.AllTerminal(t, run)))
      && (R.AllTerminal(t, run) ==> R.AllTerminal(after, run))
  {
    if P.RequestOf(a).Some? {
      R.RunAfter(t, P.RequestOf(a).value, 0, T.NoFault, run);
    }
  }

  lemma EndedOneOfCons(t: T.Tables, after: T.Tables, e: Entry, rest: seq<Entry>, run: T.RunId)
    requires R.SameStops(t, after)
    ensures EndedOne(t, [e] + rest, run) <==> EndsIn(t, e, run) || EndedOne(after, rest, run)
  {
    if EndsIn(t, e, run) {
      assert e in [e] + rest;
    }
    forall x | x in rest && EndsIn(after, x, run) ensures x in [e] + rest && EndsIn(t, x, run) {
    }
    forall x | x in [e] + rest && EndsIn(t, x, run) ensures x == e || (x in rest && EndsIn(after, x, run)) {
    }
  }

  /** After all actions a run is finished exactly when it was not yet concluded, all its stops ended up
      terminal, and one of the actions ended a stop of it; otherwise its status is unchanged. */
  lemma {:induction false} RunStatusAfter(t: T.Tables, actions: seq<Action>, run: T.RunId)
    requires run in t.runs
    ensures var r := ExecuteAll(t, actions);
      && R.SameStops(t, r.t)
      && (R.AllTerminal(t, run) ==> R.AllTerminal(r.t, run))
      && (!R.AllTerminal(t, run) && R.AllTerminal(r.t, run) ==> EndedOne(t, r.log, run))
      && r.t.runs[run] == (if EndedOne(t, r.log, run) && R.AllTerminal(r.t, run) && !V.Concluded(t, run)
                           then T.Finished else t.runs[run])
    decreases |actions|
  {
    if actions != [] {
      var a := actions[0];
      var (after, response) := ExecuteOne(t, a);
      ExecuteOneRun(t, a, run);
      RunStatusAfter(after, actions[1..], run);
      EndedOneOfCons(t, after, (a, response), ExecuteAll(after, actions[1..]).log, run);
    }
  }

  // -- The theorem -----------------------------------------------------------------------------------

  /** Every stop's own actions were enqueued in replay order: start, uploads, then what ends the stop. */
  ghost predicate EnqueuedPerStop(actions: seq<Action>) {
    forall stop :: Sorted(Filter(actions, AtStop(stop)), ReplayOrder())
  }

  lemma SortKeepsStops(actions: seq<Action>, stop: string)
    requires EnqueuedPerStop(actions)
    ensures Filter(StableSort(actions, ReplayOrder()), AtStop(stop)) == Filter(actions, AtStop(stop))
  {
    ReplayOrderIsTotal();
    SortCommutesWithFilter(actions, ReplayOrder(), AtStop(stop));
    SortOfSorted(Filter(actions, AtStop(stop)), ReplayOrder());
  }

  lemma StatusFromView(t: T.Tables, stop: string)
    ensures V.ViewOf(t, stop).status == V.StatusOf(t, stop)
  {
  }

  lemma EqualViewsEqualStops(t: T.Tables, x: T.Tables, y: T.Tables)
    requires R.SameStops(t, x) && R.SameStops(t, y) && forall stop :: V.ViewOf(x, stop) == V.ViewOf(y, stop)
    ensures x.stops == y.stops
  {
    forall s | s in t.stops ensures x.stops[s] == y.stops[s] {
      StatusFromView(x, s);
      StatusFromView(y, s);
      assert V.ViewOf(x, s) == V.ViewOf(y, s);
    }
  }

  lemma EndedOneFromStops(t: T.Tables, log: seq<Entry>, other: seq<Entry>, run: T.RunId)
    requires EndedOne(t, log, run) && forall stop :: Filter(log, LoggedAt(stop)) == Filter(other, LoggedAt(stop))
    ensures EndedOne(t, other, run)
  {
    var e :| e in log && EndsIn(t, e, run);
    FilterMembers(log, LoggedAt(e.0.stop));
    FilterMembers(other, LoggedAt(e.0.stop));
    assert Filter(log, LoggedAt(e.0.stop)) == Filter(other, LoggedAt(e.0.stop));
  }

  lemma {:induction false} StopsKept(t: T.Tables, actions: seq<Action>)
    ensures R.SameStops(t, ExecuteAll(t, actions).t)
    decreases |actions|
  {
    if actions != [] {
      var (after, _) := ExecuteOne(t, actions[0]);
      ExecuteOneKeepsStops(t, actions[0]);
      StopsKept(after, actions[1..]);
    }
  }

  lemma ExecuteOneKeepsStops(t: T.Tables, a: Action)
    ensures R.SameStops(t, ExecuteOne(t, a).0)
  {
    var req := P.RequestOf(a);
    if req.Some? {
      R.HandleKeepsStops(t, req.value, 0, T.NoFault);
    }
  }

  /** If every stop's own actions were enqueued in replay order, then executing the whole queue in
      replay order gives every stop the same status, visit, photos and observation batches, every run the
      same status, and every action the same response, as executing it in enqueue order. */
  lemma ReplayOrderKeepsMeaning(t: T.Tables, actions: seq<Action>)
    requires V.WellFormed(t) && EnqueuedPerStop(actions)
    ensures var x, y := ExecuteAll(t, actions), ExecuteAll(t, StableSort(actions, ReplayOrder()));
      && (forall stop :: V.ViewOf(y.t, stop) == V.ViewOf(x.t, stop))
      && (forall stop :: Filter(y.log, LoggedAt(stop)) == Filter(x.log, LoggedAt(stop)))
      && y.t.stops == x.t.stops && y.t.runs == x.t.runs
  {
    var sorted := StableSort(actions, ReplayOrder());
    var x, y := ExecuteAll(t, actions), ExecuteAll(t, sorted);
    forall stop
      ensures V.ViewOf(y.t, stop) == V.ViewOf(x.t, stop)
      ensures Filter(y.log, LoggedAt(stop)) == Filter(x.log, LoggedAt(stop))
    {
      SortKeepsStops(actions, stop);
      StopsAreIndependent(t, actions, stop);
      StopsAreIndependent(t, sorted, stop);
    }
    StopsKept(t, actions);
    StopsKept(t, sorted);
    EqualViewsEqualStops(t, x.t, y.t);
    forall run | run in t.runs ensures y.t.runs[run] == x.t.runs[run] {
      SameRunStatus(t, actions, sorted, run);
    }
  }

  /** Runs whose stops end up alike, by the same entries per stop, end up alike. */
  lemma SameRunStatus(t: T.Tables, actions: seq<Action>, others: seq<Action>, run: T.RunId)
    requires run in t.runs
    requires ExecuteAll(t, others).t.stops == ExecuteAll(t, actions).t.stops
    requires forall stop :: Filter(ExecuteAll(t, others).log, LoggedAt(stop)) == Filter(ExecuteAll(t, actions).log, LoggedAt(stop))
    ensures run in ExecuteAll(t, others).t.runs && run in ExecuteAll(t, actions).t.runs
    ensures ExecuteAll(t, others).t.runs[run] == ExecuteAll(t, actions).t.runs[run]
  {
    var x, y := ExecuteAll(t, actions), ExecuteAll(t, others);
    RunStatusAfter(t, actions, run);
    RunStatusAfter(t, others, run);
    if EndedOne(t, x.log, run) {
      EndedOneFromStops(t, x.log, y.log, run);
    }
    if EndedOne(t, y.log, run) {
      EndedOneFromStops(t, y.log, x.log, run);
    }
  }

  // -- Queues as the stop screen fills them ------------------------------------------------------------

  /** What ends a stop comes last, uploads before it, the start first. */
  function Phase(t: ActionType): nat {
    match t
    case StartStop => 0
    case UploadStopPhotos => 1
    case SkipStopWithHazard => 2
    case CompleteStop => 2
    case OtherType(_) => 3
  }

  /** A start, then uploads, then at most one skip or completion, stamped by a clock that does not run back. */
  ghost predicate InOrder(s: seq<Action>) {
    && (forall a :: a in s ==> !a.actionType.OtherType?)
    && forall i, j :: 0 <= i < j < |s| ==>
         Phase(s[i].actionType) <= Phase(s[j].actionType) && s[i].createdAt <= s[j].createdAt && !P.EndsStop(s[i])
  }

  lemma InOrderIsReplayOrder(s: seq<Action>)
    requires InOrder(s)
    ensures Sorted(s, ReplayOrder())
  {
    forall i, j | 0 <= i < j < |s| ensures ReplayOrder()(s[i], s[j]) {
      assert s[i] in s && s[j] in s;
    }
  }

  /** A replay of such a queue, delivered without faults, ends as if the pending actions had been executed
      when they were enqueued. */
  lemma SnapshotKeepsMeaning(t: T.Tables, q: QueueState)
    requires V.WellFormed(t)
    requires forall stop :: InOrder(Filter(Filter(q.actions, IsPending()), AtStop(stop)))
    ensures var x, y := ExecuteAll(t, Filter(q.actions, IsPending())), ExecuteAll(t, Snapshot(q));
      && (forall stop :: V.ViewOf(y.t, stop) == V.ViewOf(x.t, stop))
      && y.t.stops == x.t.stops && y.t.runs == x.t.runs
  {
    var pending := Filter(q.actions, IsPending());
    forall stop ensures Sorted(Filter(pending, AtStop(stop)), ReplayOrder()) {
      InOrderIsReplayOrder(Filter(pending, AtStop(stop)));
    }
    ReplayOrderKeepsMeaning(t, pending);
  }
}
