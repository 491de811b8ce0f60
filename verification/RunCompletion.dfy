/** When a run is finished: the check that the handlers make after a stop has ended, and what becomes of a
    run whose last check never happened. */
module RunCompletion {
  import opened Wrappers
  import OfflineActions
  import opened StopTables
  import opened StopViews

  ghost predicate AllTerminal(t: Tables, run: RunId) {
    forall s :: s in t.stops && t.stops[s].run == run ==> Terminal(t.stops[s].status)
  }

  ghost predicate SameStops(t: Tables, after: Tables) {
    && after.stops.Keys == t.stops.Keys && after.runs.Keys == t.runs.Keys
    && forall s :: s in t.stops ==> after.stops[s].run == t.stops[s].run
  }

  /** A completion or a skip that the tables take up. */
  predicate Ends(t: Tables, req: Request) {
    match req
    case Skip(stop, hazards) => SkipRejection(t, stop, hazards).None?
    case Complete(stop, r) => CompleteRejection(t, stop, r).None?
    case _ => false
  }

  /** Whether the handler gets as far as checking the run. */
  predicate Checks(req: Request, fault: Fault) {
    req.Complete? || (req.Skip? && fault == NoFault)
  }

  /** The tables at the run check, or at the end when there is none. */
  function BeforeCheck(t: Tables, req: Request, now: int, fault: Fault): Tables {
    match req
    case Start(stop) => HandleStart(t, stop).0
    case Upload(stop, kind, photos) => CreatePhotos(t, stop, kind, photos)
    case Skip(stop, hazards) =>
      if SkipRejection(t, stop, hazards).Some? then t
      else
        var (committed, visitId) := SkipCommit(t, stop, hazards, now);
        if fault == BeforeObservations then committed else WithSkipBatch(committed, visitId)
    case Complete(stop, r) =>
      if CompleteRejection(t, stop, r).Some? then t
      else
        var (visits, visitId) := EnsureVisit(t.visits, DeriveClientVisitId(stop));
        var closed := SetStopStatus(t, stop, Done).(visits :=
          CloseVisit(visits, DeriveClientVisitId(stop), OUTCOME_COMPLETED, None, now));
        closed.(batches := closed.batches + [BatchRow(visitId, FromCompletion)])
  }

  lemma HandleChecks(t: Tables, req: Request, now: int, fault: Fault)
    ensures Handle(t, req, now, fault).0
      == if Ends(t, req) && Checks(req, fault)
         then CheckRun(BeforeCheck(t, req, now, fault), t.stops[StopOf(req)].run) else BeforeCheck(t, req, now, fault)
  {
  }

  lemma BeforeCheckKeepsStops(t: Tables, req: Request, now: int, fault: Fault)
    ensures var b := BeforeCheck(t, req, now, fault);
      SameStops(t, b) && b.runs == t.runs
  {
  }

  lemma HandleKeepsStops(t: Tables, req: Request, now: int, fault: Fault)
    ensures SameStops(t, Handle(t, req, now, fault).0)
  {
    HandleChecks(t, req, now, fault);
    BeforeCheckKeepsStops(t, req, now, fault);
  }

  /** Before the check, a request changes the status of its own stop only. */
  lemma BeforeCheckFacts(t: Tables, req: Request, now: int, fault: Fault)
    ensures var b := BeforeCheck(t, req, now, fault);
      && SameStops(t, b) && b.runs == t.runs
      && (forall s :: s in t.stops && s != StopOf(req) ==> b.stops[s] == t.stops[s])
      && (Ends(t, req) ==> StopOf(req) in t.stops && Terminal(b.stops[StopOf(req)].status))
      && (!Ends(t, req) ==>
           forall s :: s in t.stops ==> (Terminal(b.stops[s].status) <==> Terminal(t.stops[s].status)))
  {
    BeforeCheckKeepsStops(t, req, now, fault);
  }

  /** The check finishes the run exactly when no stop is open and some stop of the run has ended. */
  lemma CheckFinishesIff(t: Tables, checked: RunId, stop: StopId, run: RunId)
    requires stop in t.stops && t.stops[stop].run == checked && Terminal(t.stops[stop].status) && run in t.runs
    ensures var after := CheckRun(t, checked);
      && after.stops == t.stops && after.runs.Keys == t.runs.Keys
      && after.runs[run] == if run == checked && AllTerminal(t, run) && !Concluded(t, run) then Finished else t.runs[run]
  {
    assert stop in TerminalStops(t, checked);
    if OpenStops(t, checked) == {} {
      forall s | s in t.stops && t.stops[s].run == checked ensures Terminal(t.stops[s].status) {
        assert s !in OpenStops(t, checked);
      }
    }
  }

  /** The complete effect of a request on the status of a run. */
  lemma RunAfter(t: Tables, req: Request, now: int, fault: Fault, run: RunId)
    requires run in t.runs
    ensures var after := Handle(t, req, now, fault).0;
      && SameStops(t, after)
      && (Ends(t, req) ==> StopOf(req) in t.stops)
      && after.runs[run] == (if Ends(t, req) && Checks(req, fault) && t.stops[StopOf(req)].run == run
                                && AllTerminal(after, run) && !Concluded(t, run)
                             then Finished else t.runs[run])
      && (AllTerminal(t, run) ==> AllTerminal(after, run))
      && (!AllTerminal(t, run) && AllTerminal(after, run) ==> Ends(t, req) && t.stops[StopOf(req)].run == run)
  {
    var b := BeforeCheck(t, req, now, fault);
    HandleChecks(t, req, now, fault);
    BeforeCheckFacts(t, req, now, fault);
    if Ends(t, req) && Checks(req, fault) {
      CheckFinishesIff(b, t.stops[StopOf(req)].run, StopOf(req), run);
    }
    if !AllTerminal(t, run) && AllTerminal(b, run) {
      var s :| s in t.stops && t.stops[s].run == run && !Terminal(t.stops[s].status);
      assert Terminal(b.stops[s].status);
      assert s == StopOf(req);
    }
  }

  /** The request that makes the last open stop of a run terminal leaves the run finished, unless it is a
      skip that breaks down after its commit. */
  lemma LastStopFinishesRunIff(t: Tables, req: Request, now: int, fault: Fault, run: RunId)
    requires run in t.runs && !Concluded(t, run)
    requires !AllTerminal(t, run) && AllTerminal(Handle(t, req, now, fault).0, run)
    ensures Concluded(Handle(t, req, now, fault).0, run) <==> !(req.Skip? && fault != NoFault)
  {
    RunAfter(t, req, now, fault, run);
  }

  // -- A run that was never checked ------------------------------------------------------------------

  /** All stops have ended, but the run has not. */
  ghost predicate Stuck(t: Tables, run: RunId) {
    && run in t.runs && !Concluded(t, run) && AllTerminal(t, run)
    && exists s :: s in t.stops && t.stops[s].run == run
  }

  /** Breaking down after the commit of the last skip leaves the run stuck. */
  lemma FaultAfterLastSkipSticks(t: Tables, stop: StopId, hazards: seq<string>, now: int, fault: Fault)
    requires SkipRejection(t, stop, hazards).None? && fault != NoFault
    requires t.stops[stop].run in t.runs && !Concluded(t, t.stops[stop].run)
    requires forall s :: s in t.stops && s != stop && t.stops[s].run == t.stops[stop].run ==> Terminal(t.stops[s].status)
    ensures Stuck(Handle(t, Skip(stop, hazards), now, fault).0, t.stops[stop].run)
  {
    var req, run := Skip(stop, hazards), t.stops[stop].run;
    RunAfter(t, req, now, fault, run);
    BeforeCheckFacts(t, req, now, fault);
    assert StopOf(req) == stop;
  }

  /** Sending a skip again does not help: a skipped stop rejects it and nothing changes. */
  lemma RetriedSkipChangesNothing(t: Tables, stop: StopId, hazards: seq<string>, now: int, fault: Fault)
    requires stop in t.stops && t.stops[stop].status == Skipped
    ensures Handle(t, Skip(stop, hazards), now, fault).0 == t
    ensures hazards != [] && CountPhotos(t, stop, Some(SAFETY)) > 0 ==>
      Handle(t, Skip(stop, hazards), now, fault).1 == Rejected(OfflineActions.ALREADY_SKIPPED)
  {
  }

  /** What the server may be asked: a request about a stop, or `startRouteRun` and `finishRouteRun`, which set
      the status of a run by hand. */
  datatype Call = Call(req: Request, now: int, fault: Fault) | ByHand(run: RunId, status: RunStatus)

  function Serve(t: Tables, c: Call): Tables {
    match c
    case Call(req, now, fault) => Handle(t, req, now, fault).0
    case ByHand(run, status) => SetRun(t, run, status)
  }

  function ServeAll(t: Tables, calls: seq<Call>): Tables
    decreases |calls|
  {
    if calls == [] then t else ServeAll(Serve(t, calls[0]), calls[1..])
  }

  /** A completion of a stop of the run is accepted, or the run is concluded by hand. */
  predicate Frees(t: Tables, c: Call, run: RunId) {
    match c
    case Call(req, _, _) => req.Complete? && Ends(t, req) && req.stop in t.stops && t.stops[req.stop].run == run
    case ByHand(r, status) => r == run && (status == Finished || status == RunCompleted)
  }

  predicate Reopens(c: Call, run: RunId) {
    c.ByHand? && c.run == run && c.status != Finished && c.status != RunCompleted
  }

  predicate NeverReopened(calls: seq<Call>, run: RunId) {
    forall c :: c in calls ==> !Reopens(c, run)
  }

  /** Some call frees the run, and no later one reopens it. */
  predicate FreedForGood(t: Tables, calls: seq<Call>, run: RunId)
    decreases |calls|
  {
    calls != [] &&
    ((Frees(t, calls[0], run) && NeverReopened(calls[1..], run)) || FreedForGood(Serve(t, calls[0]), calls[1..], run))
  }

  /** All stops of the run, of which there is one, have ended. */
  ghost predicate AllEnded(t: Tables, run: RunId) {
    run in t.runs && AllTerminal(t, run) && exists s :: s in t.stops && t.stops[s].run == run
  }

  lemma RequestOnEnded(t: Tables, c: Call, run: RunId)
    requires AllEnded(t, run) && c.Call?
    ensures AllEnded(Serve(t, c), run)
    ensures Concluded(Serve(t, c), run) <==> Concluded(t, run) || Frees(t, c, run)
    ensures Frees(t, c, run) ==> t.stops[c.req.stop].status == Skipped
  {
    RunAfter(t, c.req, c.now, c.fault, run);
    var s :| s in t.stops && t.stops[s].run == run;
    assert s in Serve(t, c).stops;
    if Ends(t, c.req) && c.req.Skip? {
      assert t.stops[c.req.stop].run != run;
    }
  }

  /** One call concludes a run whose stops have all ended exactly when it frees it, or the run was concluded
      and is not reopened. */
  lemma CallOnEnded(t: Tables, c: Call, run: RunId)
    requires AllEnded(t, run)
    ensures AllEnded(Serve(t, c), run)
    ensures Concluded(Serve(t, c), run) <==> Frees(t, c, run) || (Concluded(t, run) && !Reopens(c, run))
  {
    if c.Call? {
      RequestOnEnded(t, c, run);
    }
  }

  /** What a stuck run waits for: a request frees it exactly when it completes a stop of the run that had been
      skipped. */
  lemma StuckRunIsFreedIff(t: Tables, c: Call, run: RunId)
    requires Stuck(t, run)
    ensures if Frees(t, c, run) then Concluded(Serve(t, c), run) else Stuck(Serve(t, c), run)
    ensures Frees(t, c, run) && c.Call? ==> t.stops[c.req.stop].status == Skipped
  {
    CallOnEnded(t, c, run);
    if c.Call? {
      RequestOnEnded(t, c, run);
    }
  }

  lemma {:induction false} EndedRunIsConcludedIff(t: Tables, calls: seq<Call>, run: RunId)
    requires AllEnded(t, run)
    ensures Concluded(ServeAll(t, calls), run)
      <==> (Concluded(t, run) && NeverReopened(calls, run)) || FreedForGood(t, calls, run)
    decreases |calls|
  {
    if calls != [] {
      CallOnEnded(t, calls[0], run);
      EndedRunIsConcludedIff(Serve(t, calls[0]), calls[1..], run);
      assert NeverReopened(calls, run) <==> !Reopens(calls[0], run) && NeverReopened(calls[1..], run) by {
        assert forall c :: c in calls <==> c == calls[0] || c in calls[1..];
      }
    }
  }

  /** However many calls follow, retried skips included, a stuck run is concluded in the end exactly when
      one of its skipped stops is completed, or it is concluded by hand, and it is not reopened afterwards. */
  lemma StuckRunEndsIff(t: Tables, calls: seq<Call>, run: RunId)
    requires Stuck(t, run)
    ensures Concluded(ServeAll(t, calls), run) <==> FreedForGood(t, calls, run)
  {
    EndedRunIsConcludedIff(t, calls, run);
  }
}
