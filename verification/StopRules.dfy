/** The rules of the server's requests, in the fields of the tables: when a request is accepted, what it
    answers otherwise, and what it writes. */
module StopRules {
  import opened Wrappers
  import opened Sequences
  import OfflineActions
  import opened StopTables
  import opened StopViews

  // -- Rows of a stop --------------------------------------------------------------------------------

  ghost predicate HasVisit(visits: seq<VisitRow>, stop: StopId) {
    exists k :: 0 <= k < |visits| && visits[k].clientVisitId == RouteRunStopVisit(stop)
  }

  ghost predicate IsPhotoOf(t: Tables, stop: StopId, k: int, e: EvidenceRow) {
    0 <= k < |t.visits| && t.visits[k].clientVisitId == RouteRunStopVisit(stop) && e in t.evidence && e.visitId == t.visits[k].id
  }

  ghost predicate HasPhoto(t: Tables, stop: StopId) {
    exists k, e :: IsPhotoOf(t, stop, k, e)
  }

  ghost predicate HasSafetyPhoto(t: Tables, stop: StopId) {
    exists k, e :: IsPhotoOf(t, stop, k, e) && e.kind == "safety"
  }

  /** A stop without a visit gets one that is open; otherwise the visits stay as they are. */
  ghost predicate Opened(visits: seq<VisitRow>, ensured: seq<VisitRow>, stop: StopId) {
    && (HasVisit(visits, stop) ==> ensured == visits)
    && (!HasVisit(visits, stop) ==> ensured == visits + [VisitRow(|visits|, RouteRunStopVisit(stop), None, None, None)])
  }

  /** An open visit of the stop is ended; its outcome and reason are filled in where they are missing. */
  ghost predicate ClosedRow(v: VisitRow, w: VisitRow, stop: StopId, outcome: string, reason: Option<string>, now: int) {
    if v.clientVisitId != RouteRunStopVisit(stop) || v.endedAt.Some? then w == v
    else
      && w.id == v.id && w.clientVisitId == v.clientVisitId && w.endedAt == Some(now)
      && w.outcome == (if v.outcome == None then Some(outcome) else v.outcome)
      && w.reasonCode == (if v.reasonCode == None then reason else v.reasonCode)
  }

  ghost predicate ClosedVisits(ensured: seq<VisitRow>, closed: seq<VisitRow>, stop: StopId, outcome: string,
                               reason: Option<string>, now: int) {
    |closed| == |ensured| && forall k :: 0 <= k < |ensured| ==> ClosedRow(ensured[k], closed[k], stop, outcome, reason, now)
  }

  /** The visits after a stop has ended: opened if need be, then closed. */
  ghost predicate EndedVisits(visits: seq<VisitRow>, after: seq<VisitRow>, stop: StopId, outcome: string,
                              reason: Option<string>, now: int) {
    exists ensured :: Opened(visits, ensured, stop) && ClosedVisits(ensured, after, stop, outcome, reason, now)
  }

  /** One more batch, filed under the stop's visit. */
  ghost predicate OneMoreBatch(t: Tables, after: Tables, stop: StopId, source: BatchSource) {
    exists k :: 0 <= k < |after.visits| && after.visits[k].clientVisitId == RouteRunStopVisit(stop)
      && after.batches == t.batches + [BatchRow(after.visits[k].id, source)]
  }

  /** The run of a stop that has just ended is finished when no other stop of it is open. */
  ghost predicate RunChecked(t: Tables, after: Tables, run: RunId) {
    if run in t.runs && t.runs[run] != Finished && t.runs[run] != RunCompleted
       && forall s :: s in after.stops && after.stops[s].run == run ==> after.stops[s].status == Done || after.stops[s].status == Skipped
    then after.runs == t.runs[run := Finished]
    else after.runs == t.runs
  }

  // -- Building blocks -------------------------------------------------------------------------------

  lemma EnsureOpens(visits: seq<VisitRow>, stop: StopId)
    ensures var (ensured, id) := EnsureVisit(visits, DeriveClientVisitId(stop));
      && Opened(visits, ensured, stop)
      && exists k :: 0 <= k < |ensured| && ensured[k].clientVisitId == RouteRunStopVisit(stop) && ensured[k].id == id
  {
    var f := FindIndex(visits, VisitOf(DeriveClientVisitId(stop)));
    if f.Some? {
      assert visits[f.value].clientVisitId == RouteRunStopVisit(stop);
    } else {
      assert (visits + [VisitRow(|visits|, RouteRunStopVisit(stop), None, None, None)])[|visits|].id == |visits|;
    }
  }

  lemma CloseCloses(ensured: seq<VisitRow>, stop: StopId, outcome: string, reason: Option<string>, now: int)
    ensures ClosedVisits(ensured, CloseVisit(ensured, DeriveClientVisitId(stop), outcome, reason, now), stop, outcome, reason, now)
  {
    CloseVisitAt(ensured, DeriveClientVisitId(stop), outcome, reason, now);
  }

  /** The visit part of a completion or a skip. */
  lemma EndsVisit(visits: seq<VisitRow>, stop: StopId, outcome: string, reason: Option<string>, now: int)
    ensures var (ensured, id) := EnsureVisit(visits, DeriveClientVisitId(stop));
      var after := CloseVisit(ensured, DeriveClientVisitId(stop), outcome, reason, now);
      && EndedVisits(visits, after, stop, outcome, reason, now)
      && exists k :: 0 <= k < |after| && after[k].clientVisitId == RouteRunStopVisit(stop) && after[k].id == id
  {
    var (ensured, id) := EnsureVisit(visits, DeriveClientVisitId(stop));
    var after := CloseVisit(ensured, DeriveClientVisitId(stop), outcome, reason, now);
    EnsureOpens(visits, stop);
    CloseCloses(ensured, stop, outcome, reason, now);
    var k :| 0 <= k < |ensured| && ensured[k].clientVisitId == RouteRunStopVisit(stop) && ensured[k].id == id;
    assert ClosedRow(ensured[k], after[k], stop, outcome, reason, now);
  }

  lemma FilterIsEmptyIff<E(!new)>(s: seq<E>, keep: E -> bool)
    ensures |Filter(s, keep)| == 0 <==> forall e :: e in s ==> !keep(e)
  {
    FilterMembers(s, keep);
    if |Filter(s, keep)| > 0 {
      assert Filter(s, keep)[0] in s;
    }
  }

  lemma CountsPhotos(t: Tables, stop: StopId, kind: Option<string>)
    requires WellFormed(t)
    ensures CountPhotos(t, stop, kind) == 0 <==>
      forall k, e :: IsPhotoOf(t, stop, k, e) ==> kind.Some? && e.kind != kind.value
  {
    var f := FindIndex(t.visits, VisitOf(DeriveClientVisitId(stop)));
    if f.Some? {
      FilterIsEmptyIff(t.evidence, OfVisit(t.visits[f.value].id, kind));
      forall k, e | IsPhotoOf(t, stop, k, e) ensures k == f.value && OfVisit(t.visits[f.value].id, None)(e) {
        assert t.visits[k].clientVisitId == t.visits[f.value].clientVisitId;
      }
      forall e | e in t.evidence && OfVisit(t.visits[f.value].id, kind)(e) ensures IsPhotoOf(t, stop, f.value, e) {
      }
    }
  }

  lemma HasPhotoIff(t: Tables, stop: StopId)
    requires WellFormed(t)
    ensures CountPhotos(t, stop, None) > 0 <==> HasPhoto(t, stop)
    ensures CountPhotos(t, stop, Some(SAFETY)) > 0 <==> HasSafetyPhoto(t, stop)
  {
    CountsPhotos(t, stop, None);
    CountsPhotos(t, stop, Some(SAFETY));
  }

  lemma ChecksRun(t: Tables, run: RunId, stop: StopId)
    requires stop in t.stops && t.stops[stop].run == run && (t.stops[stop].status == Done || t.stops[stop].status == Skipped)
    ensures var after := CheckRun(t, run);
      && after == t.(runs := after.runs)
      && RunChecked(t, after, run)
  {
    assert stop in TerminalStops(t, run);
    if OpenStops(t, run) == {} {
      forall s | s in t.stops && t.stops[s].run == run ensures t.stops[s].status == Done || t.stops[s].status == Skipped {
        assert s !in OpenStops(t, run);
      }
    }
  }

  // -- Start -----------------------------------------------------------------------------------------

  /** A start is accepted exactly when the stop exists and has not ended. A rejected one changes nothing. */
  lemma StartAnswers(t: Tables, stop: StopId, now: int, fault: Fault)
    ensures var (after, response) := Handle(t, Start(stop), now, fault);
      && (response == Accepted <==> stop in t.stops && t.stops[stop].status != Done && t.stops[stop].status != Skipped)
      && (stop !in t.stops ==> response == Rejected("Route run stop not found"))
      && (stop in t.stops && response != Accepted ==> response == Rejected("CONFLICT"))
      && (response != Accepted ==> after == t)
  {
  }

  /** An accepted start leaves the stop in progress, with a visit if it was not in progress before, and
      changes nothing else. */
  lemma StartWrites(t: Tables, stop: StopId, now: int, fault: Fault)
    requires Handle(t, Start(stop), now, fault).1 == Accepted
    ensures var after := Handle(t, Start(stop), now, fault).0;
      && stop in t.stops && after.stops == t.stops[stop := StopRow(t.stops[stop].run, InProgress)]
      && (t.stops[stop].status == NotStarted ==> Opened(t.visits, after.visits, stop) && HasVisit(after.visits, stop))
      && (t.stops[stop].status != NotStarted ==> after.visits == t.visits)
      && after.evidence == t.evidence && after.batches == t.batches && after.runs == t.runs
  {
    EnsureOpens(t.visits, stop);
  }

  /** So in every committed state a started stop has a visit. */
  lemma StartedStopHasVisit(t: Tables, stop: StopId, now: int, fault: Fault)
    requires LawfulTables(t) && Handle(t, Start(stop), now, fault).1 == Accepted
    ensures HasVisit(Handle(t, Start(stop), now, fault).0.visits, stop)
  {
    StartWrites(t, stop, now, fault);
    if t.stops[stop].status != NotStarted {
      assert Lawful(ViewOf(t, stop));
      assert VisitIndex(t, stop).Some?;
    }
  }

  // -- Upload ----------------------------------------------------------------------------------------

  lemma {:induction false} EvidenceRowsAt(visitId: nat, kind: string, photos: seq<string>, k: nat)
    ensures |EvidenceRows(visitId, kind, photos)| == |photos|
    ensures k < |photos| ==> EvidenceRows(visitId, kind, photos)[k] == EvidenceRow(visitId, kind, photos[k])
  {
    if photos != [] {
      EvidenceRowsAt(visitId, kind, photos[1..], if k == 0 then 0 else k - 1);
    }
  }

  /** The rows added to the evidence: one per photo, in order. */
  ghost predicate PhotosAdded(evidence: seq<EvidenceRow>, after: seq<EvidenceRow>, visitId: nat, kind: string, photos: seq<string>) {
    && |after| == |evidence| + |photos| && after[..|evidence|] == evidence
    && forall k :: 0 <= k < |photos| ==> after[|evidence| + k] == EvidenceRow(visitId, kind, photos[k])
  }

  /** An upload is always accepted. Its photos are recorded under the visit of the stop, and lost without one;
      nothing else changes. */
  lemma UploadWrites(t: Tables, stop: StopId, kind: string, photos: seq<string>, now: int, fault: Fault)
    requires WellFormed(t)
    ensures var (after, response) := Handle(t, Upload(stop, kind, photos), now, fault);
      && response == Accepted
      && after == t.(evidence := after.evidence)
      && (forall k :: 0 <= k < |t.visits| && t.visits[k].clientVisitId == RouteRunStopVisit(stop) ==>
           PhotosAdded(t.evidence, after.evidence, t.visits[k].id, kind, photos))
      && (!HasVisit(t.visits, stop) ==> after.evidence == t.evidence)
  {
    var f := FindIndex(t.visits, VisitOf(DeriveClientVisitId(stop)));
    if f.Some? {
      forall k | 0 <= k < |photos| ensures
          |EvidenceRows(t.visits[f.value].id, kind, photos)| == |photos|
          && EvidenceRows(t.visits[f.value].id, kind, photos)[k] == EvidenceRow(t.visits[f.value].id, kind, photos[k]) {
        EvidenceRowsAt(t.visits[f.value].id, kind, photos, k);
      }
      EvidenceRowsAt(t.visits[f.value].id, kind, photos, 0);
      assert t.visits[f.value].clientVisitId == RouteRunStopVisit(stop);
    }
  }

  // -- Completion ------------------------------------------------------------------------------------

  /** A completion is accepted exactly when the stop exists and is not done, a photo was sent along or is
      recorded, and the report either ticks a cleaning with a trash volume of 0 to 4 or is a spot check. */
  lemma CompletionAnswers(t: Tables, stop: StopId, r: OfflineActions.Report, now: int, fault: Fault)
    requires WellFormed(t)
    ensures var (after, response) := Handle(t, Complete(stop, r), now, fault);
      && (response == Accepted <==>
            && stop in t.stops && t.stops[stop].status != Done
            && (r.photoKeys || HasPhoto(t, stop))
            && if r.cleaned then r.trashVolume.Some? && 0 <= r.trashVolume.value <= 4 else r.spotCheck)
      && (response != Accepted ==> after == t)
  {
    HasPhotoIff(t, stop);
  }

  /** What a rejected completion is told, in the order in which the handler checks. */
  lemma CompletionIsTold(t: Tables, stop: StopId, r: OfflineActions.Report, now: int, fault: Fault)
    requires WellFormed(t)
    ensures var response := Handle(t, Complete(stop, r), now, fault).1;
      if !r.photoKeys && !HasPhoto(t, stop) then response == Rejected("After photo is required to complete a stop")
      else if !r.cleaned && !r.spotCheck then response == Rejected("Stop completion requires " + "a cleaning action or a spot check")
      else if r.cleaned && r.trashVolume.None? then response == Rejected("trashVolume is required")
      else if r.cleaned && (r.trashVolume.value < 0 || r.trashVolume.value > 4)
        then response == Rejected("trashVolume must be " + "an integer between 0 and 4")
      else if stop !in t.stops then response == Rejected("ROUTE_NOT_FOUND")
      else if t.stops[stop].status == Done then response == Rejected("ALREADY_COMPLETE")
      else response == Accepted
  {
    HasPhotoIff(t, stop);
  }

  /** An accepted completion leaves the stop done and its visit ended as completed, writes one batch for the
      visit, and finishes the run when no stop of it is open any more. */
  lemma CompletionWrites(t: Tables, stop: StopId, r: OfflineActions.Report, now: int, fault: Fault)
    requires Handle(t, Complete(stop, r), now, fault).1 == Accepted
    ensures var after := Handle(t, Complete(stop, r), now, fault).0;
      && stop in t.stops && after.stops == t.stops[stop := StopRow(t.stops[stop].run, Done)]
      && EndedVisits(t.visits, after.visits, stop, "completed", None, now)
      && OneMoreBatch(t, after, stop, FromCompletion)
      && after.evidence == t.evidence
      && RunChecked(t, after, t.stops[stop].run)
  {
    var (ensured, id) := EnsureVisit(t.visits, DeriveClientVisitId(stop));
    EndsVisit(t.visits, stop, OUTCOME_COMPLETED, None, now);
    var closed := SetStopStatus(t, stop, Done).(visits := CloseVisit(ensured, DeriveClientVisitId(stop), OUTCOME_COMPLETED, None, now));
    ChecksRun(closed.(batches := closed.batches + [BatchRow(id, FromCompletion)]), t.stops[stop].run, stop);
  }

  // -- Skip ------------------------------------------------------------------------------------------

  /** A skip is taken up exactly when a safety photo is recorded, a hazard is named, and the stop exists and
      has not ended. It is accepted when nothing breaks down afterwards; one that is not taken up changes
      nothing. */
  lemma SkipAnswers(t: Tables, stop: StopId, hazards: seq<string>, now: int, fault: Fault)
    requires WellFormed(t)
    ensures var (after, response) := Handle(t, Skip(stop, hazards), now, fault);
      if HasSafetyPhoto(t, stop) && hazards != [] && stop in t.stops
         && t.stops[stop].status != Done && t.stops[stop].status != Skipped
      then response == if fault == NoFault then Accepted else Rejected("Internal server error")
      else response != Accepted && response != Rejected("Internal server error") && after == t
  {
    HasPhotoIff(t, stop);
  }

  /** What a skip that is not taken up is told, in the order in which the handler checks. */
  lemma SkipIsTold(t: Tables, stop: StopId, hazards: seq<string>, now: int, fault: Fault)
    requires WellFormed(t)
    ensures var response := Handle(t, Skip(stop, hazards), now, fault).1;
      if !HasSafetyPhoto(t, stop) then response == Rejected("A " + "safety photo" + " is required to skip a stop")
      else if hazards == [] then response == Rejected("At least one safety hazard " + "must be selected to skip a stop")
      else if stop !in t.stops then response == Rejected("ROUTE_NOT_FOUND")
      else if t.stops[stop].status == Skipped then response == Rejected("ALREADY_SKIPPED")
      else if t.stops[stop].status == Done then response == Rejected("Cannot skip stop in status 'done'")
      else response.Accepted? || response.code == "Internal server error"
  {
    HasPhotoIff(t, stop);
  }

  /** A skip that is taken up leaves the stop skipped and its visit ended as skipped for the first hazard. It
      writes one batch unless it breaks down before that, and checks the run unless it breaks down at all. */
  lemma SkipWrites(t: Tables, stop: StopId, hazards: seq<string>, now: int, fault: Fault)
    requires Handle(t, Skip(stop, hazards), now, NoFault).1 == Accepted
    ensures var after := Handle(t, Skip(stop, hazards), now, fault).0;
      && hazards != [] && stop in t.stops && after.stops == t.stops[stop := StopRow(t.stops[stop].run, Skipped)]
      && EndedVisits(t.visits, after.visits, stop, "skipped", Some(hazards[0]), now)
      && (fault == BeforeObservations ==> after.batches == t.batches)
      && (fault != BeforeObservations ==> OneMoreBatch(t, after, stop, FromSkip))
      && after.evidence == t.evidence
      && (fault == NoFault ==> RunChecked(t, after, t.stops[stop].run))
      && (fault != NoFault ==> after.runs == t.runs)
  {
    EndsVisit(t.visits, stop, OUTCOME_SKIPPED, Some(hazards[0]), now);
    var (committed, id) := SkipCommit(t, stop, hazards, now);
    ChecksRun(WithSkipBatch(committed, id), t.stops[stop].run, stop);
  }

  // -- Runs by hand ----------------------------------------------------------------------------------

  /** Setting the status of a run by hand sets it, and nothing else; a run that does not exist is not made. */
  lemma ByHandWrites(t: Tables, run: RunId, status: RunStatus)
    ensures SetRun(t, run, status) == Tables(t.stops, t.visits, t.evidence, t.batches,
      if run in t.runs then t.runs[run := status] else t.runs)
  {
  }
}
