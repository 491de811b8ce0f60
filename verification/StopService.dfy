/** The handlers as they run: reads and row updates one after the other on the database, each handler
    proved to take the database to the state that `StopTables.Handle` gives. */
module StopService {
  import opened Wrappers
  import opened Sequences
  import OfflineActions
  import opened StopTables

  class Database {
    var t: Tables

    constructor (tables: Tables)
      ensures t == tables
    {
      t := tables;
    }

    method EnsureVisitForRouteRunStop(stop: StopId) returns (visitId: nat)
      modifies this
      ensures t == old(t).(visits := EnsureVisit(old(t.visits), DeriveClientVisitId(stop)).0)
      ensures visitId == EnsureVisit(old(t.visits), DeriveClientVisitId(stop)).1
    {
      var clientVisitId := DeriveClientVisitId(stop);
      var existing := FindIndex(t.visits, VisitOf(clientVisitId));
      if existing.Some? {
        return t.visits[existing.value].id;
      }
      visitId := |t.visits|;
      t := t.(visits := t.visits + [VisitRow(visitId, clientVisitId, None, None, None)]);
    }

    /** One UPDATE over all rows of the visit that are still open. */
    method CloseVisitForRouteRunStop(stop: StopId, outcome: string, reason: Option<string>, now: int)
      modifies this
      ensures t == old(t).(visits := CloseVisit(old(t.visits), DeriveClientVisitId(stop), outcome, reason, now))
    {
      var id := DeriveClientVisitId(stop);
      var rows := t.visits;
      var closed: seq<VisitRow> := [];
      for k := 0 to |rows|
        invariant t == old(t)
        invariant |closed| == k && forall i :: 0 <= i < k ==> closed[i] == CloseRow(rows[i], id, outcome, reason, now)
      {
        var v := rows[k];
        if v.clientVisitId == id && v.endedAt.None? {
          v := v.(endedAt := Some(now), outcome := Coalesce(v.outcome, Some(outcome)), reasonCode := Coalesce(v.reasonCode, reason));
        }
        closed := closed + [v];
      }
      CloseVisitAt(rows, id, outcome, reason, now);
      assert closed == CloseVisit(rows, id, outcome, reason, now);
      t := t.(visits := closed);
    }

    method CreateStopPhotos(stop: StopId, kind: string, photos: seq<string>)
      modifies this
      ensures t == CreatePhotos(old(t), stop, kind, photos)
    {
      var visit := FindIndex(t.visits, VisitOf(DeriveClientVisitId(stop)));
      ghost var rows: seq<EvidenceRow> := [];
      for k := 0 to |photos|
        invariant visit.Some? ==> visit == FindIndex(old(t.visits), VisitOf(DeriveClientVisitId(stop)))
        invariant visit.Some? ==> rows + EvidenceRows(old(t.visits)[visit.value].id, kind, photos[k..])
                                  == EvidenceRows(old(t.visits)[visit.value].id, kind, photos)
        invariant t == if visit.Some? then old(t).(evidence := old(t.evidence) + rows) else old(t)
      {
        assert photos[k..][0] == photos[k] && photos[k..][1..] == photos[k + 1..];
        if visit.Some? {
          var row := EvidenceRow(t.visits[visit.value].id, kind, photos[k]);
          t := t.(evidence := t.evidence + [row]);
          rows := rows + [row];
        }
      }
      assert visit.Some? ==> rows == EvidenceRows(old(t.visits)[visit.value].id, kind, photos);
    }

    method CheckAndCompleteRouteRun(run: RunId)
      modifies this
      ensures t == CheckRun(old(t), run)
    {
      var pending := |OpenStops(t, run)|;
      var completed := |TerminalStops(t, run)|;
      if pending == 0 && completed > 0 {
        if run in t.runs && t.runs[run] != Finished && t.runs[run] != RunCompleted {
          t := t.(runs := t.runs[run := Finished]);
        }
      }
    }

    method UpdateStopStatus(stop: StopId, status: StopStatus)
      requires stop in t.stops
      modifies this
      ensures t == SetStopStatus(old(t), stop, status)
    {
      t := t.(stops := t.stops[stop := t.stops[stop].(status := status)]);
    }

    method EmitObservations(visitId: nat, source: BatchSource)
      modifies this
      ensures t == old(t).(batches := old(t.batches) + [BatchRow(visitId, source)])
    {
      t := t.(batches := t.batches + [BatchRow(visitId, source)]);
    }

    method StartRouteRunStop(stop: StopId) returns (response: Response)
      modifies this
      ensures (t, response) == HandleStart(old(t), stop)
    {
      if stop in t.stops && t.stops[stop].status == NotStarted {
        UpdateStopStatus(stop, InProgress);
        var _ := EnsureVisitForRouteRunStop(stop);
        return Accepted;
      }
      if stop !in t.stops {
        return Rejected(STOP_NOT_FOUND);
      }
      if t.stops[stop].status == InProgress {
        return Accepted;
      }
      return Rejected(CONFLICT);
    }

    method SkipWithHazard(stop: StopId, hazards: seq<string>, now: int, fault: Fault) returns (response: Response)
      modifies this
      ensures (t, response) == HandleSkip(old(t), stop, hazards, now, fault)
    {
      var photoCount := CountPhotos(t, stop, Some(SAFETY));
      if photoCount == 0 {
        return Rejected(SAFETY_PHOTO_REQUIRED);
      }
      if |hazards| == 0 {
        return Rejected(HAZARD_REQUIRED);
      }
      if stop !in t.stops {
        return Rejected(OfflineActions.ROUTE_NOT_FOUND);
      }
      var row := t.stops[stop];
      if row.status == Skipped {
        return Rejected(OfflineActions.ALREADY_SKIPPED);
      }
      if row.status != NotStarted && row.status != InProgress {
        return Rejected(NOT_SKIPPABLE);
      }
      UpdateStopStatus(stop, Skipped);
      var visitId := EnsureVisitForRouteRunStop(stop);
      CloseVisitForRouteRunStop(stop, OUTCOME_SKIPPED, Some(hazards[0]), now);
      assert t == SkipCommit(old(t), stop, hazards, now).0;
      if fault == BeforeObservations {
        return Rejected(SERVER_ERROR);
      }
      EmitObservations(visitId, FromSkip);
      if fault == BeforeRunCheck {
        return Rejected(SERVER_ERROR);
      }
      CheckAndCompleteRouteRun(row.run);
      return Accepted;
    }

    /** `completeStop`: `None` when the stop is unknown, otherwise the rejection or the acceptance. */
    method CompleteStop(stop: StopId, now: int) returns (response: Option<Response>)
      modifies this
      ensures response == if stop !in old(t.stops) then None
                          else if old(t.stops)[stop].status == Done then Some(Rejected(OfflineActions.ALREADY_COMPLETE))
                          else Some(Accepted)
      ensures t == if response == Some(Accepted) then CompleteCommit(old(t), stop, now) else old(t)
    {
      if stop !in t.stops {
        return None;
      }
      var row := t.stops[stop];
      if row.status == Done {
        return Some(Rejected(OfflineActions.ALREADY_COMPLETE));
      }
      var visitId := EnsureVisitForRouteRunStop(stop);
      UpdateStopStatus(stop, Done);
      CloseVisitForRouteRunStop(stop, OUTCOME_COMPLETED, None, now);
      EmitObservations(visitId, FromCompletion);
      CheckAndCompleteRouteRun(row.run);
      return Some(Accepted);
    }

    method CompleteWithReport(stop: StopId, r: OfflineActions.Report, now: int) returns (response: Response)
      modifies this
      ensures (t, response) == HandleComplete(old(t), stop, r, now)
    {
      var hasPhotos := r.photoKeys;
      if !hasPhotos {
        var count := CountPhotos(t, stop, None);
        hasPhotos := count > 0;
      }
      if !hasPhotos {
        return Rejected(AFTER_PHOTO_REQUIRED);
      }
      if !r.cleaned && !r.spotCheck {
        return Rejected(CLEANING_REQUIRED);
      }
      if r.cleaned {
        if r.trashVolume.None? {
          return Rejected(VOLUME_REQUIRED);
        }
        if r.trashVolume.value < 0 || r.trashVolume.value > 4 {
          return Rejected(VOLUME_OUT_OF_RANGE);
        }
      }
      var result := CompleteStop(stop, now);
      if result.None? {
        return Rejected(OfflineActions.ROUTE_NOT_FOUND);
      }
      return result.value;
    }

    /** `startRouteRun` and `finishRouteRun` set the status of a run unconditionally. */
    method SetRouteRun(run: RunId, status: RunStatus) returns (found: bool)
      modifies this
      ensures found <==> run in old(t.runs)
      ensures t == SetRun(old(t), run, status)
    {
      found := run in t.runs;
      if found {
        t := t.(runs := t.runs[run := status]);
      }
    }
  }
}
