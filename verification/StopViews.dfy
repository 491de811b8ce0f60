/** The tables as one small state machine per stop: what a stop's rows look like together, how a request
    changes that, and the laws every stop keeps. */
module StopViews {
  import opened Wrappers
  import opened Sequences
  import OfflineActions
  import opened StopTables

  datatype VisitView = VisitView(endedAt: Option<int>, outcome: Option<string>, reasonCode: Option<string>)

  type Photo = (string, string)

  datatype View = View(
    status: Option<StopStatus>,
    visit: Option<VisitView>,
    photos: seq<Photo>,
    completions: nat,
    skips: nat)

  // -- Requests on a view ----------------------------------------------------------------------------

  function OpenVisit(v: Option<VisitView>): VisitView {
    v.GetOr(VisitView(None, None, None))
  }

  function Closed(v: VisitView, outcome: string, reason: Option<string>, now: int): VisitView {
    if v.endedAt.Some? then v
    else VisitView(Some(now), Coalesce(v.outcome, Some(outcome)), Coalesce(v.reasonCode, reason))
  }

  function Photos(kind: string, ids: seq<string>): seq<Photo> {
    if ids == [] then [] else [(kind, ids[0])] + Photos(kind, ids[1..])
  }

  function OfKind(kind: Option<string>): Photo -> bool {
    (p: Photo) => kind.Some? ==> p.0 == kind.value
  }

  function ViewSkipRejection(v: View, hazards: seq<string>): Option<string> {
    if Filter(v.photos, OfKind(Some(SAFETY))) == [] then Some(SAFETY_PHOTO_REQUIRED)
    else if hazards == [] then Some(HAZARD_REQUIRED)
    else match v.status
      case None => Some(OfflineActions.ROUTE_NOT_FOUND)
      case Some(Skipped) => Some(OfflineActions.ALREADY_SKIPPED)
      case Some(Done) => Some(NOT_SKIPPABLE)
      case _ => None
  }

  function ViewCompleteRejection(v: View, r: OfflineActions.Report): Option<string> {
    if !r.photoKeys && v.photos == [] then Some(AFTER_PHOTO_REQUIRED)
    else if ReportRejection(r).Some? then ReportRejection(r)
    else match v.status
      case None => Some(OfflineActions.ROUTE_NOT_FOUND)
      case Some(Done) => Some(OfflineActions.ALREADY_COMPLETE)
      case _ => None
  }

  /** A skip that is taken up closes the visit and writes its observations, unless it breaks down first. */
  function SkippedView(v: View, hazard: string, now: int, fault: Fault): View {
    var w := v.(status := Some(Skipped), visit := Some(Closed(OpenVisit(v.visit), OUTCOME_SKIPPED, Some(hazard), now)));
    if fault == BeforeObservations then w else w.(skips := w.skips + 1)
  }

  function StepView(v: View, req: Request, now: int, fault: Fault): (View, Response) {
    match req
    case Start(_) =>
      (match v.status
       case None => (v, Rejected(STOP_NOT_FOUND))
       case Some(NotStarted) => (v.(status := Some(InProgress), visit := Some(OpenVisit(v.visit))), Accepted)
       case Some(InProgress) => (v, Accepted)
       case _ => (v, Rejected(CONFLICT)))
    case Upload(_, kind, ids) =>
      (if v.visit.Some? then v.(photos := v.photos + Photos(kind, ids)) else v, Accepted)
    case Skip(_, hazards) =>
      (match ViewSkipRejection(v, hazards)
       case Some(code) => (v, Rejected(code))
       case None =>
         (if hazards == [] then v else SkippedView(v, hazards[0], now, fault),
          if fault == NoFault then Accepted else Rejected(SERVER_ERROR)))
    case Complete(_, r) =>
      (match ViewCompleteRejection(v, r)
       case Some(code) => (v, Rejected(code))
       case None =>
         (v.(status := Some(Done), completions := v.completions + 1,
             visit := Some(Closed(OpenVisit(v.visit), OUTCOME_COMPLETED, None, now))), Accepted))
  }

  // -- The view of a stop in the tables --------------------------------------------------------------

  ghost predicate WellFormed(t: Tables) {
    && (forall k :: 0 <= k < |t.visits| ==> t.visits[k].id == k)
    && (forall j, k :: 0 <= j < k < |t.visits| ==> t.visits[j].clientVisitId != t.visits[k].clientVisitId)
    && (forall e :: e in t.evidence ==> e.visitId < |t.visits|)
    && (forall b :: b in t.batches ==> b.visitId < |t.visits|)
  }

  function PhotosOf(evidence: seq<EvidenceRow>, visitId: nat): seq<Photo> {
    if evidence == [] then []
    else (if evidence[0].visitId == visitId then [(evidence[0].kind, evidence[0].photo)] else []) + PhotosOf(evidence[1..], visitId)
  }

  function BatchesOf(batches: seq<BatchRow>, visitId: nat, source: BatchSource): nat {
    if batches == [] then 0
    else (if batches[0] == BatchRow(visitId, source) then 1 else 0) + BatchesOf(batches[1..], visitId, source)
  }

  function VisitIndex(t: Tables, stop: StopId): Option<nat> {
    FindIndex(t.visits, VisitOf(DeriveClientVisitId(stop)))
  }

  function StatusOf(t: Tables, stop: StopId): Option<StopStatus> {
    if stop in t.stops then Some(t.stops[stop].status) else None
  }

  function RowView(v: VisitRow): VisitView {
    VisitView(v.endedAt, v.outcome, v.reasonCode)
  }

  function ViewAt(t: Tables, status: Option<StopStatus>, k: Option<nat>): View
    requires k.Some? ==> k.value < |t.visits|
  {
    match k
    case None => View(status, None, [], 0, 0)
    case Some(i) => View(status, Some(RowView(t.visits[i])), PhotosOf(t.evidence, i),
                         BatchesOf(t.batches, i, FromCompletion), BatchesOf(t.batches, i, FromSkip))
  }

  function ViewOf(t: Tables, stop: StopId): View {
    ViewAt(t, StatusOf(t, stop), VisitIndex(t, stop))
  }

  // -- One visit per stop ----------------------------------------------------------------------------

  lemma VisitIndexIs(t: Tables, stop: StopId, k: nat)
    requires WellFormed(t) && k < |t.visits| && t.visits[k].clientVisitId == DeriveClientVisitId(stop)
    ensures VisitIndex(t, stop) == Some(k)
  {
    var f := VisitIndex(t, stop);
    assert f.Some?;
  }

  // -- Rows of one visit -----------------------------------------------------------------------------

  lemma {:induction false} PhotosOfConcat(a: seq<EvidenceRow>, b: seq<EvidenceRow>, visitId: nat)
    ensures PhotosOf(a + b, visitId) == PhotosOf(a, visitId) + PhotosOf(b, visitId)
  {
    if a == [] {
      assert a + b == b;
    } else {
      assert (a + b)[1..] == a[1..] + b;
      PhotosOfConcat(a[1..], b, visitId);
    }
  }

  lemma {:induction false} PhotosOfNew(visitId: nat, kind: string, ids: seq<string>, other: nat)
    ensures PhotosOf(EvidenceRows(visitId, kind, ids), other) == if other == visitId then Photos(kind, ids) else []
    ensures forall e :: e in EvidenceRows(visitId, kind, ids) ==> e.visitId == visitId
  {
    if ids != [] {
      PhotosOfNew(visitId, kind, ids[1..], other);
    }
  }

  lemma {:induction false} NoPhotosOf(evidence: seq<EvidenceRow>, visitId: nat)
    requires forall e :: e in evidence ==> e.visitId != visitId
    ensures PhotosOf(evidence, visitId) == []
  {
    if evidence != [] {
      assert evidence[0] in evidence;
      NoPhotosOf(evidence[1..], visitId);
    }
  }

  lemma {:induction false} BatchesOfSnoc(batches: seq<BatchRow>, b: BatchRow, visitId: nat, source: BatchSource)
    ensures BatchesOf(batches + [b], visitId, source)
      == BatchesOf(batches, visitId, source) + if b == BatchRow(visitId, source) then 1 else 0
  {
    if batches == [] {
      assert batches + [b] == [b];
    } else {
      assert (batches + [b])[1..] == batches[1..] + [b];
      BatchesOfSnoc(batches[1..], b, visitId, source);
    }
  }

  lemma {:induction false} NoBatchesOf(batches: seq<BatchRow>, visitId: nat, source: BatchSource)
    requires forall b :: b in batches ==> b.visitId != visitId
    ensures BatchesOf(batches, visitId, source) == 0
  {
    if batches != [] {
      assert batches[0] in batches;
      NoBatchesOf(batches[1..], visitId, source);
    }
  }

  lemma {:induction false} CountIsViewCount(evidence: seq<EvidenceRow>, visitId: nat, kind: Option<string>)
    ensures |Filter(evidence, OfVisit(visitId, kind))| == |Filter(PhotosOf(evidence, visitId), OfKind(kind))|
  {
    if evidence != [] {
      CountIsViewCount(evidence[1..], visitId, kind);
      var p: Photo := (evidence[0].kind, evidence[0].photo);
      assert ([p] + PhotosOf(evidence[1..], visitId))[1..] == PhotosOf(evidence[1..], visitId);
      assert [] + PhotosOf(evidence[1..], visitId) == PhotosOf(evidence[1..], visitId);
    }
  }

  lemma CountPhotosIsViewCount(t: Tables, stop: StopId, kind: Option<string>)
    requires WellFormed(t)
    ensures CountPhotos(t, stop, kind) == |Filter(ViewOf(t, stop).photos, OfKind(kind))|
    ensures kind.None? ==> CountPhotos(t, stop, kind) == |ViewOf(t, stop).photos|
  {
    var k := VisitIndex(t, stop);
    if k.Some? {
      CountIsViewCount(t.evidence, k.value, kind);
      if kind.None? {
        FilterAll(PhotosOf(t.evidence, k.value), OfKind(kind));
      }
    }
  }

  lemma RejectionsAgree(t: Tables, stop: StopId, hazards: seq<string>, r: OfflineActions.Report)
    requires WellFormed(t)
    ensures SkipRejection(t, stop, hazards) == ViewSkipRejection(ViewOf(t, stop), hazards)
    ensures CompleteRejection(t, stop, r) == ViewCompleteRejection(ViewOf(t, stop), r)
  {
    CountPhotosIsViewCount(t, stop, Some(SAFETY));
    CountPhotosIsViewCount(t, stop, None);
  }

  // -- Building blocks -------------------------------------------------------------------------------

  /** Opening the visit of `stop` gives it an open visit unless it has one, and changes no other view. */
  lemma EnsureVisitView(t: Tables, stop: StopId, s: StopId)
    requires WellFormed(t)
    ensures var (visits, visitId) := EnsureVisit(t.visits, DeriveClientVisitId(stop));
      var after := t.(visits := visits);
      && WellFormed(after) && VisitIndex(after, stop) == Some(visitId)
      && ViewOf(after, s) == if s == stop then ViewOf(t, s).(visit := Some(OpenVisit(ViewOf(t, s).visit))) else ViewOf(t, s)
  {
    var id := DeriveClientVisitId(stop);
    var (visits, visitId) := EnsureVisit(t.visits, id);
    var after := t.(visits := visits);
    if VisitIndex(t, stop).None? {
      VisitIndexIs(after, stop, |t.visits|);
      NoPhotosOf(t.evidence, |t.visits|);
      NoBatchesOf(t.batches, |t.visits|, FromCompletion);
      NoBatchesOf(t.batches, |t.visits|, FromSkip);
      if s != stop {
        OtherIndex(t, after, s, stop);
      }
    }
  }

  lemma OtherIndex(t: Tables, after: Tables, s: StopId, stop: StopId)
    requires WellFormed(t) && WellFormed(after) && s != stop
    requires |after.visits| == |t.visits| + 1 && after.visits[..|t.visits|] == t.visits
    requires after.visits[|t.visits|].clientVisitId == DeriveClientVisitId(stop)
    ensures VisitIndex(after, s) == VisitIndex(t, s)
  {
    var f, g := VisitIndex(t, s), VisitIndex(after, s);
    if f.Some? {
      assert after.visits[f.value] == t.visits[f.value];
      VisitIndexIs(after, s, f.value);
    } else {
      forall k | 0 <= k < |after.visits| ensures after.visits[k].clientVisitId != DeriveClientVisitId(s) {
        assert k < |t.visits| ==> after.visits[..|t.visits|][k] == after.visits[k];
      }
    }
  }

  /** Closing the visit of `stop` closes its visit if it is open, and changes no other view. */
  lemma CloseVisitView(t: Tables, stop: StopId, outcome: string, reason: Option<string>, now: int, s: StopId)
    requires WellFormed(t)
    ensures var after := t.(visits := CloseVisit(t.visits, DeriveClientVisitId(stop), outcome, reason, now));
      && WellFormed(after) && VisitIndex(after, stop) == VisitIndex(t, stop)
      && ViewOf(after, s) ==
           if s == stop && ViewOf(t, s).visit.Some?
           then ViewOf(t, s).(visit := Some(Closed(ViewOf(t, s).visit.value, outcome, reason, now)))
           else ViewOf(t, s)
  {
    var after := t.(visits := CloseVisit(t.visits, DeriveClientVisitId(stop), outcome, reason, now));
    CloseKeepsIndex(t, stop, outcome, reason, now, s);
    CloseKeepsIndex(t, stop, outcome, reason, now, stop);
    var k := VisitIndex(t, s);
    if k.Some? {
      ClosedRow(t, stop, outcome, reason, now, s, k.value);
    }
  }

  lemma CloseKeepsIndex(t: Tables, stop: StopId, outcome: string, reason: Option<string>, now: int, s: StopId)
    requires WellFormed(t)
    ensures var after := t.(visits := CloseVisit(t.visits, DeriveClientVisitId(stop), outcome, reason, now));
      |after.visits| == |t.visits| && WellFormed(after) && VisitIndex(after, s) == VisitIndex(t, s)
  {
    CloseVisitAt(t.visits, DeriveClientVisitId(stop), outcome, reason, now);
    SameIndex(t, t.(visits := CloseVisit(t.visits, DeriveClientVisitId(stop), outcome, reason, now)), s);
  }

  lemma ClosedRow(t: Tables, stop: StopId, outcome: string, reason: Option<string>, now: int, s: StopId, k: nat)
    requires WellFormed(t) && VisitIndex(t, s) == Some(k)
    ensures var visits := CloseVisit(t.visits, DeriveClientVisitId(stop), outcome, reason, now);
      && k < |visits| == |t.visits|
      && RowView(visits[k]) == if s == stop then Closed(RowView(t.visits[k]), outcome, reason, now) else RowView(t.visits[k])
  {
    CloseVisitAt(t.visits, DeriveClientVisitId(stop), outcome, reason, now);
  }

  lemma SameIndex(t: Tables, after: Tables, s: StopId)
    requires WellFormed(t) && |after.visits| == |t.visits|
    requires forall k :: 0 <= k < |t.visits| ==>
      after.visits[k].clientVisitId == t.visits[k].clientVisitId && after.visits[k].id == t.visits[k].id
    ensures VisitIndex(after, s) == VisitIndex(t, s)
  {
    var f, g := VisitIndex(t, s), VisitIndex(after, s);
    if f.Some? && g.Some? {
      assert t.visits[g.value].clientVisitId == t.visits[f.value].clientVisitId;
    }
  }

  lemma StatusView(t: Tables, stop: StopId, status: StopStatus, s: StopId)
    requires WellFormed(t) && stop in t.stops
    ensures WellFormed(SetStopStatus(t, stop, status))
    ensures VisitIndex(SetStopStatus(t, stop, status), s) == VisitIndex(t, s)
    ensures ViewOf(SetStopStatus(t, stop, status), s)
      == if s == stop then ViewOf(t, s).(status := Some(status)) else ViewOf(t, s)
  {
  }

  lemma BatchView(t: Tables, visitId: nat, source: BatchSource, stop: StopId, s: StopId)
    requires WellFormed(t) && VisitIndex(t, stop) == Some(visitId)
    ensures var after := t.(batches := t.batches + [BatchRow(visitId, source)]);
      && WellFormed(after)
      && ViewOf(after, s) ==
           if s != stop then ViewOf(t, s)
           else if source == FromCompletion then ViewOf(t, s).(completions := ViewOf(t, s).completions + 1)
           else ViewOf(t, s).(skips := ViewOf(t, s).skips + 1)
  {
    var k := VisitIndex(t, s);
    if k.Some? {
      BatchesOfSnoc(t.batches, BatchRow(visitId, source), k.value, FromCompletion);
      BatchesOfSnoc(t.batches, BatchRow(visitId, source), k.value, FromSkip);
      if s != stop {
        assert t.visits[k.value].clientVisitId != t.visits[visitId].clientVisitId;
      }
    }
  }

  lemma CheckRunView(t: Tables, run: RunId, s: StopId)
    requires WellFormed(t)
    ensures WellFormed(CheckRun(t, run)) && ViewOf(CheckRun(t, run), s) == ViewOf(t, s)
  {
  }

  // -- The tables refine the per-stop machines -------------------------------------------------------

  function StopOf(req: Request): StopId {
    req.stop
  }

  lemma UploadView(t: Tables, stop: StopId, kind: string, ids: seq<string>, s: StopId)
    requires WellFormed(t)
    ensures var after := CreatePhotos(t, stop, kind, ids);
      && WellFormed(after)
      && ViewOf(after, s) ==
           if s == stop && ViewOf(t, s).visit.Some? then ViewOf(t, s).(photos := ViewOf(t, s).photos + Photos(kind, ids))
           else ViewOf(t, s)
  {
    var k, i := VisitIndex(t, stop), VisitIndex(t, s);
    if k.Some? {
      PhotosOfNew(k.value, kind, ids, k.value);
      if i.Some? {
        PhotosOfConcat(t.evidence, EvidenceRows(k.value, kind, ids), i.value);
        PhotosOfNew(k.value, kind, ids, i.value);
        if s != stop {
          assert t.visits[k.value].clientVisitId != t.visits[i.value].clientVisitId;
        }
      }
    }
  }

  /** An accepted upload of some photos leaves the tables as they were exactly when the stop has no visit. */
  lemma UploadChangesNothingIff(t: Tables, stop: StopId, kind: string, ids: seq<string>)
    ensures Handle(t, Upload(stop, kind, ids), 0, NoFault).1 == Accepted
    ensures Handle(t, Upload(stop, kind, ids), 0, NoFault).0 == t <==> ids == [] || ViewOf(t, stop).visit.None?
  {
    var k := VisitIndex(t, stop);
    if k.Some? && ids != [] {
      assert |EvidenceRows(k.value, kind, ids)| > 0;
      assert |Handle(t, Upload(stop, kind, ids), 0, NoFault).0.evidence| > |t.evidence|;
    }
  }

  /** The visit part of a completion or a skip: ensured, then closed. */
  lemma TerminalView(t: Tables, stop: StopId, status: StopStatus, outcome: string, reason: Option<string>, now: int, s: StopId)
    requires WellFormed(t) && stop in t.stops
    ensures var (visits, visitId) := EnsureVisit(t.visits, DeriveClientVisitId(stop));
      var after := SetStopStatus(t, stop, status).(visits := CloseVisit(visits, DeriveClientVisitId(stop), outcome, reason, now));
      && WellFormed(after) && VisitIndex(after, stop) == Some(visitId)
      && ViewOf(after, s) ==
           if s == stop
           then ViewOf(t, s).(status := Some(status), visit := Some(Closed(OpenVisit(ViewOf(t, s).visit), outcome, reason, now)))
           else ViewOf(t, s)
  {
    var id := DeriveClientVisitId(stop);
    var (visits, visitId) := EnsureVisit(t.visits, id);
    var ensured := t.(visits := visits);
    EnsureVisitView(t, stop, s);
    CloseVisitView(ensured, stop, outcome, reason, now, s);
    var closed := ensured.(visits := CloseVisit(visits, id, outcome, reason, now));
    StatusView(closed, stop, status, s);
    StatusView(closed, stop, status, stop);
    assert SetStopStatus(closed, stop, status)
      == SetStopStatus(t, stop, status).(visits := CloseVisit(visits, id, outcome, reason, now));
  }

  /** Every request steps exactly the view of its own stop, as the per-stop machine says, with the same
      response; no other stop's view changes. */
  lemma HandleRefinesViews(t: Tables, req: Request, now: int, fault: Fault, s: StopId)
    requires WellFormed(t)
    ensures var (after, response) := Handle(t, req, now, fault);
      && WellFormed(after)
      && response == StepView(ViewOf(t, StopOf(req)), req, now, fault).1
      && ViewOf(after, s) == if s == StopOf(req) then StepView(ViewOf(t, s), req, now, fault).0 else ViewOf(t, s)
  {
    match req
    case Start(stop) => StartView(t, stop, s);
    case Upload(stop, kind, ids) => UploadView(t, stop, kind, ids, s);
    case Skip(stop, hazards) => SkipView(t, stop, hazards, now, fault, s);
    case Complete(stop, r) => CompleteView(t, stop, r, now, s);
  }

  lemma StartView(t: Tables, stop: StopId, s: StopId)
    requires WellFormed(t)
    ensures var (after, response) := HandleStart(t, stop);
      && WellFormed(after) && response == StepView(ViewOf(t, stop), Start(stop), 0, NoFault).1
      && ViewOf(after, s) == if s == stop then StepView(ViewOf(t, s), Start(stop), 0, NoFault).0 else ViewOf(t, s)
  {
    if stop in t.stops && t.stops[stop].status == NotStarted {
      EnsureVisitView(t, stop, s);
      var (visits, _) := EnsureVisit(t.visits, DeriveClientVisitId(stop));
      StatusView(t.(visits := visits), stop, InProgress, s);
      assert SetStopStatus(t.(visits := visits), stop, InProgress) == SetStopStatus(t, stop, InProgress).(visits := visits);
    }
  }

  /** What a skip does to the view behind its commit, up to the point where it breaks down. */
  lemma SkipTailView(t: Tables, stop: StopId, visitId: nat, s: StopId)
    requires WellFormed(t) && stop in t.stops && VisitIndex(t, stop) == Some(visitId)
    ensures WellFormed(WithSkipBatch(t, visitId)) && WellFormed(SkipAfterCommit(t, stop, visitId))
    ensures ViewOf(WithSkipBatch(t, visitId), s)
      == if s == stop then ViewOf(t, s).(skips := ViewOf(t, s).skips + 1) else ViewOf(t, s)
    ensures ViewOf(SkipAfterCommit(t, stop, visitId), s) == ViewOf(WithSkipBatch(t, visitId), s)
  {
    BatchView(t, visitId, FromSkip, stop, s);
    CheckRunView(WithSkipBatch(t, visitId), t.stops[stop].run, s);
  }

  lemma AcceptedSkipView(t: Tables, stop: StopId, hazards: seq<string>, now: int, fault: Fault, s: StopId)
    requires WellFormed(t) && SkipRejection(t, stop, hazards).None?
    ensures var after := HandleSkip(t, stop, hazards, now, fault).0;
      && WellFormed(after)
      && ViewOf(after, s) == if s == stop then SkippedView(ViewOf(t, s), hazards[0], now, fault) else ViewOf(t, s)
  {
    SkipCommitView(t, stop, hazards, now, s);
    var (committed, visitId) := SkipCommit(t, stop, hazards, now);
    SkipTailView(committed, stop, visitId, s);
  }

  lemma SkipView(t: Tables, stop: StopId, hazards: seq<string>, now: int, fault: Fault, s: StopId)
    requires WellFormed(t)
    ensures var (after, response) := HandleSkip(t, stop, hazards, now, fault);
      && WellFormed(after) && response == StepView(ViewOf(t, stop), Skip(stop, hazards), now, fault).1
      && ViewOf(after, s) == if s == stop then StepView(ViewOf(t, s), Skip(stop, hazards), now, fault).0 else ViewOf(t, s)
  {
    RejectionsAgree(t, stop, hazards, OfflineActions.Report(false, false, false, None));
    if SkipRejection(t, stop, hazards).None? {
      AcceptedSkipView(t, stop, hazards, now, fault, s);
    }
  }

  /** What the committed part of a skip does to the views. */
  lemma SkipCommitView(t: Tables, stop: StopId, hazards: seq<string>, now: int, s: StopId)
    requires WellFormed(t) && SkipRejection(t, stop, hazards).None?
    ensures var (committed, visitId) := SkipCommit(t, stop, hazards, now);
      && WellFormed(committed) && VisitIndex(committed, stop) == Some(visitId) && stop in committed.stops
      && ViewOf(committed, s) ==
           if s == stop
           then ViewOf(t, s).(status := Some(Skipped),
                              visit := Some(Closed(OpenVisit(ViewOf(t, s).visit), OUTCOME_SKIPPED, Some(hazards[0]), now)))
           else ViewOf(t, s)
  {
    TerminalView(t, stop, Skipped, OUTCOME_SKIPPED, Some(hazards[0]), now, s);
  }

  lemma CompleteView(t: Tables, stop: StopId, r: OfflineActions.Report, now: int, s: StopId)
    requires WellFormed(t)
    ensures var (after, response) := HandleComplete(t, stop, r, now);
      && WellFormed(after) && response == StepView(ViewOf(t, stop), Complete(stop, r), now, NoFault).1
      && ViewOf(after, s) == if s == stop then StepView(ViewOf(t, s), Complete(stop, r), now, NoFault).0 else ViewOf(t, s)
  {
    RejectionsAgree(t, stop, [], r);
    if CompleteRejection(t, stop, r).None? {
      TerminalView(t, stop, Done, OUTCOME_COMPLETED, None, now, s);
      var id := DeriveClientVisitId(stop);
      var (visits, visitId) := EnsureVisit(t.visits, id);
      var closed := SetStopStatus(t, stop, Done).(visits := CloseVisit(visits, id, OUTCOME_COMPLETED, None, now));
      BatchView(closed, visitId, FromCompletion, stop, s);
      CheckRunView(closed.(batches := closed.batches + [BatchRow(visitId, FromCompletion)]), t.stops[stop].run, s);
    }
  }

  // -- The laws of one stop --------------------------------------------------------------------------

  predicate IsTerminal(v: View) {
    v.status.Some? && Terminal(v.status.value)
  }

  /** Every started stop has a visit. It is closed exactly when the stop is done or skipped; an open visit
      has no outcome, and the visit of a skipped stop has the outcome "skipped". There is exactly one
      completion batch when the stop is done and none before, and at most one skip batch. */
  predicate Lawful(v: View) {
    && ((v.visit.Some? && v.visit.value.endedAt.Some?) <==> IsTerminal(v))
    && (v.visit.Some? ==> (v.visit.value.endedAt.Some? <==> v.visit.value.outcome.Some?))
    && (v.visit.Some? && v.visit.value.endedAt.None? ==> v.visit.value.reasonCode.None?)
    && v.completions == (if v.status == Some(Done) then 1 else 0)
    && v.skips <= (if IsTerminal(v) then 1 else 0)
    && (v.visit.None? ==> v.photos == [])
    && (v.status.Some? && v.status.value != NotStarted ==> v.visit.Some?)
    && (v.status == Some(Skipped) ==> v.visit.Some? && v.visit.value.outcome == Some(OUTCOME_SKIPPED))
  }

  lemma StepKeepsLawful(v: View, req: Request, now: int, fault: Fault)
    requires Lawful(v)
    ensures Lawful(StepView(v, req, now, fault).0)
  {
  }

  /** What no request undoes: done stays done, terminal stays terminal, a closed visit keeps its end,
      outcome and reason, and photos are only added. */
  ghost predicate Later(v: View, w: View) {
    && (v.status == Some(Done) ==> w.status == Some(Done))
    && (IsTerminal(v) ==> IsTerminal(w))
    && (v.visit.Some? ==> w.visit.Some?)
    && (v.visit.Some? && v.visit.value.endedAt.Some? ==> w.visit == v.visit)
    && v.photos <= w.photos
    && (v.status.Some? <==> w.status.Some?)
  }

  lemma StepGoesForward(v: View, req: Request, now: int, fault: Fault)
    ensures Later(v, StepView(v, req, now, fault).0)
  {
  }

  /** In every committed state: one visit per stop, and every stop lawful. */
  ghost predicate LawfulTables(t: Tables) {
    WellFormed(t) && forall s :: Lawful(ViewOf(t, s))
  }

  lemma HandleKeepsLawful(t: Tables, req: Request, now: int, fault: Fault)
    requires LawfulTables(t)
    ensures LawfulTables(Handle(t, req, now, fault).0)
    ensures forall s :: Later(ViewOf(t, s), ViewOf(Handle(t, req, now, fault).0, s))
  {
    var after := Handle(t, req, now, fault).0;
    forall s ensures Lawful(ViewOf(after, s)) && Later(ViewOf(t, s), ViewOf(after, s)) {
      HandleRefinesViews(t, req, now, fault, s);
      StepKeepsLawful(ViewOf(t, s), req, now, fault);
      StepGoesForward(ViewOf(t, s), req, now, fault);
    }
    HandleRefinesViews(t, req, now, fault, StopOf(req));
  }

  /** Freshly planned runs: no stop started, nothing recorded. */
  ghost predicate Fresh(t: Tables) {
    && t.visits == [] && t.evidence == [] && t.batches == []
    && forall s :: s in t.stops ==> t.stops[s].status == NotStarted
  }

  lemma FreshIsLawful(t: Tables)
    requires Fresh(t)
    ensures LawfulTables(t)
  {
  }

  // -- Runs ------------------------------------------------------------------------------------------

  predicate Concluded(t: Tables, run: RunId) {
    run in t.runs && (t.runs[run] == Finished || t.runs[run] == RunCompleted)
  }
}
