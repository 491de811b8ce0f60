/** The server's tables around a route run's stops, and what each request does to them. Every request is
    one atomic step; a transaction that fails leaves the tables as they were. */
module StopTables {
  import opened Wrappers
  import opened Sequences
  import OfflineActions

  type StopId = string
  type RunId = string

  /** The database admits exactly these four statuses for a stop of a run. */
  datatype StopStatus = NotStarted | InProgress | Done | Skipped

  datatype RunStatus = Planned | RunInProgress | Finished | RunCompleted

  datatype StopRow = StopRow(run: RunId, status: StopStatus)

  /** A name-based UUID of the stop; distinct stops have distinct ids. */
  datatype ClientVisitId = RouteRunStopVisit(stop: StopId)

  datatype VisitRow = VisitRow(
    id: nat,
    clientVisitId: ClientVisitId,
    endedAt: Option<int>,
    outcome: Option<string>,
    reasonCode: Option<string>)

  datatype EvidenceRow = EvidenceRow(visitId: nat, kind: string, photo: string)

  /** One batch of observations, written when a stop is completed or skipped. */
  datatype BatchSource = FromCompletion | FromSkip
  datatype BatchRow = BatchRow(visitId: nat, source: BatchSource)

  datatype Tables = Tables(
    stops: map<StopId, StopRow>,
    visits: seq<VisitRow>,
    evidence: seq<EvidenceRow>,
    batches: seq<BatchRow>,
    runs: map<RunId, RunStatus>)

  datatype Request =
    | Start(stop: StopId)
    | Upload(stop: StopId, kind: string, photos: seq<string>)
    | Skip(stop: StopId, hazards: seq<string>)
    | Complete(stop: StopId, report: OfflineActions.Report)

  /** Where a request handler may break down after its transaction has been committed; only the skip
      handler goes on after its commit. */
  datatype Fault = NoFault | BeforeObservations | BeforeRunCheck

  datatype Response = Accepted | Rejected(code: string)

  const SAFETY_PHOTO_REQUIRED := "A " + "safety photo" + " is required to skip a stop"
  const AFTER_PHOTO_REQUIRED := "After photo is required to complete a stop"
  const HAZARD_REQUIRED := "At least one safety hazard " + "must be selected to skip a stop"
  const CLEANING_REQUIRED := "Stop completion requires " + "a cleaning action or a spot check"
  const VOLUME_REQUIRED := "trashVolume is required"
  const VOLUME_OUT_OF_RANGE := "trashVolume must be " + "an integer between 0 and 4"
  const CONFLICT := "CONFLICT"
  const STOP_NOT_FOUND := "Route run stop not found"
  const NOT_SKIPPABLE := "Cannot skip stop in status 'done'"

  // -- Visits --------------------------------------------------------------------------------------

  function DeriveClientVisitId(stop: StopId): ClientVisitId {
    RouteRunStopVisit(stop)
  }

  function VisitOf(clientVisitId: ClientVisitId): VisitRow -> bool {
    (v: VisitRow) => v.clientVisitId == clientVisitId
  }

  /** `ensureVisitForRouteRunStop`: the visit's id, after creating the visit if there is none. */
  function EnsureVisit(visits: seq<VisitRow>, clientVisitId: ClientVisitId): (seq<VisitRow>, nat) {
    match FindIndex(visits, VisitOf(clientVisitId))
    case Some(k) => (visits, visits[k].id)
    case None => (visits + [VisitRow(|visits|, clientVisitId, None, None, None)], |visits|)
  }

  function Coalesce<T>(a: Option<T>, b: Option<T>): Option<T> {
    if a.Some? then a else b
  }

  /** `closeVisitForRouteRunStop` on one row: only an open visit of the stop is closed. */
  function CloseRow(v: VisitRow, clientVisitId: ClientVisitId, outcome: string, reason: Option<string>, now: int): VisitRow {
    if v.clientVisitId == clientVisitId && v.endedAt.None?
    then v.(endedAt := Some(now), outcome := Coalesce(v.outcome, Some(outcome)), reasonCode := Coalesce(v.reasonCode, reason))
    else v
  }

  function CloseVisit(visits: seq<VisitRow>, clientVisitId: ClientVisitId, outcome: string, reason: Option<string>,
                      now: int): (r: seq<VisitRow>)
    ensures |r| == |visits|
  {
    if visits == [] then []
    else [CloseRow(visits[0], clientVisitId, outcome, reason, now)] + CloseVisit(visits[1..], clientVisitId, outcome, reason, now)
  }

  lemma {:induction false} CloseVisitAt(visits: seq<VisitRow>, id: ClientVisitId, outcome: string, reason: Option<string>, now: int)
    ensures forall k :: 0 <= k < |visits| ==>
      CloseVisit(visits, id, outcome, reason, now)[k] == CloseRow(visits[k], id, outcome, reason, now)
  {
    if visits != [] {
      CloseVisitAt(visits[1..], id, outcome, reason, now);
    }
  }

  // -- Photos --------------------------------------------------------------------------------------

  function EvidenceRows(visitId: nat, kind: string, photos: seq<string>): seq<EvidenceRow> {
    if photos == [] then [] else [EvidenceRow(visitId, kind, photos[0])] + EvidenceRows(visitId, kind, photos[1..])
  }

  /** `createStopPhotos`: photos of a stop without a visit are dropped. */
  function CreatePhotos(t: Tables, stop: StopId, kind: string, photos: seq<string>): Tables {
    match FindIndex(t.visits, VisitOf(DeriveClientVisitId(stop)))
    case Some(k) => t.(evidence := t.evidence + EvidenceRows(t.visits[k].id, kind, photos))
    case None => t
  }

  function OfVisit(visitId: nat, kind: Option<string>): EvidenceRow -> bool {
    (e: EvidenceRow) => e.visitId == visitId && (kind.Some? ==> e.kind == kind.value)
  }

  /** `countStopPhotosByRouteRunStop`. */
  function CountPhotos(t: Tables, stop: StopId, kind: Option<string>): nat {
    match FindIndex(t.visits, VisitOf(DeriveClientVisitId(stop)))
    case Some(k) => |Filter(t.evidence, OfVisit(t.visits[k].id, kind))|
    case None => 0
  }

  // -- Runs ----------------------------------------------------------------------------------------

  predicate Terminal(s: StopStatus) {
    s == Done || s == Skipped
  }

  function OpenStops(t: Tables, run: RunId): set<StopId> {
    set s | s in t.stops && t.stops[s].run == run && !Terminal(t.stops[s].status)
  }

  function TerminalStops(t: Tables, run: RunId): set<StopId> {
    set s | s in t.stops && t.stops[s].run == run && Terminal(t.stops[s].status)
  }

  /** `checkAndCompleteRouteRun`. */
  function CheckRun(t: Tables, run: RunId): Tables {
    if |OpenStops(t, run)| == 0 && |TerminalStops(t, run)| > 0 && run in t.runs
       && t.runs[run] != Finished && t.runs[run] != RunCompleted
    then t.(runs := t.runs[run := Finished]) else t
  }

  function SetRun(t: Tables, run: RunId, status: RunStatus): Tables {
    if run in t.runs then t.(runs := t.runs[run := status]) else t
  }

  // -- The handlers --------------------------------------------------------------------------------

  function SetStopStatus(t: Tables, stop: StopId, status: StopStatus): Tables
    requires stop in t.stops
  {
    t.(stops := t.stops[stop := t.stops[stop].(status := status)])
  }

  function HandleStart(t: Tables, stop: StopId): (Tables, Response) {
    if stop !in t.stops then (t, Rejected(STOP_NOT_FOUND))
    else match t.stops[stop].status
      case NotStarted =>
        var (visits, _) := EnsureVisit(t.visits, DeriveClientVisitId(stop));
        (SetStopStatus(t, stop, InProgress).(visits := visits), Accepted)
      case InProgress => (t, Accepted)
      case _ => (t, Rejected(CONFLICT))
  }

  function HandleUpload(t: Tables, stop: StopId, kind: string, photos: seq<string>): (Tables, Response) {
    (CreatePhotos(t, stop, kind, photos), Accepted)
  }

  const SAFETY := "safety"
  const OUTCOME_SKIPPED := "skipped"
  const OUTCOME_COMPLETED := "completed"

  function SkipRejection(t: Tables, stop: StopId, hazards: seq<string>): Option<string> {
    if CountPhotos(t, stop, Some(SAFETY)) == 0 then Some(SAFETY_PHOTO_REQUIRED)
    else if hazards == [] then Some(HAZARD_REQUIRED)
    else if stop !in t.stops then Some(OfflineActions.ROUTE_NOT_FOUND)
    else match t.stops[stop].status
      case Skipped => Some(OfflineActions.ALREADY_SKIPPED)
      case Done => Some(NOT_SKIPPABLE)
      case _ => None
  }

  /** The committed part of a skip: status and visit. */
  function SkipCommit(t: Tables, stop: StopId, hazards: seq<string>, now: int): (Tables, nat)
    requires SkipRejection(t, stop, hazards).None?
  {
    var id := DeriveClientVisitId(stop);
    var (visits, visitId) := EnsureVisit(t.visits, id);
    (SetStopStatus(t, stop, Skipped).(visits := CloseVisit(visits, id, OUTCOME_SKIPPED, Some(hazards[0]), now)), visitId)
  }

  function WithSkipBatch(t: Tables, visitId: nat): Tables {
    t.(batches := t.batches + [BatchRow(visitId, FromSkip)])
  }

  /** What follows the commit of a skip: observations, then the check of the run. */
  function SkipAfterCommit(t: Tables, stop: StopId, visitId: nat): Tables
    requires stop in t.stops
  {
    CheckRun(WithSkipBatch(t, visitId), t.stops[stop].run)
  }

  /** A skip that fails after its commit is reported as a server error although it took effect. */
  function HandleSkip(t: Tables, stop: StopId, hazards: seq<string>, now: int, fault: Fault): (Tables, Response) {
    match SkipRejection(t, stop, hazards)
    case Some(code) => (t, Rejected(code))
    case None =>
      var (committed, visitId) := SkipCommit(t, stop, hazards, now);
      match fault
      case NoFault => (SkipAfterCommit(committed, stop, visitId), Accepted)
      case BeforeObservations => (committed, Rejected(SERVER_ERROR))
      case BeforeRunCheck => (WithSkipBatch(committed, visitId), Rejected(SERVER_ERROR))
  }

  const SERVER_ERROR := "Internal server error"

  function ReportRejection(r: OfflineActions.Report): Option<string> {
    if !r.cleaned && !r.spotCheck then Some(CLEANING_REQUIRED)
    else if r.cleaned && r.trashVolume.None? then Some(VOLUME_REQUIRED)
    else if r.cleaned && !(0 <= r.trashVolume.value <= 4) then Some(VOLUME_OUT_OF_RANGE)
    else None
  }

  function CompleteRejection(t: Tables, stop: StopId, r: OfflineActions.Report): Option<string> {
    if !r.photoKeys && CountPhotos(t, stop, None) == 0 then Some(AFTER_PHOTO_REQUIRED)
    else if ReportRejection(r).Some? then ReportRejection(r)
    else if stop !in t.stops then Some(OfflineActions.ROUTE_NOT_FOUND)
    else if t.stops[stop].status == Done then Some(OfflineActions.ALREADY_COMPLETE)
    else None
  }

  /** `completeStop` inside its transaction. */
  function CompleteCommit(t: Tables, stop: StopId, now: int): Tables
    requires stop in t.stops
  {
    var id := DeriveClientVisitId(stop);
    var (visits, visitId) := EnsureVisit(t.visits, id);
    var closed := SetStopStatus(t, stop, Done).(visits := CloseVisit(visits, id, OUTCOME_COMPLETED, None, now));
    CheckRun(closed.(batches := closed.batches + [BatchRow(visitId, FromCompletion)]), t.stops[stop].run)
  }

  function HandleComplete(t: Tables, stop: StopId, r: OfflineActions.Report, now: int): (Tables, Response) {
    match CompleteRejection(t, stop, r)
    case Some(code) => (t, Rejected(code))
    case None => (CompleteCommit(t, stop, now), Accepted)
  }

  function Handle(t: Tables, req: Request, now: int, fault: Fault): (Tables, Response) {
    match req
    case Start(stop) => HandleStart(t, stop)
    case Upload(stop, kind, photos) => HandleUpload(t, stop, kind, photos)
    case Skip(stop, hazards) => HandleSkip(t, stop, hazards, now, fault)
    case Complete(stop, r) => HandleComplete(t, stop, r, now)
  }
}
