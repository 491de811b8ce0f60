/** The offline action queue as a value: what `enqueueAction`, `updateActionStatus` and the end of one
    executor call do to it. */
module OfflineActions {
  import opened Wrappers
  import opened Sequences

  type PhotoId = string

  datatype Status = Pending | Running | Done | Failed | Conflict

  datatype ActionType = StartStop | UploadStopPhotos | SkipStopWithHazard | CompleteStop | OtherType(name: string)

  /** The part of a completion that the server checks: photo keys sent along, whether any cleaning task
      is ticked, the spot-check flag and the trash volume. */
  datatype Report = Report(photoKeys: bool, cleaned: bool, spotCheck: bool, trashVolume: Option<int>)

  /** An upload names a photo kind and local photo ids; either may be missing from a payload that was
      not built by the worker's page. */
  datatype Payload =
    | Upload(kind: Option<string>, photoIds: Option<seq<PhotoId>>)
    | SkipReport(hazards: seq<string>)
    | Completion(report: Report)
    | Opaque(content: string)

  datatype Action = Action(
    id: string,
    actionType: ActionType,
    run: string,
    stop: string,
    createdAt: int,
    payload: Payload,
    status: Status,
    lastError: Option<string>,
    retryCount: nat)

  datatype QueueState = QueueState(actions: seq<Action>, requiresAuth: bool)

  const EMPTY_QUEUE := QueueState([], false)

  predicate Live(a: Action) {
    a.status == Pending || a.status == Running
  }

  // -- enqueueAction -------------------------------------------------------------------------------

  /** An upload that can be merged: its kind is a non-empty string and its ids are a list. */
  predicate Mergeable(p: Payload) {
    p.Upload? && p.kind.Some? && p.kind.value != "" && p.photoIds.Some?
  }

  predicate HasKind(p: Payload, kind: string) {
    p.Upload? && p.kind == Some(kind)
  }

  function PhotosIn(p: Payload): seq<PhotoId> {
    if p.Upload? then p.photoIds.GetOr([]) else []
  }

  /** `Array.from(new Set(ids))`: the first occurrences, in order. */
  function Distinct(ids: seq<PhotoId>): (r: seq<PhotoId>)
  {
    if ids == [] then []
    else
      var init, last := Distinct(ids[..|ids| - 1]), ids[|ids| - 1];
      if last in init then init else init + [last]
  }

  function PendingUploadLike(stop: string, kind: string): Action -> bool {
    (a: Action) => a.actionType == UploadStopPhotos && a.status == Pending && a.stop == stop && HasKind(a.payload, kind)
  }

  function PendingSkipAt(stop: string): Action -> bool {
    (a: Action) => a.actionType == SkipStopWithHazard && a.status == Pending && a.stop == stop
  }

  function LiveStartAt(stop: string): Action -> bool {
    (a: Action) => a.actionType == StartStop && Live(a) && a.stop == stop
  }

  function MergePhotos(existing: Action, ids: seq<PhotoId>): Action {
    if existing.payload.Upload?
    then existing.(payload := existing.payload.(photoIds := Some(Distinct(PhotosIn(existing.payload) + ids))))
    else existing
  }

  function EnqueueUpload(actions: seq<Action>, a: Action): seq<Action>
    requires Mergeable(a.payload)
  {
    match FindIndex(actions, PendingUploadLike(a.stop, a.payload.kind.value))
    case Some(k) => actions[k := MergePhotos(actions[k], PhotosIn(a.payload))]
    case None => actions + [a]
  }

  function EnqueueStart(actions: seq<Action>, a: Action): seq<Action> {
    if FindIndex(actions, LiveStartAt(a.stop)).Some? then actions else actions + [a]
  }

  function EnqueueSkip(actions: seq<Action>, a: Action): seq<Action> {
    match FindIndex(actions, PendingSkipAt(a.stop))
    case Some(k) => actions[k := a]
    case None => actions + [a]
  }

  function EnqueueActions(actions: seq<Action>, a: Action): seq<Action> {
    if a.actionType == UploadStopPhotos && a.status == Pending then
      if Mergeable(a.payload) then EnqueueUpload(actions, a) else actions + [a]
    else if a.actionType == StartStop && Live(a) then EnqueueStart(actions, a)
    else if a.actionType == SkipStopWithHazard && a.status == Pending then EnqueueSkip(actions, a)
    else actions + [a]
  }

  function Enqueue(q: QueueState, a: Action): QueueState {
    q.(actions := EnqueueActions(q.actions, a))
  }

  // -- updateActionStatus and the outcomes of an executor ------------------------------------------

  function HasId(id: string): Action -> bool {
    (a: Action) => a.id == id
  }

  /** Replaces the action with the given id, if there is one. */
  function UpdateById(q: QueueState, id: string, update: Action -> Action): QueueState {
    match FindIndex(q.actions, HasId(id))
    case Some(k) => q.(actions := q.actions[k := update(q.actions[k])])
    case None => q
  }

  function ToStatus(status: Status, lastError: Option<string>): Action -> Action {
    (a: Action) => a.(status := status, lastError := lastError)
  }

  function ToRetry(retryCount: nat): Action -> Action {
    (a: Action) => a.(status := Pending, retryCount := retryCount, lastError := Some(RETRY_MESSAGE))
  }

  function SetStatus(q: QueueState, id: string, status: Status, lastError: Option<string> := None): QueueState {
    UpdateById(q, id, ToStatus(status, lastError))
  }

  const RETRY_MESSAGE := "RETRY_NEEDED_PHOTO_MISSING"
  const ALREADY_COMPLETE := "ALREADY_COMPLETE"
  const ALREADY_SKIPPED := "ALREADY_SKIPPED"
  const ROUTE_NOT_FOUND := "ROUTE_NOT_FOUND"
  const ROUTE_REASSIGNED := "ROUTE_REASSIGNED"
  const MAX_RETRIES := 3

  /** How the replay loop classifies the end of one executor call, in the order of its tests. */
  datatype Outcome =
    | Ok
    | Auth
    | Network
    | Code(code: string, message: string)
    | RetryPhoto
    | OtherError(message: string)

  /** Auth and network errors stop the replay. */
  predicate Breaks(o: Outcome) {
    o.Auth? || o.Network?
  }

  predicate CountsAsDone(o: Outcome) {
    o.Ok? || (o.Code? && (o.code == ALREADY_COMPLETE || o.code == ALREADY_SKIPPED))
  }

  /** What the end of the executor call for the snapshot `a` does to the queued action. */
  function FinishUpdate(a: Action, o: Outcome): Action -> Action {
    if CountsAsDone(o) then ToStatus(Done, None)
    else match o
      case Auth => ToStatus(Pending, None)
      case Network => ToStatus(Pending, None)
      case Code(c, m) =>
        if c == ROUTE_NOT_FOUND || c == ROUTE_REASSIGNED then ToStatus(Conflict, Some(c)) else ToStatus(Failed, Some(m))
      case RetryPhoto =>
        if a.retryCount < MAX_RETRIES then ToRetry(a.retryCount + 1) else ToStatus(Failed, Some(RETRY_MESSAGE))
      case OtherError(m) => ToStatus(Failed, Some(m))
      case _ => ToStatus(Done, None)
  }

  function Finish(q: QueueState, a: Action, o: Outcome): QueueState {
    UpdateById(if o.Auth? then q.(requiresAuth := true) else q, a.id, FinishUpdate(a, o))
  }

  /** Whether the call makes `runReplay` report that a terminal stop action went through. */
  predicate ReportsTerminal(a: Action, o: Outcome) {
    match o
    case Ok => a.actionType == CompleteStop
    case Code(c, _) =>
      || (c == ALREADY_COMPLETE && (a.actionType == CompleteStop || a.actionType == SkipStopWithHazard))
      || (c == ALREADY_SKIPPED && a.actionType == SkipStopWithHazard)
    case _ => false
  }

  // -- Replay order --------------------------------------------------------------------------------

  function Rank(t: ActionType): nat {
    match t
    case StartStop => 1
    case UploadStopPhotos => 2
    case SkipStopWithHazard => 3
    case CompleteStop => 4
    case OtherType(_) => 99
  }

  function ReplayOrder(): (Action, Action) -> bool {
    (a: Action, b: Action) =>
      if Rank(a.actionType) != Rank(b.actionType) then Rank(a.actionType) < Rank(b.actionType)
      else a.createdAt <= b.createdAt
  }

  lemma ReplayOrderIsTotal()
    ensures TotalPreorder(ReplayOrder())
  {
  }

  function IsPending(): Action -> bool {
    (a: Action) => a.status == Pending
  }

  /** `sortedPending`: the snapshot that one replay works through. */
  function Snapshot(q: QueueState): seq<Action> {
    StableSort(Filter(q.actions, IsPending()), ReplayOrder())
  }
}
