/** What the replay loop sees of an HTTP exchange: the API wrappers throw plain errors, the executors look
    for phrases in their texts, and the loop classifies what is left. */
module ApiErrors {
  import opened Wrappers
  import opened OfflineActions
  import opened ReplayProtocol
  import T = StopTables

  // -- Thrown values and their classifiers ----------------------------------------------------------

  datatype ErrorName = PlainError | TypeError | SyntaxError

  /** `status` and `responseStatus` are `err.status` and `err.response.status`; `json` is the `error` field
      that a `json` method of the value delivers, if it has such a method, as a `Response` does. */
  datatype Thrown = Thrown(
    name: ErrorName,
    message: string,
    status: Option<int>,
    responseStatus: Option<int>,
    json: Option<string>)

  predicate OccursAt(s: string, part: string, i: int) {
    0 <= i <= |s| - |part| && forall k :: 0 <= k < |part| ==> s[i + k] == part[k]
  }

  /** `s.includes(part)`. */
  ghost predicate Contains(s: string, part: string) {
    exists i :: OccursAt(s, part, i)
  }

  const TRUNCATED := "Unexpected end of JSON input"

  ghost predicate IsNetworkError(e: Thrown) {
    e.name == TypeError || (e.name == SyntaxError && Contains(e.message, TRUNCATED))
  }

  predicate IsAuthError(e: Thrown) {
    var status := if e.status.Some? then e.status else e.responseStatus;
    status == Some(401) || status == Some(403)
  }

  function ParseApiErrorCode(e: Thrown): Option<string> {
    e.json
  }

  predicate KnownCode(code: Option<string>) {
    code.Some? && code.value in {ALREADY_COMPLETE, ALREADY_SKIPPED, ROUTE_NOT_FOUND, ROUTE_REASSIGNED}
  }

  /** The tests of the replay loop's catch block, in their order. */
  ghost function Classify(e: Thrown): Outcome {
    if IsAuthError(e) then Auth
    else if IsNetworkError(e) then Network
    else if KnownCode(ParseApiErrorCode(e)) then Code(ParseApiErrorCode(e).value, e.message)
    else if e.message == RETRY_MESSAGE then RetryPhoto
    else OtherError(e.message)
  }

  // -- Exchanges ---------------------------------------------------------------------------------------

  datatype Body = Json(error: string) | Truncated | Malformed(message: string)

  /** What comes of one executor call: the server cannot be reached, it answers, or the call fails on the
      device, before the request (no token, a missing photo) or after it. */
  datatype Exchange =
    | Unreachable(message: string)
    | Answered(ok: bool, body: Body)
    | LocalFailure(name: ErrorName, message: string, status: Option<int>)

  datatype Result = Returned | Threw(error: Thrown)

  function Plain(name: ErrorName, message: string): Thrown {
    Thrown(name, message, None, None, None)
  }

  /** The wrappers `startRouteRunStop`, `completeStop`, `skipRouteRunStopWithHazard` and `uploadStopPhotos`:
      of a rejection they keep the text alone. */
  function Wrapper(x: Exchange, fallback: string): Result {
    match x
    case Unreachable(message) => Threw(Plain(TypeError, message))
    case LocalFailure(name, message, status) => Threw(Plain(name, message).(status := status))
    case Answered(_, Truncated) => Threw(Plain(SyntaxError, TRUNCATED))
    case Answered(_, Malformed(message)) => Threw(Plain(SyntaxError, message))
    case Answered(true, Json(_)) => Returned
    case Answered(false, Json(error)) => Threw(Plain(PlainError, if error == "" then fallback else error))
  }

  function Fallback(t: ActionType): string {
    match t
    case StartStop => "Failed to start stop"
    case CompleteStop => "Failed to complete stop"
    case SkipStopWithHazard => "Failed to skip stop"
    case _ => "Failed to upload photos"
  }

  /** The phrases by which an executor recognises a rejection for want of a photo. */
  function PhotoPhrases(t: ActionType): seq<string> {
    match t
    case CompleteStop => ["photo required", "after photo", "Photo Required"]
    case SkipStopWithHazard => ["safety photo", "after photo", "Photo Required", "required to skip"]
    case _ => []
  }

  ghost predicate NamesPhoto(t: ActionType, message: string) {
    exists part :: part in PhotoPhrases(t) && Contains(message, part)
  }

  /** The executor of an action: what it makes of what its wrapper throws. A failure on the device is thrown
      outside the `try` that looks for phrases. */
  ghost function Executor(a: Action, x: Exchange): Result {
    if RequestOf(a).None? && !x.LocalFailure? then Returned
    else match Wrapper(x, Fallback(a.actionType))
      case Returned => Returned
      case Threw(e) =>
        if x.LocalFailure? then Threw(e)
        else if NamesPhoto(a.actionType, e.message) then Threw(Plain(PlainError, RETRY_MESSAGE))
        else if a.actionType == StartStop && e.responseStatus == Some(409) then Threw(Plain(PlainError, e.message))
        else Threw(e)
  }

  ghost function OutcomeOf(a: Action, x: Exchange): Outcome {
    match Executor(a, x)
    case Returned => Ok
    case Threw(e) => Classify(e)
  }

  /** The handlers' responses as exchanges. */
  function AnswerOf(response: T.Response): Exchange {
    match response
    case Accepted => Answered(true, Json(""))
    case Rejected(code) => Answered(false, Json(code))
  }

  // -- What surfaces -----------------------------------------------------------------------------------

  /** No executor call ends with a coded error, and none that reached the server ends with an auth error,
      whatever status and code the server answers. */
  lemma AnsweredIsNeverCoded(a: Action, x: Exchange)
    ensures !OutcomeOf(a, x).Code?
    ensures OutcomeOf(a, x).Auth? ==> x.LocalFailure?
  {
  }

  /** A call ends its action as done exactly when it sent no request or its request came back accepted, and
      nothing failed on the device. */
  lemma SettlesIff(a: Action, x: Exchange)
    ensures CountsAsDone(OutcomeOf(a, x))
      <==> !x.LocalFailure? && (RequestOf(a).None? || (x.Answered? && x.ok && x.body.Json?))
  {
  }

  /** A rejection is retried exactly when its text names a photo in one of the executor's phrases; otherwise
      it fails the action, whatever its code. */
  lemma RejectionSurfacesAs(a: Action, code: string)
    requires RequestOf(a).Some? && code != ""
    ensures OutcomeOf(a, AnswerOf(T.Rejected(code)))
      == if NamesPhoto(a.actionType, code) || code == RETRY_MESSAGE then RetryPhoto else OtherError(code)
  {
  }

  // -- Which rejections are retried --------------------------------------------------------------------

  /** The text has `part[j]` and `part[k]` at the distance they have in `part`. */
  ghost predicate HasPair(s: string, part: string, j: nat, k: nat)
    requires j < |part| && k < |part|
  {
    exists i :: AgreesAt(s, part, i, j) && AgreesAt(s, part, i, k)
  }

  predicate AgreesAt(s: string, part: string, i: int, k: nat)
    requires k < |part|
  {
    0 <= i <= |s| - |part| && s[i + k] == part[k]
  }

  lemma ContainsPair(s: string, part: string, j: nat, k: nat)
    requires j < |part| && k < |part| && Contains(s, part)
    ensures HasPair(s, part, j, k)
  {
    var i :| OccursAt(s, part, i);
    assert AgreesAt(s, part, i, j) && AgreesAt(s, part, i, k);
  }

  predicate HoAt(s: string, i: int) {
    0 <= i < |s| - 1 && s[i] == 'h' && s[i + 1] == 'o'
  }

  ghost predicate HasHo(s: string) {
    exists i :: HoAt(s, i)
  }

  lemma ContainsHo(s: string, part: string, j: int)
    requires Contains(s, part) && HoAt(part, j)
    ensures HasHo(s)
  {
    var i :| OccursAt(s, part, i);
    assert HoAt(s, i + j);
  }

  lemma ContainsQ(s: string)
    requires Contains(s, "required to skip")
    ensures 'q' in s
  {
    var i :| OccursAt(s, "required to skip", i);
    assert s[i + 2] == "required to skip"[2];
  }

  lemma PhotoHasHo()
    ensures HasHo("photo required") && HasHo("after photo") && HasHo("Photo Required") && HasHo("safety photo")
  {
    assert HoAt("photo required", 1) && HoAt("after photo", 7) && HoAt("Photo Required", 1) && HoAt("safety photo", 8);
  }

  /** All phrases but one say "photo". */
  lemma PhraseSaysPhoto(part: string, t: ActionType)
    requires part in PhotoPhrases(t)
    ensures HasHo(part) || (t == SkipStopWithHazard && part == "required to skip")
  {
    PhotoHasHo();
  }

  lemma NamingSaysPhoto(s: string, t: ActionType)
    requires NamesPhoto(t, s)
    ensures HasHo(s) || (t == SkipStopWithHazard && 'q' in s)
  {
    var part :| part in PhotoPhrases(t) && Contains(s, part);
    PhraseSaysPhoto(part, t);
    if HasHo(part) {
      var j :| HoAt(part, j);
      ContainsHo(s, part, j);
    } else {
      ContainsQ(s);
    }
  }

  /** The comparison is case-sensitive and the words are others. */
  lemma AfterPhotoIsNotNamed()
    ensures !NamesPhoto(CompleteStop, T.AFTER_PHOTO_REQUIRED)
  {
    NotRequired();
    NotAfter();
    NotCapital();
  }

  lemma NotRequired()
    ensures !Contains(T.AFTER_PHOTO_REQUIRED, "photo required")
  {
    if Contains(T.AFTER_PHOTO_REQUIRED, "photo required") {
      ContainsPair(T.AFTER_PHOTO_REQUIRED, "photo required", 8, 0);
    }
  }

  lemma NotAfter()
    ensures !Contains(T.AFTER_PHOTO_REQUIRED, "after photo")
  {
    if Contains(T.AFTER_PHOTO_REQUIRED, "after photo") {
      ContainsPair(T.AFTER_PHOTO_REQUIRED, "after photo", 0, 1);
    }
  }

  lemma NotCapital()
    ensures !Contains(T.AFTER_PHOTO_REQUIRED, "Photo Required")
  {
    if Contains(T.AFTER_PHOTO_REQUIRED, "Photo Required") {
      ContainsPair(T.AFTER_PHOTO_REQUIRED, "Photo Required", 0, 1);
    }
  }

  lemma SafetyPhotoIsNamed()
    ensures NamesPhoto(SkipStopWithHazard, T.SAFETY_PHOTO_REQUIRED)
  {
    var part := PhotoPhrases(SkipStopWithHazard)[0];
    assert part in PhotoPhrases(SkipStopWithHazard);
    OccursInside("A ", part, " is required to skip a stop");
  }

  lemma OccursInside(before: string, part: string, behind: string)
    ensures Contains(before + part + behind, part)
  {
    assert OccursAt(before + part + behind, part, |before|);
  }

  lemma HoOfConcat(s: string, t: string)
    requires s != "" && t != "" && HasHo(s + t) && s[|s| - 1] != 'h'
    ensures HasHo(s) || HasHo(t)
  {
    var i :| HoAt(s + t, i);
    if i < |s| - 1 {
      assert HoAt(s, i);
    } else {
      assert i >= |s|;
      assert HoAt(t, i - |s|);
    }
  }

  lemma HalvesNameNoPhoto()
    ensures !HasHo("Stop completion requires ") && !HasHo("a cleaning action or a spot check")
    ensures !HasHo("trashVolume must be ") && !HasHo("an integer between 0 and 4")
  {
  }

  lemma ReportTextsNameNoPhoto()
    ensures !HasHo(T.CLEANING_REQUIRED) && !HasHo(T.VOLUME_REQUIRED) && !HasHo(T.VOLUME_OUT_OF_RANGE)
  {
    HalvesNameNoPhoto();
    if HasHo(T.CLEANING_REQUIRED) {
      HoOfConcat("Stop completion requires ", "a cleaning action or a spot check");
    }
    if HasHo(T.VOLUME_OUT_OF_RANGE) {
      HoOfConcat("trashVolume must be ", "an integer between 0 and 4");
    }
  }

  lemma CodesNameNoPhoto()
    ensures !HasHo(ALREADY_COMPLETE) && !HasHo(ALREADY_SKIPPED) && !HasHo(ROUTE_NOT_FOUND) && !HasHo(T.SERVER_ERROR)
    ensures 'q' !in ALREADY_SKIPPED && 'q' !in ROUTE_NOT_FOUND && 'q' !in T.SERVER_ERROR
  {
  }

  lemma HazardHalvesNameNoPhoto()
    ensures !HasHo("At least one safety hazard ") && 'q' !in "At least one safety hazard "
    ensures !HasHo("must be selected to skip a stop") && 'q' !in "must be selected to skip a stop"
  {
  }

  lemma StatusTextNamesNoPhoto()
    ensures !HasHo(T.NOT_SKIPPABLE) && 'q' !in T.NOT_SKIPPABLE
  {
  }

  lemma HazardTextNamesNoPhoto()
    ensures !HasHo(T.HAZARD_REQUIRED) && 'q' !in T.HAZARD_REQUIRED
  {
    HazardHalvesNameNoPhoto();
    if HasHo(T.HAZARD_REQUIRED) {
      HoOfConcat("At least one safety hazard ", "must be selected to skip a stop");
    }
  }

  /** No rejection of the completion handler is retried: not even a missing after photo, for which the
      executor means to retry. Each fails the action at once. */
  lemma RejectedCompletionFails(a: Action, t: T.Tables, now: int, code: string)
    requires a.actionType == CompleteStop
    requires T.Handle(t, RequestOf(a).value, now, T.NoFault).1 == T.Rejected(code)
    ensures OutcomeOf(a, AnswerOf(T.Rejected(code))) == OtherError(code)
    ensures FinishUpdate(a, OtherError(code))(a) == a.(status := Failed, lastError := Some(code))
  {
    if code == T.AFTER_PHOTO_REQUIRED {
      AfterPhotoIsNotNamed();
    } else {
      ReportTextsNameNoPhoto();
      CodesNameNoPhoto();
      if NamesPhoto(CompleteStop, code) {
        NamingSaysPhoto(code, CompleteStop);
      }
    }
    RejectionSurfacesAs(a, code);
  }

  /** A rejected skip is retried exactly when no safety photo of the stop is recorded. */
  lemma RejectedSkipIsRetriedIff(a: Action, t: T.Tables, now: int, fault: T.Fault, code: string)
    requires a.actionType == SkipStopWithHazard
    requires T.Handle(t, RequestOf(a).value, now, fault).1 == T.Rejected(code)
    ensures OutcomeOf(a, AnswerOf(T.Rejected(code)))
      == if T.CountPhotos(t, a.stop, Some(T.SAFETY)) == 0 then RetryPhoto else OtherError(code)
  {
    if T.CountPhotos(t, a.stop, Some(T.SAFETY)) == 0 {
      SafetyPhotoIsNamed();
    } else {
      HazardTextNamesNoPhoto();
      StatusTextNamesNoPhoto();
      CodesNameNoPhoto();
      if NamesPhoto(SkipStopWithHazard, code) {
        NamingSaysPhoto(code, SkipStopWithHazard);
      }
    }
    RejectionSurfacesAs(a, code);
  }
}
