/** How every exchange ends at the replay loop, with the statuses and texts that decide it. */
module ErrorRules {
  import opened Wrappers
  import opened OfflineActions
  import opened ReplayProtocol
  import opened ApiErrors
  import T = StopTables

  /** The text occurs in the message. */
  ghost predicate Says(message: string, text: string) {
    exists before, after :: message == before + text + after
  }

  lemma SaysIff(message: string, text: string)
    ensures Contains(message, text) <==> Says(message, text)
  {
    if i :| OccursAt(message, text, i) {
      assert message[i..i + |text|] == text;
      assert message == message[..i] + text + message[i + |text|..];
    }
    if before, after :| message == before + text + after {
      assert OccursAt(message, text, |before|);
    }
  }

  /** The message that makes an executor ask for a retry: for a completion one that says that a photo is required or
      names the after photo, for a skip one that does that or names the safety photo or what a skip requires. */
  ghost predicate AsksForPhoto(t: ActionType, message: string) {
    || (t == CompleteStop && (Says(message, "photo required") || Says(message, "after photo") || Says(message, "Photo Required")))
    || (t == SkipStopWithHazard && (Says(message, "safety photo") || Says(message, "after photo")
                                    || Says(message, "Photo Required") || Says(message, "required to skip")))
  }

  lemma NamesPhotoIff(t: ActionType, message: string)
    ensures NamesPhoto(t, message) <==> AsksForPhoto(t, message)
  {
    SaysIff(message, "photo required");
    SaysIff(message, "after photo");
    SaysIff(message, "Photo Required");
    SaysIff(message, "safety photo");
    SaysIff(message, "required to skip");
    var phrases := PhotoPhrases(t);
    if t == CompleteStop {
      assert phrases[0] in phrases && phrases[1] in phrases && phrases[2] in phrases;
    } else if t == SkipStopWithHazard {
      assert phrases[0] in phrases && phrases[1] in phrases && phrases[2] in phrases && phrases[3] in phrases;
    }
  }

  /** A message that asks for a photo, or is the executors' own request for a retry, is retried. */
  ghost predicate Retries(t: ActionType, message: string) {
    AsksForPhoto(t, message) || message == "RETRY_NEEDED_PHOTO_MISSING"
  }

  /** A server that cannot be reached ends the call with a network error. */
  lemma UnreachableIs(a: Action, message: string)
    requires RequestOf(a).Some?
    ensures OutcomeOf(a, Unreachable(message)) == if AsksForPhoto(a.actionType, message) then RetryPhoto else Network
  {
    NamesPhotoIff(a.actionType, message);
  }

  /** So does an answer that breaks off; one that is no JSON for another reason fails the action. */
  lemma MalformedIs(a: Action, ok: bool, message: string)
    requires RequestOf(a).Some?
    ensures OutcomeOf(a, Answered(ok, Malformed(message))) ==
      if AsksForPhoto(a.actionType, message) then RetryPhoto
      else if Says(message, "Unexpected end of JSON input") then Network
      else if message == "RETRY_NEEDED_PHOTO_MISSING" then RetryPhoto
      else OtherError(message)
    ensures OutcomeOf(a, Answered(ok, Truncated)) == Network
  {
    NamesPhotoIff(a.actionType, message);
    SaysIff(message, TRUNCATED);
    TruncatedNamesNoPhoto();
    if NamesPhoto(a.actionType, TRUNCATED) {
      NamingSaysPhoto(TRUNCATED, a.actionType);
    }
    assert OccursAt(TRUNCATED, TRUNCATED, 0);
  }

  lemma TruncatedNamesNoPhoto()
    ensures !HasHo(TRUNCATED) && 'q' !in TRUNCATED
  {
  }

  /** A failure on the device: a missing or refused token is an auth error, a `TypeError` is taken for a network
      error, and everything else fails the action, unless it is the request for a retry itself. */
  lemma LocalFailureIs(a: Action, name: ErrorName, message: string, status: Option<int>)
    ensures OutcomeOf(a, LocalFailure(name, message, status)) ==
      if status == Some(401) || status == Some(403) then Auth
      else if name == TypeError || (name == SyntaxError && Says(message, "Unexpected end of JSON input")) then Network
      else if message == "RETRY_NEEDED_PHOTO_MISSING" then RetryPhoto
      else OtherError(message)
  {
    SaysIff(message, TRUNCATED);
  }

  /** A rejection: only its text counts, and without one the wrapper's own. */
  lemma RejectionIs(a: Action, error: string)
    requires RequestOf(a).Some?
    ensures error != "" ==>
      OutcomeOf(a, Answered(false, Json(error))) == if Retries(a.actionType, error) then RetryPhoto else OtherError(error)
    ensures OutcomeOf(a, Answered(false, Json(""))) == OtherError(
      if a.actionType == StartStop then "Failed to start stop"
      else if a.actionType == CompleteStop then "Failed to complete stop"
      else if a.actionType == SkipStopWithHazard then "Failed to skip stop"
      else "Failed to upload photos")
  {
    NamesPhotoIff(a.actionType, error);
    FallbacksNameNoPhoto();
    if NamesPhoto(a.actionType, Fallback(a.actionType)) {
      NamingSaysPhoto(Fallback(a.actionType), a.actionType);
    }
  }

  lemma FallbacksNameNoPhoto()
    ensures !HasHo("Failed to start stop") && !HasHo("Failed to complete stop") && !HasHo("Failed to skip stop")
    ensures 'q' !in "Failed to skip stop"
    ensures "Failed to start stop" != "RETRY_NEEDED_PHOTO_MISSING" && "Failed to complete stop" != "RETRY_NEEDED_PHOTO_MISSING"
    ensures "Failed to skip stop" != "RETRY_NEEDED_PHOTO_MISSING" && "Failed to upload photos" != "RETRY_NEEDED_PHOTO_MISSING"
  {
    assert "Failed to start stop"[0] == 'F' && "RETRY_NEEDED_PHOTO_MISSING"[0] == 'R';
  }

  /** An action that sends no request succeeds unless the device fails. */
  lemma NoRequestIs(a: Action, x: Exchange)
    requires RequestOf(a).None? && !x.LocalFailure?
    ensures OutcomeOf(a, x) == Ok
  {
  }

  /** An accepting answer succeeds; the handlers' responses are such answers and rejections with their texts. */
  lemma AcceptanceIs(a: Action, error: string)
    ensures OutcomeOf(a, Answered(true, Json(error))) == Ok
    ensures AnswerOf(T.Accepted).ok && AnswerOf(T.Accepted).body.Json?
    ensures AnswerOf(T.Rejected(error)) == Answered(false, Json(error))
  {
  }
}
