/** The clean-logs query over everything that happens to a stop: which completions it lists, and with which
    booleans. */
module CleanLogs {
  import opened Wrappers
  import opened Observations
  import OfflineActions
  import T = StopTables
  import V = StopViews

  /** What happens to the stop and its visit, and what is written for other visits meanwhile. */
  datatype Event =
    | Started
    | Uploaded(kind: string, photos: seq<string>)
    | Skipped(hazards: seq<string>, registry: Registry, now: int, fault: T.Fault)
    | Completed(ui: UiPayload, photoKeys: bool, spotCheck: bool, registry: Registry, now: int)
    | Elsewhere(batch: Batch)

  /** What the completion handler checks of a payload. */
  function ReportOf(ui: UiPayload, photoKeys: bool, spotCheck: bool): OfflineActions.Report {
    OfflineActions.Report(photoKeys, exists i :: 0 <= i < 5 && Flags(ui)[i], spotCheck, ui.trashVolume)
  }

  /** The stop's rows, and all observations. */
  datatype State = State(view: V.View, batches: seq<Batch>)

  function Stepped(s: State, e: Event): (V.View, T.Response) {
    match e
    case Started => V.StepView(s.view, T.Start(""), 0, T.NoFault)
    case Uploaded(kind, photos) => V.StepView(s.view, T.Upload("", kind, photos), 0, T.NoFault)
    case Skipped(hazards, _, now, fault) => V.StepView(s.view, T.Skip("", hazards), now, fault)
    case Completed(ui, photoKeys, spotCheck, _, now) =>
      V.StepView(s.view, T.Complete("", ReportOf(ui, photoKeys, spotCheck)), now, T.NoFault)
    case Elsewhere(_) => (s.view, T.Accepted)
  }

  function CompletionOf(visit: VisitId, e: Event): Batch
    requires e.Completed?
  {
    Batch(visit, e.registry, Completion(e.ui))
  }

  /** The observations that the event adds. */
  function NewBatches(s: State, e: Event, visit: VisitId): seq<Batch> {
    match e
    case Skipped(hazards, registry, _, fault) =>
      if V.ViewSkipRejection(s.view, hazards).None? && fault != T.BeforeObservations
      then [Batch(visit, registry, Skip(hazards))] else []
    case Completed(ui, _, spotCheck, registry, _) =>
      if Stepped(s, e).1 != T.Accepted then []
      else if spotCheck then [Batch(visit, registry, SpotCheck), CompletionOf(visit, e)]
      else [CompletionOf(visit, e)]
    case Elsewhere(batch) => [batch]
    case _ => []
  }

  function Next(s: State, e: Event, visit: VisitId): State {
    State(Stepped(s, e).0, s.batches + NewBatches(s, e, visit))
  }

  function After(s: State, events: seq<Event>, visit: VisitId): State
    decreases |events|
  {
    if events == [] then s else After(Next(s, events[0], visit), events[1..], visit)
  }

  /** `WHERE v.outcome = 'completed' AND v.ended_at IS NOT NULL`. */
  predicate Listed(v: V.View) {
    v.visit.Some? && v.visit.value.outcome == Some(T.OUTCOME_COMPLETED) && v.visit.value.endedAt.Some?
  }

  /** The row of the visit in the clean-logs query, if there is one. `joined` tells whether the rows are there
      that the query joins to the visit: its assignment, the run, the location and the run stop. */
  function ReadBack(lower: Lower, s: State, visit: VisitId, joined: bool): Option<seq<bool>> {
    if joined && Listed(s.view) then Some(Projection(Written(TypesOf(lower), s.batches), visit)) else None
  }

  /** Other events concern other visits. */
  predicate Proper(e: Event, visit: VisitId) {
    e.Elsewhere? ==> e.batch.visit != visit
  }

  ghost predicate NoCompletion(batches: seq<Batch>, visit: VisitId) {
    forall b :: b in batches && b.visit == visit ==> !b.content.Completion?
  }

  // -- Before the completion -------------------------------------------------------------------------

  /** The stop is not done, and no completion has been written for its visit. */
  ghost predicate NotCompleted(s: State, visit: VisitId) {
    V.Lawful(s.view) && s.view.status != Some(T.Done) && NoCompletion(s.batches, visit)
  }

  lemma ViewStaysLawful(s: State, e: Event)
    requires V.Lawful(s.view)
    ensures V.Lawful(Stepped(s, e).0)
  {
    match e
    case Started => V.StepKeepsLawful(s.view, T.Start(""), 0, T.NoFault);
    case Uploaded(kind, photos) => V.StepKeepsLawful(s.view, T.Upload("", kind, photos), 0, T.NoFault);
    case Skipped(hazards, _, now, fault) => V.StepKeepsLawful(s.view, T.Skip("", hazards), now, fault);
    case Completed(ui, photoKeys, spotCheck, _, now) =>
      V.StepKeepsLawful(s.view, T.Complete("", ReportOf(ui, photoKeys, spotCheck)), now, T.NoFault);
    case Elsewhere(_) =>
  }

  /** A completion is accepted: the event that makes the stop done. */
  predicate Completes(s: State, e: Event) {
    e.Completed? && Stepped(s, e).1 == T.Accepted
  }

  lemma StillNotCompleted(s: State, e: Event, visit: VisitId)
    requires NotCompleted(s, visit) && Proper(e, visit) && !Completes(s, e)
    ensures NotCompleted(Next(s, e, visit), visit)
  {
    ViewStaysLawful(s, e);
  }

  predicate SomeCompletes(s: State, events: seq<Event>, visit: VisitId)
    decreases |events|
  {
    events != [] && (Completes(s, events[0]) || SomeCompletes(Next(s, events[0], visit), events[1..], visit))
  }

  lemma {:induction false} NotCompletedBefore(s: State, events: seq<Event>, visit: VisitId)
    requires NotCompleted(s, visit) && (forall e :: e in events ==> Proper(e, visit)) && !SomeCompletes(s, events, visit)
    ensures NotCompleted(After(s, events, visit), visit)
    decreases |events|
  {
    if events != [] {
      assert events[0] in events;
      StillNotCompleted(s, events[0], visit);
      NotCompletedBefore(Next(s, events[0], visit), events[1..], visit);
    }
  }

  // -- The completion, and after it --------------------------------------------------------------------

  /** The stop is done by the completion `c`, and nothing of its row can change any more. */
  ghost predicate CompletedBy(s: State, c: Batch, visit: VisitId, row: V.VisitView) {
    && s.view.status == Some(T.Done) && s.view.visit == Some(row) && row.endedAt.Some?
    && c.visit == visit && OnlyCompletion(s.batches, c)
  }

  lemma CompletionIsOnly(s: State, c: Event, visit: VisitId)
    requires NotCompleted(s, visit) && Completes(s, c)
    ensures OnlyCompletion(Next(s, c, visit).batches, CompletionOf(visit, c))
  {
    var after := Next(s, c, visit).batches;
    assert after[|after| - 1] == CompletionOf(visit, c);
    forall b | b in after && b.visit == visit && b.content.Completion? ensures b == CompletionOf(visit, c) {
      assert b in s.batches || b in NewBatches(s, c, visit);
    }
  }

  /** The completion closes the visit with the outcome "completed" exactly when the stop was not skipped: a
      skip has closed it before, and for good. */
  lemma CompletionIsListed(s: State, c: Event, visit: VisitId)
    requires NotCompleted(s, visit) && Completes(s, c)
    ensures Listed(Next(s, c, visit).view) <==> s.view.status != Some(T.Skipped)
    ensures Next(s, c, visit).view.visit.Some?
    ensures CompletedBy(Next(s, c, visit), CompletionOf(visit, c), visit, Next(s, c, visit).view.visit.value)
  {
    CompletionIsOnly(s, c, visit);
    assert T.OUTCOME_SKIPPED[0] == 's' && T.OUTCOME_COMPLETED[0] == 'c';
  }

  lemma DoneStepKeeps(s: State, e: Event, c: Batch, visit: VisitId, row: V.VisitView)
    requires CompletedBy(s, c, visit, row) && Proper(e, visit)
    ensures CompletedBy(Next(s, e, visit), c, visit, row)
  {
    if e.Elsewhere? {
      assert forall b :: b in Next(s, e, visit).batches <==> b in s.batches || b == e.batch;
    } else {
      assert NewBatches(s, e, visit) == [];
      assert s.batches + [] == s.batches;
    }
  }

  lemma {:induction false} DoneStays(s: State, events: seq<Event>, c: Batch, visit: VisitId, row: V.VisitView)
    requires CompletedBy(s, c, visit, row) && forall e :: e in events ==> Proper(e, visit)
    ensures CompletedBy(After(s, events, visit), c, visit, row)
    decreases |events|
  {
    if events != [] {
      assert events[0] in events;
      DoneStepKeeps(s, events[0], c, visit, row);
      DoneStays(Next(s, events[0], visit), events[1..], c, visit, row);
    }
  }

  /** The read path over all histories: whatever happens before the accepted completion and after it, the
      query lists the visit exactly when the stop had not been skipped when it was completed, and gives back
      the five booleans of the completion exactly when, besides, the registry marked every key submitted. */
  lemma CompletionIsReadBackIff(lower: Lower, s: State, before: seq<Event>, c: Event, after: seq<Event>,
                                visit: VisitId, joined: bool)
    requires NotCompleted(s, visit) && !SomeCompletes(s, before, visit)
    requires (forall e :: e in before ==> Proper(e, visit)) && (forall e :: e in after ==> Proper(e, visit))
    requires Completes(After(s, before, visit), c)
    ensures var completed := After(s, before, visit);
      var row := ReadBack(lower, After(Next(completed, c, visit), after, visit), visit, joined);
      && (row.Some? <==> joined && completed.view.status != Some(T.Skipped))
      && (row == Some(Flags(c.ui)) <==>
           joined && completed.view.status != Some(T.Skipped) && MarksSubmitted(CompletionOf(visit, c)))
  {
    NotCompletedBefore(s, before, visit);
    var completed := After(s, before, visit);
    var next := Next(completed, c, visit);
    CompletionIsListed(completed, c, visit);
    DoneStays(next, after, CompletionOf(visit, c), visit, next.view.visit.value);
    ProjectionOfCompletionIff(lower, After(next, after, visit).batches, CompletionOf(visit, c));
  }

  /** Until a completion is accepted, the query does not list the visit. */
  lemma NothingIsReadBefore(lower: Lower, s: State, events: seq<Event>, visit: VisitId, joined: bool)
    requires NotCompleted(s, visit) && !SomeCompletes(s, events, visit)
    requires forall e :: e in events ==> Proper(e, visit)
    ensures ReadBack(lower, After(s, events, visit), visit, joined) == None
  {
    NotCompletedBefore(s, events, visit);
    assert T.OUTCOME_SKIPPED[0] == 's' && T.OUTCOME_COMPLETED[0] == 'c';
  }
}
