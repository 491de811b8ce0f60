/** Photos that are enqueued while a replay is running: which of them the replay never sends, although it
    takes them out of the queue. */
module PhotoLoss {
  import opened Wrappers
  import opened Sequences
  import opened OfflineActions
  import opened ReplayMachine
  import opened ReplayReload
  import opened ReplayLimits
  import opened ReplayBounds
  import opened PhotoQueue

  // -- Enqueueing during a replay --------------------------------------------------------------------

  /** The executor receives the snapshot, so it uploads what is queued only while the two agree. */
  ghost predicate Covered(m: Machine) {
    && (forall x, t :: x in m.queue.actions && t in Todo(m) && x.id == t.id ==> x.payload == t.payload)
    && (Current(m).Some? ==>
         forall x :: x in m.queue.actions && x.id == Current(m).value.id ==> x.payload == Current(m).value.payload)
  }

  /** The upload would be merged into a pending action that the running replay has snapshotted. */
  predicate MergesIntoSnapshot(m: Machine, a: Action) {
    && a.actionType == UploadStopPhotos && Mergeable(a.payload)
    && var f := FindIndex(m.queue.actions, PendingUploadLike(a.stop, a.payload.kind.value));
       f.Some? && exists t :: t in Todo(m) && t.id == m.queue.actions[f.value].id
  }

  lemma MergedPayloadDiffers(was: Action, ids: seq<PhotoId>)
    requires was.payload.Upload? && ids != [] && forall p :: p in ids ==> p !in PhotosIn(was.payload)
    ensures MergePhotos(was, ids).payload != was.payload
  {
    DistinctMembers(PhotosIn(was.payload) + ids);
    assert ids[0] in IdSet(PhotosIn(was.payload) + ids);
    assert ids[0] in IdSet(Distinct(PhotosIn(was.payload) + ids));
  }

  lemma MergedActionIsStale(s: seq<Action>, k: nat, merged: Action, todo: seq<Action>, t: Action)
    requires k < |s| && merged.id == s[k].id && merged.payload != s[k].payload
    requires t in todo && t.id == s[k].id
    requires forall x, u :: x in s && u in todo && x.id == u.id ==> x.payload == u.payload
    ensures merged in s[k := merged] && t.payload != merged.payload
  {
    assert s[k] in s && s[k := merged][k] == merged;
  }

  /** An enqueue that is not merged into a snapshotted action leaves the snapshot up to date. */
  lemma EnqueueElsewhereKeepsCovered(m: Machine, a: Action)
    requires Consistent(m) && Covered(m) && Enabled(m, Enqueued(a)) && !MergesIntoSnapshot(m, a)
    ensures Covered(m.(queue := Enqueue(m.queue, a)))
  {
    var s, r := m.queue.actions, EnqueueActions(m.queue.actions, a);
    var k, merged := EnqueueShape(s, a);
    forall x | x in r
      ensures x == a || x in s || ((forall t :: t in Todo(m) ==> t.id != x.id) && (Current(m).Some? ==> x.id != Current(m).value.id))
    {
      var i :| 0 <= i < |r| && r[i] == x;
      if i == k < |s| {
        assert s[k] in s;
      }
    }
  }

  /** Enqueueing new photos keeps the replay's snapshot up to date exactly when it does not merge them
      into a snapshotted action. */
  lemma EnqueueKeepsCoveredIff(m: Machine, a: Action)
    requires Consistent(m) && Covered(m) && Enabled(m, Enqueued(a))
    requires a.actionType == UploadStopPhotos ==> PhotosIn(a.payload) != []
    requires forall x, p :: x in m.queue.actions && p in PhotosIn(a.payload) ==> p !in PhotosIn(x.payload)
    ensures Covered(m.(queue := Enqueue(m.queue, a))) <==> !MergesIntoSnapshot(m, a)
  {
    if MergesIntoSnapshot(m, a) {
      var s := m.queue.actions;
      var k, merged := EnqueueShape(s, a);
      var target := FindIndex(s, PendingUploadLike(a.stop, a.payload.kind.value)).value;
      var t :| t in Todo(m) && t.id == s[target].id;
      assert s[target] in s;
      MergedPayloadDiffers(s[target], PhotosIn(a.payload));
      MergedActionIsStale(s, target, MergePhotos(s[target], PhotosIn(a.payload)), Todo(m), t);
    } else {
      EnqueueElsewhereKeepsCovered(m, a);
    }
  }

  lemma UpdateKeepsCovered(r: seq<Action>, s: seq<Action>, id: string, update: Action -> Action, todo: seq<Action>)
    requires UpdatedFrom(r, s, id, update) && KeepsIdentity(update)
    requires forall x, t :: x in s && t in todo && x.id == t.id ==> x.payload == t.payload
    ensures forall x, t :: x in r && t in todo && x.id == t.id ==> x.payload == t.payload
  {
  }

  lemma CoveredMeansHeld(m: Machine)
    ensures Covered(m) <==> forall x, t :: x in m.queue.actions && t in Held(m) && x.id == t.id ==> x.payload == t.payload
  {
    assert forall t :: t in Held(m) <==> t in Todo(m) || (Current(m).Some? && t == Current(m).value);
  }

  lemma StepKeepsCovered(m: Machine, e: Event, registered: set<ActionType>)
    requires Consistent(m) && Covered(m) && Enabled(m, e) && !e.Enqueued?
    ensures Covered(Next(m, e, registered))
  {
    match e
    case Dismissed(id) => DismissKeepsCovered(m, id);
    case Took => TakeKeepsCovered(m, registered);
    case Finished(o) => FinishKeepsCovered(m, o, registered);
    case Began =>
      SnapshotMembers(m.queue);
      BeganIsCovered(m.queue.actions, Snapshot(m.queue));
    case _ =>
  }

  lemma DismissKeepsCovered(m: Machine, id: string)
    requires Consistent(m) && Covered(m) && Enabled(m, Dismissed(id))
    ensures Covered(m.(queue := SetStatus(m.queue, id, Done)))
  {
    var after := m.(queue := SetStatus(m.queue, id, Done));
    StatusUpdatesKeepIdentity(Done, None, 0);
    UpdateKeepsIds(m.queue, id, ToStatus(Done, None));
    CoveredMeansHeld(m);
    UpdateKeepsCovered(after.queue.actions, m.queue.actions, id, ToStatus(Done, None), Held(m));
    CoveredMeansHeld(after);
  }

  ghost predicate SamePayloads(s: seq<Action>, todo: seq<Action>) {
    forall x, t :: x in s && t in todo && x.id == t.id ==> x.payload == t.payload
  }

  lemma FinishKeepsPayloads(q: QueueState, a: Action, o: Outcome, todo: seq<Action>)
    requires DistinctIds(q.actions) && SamePayloads(q.actions, todo)
    ensures SamePayloads(Finish(q, a, o).actions, todo)
  {
    FinishUpdateFacts(a, o);
    UpdateKeepsIds(if o.Auth? then q.(requiresAuth := true) else q, a.id, FinishUpdate(a, o));
    UpdateKeepsCovered(Finish(q, a, o).actions, q.actions, a.id, FinishUpdate(a, o), todo);
  }

  lemma FinishKeepsCovered(m: Machine, o: Outcome, registered: set<ActionType>)
    requires Consistent(m) && Covered(m) && Enabled(m, Finished(o))
    ensures Covered(Next(m, Finished(o), registered))
  {
    FinishKeepsPayloads(m.queue, Current(m).value, o, Todo(m));
  }

  lemma TakeKeepsCovered(m: Machine, registered: set<ActionType>)
    requires Consistent(m) && Covered(m) && Enabled(m, Took)
    ensures Covered(Next(m, Took, registered))
  {
    var a := Todo(m)[0];
    assert a in Todo(m) && forall t :: t in Todo(m)[1..] ==> t in Todo(m);
    if a.actionType in registered {
      StatusUpdatesKeepIdentity(Running, None, 0);
      UpdateKeepsIds(m.queue, a.id, ToStatus(Running, None));
      UpdateKeepsCovered(SetStatus(m.queue, a.id, Running).actions, m.queue.actions, a.id, ToStatus(Running, None), Todo(m));
    }
  }

  lemma BeganIsCovered(s: seq<Action>, todo: seq<Action>)
    requires DistinctIds(s) && forall t :: t in todo ==> t in s
    ensures forall x, t :: x in s && t in todo && x.id == t.id ==> x.payload == t.payload
  {
    forall x, t | x in s && t in todo && x.id == t.id ensures x.payload == t.payload {
      var i :| 0 <= i < |s| && s[i] == x;
      var j :| 0 <= j < |s| && s[j] == t;
      assert i == j;
    }
  }

  /** No enqueue of the run is merged into an action that the running replay has snapshotted. */
  ghost predicate NeverMerges(m: Machine, events: seq<Event>, registered: set<ActionType>)
    requires IsRun(m, events, registered)
    decreases |events|
  {
    events == [] ||
    ((events[0].Enqueued? ==> !MergesIntoSnapshot(m, events[0].action))
     && NeverMerges(Next(m, events[0], registered), events[1..], registered))
  }

  /** Runs in which no enqueue overlaps a replay never merge. */
  lemma {:induction false} QuietRunsNeverMerge(m: Machine, events: seq<Event>, registered: set<ActionType>)
    requires IsRun(m, events, registered) && Quiet(m, events, registered)
    ensures NeverMerges(m, events, registered)
    decreases |events|
  {
    if events != [] {
      QuietRunsNeverMerge(Next(m, events[0], registered), events[1..], registered);
    }
  }

  /** When no enqueue is merged into a snapshot, every executor call is handed exactly the queued photos. */
  lemma {:induction false} RunsWithoutMergesAreCovered(m: Machine, events: seq<Event>, registered: set<ActionType>)
    requires IsRun(m, events, registered) && Consistent(m) && Covered(m) && NeverMerges(m, events, registered)
    ensures Consistent(After(m, events, registered)) && Covered(After(m, events, registered))
    decreases |events|
  {
    if events != [] {
      var e := events[0];
      StepKeepsConsistent(m, e, registered);
      if e.Enqueued? {
        EnqueueElsewhereKeepsCovered(m, e.action);
      } else {
        StepKeepsCovered(m, e, registered);
      }
      RunsWithoutMergesAreCovered(Next(m, e, registered), events[1..], registered);
    }
  }

  // -- What takes a photo out of the queue ---------------------------------------------------------

  /** An update by id that leaves every other action alone keeps the photos of actions that stay live. */
  lemma UpdateKeepsPhoto(q: QueueState, id: string, update: Action -> Action, x: Action, stop: string, kind: string,
                         p: PhotoId)
    requires DistinctIds(q.actions) && KeepsIdentity(update)
    requires x in q.actions && LiveUploadAt(stop, kind)(x) && p in PhotosIn(x.payload)
    requires x.id == id ==> Live(update(x))
    ensures p in QueuedPhotos(UpdateById(q, id, update).actions, stop, kind)
  {
    var i :| 0 <= i < |q.actions| && q.actions[i] == x;
    UpdateIsPointwise(q, id, update);
    var y := UpdateById(q, id, update).actions[i];
    assert y in UpdateById(q, id, update).actions;
  }

  /** Only the end of an executor call takes photos out of the queue. */
  lemma OnlyFinishRemovesPhotos(m: Machine, e: Event, registered: set<ActionType>, stop: string, kind: string, p: PhotoId)
    requires Consistent(m) && Enabled(m, e) && !e.Finished?
    requires p in QueuedPhotos(m.queue.actions, stop, kind)
    ensures p in QueuedPhotos(Next(m, e, registered).queue.actions, stop, kind)
  {
    var x :| x in m.queue.actions && LiveUploadAt(stop, kind)(x) && p in PhotosIn(x.payload);
    match e
    case Enqueued(a) => EnqueueAddsItsPhotos(m.queue.actions, a, stop, kind);
    case Dismissed(id) =>
      StatusUpdatesKeepIdentity(Done, None, 0);
      DismissedIsNotLive(m, id, x);
      UpdateKeepsPhoto(m.queue, id, ToStatus(Done, None), x, stop, kind, p);
    case Took =>
      StatusUpdatesKeepIdentity(Running, None, 0);
      UpdateKeepsPhoto(m.queue, Todo(m)[0].id, ToStatus(Running, None), x, stop, kind, p);
    case _ =>
  }

  lemma DismissedIsNotLive(m: Machine, id: string, x: Action)
    requires DistinctIds(m.queue.actions) && Enabled(m, Dismissed(id)) && x in m.queue.actions && Live(x)
    ensures x.id != id
  {
    var c :| c in m.queue.actions && c.id == id && c.status == Conflict;
    if x.id == id {
      SameIdSameAction(m.queue.actions, x, c);
    }
  }

  /** The outcomes after which the action is neither pending nor running any more. */
  predicate EndsAction(a: Action, o: Outcome) {
    !Breaks(o) && !(o.RetryPhoto? && a.retryCount < MAX_RETRIES)
  }

  lemma EndsActionIff(a: Action, o: Outcome, x: Action)
    ensures Live(FinishUpdate(a, o)(x)) <==> !EndsAction(a, o)
    ensures FinishUpdate(a, o)(x).id == x.id && FinishUpdate(a, o)(x).payload == x.payload
    ensures FinishUpdate(a, o)(x).actionType == x.actionType && FinishUpdate(a, o)(x).stop == x.stop
  {
  }

  /** The queued action of the current call holds the photo, and no other live upload does. */
  ghost predicate OnlyCurrentHolds(m: Machine, stop: string, kind: string, p: PhotoId)
    requires Current(m).Some?
  {
    forall x :: x in m.queue.actions && LiveUploadAt(stop, kind)(x) && p in PhotosIn(x.payload)
      ==> x.id == Current(m).value.id
  }

  /** A queued photo leaves the queue at the end of an executor call exactly when the call ends its action,
      and the photo is queued nowhere but in that action. */
  lemma FinishRemovesPhotoIff(m: Machine, o: Outcome, registered: set<ActionType>, stop: string, kind: string, p: PhotoId)
    requires Consistent(m) && Enabled(m, Finished(o)) && p in QueuedPhotos(m.queue.actions, stop, kind)
    ensures p !in QueuedPhotos(Next(m, Finished(o), registered).queue.actions, stop, kind)
      <==> EndsAction(Current(m).value, o) && OnlyCurrentHolds(m, stop, kind, p)
  {
    var a := Current(m).value;
    var q := if o.Auth? then m.queue.(requiresAuth := true) else m.queue;
    var s, r := m.queue.actions, Finish(m.queue, a, o).actions;
    FinishUpdateFacts(a, o);
    if !(EndsAction(a, o) && OnlyCurrentHolds(m, stop, kind, p)) {
      var x :| x in s && LiveUploadAt(stop, kind)(x) && p in PhotosIn(x.payload)
        && (EndsAction(a, o) ==> x.id != a.id);
      EndsActionIff(a, o, x);
      UpdateKeepsPhoto(q, a.id, FinishUpdate(a, o), x, stop, kind, p);
    } else {
      UpdateIsPointwise(q, a.id, FinishUpdate(a, o));
      forall y | y in r && LiveUploadAt(stop, kind)(y) ensures p !in PhotosIn(y.payload) {
        var i :| 0 <= i < |r| && r[i] == y;
        assert s[i] in s;
        EndsActionIff(a, o, s[i]);
      }
    }
  }

  /** Whether the step takes a queued photo away although the executor was not handed it. */
  ghost predicate LosesPhoto(m: Machine, e: Event, registered: set<ActionType>, stop: string, kind: string, p: PhotoId)
    requires Enabled(m, e)
  {
    && p in QueuedPhotos(m.queue.actions, stop, kind)
    && p !in QueuedPhotos(Next(m, e, registered).queue.actions, stop, kind)
    && !(e.Finished? && p in PhotosIn(Current(m).value.payload))
  }

  /** Exactly when a step loses a queued photo: an executor call ends its action, the photo is in the queued
      list of that action alone, and it was not in the list that the executor was handed. */
  lemma StepLosesPhotoIff(m: Machine, e: Event, registered: set<ActionType>, stop: string, kind: string, p: PhotoId)
    requires Consistent(m) && Enabled(m, e) && p in QueuedPhotos(m.queue.actions, stop, kind)
    ensures LosesPhoto(m, e, registered, stop, kind, p)
      <==> e.Finished? && EndsAction(Current(m).value, e.outcome) && OnlyCurrentHolds(m, stop, kind, p)
           && p !in PhotosIn(Current(m).value.payload)
  {
    if e.Finished? {
      FinishRemovesPhotoIff(m, e.outcome, registered, stop, kind, p);
    } else {
      OnlyFinishRemovesPhotos(m, e, registered, stop, kind, p);
    }
  }

  /** While the snapshot is up to date, the end of an executor call takes a photo out of the queue only
      if the executor was handed that photo. */
  lemma FinishDropsOnlySentPhotos(m: Machine, o: Outcome, registered: set<ActionType>, stop: string, kind: string, p: PhotoId)
    requires Consistent(m) && Covered(m) && Enabled(m, Finished(o))
    requires p in QueuedPhotos(m.queue.actions, stop, kind)
    requires p !in QueuedPhotos(Next(m, Finished(o), registered).queue.actions, stop, kind)
    ensures p in PhotosIn(Current(m).value.payload)
  {
    FinishRemovesPhotoIff(m, o, registered, stop, kind, p);
  }

  /** From the empty queue, a run whose enqueues are never merged into a snapshot loses no photo: whatever
      happens next, a photo leaves the queue only when the executor was handed it. */
  lemma RunsWithoutMergesLoseNothing(events: seq<Event>, e: Event, registered: set<ActionType>,
                                     stop: string, kind: string, p: PhotoId)
    requires IsRun(INITIAL, events, registered) && NeverMerges(INITIAL, events, registered)
    requires Enabled(After(INITIAL, events, registered), e)
    ensures !LosesPhoto(After(INITIAL, events, registered), e, registered, stop, kind, p)
  {
    var m := After(INITIAL, events, registered);
    RunsWithoutMergesAreCovered(INITIAL, events, registered);
    if p in QueuedPhotos(m.queue.actions, stop, kind) {
      if !e.Finished? {
        OnlyFinishRemovesPhotos(m, e, registered, stop, kind, p);
      } else if p !in QueuedPhotos(Next(m, e, registered).queue.actions, stop, kind) {
        FinishDropsOnlySentPhotos(m, e.outcome, registered, stop, kind, p);
      }
    }
  }

  // -- Photos merged into a snapshotted action -----------------------------------------------------

  /** The photo is queued in the action with this id alone, if at all, and the replay that is running was
      not handed it. */
  ghost predicate Stranded(m: Machine, id: string, p: PhotoId) {
    && (forall x :: x in m.queue.actions && p in PhotosIn(x.payload) ==> x.id == id)
    && (forall t :: t in Held(m) ==> p !in PhotosIn(t.payload))
  }

  /** The rest of the same replay and whatever the page does afterwards, without a new replay and without
      enqueueing the photo again. */
  predicate Continues(e: Event, p: PhotoId) {
    !e.Began? && (e.Enqueued? ==> p !in PhotosIn(e.action.payload))
  }

  /** The step ends the executor call for the action with this id, and with it the action. */
  predicate EndsCallFor(m: Machine, e: Event, id: string) {
    e.Finished? && Current(m).Some? && Current(m).value.id == id && EndsAction(Current(m).value, e.outcome)
  }

  ghost predicate CallEnds(m: Machine, events: seq<Event>, registered: set<ActionType>, id: string)
    requires IsRun(m, events, registered)
    decreases |events|
  {
    events != [] &&
    (EndsCallFor(m, events[0], id) || CallEnds(Next(m, events[0], registered), events[1..], registered, id))
  }

  lemma UpdateKeepsStranded(q: QueueState, id': string, update: Action -> Action, id: string, p: PhotoId)
    requires DistinctIds(q.actions) && KeepsIdentity(update)
    requires forall x :: x in q.actions && p in PhotosIn(x.payload) ==> x.id == id
    ensures forall x :: x in UpdateById(q, id', update).actions && p in PhotosIn(x.payload) ==> x.id == id
  {
    UpdateKeepsIds(q, id', update);
  }

  lemma EnqueueKeepsStranded(m: Machine, a: Action, id: string, p: PhotoId)
    requires Enabled(m, Enqueued(a)) && p !in PhotosIn(a.payload)
    requires forall x :: x in m.queue.actions && p in PhotosIn(x.payload) ==> x.id == id
    ensures forall x :: x in EnqueueActions(m.queue.actions, a) && p in PhotosIn(x.payload) ==> x.id == id
  {
    var s := m.queue.actions;
    var k, merged := EnqueueShape(s, a);
    if 0 <= k < |s| && a.actionType == UploadStopPhotos {
      assert s[k] in s;
      MergeAddsOnlyIts(s[k], PhotosIn(a.payload), p);
    }
  }

  lemma MergeAddsOnlyIts(was: Action, ids: seq<PhotoId>, p: PhotoId)
    requires was.payload.Upload?
    ensures p in PhotosIn(MergePhotos(was, ids).payload) <==> p in PhotosIn(was.payload) || p in ids
  {
    var all := PhotosIn(was.payload) + ids;
    DistinctMembers(all);
    assert p in Distinct(all) <==> p in IdSet(Distinct(all));
    assert p in all <==> p in IdSet(all);
  }

  lemma StepKeepsStranded(m: Machine, e: Event, registered: set<ActionType>, id: string, p: PhotoId)
    requires Consistent(m) && Enabled(m, e) && Continues(e, p) && Stranded(m, id, p)
    ensures Stranded(Next(m, e, registered), id, p)
  {
    var n := Next(m, e, registered);
    assert forall t :: t in Held(n) ==> t in Held(m);
    match e
    case Enqueued(a) => EnqueueKeepsStranded(m, a, id, p);
    case Dismissed(other) =>
      StatusUpdatesKeepIdentity(Done, None, 0);
      UpdateKeepsStranded(m.queue, other, ToStatus(Done, None), id, p);
    case Took =>
      StatusUpdatesKeepIdentity(Running, None, 0);
      UpdateKeepsStranded(m.queue, Todo(m)[0].id, ToStatus(Running, None), id, p);
    case Finished(o) =>
      var a := Current(m).value;
      FinishUpdateFacts(a, o);
      UpdateKeepsStranded(if o.Auth? then m.queue.(requiresAuth := true) else m.queue, a.id, FinishUpdate(a, o), id, p);
    case _ =>
  }

  /** The live upload with this id, if it is still live, holds the photo. */
  ghost predicate LiveHolder(m: Machine, id: string, stop: string, kind: string, p: PhotoId) {
    exists x :: x in m.queue.actions && x.id == id && LiveUploadAt(stop, kind)(x) && p in PhotosIn(x.payload)
  }

  lemma HolderIsQueued(m: Machine, id: string, stop: string, kind: string, p: PhotoId)
    requires Stranded(m, id, p)
    ensures p in QueuedPhotos(m.queue.actions, stop, kind) <==> LiveHolder(m, id, stop, kind, p)
  {
  }

  /** Unless the step enqueues the photo again, a photo that has left the queue does not come back. */
  lemma StepAddsNoPhoto(m: Machine, e: Event, registered: set<ActionType>, stop: string, kind: string, p: PhotoId)
    requires Consistent(m) && Enabled(m, e) && Continues(e, p)
    requires p !in QueuedPhotos(m.queue.actions, stop, kind)
    ensures p !in QueuedPhotos(Next(m, e, registered).queue.actions, stop, kind)
  {
    match e
    case Enqueued(a) =>
      EnqueueAddsItsPhotos(m.queue.actions, a, stop, kind);
    case Dismissed(id) =>
      StatusUpdatesKeepIdentity(Done, None, 0);
      UpdateAddsNoPhoto(m.queue, id, ToStatus(Done, None), stop, kind, p);
    case Took =>
      var a := Todo(m)[0];
      assert a in Todo(m);
      StatusUpdatesKeepIdentity(Running, None, 0);
      UpdateAddsNoPhoto(m.queue, a.id, ToStatus(Running, None), stop, kind, p);
    case Finished(o) =>
      var a := Current(m).value;
      FinishUpdateFacts(a, o);
      UpdateAddsNoPhoto(if o.Auth? then m.queue.(requiresAuth := true) else m.queue, a.id, FinishUpdate(a, o), stop, kind, p);
    case _ =>
  }

  lemma UpdateAddsNoPhoto(q: QueueState, id: string, update: Action -> Action, stop: string, kind: string, p: PhotoId)
    requires DistinctIds(q.actions) && KeepsIdentity(update)
    requires forall x :: x in q.actions && x.id == id && Live(update(x)) ==> Live(x)
    requires p !in QueuedPhotos(q.actions, stop, kind)
    ensures p !in QueuedPhotos(UpdateById(q, id, update).actions, stop, kind)
  {
    UpdateKeepsIds(q, id, update);
    var r := UpdateById(q, id, update).actions;
    forall y | y in r && LiveUploadAt(stop, kind)(y) ensures p !in PhotosIn(y.payload) {
      var x :| x in q.actions && y == if x.id == id then update(x) else x;
    }
  }

  /** One step takes a stranded photo out of the queue exactly when it ends the call for its action. */
  lemma StrandedPhotoLeavesIff(m: Machine, e: Event, registered: set<ActionType>, id: string,
                               stop: string, kind: string, p: PhotoId)
    requires Consistent(m) && Enabled(m, e) && Continues(e, p) && Stranded(m, id, p)
    requires p in QueuedPhotos(m.queue.actions, stop, kind)
    ensures p !in QueuedPhotos(Next(m, e, registered).queue.actions, stop, kind) <==> EndsCallFor(m, e, id)
  {
    HolderIsQueued(m, id, stop, kind, p);
    if e.Finished? {
      FinishRemovesPhotoIff(m, e.outcome, registered, stop, kind, p);
    } else {
      OnlyFinishRemovesPhotos(m, e, registered, stop, kind, p);
    }
  }

  ghost predicate Continuation(events: seq<Event>, p: PhotoId) {
    forall e :: e in events ==> Continues(e, p)
  }

  /** A photo that is no longer queued stays out of the queue. */
  lemma {:induction false} GoneStaysGone(m: Machine, events: seq<Event>, registered: set<ActionType>, id: string,
                                         stop: string, kind: string, p: PhotoId)
    requires IsRun(m, events, registered) && Consistent(m) && Stranded(m, id, p) && Continuation(events, p)
    requires p !in QueuedPhotos(m.queue.actions, stop, kind)
    ensures p !in QueuedPhotos(After(m, events, registered).queue.actions, stop, kind)
    ensures Stranded(After(m, events, registered), id, p)
    decreases |events|
  {
    if events != [] {
      var e := events[0];
      assert e in events;
      StepKeepsConsistent(m, e, registered);
      StepKeepsStranded(m, e, registered, id, p);
      StepAddsNoPhoto(m, e, registered, stop, kind, p);
      GoneStaysGone(Next(m, e, registered), events[1..], registered, id, stop, kind, p);
    }
  }

  /** A stranded photo is gone after a continuation exactly when the continuation ends the call for its
      action; either way the replay never hands it to an executor. */
  lemma {:induction false} StrandedPhotoIsLostIff(m: Machine, events: seq<Event>, registered: set<ActionType>, id: string,
                                                  stop: string, kind: string, p: PhotoId)
    requires IsRun(m, events, registered) && Consistent(m) && Stranded(m, id, p) && Continuation(events, p)
    requires p in QueuedPhotos(m.queue.actions, stop, kind)
    ensures Stranded(After(m, events, registered), id, p)
    ensures p !in QueuedPhotos(After(m, events, registered).queue.actions, stop, kind)
      <==> CallEnds(m, events, registered, id)
    decreases |events|
  {
    if events != [] {
      var e, next := events[0], Next(m, events[0], registered);
      assert e in events;
      StepKeepsConsistent(m, e, registered);
      StepKeepsStranded(m, e, registered, id, p);
      StrandedPhotoLeavesIff(m, e, registered, id, stop, kind, p);
      if EndsCallFor(m, e, id) {
        GoneStaysGone(next, events[1..], registered, id, stop, kind, p);
      } else {
        StrandedPhotoIsLostIff(next, events[1..], registered, id, stop, kind, p);
      }
    }
  }

  /** Nothing in the queue or in the running replay holds the photo yet. */
  ghost predicate FreshPhoto(m: Machine, p: PhotoId) {
    && (forall x :: x in m.queue.actions ==> p !in PhotosIn(x.payload))
    && (forall t :: t in Held(m) ==> p !in PhotosIn(t.payload))
  }

  /** The pending upload that a merging enqueue is merged into. */
  function MergeTarget(m: Machine, a: Action): Action
    requires MergesIntoSnapshot(m, a)
  {
    m.queue.actions[FindIndex(m.queue.actions, PendingUploadLike(a.stop, a.payload.kind.value)).value]
  }

  lemma MergeStrandsPhoto(m: Machine, a: Action, p: PhotoId)
    requires Consistent(m) && Enabled(m, Enqueued(a)) && MergesIntoSnapshot(m, a)
    requires p in PhotosIn(a.payload) && FreshPhoto(m, p)
    ensures var after := m.(queue := Enqueue(m.queue, a));
      && Stranded(after, MergeTarget(m, a).id, p)
      && p in QueuedPhotos(after.queue.actions, a.stop, a.payload.kind.value)
  {
    var s := m.queue.actions;
    var k, merged := EnqueueShape(s, a);
    EnqueueAddsItsPhotos(s, a, a.stop, a.payload.kind.value);
    assert p in IdSet(PhotosIn(a.payload));
    assert Held(m.(queue := Enqueue(m.queue, a))) == Held(m);
    assert forall i :: 0 <= i < |s| ==> s[i] in s;
  }

  /** The exact fate of a new photo that is merged into a snapshotted upload: whatever the page, the network
      and the server do until the next replay, the photo is gone from the queue, never having been handed to
      an executor, exactly when the executor call for that upload ends it as done, failed or in conflict.
      When the call breaks the replay, is to be retried, or is never reached, the photo is still queued. */
  lemma MergedPhotoIsLostIff(m: Machine, a: Action, p: PhotoId, events: seq<Event>, registered: set<ActionType>)
    requires Consistent(m) && Enabled(m, Enqueued(a)) && MergesIntoSnapshot(m, a)
    requires p in PhotosIn(a.payload) && FreshPhoto(m, p)
    requires IsRun(Next(m, Enqueued(a), registered), events, registered) && Continuation(events, p)
    ensures var merged := Next(m, Enqueued(a), registered);
      var last := After(merged, events, registered);
      && (p !in QueuedPhotos(last.queue.actions, a.stop, a.payload.kind.value)
          <==> CallEnds(merged, events, registered, MergeTarget(m, a).id))
      && forall t :: t in Held(last) ==> p !in PhotosIn(t.payload)
  {
    StepKeepsConsistent(m, Enqueued(a), registered);
    MergeStrandsPhoto(m, a, p);
    StrandedPhotoIsLostIff(Next(m, Enqueued(a), registered), events, registered, MergeTarget(m, a).id,
                           a.stop, a.payload.kind.value, p);
  }

  /** The photos of an abandoned upload are counted as queued for good, although they are never sent again. */
  lemma AbandonedPhotosStayQueued(m: Machine, events: seq<Event>, registered: set<ActionType>, x: Action,
                                  stop: string, kind: string, p: PhotoId)
    requires Consistent(m) && Abandoned(m, x) && LiveUploadAt(stop, kind)(x) && p in PhotosIn(x.payload)
    requires IsRun(m, events, registered)
    ensures p in QueuedPhotos(After(m, events, registered).queue.actions, stop, kind)
  {
    AbandonedForever(m, events, registered, x);
  }

  // A run in which a photo is lost.

  function StartOf(status: Status): Action {
    Action("a", StartStop, "run", "stop", 0, Opaque(""), status, None, 0)
  }

  function UploadOf(id: string, photos: seq<PhotoId>, status: Status): Action {
    Action(id, UploadStopPhotos, "run", "stop", 0, Upload(Some("completion"), Some(photos)), status, None, 0)
  }

  function LossyEvent(k: nat): Event {
    match k
    case 0 => Enqueued(StartOf(Pending))
    case 1 => Enqueued(UploadOf("b", ["p1"], Pending))
    case 2 => Began
    case 3 => Took
    case 4 => Enqueued(UploadOf("c", ["p2"], Pending))
    case 5 => Finished(Ok)
    case 6 => Took
    case _ => Finished(Ok)
  }

  function LossyState(k: nat): Machine {
    var sent := UploadOf("b", ["p1"], Pending);
    match k
    case 0 => INITIAL
    case 1 => Machine(QueueState([StartOf(Pending)], false), None)
    case 2 => Machine(QueueState([StartOf(Pending), sent], false), None)
    case 3 => Machine(QueueState([StartOf(Pending), sent], false), Some(Replay([StartOf(Pending), sent], None)))
    case 4 => Machine(QueueState([StartOf(Running), sent], false), Some(Replay([sent], Some(StartOf(Pending)))))
    case 5 => Machine(QueueState([StartOf(Running), UploadOf("b", ["p1", "p2"], Pending)], false),
                      Some(Replay([sent], Some(StartOf(Pending)))))
    case 6 => Machine(QueueState([StartOf(Done), UploadOf("b", ["p1", "p2"], Pending)], false), Some(Replay([sent], None)))
    case 7 => Machine(QueueState([StartOf(Done), UploadOf("b", ["p1", "p2"], Running)], false), Some(Replay([], Some(sent))))
    case _ => Machine(QueueState([StartOf(Done), UploadOf("b", ["p1", "p2"], Done)], false), Some(Replay([], None)))
  }

  const LOSSY_TYPES := {StartStop, UploadStopPhotos}

  ghost predicate LossyStepHolds(k: nat) {
    && Enabled(LossyState(k), LossyEvent(k))
    && Next(LossyState(k), LossyEvent(k), LOSSY_TYPES) == LossyState(k + 1)
  }

  lemma LossyEnqueues()
    ensures LossyStepHolds(0) && LossyStepHolds(1)
  {
  }

  lemma LossyBegins()
    ensures LossyStepHolds(2)
  {
    LossySnapshot();
  }

  lemma LossyTakesStart()
    ensures LossyStepHolds(3)
  {
    var m := LossyState(3);
    TakeAt(m, 0);
    assert m.queue.actions[0 := StartOf(Running)] == LossyState(4).queue.actions;
    assert Todo(m)[1..] == Todo(LossyState(4));
  }

  lemma LossyTakesUpload()
    ensures LossyStepHolds(6)
  {
    var m := LossyState(6);
    TakeAt(m, 1);
    assert m.queue.actions[1 := UploadOf("b", ["p1", "p2"], Running)] == LossyState(7).queue.actions;
    assert Todo(m)[1..] == Todo(LossyState(7));
  }

  lemma TakeAt(m: Machine, i: nat)
    requires m.replay.Some? && Current(m).None? && Todo(m) != [] && Todo(m)[0].actionType in LOSSY_TYPES
    requires i < |m.queue.actions| && m.queue.actions[i].id == Todo(m)[0].id && DistinctIds(m.queue.actions)
    ensures Next(m, Took, LOSSY_TYPES) == Machine(
      m.queue.(actions := m.queue.actions[i := ToStatus(Running, None)(m.queue.actions[i])]),
      Some(Replay(Todo(m)[1..], Some(Todo(m)[0]))))
  {
    UpdateAt(m.queue, i, ToStatus(Running, None));
  }

  lemma MergeAt(m: Machine, a: Action, i: nat)
    requires a.actionType == UploadStopPhotos && a.status == Pending && Mergeable(a.payload)
    requires Enabled(m, Enqueued(a)) && i < |m.queue.actions|
    requires PendingUploadLike(a.stop, a.payload.kind.value)(m.queue.actions[i])
    requires forall j :: 0 <= j < i ==> !PendingUploadLike(a.stop, a.payload.kind.value)(m.queue.actions[j])
    ensures Next(m, Enqueued(a), LOSSY_TYPES) == m.(queue := m.queue.(actions :=
      m.queue.actions[i := MergePhotos(m.queue.actions[i], PhotosIn(a.payload))]))
  {
  }

  lemma LossyMerges()
    ensures LossyStepHolds(4)
  {
    var m, sent, added := LossyState(4), UploadOf("b", ["p1"], Pending), UploadOf("c", ["p2"], Pending);
    MergeAt(m, added, 1);
    TwoPhotosMerge();
    assert MergePhotos(sent, ["p2"]) == UploadOf("b", ["p1", "p2"], Pending);
    assert m.queue.actions[1 := UploadOf("b", ["p1", "p2"], Pending)] == LossyState(5).queue.actions;
  }

  lemma TwoPhotosMerge()
    ensures Distinct(["p1"] + ["p2"]) == ["p1", "p2"]
  {
    assert (["p1"] + ["p2"])[..1] == ["p1"] && ["p1"][..0] == [];
    assert Distinct(["p1"]) == ["p1"];
  }

  lemma FinishAt(m: Machine, i: nat)
    requires Current(m).Some? && i < |m.queue.actions| && m.queue.actions[i].id == Current(m).value.id
    requires DistinctIds(m.queue.actions)
    ensures Next(m, Finished(Ok), LOSSY_TYPES) == Machine(
      m.queue.(actions := m.queue.actions[i := ToStatus(Done, None)(m.queue.actions[i])]), Some(Replay(Todo(m), None)))
  {
    UpdateAt(m.queue, i, ToStatus(Done, None));
  }

  lemma LossyFinishesStart()
    ensures LossyStepHolds(5)
  {
    var m := LossyState(5);
    FinishAt(m, 0);
    assert m.queue.actions[0 := StartOf(Done)] == LossyState(6).queue.actions;
  }

  lemma LossyFinishesUpload()
    ensures LossyStepHolds(7)
  {
    var m := LossyState(7);
    FinishAt(m, 1);
    assert m.queue.actions[1 := UploadOf("b", ["p1", "p2"], Done)] == LossyState(8).queue.actions;
  }

  lemma LossySnapshot()
    ensures Snapshot(LossyState(2).queue) == [StartOf(Pending), UploadOf("b", ["p1"], Pending)]
  {
    var s := [StartOf(Pending), UploadOf("b", ["p1"], Pending)];
    FilterAll(s, IsPending());
    SortOfSorted(s, ReplayOrder());
  }

  lemma LossyStepsHold(k: nat)
    requires k < 8
    ensures LossyStepHolds(k)
  {
    match k
    case 0 => LossyEnqueues();
    case 1 => LossyEnqueues();
    case 2 => LossyBegins();
    case 3 => LossyTakesStart();
    case 4 => LossyMerges();
    case 5 => LossyFinishesStart();
    case 6 => LossyTakesUpload();
    case _ => LossyFinishesUpload();
  }

  lemma LossyOutcome()
    ensures "p2" in QueuedPhotos(LossyState(7).queue.actions, "stop", "completion")
    ensures Current(LossyState(7)).Some? && "p2" !in PhotosIn(Current(LossyState(7)).value.payload)
    ensures QueuedPhotos(LossyState(8).queue.actions, "stop", "completion") == {}
  {
    var x := UploadOf("b", ["p1", "p2"], Running);
    assert LossyState(7).queue.actions[1] == x && PhotosIn(x.payload)[1] == "p2";
    assert x in LossyState(7).queue.actions && LiveUploadAt("stop", "completion")(x) && "p2" in PhotosIn(x.payload);
  }

  /** A photo taken during a replay can be lost: from the empty queue, eight steps merge "p2" into an
      upload that the replay has already snapshotted, hand the executor the old list, and mark the merged
      action done. */
  lemma OverlappingEnqueueLosesPhoto()
    ensures LossyState(0) == INITIAL
    ensures forall k: nat :: k < 8 ==> LossyStepHolds(k)
    ensures "p2" in QueuedPhotos(LossyState(7).queue.actions, "stop", "completion")
    ensures Current(LossyState(7)).Some? && "p2" !in PhotosIn(Current(LossyState(7)).value.payload)
    ensures QueuedPhotos(LossyState(8).queue.actions, "stop", "completion") == {}
  {
    forall k: nat | k < 8 ensures LossyStepHolds(k) {
      LossyStepsHold(k);
    }
    LossyOutcome();
  }
}
