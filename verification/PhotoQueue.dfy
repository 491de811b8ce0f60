/** Photos waiting for upload: which ids are queued per stop and kind, what adds and removes them, and
    what a replay may lose. */
module PhotoQueue {
  import opened Wrappers
  import opened Sequences
  import opened OfflineActions
  import opened ReplayMachine
  import opened ReplayRun
  import opened ReplayReload
  import opened ReplayLimits
  import opened ReplayBounds

  /** The ids in the live uploads for one stop and kind. */
  ghost function QueuedPhotos(s: seq<Action>, stop: string, kind: string): set<PhotoId> {
    set x, p | x in s && LiveUploadAt(stop, kind)(x) && p in PhotosIn(x.payload) :: p
  }

  function QueuedCount(s: seq<Action>, stop: string, kind: string): nat {
    if s == [] then 0
    else (if LiveUploadAt(stop, kind)(s[0]) then |PhotosIn(s[0].payload)| else 0) + QueuedCount(s[1..], stop, kind)
  }

  ghost function IdSet(ids: seq<PhotoId>): set<PhotoId> {
    set p | p in ids
  }

  // -- Enqueueing adds exactly the new ids -----------------------------------------------------------

  lemma {:induction false} DistinctMembers(ids: seq<PhotoId>)
    ensures IdSet(Distinct(ids)) == IdSet(ids)
    ensures forall i, j :: 0 <= i < j < |Distinct(ids)| ==> Distinct(ids)[i] != Distinct(ids)[j]
  {
    if ids != [] {
      var init, last := ids[..|ids| - 1], ids[|ids| - 1];
      DistinctMembers(init);
      assert ids == init + [last];
      assert forall p :: p in Distinct(init) <==> p in IdSet(Distinct(init));
      assert forall p :: p in init <==> p in IdSet(init);
    }
  }

  lemma QueuedAfterAppend(s: seq<Action>, a: Action, stop: string, kind: string)
    ensures QueuedPhotos(s + [a], stop, kind)
      == QueuedPhotos(s, stop, kind) + if LiveUploadAt(stop, kind)(a) then IdSet(PhotosIn(a.payload)) else {}
  {
    assert forall x :: x in s + [a] <==> x in s || x == a;
  }

  lemma QueuedAfterMerge(s: seq<Action>, k: nat, ids: seq<PhotoId>, stop: string, kind: string)
    requires k < |s| && s[k].payload.Upload?
    ensures QueuedPhotos(s[k := MergePhotos(s[k], ids)], stop, kind)
      == QueuedPhotos(s, stop, kind) + if LiveUploadAt(stop, kind)(s[k]) then IdSet(ids) else {}
  {
    var was, now, r := s[k], MergePhotos(s[k], ids), s[k := MergePhotos(s[k], ids)];
    DistinctMembers(PhotosIn(was.payload) + ids);
    assert forall p :: p in PhotosIn(now.payload) <==> p in IdSet(Distinct(PhotosIn(was.payload) + ids));
    assert r[k] == now && was in s && now in r;
    forall p | p in QueuedPhotos(r, stop, kind)
      ensures p in QueuedPhotos(s, stop, kind) || (LiveUploadAt(stop, kind)(was) && p in ids)
    {
      var x :| x in r && LiveUploadAt(stop, kind)(x) && p in PhotosIn(x.payload);
      assert x == now || x in s;
    }
    forall p | p in QueuedPhotos(s, stop, kind) ensures p in QueuedPhotos(r, stop, kind) {
      var x :| x in s && LiveUploadAt(stop, kind)(x) && p in PhotosIn(x.payload);
      var i :| 0 <= i < |s| && s[i] == x;
      if i == k {
        assert p in PhotosIn(now.payload);
      } else {
        assert r[i] == x;
      }
    }
    forall p | LiveUploadAt(stop, kind)(was) && p in ids ensures p in QueuedPhotos(r, stop, kind) {
      assert p in IdSet(PhotosIn(was.payload) + ids);
      assert p in PhotosIn(now.payload) && LiveUploadAt(stop, kind)(now);
    }
  }

  lemma QueuedAfterReplace(s: seq<Action>, k: nat, a: Action, stop: string, kind: string)
    requires k < |s| && s[k].actionType != UploadStopPhotos && a.actionType != UploadStopPhotos
    ensures QueuedPhotos(s[k := a], stop, kind) == QueuedPhotos(s, stop, kind)
  {
    var r := s[k := a];
    forall p | p in QueuedPhotos(s, stop, kind) ensures p in QueuedPhotos(r, stop, kind) {
      var x :| x in s && LiveUploadAt(stop, kind)(x) && p in PhotosIn(x.payload);
      var i :| 0 <= i < |s| && s[i] == x;
      assert r[i] == x;
    }
    assert forall x :: x in r ==> x == a || x in s;
  }

  /** Enqueueing an upload adds exactly its ids to its own stop and kind; enqueueing anything else adds
      nothing. */
  lemma EnqueueAddsItsPhotos(s: seq<Action>, a: Action, stop: string, kind: string)
    requires a.status == Pending && (a.actionType == UploadStopPhotos ==> Mergeable(a.payload))
    ensures QueuedPhotos(EnqueueActions(s, a), stop, kind)
      == QueuedPhotos(s, stop, kind) + if LiveUploadAt(stop, kind)(a) then IdSet(PhotosIn(a.payload)) else {}
  {
    var k, merged := EnqueueShape(s, a);
    if k == |s| {
      QueuedAfterAppend(s, a, stop, kind);
    } else if k >= 0 {
      if a.actionType == UploadStopPhotos {
        QueuedAfterMerge(s, k, PhotosIn(a.payload), stop, kind);
      } else {
        QueuedAfterReplace(s, k, a, stop, kind);
      }
    }
  }

  // -- A replay removes only what it executed --------------------------------------------------------

  /** The photos of the executed uploads that are no longer live afterwards. */
  ghost function DroppedPhotos(executed: seq<Action>, script: Script, stop: string, kind: string): set<PhotoId> {
    set n, p | 0 <= n < |executed| && LiveUploadAt(stop, kind)(executed[n])
            && !Live(EndOf(executed[n], OutcomeAt(script, 0, n))) && p in PhotosIn(executed[n].payload) :: p
  }

  lemma EndedKeepsPayload(a: Action, o: Outcome)
    ensures EndOf(a, o).payload == a.payload && EndOf(a, o).actionType == a.actionType && EndOf(a, o).stop == a.stop
  {
  }

  /** No action changes its photos, and a live one that is live no more was executed to its end. */
  lemma EffectAt(s: seq<Action>, r: seq<Action>, executed: seq<Action>, script: Script, i: nat) returns (n: int)
    requires Effect(s, r, executed, script, 0) && i < |s| && forall x :: x in executed ==> x.status == Pending
    ensures r[i].payload == s[i].payload && r[i].actionType == s[i].actionType && r[i].stop == s[i].stop
    ensures Live(r[i]) ==> Live(s[i])
    ensures Live(s[i]) && !Live(r[i]) ==>
      0 <= n < |executed| && executed[n] == s[i] && !Live(EndOf(executed[n], OutcomeAt(script, 0, n)))
  {
    n := -1;
    if s[i] in executed {
      n :| 0 <= n < |executed| && executed[n] == s[i];
      EndedKeepsPayload(s[i], OutcomeAt(script, 0, n));
      assert UpToDismissal(EndOf(executed[n], OutcomeAt(script, 0, n)), r[i]);
    } else {
      assert UpToDismissal(s[i], r[i]);
    }
  }

  lemma PhotoIsKeptOrDropped(s: seq<Action>, r: seq<Action>, executed: seq<Action>, script: Script, stop: string,
                             kind: string, p: PhotoId)
    requires Effect(s, r, executed, script, 0) && forall x :: x in executed ==> x.status == Pending
    requires p in QueuedPhotos(s, stop, kind)
    ensures p in QueuedPhotos(r, stop, kind) || p in DroppedPhotos(executed, script, stop, kind)
  {
    var x :| x in s && LiveUploadAt(stop, kind)(x) && p in PhotosIn(x.payload);
    var i :| 0 <= i < |s| && s[i] == x;
    var n := EffectAt(s, r, executed, script, i);
    assert r[i] in r;
  }

  lemma PhotoWasQueued(s: seq<Action>, r: seq<Action>, executed: seq<Action>, script: Script, stop: string, kind: string,
                       p: PhotoId)
    requires Effect(s, r, executed, script, 0) && forall x :: x in executed ==> x in s && x.status == Pending
    requires p in QueuedPhotos(r, stop, kind) || p in DroppedPhotos(executed, script, stop, kind)
    ensures p in QueuedPhotos(s, stop, kind)
  {
    if p in QueuedPhotos(r, stop, kind) {
      var y :| y in r && LiveUploadAt(stop, kind)(y) && p in PhotosIn(y.payload);
      var i :| 0 <= i < |r| && r[i] == y;
      var n := EffectAt(s, r, executed, script, i);
      assert s[i] in s;
    } else {
      var n :| 0 <= n < |executed| && LiveUploadAt(stop, kind)(executed[n]) && p in PhotosIn(executed[n].payload);
      assert executed[n] in executed;
    }
  }

  lemma QueuedAfterEffect(s: seq<Action>, r: seq<Action>, executed: seq<Action>, script: Script, stop: string, kind: string)
    requires Effect(s, r, executed, script, 0)
    requires forall x :: x in executed ==> x in s && x.status == Pending
    ensures QueuedPhotos(s, stop, kind) == QueuedPhotos(r, stop, kind) + DroppedPhotos(executed, script, stop, kind)
  {
    forall p
      ensures p in QueuedPhotos(s, stop, kind)
        <==> p in QueuedPhotos(r, stop, kind) || p in DroppedPhotos(executed, script, stop, kind)
    {
      if p in QueuedPhotos(s, stop, kind) {
        PhotoIsKeptOrDropped(s, r, executed, script, stop, kind, p);
      } else if p in QueuedPhotos(r, stop, kind) || p in DroppedPhotos(executed, script, stop, kind) {
        PhotoWasQueued(s, r, executed, script, stop, kind, p);
      }
    }
  }

  /** Conservation: the photos queued before a replay during which nothing is enqueued are those queued after
      it together with those of the uploads it executed to an end. */
  lemma ReplayConservesPhotos(q: QueueState, registered: set<ActionType>, script: Script, stop: string, kind: string)
    requires DistinctIds(q.actions) && RetriesBounded(q.actions)
    requires Undisturbed(q, Snapshot(q), registered, script, 0)
    ensures var r := RunReplay(q, registered, script);
      QueuedPhotos(q.actions, stop, kind)
      == QueuedPhotos(r.queue.actions, stop, kind) + DroppedPhotos(r.executed, script, stop, kind)
  {
    SnapshotIsSynced(q);
    ReplayEffect(q, Snapshot(q), registered, script, 0);
    ExecutedFromTodo(q, Snapshot(q), registered, script, 0);
    var r := RunReplay(q, registered, script);
    QueuedAfterEffect(q.actions, r.queue.actions, r.executed, script, stop, kind);
  }

  // -- The counter shown to the worker ---------------------------------------------------------------

  ghost predicate NoDuplicates(ids: seq<PhotoId>) {
    forall i, j :: 0 <= i < j < |ids| ==> ids[i] != ids[j]
  }

  lemma {:induction false} SizeOfIdSetIff(ids: seq<PhotoId>)
    ensures |IdSet(ids)| <= |ids|
    ensures |IdSet(ids)| == |ids| <==> NoDuplicates(ids)
  {
    if ids != [] {
      var init, last := ids[..|ids| - 1], ids[|ids| - 1];
      SizeOfIdSetIff(init);
      assert ids == init + [last];
      if last in init {
        var i :| 0 <= i < |init| && init[i] == last;
        assert ids[i] == ids[|ids| - 1];
        assert IdSet(ids) == IdSet(init);
      } else {
        assert IdSet(ids) == IdSet(init) + {last};
        assert NoDuplicates(init) ==> NoDuplicates(ids);
        if NoDuplicates(ids) {
          assert forall i, j :: 0 <= i < j < |init| ==> init[i] == ids[i] && init[j] == ids[j];
        }
      }
    }
  }

  /** The ids of all live uploads for one stop and kind, one list after the other. */
  function LiveIds(s: seq<Action>, stop: string, kind: string): seq<PhotoId> {
    if s == [] then []
    else (if LiveUploadAt(stop, kind)(s[0]) then PhotosIn(s[0].payload) else []) + LiveIds(s[1..], stop, kind)
  }

  lemma {:induction false} LiveIdsAreQueued(s: seq<Action>, stop: string, kind: string)
    ensures QueuedCount(s, stop, kind) == |LiveIds(s, stop, kind)|
    ensures QueuedPhotos(s, stop, kind) == IdSet(LiveIds(s, stop, kind))
  {
    if s != [] {
      LiveIdsAreQueued(s[1..], stop, kind);
      var own := if LiveUploadAt(stop, kind)(s[0]) then PhotosIn(s[0].payload) else [];
      assert forall x :: x in s <==> x == s[0] || x in s[1..];
      assert IdSet(own + LiveIds(s[1..], stop, kind)) == IdSet(own) + IdSet(LiveIds(s[1..], stop, kind));
      assert QueuedPhotos(s, stop, kind) == IdSet(own) + QueuedPhotos(s[1..], stop, kind);
    }
  }

  /** The counter is the number of distinct queued photos exactly when no id stands twice in the live uploads
      for the stop and kind. */
  lemma CountIsDistinctPhotosIff(s: seq<Action>, stop: string, kind: string)
    ensures QueuedCount(s, stop, kind) == |QueuedPhotos(s, stop, kind)| <==> NoDuplicates(LiveIds(s, stop, kind))
    ensures QueuedCount(s, stop, kind) >= |QueuedPhotos(s, stop, kind)|
  {
    LiveIdsAreQueued(s, stop, kind);
    SizeOfIdSetIff(LiveIds(s, stop, kind));
  }

  ghost predicate ListsAreDistinct(s: seq<Action>) {
    forall x :: x in s ==> NoDuplicates(PhotosIn(x.payload))
  }

  lemma {:induction false} NoLiveNoIds(s: seq<Action>, stop: string, kind: string)
    requires forall x :: x in s ==> !LiveUploadAt(stop, kind)(x)
    ensures LiveIds(s, stop, kind) == []
  {
    if s != [] {
      assert s[0] in s;
      NoLiveNoIds(s[1..], stop, kind);
    }
  }

  lemma {:induction false} OneLiveHasNoDuplicates(s: seq<Action>, stop: string, kind: string)
    requires AtMostOne(s, LiveUploadAt(stop, kind)) && ListsAreDistinct(s)
    ensures NoDuplicates(LiveIds(s, stop, kind))
  {
    if s != [] {
      var group := LiveUploadAt(stop, kind);
      if group(s[0]) {
        forall x | x in s[1..] ensures !group(x) {
          var j :| 0 <= j < |s[1..]| && s[1..][j] == x;
          assert s[j + 1] == x;
        }
        NoLiveNoIds(s[1..], stop, kind);
        assert s[0] in s;
        assert LiveIds(s, stop, kind) == PhotosIn(s[0].payload);
      } else {
        OneLiveHasNoDuplicates(s[1..], stop, kind);
        assert LiveIds(s, stop, kind) == LiveIds(s[1..], stop, kind);
      }
    }
  }

  /** Enqueued uploads list their own photos once. */
  predicate EnqueuesDistinct(e: Event) {
    e.Enqueued? ==> forall i, j :: 0 <= i < j < |PhotosIn(e.action.payload)| ==>
      PhotosIn(e.action.payload)[i] != PhotosIn(e.action.payload)[j]
  }

  lemma StepKeepsDistinctLists(m: Machine, e: Event, registered: set<ActionType>)
    requires Consistent(m) && Enabled(m, e) && ListsAreDistinct(m.queue.actions) && EnqueuesDistinct(e)
    ensures ListsAreDistinct(Next(m, e, registered).queue.actions)
  {
    match e
    case Enqueued(a) => EnqueueKeepsDistinctLists(m, a);
    case Dismissed(id) =>
      StatusUpdatesKeepIdentity(Done, None, 0);
      UpdateKeepsIds(m.queue, id, ToStatus(Done, None));
    case Took =>
      StatusUpdatesKeepIdentity(Running, None, 0);
      UpdateKeepsIds(m.queue, Todo(m)[0].id, ToStatus(Running, None));
    case Finished(o) =>
      var a := Current(m).value;
      FinishUpdateFacts(a, o);
      UpdateKeepsIds(if o.Auth? then m.queue.(requiresAuth := true) else m.queue, a.id, FinishUpdate(a, o));
    case _ =>
  }

  lemma EnqueueKeepsDistinctLists(m: Machine, a: Action)
    requires Enabled(m, Enqueued(a)) && ListsAreDistinct(m.queue.actions) && NoDuplicates(PhotosIn(a.payload))
    ensures ListsAreDistinct(EnqueueActions(m.queue.actions, a))
  {
    var s := m.queue.actions;
    var k, merged := EnqueueShape(s, a);
    if 0 <= k < |s| && a.actionType == UploadStopPhotos {
      DistinctMembers(PhotosIn(s[k].payload) + PhotosIn(a.payload));
    }
  }

  lemma {:induction false} RunKeepsDistinctLists(m: Machine, events: seq<Event>, registered: set<ActionType>)
    requires IsRun(m, events, registered) && Consistent(m) && ListsAreDistinct(m.queue.actions)
    requires forall e :: e in events ==> EnqueuesDistinct(e)
    ensures ListsAreDistinct(After(m, events, registered).queue.actions)
    decreases |events|
  {
    if events != [] {
      assert events[0] in events;
      StepKeepsConsistent(m, events[0], registered);
      StepKeepsDistinctLists(m, events[0], registered);
      RunKeepsDistinctLists(Next(m, events[0], registered), events[1..], registered);
    }
  }

  /** When no enqueue overlaps a replay, no reload interrupts an executor call, and every enqueued list names
      its photos once, the counter shown to the worker is the number of distinct queued photos. */
  lemma QuietCountIsDistinct(events: seq<Event>, registered: set<ActionType>, stop: string, kind: string)
    requires IsRun(INITIAL, events, registered) && Quiet(INITIAL, events, registered)
    requires Uninterrupted(INITIAL, events, registered)
    requires forall e :: e in events ==> EnqueuesDistinct(e)
    ensures var s := After(INITIAL, events, registered).queue.actions;
      QueuedCount(s, stop, kind) == |QueuedPhotos(s, stop, kind)|
  {
    var s := After(INITIAL, events, registered).queue.actions;
    ReachableQueuesAreLimited(events, registered);
    RunKeepsDistinctLists(INITIAL, events, registered);
    OneLiveHasNoDuplicates(s, stop, kind);
    CountIsDistinctPhotosIff(s, stop, kind);
  }
}
