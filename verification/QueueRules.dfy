/** The rules of the offline queue, field by field: what each operation of the queue does to the list of
    actions, said without the functions that compute it. */
module QueueRules {
  import opened Wrappers
  import opened Sequences
  import opened OfflineActions
  import opened ReplayMachine
  import opened ReplayRun
  import opened ReplayLimits
  import opened PhotoQueue
  import OfflineQueue
  import ReplayProtocol
  import T = StopTables

  // -- Enqueueing ------------------------------------------------------------------------------------

  /** A start that is waiting or being sent. */
  ghost predicate IsLiveStart(x: Action, stop: string) {
    x.actionType == StartStop && (x.status == Pending || x.status == Running) && x.stop == stop
  }

  /** A start is dropped exactly when its own stop has a start that is waiting or being sent. */
  lemma EnqueuedStart(s: seq<Action>, a: Action)
    requires a.actionType == StartStop && (a.status == Pending || a.status == Running)
    ensures EnqueueActions(s, a) == if exists x :: x in s && IsLiveStart(x, a.stop) then s else s + [a]
  {
    var f := FindIndex(s, LiveStartAt(a.stop));
    if f.Some? {
      assert s[f.value] in s && IsLiveStart(s[f.value], a.stop);
    }
  }

  /** After enqueueing a start, its stop has one in the queue that is waiting or being sent. */
  lemma StartIsQueued(s: seq<Action>, a: Action)
    requires a.actionType == StartStop && a.status == Pending
    ensures exists x :: x in EnqueueActions(s, a) && IsLiveStart(x, a.stop)
  {
    EnqueuedStart(s, a);
    assert a in s + [a];
  }

  ghost predicate IsPendingSkip(x: Action, stop: string) {
    x.actionType == SkipStopWithHazard && x.status == Pending && x.stop == stop
  }

  ghost predicate IsPendingUpload(x: Action, stop: string, kind: string) {
    && x.actionType == UploadStopPhotos && x.status == Pending && x.stop == stop
    && x.payload.Upload? && x.payload.kind == Some(kind)
  }

  ghost predicate FirstPendingSkip(s: seq<Action>, k: int, stop: string) {
    0 <= k < |s| && IsPendingSkip(s[k], stop) && forall j :: 0 <= j < k ==> !IsPendingSkip(s[j], stop)
  }

  ghost predicate FirstPendingUpload(s: seq<Action>, k: int, stop: string, kind: string) {
    0 <= k < |s| && IsPendingUpload(s[k], stop, kind) && forall j :: 0 <= j < k ==> !IsPendingUpload(s[j], stop, kind)
  }

  /** A skip takes the place of the first waiting skip of its stop. */
  lemma EnqueuedSkip(s: seq<Action>, a: Action)
    requires a.actionType == SkipStopWithHazard && a.status == Pending
    ensures forall k :: FirstPendingSkip(s, k, a.stop) ==> EnqueueActions(s, a) == s[k := a]
    ensures (forall k :: 0 <= k < |s| ==> !IsPendingSkip(s[k], a.stop)) ==> EnqueueActions(s, a) == s + [a]
  {
    var f := FindIndex(s, PendingSkipAt(a.stop));
    forall k | FirstPendingSkip(s, k, a.stop) ensures f == Some(k) {
      assert PendingSkipAt(a.stop)(s[k]);
      assert f.Some? && IsPendingSkip(s[f.value], a.stop);
    }
  }

  /** `merged` lists the old ids and then the new ones, each at its first occurrence. */
  ghost predicate ListsOnce(merged: seq<PhotoId>, all: seq<PhotoId>) {
    && (forall p :: p in merged <==> p in all)
    && (forall i, j :: 0 <= i < j < |merged| ==> merged[i] != merged[j])
    && (forall i, j :: 0 <= i < j < |merged| ==> StandsFirst(all, merged[i], merged[j]))
  }

  /** `p` occurs in the list before every occurrence of `q`. */
  ghost predicate StandsFirst(all: seq<PhotoId>, p: PhotoId, q: PhotoId) {
    exists m :: 0 <= m < |all| && all[m] == p && forall n :: 0 <= n <= m ==> all[n] != q
  }

  lemma StandsFirstExtends(all: seq<PhotoId>, last: PhotoId, p: PhotoId, q: PhotoId)
    requires StandsFirst(all, p, q)
    ensures StandsFirst(all + [last], p, q)
  {
    var m :| 0 <= m < |all| && all[m] == p && forall n :: 0 <= n <= m ==> all[n] != q;
    assert (all + [last])[m] == p;
  }

  lemma {:induction false} DistinctListsOnce(all: seq<PhotoId>)
    ensures ListsOnce(Distinct(all), all)
    decreases |all|
  {
    if all != [] {
      var init, last := all[..|all| - 1], all[|all| - 1];
      var merged := Distinct(all);
      DistinctListsOnce(init);
      assert all == init + [last];
      forall i, j | 0 <= i < j < |merged| ensures StandsFirst(all, merged[i], merged[j]) {
        if j < |Distinct(init)| {
          StandsFirstExtends(init, last, merged[i], merged[j]);
        } else {
          assert merged[i] in Distinct(init);
          var m :| 0 <= m < |init| && init[m] == merged[i];
          assert all[m] == merged[i] && forall n :: 0 <= n <= m ==> all[n] in init;
        }
      }
    }
  }

  /** An upload is merged into the first waiting upload of its stop and kind: its photos come behind the ones
      queued already, each once, and nothing else of that action changes. */
  lemma EnqueuedUpload(s: seq<Action>, a: Action)
    requires a.actionType == UploadStopPhotos && a.status == Pending && a.payload.Upload?
    requires a.payload.kind.Some? && a.payload.kind.value != "" && a.payload.photoIds.Some?
    ensures forall k :: FirstPendingUpload(s, k, a.stop, a.payload.kind.value) ==>
      MergedAt(s, EnqueueActions(s, a), k, a.payload.photoIds.value)
    ensures (forall k :: 0 <= k < |s| ==> !IsPendingUpload(s[k], a.stop, a.payload.kind.value)) ==>
      EnqueueActions(s, a) == s + [a]
  {
    var kind := a.payload.kind.value;
    var f := FindIndex(s, PendingUploadLike(a.stop, kind));
    forall k | FirstPendingUpload(s, k, a.stop, kind)
      ensures MergedAt(s, EnqueueActions(s, a), k, a.payload.photoIds.value)
    {
      assert PendingUploadLike(a.stop, kind)(s[k]);
      assert f.Some? && IsPendingUpload(s[f.value], a.stop, kind) && f.value == k;
      DistinctListsOnce(s[k].payload.photoIds.GetOr([]) + a.payload.photoIds.value);
    }
  }

  ghost predicate MergedAt(s: seq<Action>, r: seq<Action>, k: nat, ids: seq<PhotoId>)
    requires k < |s| && s[k].payload.Upload?
  {
    && |r| == |s| && r[k].payload.Upload? && r[k].payload.photoIds.Some?
    && r == s[k := s[k].(payload := Upload(s[k].payload.kind, r[k].payload.photoIds))]
    && ListsOnce(r[k].payload.photoIds.value, s[k].payload.photoIds.GetOr([]) + ids)
  }

  /** Everything else is appended: completions, other types, actions that are not waiting, and uploads that
      name no kind or list no photos. */
  lemma EnqueuedOtherwise(s: seq<Action>, a: Action)
    requires a.actionType == StartStop ==> a.status != Pending && a.status != Running
    requires a.actionType == SkipStopWithHazard ==> a.status != Pending
    requires a.actionType == UploadStopPhotos && a.status == Pending ==>
      !(a.payload.Upload? && a.payload.kind.GetOr("") != "" && a.payload.photoIds.Some?)
    ensures EnqueueActions(s, a) == s + [a]
  {
  }

  // -- Status updates and the ends of executor calls ---------------------------------------------------

  ghost predicate FirstWithId(s: seq<Action>, k: int, id: string) {
    0 <= k < |s| && s[k].id == id && forall j :: 0 <= j < k ==> s[j].id != id
  }

  /** A status update gives the first action with the id its new status and error, and changes nothing else. */
  lemma UpdatedStatus(q: QueueState, id: string, status: Status, lastError: Option<string>)
    ensures forall k :: FirstWithId(q.actions, k, id) ==>
      SetStatus(q, id, status, lastError)
      == q.(actions := q.actions[k := q.actions[k].(status := status, lastError := lastError)])
    ensures (forall x :: x in q.actions ==> x.id != id) ==> SetStatus(q, id, status, lastError) == q
  {
    var f := FindIndex(q.actions, HasId(id));
    forall k | FirstWithId(q.actions, k, id) ensures f == Some(k) {
      assert HasId(id)(q.actions[k]);
    }
  }

  /** What becomes of the queued action when its executor call ends: the branches of the catch block, with
      their codes and limits. */
  function AfterOutcome(x: Action, retryCount: nat, o: Outcome): Action {
    match o
    case Ok => x.(status := Done, lastError := None)
    case Auth => x.(status := Pending, lastError := None)
    case Network => x.(status := Pending, lastError := None)
    case Code(c, m) =>
      if c == "ALREADY_COMPLETE" || c == "ALREADY_SKIPPED" then x.(status := Done, lastError := None)
      else if c == "ROUTE_NOT_FOUND" || c == "ROUTE_REASSIGNED" then x.(status := Conflict, lastError := Some(c))
      else x.(status := Failed, lastError := Some(m))
    case RetryPhoto =>
      if retryCount < 3
      then x.(status := Pending, retryCount := retryCount + 1, lastError := Some("RETRY_NEEDED_PHOTO_MISSING"))
      else x.(status := Failed, lastError := Some("RETRY_NEEDED_PHOTO_MISSING"))
    case OtherError(m) => x.(status := Failed, lastError := Some(m))
  }

  /** The end of an executor call changes the first action with the id of the one that was sent, as its
      outcome says, and flags a missing authorisation. */
  lemma FinishedCall(q: QueueState, a: Action, o: Outcome)
    ensures Finish(q, a, o).requiresAuth == (q.requiresAuth || o == Auth)
    ensures forall k :: FirstWithId(q.actions, k, a.id) ==>
      Finish(q, a, o).actions == q.actions[k := AfterOutcome(q.actions[k], a.retryCount, o)]
    ensures (forall x :: x in q.actions ==> x.id != a.id) ==> Finish(q, a, o).actions == q.actions
  {
    var f := FindIndex(q.actions, HasId(a.id));
    forall k | FirstWithId(q.actions, k, a.id) ensures f == Some(k) {
      assert HasId(a.id)(q.actions[k]);
    }
  }

  /** The call reports a stop that has ended: a completion that went through, or one that was complete
      already, or a skip of a stop that is skipped or complete. */
  ghost predicate TellsOfEnd(a: Action, o: Outcome) {
    || (o == Ok && a.actionType == CompleteStop)
    || (o.Code? && o.code == "ALREADY_COMPLETE" && (a.actionType == CompleteStop || a.actionType == SkipStopWithHazard))
    || (o.Code? && o.code == "ALREADY_SKIPPED" && a.actionType == SkipStopWithHazard)
  }

  ghost predicate TellsAt(executed: seq<Action>, script: Script, k: nat, n: int) {
    0 <= n < |executed| && TellsOfEnd(executed[n], script(k + n).outcome)
  }

  ghost predicate SomeTells(executed: seq<Action>, script: Script, k: nat) {
    exists n :: TellsAt(executed, script, k, n)
  }

  lemma SomeTellsOfCons(a: Action, rest: seq<Action>, script: Script, k: nat)
    ensures SomeTells([a] + rest, script, k) <==> TellsOfEnd(a, script(k).outcome) || SomeTells(rest, script, k + 1)
  {
    var all := [a] + rest;
    if TellsOfEnd(a, script(k).outcome) {
      assert TellsAt(all, script, k, 0);
    }
    if SomeTells(rest, script, k + 1) {
      var n :| TellsAt(rest, script, k + 1, n);
      assert TellsAt(all, script, k, n + 1);
    }
    if SomeTells(all, script, k) {
      var n :| TellsAt(all, script, k, n);
      assert n > 0 ==> TellsAt(rest, script, k + 1, n - 1);
    }
  }

  lemma {:induction false} ReportedFromIff(q: QueueState, todo: seq<Action>, registered: set<ActionType>, script: Script, k: nat)
    ensures var r := ReplayFrom(q, todo, registered, script, k); r.reported <==> SomeTells(r.executed, script, k)
    decreases |todo|
  {
    if todo != [] {
      var a := todo[0];
      if a.actionType !in registered {
        ReportedFromIff(q, todo[1..], registered, script, k);
      } else if Breaks(script(k).outcome) {
        SomeTellsOfCons(a, [], script, k);
        assert [a] + [] == [a];
      } else {
        var after := Execute(q, a, script(k));
        ReportedFromIff(after, todo[1..], registered, script, k + 1);
        SomeTellsOfCons(a, ReplayFrom(after, todo[1..], registered, script, k + 1).executed, script, k);
      }
    }
  }

  /** A replay reports the end of a stop exactly when one of its executor calls tells of one. */
  lemma ReportedIff(q: QueueState, registered: set<ActionType>, script: Script)
    ensures var r := RunReplay(q, registered, script);
      r.reported <==> exists n :: 0 <= n < |r.executed| && TellsOfEnd(r.executed[n], script(n).outcome)
  {
    ReportedFromIff(q, Snapshot(q), registered, script, 0);
    var r := RunReplay(q, registered, script);
    assert forall n :: TellsAt(r.executed, script, 0, n) <==> 0 <= n < |r.executed| && TellsOfEnd(r.executed[n], script(n).outcome);
  }

  // -- The order of a replay ---------------------------------------------------------------------------

  /** No later type comes before an earlier one: starts, uploads, skips, completions, all others. */
  ghost predicate TypesInOrder(x: Action, y: Action) {
    && (y.actionType == StartStop ==> x.actionType == StartStop)
    && (y.actionType == UploadStopPhotos ==> x.actionType == StartStop || x.actionType == UploadStopPhotos)
    && (y.actionType == SkipStopWithHazard ==> x.actionType != CompleteStop && !x.actionType.OtherType?)
    && (y.actionType == CompleteStop ==> !x.actionType.OtherType?)
  }

  ghost predicate SameGroup(x: Action, y: Action) {
    x.actionType == y.actionType || (x.actionType.OtherType? && y.actionType.OtherType?)
  }

  ghost predicate QueuedBefore(s: seq<Action>, x: Action, y: Action) {
    exists i, j :: 0 <= i < j < |s| && s[i] == x && s[j] == y
  }

  /** A replay works through the waiting actions by type, within a type by age, and among actions of the
      same age as they stand in the queue. */
  lemma ReplayOrderIs(q: QueueState, i: nat, j: nat)
    requires DistinctIds(q.actions) && i < j < |Snapshot(q)|
    ensures forall x :: x in Snapshot(q) <==> x in q.actions && x.status == Pending
    ensures var x, y := Snapshot(q)[i], Snapshot(q)[j];
      && TypesInOrder(x, y)
      && (SameGroup(x, y) ==> x.createdAt <= y.createdAt)
      && (SameGroup(x, y) && x.createdAt == y.createdAt ==> QueuedBefore(q.actions, x, y))
  {
    var pending := Filter(q.actions, IsPending());
    var x, y := Snapshot(q)[i], Snapshot(q)[j];
    SnapshotMembers(q);
    ReplayOrderIsTotal();
    SortSorts(pending, ReplayOrder());
    assert ReplayOrder()(x, y);
    if SameGroup(x, y) && x.createdAt == y.createdAt {
      TiesKeepOrder(q, i, j);
    }
  }

  /** Which actions are of one group and age. */
  function LikeAction(x: Action): Action -> bool {
    (y: Action) => Rank(y.actionType) == Rank(x.actionType) && y.createdAt == x.createdAt
  }

  lemma {:induction false} FilteredPair(s: seq<Action>, keep: Action -> bool, i: nat, j: nat)
    requires i < j < |Filter(s, keep)|
    ensures QueuedBefore(s, Filter(s, keep)[i], Filter(s, keep)[j])
  {
    var f, rest := Filter(s, keep), Filter(s[1..], keep);
    FilterMembers(s[1..], keep);
    if keep(s[0]) && i == 0 {
      assert f[j] == rest[j - 1] && rest[j - 1] in rest;
      var m :| 0 <= m < |s[1..]| && s[1..][m] == f[j];
      assert s[0] == f[0] && s[m + 1] == f[j];
    } else {
      var d := if keep(s[0]) then 1 else 0;
      FilteredPair(s[1..], keep, i - d, j - d);
      var a, b :| 0 <= a < b < |s[1..]| && s[1..][a] == f[i] && s[1..][b] == f[j];
      assert s[a + 1] == f[i] && s[b + 1] == f[j];
    }
  }

  lemma {:induction false} PairInFilter(s: seq<Action>, keep: Action -> bool, i: nat, j: nat) returns (a: nat, b: nat)
    requires i < j < |s| && keep(s[i]) && keep(s[j])
    ensures a < b < |Filter(s, keep)| && Filter(s, keep)[a] == s[i] && Filter(s, keep)[b] == s[j]
  {
    var rest := Filter(s[1..], keep);
    if i == 0 {
      FilterMembers(s[1..], keep);
      assert s[1..][j - 1] in rest;
      var m :| 0 <= m < |rest| && rest[m] == s[j];
      a, b := 0, m + 1;
    } else {
      a, b := PairInFilter(s[1..], keep, i - 1, j - 1);
      if keep(s[0]) {
        a, b := a + 1, b + 1;
      }
    }
  }

  lemma TiesKeepOrder(q: QueueState, i: nat, j: nat)
    requires i < j < |Snapshot(q)| && LikeAction(Snapshot(q)[i])(Snapshot(q)[j])
    ensures QueuedBefore(q.actions, Snapshot(q)[i], Snapshot(q)[j])
  {
    var pending, x := Filter(q.actions, IsPending()), Snapshot(q)[i];
    ReplayOrderIsTotal();
    SortKeepsTies(pending, ReplayOrder(), LikeAction(x));
    var a, b := PairInFilter(Snapshot(q), LikeAction(x), i, j);
    FilteredPair(pending, LikeAction(x), a, b);
    PendingPair(q, x, Snapshot(q)[j]);
  }

  lemma PendingPair(q: QueueState, x: Action, y: Action)
    requires QueuedBefore(Filter(q.actions, IsPending()), x, y)
    ensures QueuedBefore(q.actions, x, y)
  {
    var pending := Filter(q.actions, IsPending());
    var m, n :| 0 <= m < n < |pending| && pending[m] == x && pending[n] == y;
    FilteredPair(q.actions, IsPending(), m, n);
  }

  // -- Photos waiting ----------------------------------------------------------------------------------

  /** An upload for the stop and kind that is waiting or being sent. */
  ghost predicate WaitsWithPhotos(x: Action, stop: string, kind: string) {
    && x.actionType == UploadStopPhotos && (x.status == Pending || x.status == Running) && x.stop == stop
    && x.payload.Upload? && x.payload.kind == Some(kind)
  }

  /** The photos that count as queued, and the counter: one more action adds as many as it lists when it is an
      upload for the stop and kind that is waiting or being sent. */
  lemma QueuedPhotosAre(s: seq<Action>, x: Action, stop: string, kind: string, p: PhotoId)
    ensures p in QueuedPhotos(s, stop, kind) <==>
      exists y :: y in s && WaitsWithPhotos(y, stop, kind) && y.payload.photoIds.Some? && p in y.payload.photoIds.value
    ensures QueuedCount([], stop, kind) == 0
    ensures QueuedCount([x] + s, stop, kind) == QueuedCount(s, stop, kind)
      + if WaitsWithPhotos(x, stop, kind) && x.payload.photoIds.Some? then |x.payload.photoIds.value| else 0
  {
    assert ([x] + s)[1..] == s;
    if p in QueuedPhotos(s, stop, kind) {
      var y :| y in s && LiveUploadAt(stop, kind)(y) && p in PhotosIn(y.payload);
      assert WaitsWithPhotos(y, stop, kind);
    }
    if y :| y in s && WaitsWithPhotos(y, stop, kind) && y.payload.photoIds.Some? && p in y.payload.photoIds.value {
      assert LiveUploadAt(stop, kind)(y) && p in PhotosIn(y.payload);
    }
  }

  // -- Requests and keys -------------------------------------------------------------------------------

  /** What the executors send: the stop of the action, and of its payload what the server is to be told. An
      upload without a kind is one of the kind "completion"; one without photos sends nothing. */
  lemma RequestIs(a: Action)
    ensures a.actionType == StartStop ==> ReplayProtocol.RequestOf(a) == Some(T.Start(a.stop))
    ensures a.actionType == UploadStopPhotos && a.payload.Upload? && a.payload.photoIds.GetOr([]) != [] ==>
      ReplayProtocol.RequestOf(a) == Some(T.Upload(a.stop,
        if a.payload.kind == None || a.payload.kind == Some("") then "completion" else a.payload.kind.value,
        a.payload.photoIds.value))
    ensures a.actionType == UploadStopPhotos && (a.payload.Upload? ==> a.payload.photoIds.GetOr([]) == []) ==>
      ReplayProtocol.RequestOf(a) == None
    ensures a.actionType == SkipStopWithHazard && a.payload.SkipReport? ==>
      ReplayProtocol.RequestOf(a) == Some(T.Skip(a.stop, a.payload.hazards))
    ensures a.actionType == CompleteStop && a.payload.Completion? ==>
      ReplayProtocol.RequestOf(a) == Some(T.Complete(a.stop, a.payload.report))
  {
  }

  /** A user who has no queue yet has an empty one. */
  lemma NewQueueIs()
    ensures EMPTY_QUEUE.actions == [] && !EMPTY_QUEUE.requiresAuth
  {
  }

  /** A user is signed in with both ids, neither of them empty. */
  lemma SignedInIs(u: OfflineQueue.Identity)
    ensures OfflineQueue.SignedIn(u) <==> u.tenantId.GetOr("") != "" && u.oid.GetOr("") != ""
  {
  }

  predicate NoColon(s: string) {
    ':' !in s
  }

  lemma NoEarlierColon(a: string, b: string, c: string, d: string)
    requires NoColon(c) && a + ":" + b == c + ":" + d
    ensures |c| <= |a|
  {
    var s := a + ":" + b;
    assert s[|a|] == ':' && forall i :: 0 <= i < |c| ==> s[i] == c[i] && c[i] in c;
  }

  lemma SplitAtColon(a: string, b: string, c: string, d: string)
    requires NoColon(a) && NoColon(c) && a + ":" + b == c + ":" + d
    ensures a == c && b == d
  {
    var s := a + ":" + b;
    NoEarlierColon(a, b, c, d);
    NoEarlierColon(c, d, a, b);
    assert s[..|a|] == a && s[..|c|] == c && s[|a| + 1..] == b && s[|c| + 1..] == d;
  }

  /** Different users of tenants whose ids hold no colon have different queues. */
  lemma UsersHaveTheirOwnQueue(u: OfflineQueue.Identity, w: OfflineQueue.Identity)
    requires OfflineQueue.SignedIn(u) && OfflineQueue.SignedIn(w)
    requires NoColon(u.tenantId.value) && NoColon(w.tenantId.value)
    ensures OfflineQueue.QueueKey(u) == OfflineQueue.QueueKey(w) <==> u.tenantId == w.tenantId && u.oid == w.oid
  {
    var prefix := "fieldpro-offline-queue:";
    var x, y := u.tenantId.value + ":" + u.oid.value, w.tenantId.value + ":" + w.oid.value;
    assert OfflineQueue.QueueKey(u) == prefix + x && OfflineQueue.QueueKey(w) == prefix + y;
    if prefix + x == prefix + y {
      assert (prefix + x)[|prefix|..] == x && (prefix + y)[|prefix|..] == y;
      SplitAtColon(u.tenantId.value, u.oid.value, w.tenantId.value, w.oid.value);
    }
  }
}
