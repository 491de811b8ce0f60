/** The module state of the offline queue: one queue per signed-in user, and the operations of the page
    and of the sync manager on it. */
module OfflineQueue {
  import opened Wrappers
  import opened Sequences
  import opened OfflineActions
  import opened ReplayMachine
  import opened ReplayRun
  import opened ReplayLimits
  import opened PhotoQueue

  /** Tenant and user id of the signed-in user; either may be missing. */
  datatype Identity = Identity(tenantId: Option<string>, oid: Option<string>)

  predicate Present(s: Option<string>) {
    s.Some? && s.value != ""
  }

  predicate SignedIn(u: Identity) {
    Present(u.tenantId) && Present(u.oid)
  }

  function QueueKey(u: Identity): string {
    "fieldpro-offline-queue:" + u.tenantId.GetOr("") + ":" + u.oid.GetOr("")
  }

  class QueueStore {
    var memoryCache: map<string, QueueState>

    constructor ()
      ensures memoryCache == map[]
    {
      memoryCache := map[];
    }

    /** `loadQueueForUser`. */
    function Load(u: Identity): QueueState
      reads this
    {
      if SignedIn(u) && QueueKey(u) in memoryCache then memoryCache[QueueKey(u)] else EMPTY_QUEUE
    }

    method PersistState(u: Identity, q: QueueState)
      requires SignedIn(u)
      modifies this
      ensures memoryCache == old(memoryCache)[QueueKey(u) := q]
      ensures Load(u) == q
    {
      memoryCache := memoryCache[QueueKey(u) := q];
    }

    method EnqueueAction(u: Identity, action: Action) returns (q: QueueState)
      modifies this
      ensures SignedIn(u) ==> q == Enqueue(old(Load(u)), action) && memoryCache == old(memoryCache)[QueueKey(u) := q]
      ensures !SignedIn(u) ==> q == EMPTY_QUEUE && memoryCache == old(memoryCache)
    {
      if !SignedIn(u) {
        return EMPTY_QUEUE;
      }
      var currentState := Load(u);
      var actions := currentState.actions;
      if action.actionType == UploadStopPhotos && action.status == Pending {
        if Mergeable(action.payload) {
          var existingIndex := FindIndex(actions, PendingUploadLike(action.stop, action.payload.kind.value));
          if existingIndex.Some? {
            var existing := actions[existingIndex.value];
            actions := actions[existingIndex.value := MergePhotos(existing, action.payload.photoIds.value)];
          } else {
            actions := actions + [action];
          }
        } else {
          actions := actions + [action];
        }
      } else if action.actionType == StartStop && Live(action) {
        var exists_ := FindIndex(actions, LiveStartAt(action.stop));
        if exists_.None? {
          actions := actions + [action];
        }
      } else if action.actionType == SkipStopWithHazard && action.status == Pending {
        var existingIndex := FindIndex(actions, PendingSkipAt(action.stop));
        if existingIndex.Some? {
          actions := actions[existingIndex.value := action];
        } else {
          actions := actions + [action];
        }
      } else {
        actions := actions + [action];
      }
      q := currentState.(actions := actions);
      PersistState(u, q);
    }

    method UpdateActionStatus(u: Identity, id: string, status: Status, lastError: Option<string>) returns (q: QueueState)
      modifies this
      ensures SignedIn(u) ==> q == SetStatus(old(Load(u)), id, status, lastError) && Load(u) == q
      ensures memoryCache - {QueueKey(u)} == old(memoryCache) - {QueueKey(u)}
      ensures !SignedIn(u) ==> q == EMPTY_QUEUE && memoryCache == old(memoryCache)
    {
      if !SignedIn(u) {
        return EMPTY_QUEUE;
      }
      q := Load(u);
      var actionIndex := FindIndex(q.actions, HasId(id));
      if actionIndex.Some? {
        var k := actionIndex.value;
        q := q.(actions := q.actions[k := q.actions[k].(status := status, lastError := lastError)]);
        PersistState(u, q);
      }
    }

    method SetRequiresAuth(u: Identity, requiresAuth: bool) returns (q: QueueState)
      modifies this
      ensures SignedIn(u) ==> q == old(Load(u)).(requiresAuth := requiresAuth) && Load(u) == q
      ensures memoryCache - {QueueKey(u)} == old(memoryCache) - {QueueKey(u)}
      ensures !SignedIn(u) ==> q == EMPTY_QUEUE && memoryCache == old(memoryCache)
    {
      if !SignedIn(u) {
        return EMPTY_QUEUE;
      }
      q := Load(u);
      if q.requiresAuth != requiresAuth {
        q := q.(requiresAuth := requiresAuth);
        PersistState(u, q);
      }
    }

    method ClearOfflineState(u: Identity) returns (q: QueueState)
      modifies this
      ensures q == EMPTY_QUEUE == Load(u)
      ensures memoryCache - {QueueKey(u)} == old(memoryCache) - {QueueKey(u)}
    {
      q := EMPTY_QUEUE;
      if SignedIn(u) {
        PersistState(u, q);
      }
    }

    method DismissConflict(u: Identity, id: string) returns (q: QueueState)
      modifies this
      ensures SignedIn(u) ==> q == SetStatus(old(Load(u)), id, Done) && Load(u) == q
      ensures memoryCache - {QueueKey(u)} == old(memoryCache) - {QueueKey(u)}
      ensures !SignedIn(u) ==> q == EMPTY_QUEUE && memoryCache == old(memoryCache)
    {
      q := UpdateActionStatus(u, id, Done, None);
    }

    method GetQueuedUploadCountForStop(u: Identity, stop: string, kind: string) returns (n: nat)
      ensures n == if SignedIn(u) then QueuedCount(Load(u).actions, stop, kind) else 0
    {
      n := 0;
      if SignedIn(u) {
        var actions := Load(u).actions;
        for k := 0 to |actions|
          invariant n + QueuedCount(actions[k..], stop, kind) == QueuedCount(actions, stop, kind)
        {
          assert actions[k..][1..] == actions[k + 1..];
          if LiveUploadAt(stop, kind)(actions[k]) {
            n := n + |PhotosIn(actions[k].payload)|;
          }
        }
      }
    }

    /** What the page does to the queue of user `u` while an executor is awaited. */
    method LetPageAct(u: Identity, events: seq<Event>)
      requires SignedIn(u)
      modifies this
      ensures Load(u) == ApplyPage(old(Load(u)), events)
      ensures memoryCache - {QueueKey(u)} == old(memoryCache) - {QueueKey(u)}
    {
      for k := 0 to |events|
        invariant ApplyPage(Load(u), events[k..]) == ApplyPage(old(Load(u)), events)
        invariant memoryCache - {QueueKey(u)} == old(memoryCache) - {QueueKey(u)}
      {
        assert events[k..][0] == events[k] && events[k..][1..] == events[k + 1..];
        var q: QueueState;
        match events[k]
        case Enqueued(a) => q := EnqueueAction(u, a);
        case Dismissed(id) => q := DismissConflict(u, id);
        case AuthFlagged(b) => q := SetRequiresAuth(u, b);
        case _ =>
      }
    }

    /** The end of one executor call. */
    method ApplyOutcome(u: Identity, action: Action, outcome: Outcome)
      requires SignedIn(u)
      modifies this
      ensures Load(u) == Finish(old(Load(u)), action, outcome)
      ensures memoryCache - {QueueKey(u)} == old(memoryCache) - {QueueKey(u)}
    {
      var q: QueueState;
      if outcome.Ok? {
        q := UpdateActionStatus(u, action.id, Done, None);
      } else if outcome.Auth? {
        q := SetRequiresAuth(u, true);
        q := UpdateActionStatus(u, action.id, Pending, None);
      } else if outcome.Network? {
        q := UpdateActionStatus(u, action.id, Pending, None);
      } else if outcome.Code? && (outcome.code == ALREADY_COMPLETE || outcome.code == ALREADY_SKIPPED) {
        q := UpdateActionStatus(u, action.id, Done, None);
      } else if outcome.Code? && (outcome.code == ROUTE_NOT_FOUND || outcome.code == ROUTE_REASSIGNED) {
        q := UpdateActionStatus(u, action.id, Conflict, Some(outcome.code));
      } else if outcome.RetryPhoto? {
        if action.retryCount < MAX_RETRIES {
          q := Load(u);
          var idx := FindIndex(q.actions, HasId(action.id));
          if idx.Some? {
            var k := idx.value;
            q := q.(actions := q.actions[k :=
              q.actions[k].(status := Pending, retryCount := action.retryCount + 1, lastError := Some(RETRY_MESSAGE))]);
            PersistState(u, q);
          }
        } else {
          q := UpdateActionStatus(u, action.id, Failed, Some(RETRY_MESSAGE));
        }
      } else {
        q := UpdateActionStatus(u, action.id, Failed, Some(outcome.message));
      }
    }

    /** `runReplay`. The script stands for the executors and for the page: turn `k` is what happens
        during the `k`-th executor call. */
    method RunReplay(u: Identity, registered: set<ActionType>, script: Script) returns (reported: bool)
      modifies this
      ensures SignedIn(u) ==>
        && Load(u) == ReplayRun.RunReplay(old(Load(u)), registered, script).queue
        && reported == ReplayRun.RunReplay(old(Load(u)), registered, script).reported
      ensures memoryCache - {QueueKey(u)} == old(memoryCache) - {QueueKey(u)}
      ensures !SignedIn(u) ==> !reported && memoryCache == old(memoryCache)
    {
      if !SignedIn(u) {
        return false;
      }
      var todo := Snapshot(Load(u));
      ghost var result := ReplayRun.RunReplay(Load(u), registered, script);
      reported := false;
      var i, calls := 0, 0;
      while i < |todo|
        invariant 0 <= i <= |todo| && 0 <= calls
        invariant ReplayFrom(Load(u), todo[i..], registered, script, calls).queue == result.queue
        invariant reported || ReplayFrom(Load(u), todo[i..], registered, script, calls).reported <==> result.reported
        invariant memoryCache - {QueueKey(u)} == old(memoryCache) - {QueueKey(u)}
      {
        var action := todo[i];
        assert todo[i..][0] == action && todo[i..][1..] == todo[i + 1..];
        i := i + 1;
        if action.actionType !in registered {
          continue;
        }
        var _ := UpdateActionStatus(u, action.id, Running, None);
        var turn := script(calls);
        LetPageAct(u, turn.during);
        ApplyOutcome(u, action, turn.outcome);
        calls := calls + 1;
        if Breaks(turn.outcome) {
          return;
        }
        if ReportsTerminal(action, turn.outcome) {
          reported := true;
        }
      }
    }
  }
}
