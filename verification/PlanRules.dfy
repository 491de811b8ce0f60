/** What planning a run does, with its numbers and names written out: the turns of the regrouping pass, the text
    of a corridor, the metadata put back, the base, and the legs. */
module PlanRules {
  import opened Wrappers
  import opened Sequences
  import opened Stops
  import opened LegCosts
  import opened CurbsidePostOptimize
  import opened CorridorRegroup
  import opened CorridorRuns
  import opened CorridorRefine
  import opened RoutePipeline

  // -- The turns of the regrouping pass ----------------------------------------------------------------

  /** Up to `end`, the stops on the corridor of stop `i` now stand right behind it and the others behind them,
      each group in its own order; everything else is where it was. */
  ghost predicate PulledTogether(arr: seq<Stop>, next: seq<Stop>, i: int, end: int, key: CorridorKey)
    requires 0 <= i < end <= |arr|
  {
    && |next| == |arr| && next[..i + 1] == arr[..i + 1] && next[end..] == arr[end..]
    && (exists p :: i < p <= end && SplitsAt(next, i, p, end, key))
    && Filter(next[i + 1..end], On(key, key(arr[i]))) == Filter(arr[i + 1..end], On(key, key(arr[i])))
    && Filter(next[i + 1..end], Off(key, key(arr[i]))) == Filter(arr[i + 1..end], Off(key, key(arr[i])))
  }

  ghost predicate SplitsAt(next: seq<Stop>, i: int, p: int, end: int, key: CorridorKey)
    requires 0 <= i < p <= end <= |next|
  {
    && (forall k :: i < k < p ==> key(next[k]) == key(next[i]))
    && (forall k :: p <= k < end ==> key(next[k]) != key(next[i]))
  }

  /** The turn at position `i`: a stop on a corridor pulls together the stops less than a window behind it. */
  ghost predicate RegroupTurn(arr: seq<Stop>, next: seq<Stop>, i: int, window: int, key: CorridorKey)
    requires 0 <= i < |arr|
  {
    if key(arr[i]).street == "" || key(arr[i]).bearing == "" || window <= 0 then next == arr
    else PulledTogether(arr, next, i, if i + window < |arr| then i + window else |arr|, key)
  }

  lemma SplitGroups(s: seq<Stop>, key: CorridorKey, c: Corridor)
    ensures var on := Filter(s, On(key, c));
      && |Split(s, key, c)| == |s| && |on| <= |s|
      && (forall k :: 0 <= k < |on| ==> key(Split(s, key, c)[k]) == c)
      && (forall k :: |on| <= k < |s| ==> key(Split(s, key, c)[k]) != c)
    ensures Filter(Split(s, key, c), On(key, c)) == Filter(s, On(key, c))
    ensures Filter(Split(s, key, c), Off(key, c)) == Filter(s, Off(key, c))
  {
    var on, off := Filter(s, On(key, c)), Filter(s, Off(key, c));
    SplitPermutes(s, key, c);
    FilterMembers(s, On(key, c));
    FilterMembers(s, Off(key, c));
    forall k | 0 <= k < |s| ensures key((on + off)[k]) == c <==> k < |on| {
      assert (on + off)[k] in if k < |on| then on else off;
    }
    FilterConcat(on, off, On(key, c));
    FilterConcat(on, off, Off(key, c));
    FilterAll(on, On(key, c));
    FilterAll(off, Off(key, c));
    FilterNone(off, On(key, c));
    FilterNone(on, Off(key, c));
  }

  lemma SplitPullsTogether(arr: seq<Stop>, i: int, end: int, key: CorridorKey)
    requires 0 <= i < end <= |arr|
    ensures PulledTogether(arr, arr[..i + 1] + Split(arr[i + 1..end], key, key(arr[i])) + arr[end..], i, end, key)
  {
    var c, mid := key(arr[i]), arr[i + 1..end];
    var split := Split(mid, key, c);
    var next := arr[..i + 1] + split + arr[end..];
    SplitGroups(mid, key, c);
    assert next[i + 1..end] == split;
    forall k | i < k < end ensures next[k] == split[k - i - 1] {
    }
    assert SplitsAt(next, i, i + 1 + |Filter(mid, On(key, c))|, end, key);
  }

  lemma SplitOfNone(arr: seq<Stop>, i: int, key: CorridorKey)
    requires 0 <= i < |arr|
    ensures arr[..i + 1] + Split(arr[i + 1..i + 1], key, key(arr[i])) + arr[i + 1..] == arr
  {
  }

  lemma TurnAt(arr: seq<Stop>, i: int, window: int, key: CorridorKey)
    requires 0 <= i < |arr|
    ensures RegroupTurn(arr, RegroupAt(arr, i, window, key), i, window, key)
  {
    if window > 0 {
      SplitPullsTogether(arr, i, if i + window < |arr| then i + window else |arr|, key);
      SplitOfNone(arr, i, key);
    }
  }

  ghost predicate RegroupTurns(arrs: seq<seq<Stop>>, i: nat, n: nat, window: int, key: CorridorKey) {
    forall k :: 0 <= k < |arrs| - 1 ==> RegroupTurnOf(arrs[k], arrs[k + 1], i + k, n, window, key)
  }

  ghost predicate RegroupTurnOf(arr: seq<Stop>, next: seq<Stop>, i: nat, n: nat, window: int, key: CorridorKey) {
    i < n == |arr| && RegroupTurn(arr, next, i, window, key)
  }

  lemma TurnOfAt(arr: seq<Stop>, i: nat, window: int, key: CorridorKey)
    requires i < |arr|
    ensures |RegroupAt(arr, i, window, key)| == |arr|
    ensures RegroupTurnOf(arr, RegroupAt(arr, i, window, key), i, |arr|, window, key)
  {
    RegroupLength(arr, i, window, key);
    TurnAt(arr, i, window, key);
  }

  lemma RegroupTurnsOfCons(arr: seq<Stop>, arrs: seq<seq<Stop>>, i: nat, n: nat, window: int, key: CorridorKey)
    requires arrs != [] && RegroupTurns(arrs, i + 1, n, window, key)
    requires RegroupTurnOf(arr, arrs[0], i, n, window, key)
    ensures RegroupTurns([arr] + arrs, i, n, window, key)
  {
    forall k | 0 <= k < |arrs| ensures RegroupTurnOf(([arr] + arrs)[k], arrs[k], i + k, n, window, key) {
      if k > 0 {
        assert RegroupTurnOf(arrs[k - 1], arrs[k], i + 1 + (k - 1), n, window, key);
      }
    }
  }

  /** The orders before every turn from position `i` on, and after the last one. */
  function RegroupOrders(arr: seq<Stop>, i: nat, window: int, key: CorridorKey): (r: seq<seq<Stop>>)
    requires i <= |arr|
    ensures |r| == |arr| - i + 1 && r[0] == arr
    decreases |arr| - i
  {
    if i == |arr| then [arr]
    else
      RegroupLength(arr, i, window, key);
      [arr] + RegroupOrders(RegroupAt(arr, i, window, key), i + 1, window, key)
  }

  lemma LastOfCons(first: seq<Stop>, rest: seq<seq<Stop>>, n: nat)
    requires 0 < n <= |rest|
    ensures ([first] + rest)[n] == rest[n - 1]
  {
  }

  lemma {:induction false} RegroupOrdersEnd(arr: seq<Stop>, i: nat, window: int, key: CorridorKey)
    requires i <= |arr|
    ensures RegroupOrders(arr, i, window, key)[|arr| - i] == RegroupFrom(arr, i, window, key)
    decreases |arr| - i
  {
    if i < |arr| {
      var next := RegroupAt(arr, i, window, key);
      RegroupLength(arr, i, window, key);
      RegroupOrdersEnd(next, i + 1, window, key);
      LastOfCons(arr, RegroupOrders(next, i + 1, window, key), |arr| - i);
    }
  }

  lemma {:induction false} RegroupOrdersTurn(arr: seq<Stop>, i: nat, window: int, key: CorridorKey)
    requires i <= |arr|
    ensures RegroupTurns(RegroupOrders(arr, i, window, key), i, |arr|, window, key)
    decreases |arr| - i
  {
    if i < |arr| {
      var next := RegroupAt(arr, i, window, key);
      TurnOfAt(arr, i, window, key);
      RegroupOrdersTurn(next, i + 1, window, key);
      RegroupTurnsOfCons(arr, RegroupOrders(next, i + 1, window, key), i, |arr|, window, key);
    }
  }

  /** Regrouping goes through one turn per stop, from the first one on. */
  lemma RegroupIsTurns(arr: seq<Stop>, window: int, key: CorridorKey) returns (arrs: seq<seq<Stop>>)
    ensures |arrs| == |arr| + 1 && arrs[0] == arr && arrs[|arr|] == Regroup(arr, window, key)
    ensures forall i :: 0 <= i < |arr| ==> |arrs[i]| == |arr| && RegroupTurn(arrs[i], arrs[i + 1], i, window, key)
  {
    arrs := RegroupOrders(arr, 0, window, key);
    RegroupOrdersEnd(arr, 0, window, key);
    RegroupOrdersTurn(arr, 0, window, key);
    forall i | 0 <= i < |arr| ensures |arrs[i]| == |arr| && RegroupTurn(arrs[i], arrs[i + 1], i, window, key) {
      assert RegroupTurnOf(arrs[i], arrs[i + 1], 0 + i, |arr|, window, key);
    }
  }

  // -- The text of a corridor ------------------------------------------------------------------------

  predicate Blank(s: string) {
    forall i :: 0 <= i < |s| ==> s[i] == ' ' || s[i] == '\t' || s[i] == '\n' || s[i] == '\r'
  }

  /** A text without space at its ends. */
  predicate Trimmed(s: string) {
    s == "" || (!Blank(s[..1]) && !Blank(s[|s| - 1..]))
  }

  /** Normalising drops the space around a text and turns its small letters into capital ones; a missing text
      is an empty one. */
  lemma NormalizedIs(pre: string, text: string, post: string)
    requires Blank(pre) && Blank(post) && Trimmed(text)
    ensures var r := Normalize(Some(pre + text + post));
      && |r| == |text|
      && forall i :: 0 <= i < |r| ==>
           if 'a' <= text[i] <= 'z' then 'A' <= r[i] <= 'Z' && r[i] - 'A' == text[i] - 'a' else r[i] == text[i]
    ensures Normalize(None) == ""
  {
    NormalizeIgnoresCaseAndSpace(pre, text, post, text);
    if text != "" {
      assert text[..1][0] == text[0] && text[|text| - 1..][0] == text[|text| - 1];
    }
  }

  /** A corridor is the normalised street and bearing of a stop. */
  lemma CorridorIs(s: Stop, t: Stop)
    ensures CorridorOf(s) == CorridorOf(t) <==>
      Normalize(s.street) == Normalize(t.street) && Normalize(s.bearing) == Normalize(t.bearing)
    ensures CorridorOf(s).street == Normalize(s.street) && CorridorOf(s).bearing == Normalize(s.bearing)
  {
  }

  // -- The passes with their numbers -----------------------------------------------------------------

  lemma NothingToRegroup(s: seq<Stop>, window: int, key: CorridorKey)
    requires forall k :: 0 <= k < |s| ==> key(s[k]).street == "" || key(s[k]).bearing == ""
    ensures Regroup(s, window, key) == s
  {
    RegroupFixedPoints(s, window, key);
  }

  lemma NothingToSort(s: seq<Stop>, threshold: real, key: CorridorKey)
    requires forall k :: 0 <= k < |s| ==> key(s[k]).street == "" || key(s[k]).bearing == ""
    ensures Refine(s, key) == s && Sanity(s, threshold, key) == s
  {
    MapRunsIdentity(s, RefineRun(key), key);
    MapRunsIdentity(s, SanityRun(key, threshold), key);
  }

  /** Without a corridor among the stops, planning is the curbside pass: eight stops ahead, at most 30 moves, each
      for a gain of more than five seconds. */
  lemma OffCorridorsOnlyCurbside(planned: seq<Stop>, cost: Durations, key: CorridorKey)
    requires forall s :: s in planned ==> key(s).street == "" || key(s).bearing == ""
    ensures Pipeline(planned, cost, key) == Optimize(planned, Options(8, 30, 5.0), cost).order
  {
    var optimized := Optimize(planned, Options(8, 30, 5.0), cost).order;
    OptimizeDescends(planned, Options(8, 30, 5.0), cost);
    forall k | 0 <= k < |optimized| ensures key(optimized[k]).street == "" || key(optimized[k]).bearing == "" {
      assert optimized[k] in multiset(optimized);
    }
    NothingToRegroup(optimized, WINDOW, key);
    NothingToSort(optimized, THRESHOLD, key);
  }

  /** Whatever the stops, the curbside pass comes first, regrouping within a window of eight second, and the
      sorting of the runs last. */
  lemma PassesInOrder(planned: seq<Stop>, cost: Durations, key: CorridorKey)
    ensures Pipeline(planned, cost, key)
      == Refine(Regroup(Optimize(planned, Options(8, 30, 5.0), cost).order, 8, key), key)
  {
    PipelineFacts(planned, cost, key);
  }

  /** Two stops of one street and bearing that are less than eight places apart have only such stops between. */
  lemma EightPlacesApart(planned: seq<Stop>, cost: Durations, p: int, q: int, k: int)
    requires var r := Pipeline(planned, cost, CorridorOf);
      && 0 <= p < k < q < |r| && q - p < 8
      && CorridorOf(r[p]) == CorridorOf(r[q]) && CorridorOf(r[p]).street != "" && CorridorOf(r[p]).bearing != ""
    ensures var r := Pipeline(planned, cost, CorridorOf); CorridorOf(r[k]) == CorridorOf(r[p])
  {
    StreetsStayTogether(planned, cost, p, q, k);
  }

  // -- The base and the trip -------------------------------------------------------------------------

  lemma {:induction false} FilterOfFullLength<T>(s: seq<T>, keep: T -> bool)
    requires |Filter(s, keep)| == |s|
    ensures Filter(s, keep) == s
  {
    if s != [] {
      assert keep(s[0]);
      FilterOfFullLength(s[1..], keep);
    }
  }

  lemma RealStopsCount(base: Stop, stops: seq<Stop>, waypoints: seq<Waypoint>)
    requires |waypoints| == |stops| + 1 && forall s :: s in stops ==> s.id != Some("__BASE__")
    ensures |RealStops(base, stops, waypoints)| == |stops|
    ensures multiset(Map(RealStops(base, stops, waypoints), TagOf)) == multiset(Map(stops, TagOf))
  {
    RealStopsAreThePlannedOnes(base, stops, waypoints);
    FilterAll(stops, NotBase());
    assert |multiset(Map(RealStops(base, stops, waypoints), TagOf))| == |multiset(Map(stops, TagOf))|;
  }

  /** When the trip starts at the base, the planned stops stand where the engine put them: each one place
      earlier, for the base is gone, at its place on the road, and with its own id, street and bearing. */
  lemma PlannedStopIs(base: Stop, stops: seq<Stop>, waypoints: seq<Waypoint>, k: nat)
    requires |waypoints| == |stops| + 1 && AssignsPositions(waypoints) && waypoints[0].index == 0 && k < |stops|
    requires forall s :: s in stops ==> s.id != Some("__BASE__")
    ensures var w, planned := waypoints[k + 1], RealStops(base, stops, waypoints);
      && |planned| == |stops| && 0 <= w.index - 1 < |stops|
      && planned[w.index - 1] == Stop(w.lon, w.lat, stops[k].id, stops[k].street, stops[k].bearing)
  {
    var all := [base.(id := Some("__BASE__"))] + stops;
    var trip := TripOrder(all, waypoints);
    RealStopsCount(base, stops, waypoints);
    TripFollowsEngine(all, waypoints, 0);
    TripFollowsEngine(all, waypoints, k + 1);
    assert Filter(trip, NotBase()) == Filter(trip[1..], NotBase());
    FilterOfFullLength(trip[1..], NotBase());
  }

  // -- Metadata by id --------------------------------------------------------------------------------

  /** Stop `k` is the last one with the id. */
  ghost predicate LastWithId(stops: seq<Stop>, k: int, id: string) {
    0 <= k < |stops| && stops[k].id == Some(id) && forall j :: k < j < |stops| ==> stops[j].id != Some(id)
  }

  lemma {:induction false} MetadataIsLast(stops: seq<Stop>, id: string)
    requires id != ""
    ensures forall k :: LastWithId(stops, k, id) ==> id in MetadataOf(stops) && MetadataOf(stops)[id] == TagOf(stops[k])
    ensures id in MetadataOf(stops) ==> exists s :: s in stops && s.id == Some(id)
    ensures "" !in MetadataOf(stops)
  {
    if stops != [] {
      var init, last := stops[..|stops| - 1], stops[|stops| - 1];
      MetadataIsLast(init, id);
      assert last in stops && forall s :: s in init ==> s in stops;
      forall k | LastWithId(stops, k, id) ensures id in MetadataOf(stops) && MetadataOf(stops)[id] == TagOf(stops[k]) {
        if last.id != Some(id) {
          assert LastWithId(init, k, id);
        }
      }
    }
  }

  /** A stop of the trip gets the street and bearing of the last planned stop with its id; one without an id, or
      whose id no planned stop has, stays as it is. */
  lemma ReattachedIs(stops: seq<Stop>, s: Stop)
    ensures s.id.Some? && s.id.value != "" ==>
      forall k :: LastWithId(stops, k, s.id.value) ==>
        Reattach(MetadataOf(stops))(s) == Stop(s.lon, s.lat, s.id, stops[k].street, stops[k].bearing)
    ensures s.id == None || s.id == Some("") || (forall x :: x in stops ==> x.id != s.id) ==>
      Reattach(MetadataOf(stops))(s) == s
  {
    if HasId(s) {
      MetadataIsLast(stops, s.id.value);
    }
  }

  // -- Legs ------------------------------------------------------------------------------------------

  /** Leg `k` is the leg into stop `k`, from the stop before it or from the base. */
  lemma {:induction false} LegIs(from: Stop, order: seq<Stop>, memo: Memo, route: Router, key: KeyMaker, k: nat)
    ensures |RoutePipeline.Legs(from, order, memo, route, key)| == |order|
    ensures k < |order| ==>
      RoutePipeline.Legs(from, order, memo, route, key)[k] == Answer(memo, route, key, if k == 0 then from else order[k - 1], order[k])
    decreases |order|
  {
    if order != [] {
      LegIs(order[0], order[1..], memo, route, key, if k == 0 then 0 else k - 1);
    }
  }

  /** A leg is the router's own answer when the keys of the cache determine the costs. */
  lemma LegIsTrue(from: Stop, order: seq<Stop>, memo: Memo, route: Router, key: KeyMaker, k: nat, stops: set<Stop>)
    requires k < |order| && from in stops && forall s :: s in order ==> s in stops
    requires KeysDetermineCosts(stops, route, key) && Truthful(memo, stops, route, key)
    ensures |RoutePipeline.Legs(from, order, memo, route, key)| == |order|
    ensures RoutePipeline.Legs(from, order, memo, route, key)[k] == route(if k == 0 then from else order[k - 1], order[k])
  {
    LegIs(from, order, memo, route, key, k);
    AnswerIsTrue(memo, route, key, if k == 0 then from else order[k - 1], order[k], stops);
  }

  /** The totals of the legs up to stop `k` grow by that leg. */
  lemma TotalsGrow(legs: seq<LegCost>, k: nat)
    requires k < |legs|
    ensures TotalDistance([]) == 0.0 && TotalDuration([]) == 0.0
    ensures TotalDistance(legs[..k + 1]) == TotalDistance(legs[..k]) + legs[k].distance
    ensures TotalDuration(legs[..k + 1]) == TotalDuration(legs[..k]) + legs[k].duration
  {
    assert legs[..k + 1] == legs[..k] + [legs[k]];
    TotalsOfSnoc(legs[..k], legs[k]);
  }

  /** What stands for a stop in a cache key: its id, whatever its coordinates, or else these. */
  lemma CacheKeyIs(a: Stop, b: Stop, coords: Printer)
    ensures a.id.Some? && b.id.Some? ==> LegKey(coords)(a, b) == a.id.value + "->" + b.id.value
    ensures a.id.Some? && b.id.None? ==> LegKey(coords)(a, b) == a.id.value + "->" + coords(b)
    ensures a.id.None? && b.id.Some? ==> LegKey(coords)(a, b) == coords(a) + "->" + b.id.value
    ensures a.id.None? && b.id.None? ==> LegKey(coords)(a, b) == coords(a) + "->" + coords(b)
  {
  }

  /** Stops that all have ids, different ones and none with an arrow, are ordered by the routing engine's own costs,
      whatever the cache has been asked before about them. */
  lemma PlainIdsAreSafe(stops: seq<Stop>, o: Options, memo: Memo, route: Router, coords: Printer)
    requires forall s :: s in stops ==> s.id.Some? && !HasArrow(s.id.value)
    requires forall s, t :: s in stops && t in stops && s.id == t.id ==> s == t
    requires forall k :: k in memo ==> IsTrueLeg(k, memo[k], stops, route)
    ensures Optimize(stops, o, View(memo, route, LegKey(coords))) == Optimize(stops, o, TrueDurations(route))
  {
    forall k | k in memo
      ensures exists a, b :: a in Members(stops) && b in Members(stops) && LegKey(coords)(a, b) == k && route(a, b) == memo[k]
    {
      assert IsTrueLeg(k, memo[k], stops, route);
      var a, b :| a in stops && b in stops && k == a.id.GetOr("") + "->" + b.id.GetOr("") && memo[k] == route(a, b);
      assert a in Members(stops) && b in Members(stops) && LegKey(coords)(a, b) == k;
    }
    PlainIdsGiveTrueOrder(stops, o, memo, route, coords);
  }

  predicate HasArrow(id: string) {
    exists i :: 0 <= i < |id| - 1 && id[i] == '-' && id[i + 1] == '>'
  }

  /** The entry is the routing engine's answer for two of the stops. */
  ghost predicate IsTrueLeg(k: string, leg: LegCost, stops: seq<Stop>, route: Router) {
    exists a, b :: a in stops && b in stops && k == a.id.GetOr("") + "->" + b.id.GetOr("") && leg == route(a, b)
  }
}
