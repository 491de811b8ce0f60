/** The planning part of `createRouteRun`: the trip order comes back from the routing engine, is
    optimized, regrouped and refined, and the legs of the final order are added up. */
module RoutePipeline {
  import opened Wrappers
  import opened Sequences
  import opened Stops
  import opened LegCosts
  import opened CurbsidePostOptimize
  import CorridorRegroup
  import opened CorridorRuns
  import RunDirection
  import CorridorRefine

  // -- The trip order -----------------------------------------------------------------------------

  /** A waypoint of the routing engine's answer, in input order: its position in the trip and the
      place on the road it was snapped to. */
  datatype Waypoint = Waypoint(index: int, lon: real, lat: real)

  type Indexed = (Waypoint, nat)

  /** What identifies a stop, whatever its coordinates. */
  datatype Tag = Tag(id: Option<string>, street: Option<string>, bearing: Option<string>)

  function TagOf(s: Stop): Tag {
    Tag(s.id, s.street, s.bearing)
  }

  function TagAt(stops: seq<Stop>, k: nat): Tag {
    if k < |stops| then TagOf(stops[k]) else Tag(None, None, None)
  }

  function WithIndex(waypoints: seq<Waypoint>): seq<Indexed> {
    seq(|waypoints|, k requires 0 <= k < |waypoints| => (waypoints[k], k))
  }

  function ByTripIndex(): (Indexed, Indexed) -> bool {
    (a: Indexed, b: Indexed) => a.0.index <= b.0.index
  }

  function Restore(stops: seq<Stop>): Indexed -> Stop {
    (w: Indexed) => var t := TagAt(stops, w.1); Stop(w.0.lon, w.0.lat, t.id, t.street, t.bearing)
  }

  /** `planRouteWithOsrm`: the input stops in trip order, at their snapped places. */
  function TripOrder(stops: seq<Stop>, waypoints: seq<Waypoint>): seq<Stop> {
    Map(StableSort(WithIndex(waypoints), ByTripIndex()), Restore(stops))
  }

  lemma {:induction false} MapMap<A, B, C>(s: seq<A>, f: A -> B, g: B -> C, h: A -> C)
    requires forall a :: a in s ==> g(f(a)) == h(a)
    ensures Map(Map(s, f), g) == Map(s, h)
  {
    if s != [] {
      assert s[0] in s;
      MapMap(s[1..], f, g, h);
    }
  }

  /** Whatever trip positions the engine answers, the trip visits exactly the given stops. */
  lemma TripVisitsEveryStop(stops: seq<Stop>, waypoints: seq<Waypoint>)
    requires |waypoints| == |stops|
    ensures |TripOrder(stops, waypoints)| == |stops|
    ensures multiset(Map(TripOrder(stops, waypoints), TagOf)) == multiset(Map(stops, TagOf))
  {
    var indexed := WithIndex(waypoints);
    var sorted := StableSort(indexed, ByTripIndex());
    var tag := (w: Indexed) => TagAt(stops, w.1);
    SortPermutes(indexed, ByTripIndex());
    MapMap(sorted, Restore(stops), TagOf, tag);
    MapPermutes(sorted, indexed, tag);
    assert Map(indexed, tag) == Map(stops, TagOf);
  }

  /** The engine assigns every waypoint a trip position of its own, from 0 on. */
  ghost predicate AssignsPositions(waypoints: seq<Waypoint>) {
    && (forall k :: 0 <= k < |waypoints| ==> 0 <= waypoints[k].index < |waypoints|)
    && forall j, k :: 0 <= j < k < |waypoints| ==> waypoints[j].index != waypoints[k].index
  }

  /** Increasing positions between 0 and the length are 0, 1, 2 and so on. */
  lemma {:induction false} IncreasingIsIdentity(s: seq<Indexed>, k: nat)
    requires k < |s| && forall i, j :: 0 <= i < j < |s| ==> s[i].0.index < s[j].0.index
    requires forall i :: 0 <= i < |s| ==> 0 <= s[i].0.index < |s|
    ensures s[k].0.index == k
  {
    AtLeastItsPlace(s, k);
    AtMostItsPlace(s, k);
  }

  lemma {:induction false} AtLeastItsPlace(s: seq<Indexed>, k: nat)
    requires k < |s| && forall i, j :: 0 <= i < j < |s| ==> s[i].0.index < s[j].0.index
    requires s[0].0.index >= 0
    ensures s[k].0.index >= k
  {
    if k > 0 {
      AtLeastItsPlace(s, k - 1);
      assert s[k - 1].0.index < s[k].0.index;
    }
  }

  lemma {:induction false} AtMostItsPlace(s: seq<Indexed>, k: nat)
    requires k < |s| && forall i, j :: 0 <= i < j < |s| ==> s[i].0.index < s[j].0.index
    requires s[|s| - 1].0.index < |s|
    ensures s[k].0.index <= k
    decreases |s| - k
  {
    if k + 1 < |s| {
      AtMostItsPlace(s, k + 1);
      assert s[k].0.index < s[k + 1].0.index;
    }
  }

  lemma SortedByIndex(waypoints: seq<Waypoint>)
    requires AssignsPositions(waypoints)
    ensures var sorted := StableSort(WithIndex(waypoints), ByTripIndex());
      forall i, j :: 0 <= i < j < |sorted| ==> sorted[i].0.index < sorted[j].0.index
  {
    var indexed := WithIndex(waypoints);
    var sorted := StableSort(indexed, ByTripIndex());
    SortSorts(indexed, ByTripIndex());
    SortPermutes(indexed, ByTripIndex());
    forall i, j | 0 <= i < j < |sorted| ensures sorted[i].0.index < sorted[j].0.index {
      assert ByTripIndex()(sorted[i], sorted[j]);
      if sorted[i].0.index == sorted[j].0.index {
        PositionsDiffer(waypoints, sorted, i, j);
      }
    }
  }

  lemma PositionsDiffer(waypoints: seq<Waypoint>, sorted: seq<(Waypoint, nat)>, i: nat, j: nat)
    requires AssignsPositions(waypoints) && multiset(sorted) == multiset(WithIndex(waypoints)) && i < j < |sorted|
    ensures sorted[i].0.index != sorted[j].0.index
  {
    var indexed := WithIndex(waypoints);
    if sorted[i].0.index == sorted[j].0.index {
      assert sorted[i] in multiset(sorted) && sorted[j] in multiset(sorted);
      var a :| 0 <= a < |indexed| && indexed[a] == sorted[i];
      var b :| 0 <= b < |indexed| && indexed[b] == sorted[j];
      assert a == b;
      TwiceMeansTwo(sorted, i, j);
      DistinctMeansOne(indexed, sorted[i]);
    }
  }

  /** Each stop stands in the trip where the engine put it, at its snapped place and with its own id,
      street and bearing. */
  lemma TripFollowsEngine(stops: seq<Stop>, waypoints: seq<Waypoint>, k: nat)
    requires |waypoints| == |stops| && AssignsPositions(waypoints) && k < |stops|
    ensures var w := waypoints[k];
      && |TripOrder(stops, waypoints)| == |stops|
      && TripOrder(stops, waypoints)[w.index] == stops[k].(lon := w.lon, lat := w.lat)
  {
    var indexed := WithIndex(waypoints);
    var sorted := StableSort(indexed, ByTripIndex());
    SortPermutes(indexed, ByTripIndex());
    SortedByIndex(waypoints);
    assert indexed[k] in indexed;
    var i :| 0 <= i < |sorted| && sorted[i] == indexed[k];
    forall x | 0 <= x < |sorted| ensures 0 <= sorted[x].0.index < |sorted| {
      assert sorted[x] in sorted;
    }
    IncreasingIsIdentity(sorted, i);
  }

  // -- The passes in sequence -----------------------------------------------------------------------

  const LOOKAHEAD := 8
  const MAX_MOVES := 30
  const MIN_IMPROVEMENT := 5.0
  const WINDOW := 8
  const THRESHOLD := 0.8

  function PipelineOptions(): Options {
    Options(LOOKAHEAD, MAX_MOVES, MIN_IMPROVEMENT)
  }

  function Pipeline(planned: seq<Stop>, cost: Durations, key: CorridorKey): seq<Stop> {
    var optimized := Optimize(planned, PipelineOptions(), cost).order;
    var regrouped := CorridorRegroup.Regroup(optimized, WINDOW, key);
    CorridorRefine.Sanity(CorridorRefine.Refine(regrouped, key), THRESHOLD, key)
  }

  lemma SameCorridorsNoSeparation(s: seq<Stop>, r: seq<Stop>, window: int, key: CorridorKey)
    requires SameCorridors(s, r, key) && CorridorRegroup.NoSeparation(s, window, key)
    ensures CorridorRegroup.NoSeparation(r, window, key)
  {
    forall p, q | 0 <= p < q < |r| ensures CorridorRegroup.Together(r, window, key, p, q) {
      assert CorridorRegroup.Together(s, window, key, p, q);
    }
  }

  /** For every leg cost, the pipeline permutes the planned stops, separates no corridor inside the
      window, and leaves every maximal corridor run with a resolved direction sorted along it; the
      final sanity pass never has anything to do. */
  lemma PipelineFacts(planned: seq<Stop>, cost: Durations, key: CorridorKey)
    ensures var r := Pipeline(planned, cost, key);
      && multiset(r) == multiset(planned)
      && CorridorRegroup.NoSeparation(r, WINDOW, key)
      && (forall i, j :: MaximalRun(r, key, i, j) ==> CorridorRefine.Ordered(r[i..j], key))
    ensures var regrouped := CorridorRegroup.Regroup(Optimize(planned, PipelineOptions(), cost).order, WINDOW, key);
      Pipeline(planned, cost, key) == CorridorRefine.Refine(regrouped, key)
  {
    var optimized := Optimize(planned, PipelineOptions(), cost).order;
    var regrouped := CorridorRegroup.Regroup(optimized, WINDOW, key);
    OptimizeDescends(planned, PipelineOptions(), cost);
    CorridorRegroup.RegroupKeepsOrder(optimized, WINDOW, key);
    CorridorRegroup.RegroupSeparatesNothing(optimized, 0, WINDOW, key);
    CorridorRefine.RefineOrdersRuns(regrouped, key);
    CorridorRefine.PassesFixRefined(regrouped, THRESHOLD, key);
    SameCorridorsNoSeparation(regrouped, CorridorRefine.Refine(regrouped, key), WINDOW, key);
  }

  /** With the corridors that the service uses: stops on the same street and bearing, up to letter case and
      surrounding space, that end up less than a window apart have only such stops between them. */
  lemma StreetsStayTogether(planned: seq<Stop>, cost: Durations, p: int, q: int, k: int)
    requires var r := Pipeline(planned, cost, CorridorOf);
      && 0 <= p < k < q < |r| && q - p < WINDOW
      && CorridorOf(r[p]) == CorridorOf(r[q]) && Named(CorridorOf(r[p]))
    ensures var r := Pipeline(planned, cost, CorridorOf); CorridorOf(r[k]) == CorridorOf(r[p])
  {
    PipelineFacts(planned, cost, CorridorOf);
    assert CorridorRegroup.Together(Pipeline(planned, cost, CorridorOf), WINDOW, CorridorOf, p, q);
  }

  // -- Legs and totals ------------------------------------------------------------------------------

  /** The legs of a path that starts at `from` and visits `order`, as the memo table knows them. */
  function Legs(from: Stop, order: seq<Stop>, memo: Memo, route: Router, key: KeyMaker): seq<LegCost>
    decreases |order|
  {
    if order == [] then []
    else [Answer(memo, route, key, from, order[0])] + Legs(order[0], order[1..], memo, route, key)
  }

  function TotalDuration(legs: seq<LegCost>): real {
    if legs == [] then 0.0 else legs[0].duration + TotalDuration(legs[1..])
  }

  function TotalDistance(legs: seq<LegCost>): real {
    if legs == [] then 0.0 else legs[0].distance + TotalDistance(legs[1..])
  }

  /** The total written on the run is the cost of the whole path from the base. */
  lemma {:induction false} TotalIsPathCost(from: Stop, order: seq<Stop>, memo: Memo, route: Router, key: KeyMaker)
    ensures TotalDuration(Legs(from, order, memo, route, key)) == PathCost([from] + order, View(memo, route, key))
    decreases |order|
  {
    var path := [from] + order;
    assert path[1..] == order;
    if order != [] {
      TotalIsPathCost(order[0], order[1..], memo, route, key);
      assert [order[0]] + order[1..] == order;
      var rest := Legs(order[0], order[1..], memo, route, key);
      assert Legs(from, order, memo, route, key)[1..] == rest;
    }
  }

  lemma {:induction false} TotalsOfSnoc(legs: seq<LegCost>, leg: LegCost)
    ensures TotalDuration(legs + [leg]) == TotalDuration(legs) + leg.duration
    ensures TotalDistance(legs + [leg]) == TotalDistance(legs) + leg.distance
  {
    if legs == [] {
      assert legs + [leg] == [leg];
    } else {
      assert (legs + [leg])[1..] == legs[1..] + [leg];
      TotalsOfSnoc(legs[1..], leg);
    }
  }

  /** All the legs of the path have been asked for. */
  ghost predicate Known(from: Stop, order: seq<Stop>, memo: Memo, key: KeyMaker)
    decreases |order|
  {
    order == [] || (key(from, order[0]) in memo && Known(order[0], order[1..], memo, key))
  }

  lemma {:induction false} LegsOfExtension(from: Stop, order: seq<Stop>, memo: Memo, ext: Memo, route: Router, key: KeyMaker)
    requires Extends(memo, ext) && Known(from, order, memo, key)
    ensures Known(from, order, ext, key)
    ensures Legs(from, order, memo, route, key) == Legs(from, order, ext, route, key)
    decreases |order|
  {
    if order != [] {
      LegsOfExtension(order[0], order[1..], memo, ext, route, key);
    }
  }

  function Last(from: Stop, order: seq<Stop>): Stop {
    if order == [] then from else order[|order| - 1]
  }

  lemma {:induction false} LegsOfSnoc(from: Stop, order: seq<Stop>, s: Stop, memo: Memo, route: Router, key: KeyMaker)
    ensures Legs(from, order + [s], memo, route, key)
      == Legs(from, order, memo, route, key) + [Answer(memo, route, key, Last(from, order), s)]
    ensures Known(from, order, memo, key) && key(Last(from, order), s) in memo ==> Known(from, order + [s], memo, key)
    decreases |order|
  {
    if order == [] {
      assert order + [s] == [s];
    } else {
      assert (order + [s])[1..] == order[1..] + [s];
      LegsOfSnoc(order[0], order[1..], s, memo, route, key);
    }
  }

  /** The final loop over the legs, and the whole planning step with its shared memo table. */
  method ComputeLegs(from: Stop, order: seq<Stop>, costs: LegCostCache)
    returns (legs: seq<LegCost>, totalDistance: real, totalDuration: real)
    modifies costs
    ensures Extends(old(costs.memo), costs.memo)
    ensures legs == Legs(from, order, costs.memo, costs.route, costs.key)
    ensures totalDistance == TotalDistance(legs)
    ensures totalDuration == PathCost([from] + order, View(costs.memo, costs.route, costs.key))
  {
    legs, totalDistance, totalDuration := [], 0.0, 0.0;
    var prevStop := from;
    for k := 0 to |order|
      invariant Extends(old(costs.memo), costs.memo)
      invariant prevStop == Last(from, order[..k])
      invariant Known(from, order[..k], costs.memo, costs.key)
      invariant legs == Legs(from, order[..k], costs.memo, costs.route, costs.key)
      invariant totalDistance == TotalDistance(legs) && totalDuration == TotalDuration(legs)
    {
      ghost var seen := costs.memo;
      var leg := costs.GetCost(prevStop, order[k]);
      LegsOfExtension(from, order[..k], seen, costs.memo, costs.route, costs.key);
      LegsOfSnoc(from, order[..k], order[k], costs.memo, costs.route, costs.key);
      assert order[..k + 1] == order[..k] + [order[k]];
      TotalsOfSnoc(legs, leg);
      legs := legs + [leg];
      totalDistance := totalDistance + leg.distance;
      totalDuration := totalDuration + leg.duration;
      prevStop := order[k];
    }
    assert order[..|order|] == order;
    TotalIsPathCost(from, order, costs.memo, costs.route, costs.key);
  }

  const BASE := "__BASE__"

  function NotBase(): Stop -> bool {
    (s: Stop) => s.id != Some(BASE)
  }

  lemma {:induction false} FilterMapPermutes(s: seq<Stop>, t: seq<Stop>)
    requires multiset(Map(s, TagOf)) == multiset(Map(t, TagOf))
    ensures multiset(Map(Filter(s, NotBase()), TagOf)) == multiset(Map(Filter(t, NotBase()), TagOf))
  {
    var notBase := (g: Tag) => g.id != Some(BASE);
    FilterMap(s, notBase);
    FilterMap(t, notBase);
    FilterPermutes(Map(s, TagOf), Map(t, TagOf), notBase);
  }

  lemma {:induction false} FilterMap(s: seq<Stop>, notBase: Tag -> bool)
    requires forall g :: notBase(g) <==> g.id != Some(BASE)
    ensures Map(Filter(s, NotBase()), TagOf) == Filter(Map(s, TagOf), notBase)
  {
    if s != [] {
      FilterMap(s[1..], notBase);
    }
  }

  /** `orderedRealStops`: the trip without its base. */
  function RealStops(base: Stop, stops: seq<Stop>, waypoints: seq<Waypoint>): seq<Stop> {
    Filter(TripOrder([base.(id := Some(BASE))] + stops, waypoints), NotBase())
  }

  /** The trip without its base visits exactly the planned stops that do not carry the base's
      reserved id. */
  lemma RealStopsAreThePlannedOnes(base: Stop, stops: seq<Stop>, waypoints: seq<Waypoint>)
    requires |waypoints| == |stops| + 1
    ensures multiset(Map(RealStops(base, stops, waypoints), TagOf)) == multiset(Map(Filter(stops, NotBase()), TagOf))
  {
    var b := base.(id := Some(BASE));
    TripVisitsEveryStop([b] + stops, waypoints);
    FilterMapPermutes(TripOrder([b] + stops, waypoints), [b] + stops);
    assert ([b] + stops)[1..] == stops;
  }

  // -- Street and bearing are put back by id ---------------------------------------------------------

  type Metadata = map<string, Tag>

  predicate HasId(s: Stop) {
    s.id.Some? && s.id.value != ""
  }

  /** The last stop with an id decides the street and bearing remembered for it. */
  function MetadataOf(stops: seq<Stop>): Metadata {
    if stops == [] then map[]
    else
      var s := stops[|stops| - 1];
      var m := MetadataOf(stops[..|stops| - 1]);
      if HasId(s) then m[s.id.value := TagOf(s)] else m
  }

  function Reattach(m: Metadata): Stop -> Stop {
    (s: Stop) =>
      if HasId(s) && s.id.value in m then s.(street := m[s.id.value].street, bearing := m[s.id.value].bearing) else s
  }

  method ReattachMetadata(stops: seq<Stop>, ordered: seq<Stop>) returns (r: seq<Stop>)
    ensures r == Map(ordered, Reattach(MetadataOf(stops)))
  {
    var m: Metadata := map[];
    for k := 0 to |stops|
      invariant m == MetadataOf(stops[..k])
    {
      assert stops[..k + 1][..k] == stops[..k];
      if HasId(stops[k]) {
        m := m[stops[k].id.value := TagOf(stops[k])];
      }
    }
    assert stops[..|stops|] == stops;
    r := [];
    for k := 0 to |ordered|
      invariant r == Map(ordered[..k], Reattach(m))
    {
      MapConcat(ordered[..k], [ordered[k]], Reattach(m));
      assert ordered[..k + 1] == ordered[..k] + [ordered[k]];
      r := r + [Reattach(m)(ordered[k])];
    }
    assert ordered[..|ordered|] == ordered;
  }

  ghost predicate IdsDecideMetadata(stops: seq<Stop>) {
    forall a, b :: a in stops && b in stops && HasId(a) && a.id == b.id ==> TagOf(a) == TagOf(b)
  }

  lemma {:induction false} MetadataIsSomeTag(stops: seq<Stop>, id: string)
    ensures id in MetadataOf(stops) ==> exists s :: s in stops && HasId(s) && s.id == Some(id) && MetadataOf(stops)[id] == TagOf(s)
  {
    if stops != [] {
      MetadataIsSomeTag(stops[..|stops| - 1], id);
      assert stops[|stops| - 1] in stops;
    }
  }

  lemma {:induction false} TagMembers(s: seq<Stop>)
    ensures forall x :: x in s ==> TagOf(x) in Map(s, TagOf)
    ensures forall t :: t in Map(s, TagOf) ==> exists x :: x in s && TagOf(x) == t
  {
    if s != [] {
      TagMembers(s[1..]);
      assert s == [s[0]] + s[1..];
    }
  }

  ghost predicate Tagged(stops: seq<Stop>, s: Stop) {
    exists x :: x in stops && TagOf(x) == TagOf(s)
  }

  lemma {:induction false} ReattachChangesNothing(stops: seq<Stop>, ordered: seq<Stop>)
    requires IdsDecideMetadata(stops)
    requires forall s :: s in ordered ==> Tagged(stops, s)
    ensures Map(ordered, Reattach(MetadataOf(stops))) == ordered
  {
    if ordered != [] {
      ReattachChangesNothing(stops, ordered[1..]);
      var s := ordered[0];
      assert s in ordered;
      var x :| x in stops && TagOf(x) == TagOf(s);
      if HasId(s) {
        MetadataIsSomeTag(stops, s.id.value);
      }
    }
  }

  /** When stops with the same id have the same street and bearing, putting the metadata back changes
      nothing: the trip already carries it. */
  lemma TripKeepsMetadata(base: Stop, stops: seq<Stop>, waypoints: seq<Waypoint>)
    requires |waypoints| == |stops| + 1 && IdsDecideMetadata(stops)
    ensures Map(RealStops(base, stops, waypoints), Reattach(MetadataOf(stops))) == RealStops(base, stops, waypoints)
  {
    var trip, kept := RealStops(base, stops, waypoints), Filter(stops, NotBase());
    RealStopsAreThePlannedOnes(base, stops, waypoints);
    TagMembers(trip);
    TagMembers(kept);
    FilterMembers(stops, NotBase());
    forall s | s in trip ensures Tagged(stops, s) {
      assert TagOf(s) in multiset(Map(trip, TagOf));
      assert TagOf(s) in Map(kept, TagOf);
    }
    ReattachChangesNothing(stops, trip);
  }

  /** Planning: the order of the run's stops, the legs between them and the totals. */
  method PlanRouteRun(base: Stop, stops: seq<Stop>, waypoints: seq<Waypoint>, costs: LegCostCache, key: CorridorKey)
    returns (order: seq<Stop>, legs: seq<LegCost>, totalDistance: real, totalDuration: real)
    modifies costs
    ensures var planned := Map(RealStops(base, stops, waypoints), Reattach(MetadataOf(stops)));
      && order == Pipeline(planned, View(costs.memo, costs.route, costs.key), key)
      && (KeysDetermineCosts(Members(planned), costs.route, costs.key)
          && Truthful(old(costs.memo), Members(planned), costs.route, costs.key)
          ==> order == Pipeline(planned, TrueDurations(costs.route), key))
    ensures legs == Legs(base.(id := Some(BASE)), order, costs.memo, costs.route, costs.key)
    ensures totalDistance == TotalDistance(legs)
    ensures totalDuration == PathCost([base.(id := Some(BASE))] + order, View(costs.memo, costs.route, costs.key))
  {
    var baseWaypoint := base.(id := Some(BASE));
    var planned := ReattachMetadata(stops, RealStops(base, stops, waypoints));
    var optimized := PostOptimizeCurbsideOrder(planned, costs, PipelineOptions());
    ghost var memo := costs.memo;
    var regrouped := CorridorRegroup.RegroupCorridorWithinWindow(optimized, WINDOW, key);
    var refined := CorridorRefine.RefineCorridorRuns(regrouped, key);
    order := CorridorRefine.EnforceCorridorSanity(refined, THRESHOLD, key);
    legs, totalDistance, totalDuration := ComputeLegs(baseWaypoint, order, costs);
    assert Extends(memo, costs.memo);
    if KeysDetermineCosts(Members(planned), costs.route, costs.key)
      && Truthful(old(costs.memo), Members(planned), costs.route, costs.key)
    {
      GrewKeepsTruth(old(costs.memo), memo, Members(planned), costs.route, costs.key);
      MemoisedOrderIsTrue(planned, PipelineOptions(), memo, costs.route, costs.key);
    }
  }
}
