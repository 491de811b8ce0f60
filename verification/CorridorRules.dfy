/** The two sorting passes in longitudes, latitudes and compass letters: what becomes of every run of stops on
    one street and bearing, and of the stops on none. */
module CorridorRules {
  import opened Wrappers
  import opened Sequences
  import opened Stops
  import opened RunDirection
  import opened CorridorRuns
  import opened CorridorRefine

  // -- Runs ------------------------------------------------------------------------------------------

  /** A longest stretch of stops with one street and bearing, both of them there. */
  ghost predicate IsRun(s: seq<Stop>, key: CorridorKey, i: int, j: int) {
    && 0 <= i < j <= |s|
    && key(s[i]).street != "" && key(s[i]).bearing != ""
    && (forall k :: i <= k < j ==> key(s[k]).street == key(s[i]).street && key(s[k]).bearing == key(s[i]).bearing)
    && (i > 0 ==> key(s[i - 1]).street != key(s[i]).street || key(s[i - 1]).bearing != key(s[i]).bearing)
    && (j < |s| ==> key(s[j]).street != key(s[i]).street || key(s[j]).bearing != key(s[i]).bearing)
  }

  lemma RunsAreMaximal(s: seq<Stop>, key: CorridorKey, i: int, j: int)
    ensures IsRun(s, key, i, j) <==> MaximalRun(s, key, i, j)
  {
  }

  /** Longitudes spread at least as far as latitudes. */
  ghost predicate RunsEastWest(run: seq<Stop>) {
    exists a, b :: 0 <= a < |run| && 0 <= b < |run| && SpansAll(run, run[a].lon - run[b].lon)
  }

  ghost predicate SpansAll(run: seq<Stop>, width: real) {
    forall c, d :: 0 <= c < |run| && 0 <= d < |run| ==> width >= run[c].lat - run[d].lat
  }

  ghost predicate Eastward(run: seq<Stop>) {
    forall i, j :: 0 <= i < j < |run| ==> run[i].lon <= run[j].lon
  }

  ghost predicate Westward(run: seq<Stop>) {
    forall i, j :: 0 <= i < j < |run| ==> run[i].lon >= run[j].lon
  }

  ghost predicate Northward(run: seq<Stop>) {
    forall i, j :: 0 <= i < j < |run| ==> run[i].lat <= run[j].lat
  }

  ghost predicate Southward(run: seq<Stop>) {
    forall i, j :: 0 <= i < j < |run| ==> run[i].lat >= run[j].lat
  }

  function AtLon(lon: real): Stop -> bool {
    (s: Stop) => s.lon == lon
  }

  function AtLat(lat: real): Stop -> bool {
    (s: Stop) => s.lat == lat
  }

  /** Stops of one longitude keep their order. */
  ghost predicate KeepsLonTies(before: seq<Stop>, after: seq<Stop>) {
    forall lon :: Filter(after, AtLon(lon)) == Filter(before, AtLon(lon))
  }

  ghost predicate KeepsLatTies(before: seq<Stop>, after: seq<Stop>) {
    forall lat :: Filter(after, AtLat(lat)) == Filter(before, AtLat(lat))
  }

  /** The bearing names a direction along the axis on which the run is spread. */
  predicate Names(bearing: string, eastWest: bool) {
    if eastWest then 'E' in bearing || 'W' in bearing else 'N' in bearing || 'S' in bearing
  }

  /** Ordered as the bearing says: 'E' goes before 'W' and 'N' before 'S'. */
  ghost predicate InOrder(run: seq<Stop>, bearing: string, eastWest: bool) {
    if eastWest then if 'E' in bearing then Eastward(run) else Westward(run)
    else if 'N' in bearing then Northward(run) else Southward(run)
  }

  ghost predicate KeepsTies(before: seq<Stop>, after: seq<Stop>, eastWest: bool) {
    if eastWest then KeepsLonTies(before, after) else KeepsLatTies(before, after)
  }

  /** The same stops, ordered as the bearing says; stops that tie keep their order. */
  ghost predicate Directed(before: seq<Stop>, after: seq<Stop>, bearing: string, eastWest: bool) {
    multiset(after) == multiset(before) && InOrder(after, bearing, eastWest) && KeepsTies(before, after, eastWest)
  }

  // -- What the resolved direction means ---------------------------------------------------------------

  lemma WideIsEastWest(run: seq<Stop>)
    requires run != []
    ensures MainAxis(BoundsOf(run)) == Lon <==> RunsEastWest(run)
  {
    var b := BoundsOf(run);
    BoundsAreBounding(run);
    if b.maxLon - b.minLon >= b.maxLat - b.minLat {
      var x :| x in multiset(run) && x.lon == b.maxLon;
      var y :| y in multiset(run) && y.lon == b.minLon;
      var i :| 0 <= i < |run| && run[i] == x;
      var j :| 0 <= j < |run| && run[j] == y;
      assert forall k :: 0 <= k < |run| ==> run[k] in multiset(run);
      assert SpansAll(run, run[i].lon - run[j].lon);
    } else {
      TallIsNotEastWest(run);
    }
  }

  lemma TallIsNotEastWest(run: seq<Stop>)
    requires run != []
    requires var b := BoundsOf(run); b.maxLon - b.minLon < b.maxLat - b.minLat
    ensures !RunsEastWest(run)
  {
    var b := BoundsOf(run);
    BoundsAreBounding(run);
    var x :| x in multiset(run) && x.lat == b.maxLat;
    var y :| y in multiset(run) && y.lat == b.minLat;
    var c :| 0 <= c < |run| && run[c] == x;
    var d :| 0 <= d < |run| && run[d] == y;
    forall i, j | 0 <= i < |run| && 0 <= j < |run| ensures !SpansAll(run, run[i].lon - run[j].lon) {
      assert run[i] in multiset(run) && run[j] in multiset(run);
      assert run[i].lon - run[j].lon < run[c].lat - run[d].lat;
    }
  }

  /** The axis that the bounds of the run give. */
  predicate SpreadsAlongLon(run: seq<Stop>)
    requires run != []
  {
    MainAxis(BoundsOf(run)) == Lon
  }

  function MetaFor(bearing: string, eastWest: bool): RunMeta {
    if eastWest then RunMeta(Lon, if 'E' in bearing then Asc else Desc)
    else RunMeta(Lat, if 'N' in bearing then Asc else Desc)
  }

  lemma MetaIs(run: seq<Stop>, bearing: string)
    requires run != []
    ensures MetaOf(run, bearing)
      == if Names(bearing, SpreadsAlongLon(run)) then Some(MetaFor(bearing, SpreadsAlongLon(run))) else None
  {
  }

  lemma SortAlongIsInOrder(run: seq<Stop>, bearing: string, eastWest: bool)
    ensures InOrder(SortAlong(run, MetaFor(bearing, eastWest)), bearing, eastWest)
  {
    AlongIsTotal(MetaFor(bearing, eastWest));
    SortSorts(run, Along(MetaFor(bearing, eastWest)));
  }

  lemma SortAlongKeepsTies(run: seq<Stop>, bearing: string, eastWest: bool)
    ensures KeepsTies(run, SortAlong(run, MetaFor(bearing, eastWest)), eastWest)
  {
    var meta := MetaFor(bearing, eastWest);
    AlongIsTotal(meta);
    if eastWest {
      forall lon ensures Filter(SortAlong(run, meta), AtLon(lon)) == Filter(run, AtLon(lon)) {
        SortKeepsTies(run, Along(meta), AtLon(lon));
      }
    } else {
      forall lat ensures Filter(SortAlong(run, meta), AtLat(lat)) == Filter(run, AtLat(lat)) {
        SortKeepsTies(run, Along(meta), AtLat(lat));
      }
    }
  }

  lemma SortAlongDirects(run: seq<Stop>, bearing: string, eastWest: bool)
    ensures Directed(run, SortAlong(run, MetaFor(bearing, eastWest)), bearing, eastWest)
  {
    SortPermutes(run, Along(MetaFor(bearing, eastWest)));
    SortAlongIsInOrder(run, bearing, eastWest);
    SortAlongKeepsTies(run, bearing, eastWest);
  }

  lemma SortAlongOfOne(run: seq<Stop>, meta: RunMeta)
    requires |run| == 1
    ensures SortAlong(run, meta) == run
  {
    AlongIsTotal(meta);
    SortOfSorted(run, Along(meta));
  }

  // -- Refinement ------------------------------------------------------------------------------------

  ghost predicate RefinedAlong(before: seq<Stop>, after: seq<Stop>, bearing: string, eastWest: bool) {
    if Names(bearing, eastWest) then Directed(before, after, bearing, eastWest) else after == before
  }

  lemma RefinedRun(run: seq<Stop>, key: CorridorKey)
    requires run != []
    ensures RefinedAlong(run, RefineRun(key)(run), key(run[0]).bearing, SpreadsAlongLon(run))
  {
    var bearing, eastWest := key(run[0]).bearing, SpreadsAlongLon(run);
    MetaIs(run, bearing);
    SortAlongDirects(run, bearing, eastWest);
    if |run| == 1 {
      SortAlongOfOne(run, MetaFor(bearing, eastWest));
    }
  }

  /** What refinement makes of a run. */
  ghost predicate IsRefined(before: seq<Stop>, after: seq<Stop>, bearing: string) {
    RefinedAlong(before, after, bearing, RunsEastWest(before))
  }

  lemma RefinedRunIs(run: seq<Stop>, r: seq<Stop>, key: CorridorKey, bearing: string)
    requires run != [] && bearing == key(run[0]).bearing && r == RefineRun(key)(run)
    ensures IsRefined(run, r, bearing)
  {
    RefinedRun(run, key);
    WideIsEastWest(run);
  }

  /** The part of a pass's output that stands where a run stood. */
  lemma PassAtRun(s: seq<Stop>, pass: RunPass, key: CorridorKey, i: int, j: int) returns (run: seq<Stop>, r: seq<Stop>)
    requires IsRun(s, key, i, j) && KeepsRuns(pass, key)
    ensures |MapRuns(s, pass, key)| == |s| && run == s[i..j] && r == MapRuns(s, pass, key)[i..j] && r == pass(run)
    ensures run != [] && key(run[0]) == key(s[i])
  {
    MapRunsAt(s, pass, key, i, j);
    run, r := s[i..j], MapRuns(s, pass, key)[i..j];
  }

  lemma RefinedRunOf(s: seq<Stop>, key: CorridorKey, i: int, j: int)
    requires IsRun(s, key, i, j) && KeepsRuns(RefineRun(key), key)
    ensures |Refine(s, key)| == |s|
    ensures IsRefined(s[i..j], Refine(s, key)[i..j], key(s[i]).bearing)
  {
    var run, r := PassAtRun(s, RefineRun(key), key, i, j);
    RefinedRunIs(run, r, key, key(s[i]).bearing);
  }

  /** Refinement puts the stops of every run in the order of its bearing, along the axis on which the run is
      spread; a run whose bearing says nothing about that axis stays as it is, and so do the stops on no
      corridor. */
  lemma RefinedRuns(s: seq<Stop>, key: CorridorKey)
    ensures |Refine(s, key)| == |s|
    ensures forall i, j :: IsRun(s, key, i, j) ==>
      IsRefined(s[i..j], Refine(s, key)[i..j], key(s[i]).bearing)
    ensures forall k :: 0 <= k < |s| && (key(s[k]).street == "" || key(s[k]).bearing == "") ==> Refine(s, key)[k] == s[k]
  {
    PassesKeepRuns(key, 0.0);
    MapRunsLength(s, RefineRun(key), key);
    forall i, j | IsRun(s, key, i, j)
      ensures IsRefined(s[i..j], Refine(s, key)[i..j], key(s[i]).bearing)
    {
      RefinedRunOf(s, key, i, j);
    }
    forall k | 0 <= k < |s| && (key(s[k]).street == "" || key(s[k]).bearing == "") ensures Refine(s, key)[k] == s[k] {
      MapRunsUnnamed(s, RefineRun(key), key, k);
    }
  }

  // -- Scores and the sanity pass ----------------------------------------------------------------------

  /** The way from one stop to the next. */
  type Step = (Stop, Stop)

  function Steps(run: seq<Stop>): seq<Step> {
    seq(if run == [] then 0 else |run| - 1, k requires 0 <= k < |run| - 1 => (run[k], run[k + 1]))
  }

  /** The step goes the way of the bearing. */
  predicate StepFollows(step: Step, bearing: string, eastWest: bool) {
    if eastWest then if 'E' in bearing then step.0.lon <= step.1.lon else step.0.lon >= step.1.lon
    else if 'N' in bearing then step.0.lat <= step.1.lat else step.0.lat >= step.1.lat
  }

  function Following(bearing: string, eastWest: bool): Step -> bool {
    (step: Step) => StepFollows(step, bearing, eastWest)
  }

  function FollowingSteps(run: seq<Stop>, bearing: string, eastWest: bool): seq<Step> {
    Filter(Steps(run), Following(bearing, eastWest))
  }

  lemma {:induction false} GoodStepsIs(run: seq<Stop>, bearing: string, eastWest: bool)
    ensures GoodSteps(run, MetaFor(bearing, eastWest)) == |FollowingSteps(run, bearing, eastWest)|
  {
    if |run| < 2 {
      assert Steps(run) == [];
    } else {
      assert Steps(run)[0] == (run[0], run[1]) && Steps(run)[1..] == Steps(run[1..]);
      GoodStepsIs(run[1..], bearing, eastWest);
    }
  }

  /** The share of the steps that go the way of the bearing. */
  function Share(run: seq<Stop>, bearing: string, eastWest: bool): real
    requires |run| >= 2
  {
    |FollowingSteps(run, bearing, eastWest)| as real / (|run| - 1) as real
  }

  lemma ScoreIsShare(run: seq<Stop>, bearing: string)
    requires |run| >= 2
    ensures ScoreOf(run, bearing)
      == if Names(bearing, SpreadsAlongLon(run)) then Share(run, bearing, SpreadsAlongLon(run)) else 1.0
  {
    MetaIs(run, bearing);
    GoodStepsIs(run, bearing, SpreadsAlongLon(run));
  }

  /** The score of a run is the share of its steps that go the way of the bearing, and one when there is no
      step or no way to go. */
  lemma ScoreIs(run: seq<Stop>, bearing: string)
    ensures ScoreOf(run, bearing)
      == if |run| >= 2 && Names(bearing, RunsEastWest(run)) then Share(run, bearing, RunsEastWest(run)) else 1.0
  {
    if |run| >= 2 {
      ScoreIsShare(run, bearing);
      WideIsEastWest(run);
    }
  }

  ghost predicate CorrectedAlong(before: seq<Stop>, after: seq<Stop>, bearing: string, eastWest: bool, threshold: real) {
    if |before| >= 2 && Names(bearing, eastWest) && Share(before, bearing, eastWest) < threshold
    then Directed(before, after, bearing, eastWest) else after == before
  }

  lemma CorrectedRun(run: seq<Stop>, key: CorridorKey, threshold: real)
    requires run != []
    ensures CorrectedAlong(run, SanityRun(key, threshold)(run), key(run[0]).bearing, SpreadsAlongLon(run), threshold)
  {
    var bearing := key(run[0]).bearing;
    MetaIs(run, bearing);
    if |run| >= 2 {
      ScoreIsShare(run, bearing);
      SortAlongDirects(run, bearing, SpreadsAlongLon(run));
    }
  }

  /** What the sanity pass makes of a run. */
  ghost predicate IsCorrected(before: seq<Stop>, after: seq<Stop>, bearing: string, threshold: real) {
    CorrectedAlong(before, after, bearing, RunsEastWest(before), threshold)
  }

  lemma CorrectedRunIs(run: seq<Stop>, r: seq<Stop>, threshold: real, key: CorridorKey, bearing: string)
    requires run != [] && bearing == key(run[0]).bearing && r == SanityRun(key, threshold)(run)
    ensures IsCorrected(run, r, bearing, threshold)
  {
    CorrectedRun(run, key, threshold);
    WideIsEastWest(run);
  }

  lemma CorrectedRunOf(s: seq<Stop>, threshold: real, key: CorridorKey, i: int, j: int)
    requires IsRun(s, key, i, j) && KeepsRuns(SanityRun(key, threshold), key)
    ensures |Sanity(s, threshold, key)| == |s|
    ensures IsCorrected(s[i..j], Sanity(s, threshold, key)[i..j], key(s[i]).bearing, threshold)
  {
    var run, r := PassAtRun(s, SanityRun(key, threshold), key, i, j);
    CorrectedRunIs(run, r, threshold, key, key(s[i]).bearing);
  }

  /** The sanity pass puts a run in the order of its bearing exactly when too small a share of its steps
      follows it, and leaves everything else as it is. */
  lemma CorrectedRuns(s: seq<Stop>, threshold: real, key: CorridorKey)
    ensures |Sanity(s, threshold, key)| == |s|
    ensures forall i, j :: IsRun(s, key, i, j) ==>
      IsCorrected(s[i..j], Sanity(s, threshold, key)[i..j], key(s[i]).bearing, threshold)
    ensures forall k :: 0 <= k < |s| && (key(s[k]).street == "" || key(s[k]).bearing == "") ==>
      Sanity(s, threshold, key)[k] == s[k]
  {
    PassesKeepRuns(key, threshold);
    MapRunsLength(s, SanityRun(key, threshold), key);
    forall i, j | IsRun(s, key, i, j)
      ensures IsCorrected(s[i..j], Sanity(s, threshold, key)[i..j], key(s[i]).bearing, threshold)
    {
      CorrectedRunOf(s, threshold, key, i, j);
    }
    forall k | 0 <= k < |s| && (key(s[k]).street == "" || key(s[k]).bearing == "")
      ensures Sanity(s, threshold, key)[k] == s[k]
    {
      MapRunsUnnamed(s, SanityRun(key, threshold), key, k);
    }
  }
}
