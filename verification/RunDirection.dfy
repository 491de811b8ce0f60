/** `resolveRunMeta` and `scoreMonotonicRun`: the direction of a corridor run, and the share of its
    steps that follow that direction. */
module RunDirection {
  import opened Wrappers
  import opened Sequences
  import opened Stops

  // -- The direction of a run ------------------------------------------------------------------

  datatype Axis = Lon | Lat
  datatype Direction = Asc | Desc
  datatype RunMeta = RunMeta(axis: Axis, direction: Direction)

  function At(s: Stop, axis: Axis): real {
    if axis.Lon? then s.lon else s.lat
  }

  datatype Box = Box(minLon: real, maxLon: real, minLat: real, maxLat: real)

  function Widen(b: Box, s: Stop): Box {
    Box(if s.lon < b.minLon then s.lon else b.minLon,
        if s.lon > b.maxLon then s.lon else b.maxLon,
        if s.lat < b.minLat then s.lat else b.minLat,
        if s.lat > b.maxLat then s.lat else b.maxLat)
  }

  function BoundsOf(run: seq<Stop>): Box
    requires run != []
  {
    var last := run[|run| - 1];
    if |run| == 1 then Box(last.lon, last.lon, last.lat, last.lat)
    else Widen(BoundsOf(run[..|run| - 1]), last)
  }

  /** `b` is the bounding box of `stops`: no stop lies outside and every side touches a stop. */
  ghost predicate IsBoundingBox(b: Box, stops: multiset<Stop>) {
    && (forall s :: s in stops ==> b.minLon <= s.lon <= b.maxLon && b.minLat <= s.lat <= b.maxLat)
    && (exists s :: s in stops && s.lon == b.minLon)
    && (exists s :: s in stops && s.lon == b.maxLon)
    && (exists s :: s in stops && s.lat == b.minLat)
    && (exists s :: s in stops && s.lat == b.maxLat)
  }

  lemma {:induction false} BoundsAreBounding(run: seq<Stop>)
    requires run != []
    ensures IsBoundingBox(BoundsOf(run), multiset(run))
  {
    var init, last := run[..|run| - 1], run[|run| - 1];
    assert run == init + [last];
    if |run| > 1 {
      BoundsAreBounding(init);
      WidenKeepsBounding(BoundsOf(init), multiset(init), last);
      assert multiset(run) == multiset(init) + multiset{last};
    } else {
      assert last in multiset(run);
    }
  }

  lemma WidenKeepsBounding(b: Box, stops: multiset<Stop>, last: Stop)
    requires IsBoundingBox(b, stops)
    ensures IsBoundingBox(Widen(b, last), stops + multiset{last})
  {
    var more := stops + multiset{last};
    assert last in more && forall s :: s in more <==> s in stops || s == last;
  }

  /** Which compass letter the (already normalized) bearing contains. The source also looks for the
      whole words, but every word contains its own letter. */
  function DirectionAlong(axis: Axis, bearing: string): Option<Direction> {
    match axis
    case Lon => if 'E' in bearing then Some(Asc) else if 'W' in bearing then Some(Desc) else None
    case Lat => if 'N' in bearing then Some(Asc) else if 'S' in bearing then Some(Desc) else None
  }

  function MainAxis(b: Box): Axis {
    if b.maxLon - b.minLon >= b.maxLat - b.minLat then Lon else Lat
  }

  function MetaOf(run: seq<Stop>, bearing: string): Option<RunMeta> {
    if run == [] then None
    else
      var axis := MainAxis(BoundsOf(run));
      match DirectionAlong(axis, bearing)
      case None => None
      case Some(d) => Some(RunMeta(axis, d))
  }

  method ResolveRunMeta(run: seq<Stop>, bearing: string) returns (meta: Option<RunMeta>)
    ensures meta == MetaOf(run, bearing)
  {
    if |run| == 0 {
      return None;
    }
    var minLon, maxLon := run[0].lon, run[0].lon;
    var minLat, maxLat := run[0].lat, run[0].lat;
    for k := 0 to |run|
      invariant k == 0 ==> minLon == maxLon == run[0].lon && minLat == maxLat == run[0].lat
      invariant k > 0 ==> Box(minLon, maxLon, minLat, maxLat) == BoundsOf(run[..k])
    {
      assert run[..k + 1][..k] == run[..k];
      var s := run[k];
      if s.lon < minLon { minLon := s.lon; }
      if s.lon > maxLon { maxLon := s.lon; }
      if s.lat < minLat { minLat := s.lat; }
      if s.lat > maxLat { maxLat := s.lat; }
    }
    assert run[..|run|] == run;
    BoundsAreBounding(run);
    var lonRange := if maxLon - minLon < 0.0 then minLon - maxLon else maxLon - minLon;
    var latRange := if maxLat - minLat < 0.0 then minLat - maxLat else maxLat - minLat;
    var axis := if lonRange >= latRange then Lon else Lat;
    match DirectionAlong(axis, bearing)
    case None => return None;
    case Some(d) => return Some(RunMeta(axis, d));
  }

  /** The resolved direction depends on which stops a run holds, not on their order. */
  lemma MetaIgnoresOrder(run: seq<Stop>, other: seq<Stop>, bearing: string)
    requires multiset(run) == multiset(other)
    ensures MetaOf(run, bearing) == MetaOf(other, bearing)
  {
    assert |run| == |multiset(run)| == |multiset(other)| == |other|;
    if run != [] {
      BoundsAreBounding(run);
      BoundsAreBounding(other);
    }
  }

  // -- Order along the direction, and the share of steps that follow it -------------------------

  function Along(meta: RunMeta): (Stop, Stop) -> bool {
    (a, b) => if meta.direction.Asc? then At(a, meta.axis) <= At(b, meta.axis)
                                     else At(b, meta.axis) <= At(a, meta.axis)
  }

  lemma AlongIsTotal(meta: RunMeta)
    ensures TotalPreorder(Along(meta))
  {
  }

  function GoodSteps(run: seq<Stop>, meta: RunMeta): (n: nat)
    ensures n <= if run == [] then 0 else |run| - 1
  {
    if |run| < 2 then 0
    else (if Along(meta)(run[0], run[1]) then 1 else 0) + GoodSteps(run[1..], meta)
  }

  function ScoreOf(run: seq<Stop>, bearing: string): (r: real)
  {
    if |run| < 2 then 1.0
    else
      match MetaOf(run, bearing)
      case None => 1.0
      case Some(meta) => GoodSteps(run, meta) as real / (|run| - 1) as real
  }

  method ScoreMonotonicRun(run: seq<Stop>, bearing: string) returns (score: real)
    ensures score == ScoreOf(run, bearing)
  {
    if |run| < 2 {
      return 1.0;
    }
    var resolved := ResolveRunMeta(run, bearing);
    if resolved == None {
      return 1.0;
    }
    var meta := resolved.value;
    var ok := 0;
    var total := |run| - 1;
    var i := 0;
    while i < |run| - 1
      invariant 0 <= i <= |run| - 1
      invariant ok + GoodSteps(run[i..], meta) == GoodSteps(run, meta)
    {
      assert run[i..][0] == run[i] && run[i..][1] == run[i + 1] && run[i..][1..] == run[i + 1..];
      var a := At(run[i], meta.axis);
      var b := At(run[i + 1], meta.axis);
      if (if meta.direction.Asc? then b >= a else b <= a) {
        ok := ok + 1;
      }
      i := i + 1;
    }
    return ok as real / total as real;
  }

  lemma {:induction false} AllStepsGood(run: seq<Stop>, meta: RunMeta)
    requires run != []
    ensures GoodSteps(run, meta) == |run| - 1 <==> Sorted(run, Along(meta))
  {
    if |run| > 1 {
      var le := Along(meta);
      AllStepsGood(run[1..], meta);
      if GoodSteps(run, meta) == |run| - 1 {
        forall i, j | 0 <= i < j < |run| ensures le(run[i], run[j]) {
          assert i == 0 ==> le(run[0], run[1]) && (j > 1 ==> le(run[1..][0], run[1..][j - 1]));
          assert i > 0 ==> le(run[1..][i - 1], run[1..][j - 1]);
        }
      }
    }
  }

  /** Scores are shares: at most one, and one exactly for the runs that need no sorting. */
  lemma ScoreBounds(run: seq<Stop>, bearing: string)
    ensures 0.0 <= ScoreOf(run, bearing) <= 1.0
    ensures ScoreOf(run, bearing) == 1.0 <==>
      MetaOf(run, bearing) == None || Sorted(run, Along(MetaOf(run, bearing).value))
  {
    if |run| >= 2 && MetaOf(run, bearing).Some? {
      var meta := MetaOf(run, bearing).value;
      AllStepsGood(run, meta);
      var n, d := GoodSteps(run, meta) as real, (|run| - 1) as real;
      assert 0.0 <= n <= d && d > 0.0;
      ShareBounds(n, d);
    }
  }

  lemma ShareBounds(n: real, d: real)
    requires 0.0 <= n <= d && d > 0.0
    ensures 0.0 <= n / d <= 1.0 && (n / d == 1.0 <==> n == d)
  {
    assert n == n / d * d;
  }
}
