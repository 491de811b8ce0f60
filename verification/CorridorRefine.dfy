/** `refineCorridorRuns` and `enforceCorridorSanity`: the two passes that sort corridor runs along
    their direction. */
module CorridorRefine {
  import opened Wrappers
  import opened Sequences
  import opened Stops
  import opened RunDirection
  import opened CorridorRuns

  function BearingOf(run: seq<Stop>, key: CorridorKey): string {
    if run == [] then "" else key(run[0]).bearing
  }

  function SortAlong(run: seq<Stop>, meta: RunMeta): seq<Stop> {
    StableSort(run, Along(meta))
  }

  function RefineRun(key: CorridorKey): RunPass {
    run =>
      var meta := MetaOf(run, BearingOf(run, key));
      if |run| >= 2 && meta.Some? then SortAlong(run, meta.value) else run
  }

  function SanityRun(key: CorridorKey, threshold: real): RunPass {
    run =>
      var meta := MetaOf(run, BearingOf(run, key));
      if |run| >= 2 && meta.Some? && ScoreOf(run, BearingOf(run, key)) < threshold
      then SortAlong(run, meta.value) else run
  }

  function Refine(s: seq<Stop>, key: CorridorKey): seq<Stop> {
    MapRuns(s, RefineRun(key), key)
  }

  function Sanity(s: seq<Stop>, threshold: real, key: CorridorKey): seq<Stop> {
    MapRuns(s, SanityRun(key, threshold), key)
  }

  /** A run whose direction is resolved is sorted along it. */
  ghost predicate Ordered(run: seq<Stop>, key: CorridorKey) {
    var meta := MetaOf(run, BearingOf(run, key));
    meta.Some? ==> Sorted(run, Along(meta.value))
  }

  lemma SortAlongOrders(run: seq<Stop>, meta: RunMeta, key: CorridorKey)
    requires OneCorridor(run, key) && MetaOf(run, BearingOf(run, key)) == Some(meta)
    ensures SameCorridors(run, SortAlong(run, meta), key)
    ensures multiset(SortAlong(run, meta)) == multiset(run)
    ensures Ordered(SortAlong(run, meta), key)
  {
    var r := SortAlong(run, meta);
    SortPermutes(run, Along(meta));
    AlongIsTotal(meta);
    SortSorts(run, Along(meta));
    forall k | 0 <= k < |run| ensures key(r[k]) == key(run[0]) && key(run[k]) == key(run[0]) {
      assert r[k] in r;
    }
    MetaIgnoresOrder(run, r, BearingOf(run, key));
  }

  lemma RefineRunFacts(run: seq<Stop>, key: CorridorKey)
    requires OneCorridor(run, key)
    ensures SameCorridors(run, RefineRun(key)(run), key)
    ensures multiset(RefineRun(key)(run)) == multiset(run)
    ensures Ordered(RefineRun(key)(run), key)
    ensures Ordered(run, key) ==> RefineRun(key)(run) == run
  {
    var meta := MetaOf(run, BearingOf(run, key));
    if meta.Some? {
      SortAlongOrders(run, meta.value, key);
      if Ordered(run, key) {
        SortOfSorted(run, Along(meta.value));
      }
    }
  }

  lemma SanityRunFacts(run: seq<Stop>, key: CorridorKey, threshold: real)
    requires OneCorridor(run, key)
    ensures SameCorridors(run, SanityRun(key, threshold)(run), key)
    ensures multiset(SanityRun(key, threshold)(run)) == multiset(run)
    ensures Ordered(run, key) ==> SanityRun(key, threshold)(run) == run
    ensures var r := SanityRun(key, threshold)(run);
      threshold <= 1.0 ==> ScoreOf(r, BearingOf(r, key)) >= threshold
  {
    var meta := MetaOf(run, BearingOf(run, key));
    if meta.Some? {
      var sorted := SortAlong(run, meta.value);
      SortAlongOrders(run, meta.value, key);
      ScoreBounds(sorted, BearingOf(sorted, key));
      if Ordered(run, key) {
        SortOfSorted(run, Along(meta.value));
      }
    }
  }

  lemma PassesKeepRuns(key: CorridorKey, threshold: real)
    ensures KeepsRuns(RefineRun(key), key)
    ensures KeepsRuns(SanityRun(key, threshold), key)
  {
    forall run | OneCorridor(run, key)
      ensures SameCorridors(run, RefineRun(key)(run), key)
      ensures multiset(RefineRun(key)(run)) == multiset(run)
    {
      RefineRunFacts(run, key);
    }
    forall run | OneCorridor(run, key)
      ensures SameCorridors(run, SanityRun(key, threshold)(run), key)
      ensures multiset(SanityRun(key, threshold)(run)) == multiset(run)
    {
      SanityRunFacts(run, key, threshold);
    }
  }

  lemma RunIsOneCorridor(s: seq<Stop>, key: CorridorKey, i: int, j: int)
    requires MaximalRun(s, key, i, j)
    ensures OneCorridor(s[i..j], key)
  {
  }

  /** Refinement permutes the stops, keeps the corridor at every position, and leaves every maximal
      run with a resolved direction sorted along its axis. */
  lemma RefineOrdersRuns(s: seq<Stop>, key: CorridorKey)
    ensures SameCorridors(s, Refine(s, key), key)
    ensures multiset(Refine(s, key)) == multiset(s)
    ensures forall i, j :: MaximalRun(Refine(s, key), key, i, j) ==> Ordered(Refine(s, key)[i..j], key)
  {
    var r := Refine(s, key);
    PassesKeepRuns(key, 0.0);
    MapRunsKeepsCorridors(s, RefineRun(key), key);
    forall i, j | MaximalRun(r, key, i, j) ensures Ordered(r[i..j], key) {
      SameRuns(s, r, key, i, j);
      MapRunsAt(s, RefineRun(key), key, i, j);
      RunIsOneCorridor(s, key, i, j);
      RefineRunFacts(s[i..j], key);
    }
  }

  /** Refinement is idempotent, and the sanity pass after it is the identity for every threshold. */
  lemma PassesFixRefined(s: seq<Stop>, threshold: real, key: CorridorKey)
    ensures Refine(Refine(s, key), key) == Refine(s, key)
    ensures Sanity(Refine(s, key), threshold, key) == Refine(s, key)
  {
    var r := Refine(s, key);
    RefineOrdersRuns(s, key);
    forall i, j | MaximalRun(r, key, i, j) ensures RefineRun(key)(r[i..j]) == r[i..j] {
      RunIsOneCorridor(r, key, i, j);
      RefineRunFacts(r[i..j], key);
    }
    MapRunsIdentity(r, RefineRun(key), key);
    forall i, j | MaximalRun(r, key, i, j) ensures SanityRun(key, threshold)(r[i..j]) == r[i..j] {
      RunIsOneCorridor(r, key, i, j);
      SanityRunFacts(r[i..j], key, threshold);
    }
    MapRunsIdentity(r, SanityRun(key, threshold), key);
  }

  ghost predicate RunsScoreAtLeast(s: seq<Stop>, threshold: real, key: CorridorKey) {
    forall i, j :: MaximalRun(s, key, i, j) ==> ScoreOf(s[i..j], BearingOf(s[i..j], key)) >= threshold
  }

  /** On arbitrary input every run of the sanity pass's output scores at least the threshold, exactly
      when the threshold is at most one or no stop lies on a named corridor. */
  lemma SanityMeetsThreshold(s: seq<Stop>, threshold: real, key: CorridorKey)
    ensures RunsScoreAtLeast(Sanity(s, threshold, key), threshold, key)
      <==> threshold <= 1.0 || forall k :: 0 <= k < |s| ==> !Named(key(s[k]))
  {
    var r := Sanity(s, threshold, key);
    PassesKeepRuns(key, threshold);
    MapRunsKeepsCorridors(s, SanityRun(key, threshold), key);
    forall i, j | MaximalRun(r, key, i, j)
      ensures threshold <= 1.0 ==> ScoreOf(r[i..j], BearingOf(r[i..j], key)) >= threshold
      ensures ScoreOf(r[i..j], BearingOf(r[i..j], key)) <= 1.0
    {
      SameRuns(s, r, key, i, j);
      MapRunsAt(s, SanityRun(key, threshold), key, i, j);
      RunIsOneCorridor(s, key, i, j);
      SanityRunFacts(s[i..j], key, threshold);
      ScoreBounds(r[i..j], BearingOf(r[i..j], key));
    }
    forall k | 0 <= k < |s| && Named(key(s[k])) ensures exists i, j :: MaximalRun(r, key, i, j) {
      var i, j := RunAround(r, key, k);
    }
  }

  // -- The loops -------------------------------------------------------------------------------

  method FindRunEnd(stops: seq<Stop>, i: nat, key: CorridorKey) returns (j: nat)
    requires i < |stops|
    ensures j == i + RunLength(stops[i..], key)
  {
    var c := key(stops[i]);
    j := i + 1;
    while j < |stops|
      invariant i < j <= |stops|
      invariant forall k :: i <= k < j ==> key(stops[k]) == c
    {
      if key(stops[j]) != c {
        break;
      }
      j := j + 1;
    }
    RunLengthIs(stops[i..], key, j - i);
  }

  method WriteBack(out: seq<Stop>, i: nat, j: nat, run: seq<Stop>) returns (r: seq<Stop>)
    requires i + |run| == j <= |out|
    ensures |r| == |out| && r == out[..i] + run + out[j..]
  {
    r := out;
    for k := 0 to |run|
      invariant |r| == |out|
      invariant r == out[..i] + run[..k] + out[i + k..]
    {
      r := r[i + k := run[k]];
    }
  }

  /** What the loops still have to deliver: the stops before `i` are final. */
  function Progress(out: seq<Stop>, i: nat, pass: RunPass, key: CorridorKey): seq<Stop>
    requires i <= |out|
  {
    out[..i] + MapRuns(out[i..], pass, key)
  }

  lemma PassOverUnnamed(out: seq<Stop>, i: nat, pass: RunPass, key: CorridorKey)
    requires i < |out| && !Named(key(out[i]))
    ensures Progress(out, i + 1, pass, key) == Progress(out, i, pass, key)
  {
    assert out[i..][1..] == out[i + 1..] && out[i..][..1] == [out[i]];
    assert out[..i + 1] == out[..i] + [out[i]];
  }

  lemma PassOverRun(out: seq<Stop>, i: nat, j: nat, r: seq<Stop>, pass: RunPass, key: CorridorKey)
    requires KeepsRuns(pass, key)
    requires i < |out| && Named(key(out[i])) && j == i + RunLength(out[i..], key)
    requires r == pass(out[i..j])
    ensures |r| == j - i && |out[..i] + r + out[j..]| == |out|
    ensures Progress(out[..i] + r + out[j..], j, pass, key) == Progress(out, i, pass, key)
  {
    HeadFacts(out[i..], pass, key);
    var next := out[..i] + r + out[j..];
    assert out[i..][..j - i] == out[i..j] && out[i..][j - i..] == out[j..] == next[j..];
    assert next[..j] == out[..i] + r;
  }

  method RefineOneRun(run: seq<Stop>, key: CorridorKey) returns (r: seq<Stop>)
    ensures r == RefineRun(key)(run)
  {
    var bearing := BearingOf(run, key);
    r := run;
    if |run| >= 2 {
      var meta := ResolveRunMeta(run, bearing);
      if meta.Some? {
        r := SortAlong(run, meta.value);
      }
    }
  }

  method CorrectOneRun(run: seq<Stop>, threshold: real, key: CorridorKey) returns (r: seq<Stop>)
    ensures r == SanityRun(key, threshold)(run)
  {
    var bearing := BearingOf(run, key);
    r := run;
    if |run| >= 2 {
      var score := ScoreMonotonicRun(run, bearing);
      var meta := ResolveRunMeta(run, bearing);
      if meta.Some? && score < threshold {
        r := SortAlong(run, meta.value);
      }
    }
  }

  method RefineCorridorRuns(stops: seq<Stop>, key: CorridorKey) returns (out: seq<Stop>)
    ensures out == Refine(stops, key)
  {
    PassesKeepRuns(key, 0.0);
    out := stops;
    var i := 0;
    while i < |out|
      invariant i <= |out|
      invariant Progress(out, i, RefineRun(key), key) == Refine(stops, key)
    {
      if !Named(key(out[i])) {
        PassOverUnnamed(out, i, RefineRun(key), key);
        i := i + 1;
      } else {
        var j := FindRunEnd(out, i, key);
        var run := RefineOneRun(out[i..j], key);
        PassOverRun(out, i, j, run, RefineRun(key), key);
        out := WriteBack(out, i, j, run);
        i := j;
      }
    }
  }

  /** One turn of the sanity loop: over a stop off all corridors, or over a whole run. */
  method CorrectNext(out: seq<Stop>, i: nat, threshold: real, key: CorridorKey) returns (r: seq<Stop>, j: nat)
    requires i < |out| && KeepsRuns(SanityRun(key, threshold), key)
    ensures i < j <= |r| == |out|
    ensures Progress(r, j, SanityRun(key, threshold), key) == Progress(out, i, SanityRun(key, threshold), key)
  {
    if !Named(key(out[i])) {
      PassOverUnnamed(out, i, SanityRun(key, threshold), key);
      return out, i + 1;
    }
    j := FindRunEnd(out, i, key);
    var run := CorrectOneRun(out[i..j], threshold, key);
    PassOverRun(out, i, j, run, SanityRun(key, threshold), key);
    r := WriteBack(out, i, j, run);
  }

  method EnforceCorridorSanity(stops: seq<Stop>, threshold: real, key: CorridorKey) returns (out: seq<Stop>)
    ensures out == Sanity(stops, threshold, key)
  {
    PassesKeepRuns(key, threshold);
    out := stops;
    var i := 0;
    ghost var pass := SanityRun(key, threshold);
    while i < |out|
      invariant i <= |out|
      invariant Progress(out, i, pass, key) == Sanity(stops, threshold, key)
      decreases |out| - i
    {
      out, i := CorrectNext(out, i, threshold, key);
    }
  }
}
