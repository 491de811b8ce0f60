/** Maximal runs of consecutive stops on one named corridor, and passes that work run by run. */
module CorridorRuns {
  import opened Sequences
  import opened Stops

  /** What a pass does to one run. */
  type RunPass = seq<Stop> -> seq<Stop>

  ghost predicate OneCorridor(run: seq<Stop>, key: CorridorKey) {
    forall k :: 0 <= k < |run| ==> key(run[k]) == key(run[0])
  }

  ghost predicate SameCorridors(s: seq<Stop>, r: seq<Stop>, key: CorridorKey) {
    && |r| == |s|
    && forall k :: 0 <= k < |s| ==> key(r[k]) == key(s[k])
  }

  ghost predicate KeepsRun(pass: RunPass, key: CorridorKey, run: seq<Stop>) {
    OneCorridor(run, key) ==> SameCorridors(run, pass(run), key) && multiset(pass(run)) == multiset(run)
  }

  /** The pass permutes every run and keeps it on its corridor. */
  ghost predicate KeepsRuns(pass: RunPass, key: CorridorKey) {
    forall run :: KeepsRun(pass, key, run)
  }

  ghost predicate MaximalRun(s: seq<Stop>, key: CorridorKey, i: int, j: int) {
    && 0 <= i < j <= |s|
    && Named(key(s[i]))
    && (forall k :: i <= k < j ==> key(s[k]) == key(s[i]))
    && (i > 0 ==> key(s[i - 1]) != key(s[i]))
    && (j < |s| ==> key(s[j]) != key(s[i]))
  }

  /** The number of leading stops that share the corridor of the first one. */
  function RunLength(s: seq<Stop>, key: CorridorKey): (n: nat)
    requires s != []
    ensures 1 <= n <= |s|
  {
    if |s| == 1 || key(s[1]) != key(s[0]) then 1 else 1 + RunLength(s[1..], key)
  }

  lemma {:induction false} RunLengthMeaning(s: seq<Stop>, key: CorridorKey)
    requires s != []
    ensures var n := RunLength(s, key);
      && (forall k :: 0 <= k < n ==> key(s[k]) == key(s[0]))
      && (n < |s| ==> key(s[n]) != key(s[0]))
  {
    if |s| > 1 && key(s[1]) == key(s[0]) {
      RunLengthMeaning(s[1..], key);
      forall k | 0 < k < RunLength(s, key) ensures key(s[k]) == key(s[0]) {
        assert s[k] == s[1..][k - 1];
      }
    }
  }

  lemma {:induction false} RunLengthIs(s: seq<Stop>, key: CorridorKey, n: nat)
    requires 1 <= n <= |s|
    requires forall k :: 0 <= k < n ==> key(s[k]) == key(s[0])
    requires n < |s| ==> key(s[n]) != key(s[0])
    ensures RunLength(s, key) == n
  {
    if n > 1 {
      assert key(s[1]) == key(s[0]);
      forall k | 0 <= k < n - 1 ensures key(s[1..][k]) == key(s[0]) {
        assert s[1..][k] == s[k + 1];
      }
      RunLengthIs(s[1..], key, n - 1);
    }
  }

  /** The leading run ends no later than the first change of corridor. */
  lemma {:induction false} RunEndsAtChange(s: seq<Stop>, key: CorridorKey, i: int)
    requires 0 < i < |s| && key(s[i - 1]) != key(s[i])
    ensures RunLength(s, key) <= i
  {
    if key(s[1]) == key(s[0]) {
      assert i > 1;
      RunEndsAtChange(s[1..], key, i - 1);
    }
  }

  /** The first stops that a pass treats as one unit: a maximal run, or one stop off all corridors. */
  function HeadLength(s: seq<Stop>, key: CorridorKey): (n: nat)
    requires s != []
    ensures 1 <= n <= |s|
  {
    if Named(key(s[0])) then RunLength(s, key) else 1
  }

  function PassHead(s: seq<Stop>, pass: RunPass, key: CorridorKey): seq<Stop>
    requires s != []
  {
    if Named(key(s[0])) then pass(s[..HeadLength(s, key)]) else s[..1]
  }

  /** Applies `pass` to every maximal run and leaves the other stops where they are. */
  function MapRuns(s: seq<Stop>, pass: RunPass, key: CorridorKey): seq<Stop>
    decreases |s|
  {
    if s == [] then [] else PassHead(s, pass, key) + MapRuns(s[HeadLength(s, key)..], pass, key)
  }

  lemma HeadFacts(s: seq<Stop>, pass: RunPass, key: CorridorKey)
    requires s != [] && KeepsRuns(pass, key)
    ensures SameCorridors(s[..HeadLength(s, key)], PassHead(s, pass, key), key)
    ensures multiset(PassHead(s, pass, key)) == multiset(s[..HeadLength(s, key)])
  {
    RunLengthMeaning(s, key);
    assert KeepsRun(pass, key, s[..HeadLength(s, key)]);
    assert Named(key(s[0])) ==> OneCorridor(s[..HeadLength(s, key)], key);
  }

  /** A pass over the runs permutes the stops and keeps the corridor at every position. */
  lemma {:induction false} MapRunsKeepsCorridors(s: seq<Stop>, pass: RunPass, key: CorridorKey)
    requires KeepsRuns(pass, key)
    ensures SameCorridors(s, MapRuns(s, pass, key), key)
    ensures multiset(MapRuns(s, pass, key)) == multiset(s)
    decreases |s|
  {
    if s != [] {
      var n := HeadLength(s, key);
      HeadFacts(s, pass, key);
      MapRunsKeepsCorridors(s[n..], pass, key);
      Halves(s, n);
      Glue(s[..n], s[n..], PassHead(s, pass, key), MapRuns(s[n..], pass, key), key);
    }
  }

  lemma Glue(a: seq<Stop>, b: seq<Stop>, c: seq<Stop>, d: seq<Stop>, key: CorridorKey)
    requires SameCorridors(a, c, key) && SameCorridors(b, d, key)
    requires multiset(a) == multiset(c) && multiset(b) == multiset(d)
    ensures SameCorridors(a + b, c + d, key)
    ensures multiset(a + b) == multiset(c + d)
  {
  }

  lemma RunsDoNotOverlap(s: seq<Stop>, key: CorridorKey, i: int, j: int)
    requires MaximalRun(s, key, i, j)
    ensures i == 0 ==> j == HeadLength(s, key)
    ensures var n := HeadLength(s, key);
      i > 0 ==> n <= i && MaximalRun(s[n..], key, i - n, j - n)
  {
    var n := HeadLength(s, key);
    if i == 0 {
      RunLengthIs(s, key, j);
    } else {
      RunEndsAtChange(s, key, i);
      var t := s[n..];
      assert forall k :: 0 <= k < |t| ==> t[k] == s[k + n];
    }
  }

  lemma SliceOfHead(a: seq<Stop>, b: seq<Stop>)
    ensures (a + b)[0..|a|] == a
  {
  }

  lemma SliceOfTail(a: seq<Stop>, b: seq<Stop>, i: int, j: int)
    requires |a| <= i <= j <= |a| + |b|
    ensures (a + b)[i..j] == b[i - |a|..j - |a|]
  {
  }

  lemma MapRunsHead(s: seq<Stop>, pass: RunPass, key: CorridorKey, n: int)
    requires KeepsRuns(pass, key) && s != [] && Named(key(s[0])) && n == HeadLength(s, key)
    ensures |MapRuns(s, pass, key)| >= n && MapRuns(s, pass, key)[0..n] == pass(s[0..n])
  {
    HeadFacts(s, pass, key);
    SliceOfHead(PassHead(s, pass, key), MapRuns(s[n..], pass, key));
    assert s[0..n] == s[..n];
  }

  lemma MapRunsTail(s: seq<Stop>, pass: RunPass, key: CorridorKey, i: int, j: int)
    requires KeepsRuns(pass, key) && s != [] && HeadLength(s, key) <= i <= j <= |s|
    ensures var n, all := HeadLength(s, key), MapRuns(s, pass, key);
      && |all| == |s| && |MapRuns(s[n..], pass, key)| == |s| - n
      && all[i..j] == MapRuns(s[n..], pass, key)[i - n..j - n]
  {
    var n := HeadLength(s, key);
    HeadFacts(s, pass, key);
    MapRunsKeepsCorridors(s[n..], pass, key);
    SliceOfTail(PassHead(s, pass, key), MapRuns(s[n..], pass, key), i, j);
  }

  lemma SameSlice(s: seq<Stop>, n: int, i: int, j: int)
    requires 0 <= n <= i <= j <= |s|
    ensures s[n..][i - n..j - n] == s[i..j]
  {
  }

  lemma MapRunsLength(s: seq<Stop>, pass: RunPass, key: CorridorKey)
    requires KeepsRuns(pass, key)
    ensures |MapRuns(s, pass, key)| == |s|
  {
    MapRunsKeepsCorridors(s, pass, key);
  }

  /** The stops of every maximal run become exactly the pass applied to that run. */
  lemma {:induction false} MapRunsAt(s: seq<Stop>, pass: RunPass, key: CorridorKey, i: int, j: int)
    requires KeepsRuns(pass, key) && MaximalRun(s, key, i, j)
    ensures |MapRuns(s, pass, key)| == |s|
    ensures MapRuns(s, pass, key)[i..j] == pass(s[i..j])
    decreases |s|
  {
    MapRunsLength(s, pass, key);
    RunsDoNotOverlap(s, key, i, j);
    if i == 0 {
      MapRunsHead(s, pass, key, j);
    } else {
      var n := HeadLength(s, key);
      MapRunsAt(s[n..], pass, key, i - n, j - n);
      MapRunsTail(s, pass, key, i, j);
      SameSlice(s, n, i, j);
    }
  }

  /** Stops on no named corridor stay where they are. */
  lemma {:induction false} MapRunsUnnamed(s: seq<Stop>, pass: RunPass, key: CorridorKey, k: int)
    requires KeepsRuns(pass, key) && 0 <= k < |s| && !Named(key(s[k]))
    ensures |MapRuns(s, pass, key)| == |s| && MapRuns(s, pass, key)[k] == s[k]
    decreases |s|
  {
    MapRunsKeepsCorridors(s, pass, key);
    HeadFacts(s, pass, key);
    RunLengthMeaning(s, key);
    var n := HeadLength(s, key);
    if k >= n {
      MapRunsUnnamed(s[n..], pass, key, k - n);
    }
  }

  lemma HeadIsMaximal(s: seq<Stop>, key: CorridorKey)
    requires s != [] && Named(key(s[0]))
    ensures MaximalRun(s, key, 0, HeadLength(s, key))
  {
    RunLengthMeaning(s, key);
  }

  lemma TailRunIsMaximal(s: seq<Stop>, key: CorridorKey, i: int, j: int)
    requires s != [] && MaximalRun(s[HeadLength(s, key)..], key, i, j)
    ensures MaximalRun(s, key, i + HeadLength(s, key), j + HeadLength(s, key))
  {
    var n := HeadLength(s, key);
    RunLengthMeaning(s, key);
    var t := s[n..];
    assert forall k :: n <= k < |s| ==> s[k] == t[k - n];
    if i == 0 {
      assert key(s[n - 1]) == key(s[0]);
      assert Named(key(s[0])) ==> key(s[n]) != key(s[0]);
    }
  }

  /** A pass that changes no maximal run changes nothing. */
  lemma {:induction false} MapRunsIdentity(s: seq<Stop>, pass: RunPass, key: CorridorKey)
    requires forall i, j :: MaximalRun(s, key, i, j) ==> pass(s[i..j]) == s[i..j]
    ensures MapRuns(s, pass, key) == s
    decreases |s|
  {
    if s != [] {
      var n := HeadLength(s, key);
      if Named(key(s[0])) {
        HeadIsMaximal(s, key);
        assert s[0..n] == s[..n];
      }
      forall i, j | MaximalRun(s[n..], key, i, j) ensures pass(s[n..][i..j]) == s[n..][i..j] {
        TailRunIsMaximal(s, key, i, j);
        SliceOfRest(s, n, i, j);
      }
      MapRunsIdentity(s[n..], pass, key);
      Halves(s, n);
    }
  }

  lemma SameRuns(s: seq<Stop>, r: seq<Stop>, key: CorridorKey, i: int, j: int)
    requires SameCorridors(s, r, key)
    ensures MaximalRun(s, key, i, j) <==> MaximalRun(r, key, i, j)
  {
  }

  /** Every stop on a named corridor lies in a maximal run. */
  lemma RunAround(s: seq<Stop>, key: CorridorKey, k: int) returns (i: int, j: int)
    requires 0 <= k < |s| && Named(key(s[k]))
    ensures MaximalRun(s, key, i, j) && i <= k < j
  {
    i := k;
    while i > 0 && key(s[i - 1]) == key(s[k])
      invariant 0 <= i <= k
      invariant forall x :: i <= x <= k ==> key(s[x]) == key(s[k])
    {
      i := i - 1;
    }
    j := k + 1;
    while j < |s| && key(s[j]) == key(s[k])
      invariant k < j <= |s|
      invariant forall x :: i <= x < j ==> key(s[x]) == key(s[k])
    {
      j := j + 1;
    }
  }
}
