/** `regroupCorridorWithinWindow`: pulls stops of one corridor together inside a sliding window. */
module CorridorRegroup {
  import opened Sequences
  import opened Stops

  function Limit(n: nat, i: nat, window: int): int {
    if n <= i + window then n else i + window
  }

  /** The stops on corridor `c` first, then the others; each group keeps its order. */
  function Split(s: seq<Stop>, key: CorridorKey, c: Corridor): seq<Stop> {
    Filter(s, On(key, c)) + Filter(s, Off(key, c))
  }

  /** One loop iteration splits the window after position `i` by the corridor of stop `i`. */
  function RegroupAt(arr: seq<Stop>, i: nat, window: int, key: CorridorKey): (r: seq<Stop>)
    requires i < |arr|
  {
    var limit := Limit(|arr|, i, window);
    if !Named(key(arr[i])) || limit <= i + 1 then arr
    else arr[..i + 1] + Split(arr[i + 1..limit], key, key(arr[i])) + arr[limit..]
  }

  function RegroupFrom(arr: seq<Stop>, i: nat, window: int, key: CorridorKey): (r: seq<Stop>)
    requires i <= |arr|
    decreases |arr| - i
  {
    if i == |arr| then arr
    else
      RegroupLength(arr, i, window, key);
      RegroupFrom(RegroupAt(arr, i, window, key), i + 1, window, key)
  }

  function Regroup(arr: seq<Stop>, window: int, key: CorridorKey): seq<Stop> {
    RegroupFrom(arr, 0, window, key)
  }

  // -- Facts about one split -------------------------------------------------------------------

  lemma {:induction false} SplitPermutes(s: seq<Stop>, key: CorridorKey, c: Corridor)
    ensures |Filter(s, On(key, c))| + |Filter(s, Off(key, c))| == |s|
    ensures multiset(Split(s, key, c)) == multiset(s)
  {
    if s != [] {
      SplitPermutes(s[1..], key, c);
      assert s == [s[0]] + s[1..];
    }
  }

  lemma RegroupLength(arr: seq<Stop>, i: nat, window: int, key: CorridorKey)
    requires i < |arr|
    ensures |RegroupAt(arr, i, window, key)| == |arr|
  {
    var limit := Limit(|arr|, i, window);
    if limit > i + 1 {
      SplitPermutes(arr[i + 1..limit], key, key(arr[i]));
    }
  }

  /** The `t`-th stop off the corridor stood at most as many places later as stops were pulled. */
  lemma {:induction false} OffOrigin(s: seq<Stop>, key: CorridorKey, c: Corridor, t: nat) returns (u: nat)
    requires t < |Filter(s, Off(key, c))|
    ensures t <= u < |s| && s[u] == Filter(s, Off(key, c))[t]
    ensures u <= t + |Filter(s, On(key, c))|
  {
    if key(s[0]) == c {
      u := OffOrigin(s[1..], key, c, t);
      u := u + 1;
    } else if t == 0 {
      u := 0;
    } else {
      u := OffOrigin(s[1..], key, c, t - 1);
      u := u + 1;
    }
  }

  lemma {:induction false} SplitOfGrouped(s: seq<Stop>, key: CorridorKey, c: Corridor)
    requires forall u, v :: 0 <= u < v < |s| && key(s[v]) == c ==> key(s[u]) == c
    ensures Split(s, key, c) == s
  {
    if s != [] {
      if key(s[0]) == c {
        SplitOfGrouped(s[1..], key, c);
      } else {
        FilterNone(s, On(key, c));
        FilterAll(s, Off(key, c));
      }
    }
  }

  lemma SplitKeepsOrder(s: seq<Stop>, key: CorridorKey, c: Corridor, d: Corridor)
    ensures Filter(Split(s, key, c), On(key, d)) == Filter(s, On(key, d))
  {
    FilterConcat(Filter(s, On(key, c)), Filter(s, Off(key, c)), On(key, d));
    FilterMembers(s, On(key, c));
    FilterMembers(s, Off(key, c));
    if c == d {
      FilterAll(Filter(s, On(key, c)), On(key, d));
      FilterNone(Filter(s, Off(key, c)), On(key, d));
    } else {
      FilterNone(Filter(s, On(key, c)), On(key, d));
      OnWithinOff(s, key, c, d);
    }
  }

  lemma {:induction false} OnWithinOff(s: seq<Stop>, key: CorridorKey, c: Corridor, d: Corridor)
    requires c != d
    ensures Filter(Filter(s, Off(key, c)), On(key, d)) == Filter(s, On(key, d))
  {
    if s != [] {
      OnWithinOff(s[1..], key, c, d);
    }
  }

  // -- Permutation, and the order inside every corridor ----------------------------------------

  lemma SplitInside(pre: seq<Stop>, mid: seq<Stop>, post: seq<Stop>, key: CorridorKey, c: Corridor, d: Corridor)
    ensures multiset(pre + Split(mid, key, c) + post) == multiset(pre + mid + post)
    ensures Filter(pre + Split(mid, key, c) + post, On(key, d)) == Filter(pre + mid + post, On(key, d))
  {
    SplitPermutes(mid, key, c);
    SplitKeepsOrder(mid, key, c, d);
    FilterConcat3(pre, mid, post, On(key, d));
    FilterConcat3(pre, Split(mid, key, c), post, On(key, d));
  }

  lemma RegroupAtKeepsOrder(arr: seq<Stop>, i: nat, window: int, key: CorridorKey, d: Corridor)
    requires i < |arr|
    ensures multiset(RegroupAt(arr, i, window, key)) == multiset(arr)
    ensures Filter(RegroupAt(arr, i, window, key), On(key, d)) == Filter(arr, On(key, d))
  {
    var limit := Limit(|arr|, i, window);
    if Named(key(arr[i])) && limit > i + 1 {
      Thirds(arr, i + 1, limit);
      SplitInside(arr[..i + 1], arr[i + 1..limit], arr[limit..], key, key(arr[i]), d);
    }
  }

  lemma {:induction false} RegroupFromPermutes(arr: seq<Stop>, i: nat, window: int, key: CorridorKey)
    requires i <= |arr|
    ensures multiset(RegroupFrom(arr, i, window, key)) == multiset(arr)
    decreases |arr| - i
  {
    if i < |arr| {
      var next := RegroupAt(arr, i, window, key);
      RegroupLength(arr, i, window, key);
      RegroupAtKeepsOrder(arr, i, window, key, key(arr[i]));
      RegroupFromPermutes(next, i + 1, window, key);
    }
  }

  lemma {:induction false} RegroupFromKeepsOrder(arr: seq<Stop>, i: nat, window: int, key: CorridorKey, d: Corridor)
    requires i <= |arr|
    ensures Filter(RegroupFrom(arr, i, window, key), On(key, d)) == Filter(arr, On(key, d))
    decreases |arr| - i
  {
    if i < |arr| {
      var next := RegroupAt(arr, i, window, key);
      RegroupLength(arr, i, window, key);
      RegroupAtKeepsOrder(arr, i, window, key, d);
      RegroupFromKeepsOrder(next, i + 1, window, key, d);
    }
  }

  /** Regrouping permutes the stops and never reorders two stops of the same corridor. */
  lemma RegroupKeepsOrder(arr: seq<Stop>, window: int, key: CorridorKey)
    ensures |Regroup(arr, window, key)| == |arr|
    ensures multiset(Regroup(arr, window, key)) == multiset(arr)
    ensures forall d :: Filter(Regroup(arr, window, key), On(key, d)) == Filter(arr, On(key, d))
  {
    forall d ensures Filter(Regroup(arr, window, key), On(key, d)) == Filter(arr, On(key, d)) {
      RegroupFromKeepsOrder(arr, 0, window, key, d);
    }
    RegroupFromPermutes(arr, 0, window, key);
    assert |multiset(Regroup(arr, window, key))| == |multiset(arr)|;
  }

  // -- No separation ---------------------------------------------------------------------------

  /** Two stops `p < q` of one corridor less than `window` apart have only that corridor between. */
  ghost predicate Together(arr: seq<Stop>, window: int, key: CorridorKey, p: int, q: int)
    requires 0 <= p < q < |arr|
  {
    q - p < window && Named(key(arr[p])) && key(arr[q]) == key(arr[p]) ==>
      forall k :: p < k < q ==> key(arr[k]) == key(arr[p])
  }

  ghost predicate NoSeparationBefore(arr: seq<Stop>, n: nat, window: int, key: CorridorKey) {
    forall p, q :: 0 <= p < q < |arr| && p < n ==> Together(arr, window, key, p, q)
  }

  ghost predicate NoSeparation(arr: seq<Stop>, window: int, key: CorridorKey) {
    NoSeparationBefore(arr, |arr|, window, key)
  }

  /** A stop that was not pulled cannot share its corridor with an earlier stop inside the window. */
  lemma OffKeyDiffers(arr: seq<Stop>, i: nat, window: int, key: CorridorKey, p: nat, t: nat)
    requires i < |arr| && p <= i && i + 1 <= Limit(|arr|, i, window)
    requires NoSeparationBefore(arr, i, window, key)
    requires var mid := arr[i + 1..Limit(|arr|, i, window)];
      && t < |Filter(mid, Off(key, key(arr[i])))|
      && i + 1 + |Filter(mid, On(key, key(arr[i])))| + t - p < window
    requires Named(key(arr[p]))
    ensures key(Filter(arr[i + 1..Limit(|arr|, i, window)], Off(key, key(arr[i])))[t]) != key(arr[p])
  {
    var mid := arr[i + 1..Limit(|arr|, i, window)];
    var off := Filter(mid, Off(key, key(arr[i])));
    FilterMembers(mid, Off(key, key(arr[i])));
    assert off[t] in off;
    if p < i {
      var u := OffOrigin(mid, key, key(arr[i]), t);
      assert arr[i + 1 + u] == off[t];
      assert Together(arr, window, key, p, i + 1 + u);
    }
  }

  /** A pair whose later stop was pulled behind stop `i`. */
  lemma PulledPair(arr: seq<Stop>, i: nat, window: int, key: CorridorKey, p: nat, q: nat, on: seq<Stop>, r: seq<Stop>)
    requires p <= i < q <= i + |on| < |arr| == |r| && q - p < window
    requires Named(key(arr[p])) && (p < i ==> Together(arr, window, key, p, i))
    requires forall x :: x in on ==> key(x) == key(arr[i])
    requires forall k :: 0 <= k <= i ==> r[k] == arr[k]
    requires forall k :: i < k <= i + |on| ==> r[k] == on[k - i - 1]
    ensures Together(r, window, key, p, q)
  {
    assert r[q] in on;
    forall k | p < k < q && key(r[q]) == key(arr[p]) ensures key(r[k]) == key(r[p]) {
      if k > i {
        assert r[k] in on;
      }
    }
  }

  /** What the positions of a split window hold. */
  lemma SplitPositions(arr: seq<Stop>, i: nat, window: int, key: CorridorKey, q: nat)
    requires i < |arr| && q < |arr| && Named(key(arr[i])) && Limit(|arr|, i, window) > i + 1
    ensures var mid := arr[i + 1..Limit(|arr|, i, window)];
      var on, off := Filter(mid, On(key, key(arr[i]))), Filter(mid, Off(key, key(arr[i])));
      var r := RegroupAt(arr, i, window, key);
      && |r| == |arr| && |on| + |off| == |mid|
      && (q <= i ==> r[q] == arr[q])
      && (i < q <= i + |on| ==> r[q] == on[q - i - 1])
      && (i + |on| < q <= i + |mid| ==> r[q] == off[q - i - 1 - |on|])
  {
    SplitPermutes(arr[i + 1..Limit(|arr|, i, window)], key, key(arr[i]));
  }

  lemma RegroupAtPair(arr: seq<Stop>, i: nat, window: int, key: CorridorKey, p: nat, q: nat)
    requires i < |arr| && p < q < |arr| && p <= i
    requires NoSeparationBefore(arr, i, window, key)
    requires |RegroupAt(arr, i, window, key)| == |arr|
    ensures Together(RegroupAt(arr, i, window, key), window, key, p, q)
  {
    var r := RegroupAt(arr, i, window, key);
    var limit := Limit(|arr|, i, window);
    assert p < i ==> Together(arr, window, key, p, q);
    if Named(key(arr[i])) && limit > i + 1 {
      forall k | 0 <= k <= i ensures r[k] == arr[k] {
        SplitPositions(arr, i, window, key, k);
      }
      if q > i && q - p < window && Named(key(arr[p])) {
        RegroupAtAhead(arr, i, window, key, p, q);
      }
    }
  }

  /** The pairs that reach from the part up to `i` into the regrouped window. */
  lemma RegroupAtAhead(arr: seq<Stop>, i: nat, window: int, key: CorridorKey, p: nat, q: nat)
    requires i < |arr| && p <= i < q < |arr| && q - p < window
    requires NoSeparationBefore(arr, i, window, key)
    requires Named(key(arr[i])) && Named(key(arr[p])) && Limit(|arr|, i, window) > i + 1
    requires |RegroupAt(arr, i, window, key)| == |arr|
    requires forall k :: 0 <= k <= i ==> RegroupAt(arr, i, window, key)[k] == arr[k]
    ensures Together(RegroupAt(arr, i, window, key), window, key, p, q)
  {
    var r, mid := RegroupAt(arr, i, window, key), arr[i + 1..Limit(|arr|, i, window)];
    var on := Filter(mid, On(key, key(arr[i])));
    assert p < i ==> Together(arr, window, key, p, i);
    if q <= i + |on| {
      FilterMembers(mid, On(key, key(arr[i])));
      PulledPositions(arr, i, window, key);
      PulledPair(arr, i, window, key, p, q, on, r);
    } else {
      OffAheadDiffers(arr, i, window, key, p, q);
    }
  }

  /** A stop of the window that was not pulled. */
  lemma OffAheadDiffers(arr: seq<Stop>, i: nat, window: int, key: CorridorKey, p: nat, q: nat)
    requires i < |arr| && p <= i < q < |arr| && q - p < window
    requires NoSeparationBefore(arr, i, window, key)
    requires Named(key(arr[i])) && Named(key(arr[p])) && Limit(|arr|, i, window) > i + 1
    requires |RegroupAt(arr, i, window, key)| == |arr|
    requires i + |Filter(arr[i + 1..Limit(|arr|, i, window)], On(key, key(arr[i])))| < q
    ensures key(RegroupAt(arr, i, window, key)[q]) != key(arr[p])
  {
    var on := Filter(arr[i + 1..Limit(|arr|, i, window)], On(key, key(arr[i])));
    SplitPositions(arr, i, window, key, q);
    OffKeyDiffers(arr, i, window, key, p, q - i - 1 - |on|);
  }

  /** The pulled stops stand right behind `i`, in their order. */
  lemma PulledPositions(arr: seq<Stop>, i: nat, window: int, key: CorridorKey)
    requires i < |arr| && Named(key(arr[i])) && Limit(|arr|, i, window) > i + 1
    requires |RegroupAt(arr, i, window, key)| == |arr|
    ensures var r, on := RegroupAt(arr, i, window, key), Filter(arr[i + 1..Limit(|arr|, i, window)], On(key, key(arr[i])));
      i + |on| < |arr| && forall k :: i < k <= i + |on| ==> r[k] == on[k - i - 1]
  {
    var r, on := RegroupAt(arr, i, window, key), Filter(arr[i + 1..Limit(|arr|, i, window)], On(key, key(arr[i])));
    forall k | i < k <= i + |on| ensures r[k] == on[k - i - 1] {
      SplitPositions(arr, i, window, key, k);
    }
  }

  /** For every order and every window, regrouped stops are never separated. */
  lemma {:induction false} RegroupSeparatesNothing(arr: seq<Stop>, i: nat, window: int, key: CorridorKey)
    requires i <= |arr|
    requires NoSeparationBefore(arr, i, window, key)
    ensures NoSeparation(RegroupFrom(arr, i, window, key), window, key)
    decreases |arr| - i
  {
    if i < |arr| {
      var r := RegroupAt(arr, i, window, key);
      RegroupLength(arr, i, window, key);
      forall p, q | 0 <= p < q < |r| && p < i + 1 ensures Together(r, window, key, p, q) {
        RegroupAtPair(arr, i, window, key, p, q);
      }
      RegroupSeparatesNothing(r, i + 1, window, key);
    }
  }

  lemma RegroupAtOfGrouped(arr: seq<Stop>, i: nat, window: int, key: CorridorKey)
    requires i < |arr| && NoSeparation(arr, window, key)
    ensures RegroupAt(arr, i, window, key) == arr
  {
    var limit := Limit(|arr|, i, window);
    if Named(key(arr[i])) && limit > i + 1 {
      WindowIsGrouped(arr, i, window, key);
      SplitOfGrouped(arr[i + 1..limit], key, key(arr[i]));
      Thirds(arr, i + 1, limit);
    }
  }

  lemma WindowIsGrouped(arr: seq<Stop>, i: nat, window: int, key: CorridorKey)
    requires i < |arr| && NoSeparation(arr, window, key) && Named(key(arr[i])) && Limit(|arr|, i, window) > i + 1
    ensures var mid := arr[i + 1..Limit(|arr|, i, window)];
      forall u, v :: 0 <= u < v < |mid| && key(mid[v]) == key(arr[i]) ==> key(mid[u]) == key(arr[i])
  {
    var mid := arr[i + 1..Limit(|arr|, i, window)];
    forall u, v | 0 <= u < v < |mid| && key(mid[v]) == key(arr[i]) ensures key(mid[u]) == key(arr[i]) {
      assert Together(arr, window, key, i, i + 1 + v);
      assert mid[u] == arr[i + 1 + u];
    }
  }

  lemma {:induction false} RegroupOfGrouped(arr: seq<Stop>, i: nat, window: int, key: CorridorKey)
    requires i <= |arr|
    requires NoSeparation(arr, window, key)
    ensures RegroupFrom(arr, i, window, key) == arr
    decreases |arr| - i
  {
    if i < |arr| {
      RegroupAtOfGrouped(arr, i, window, key);
      RegroupOfGrouped(arr, i + 1, window, key);
    }
  }

  /** Regrouping leaves an order alone exactly when the order already separates nothing; hence it
      is idempotent. */
  lemma RegroupFixedPoints(arr: seq<Stop>, window: int, key: CorridorKey)
    ensures Regroup(arr, window, key) == arr <==> NoSeparation(arr, window, key)
    ensures Regroup(Regroup(arr, window, key), window, key) == Regroup(arr, window, key)
  {
    RegroupSeparatesNothing(arr, 0, window, key);
    RegroupOfGrouped(Regroup(arr, window, key), 0, window, key);
    if NoSeparation(arr, window, key) {
      RegroupOfGrouped(arr, 0, window, key);
    }
  }

  // -- The loops -------------------------------------------------------------------------------

  ghost predicate Increasing(matches: seq<nat>) {
    forall a, b :: 0 <= a < b < |matches| ==> matches[a] < matches[b]
  }

  /** `matches` lists in order the positions in `[from, to)` on corridor `c`. */
  ghost predicate ListsMatches(matches: seq<nat>, arr: seq<Stop>, key: CorridorKey, c: Corridor, from: nat, to: nat)
    requires to <= |arr|
  {
    && Increasing(matches)
    && forall x :: x in matches <==> from <= x < to && key(arr[x]) == c
  }

  method RegroupCorridorWithinWindow(stops: seq<Stop>, window: int, key: CorridorKey) returns (arr: seq<Stop>)
    ensures arr == Regroup(stops, window, key)
  {
    arr := stops;
    var i := 0;
    while i < |arr|
      invariant i <= |arr|
      invariant RegroupFrom(arr, i, window, key) == Regroup(stops, window, key)
      decreases |arr| - i
    {
      RegroupLength(arr, i, window, key);
      var c := key(arr[i]);
      if !Named(c) {
        i := i + 1;
        continue;
      }
      var limit := Limit(|arr|, i, window);
      var matches := FindMatches(arr, i, limit, key, c);
      arr := PullForward(arr, i, limit, matches, key, c);
      i := i + 1;
    }
  }

  method FindMatches(arr: seq<Stop>, i: nat, limit: int, key: CorridorKey, c: Corridor) returns (matches: seq<nat>)
    requires i < |arr| && limit <= |arr|
    ensures ListsMatches(matches, arr, key, c, i + 1, if limit < i + 1 then i + 1 else limit)
  {
    matches := [];
    var j := i + 1;
    while j < limit
      invariant i + 1 <= j <= |arr| && (j <= limit || j == i + 1)
      invariant ListsMatches(matches, arr, key, c, i + 1, j)
    {
      if key(arr[j]) == c {
        assert forall a :: 0 <= a < |matches| ==> matches[a] in matches;
        matches := matches + [j];
      }
      j := j + 1;
    }
  }

  /** `was` after all its stops on corridor `c` between `i` and `end` have been spliced out. */
  function Remaining(was: seq<Stop>, i: nat, key: CorridorKey, c: Corridor, end: nat): seq<Stop>
    requires i + 1 <= end <= |was|
  {
    was[..i + 1] + Filter(was[i + 1..end], Off(key, c)) + was[end..]
  }

  function Extracted(was: seq<Stop>, i: nat, key: CorridorKey, c: Corridor, end: nat): seq<Stop>
    requires i + 1 <= end <= |was|
  {
    Filter(was[i + 1..end], On(key, c))
  }

  function PulledEnd(i: nat, matches: seq<nat>, m: nat): nat
    requires m <= |matches|
  {
    if m == 0 then i + 1 else matches[m - 1] + 1
  }

  /** The first splices: takes the matches out one by one, and remembers them in order. */
  method TakeMatches(was: seq<Stop>, i: nat, limit: nat, matches: seq<nat>, key: CorridorKey, c: Corridor)
    returns (arr: seq<Stop>, pulled: seq<Stop>)
    requires i + 1 <= limit <= |was| && ListsMatches(matches, was, key, c, i + 1, limit)
    ensures i + 1 <= PulledEnd(i, matches, |matches|) <= limit
    ensures pulled == Extracted(was, i, key, c, PulledEnd(i, matches, |matches|))
    ensures arr == Remaining(was, i, key, c, PulledEnd(i, matches, |matches|))
  {
    arr, pulled := was, [];
    assert was[i + 1..i + 1] == [] && was[..i + 1] + [] + was[i + 1..] == was;
    for m := 0 to |matches|
      invariant i + 1 <= PulledEnd(i, matches, m) <= limit
      invariant |pulled| == m
      invariant pulled == Extracted(was, i, key, c, PulledEnd(i, matches, m))
      invariant arr == Remaining(was, i, key, c, PulledEnd(i, matches, m))
    {
      PullStep(was, i, key, c, limit, matches, m);
      var idx := matches[m] - m;
      pulled, arr := pulled + [arr[idx]], arr[..idx] + arr[idx + 1..];
    }
  }

  /** The two nested splices: removes every match and reinserts them right after position `i`. */
  method PullForward(was: seq<Stop>, i: nat, limit: int, matches: seq<nat>, key: CorridorKey, c: Corridor)
    returns (arr: seq<Stop>)
    requires i < |was| && limit <= |was|
    requires ListsMatches(matches, was, key, c, i + 1, if limit < i + 1 then i + 1 else limit)
    ensures arr == if limit <= i + 1 then was else was[..i + 1] + Split(was[i + 1..limit], key, c) + was[limit..]
  {
    arr := was;
    if |matches| > 0 {
      assert matches[0] in matches;
      var pulled;
      arr, pulled := TakeMatches(was, i, limit, matches, key, c);
      PullDone(was, i, key, c, limit, matches);
      arr := arr[..i + 1] + pulled + arr[i + 1..];
    } else if limit > i + 1 {
      NothingToPull(was, i, limit, key, c);
    }
  }

  lemma NothingToPull(was: seq<Stop>, i: nat, limit: nat, key: CorridorKey, c: Corridor)
    requires i + 1 <= limit <= |was| && forall k :: i + 1 <= k < limit ==> key(was[k]) != c
    ensures was[..i + 1] + Split(was[i + 1..limit], key, c) + was[limit..] == was
  {
    FilterNone(was[i + 1..limit], On(key, c));
    FilterAll(was[i + 1..limit], Off(key, c));
    assert [] + was[i + 1..limit] == was[i + 1..limit];
    Thirds(was, i + 1, limit);
  }

  lemma PullStep(was: seq<Stop>, i: nat, key: CorridorKey, c: Corridor, limit: nat, matches: seq<nat>, m: nat)
    requires limit <= |was| && m < |matches| && i + 1 <= PulledEnd(i, matches, m) <= limit
    requires ListsMatches(matches, was, key, c, i + 1, limit)
    requires |Extracted(was, i, key, c, PulledEnd(i, matches, m))| == m
    ensures i + 1 <= matches[m] < limit
    ensures var arr, idx := Remaining(was, i, key, c, PulledEnd(i, matches, m)), matches[m] - m;
      && 0 <= idx < |arr|
      && Extracted(was, i, key, c, PulledEnd(i, matches, m + 1))
         == Extracted(was, i, key, c, PulledEnd(i, matches, m)) + [arr[idx]]
      && Remaining(was, i, key, c, PulledEnd(i, matches, m + 1)) == arr[..idx] + arr[idx + 1..]
  {
    var end := PulledEnd(i, matches, m);
    PullNext(was, i, key, c, end, limit, matches, m);
    PullRemains(was, i, key, c, end, matches[m], m);
  }

  /** The splice that takes out the match at `at`, when `m` matches before it have been taken out. */
  lemma PullRemains(was: seq<Stop>, i: nat, key: CorridorKey, c: Corridor, end: nat, at: nat, m: nat)
    requires i + 1 <= end <= at < |was| && |Extracted(was, i, key, c, end)| == m
    requires Filter(was[i + 1..at + 1], Off(key, c)) == Filter(was[i + 1..end], Off(key, c)) + was[end..at]
    ensures var arr, idx := Remaining(was, i, key, c, end), at - m;
      && 0 <= idx < |arr| && arr[idx] == was[at]
      && Remaining(was, i, key, c, at + 1) == arr[..idx] + arr[idx + 1..]
  {
    SplitPermutes(was[i + 1..end], key, c);
    RemoveOne(was, i, Filter(was[i + 1..end], Off(key, c)), end, at);
  }

  lemma PullDone(was: seq<Stop>, i: nat, key: CorridorKey, c: Corridor, limit: nat, matches: seq<nat>)
    requires limit <= |was| && |matches| > 0 && i + 1 <= PulledEnd(i, matches, |matches|) <= limit
    requires ListsMatches(matches, was, key, c, i + 1, limit)
    ensures var end := PulledEnd(i, matches, |matches|);
      var arr, pulled := Remaining(was, i, key, c, end), Extracted(was, i, key, c, end);
      && i + 1 <= |arr|
      && arr[..i + 1] + pulled + arr[i + 1..] == was[..i + 1] + Split(was[i + 1..limit], key, c) + was[limit..]
  {
    var end := PulledEnd(i, matches, |matches|);
    NoneAfter(was, i, key, c, end, limit, matches);
    assert was[end..] == was[end..limit] + was[limit..];
    Reinsert(was[..i + 1], Filter(was[i + 1..end], Off(key, c)), was[end..limit], was[limit..], Extracted(was, i, key, c, end));
  }

  lemma Reinsert(pre: seq<Stop>, off: seq<Stop>, tail: seq<Stop>, post: seq<Stop>, pulled: seq<Stop>)
    ensures var arr := pre + off + (tail + post);
      arr[..|pre|] + pulled + arr[|pre|..] == pre + (pulled + (off + tail)) + post
  {
    var arr := pre + off + (tail + post);
    assert arr[..|pre|] == pre && arr[|pre|..] == off + (tail + post);
  }

  /** Removing stop `at` after `off` stops stayed and the rest before `end` were removed. */
  lemma RemoveOne(was: seq<Stop>, i: nat, off: seq<Stop>, end: nat, at: nat)
    requires i + 1 <= end <= at < |was| && |off| <= end - i - 1
    ensures var arr, idx := was[..i + 1] + off + was[end..], at - (end - i - 1 - |off|);
      && 0 <= idx < |arr|
      && arr[idx] == was[at]
      && arr[..idx] + arr[idx + 1..] == was[..i + 1] + (off + was[end..at]) + was[at + 1..]
  {
  }

  lemma NoMatchBetween(was: seq<Stop>, i: nat, key: CorridorKey, c: Corridor, limit: nat, matches: seq<nat>, m: nat, x: nat)
    requires i + 1 <= limit <= |was| && ListsMatches(matches, was, key, c, i + 1, limit)
    requires m <= |matches| && i + 1 <= x < limit
    requires m > 0 ==> matches[m - 1] < x
    requires m < |matches| ==> x < matches[m]
    ensures key(was[x]) != c
  {
    forall a | 0 <= a < |matches| ensures matches[a] != x {
      if a < m {
        assert matches[a] <= matches[m - 1];
      } else {
        assert matches[m] <= matches[a];
      }
    }
  }

  lemma GapAndMatch(head: seq<Stop>, gap: seq<Stop>, match0: Stop, key: CorridorKey, c: Corridor)
    requires key(match0) == c && forall x :: x in gap ==> key(x) != c
    ensures Filter(head + gap + [match0], On(key, c)) == Filter(head, On(key, c)) + [match0]
    ensures Filter(head + gap + [match0], Off(key, c)) == Filter(head, Off(key, c)) + gap
  {
    FilterConcat3(head, gap, [match0], On(key, c));
    FilterConcat3(head, gap, [match0], Off(key, c));
    FilterNone(gap, On(key, c));
    FilterAll(gap, Off(key, c));
  }

  lemma SliceThrough(was: seq<Stop>, from: nat, end: nat, at: nat)
    requires from <= end <= at < |was|
    ensures was[from..at + 1] == was[from..end] + was[end..at] + [was[at]]
  {
  }

  lemma PullNext(was: seq<Stop>, i: nat, key: CorridorKey, c: Corridor, end: nat, limit: nat, matches: seq<nat>, m: nat)
    requires i + 1 <= end <= limit <= |was| && m < |matches|
    requires ListsMatches(matches, was, key, c, i + 1, limit)
    requires end == if m == 0 then i + 1 else matches[m - 1] + 1
    ensures end <= matches[m] < limit
    ensures Filter(was[i + 1..matches[m] + 1], On(key, c)) == Filter(was[i + 1..end], On(key, c)) + [was[matches[m]]]
    ensures Filter(was[i + 1..matches[m] + 1], Off(key, c)) == Filter(was[i + 1..end], Off(key, c)) + was[end..matches[m]]
  {
    var mm := matches[m];
    assert mm in matches;
    assert m > 0 ==> matches[m - 1] < mm;
    forall x | end <= x < mm ensures key(was[x]) != c {
      NoMatchBetween(was, i, key, c, limit, matches, m, x);
    }
    SliceThrough(was, i + 1, end, mm);
    GapAndMatch(was[i + 1..end], was[end..mm], was[mm], key, c);
  }

  lemma NoneAfter(was: seq<Stop>, i: nat, key: CorridorKey, c: Corridor, end: nat, limit: nat, matches: seq<nat>)
    requires i + 1 <= end <= limit <= |was| && |matches| > 0
    requires ListsMatches(matches, was, key, c, i + 1, limit)
    requires end == matches[|matches| - 1] + 1
    ensures Filter(was[i + 1..limit], On(key, c)) == Filter(was[i + 1..end], On(key, c))
    ensures Filter(was[i + 1..limit], Off(key, c)) == Filter(was[i + 1..end], Off(key, c)) + was[end..limit]
  {
    forall x | end <= x < limit ensures key(was[x]) != c {
      NoMatchBetween(was, i, key, c, limit, matches, |matches|, x);
    }
    assert was[i + 1..limit] == was[i + 1..end] + was[end..limit];
    FilterConcat(was[i + 1..end], was[end..limit], On(key, c));
    FilterConcat(was[i + 1..end], was[end..limit], Off(key, c));
    FilterNone(was[end..limit], On(key, c));
    FilterAll(was[end..limit], Off(key, c));
  }
}
