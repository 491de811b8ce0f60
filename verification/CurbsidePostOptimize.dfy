/** `postOptimizeCurbsideOrder`: a greedy pass that pulls a later stop forward when that shortens the
    route. Leg costs are arbitrary and need not be symmetric. */
module CurbsidePostOptimize {
  import opened Wrappers
  import opened Stops
  import opened LegCosts

  type Durations = (Stop, Stop) -> real

  function PathCost(s: seq<Stop>, cost: Durations): real {
    if |s| < 2 then 0.0 else cost(s[0], s[1]) + PathCost(s[1..], cost)
  }

  // -- One insertion move ------------------------------------------------------------------------

  /** Stop `j` is taken out and put back right after stop `i`. */
  function Move(arr: seq<Stop>, i: nat, j: nat): seq<Stop>
    requires i + 2 <= j < |arr|
  {
    arr[..i + 1] + [arr[j]] + arr[i + 1..j] + arr[j + 1..]
  }

  /** The change of path cost as the pass computes it, from the legs around both positions. */
  function Delta(arr: seq<Stop>, i: nat, j: nat, cost: Durations): real
    requires i + 2 <= j < |arr|
  {
    var A, B, P, C := arr[i], arr[i + 1], arr[j - 1], arr[j];
    if j + 1 < |arr| then
      var N := arr[j + 1];
      (cost(A, C) + cost(C, B) + cost(P, N)) - (cost(A, B) + cost(P, C) + cost(C, N))
    else
      (cost(A, C) + cost(C, B)) - (cost(A, B) + cost(P, C))
  }

  function Link(a: seq<Stop>, b: seq<Stop>, cost: Durations): real {
    if a == [] || b == [] then 0.0 else cost(a[|a| - 1], b[0])
  }

  lemma {:induction false} PathCostConcat(a: seq<Stop>, b: seq<Stop>, cost: Durations)
    ensures PathCost(a + b, cost) == PathCost(a, cost) + Link(a, b, cost) + PathCost(b, cost)
  {
    if a == [] {
      assert a + b == b;
    } else {
      assert (a + b)[1..] == a[1..] + b;
      PathCostConcat(a[1..], b, cost);
    }
  }

  lemma ShiftForward(pre: seq<Stop>, mid: seq<Stop>, c: Stop, post: seq<Stop>, cost: Durations)
    requires pre != [] && mid != []
    ensures PathCost(pre + ([c] + (mid + post)), cost) - PathCost(pre + (mid + ([c] + post)), cost)
      == Link(pre, [c], cost) + Link([c], mid, cost) + Link(mid, post, cost)
       - Link(pre, mid, cost) - Link(mid, [c], cost) - Link([c], post, cost)
  {
    PathCostConcat(pre, mid + ([c] + post), cost);
    PathCostConcat(mid, [c] + post, cost);
    PathCostConcat([c], post, cost);
    PathCostConcat(pre, [c] + (mid + post), cost);
    PathCostConcat([c], mid + post, cost);
    PathCostConcat(mid, post, cost);
  }

  /** A move changes the total path cost by exactly its computed delta. */
  lemma MoveCost(arr: seq<Stop>, i: nat, j: nat, cost: Durations)
    requires i + 2 <= j < |arr|
    ensures PathCost(Move(arr, i, j), cost) == PathCost(arr, cost) + Delta(arr, i, j, cost)
  {
    var pre, mid, post := arr[..i + 1], arr[i + 1..j], arr[j + 1..];
    MoveSegments(arr, i, j);
    DeltaIsLinks(arr, i, j, cost);
    ShiftForward(pre, mid, arr[j], post, cost);
  }

  lemma DeltaIsLinks(arr: seq<Stop>, i: nat, j: nat, cost: Durations)
    requires i + 2 <= j < |arr|
    ensures var pre, mid, c, post := arr[..i + 1], arr[i + 1..j], [arr[j]], arr[j + 1..];
      Delta(arr, i, j, cost) == Link(pre, c, cost) + Link(c, mid, cost) + Link(mid, post, cost)
                              - Link(pre, mid, cost) - Link(mid, c, cost) - Link(c, post, cost)
  {
  }

  lemma MoveSegments(arr: seq<Stop>, i: nat, j: nat)
    requires i + 2 <= j < |arr|
    ensures arr[..i + 1] + (arr[i + 1..j] + ([arr[j]] + arr[j + 1..])) == arr
    ensures arr[..i + 1] + ([arr[j]] + (arr[i + 1..j] + arr[j + 1..])) == Move(arr, i, j)
  {
    assert arr[i + 1..] == arr[i + 1..j] + ([arr[j]] + arr[j + 1..]);
  }

  lemma MovePermutes(arr: seq<Stop>, i: nat, j: nat)
    requires i + 2 <= j < |arr|
    ensures |Move(arr, i, j)| == |arr| && multiset(Move(arr, i, j)) == multiset(arr)
    ensures Move(arr, i, j)[0] == arr[0]
  {
    assert arr == arr[..i + 1] + arr[i + 1..j] + [arr[j]] + arr[j + 1..];
  }

  // -- The best move at one position -------------------------------------------------------------

  /** The move found by scanning candidates `i + 2 .. limit` for the smallest negative delta. */
  function BestMove(arr: seq<Stop>, i: nat, limit: int, cost: Durations): (r: Option<nat>)
    requires limit <= |arr|
    ensures r.Some? ==> i + 2 <= r.value < limit
    decreases limit
  {
    if limit <= i + 2 then None
    else
      var best := BestMove(arr, i, limit - 1, cost);
      if Delta(arr, i, limit - 1, cost) < DeltaOf(arr, i, best, cost) then Some(limit - 1) else best
  }

  function DeltaOf(arr: seq<Stop>, i: nat, move: Option<nat>, cost: Durations): real
    requires move.Some? ==> i + 2 <= move.value < |arr|
  {
    if move.None? then 0.0 else Delta(arr, i, move.value, cost)
  }

  /** No candidate beats the chosen move; none before it is as good; no choice means no gain. */
  lemma {:induction false} BestMoveIsFirstMinimum(arr: seq<Stop>, i: nat, limit: int, cost: Durations)
    requires limit <= |arr|
    ensures var best := BestMove(arr, i, limit, cost);
      && (forall j :: i + 2 <= j < limit ==> DeltaOf(arr, i, best, cost) <= Delta(arr, i, j, cost))
      && (best.Some? ==> Delta(arr, i, best.value, cost) < 0.0)
      && (best.Some? ==> forall j :: i + 2 <= j < best.value ==> Delta(arr, i, best.value, cost) < Delta(arr, i, j, cost))
    decreases limit
  {
    if limit > i + 2 {
      BestMoveIsFirstMinimum(arr, i, limit - 1, cost);
    }
  }

  // -- The pass ------------------------------------------------------------------------------------

  datatype Options = Options(lookahead: int, maxMoves: int, minImprovement: real)

  datatype Outcome = Outcome(order: seq<Stop>, deltas: seq<real>)

  function SearchLimit(n: nat, i: nat, o: Options): int {
    if i + 1 + o.lookahead < n then i + 1 + o.lookahead else n
  }

  /** The accepted move at position `i`, if any. */
  function Accepted(arr: seq<Stop>, i: nat, o: Options, cost: Durations): (r: Option<nat>)
    ensures r.Some? ==> i + 2 <= r.value < |arr|
  {
    var best := BestMove(arr, i, SearchLimit(|arr|, i, o), cost);
    if best.Some? && Delta(arr, i, best.value, cost) < -o.minImprovement then best else None
  }

  function OptimizeFrom(arr: seq<Stop>, i: nat, moves: nat, o: Options, cost: Durations): Outcome
    decreases |arr| - i
  {
    if i + 1 >= |arr| || moves >= o.maxMoves then Outcome(arr, [])
    else
      var move := Accepted(arr, i, o, cost);
      if move.None? then OptimizeFrom(arr, i + 1, moves, o, cost)
      else
        var next := Move(arr, i, move.value);
        var rest := OptimizeFrom(next, i + 1, moves + 1, o, cost);
        Outcome(rest.order, [Delta(arr, i, move.value, cost)] + rest.deltas)
  }

  const MAX_STOPS := 150

  function Optimize(stops: seq<Stop>, o: Options, cost: Durations): Outcome {
    if |stops| > MAX_STOPS then Outcome(stops, []) else OptimizeFrom(stops, 0, 0, o, cost)
  }

  function Sum(xs: seq<real>): real {
    if xs == [] then 0.0 else xs[0] + Sum(xs[1..])
  }

  ghost predicate Improving(deltas: seq<real>, minImprovement: real) {
    forall k :: 0 <= k < |deltas| ==> deltas[k] < 0.0 && deltas[k] < -minImprovement
  }

  lemma {:induction false} OptimizeFromPermutes(arr: seq<Stop>, i: nat, moves: nat, o: Options, cost: Durations)
    ensures var r := OptimizeFrom(arr, i, moves, o, cost);
      && |r.order| == |arr| && multiset(r.order) == multiset(arr)
      && (arr != [] ==> r.order[0] == arr[0])
    decreases |arr| - i
  {
    if i + 1 < |arr| && moves < o.maxMoves {
      var move := Accepted(arr, i, o, cost);
      if move.None? {
        OptimizeFromPermutes(arr, i + 1, moves, o, cost);
      } else {
        MovePermutes(arr, i, move.value);
        OptimizeFromPermutes(Move(arr, i, move.value), i + 1, moves + 1, o, cost);
      }
    }
  }

  lemma {:induction false} MovesAreLimited(arr: seq<Stop>, i: nat, moves: nat, o: Options, cost: Durations)
    ensures moves + |OptimizeFrom(arr, i, moves, o, cost).deltas| <= (if moves <= o.maxMoves then o.maxMoves else moves)
    decreases |arr| - i
  {
    if i + 1 < |arr| && moves < o.maxMoves {
      var move := Accepted(arr, i, o, cost);
      if move.None? {
        MovesAreLimited(arr, i + 1, moves, o, cost);
      } else {
        MovePermutes(arr, i, move.value);
        MovesAreLimited(Move(arr, i, move.value), i + 1, moves + 1, o, cost);
      }
    }
  }

  lemma {:induction false} OptimizeFromDescends(arr: seq<Stop>, i: nat, moves: nat, o: Options, cost: Durations)
    ensures var r := OptimizeFrom(arr, i, moves, o, cost);
      && Improving(r.deltas, o.minImprovement)
      && PathCost(r.order, cost) == PathCost(arr, cost) + Sum(r.deltas)
    decreases |arr| - i
  {
    if i + 1 < |arr| && moves < o.maxMoves {
      var move := Accepted(arr, i, o, cost);
      if move.None? {
        OptimizeFromDescends(arr, i + 1, moves, o, cost);
      } else {
        var d, next := Delta(arr, i, move.value, cost), Move(arr, i, move.value);
        BestMoveIsFirstMinimum(arr, i, SearchLimit(|arr|, i, o), cost);
        MoveCost(arr, i, move.value, cost);
        OptimizeFromDescends(next, i + 1, moves + 1, o, cost);
        SumOfCons(d, OptimizeFrom(next, i + 1, moves + 1, o, cost).deltas);
      }
    }
  }

  lemma SumOfCons(d: real, ds: seq<real>)
    ensures Sum([d] + ds) == d + Sum(ds)
  {
    assert ([d] + ds)[1..] == ds;
  }

  function Times(n: nat, m: real): real {
    n as real * m
  }

  lemma TimesSuccessor(n: nat, m: real)
    ensures Times(n + 1, m) == m + Times(n, m)
  {
  }

  lemma {:induction false} SumOfImproving(deltas: seq<real>, m: real)
    requires Improving(deltas, m)
    ensures Sum(deltas) <= -Times(|deltas|, m)
    ensures deltas == [] || Sum(deltas) < 0.0
  {
    if deltas != [] {
      SumOfImproving(deltas[1..], m);
      TimesSuccessor(|deltas| - 1, m);
    }
  }

  /** The pass permutes the stops with the first one fixed, makes at most `maxMoves` moves, and every
      move lowers the total path cost by exactly its delta, which beats the required improvement. */
  lemma OptimizeDescends(stops: seq<Stop>, o: Options, cost: Durations)
    ensures var r := Optimize(stops, o, cost);
      && multiset(r.order) == multiset(stops)
      && |r.order| == |stops| && (stops != [] ==> r.order[0] == stops[0])
      && |r.deltas| <= (if o.maxMoves > 0 then o.maxMoves else 0)
      && Improving(r.deltas, o.minImprovement)
      && PathCost(r.order, cost) == PathCost(stops, cost) + Sum(r.deltas)
      && PathCost(r.order, cost) <= PathCost(stops, cost) - Times(|r.deltas|, o.minImprovement)
      && (r.deltas != [] ==> PathCost(r.order, cost) < PathCost(stops, cost))
  {
    var r := Optimize(stops, o, cost);
    if |stops| <= MAX_STOPS {
      OptimizeFromPermutes(stops, 0, 0, o, cost);
      MovesAreLimited(stops, 0, 0, o, cost);
      OptimizeFromDescends(stops, 0, 0, o, cost);
      SumOfImproving(r.deltas, o.minImprovement);
    }
  }

  // -- Equal costs give equal orders ---------------------------------------------------------------

  ghost predicate AgreeOn(stops: multiset<Stop>, cost: Durations, other: Durations) {
    forall a, b :: a in stops && b in stops ==> cost(a, b) == other(a, b)
  }

  lemma {:induction false} BestMoveCongruence(arr: seq<Stop>, i: nat, limit: int, cost: Durations, other: Durations)
    requires limit <= |arr| && AgreeOn(multiset(arr), cost, other)
    ensures BestMove(arr, i, limit, cost) == BestMove(arr, i, limit, other)
    ensures forall j :: i + 2 <= j < limit ==> Delta(arr, i, j, cost) == Delta(arr, i, j, other)
    decreases limit
  {
    assert forall k :: 0 <= k < |arr| ==> arr[k] in multiset(arr);
    if limit > i + 2 {
      BestMoveCongruence(arr, i, limit - 1, cost, other);
    }
  }

  lemma {:induction false} OptimizeFromCongruence(arr: seq<Stop>, i: nat, moves: nat, o: Options, cost: Durations, other: Durations)
    requires AgreeOn(multiset(arr), cost, other)
    ensures OptimizeFrom(arr, i, moves, o, cost) == OptimizeFrom(arr, i, moves, o, other)
    decreases |arr| - i
  {
    if i + 1 < |arr| && moves < o.maxMoves {
      BestMoveCongruence(arr, i, SearchLimit(|arr|, i, o), cost, other);
      var move := Accepted(arr, i, o, cost);
      if move.None? {
        OptimizeFromCongruence(arr, i + 1, moves, o, cost, other);
      } else {
        MovePermutes(arr, i, move.value);
        OptimizeFromCongruence(Move(arr, i, move.value), i + 1, moves + 1, o, cost, other);
      }
    }
  }

  // -- The loops, with memoised costs --------------------------------------------------------------

  /** The leg durations that a memo table stands for. */
  function View(memo: Memo, route: Router, key: KeyMaker): Durations {
    (a, b) => Answer(memo, route, key, a, b).duration
  }

  /** Looks up one leg between two of the given stops. */
  method Ask(a: Stop, b: Stop, costs: LegCostCache, ghost stops: set<Stop>) returns (duration: real)
    requires a in stops && b in stops
    modifies costs
    ensures Grew(old(costs.memo), costs.memo, stops, costs.route, costs.key)
    ensures forall ext :: Extends(costs.memo, ext) ==> View(ext, costs.route, costs.key)(a, b) == duration
  {
    RememberGrows(costs.memo, a, b, stops, costs.route, costs.key);
    var leg := costs.GetCost(a, b);
    duration := leg.duration;
  }

  /** The legs `a -> b` and `c -> d`, and a third one if there is a stop after the candidate. */
  function Legs(a: Stop, b: Stop, c: Stop, d: Stop, third: Option<(Stop, Stop)>, cost: Durations): real {
    cost(a, b) + cost(c, d) + if third.Some? then cost(third.value.0, third.value.1) else 0.0
  }

  method AskLegs(a: Stop, b: Stop, c: Stop, d: Stop, third: Option<(Stop, Stop)>, costs: LegCostCache,
                 ghost stops: set<Stop>)
    returns (total: real)
    requires {a, b, c, d} <= stops && (third.Some? ==> {third.value.0, third.value.1} <= stops)
    modifies costs
    ensures Grew(old(costs.memo), costs.memo, stops, costs.route, costs.key)
    ensures forall ext :: Extends(costs.memo, ext) ==>
      Legs(a, b, c, d, third, View(ext, costs.route, costs.key)) == total
  {
    var first := Ask(a, b, costs, stops);
    var second := Ask(c, d, costs, stops);
    total := first + second;
    if third.Some? {
      var last := Ask(third.value.0, third.value.1, costs, stops);
      total := total + last;
    }
  }

  lemma DeltaOfLegs(arr: seq<Stop>, i: nat, j: nat, cost: Durations)
    requires i + 2 <= j < |arr|
    ensures var A, B, P, C := arr[i], arr[i + 1], arr[j - 1], arr[j];
      var N := if j + 1 < |arr| then Some(arr[j + 1]) else None;
      Delta(arr, i, j, cost)
      == Legs(A, C, C, B, if N.Some? then Some((P, N.value)) else None, cost)
       - Legs(A, B, P, C, if N.Some? then Some((C, N.value)) else None, cost)
  {
  }

  method ComputeDelta(arr: seq<Stop>, i: nat, j: nat, costs: LegCostCache, ghost stops: set<Stop>) returns (delta: real)
    requires i + 2 <= j < |arr| && forall k :: 0 <= k < |arr| ==> arr[k] in stops
    modifies costs
    ensures Grew(old(costs.memo), costs.memo, stops, costs.route, costs.key)
    ensures forall ext :: Extends(costs.memo, ext) ==> Delta(arr, i, j, View(ext, costs.route, costs.key)) == delta
  {
    var A, B, P, C := arr[i], arr[i + 1], arr[j - 1], arr[j];
    var N := if j + 1 < |arr| then Some(arr[j + 1]) else None;
    var currentTotal := AskLegs(A, B, P, C, if N.Some? then Some((C, N.value)) else None, costs, stops);
    var proposedTotal := AskLegs(A, C, C, B, if N.Some? then Some((P, N.value)) else None, costs, stops);
    delta := proposedTotal - currentTotal;
    forall ext | Extends(costs.memo, ext)
      ensures Delta(arr, i, j, View(ext, costs.route, costs.key)) == delta
    {
      DeltaOfLegs(arr, i, j, View(ext, costs.route, costs.key));
    }
  }

  /** Whatever the table learns later, the scan up to `limit` has found `best`. */
  ghost predicate Scanned(arr: seq<Stop>, i: nat, limit: int, best: Option<nat>, bestDelta: real,
                          memo: Memo, route: Router, key: KeyMaker)
    requires limit <= |arr|
  {
    forall ext :: Extends(memo, ext) ==>
      && BestMove(arr, i, limit, View(ext, route, key)) == best
      && DeltaOf(arr, i, BestMove(arr, i, limit, View(ext, route, key)), View(ext, route, key)) == bestDelta
  }

  lemma ScanNext(arr: seq<Stop>, i: nat, j: int, best: Option<nat>, bestDelta: real, seen: Memo,
                 delta: real, memo: Memo, route: Router, key: KeyMaker)
    requires i + 2 <= j < |arr|
    requires Scanned(arr, i, j, best, bestDelta, seen, route, key) && Extends(seen, memo)
    requires forall ext :: Extends(memo, ext) ==> Delta(arr, i, j, View(ext, route, key)) == delta
    ensures delta < bestDelta ==> Scanned(arr, i, j + 1, Some(j), delta, memo, route, key)
    ensures delta >= bestDelta ==> Scanned(arr, i, j + 1, best, bestDelta, memo, route, key)
  {
    forall ext | Extends(memo, ext)
      ensures Extends(seen, ext)
      ensures Delta(arr, i, j, View(ext, route, key)) == delta
    {
    }
  }

  lemma ScanNothing(arr: seq<Stop>, i: nat, limit: int, memo: Memo, route: Router, key: KeyMaker)
    requires limit <= |arr| && limit <= i + 2
    ensures Scanned(arr, i, limit, None, 0.0, memo, route, key)
  {
  }

  method FindBestMove(arr: seq<Stop>, i: nat, limit: int, costs: LegCostCache, ghost stops: set<Stop>)
    returns (best: Option<nat>, bestDelta: real)
    requires limit <= |arr| && forall k :: 0 <= k < |arr| ==> arr[k] in stops
    modifies costs
    ensures Grew(old(costs.memo), costs.memo, stops, costs.route, costs.key)
    ensures best.Some? ==> i + 2 <= best.value < limit
    ensures Scanned(arr, i, limit, best, bestDelta, costs.memo, costs.route, costs.key)
  {
    best, bestDelta := None, 0.0;
    var j := i + 2;
    ghost var n := if limit < j then limit else j;
    ScanNothing(arr, i, n, costs.memo, costs.route, costs.key);
    while j < limit
      invariant i + 2 <= j && n == if limit < j then limit else j
      invariant best.Some? ==> i + 2 <= best.value < j && j <= limit
      invariant Grew(old(costs.memo), costs.memo, stops, costs.route, costs.key)
      invariant Scanned(arr, i, n, best, bestDelta, costs.memo, costs.route, costs.key)
    {
      ghost var seen := costs.memo;
      var delta := ComputeDelta(arr, i, j, costs, stops);
      GrewTransitive(old(costs.memo), seen, costs.memo, stops, costs.route, costs.key);
      ScanNext(arr, i, j, best, bestDelta, seen, delta, costs.memo, costs.route, costs.key);
      if delta < bestDelta {
        bestDelta := delta;
        best := Some(j);
      }
      j := j + 1;
      n := j;
    }
  }

  /** Whatever the table learns later, the pass continues from `arr` at position `i`. */
  ghost predicate Continues(stops: seq<Stop>, arr: seq<Stop>, i: nat, moves: nat, o: Options,
                            memo: Memo, route: Router, key: KeyMaker)
  {
    forall ext :: Extends(memo, ext) ==>
      OptimizeFrom(stops, 0, 0, o, View(ext, route, key)).order
      == OptimizeFrom(arr, i, moves, o, View(ext, route, key)).order
  }

  lemma ContinueNext(stops: seq<Stop>, arr: seq<Stop>, i: nat, moves: nat, o: Options, seen: Memo,
                     best: Option<nat>, bestDelta: real, memo: Memo, route: Router, key: KeyMaker)
    requires i + 1 < |arr| && moves < o.maxMoves
    requires Continues(stops, arr, i, moves, o, seen, route, key) && Extends(seen, memo)
    requires best.Some? ==> i + 2 <= best.value < SearchLimit(|arr|, i, o)
    requires Scanned(arr, i, SearchLimit(|arr|, i, o), best, bestDelta, memo, route, key)
    ensures if best.Some? && bestDelta < -o.minImprovement
      then Continues(stops, Move(arr, i, best.value), i + 1, moves + 1, o, memo, route, key)
      else Continues(stops, arr, i + 1, moves, o, memo, route, key)
  {
    forall ext | Extends(memo, ext)
      ensures Extends(seen, ext)
      ensures Accepted(arr, i, o, View(ext, route, key))
        == if best.Some? && bestDelta < -o.minImprovement then best else None
    {
      assert BestMove(arr, i, SearchLimit(|arr|, i, o), View(ext, route, key)) == best;
    }
  }

  /** The two splices of a move: out at `j`, in after `i`. */
  method InsertAfter(arr: seq<Stop>, i: nat, j: nat) returns (r: seq<Stop>)
    requires i + 2 <= j < |arr|
    ensures r == Move(arr, i, j) && multiset(r) == multiset(arr)
  {
    MovePermutes(arr, i, j);
    var candidate := arr[j];
    r := arr[..j] + arr[j + 1..];
    r := r[..i + 1] + [candidate] + r[i + 1..];
  }

  function Members(stops: seq<Stop>): set<Stop> {
    set s | s in stops
  }

  lemma SameMembers(arr: seq<Stop>, stops: seq<Stop>)
    requires multiset(arr) == multiset(stops)
    ensures forall k :: 0 <= k < |arr| ==> arr[k] in Members(stops)
  {
    forall k | 0 <= k < |arr| ensures arr[k] in Members(stops) {
      assert arr[k] in multiset(arr);
    }
  }

  /** One position of the pass: search from `i`, and move the best candidate if it is worth it. */
  method TryMove(stops: seq<Stop>, arr: seq<Stop>, i: nat, moves: nat, o: Options, costs: LegCostCache)
    returns (next: seq<Stop>, count: nat)
    requires multiset(arr) == multiset(stops) && i + 1 < |arr| && moves < o.maxMoves
    requires Continues(stops, arr, i, moves, o, costs.memo, costs.route, costs.key)
    modifies costs
    ensures Grew(old(costs.memo), costs.memo, Members(stops), costs.route, costs.key)
    ensures multiset(next) == multiset(stops) && |next| == |arr|
    ensures Continues(stops, next, i + 1, count, o, costs.memo, costs.route, costs.key)
  {
    SameMembers(arr, stops);
    next, count := arr, moves;
    var best, bestDelta := FindBestMove(arr, i, SearchLimit(|arr|, i, o), costs, Members(stops));
    ContinueNext(stops, arr, i, moves, o, old(costs.memo), best, bestDelta, costs.memo, costs.route, costs.key);
    if best.Some? && bestDelta < -o.minImprovement {
      next := InsertAfter(arr, i, best.value);
      count := moves + 1;
    }
  }

  /** Whatever the cache keys, the pass computes `Optimize` under the costs that its own table has given
      out, and would do so with whatever the table learns later; the table only learns true costs of legs
      between the stops. */
  method PostOptimizeCurbsideOrder(stops: seq<Stop>, costs: LegCostCache, o: Options) returns (arr: seq<Stop>)
    modifies costs
    ensures Grew(old(costs.memo), costs.memo, Members(stops), costs.route, costs.key)
    ensures forall ext :: Extends(costs.memo, ext) ==> arr == Optimize(stops, o, View(ext, costs.route, costs.key)).order
  {
    if |stops| > MAX_STOPS {
      return stops;
    }
    arr := stops;
    var moves := 0;
    var i := 0;
    while i < |arr| - 1
      invariant 0 <= i && 0 <= moves && multiset(arr) == multiset(stops)
      invariant Grew(old(costs.memo), costs.memo, Members(stops), costs.route, costs.key)
      invariant Continues(stops, arr, i, moves, o, costs.memo, costs.route, costs.key)
      decreases |arr| - i
    {
      if moves >= o.maxMoves {
        break;
      }
      ghost var seen := costs.memo;
      arr, moves := TryMove(stops, arr, i, moves, o, costs);
      GrewTransitive(old(costs.memo), seen, costs.memo, Members(stops), costs.route, costs.key);
      i := i + 1;
    }
  }

  function TrueDurations(route: Router): Durations {
    (a, b) => route(a, b).duration
  }

  /** When the cache keys determine the costs, the memoised pass takes every decision as the pass
      under the router's own costs does. */
  lemma MemoisedOrderIsTrue(stops: seq<Stop>, o: Options, memo: Memo, route: Router, key: KeyMaker)
    requires KeysDetermineCosts(Members(stops), route, key) && Truthful(memo, Members(stops), route, key)
    ensures Optimize(stops, o, View(memo, route, key)) == Optimize(stops, o, TrueDurations(route))
  {
    var cost := TrueDurations(route);
    forall a, b | a in multiset(stops) && b in multiset(stops) ensures View(memo, route, key)(a, b) == cost(a, b) {
      AnswerIsTrue(memo, route, key, a, b, Members(stops));
    }
    if |stops| <= MAX_STOPS {
      OptimizeFromCongruence(stops, 0, 0, o, View(memo, route, key), cost);
    }
  }

  /** For the key that the cache builds: when the stops have different ids without the separator, the memoised
      pass is the pass under the router's own costs. */
  lemma PlainIdsGiveTrueOrder(stops: seq<Stop>, o: Options, memo: Memo, route: Router, coords: Printer)
    requires DistinctKeys(Members(stops), coords) && forall s :: s in stops ==> NoArrow(KeyOf(s, coords))
    requires Truthful(memo, Members(stops), route, LegKey(coords))
    ensures Optimize(stops, o, View(memo, route, LegKey(coords))) == Optimize(stops, o, TrueDurations(route))
  {
    PlainKeysDetermineCosts(Members(stops), route, coords);
    MemoisedOrderIsTrue(stops, o, memo, route, LegKey(coords));
  }
}
