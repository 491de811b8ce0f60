/** The curbside pass, position by position: which stop is moved, when none is, and when the pass leaves the
    route as it came. */
module CurbsideRules {
  import opened Wrappers
  import opened Stops
  import opened CurbsidePostOptimize

  // -- One position ----------------------------------------------------------------------------------

  /** Putting stop `j` right behind stop `i` is in reach, shortens the path, and by more than required. */
  ghost predicate Worthwhile(arr: seq<Stop>, i: int, j: int, o: Options, cost: Durations) {
    && 0 <= i && i + 2 <= j < |arr| && j < i + 1 + o.lookahead
    && Delta(arr, i, j, cost) < 0.0 && Delta(arr, i, j, cost) < -o.minImprovement
  }

  /** Stop `j` is worth moving, no stop in reach is better, and none before it as good. */
  ghost predicate FirstBest(arr: seq<Stop>, i: int, j: int, o: Options, cost: Durations) {
    && Worthwhile(arr, i, j, o, cost)
    && (forall k :: i + 2 <= k < |arr| && k < i + 1 + o.lookahead ==> Delta(arr, i, j, cost) <= Delta(arr, i, k, cost))
    && (forall k :: i + 2 <= k < j ==> Delta(arr, i, j, cost) < Delta(arr, i, k, cost))
  }

  /** Stop `j` stands behind stop `i`, and what was between them behind it. */
  ghost predicate PulledForward(arr: seq<Stop>, next: seq<Stop>, i: int, j: int)
    requires 0 <= i && i + 2 <= j < |arr|
  {
    next == arr[..i + 1] + [arr[j]] + arr[i + 1..j] + arr[j + 1..]
  }

  /** At position `i` the first best stop is moved behind stop `i`, if one is worth it and there are moves left. */
  ghost predicate Turn(arr: seq<Stop>, moves: nat, next: seq<Stop>, count: nat, i: int, o: Options, cost: Durations) {
    if moves < o.maxMoves && exists j :: Worthwhile(arr, i, j, o, cost)
    then count == moves + 1 && exists j :: FirstBest(arr, i, j, o, cost) && PulledForward(arr, next, i, j)
    else count == moves && next == arr
  }

  lemma AcceptedIsFirstBest(arr: seq<Stop>, i: nat, o: Options, cost: Durations)
    ensures var move := Accepted(arr, i, o, cost);
      && (move.Some? ==> FirstBest(arr, i, move.value, o, cost))
      && (move.None? ==> forall j :: !Worthwhile(arr, i, j, o, cost))
  {
    BestMoveIsFirstMinimum(arr, i, SearchLimit(|arr|, i, o), cost);
  }

  /** The work of one position. */
  lemma TurnOf(arr: seq<Stop>, i: nat, moves: nat, o: Options, cost: Durations) returns (next: seq<Stop>, count: nat)
    requires i + 1 < |arr|
    ensures Turn(arr, moves, next, count, i, o, cost) && |next| == |arr|
    ensures OptimizeFrom(arr, i, moves, o, cost).order == OptimizeFrom(next, i + 1, count, o, cost).order
    ensures moves + |OptimizeFrom(arr, i, moves, o, cost).deltas| == count + |OptimizeFrom(next, i + 1, count, o, cost).deltas|
  {
    var move := Accepted(arr, i, o, cost);
    AcceptedIsFirstBest(arr, i, o, cost);
    if moves < o.maxMoves && move.Some? {
      next, count := Move(arr, i, move.value), moves + 1;
    } else {
      next, count := arr, moves;
    }
  }

  // -- The whole pass --------------------------------------------------------------------------------

  ghost predicate Turns(arrs: seq<seq<Stop>>, moves: seq<nat>, i: nat, o: Options, cost: Durations) {
    |moves| == |arrs| && forall k :: 0 <= k < |arrs| - 1 ==> Turn(arrs[k], moves[k], arrs[k + 1], moves[k + 1], i + k, o, cost)
  }

  lemma TurnsOfCons(arr: seq<Stop>, count: nat, arrs: seq<seq<Stop>>, moves: seq<nat>, i: nat, o: Options, cost: Durations)
    requires Turns(arrs, moves, i + 1, o, cost) && arrs != []
    requires Turn(arr, count, arrs[0], moves[0], i, o, cost)
    ensures Turns([arr] + arrs, [count] + moves, i, o, cost)
  {
    forall k | 0 <= k < |arrs|
      ensures Turn(([arr] + arrs)[k], ([count] + moves)[k], arrs[k], moves[k], i + k, o, cost)
    {
      if k > 0 {
        assert Turn(arrs[k - 1], moves[k - 1], arrs[k], moves[k], i + 1 + (k - 1), o, cost);
      }
    }
  }

  lemma {:induction false} TurnsFrom(arr: seq<Stop>, i: nat, count: nat, o: Options, cost: Durations)
    returns (arrs: seq<seq<Stop>>, moves: seq<nat>)
    requires i < |arr|
    ensures |arrs| == |arr| - i && arrs[0] == arr && |moves| == |arrs| && moves[0] == count
    ensures Turns(arrs, moves, i, o, cost)
    ensures var r := OptimizeFrom(arr, i, count, o, cost);
      arrs[|arrs| - 1] == r.order && moves[|arrs| - 1] == count + |r.deltas|
    decreases |arr| - i
  {
    if i + 1 == |arr| {
      arrs, moves := [arr], [count];
    } else {
      var next, n := TurnOf(arr, i, count, o, cost);
      arrs, moves := TurnsFrom(next, i + 1, n, o, cost);
      TurnsOfCons(arr, count, arrs, moves, i, o, cost);
      arrs, moves := [arr] + arrs, [count] + moves;
    }
  }

  /** A route of at most 150 stops goes through one turn per stop but the last. */
  lemma PassIsTurns(stops: seq<Stop>, o: Options, cost: Durations) returns (arrs: seq<seq<Stop>>, moves: seq<nat>)
    requires 0 < |stops| <= 150
    ensures |arrs| == |moves| == |stops| && arrs[0] == stops && moves[0] == 0
    ensures forall i :: 0 <= i < |stops| - 1 ==> Turn(arrs[i], moves[i], arrs[i + 1], moves[i + 1], i, o, cost)
    ensures Optimize(stops, o, cost).order == arrs[|stops| - 1]
    ensures |Optimize(stops, o, cost).deltas| == moves[|stops| - 1]
  {
    arrs, moves := TurnsFrom(stops, 0, 0, o, cost);
    forall i | 0 <= i < |stops| - 1 ensures Turn(arrs[i], moves[i], arrs[i + 1], moves[i + 1], i, o, cost) {
      assert 0 + i == i;
    }
  }

  // -- When nothing is moved -------------------------------------------------------------------------

  lemma {:induction false} NoMoveFromIff(arr: seq<Stop>, i: nat, moves: nat, o: Options, cost: Durations)
    requires moves < o.maxMoves
    ensures OptimizeFrom(arr, i, moves, o, cost).deltas == [] <==> forall k, j :: i <= k ==> !Worthwhile(arr, k, j, o, cost)
    ensures OptimizeFrom(arr, i, moves, o, cost).deltas == [] ==> OptimizeFrom(arr, i, moves, o, cost).order == arr
    decreases |arr| - i
  {
    if i + 1 < |arr| {
      AcceptedIsFirstBest(arr, i, o, cost);
      NoMoveFromIff(arr, i + 1, moves, o, cost);
    }
  }

  /** The pass moves nothing exactly when the route has more than 150 stops, no move is allowed, or no stop in
      reach of an earlier one shortens the path by more than required. */
  lemma NothingMovesIff(stops: seq<Stop>, o: Options, cost: Durations)
    ensures Optimize(stops, o, cost).deltas == [] <==>
      || |stops| > 150
      || o.maxMoves <= 0
      || forall i, j :: 0 <= i && i + 2 <= j < |stops| && j < i + 1 + o.lookahead ==>
           Delta(stops, i, j, cost) >= 0.0 || Delta(stops, i, j, cost) >= -o.minImprovement
    ensures Optimize(stops, o, cost).deltas == [] ==> Optimize(stops, o, cost).order == stops
  {
    if |stops| <= 150 && o.maxMoves > 0 {
      NoMoveFromIff(stops, 0, 0, o, cost);
      forall i, j | 0 <= i && i + 2 <= j < |stops| && j < i + 1 + o.lookahead
        ensures Worthwhile(stops, i, j, o, cost) <==> !(Delta(stops, i, j, cost) >= 0.0 || Delta(stops, i, j, cost) >= -o.minImprovement)
      {
      }
    }
  }

  /** With a required improvement that is not negative, only that counts. */
  lemma NothingMovesForGain(stops: seq<Stop>, o: Options, cost: Durations)
    requires |stops| <= 150 && o.maxMoves > 0 && o.minImprovement >= 0.0
    ensures Optimize(stops, o, cost).deltas == [] <==>
      forall i, j :: 0 <= i && i + 2 <= j < |stops| && j < i + 1 + o.lookahead ==> Delta(stops, i, j, cost) >= -o.minImprovement
  {
    NothingMovesIff(stops, o, cost);
  }
}
