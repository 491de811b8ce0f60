/** `makeLegCostCache`: a memo table in front of the routing engine's leg costs. */
module LegCosts {
  import opened Wrappers
  import opened Stops

  datatype LegCost = LegCost(distance: real, duration: real)

  /** The routing engine: any two stops have a leg cost, in either direction. */
  type Router = (Stop, Stop) -> LegCost

  /** How a stop without an id is written as a pair of coordinates. */
  type Printer = Stop -> string

  function KeyOf(s: Stop, coords: Printer): string {
    s.id.GetOr(coords(s))
  }

  function LegKey(coords: Printer): KeyMaker {
    (a, b) => KeyOf(a, coords) + "->" + KeyOf(b, coords)
  }

  /** The cache key of a leg. */
  type KeyMaker = (Stop, Stop) -> string

  type Memo = map<string, LegCost>

  /** The cost the table answers for a leg: the remembered one, or the router's when asked first. */
  function Answer(memo: Memo, route: Router, key: KeyMaker, a: Stop, b: Stop): LegCost {
    var k := key(a, b);
    if k in memo then memo[k] else route(a, b)
  }

  function Remember(memo: Memo, route: Router, key: KeyMaker, a: Stop, b: Stop): Memo {
    memo[key(a, b) := Answer(memo, route, key, a, b)]
  }

  ghost predicate Extends(memo: Memo, ext: Memo) {
    forall k :: k in memo ==> k in ext && ext[k] == memo[k]
  }

  /** The table gained only true costs of legs between the given stops, and forgot nothing. */
  ghost predicate Grew(memo: Memo, after: Memo, stops: set<Stop>, route: Router, key: KeyMaker) {
    && Extends(memo, after)
    && forall k :: k in after && k !in memo ==>
      exists a, b :: a in stops && b in stops && key(a, b) == k && route(a, b) == after[k]
  }

  lemma GrewTransitive(m0: Memo, m1: Memo, m2: Memo, stops: set<Stop>, route: Router, key: KeyMaker)
    requires Grew(m0, m1, stops, route, key) && Grew(m1, m2, stops, route, key)
    ensures Grew(m0, m2, stops, route, key)
  {
  }

  lemma RememberGrows(memo: Memo, a: Stop, b: Stop, stops: set<Stop>, route: Router, key: KeyMaker)
    requires a in stops && b in stops
    ensures Grew(memo, Remember(memo, route, key, a, b), stops, route, key)
  {
  }

  lemma GrewKeepsTruth(memo: Memo, after: Memo, stops: set<Stop>, route: Router, key: KeyMaker)
    requires Truthful(memo, stops, route, key) && Grew(memo, after, stops, route, key)
    ensures Truthful(after, stops, route, key)
  {
  }

  /** Legs with the same cache key have the same cost, for the given stops. */
  ghost predicate KeysDetermineCosts(stops: set<Stop>, route: Router, key: KeyMaker) {
    forall a, b, c, d | a in stops && b in stops && c in stops && d in stops ::
      key(a, b) == key(c, d) ==> route(a, b) == route(c, d)
  }

  /** Everything remembered so far is the true cost of some leg between the given stops. */
  ghost predicate Truthful(memo: Memo, stops: set<Stop>, route: Router, key: KeyMaker) {
    forall k :: k in memo ==>
      exists a, b :: a in stops && b in stops && key(a, b) == k && route(a, b) == memo[k]
  }

  type Query = (Stop, Stop)

  function AnswerAll(memo: Memo, route: Router, key: KeyMaker, queries: seq<Query>): seq<LegCost>
    decreases |queries|
  {
    if queries == [] then []
    else
      var (a, b) := queries[0];
      [Answer(memo, route, key, a, b)]
      + AnswerAll(Remember(memo, route, key, a, b), route, key, queries[1..])
  }

  function TrueCosts(route: Router, queries: seq<Query>): seq<LegCost> {
    if queries == [] then [] else [route(queries[0].0, queries[0].1)] + TrueCosts(route, queries[1..])
  }

  ghost predicate Among(queries: seq<Query>, stops: set<Stop>) {
    forall q :: q in queries ==> q.0 in stops && q.1 in stops
  }

  lemma {:induction false} TruthfulAnswers(memo: Memo, route: Router, key: KeyMaker, queries: seq<Query>, stops: set<Stop>)
    requires KeysDetermineCosts(stops, route, key) && Truthful(memo, stops, route, key) && Among(queries, stops)
    ensures AnswerAll(memo, route, key, queries) == TrueCosts(route, queries)
    decreases |queries|
  {
    if queries != [] {
      var (a, b) := queries[0];
      assert queries[0] in queries;
      AnswerIsTrue(memo, route, key, a, b, stops);
      TruthfulAnswers(Remember(memo, route, key, a, b), route, key, queries[1..], stops);
    }
  }

  lemma AnswerIsTrue(memo: Memo, route: Router, key: KeyMaker, a: Stop, b: Stop, stops: set<Stop>)
    requires KeysDetermineCosts(stops, route, key) && Truthful(memo, stops, route, key)
    requires a in stops && b in stops
    ensures Answer(memo, route, key, a, b) == route(a, b)
    ensures Truthful(Remember(memo, route, key, a, b), stops, route, key)
  {
  }

  /** Memoising is invisible exactly when the cache keys determine the costs: every sequence of
      questions about the given stops, put to an empty table, is answered truthfully. */
  lemma MemoIsInvisibleIff(stops: set<Stop>, route: Router, key: KeyMaker)
    ensures (forall queries :: Among(queries, stops) ==>
              AnswerAll(map[], route, key, queries) == TrueCosts(route, queries))
      <==> KeysDetermineCosts(stops, route, key)
  {
    if KeysDetermineCosts(stops, route, key) {
      forall queries | Among(queries, stops)
        ensures AnswerAll(map[], route, key, queries) == TrueCosts(route, queries)
      {
        TruthfulAnswers(map[], route, key, queries, stops);
      }
    } else {
      var a, b, c, d :| a in stops && b in stops && c in stops && d in stops
        && key(a, b) == key(c, d) && route(a, b) != route(c, d);
      assert Among([(a, b), (c, d)], stops);
      CollidingLegs(a, b, c, d, route, key);
    }
  }

  lemma CollidingLegs(a: Stop, b: Stop, c: Stop, d: Stop, route: Router, key: KeyMaker)
    requires key(a, b) == key(c, d) && route(a, b) != route(c, d)
    ensures AnswerAll(map[], route, key, [(a, b), (c, d)]) != TrueCosts(route, [(a, b), (c, d)])
  {
    var queries: seq<Query> := [(a, b), (c, d)];
    var memo := Remember(map[], route, key, a, b);
    assert queries[1..] == [(c, d)];
    assert AnswerAll(map[], route, key, queries) == [route(a, b)] + AnswerAll(memo, route, key, [(c, d)]);
    assert TrueCosts(route, queries) == [route(a, b)] + TrueCosts(route, [(c, d)]);
    assert AnswerAll(map[], route, key, queries)[1] == AnswerAll(memo, route, key, [(c, d)])[0] == route(a, b);
    assert TrueCosts(route, queries)[1] == TrueCosts(route, [(c, d)])[0] == route(c, d);
  }

  // -- Which keys are safe ---------------------------------------------------------------------------

  /** Different legs between the given stops have different cache keys. */
  ghost predicate InjectiveOn(key: KeyMaker, stops: set<Stop>) {
    forall a, b, c, d | a in stops && b in stops && c in stops && d in stops ::
      key(a, b) == key(c, d) ==> a == c && b == d
  }

  /** A router that tells one leg from all others. */
  function Telling(from: Stop, to: Stop): Router {
    (a, b) => if a == from && b == to then LegCost(1.0, 1.0) else LegCost(0.0, 0.0)
  }

  /** Keys determine the costs under every router exactly when they are injective on pairs of the stops. */
  lemma KeysDetermineAllCostsIff(stops: set<Stop>, key: KeyMaker)
    ensures (forall route: Router :: KeysDetermineCosts(stops, route, key)) <==> InjectiveOn(key, stops)
  {
    if !InjectiveOn(key, stops) {
      var a, b, c, d :| a in stops && b in stops && c in stops && d in stops
        && key(a, b) == key(c, d) && !(a == c && b == d);
      assert Telling(a, b)(a, b) != Telling(a, b)(c, d);
      assert !KeysDetermineCosts(stops, Telling(a, b), key);
    }
  }

  /** The cache answers every sequence of questions about the given stops truthfully, whatever the routing
      engine says, exactly when different legs have different keys. */
  lemma CacheIsSafeIff(stops: set<Stop>, key: KeyMaker)
    ensures (forall route: Router, queries ::
              Among(queries, stops) ==> AnswerAll(map[], route, key, queries) == TrueCosts(route, queries))
      <==> InjectiveOn(key, stops)
  {
    KeysDetermineAllCostsIff(stops, key);
    if InjectiveOn(key, stops) {
      forall route: Router, queries | Among(queries, stops)
        ensures AnswerAll(map[], route, key, queries) == TrueCosts(route, queries)
      {
        MemoIsInvisibleIff(stops, route, key);
      }
    } else {
      var route: Router :| !KeysDetermineCosts(stops, route, key);
      MemoIsInvisibleIff(stops, route, key);
    }
  }

  /** The text does not contain the separator of a leg key. */
  predicate NoArrow(s: string) {
    forall i :: 0 <= i < |s| - 1 ==> !(s[i] == '-' && s[i + 1] == '>')
  }

  ghost predicate DistinctKeys(stops: set<Stop>, coords: Printer) {
    forall s, t :: s in stops && t in stops && KeyOf(s, coords) == KeyOf(t, coords) ==> s == t
  }

  lemma NoEarlierArrow(a: string, b: string, c: string, d: string)
    requires NoArrow(c) && a + "->" + b == c + "->" + d
    ensures |c| <= |a|
  {
    var s := a + "->" + b;
    assert s[|a|] == '-' && s[|a| + 1] == '>' && s[|c|] == '-';
    assert forall i :: 0 <= i < |c| ==> s[i] == c[i];
  }

  /** The first separator of a key stands after the first stop. */
  lemma ArrowSplits(a: string, b: string, c: string, d: string)
    requires NoArrow(a) && NoArrow(c) && a + "->" + b == c + "->" + d
    ensures a == c && b == d
  {
    NoEarlierArrow(a, b, c, d);
    NoEarlierArrow(c, d, a, b);
    var s := a + "->" + b;
    assert s[..|a|] == a && s[..|c|] == c;
    assert s[|a| + 2..] == b && s[|c| + 2..] == d;
  }

  /** For stops whose ids, or coordinates where there is no id, do not contain the separator, the keys of the
      cache are safe exactly when different stops have different ids. */
  lemma LegKeyIsInjectiveIff(stops: set<Stop>, coords: Printer)
    requires forall s :: s in stops ==> NoArrow(KeyOf(s, coords))
    ensures InjectiveOn(LegKey(coords), stops) <==> DistinctKeys(stops, coords)
  {
    if DistinctKeys(stops, coords) {
      forall a, b, c, d | a in stops && b in stops && c in stops && d in stops && LegKey(coords)(a, b) == LegKey(coords)(c, d)
        ensures a == c && b == d
      {
        ArrowSplits(KeyOf(a, coords), KeyOf(b, coords), KeyOf(c, coords), KeyOf(d, coords));
      }
    } else {
      var s, t :| s in stops && t in stops && KeyOf(s, coords) == KeyOf(t, coords) && s != t;
      assert LegKey(coords)(s, s) == LegKey(coords)(t, s);
    }
  }

  /** Plain ids make the cache invisible for every router. */
  lemma PlainKeysDetermineCosts(stops: set<Stop>, route: Router, coords: Printer)
    requires DistinctKeys(stops, coords) && forall s :: s in stops ==> NoArrow(KeyOf(s, coords))
    ensures KeysDetermineCosts(stops, route, LegKey(coords))
  {
    LegKeyIsInjectiveIff(stops, coords);
    KeysDetermineAllCostsIff(stops, LegKey(coords));
  }

  function StopNamed(id: string): Stop {
    Stop(0.0, 0.0, Some(id), None, None)
  }

  /** Ids that contain the separator can make the cache answer wrongly: after the leg from "p->q" to "r" it
      gives the same cost for the leg from "p" to "q->r". */
  lemma KeysCanCollide(coords: Printer)
    ensures var a, b, c, d := StopNamed("p->q"), StopNamed("r"), StopNamed("p"), StopNamed("q->r");
      && DistinctKeys({a, b, c, d}, coords)
      && AnswerAll(map[], Telling(a, b), LegKey(coords), [(a, b), (c, d)])
         != TrueCosts(Telling(a, b), [(a, b), (c, d)])
  {
    var a, b, c, d := StopNamed("p->q"), StopNamed("r"), StopNamed("p"), StopNamed("q->r");
    assert "p->q" + "->" + "r" == "p" + "->" + "q->r";
    assert "p->q"[0] == 'p' && "q->r"[0] == 'q' && "r"[0] == 'r';
    assert |"p->q"| == 4 && |"p"| == 1;
    assert LegKey(coords)(a, b) == LegKey(coords)(c, d);
    CollidingLegs(a, b, c, d, Telling(a, b), LegKey(coords));
  }

  class LegCostCache {
    var memo: Memo
    const route: Router
    const key: KeyMaker

    constructor (route: Router, key: KeyMaker)
      ensures memo == map[] && this.route == route && this.key == key
    {
      this.route := route;
      this.key := key;
      memo := map[];
    }

    method GetCost(a: Stop, b: Stop) returns (r: LegCost)
      modifies this
      ensures memo == Remember(old(memo), route, key, a, b)
      ensures r == Answer(old(memo), route, key, a, b) == Answer(memo, route, key, a, b)
      ensures Extends(old(memo), memo) && key(a, b) in memo
    {
      var k := key(a, b);
      if k in memo {
        r := memo[k];
        assert memo[k := r] == memo;
      } else {
        r := route(a, b);
        memo := memo[k := r];
      }
    }
  }
}
