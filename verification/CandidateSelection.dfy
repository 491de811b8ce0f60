/** `getCandidateStopsForPoolWithRisk`: which stops of a pool a new run visits.

    `localeCompare` on stop ids is a parameter `ord`, a total order on ids. */
module CandidateSelection {
  import opened Sequences

  type StopId = string

  type IdOrder = (StopId, StopId) -> bool

  ghost predicate OrdersIds(ord: IdOrder) {
    && TotalPreorder(ord)
    && forall a, b :: ord(a, b) && ord(b, a) ==> a == b
  }

  datatype Place = Place(lon: real, lat: real, street: string, bearing: string)

  /** A stop of the pool with its risk snapshot; missing snapshots read as zero. */
  datatype Candidate = Candidate(id: StopId, place: Place, risk: real, hotspot: real, urgency: real)

  datatype Override =
    | ForceExclude(id: StopId)
    | ForceInclude(id: StopId)
    | PriorityBump(id: StopId, value: real)
    | OtherOverride(id: StopId)

  // -- Overrides -------------------------------------------------------------------------------------

  function Excluded(overrides: seq<Override>): set<StopId> {
    set o | o in overrides && o.ForceExclude? :: o.id
  }

  function Included(overrides: seq<Override>): set<StopId> {
    set o | o in overrides && o.ForceInclude? :: o.id
  }

  predicate IsBumpOf(o: Override, id: StopId) {
    o.PriorityBump? && o.id == id
  }

  /** The sum of the bumps of a stop. */
  function Bump(overrides: seq<Override>, id: StopId): real {
    if overrides == [] then 0.0
    else
      var last := overrides[|overrides| - 1];
      Bump(overrides[..|overrides| - 1], id) + if IsBumpOf(last, id) then last.value else 0.0
  }

  method ReadOverrides(overrides: seq<Override>)
    returns (forceInclude: set<StopId>, forceExclude: set<StopId>, bumps: map<StopId, real>)
    ensures forceInclude == Included(overrides) && forceExclude == Excluded(overrides)
    ensures forall id :: (if id in bumps then bumps[id] else 0.0) == Bump(overrides, id)
  {
    forceInclude, forceExclude, bumps := {}, {}, map[];
    for k := 0 to |overrides|
      invariant forceInclude == Included(overrides[..k]) && forceExclude == Excluded(overrides[..k])
      invariant forall id :: (if id in bumps then bumps[id] else 0.0) == Bump(overrides[..k], id)
    {
      var o := overrides[k];
      assert overrides[..k + 1] == overrides[..k] + [o] && overrides[..k + 1][..k] == overrides[..k];
      match o
      case ForceExclude(id) => forceExclude := forceExclude + {id};
      case ForceInclude(id) => forceInclude := forceInclude + {id};
      case PriorityBump(id, value) =>
        var existing := if id in bumps then bumps[id] else 0.0;
        bumps := bumps[id := existing + value];
      case OtherOverride(_) =>
    }
    assert overrides[..|overrides|] == overrides;
  }

  // -- Candidates and scores -----------------------------------------------------------------------

  function Ids(candidates: seq<Candidate>): set<StopId> {
    set c | c in candidates :: c.id
  }

  function Unweighted(c: Candidate): Candidate {
    c.(risk := 0.0, hotspot := 0.0, urgency := 0.0)
  }

  /** The stops that were fetched and are not excluded. */
  function Kept(fetched: seq<Candidate>, overrides: seq<Override>): seq<Candidate> {
    Filter(fetched, (c: Candidate) => c.id !in Excluded(overrides))
  }

  /** The stops of the pool that must be included and are not among the kept ones; their weights are not read. */
  function Missing(fetched: seq<Candidate>, pool: seq<Candidate>, overrides: seq<Override>): seq<Candidate> {
    var absent := Included(overrides) - Ids(Kept(fetched, overrides));
    Map(Filter(pool, (c: Candidate) => c.id in absent), Unweighted)
  }

  function Candidates(fetched: seq<Candidate>, pool: seq<Candidate>, overrides: seq<Override>): seq<Candidate> {
    Kept(fetched, overrides) + Missing(fetched, pool, overrides)
  }

  function Max(a: real, b: real): real {
    if a >= b then a else b
  }

  function MaxRisk(candidates: seq<Candidate>): (m: real)
    ensures m >= 0.0
    ensures forall c :: c in candidates ==> c.risk <= m
    ensures m == 0.0 || exists c :: c in candidates && c.risk == m
  {
    if candidates == [] then 0.0
    else
      var last := candidates[|candidates| - 1];
      var m := Max(MaxRisk(candidates[..|candidates| - 1]), last.risk);
      assert candidates == candidates[..|candidates| - 1] + [last];
      m
  }

  datatype Scored = Scored(candidate: Candidate, score: real)

  function Score(c: Candidate, overrides: seq<Override>, bonus: real): real {
    c.risk + Bump(overrides, c.id) + if c.id in Included(overrides) then bonus else 0.0
  }

  function Scorer(overrides: seq<Override>, bonus: real): Candidate -> Scored {
    (c: Candidate) => Scored(c, Score(c, overrides, bonus))
  }

  /** Score, hotspot and urgency descending, then id ascending. */
  predicate Before(ord: IdOrder, a: Scored, b: Scored) {
    if a.score != b.score then a.score > b.score
    else if a.candidate.hotspot != b.candidate.hotspot then a.candidate.hotspot > b.candidate.hotspot
    else if a.candidate.urgency != b.candidate.urgency then a.candidate.urgency > b.candidate.urgency
    else ord(a.candidate.id, b.candidate.id)
  }

  function Rank(ord: IdOrder): (Scored, Scored) -> bool {
    (a: Scored, b: Scored) => Before(ord, a, b)
  }

  function Bonus(candidates: seq<Candidate>): real {
    MaxRisk(candidates) + 1000.0
  }

  /** All candidates in the order of their scores. */
  function Ranking(ord: IdOrder, candidates: seq<Candidate>, overrides: seq<Override>): (r: seq<Scored>)
    ensures |r| == |candidates|
  {
    StableSort(Map(candidates, Scorer(overrides, Bonus(candidates))), Rank(ord))
  }

  function Slice<T>(s: seq<T>, limit: nat): seq<T> {
    if limit < |s| then s[..limit] else s
  }

  datatype Selected = Selected(id: StopId, place: Place)

  function Stripped(s: Scored): Selected {
    Selected(s.candidate.id, s.candidate.place)
  }

  function Selection(ord: IdOrder, fetched: seq<Candidate>, pool: seq<Candidate>, overrides: seq<Override>, limit: nat)
    : seq<Selected>
  {
    Map(Slice(Ranking(ord, Candidates(fetched, pool, overrides), overrides), limit), Stripped)
  }

  lemma {:induction false} FilterCongruence<T>(s: seq<T>, p: T -> bool, q: T -> bool)
    requires forall x <- s :: p(x) == q(x)
    ensures Filter(s, p) == Filter(s, q)
  {
    if s != [] {
      FilterCongruence(s[1..], p, q);
    }
  }

  method PushMissing(kept: seq<Candidate>, rows: seq<Candidate>) returns (candidates: seq<Candidate>)
    ensures candidates == kept + Map(rows, Unweighted)
  {
    candidates := kept;
    for k := 0 to |rows|
      invariant |candidates| == |kept| + k && candidates[..|kept|] == kept
      invariant forall i :: 0 <= i < k ==> candidates[|kept| + i] == Unweighted(rows[i])
    {
      candidates := candidates + [Unweighted(rows[k])];
    }
    assert candidates[|kept|..] == Map(rows, Unweighted);
    assert candidates == candidates[..|kept|] + candidates[|kept|..];
  }

  /** The score as it is computed from the override tables. */
  function EffectiveScore(forceInclude: set<StopId>, bumps: map<StopId, real>, bonus: real): Candidate -> Scored {
    (c: Candidate) =>
      var bumped := if c.id in bumps then c.risk + bumps[c.id] else c.risk;
      Scored(c, if c.id in forceInclude then bumped + bonus else bumped)
  }

  lemma EffectiveScoresAgree(candidates: seq<Candidate>, forceInclude: set<StopId>, bumps: map<StopId, real>,
                             bonus: real, overrides: seq<Override>)
    requires forceInclude == Included(overrides)
    requires forall id :: (if id in bumps then bumps[id] else 0.0) == Bump(overrides, id)
    ensures Map(candidates, EffectiveScore(forceInclude, bumps, bonus)) == Map(candidates, Scorer(overrides, bonus))
  {
    forall c | c in candidates
      ensures EffectiveScore(forceInclude, bumps, bonus)(c) == Scorer(overrides, bonus)(c)
    {
      assert Bump(overrides, c.id) == if c.id in bumps then bumps[c.id] else 0.0;
    }
    MapCongruence(candidates, EffectiveScore(forceInclude, bumps, bonus), Scorer(overrides, bonus));
  }

  method GetCandidateStops(ord: IdOrder, fetched: seq<Candidate>, pool: seq<Candidate>, overrides: seq<Override>,
                           limit: nat)
    returns (selected: seq<Selected>)
    ensures selected == Selection(ord, fetched, pool, overrides, limit)
  {
    var forceInclude, forceExclude, bumps := ReadOverrides(overrides);
    var kept := Filter(fetched, (c: Candidate) => c.id !in forceExclude);
    FilterCongruence(fetched, (c: Candidate) => c.id !in forceExclude, (c: Candidate) => c.id !in Excluded(overrides));
    var absent := forceInclude - Ids(kept);
    var rows := Filter(pool, (c: Candidate) => c.id in absent);
    FilterCongruence(pool, (c: Candidate) => c.id in absent,
                     (c: Candidate) => c.id in Included(overrides) - Ids(Kept(fetched, overrides)));
    var candidates := PushMissing(kept, rows);
    var scored := Map(candidates, EffectiveScore(forceInclude, bumps, Bonus(candidates)));
    EffectiveScoresAgree(candidates, forceInclude, bumps, Bonus(candidates), overrides);
    selected := Map(Slice(StableSort(scored, Rank(ord)), limit), Stripped);
  }

  // -- Independence of row order -----------------------------------------------------------------------

  ghost predicate DistinctIds(candidates: seq<Candidate>) {
    forall i, j :: 0 <= i < j < |candidates| ==> candidates[i].id != candidates[j].id
  }

  lemma SameMembers<T(!new)>(s: seq<T>, t: seq<T>)
    requires multiset(s) == multiset(t)
    ensures forall x :: x in s <==> x in t
  {
    assert forall x :: x in s <==> x in multiset(s);
    assert forall x :: x in t <==> x in multiset(t);
  }

  lemma {:induction false} BumpConcat(a: seq<Override>, b: seq<Override>, id: StopId)
    ensures Bump(a + b, id) == Bump(a, id) + Bump(b, id)
    decreases |b|
  {
    if b == [] {
      assert a + b == a;
    } else {
      assert (a + b)[..|a + b| - 1] == a + b[..|b| - 1];
      BumpConcat(a, b[..|b| - 1], id);
    }
  }

  function BumpBy(o: Override, id: StopId): real {
    if IsBumpOf(o, id) then o.value else 0.0
  }

  lemma BumpWithout(overrides: seq<Override>, k: nat, id: StopId)
    requires k < |overrides|
    ensures Bump(overrides, id) == Bump(Without(overrides, k), id) + BumpBy(overrides[k], id)
  {
    var before, after := overrides[..k + 1], overrides[k + 1..];
    assert overrides == before + after;
    BumpConcat(before, after, id);
    assert before[..k] == overrides[..k];
    BumpConcat(overrides[..k], after, id);
  }

  lemma {:induction false} BumpIgnoresOrder(a: seq<Override>, b: seq<Override>, id: StopId)
    requires multiset(a) == multiset(b)
    ensures Bump(a, id) == Bump(b, id)
    decreases |a|
  {
    assert |multiset(a)| == |multiset(b)|;
    if a != [] {
      assert a[0] in multiset(a);
      var k :| 0 <= k < |b| && b[k] == a[0];
      WithoutLosesOne(a, 0);
      WithoutLosesOne(b, k);
      BumpIgnoresOrder(Without(a, 0), Without(b, k), id);
      BumpWithout(a, 0, id);
      BumpWithout(b, k, id);
    }
  }

  lemma OverridesIgnoreOrder(a: seq<Override>, b: seq<Override>)
    requires multiset(a) == multiset(b)
    ensures Excluded(a) == Excluded(b) && Included(a) == Included(b)
    ensures forall id :: Bump(a, id) == Bump(b, id)
  {
    SameMembers(a, b);
    forall id ensures Bump(a, id) == Bump(b, id) {
      BumpIgnoresOrder(a, b, id);
    }
  }

  lemma CandidatesIgnoreOrder(fetched: seq<Candidate>, fetched': seq<Candidate>,
                              pool: seq<Candidate>, pool': seq<Candidate>,
                              overrides: seq<Override>, overrides': seq<Override>)
    requires multiset(fetched) == multiset(fetched') && multiset(pool) == multiset(pool')
    requires multiset(overrides) == multiset(overrides')
    ensures multiset(Candidates(fetched, pool, overrides)) == multiset(Candidates(fetched', pool', overrides'))
  {
    OverridesIgnoreOrder(overrides, overrides');
    var kept := (c: Candidate) => c.id !in Excluded(overrides);
    var kept' := (c: Candidate) => c.id !in Excluded(overrides');
    FilterPermutes(fetched, fetched', kept);
    FilterCongruence(fetched', kept, kept');
    SameMembers(Kept(fetched, overrides), Kept(fetched', overrides'));
    assert Ids(Kept(fetched, overrides)) == Ids(Kept(fetched', overrides'));
    var absent := (c: Candidate) => c.id in Included(overrides) - Ids(Kept(fetched, overrides));
    var absent' := (c: Candidate) => c.id in Included(overrides') - Ids(Kept(fetched', overrides'));
    FilterPermutes(pool, pool', absent);
    FilterCongruence(pool', absent, absent');
    MapPermutes(Filter(pool, absent), Filter(pool', absent), Unweighted);
  }

  lemma BonusIgnoresOrder(a: seq<Candidate>, b: seq<Candidate>)
    requires multiset(a) == multiset(b)
    ensures Bonus(a) == Bonus(b)
  {
    SameMembers(a, b);
  }

  lemma RankIsTotal(ord: IdOrder)
    requires OrdersIds(ord)
    ensures TotalPreorder(Rank(ord))
  {
  }

  lemma MapCongruence<T, U>(s: seq<T>, f: T -> U, g: T -> U)
    requires forall x <- s :: f(x) == g(x)
    ensures Map(s, f) == Map(s, g)
  {
    assert forall i :: 0 <= i < |s| ==> s[i] in s;
  }

  lemma ScoredAreDistinct(ord: IdOrder, candidates: seq<Candidate>, score: Candidate -> Scored)
    requires OrdersIds(ord) && DistinctIds(candidates) && forall c :: score(c).candidate == c
    ensures var scored := Map(candidates, score);
      forall x, y :: x in scored && y in scored && Rank(ord)(x, y) && Rank(ord)(y, x) ==> x == y
  {
  }

  /** The ranking does not depend on the order of the candidates or the overrides. */
  lemma RankingIgnoresOrder(ord: IdOrder, a: seq<Candidate>, b: seq<Candidate>,
                            overrides: seq<Override>, overrides': seq<Override>)
    requires OrdersIds(ord) && DistinctIds(a) && multiset(a) == multiset(b)
    requires multiset(overrides) == multiset(overrides')
    ensures Ranking(ord, a, overrides) == Ranking(ord, b, overrides')
  {
    var score, score' := Scorer(overrides, Bonus(a)), Scorer(overrides', Bonus(b));
    BonusIgnoresOrder(a, b);
    OverridesIgnoreOrder(overrides, overrides');
    MapCongruence(b, score, score');
    MapPermutes(a, b, score);
    RankIsTotal(ord);
    ScoredAreDistinct(ord, a, score);
    SortIgnoresOrder(Map(a, score), Map(b, score), Rank(ord));
  }

  lemma {:induction false} FilterKeepsDistinct(s: seq<Candidate>, keep: Candidate -> bool)
    requires DistinctIds(s)
    ensures DistinctIds(Filter(s, keep))
  {
    if s != [] {
      FilterKeepsDistinct(s[1..], keep);
      FilterMembers(s[1..], keep);
      forall c | c in Filter(s[1..], keep) ensures c.id != s[0].id {
        assert c in s[1..];
      }
    }
  }

  lemma CandidatesAreDistinct(fetched: seq<Candidate>, pool: seq<Candidate>, overrides: seq<Override>)
    requires DistinctIds(fetched) && DistinctIds(pool)
    ensures DistinctIds(Candidates(fetched, pool, overrides))
  {
    var kept := Kept(fetched, overrides);
    var absent := (c: Candidate) => c.id in Included(overrides) - Ids(kept);
    FilterKeepsDistinct(fetched, (c: Candidate) => c.id !in Excluded(overrides));
    FilterKeepsDistinct(pool, absent);
    FilterMembers(pool, absent);
    forall c | c in Missing(fetched, pool, overrides) ensures c.id !in Ids(kept) {
      var i :| 0 <= i < |Missing(fetched, pool, overrides)| && Missing(fetched, pool, overrides)[i] == c;
      assert Filter(pool, absent)[i] in Filter(pool, absent);
    }
  }

  /** The selection does not depend on the order in which the rows and the overrides are read. */
  lemma SelectionIgnoresOrder(ord: IdOrder, fetched: seq<Candidate>, fetched': seq<Candidate>,
                              pool: seq<Candidate>, pool': seq<Candidate>,
                              overrides: seq<Override>, overrides': seq<Override>, limit: nat)
    requires OrdersIds(ord) && DistinctIds(fetched) && DistinctIds(pool)
    requires multiset(fetched) == multiset(fetched') && multiset(pool) == multiset(pool')
    requires multiset(overrides) == multiset(overrides')
    ensures Selection(ord, fetched, pool, overrides, limit) == Selection(ord, fetched', pool', overrides', limit)
  {
    CandidatesAreDistinct(fetched, pool, overrides);
    CandidatesIgnoreOrder(fetched, fetched', pool, pool', overrides, overrides');
    RankingIgnoresOrder(ord, Candidates(fetched, pool, overrides), Candidates(fetched', pool', overrides'),
                        overrides, overrides');
  }

  // -- Force-excluded and force-included stops ---------------------------------------------------------

  lemma RankedCandidate(ord: IdOrder, candidates: seq<Candidate>, overrides: seq<Override>, s: Scored)
    ensures s in Ranking(ord, candidates, overrides)
      <==> s.candidate in candidates && s.score == Score(s.candidate, overrides, Bonus(candidates))
  {
    var scored := Map(candidates, Scorer(overrides, Bonus(candidates)));
    SortPermutes(scored, Rank(ord));
    assert s in scored <==> s in Ranking(ord, candidates, overrides);
    if s.candidate in candidates && s.score == Score(s.candidate, overrides, Bonus(candidates)) {
      var i :| 0 <= i < |candidates| && candidates[i] == s.candidate;
      assert scored[i] == s;
    }
  }

  lemma CandidateOrigins(fetched: seq<Candidate>, pool: seq<Candidate>, overrides: seq<Override>)
    ensures forall c :: c in Kept(fetched, overrides) <==> c in fetched && c.id !in Excluded(overrides)
    ensures forall c :: c in Missing(fetched, pool, overrides) ==>
      c.id in Included(overrides) && c.id in Ids(pool) && c.risk == 0.0
    ensures forall p :: p in pool && p.id in Included(overrides) - Ids(Kept(fetched, overrides)) ==>
      Unweighted(p) in Missing(fetched, pool, overrides)
  {
    var absent := (c: Candidate) => c.id in Included(overrides) - Ids(Kept(fetched, overrides));
    FilterMembers(fetched, (c: Candidate) => c.id !in Excluded(overrides));
    FilterMembers(pool, absent);
    var rows := Filter(pool, absent);
    forall c | c in Missing(fetched, pool, overrides)
      ensures c.id in Included(overrides) && c.id in Ids(pool) && c.risk == 0.0
    {
      var i :| 0 <= i < |rows| && Missing(fetched, pool, overrides)[i] == c;
      assert rows[i] in rows;
    }
    forall p | p in pool && p.id in Included(overrides) - Ids(Kept(fetched, overrides))
      ensures Unweighted(p) in Missing(fetched, pool, overrides)
    {
      assert p in rows;
      var i :| 0 <= i < |rows| && rows[i] == p;
      assert Missing(fetched, pool, overrides)[i] == Unweighted(p);
    }
  }

  function Ranked(ord: IdOrder, fetched: seq<Candidate>, pool: seq<Candidate>, overrides: seq<Override>): seq<Scored> {
    Ranking(ord, Candidates(fetched, pool, overrides), overrides)
  }

  /** A stop is ranked exactly when it was fetched and is not excluded, or is a stop of the pool that is
      force-included: an exclusion holds only against stops that are not included. */
  lemma RankedIff(ord: IdOrder, fetched: seq<Candidate>, pool: seq<Candidate>, overrides: seq<Override>, id: StopId)
    requires forall c :: c in fetched ==> c.id in Ids(pool)
    ensures (exists s :: s in Ranked(ord, fetched, pool, overrides) && s.candidate.id == id)
      <==> (id in Ids(fetched) && id !in Excluded(overrides)) || (id in Ids(pool) && id in Included(overrides))
  {
    var candidates := Candidates(fetched, pool, overrides);
    CandidateOrigins(fetched, pool, overrides);
    if s :| s in Ranked(ord, fetched, pool, overrides) && s.candidate.id == id {
      RankedCandidate(ord, candidates, overrides, s);
    }
    if id in Ids(fetched) && id !in Excluded(overrides) {
      var c :| c in fetched && c.id == id;
      IsRanked(ord, candidates, overrides, c);
    } else if id in Ids(pool) && id in Included(overrides) {
      var p :| p in pool && p.id == id;
      assert id !in Ids(Kept(fetched, overrides));
      IsRanked(ord, candidates, overrides, Unweighted(p));
    }
  }

  lemma IsRanked(ord: IdOrder, candidates: seq<Candidate>, overrides: seq<Override>, c: Candidate)
    requires c in candidates
    ensures exists s :: s in Ranking(ord, candidates, overrides) && s.candidate.id == c.id
  {
    var s := Scored(c, Score(c, overrides, Bonus(candidates)));
    RankedCandidate(ord, candidates, overrides, s);
    assert s.candidate.id == c.id;
  }

  /** Bumps of any two ranked stops differ by less than 1000. */
  ghost predicate ModestBumps(candidates: seq<Candidate>, overrides: seq<Override>) {
    forall a, b :: a in candidates && b in candidates ==> Bump(overrides, a.id) - Bump(overrides, b.id) < 1000.0
  }

  /** With modest bumps and no negative risk, no stop that is not force-included ranks before one that is. */
  lemma IncludedRankFirst(ord: IdOrder, fetched: seq<Candidate>, pool: seq<Candidate>, overrides: seq<Override>,
                          i: nat, j: nat)
    requires OrdersIds(ord) && i < j < |Ranked(ord, fetched, pool, overrides)|
    requires ModestBumps(Candidates(fetched, pool, overrides), overrides)
    requires forall c :: c in fetched ==> c.risk >= 0.0
    ensures var ranked := Ranked(ord, fetched, pool, overrides);
      ranked[j].candidate.id in Included(overrides) ==> ranked[i].candidate.id in Included(overrides)
  {
    var candidates := Candidates(fetched, pool, overrides);
    var ranked := Ranked(ord, fetched, pool, overrides);
    CandidateOrigins(fetched, pool, overrides);
    RankIsTotal(ord);
    SortSorts(Map(candidates, Scorer(overrides, Bonus(candidates))), Rank(ord));
    assert Rank(ord)(ranked[i], ranked[j]);
    RankedCandidate(ord, candidates, overrides, ranked[i]);
    RankedCandidate(ord, candidates, overrides, ranked[j]);
    assert ranked[i].score >= ranked[j].score;
    assert ranked[i].candidate.risk <= MaxRisk(candidates);
    assert ranked[j].candidate.risk >= 0.0;
  }

  /** Risk and bumps together, which decide among stops that are all force-included or all not. */
  function OwnScore(c: Candidate, overrides: seq<Override>): real {
    c.risk + Bump(overrides, c.id)
  }

  /** Among stops that are all force-included, or all not: the higher risk plus bumps first, then the
      higher hotspot weight, then the higher urgency, then the smaller id. */
  lemma RankedByOwnScore(ord: IdOrder, fetched: seq<Candidate>, pool: seq<Candidate>, overrides: seq<Override>,
                         i: nat, j: nat)
    requires OrdersIds(ord) && i < j < |Ranked(ord, fetched, pool, overrides)|
    requires var ranked := Ranked(ord, fetched, pool, overrides);
      ranked[i].candidate.id in Included(overrides) <==> ranked[j].candidate.id in Included(overrides)
    ensures var a, b := Ranked(ord, fetched, pool, overrides)[i].candidate, Ranked(ord, fetched, pool, overrides)[j].candidate;
      var x, y := OwnScore(a, overrides), OwnScore(b, overrides);
      x > y || (x == y && (a.hotspot > b.hotspot || (a.hotspot == b.hotspot
        && (a.urgency > b.urgency || (a.urgency == b.urgency && ord(a.id, b.id))))))
  {
    var candidates := Candidates(fetched, pool, overrides);
    var ranked := Ranked(ord, fetched, pool, overrides);
    RankIsTotal(ord);
    SortSorts(Map(candidates, Scorer(overrides, Bonus(candidates))), Rank(ord));
    assert Rank(ord)(ranked[i], ranked[j]);
    RankedCandidate(ord, candidates, overrides, ranked[i]);
    RankedCandidate(ord, candidates, overrides, ranked[j]);
  }

  /** Then a run that has room for one other stop visits every force-included stop of the pool. */
  lemma OthersComeAfterAllIncluded(ord: IdOrder, fetched: seq<Candidate>, pool: seq<Candidate>,
                                   overrides: seq<Override>, limit: nat, other: Selected, id: StopId)
    requires OrdersIds(ord) && ModestBumps(Candidates(fetched, pool, overrides), overrides)
    requires forall c :: c in fetched ==> c.risk >= 0.0 && c.id in Ids(pool)
    requires other in Selection(ord, fetched, pool, overrides, limit) && other.id !in Included(overrides)
    requires id in Included(overrides) && id in Ids(pool)
    ensures exists s :: s in Selection(ord, fetched, pool, overrides, limit) && s.id == id
  {
    var ranked := Ranked(ord, fetched, pool, overrides);
    var selected := Selection(ord, fetched, pool, overrides, limit);
    RankedIff(ord, fetched, pool, overrides, id);
    var s :| s in ranked && s.candidate.id == id;
    var j :| 0 <= j < |ranked| && ranked[j] == s;
    var i :| 0 <= i < |selected| && selected[i] == other;
    assert ranked[i].candidate.id == other.id;
    if i < j {
      IncludedRankFirst(ord, fetched, pool, overrides, i, j);
    } else {
      assert selected[j].id == id;
    }
  }

  // -- The prefetch of 200 rows --------------------------------------------------------------------------

  const RAW_LIMIT := 200

  /** The database returned `fetched` of the pool and held back `rest`: the rows of highest risk, ties
      broken arbitrarily. */
  ghost predicate Prefetched(fetched: seq<Candidate>, rest: seq<Candidate>, pool: seq<Candidate>) {
    && multiset(fetched + rest) == multiset(pool)
    && |fetched| == (if |pool| < RAW_LIMIT then |pool| else RAW_LIMIT)
    && forall f, r :: f in fetched && r in rest ==> r.risk <= f.risk
  }

  ghost predicate OnlyExcludes(overrides: seq<Override>) {
    forall o :: o in overrides ==> o.ForceExclude? || o.OtherOverride?
  }

  function ScoreOf(s: Scored): real {
    s.score
  }

  function RiskOf(c: Candidate): real {
    c.risk
  }

  function Descending(): (real, real) -> bool {
    (a: real, b: real) => a >= b
  }

  lemma {:induction false} NoBumps(overrides: seq<Override>, id: StopId)
    requires OnlyExcludes(overrides)
    ensures Bump(overrides, id) == 0.0 && id !in Included(overrides)
    decreases |overrides|
  {
    if overrides != [] {
      NoBumps(overrides[..|overrides| - 1], id);
      assert overrides[|overrides| - 1] in overrides;
    }
  }

  lemma RankedScoresDescend(ord: IdOrder, ranked: seq<Scored>)
    requires Sorted(ranked, Rank(ord))
    ensures Sorted(Map(ranked, ScoreOf), Descending())
  {
    var scores := Map(ranked, ScoreOf);
    forall i, j | 0 <= i < j < |scores| ensures Descending()(scores[i], scores[j]) {
      assert Rank(ord)(ranked[i], ranked[j]);
    }
  }

  lemma ScoresAreRisks(candidates: seq<Candidate>, overrides: seq<Override>, bonus: real)
    requires OnlyExcludes(overrides)
    ensures Map(Map(candidates, Scorer(overrides, bonus)), ScoreOf) == Map(candidates, RiskOf)
  {
    forall c | c in candidates ensures Score(c, overrides, bonus) == c.risk {
      NoBumps(overrides, c.id);
    }
  }

  /** Without includes and bumps the ranked scores are the risks, in descending order. */
  lemma ScoresAreSortedRisks(ord: IdOrder, candidates: seq<Candidate>, overrides: seq<Override>)
    requires OrdersIds(ord) && OnlyExcludes(overrides)
    ensures SortedRisks(RankedScores(ord, candidates, overrides), candidates)
  {
    var scored := Map(candidates, Scorer(overrides, Bonus(candidates)));
    RankIsTotal(ord);
    SortSorts(scored, Rank(ord));
    SortPermutes(scored, Rank(ord));
    RankedScoresDescend(ord, StableSort(scored, Rank(ord)));
    MapPermutes(StableSort(scored, Rank(ord)), scored, ScoreOf);
    ScoresAreRisks(candidates, overrides, Bonus(candidates));
  }

  lemma {:induction false} FewAreDropped(s: seq<Candidate>, dropped: set<StopId>)
    requires DistinctIds(s)
    ensures |Filter(s, (c: Candidate) => c.id !in dropped)| + |dropped| >= |s|
  {
    if s != [] {
      var id := s[0].id;
      if id in dropped {
        FewAreDropped(s[1..], dropped - {id});
        FilterCongruence(s[1..], (c: Candidate) => c.id !in dropped, (c: Candidate) => c.id !in dropped - {id});
      } else {
        FewAreDropped(s[1..], dropped);
      }
    }
  }

  lemma NothingMissing(fetched: seq<Candidate>, pool: seq<Candidate>, overrides: seq<Override>)
    requires OnlyExcludes(overrides)
    ensures Candidates(fetched, pool, overrides) == Kept(fetched, overrides)
  {
    assert Included(overrides) == {};
    var absent := (c: Candidate) => c.id in Included(overrides) - Ids(Kept(fetched, overrides));
    FilterNone(pool, absent);
  }

  lemma DistinctPart(a: seq<Candidate>, b: seq<Candidate>, whole: seq<Candidate>)
    requires multiset(a + b) == multiset(whole) && DistinctIds(whole)
    ensures DistinctIds(a)
  {
    forall i, j | 0 <= i < j < |a| ensures a[i].id != a[j].id {
      var s := a + b;
      if s[i] == s[j] {
        TwiceMeansTwo(s, i, j);
        DistinctMeansOne(whole, s[i]);
      } else {
        assert s[i] in multiset(whole) && s[j] in multiset(whole);
      }
    }
  }

  ghost predicate SortedRisks(scores: seq<real>, candidates: seq<Candidate>) {
    Sorted(scores, Descending()) && multiset(scores) == multiset(Map(candidates, RiskOf))
  }

  lemma ScoreIsSomeRisk(scores: seq<real>, candidates: seq<Candidate>, x: real)
    requires SortedRisks(scores, candidates) && x in scores
    ensures exists c :: c in candidates && c.risk == x
  {
    assert x in multiset(Map(candidates, RiskOf));
    var i :| 0 <= i < |candidates| && Map(candidates, RiskOf)[i] == x;
    assert candidates[i] in candidates;
  }

  lemma RisksOfParts(k: seq<Candidate>, kr: seq<Candidate>, kp: seq<Candidate>)
    requires multiset(k + kr) == multiset(kp)
    ensures multiset(Map(k, RiskOf)) + multiset(Map(kr, RiskOf)) == multiset(Map(kp, RiskOf))
  {
    MapPermutes(k + kr, kp, RiskOf);
    MapConcat(k, kr, RiskOf);
  }

  lemma DescendingConcat(d: seq<real>, dr: seq<real>)
    requires Sorted(d, Descending()) && Sorted(dr, Descending())
    requires forall x, y :: x in d && y in dr ==> x >= y
    ensures Sorted(d + dr, Descending())
  {
    var all := d + dr;
    forall i, j | 0 <= i < j < |all| ensures Descending()(all[i], all[j]) {
      if i < |d| {
        assert all[i] in d && (j >= |d| ==> all[j] in dr);
        if j < |d| {
          assert Descending()(d[i], d[j]);
        }
      } else {
        assert Descending()(dr[i - |d|], dr[j - |d|]);
      }
    }
  }

  lemma SplitRisks(k: seq<Candidate>, kr: seq<Candidate>, kp: seq<Candidate>,
                   d: seq<real>, dr: seq<real>, dp: seq<real>)
    requires SortedRisks(d, k) && SortedRisks(dr, kr) && SortedRisks(dp, kp)
    requires multiset(k + kr) == multiset(kp)
    requires forall f, r :: f in k && r in kr ==> r.risk <= f.risk
    ensures dp == d + dr
  {
    RisksOfParts(k, kr, kp);
    forall x, y | x in d && y in dr ensures x >= y {
      ScoreIsSomeRisk(d, k, x);
      ScoreIsSomeRisk(dr, kr, y);
    }
    DescendingConcat(d, dr);
    SortedPermutationIsUnique(dp, d + dr, Descending());
  }

  function RankedScores(ord: IdOrder, candidates: seq<Candidate>, overrides: seq<Override>): (r: seq<real>)
    ensures |r| == |candidates|
  {
    Map(Ranking(ord, candidates, overrides), ScoreOf)
  }

  /** Ranking the rest as well changes no score in front of it. */
  lemma ScoresSplit(ord: IdOrder, fetched: seq<Candidate>, rest: seq<Candidate>, pool: seq<Candidate>,
                    overrides: seq<Override>)
    requires OrdersIds(ord) && OnlyExcludes(overrides) && Prefetched(fetched, rest, pool)
    ensures RankedScores(ord, Kept(pool, overrides), overrides)
         == RankedScores(ord, Kept(fetched, overrides), overrides) + RankedScores(ord, Kept(rest, overrides), overrides)
  {
    var keep := (c: Candidate) => c.id !in Excluded(overrides);
    var k, kr, kp := Kept(fetched, overrides), Kept(rest, overrides), Kept(pool, overrides);
    ScoresAreSortedRisks(ord, k, overrides);
    ScoresAreSortedRisks(ord, kr, overrides);
    ScoresAreSortedRisks(ord, kp, overrides);
    FilterConcat(fetched, rest, keep);
    FilterPermutes(fetched + rest, pool, keep);
    FilterMembers(fetched, keep);
    FilterMembers(rest, keep);
    SplitRisks(k, kr, kp, RankedScores(ord, k, overrides), RankedScores(ord, kr, overrides),
               RankedScores(ord, kp, overrides));
  }

  lemma SliceOfMap(s: seq<Scored>, limit: nat)
    ensures Map(Slice(s, limit), ScoreOf) == Slice(Map(s, ScoreOf), limit)
  {
  }

  lemma EnoughAreKept(fetched: seq<Candidate>, rest: seq<Candidate>, pool: seq<Candidate>,
                      overrides: seq<Override>, limit: nat)
    requires DistinctIds(pool) && Prefetched(fetched, rest, pool) && |Excluded(overrides)| + limit <= RAW_LIMIT
    ensures rest == [] || limit <= |Kept(fetched, overrides)|
  {
    DistinctPart(fetched, rest, pool);
    FewAreDropped(fetched, Excluded(overrides));
    assert |multiset(fetched + rest)| == |multiset(pool)|;
  }

  /** With nothing but exclusions, at most `200 - limit` of them, the prefetch costs nothing: the selected
      stops have the scores that ranking the whole pool would have selected. */
  lemma PrefetchSelectsTheSameScores(ord: IdOrder, fetched: seq<Candidate>, rest: seq<Candidate>,
                                     pool: seq<Candidate>, overrides: seq<Override>, limit: nat)
    requires OrdersIds(ord) && DistinctIds(pool) && Prefetched(fetched, rest, pool)
    requires OnlyExcludes(overrides) && |Excluded(overrides)| + limit <= RAW_LIMIT
    ensures Map(Slice(Ranked(ord, fetched, pool, overrides), limit), ScoreOf)
         == Map(Slice(Ranked(ord, pool, pool, overrides), limit), ScoreOf)
  {
    NothingMissing(fetched, pool, overrides);
    NothingMissing(pool, pool, overrides);
    ScoresSplit(ord, fetched, rest, pool, overrides);
    EnoughAreKept(fetched, rest, pool, overrides, limit);
    SliceOfMap(Ranked(ord, fetched, pool, overrides), limit);
    SliceOfMap(Ranked(ord, pool, pool, overrides), limit);
    var d := RankedScores(ord, Kept(fetched, overrides), overrides);
    var dr := RankedScores(ord, Kept(rest, overrides), overrides);
    SlicePrefix(d, dr, limit);
  }

  lemma SlicePrefix(d: seq<real>, dr: seq<real>, limit: nat)
    requires dr == [] || limit <= |d|
    ensures Slice(d + dr, limit) == Slice(d, limit)
  {
  }
}
