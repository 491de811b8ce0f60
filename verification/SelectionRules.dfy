/** Which stops a new run visits, in the fields of the rows: who is ranked, with what score, in which order, and
    how many are taken. */
module SelectionRules {
  import opened Sequences
  import opened CandidateSelection

  // -- Who is ranked ---------------------------------------------------------------------------------

  ghost predicate Fetched(c: Candidate, fetched: seq<Candidate>, overrides: seq<Override>) {
    c in fetched && ForceExclude(c.id) !in overrides
  }

  /** A stop of the pool that must be included although it was not fetched, or was excluded. */
  ghost predicate Added(c: Candidate, fetched: seq<Candidate>, pool: seq<Candidate>, overrides: seq<Override>) {
    && ForceInclude(c.id) in overrides
    && c.risk == 0.0 && c.hotspot == 0.0 && c.urgency == 0.0
    && (exists p :: p in pool && p.id == c.id && p.place == c.place)
    && (forall f :: f in fetched && f.id == c.id ==> ForceExclude(c.id) in overrides)
  }

  lemma ExcludedIff(overrides: seq<Override>, id: StopId)
    ensures id in Excluded(overrides) <==> ForceExclude(id) in overrides
    ensures id in Included(overrides) <==> ForceInclude(id) in overrides
  {
    if id in Excluded(overrides) {
      var o :| o in overrides && o.ForceExclude? && o.id == id;
      assert o == ForceExclude(id);
    }
    if id in Included(overrides) {
      var o :| o in overrides && o.ForceInclude? && o.id == id;
      assert o == ForceInclude(id);
    }
  }

  lemma KeptIff(fetched: seq<Candidate>, pool: seq<Candidate>, overrides: seq<Override>, c: Candidate)
    ensures c in Kept(fetched, overrides) <==> Fetched(c, fetched, overrides)
  {
    CandidateOrigins(fetched, pool, overrides);
    ExcludedIff(overrides, c.id);
  }

  lemma AbsentIff(fetched: seq<Candidate>, pool: seq<Candidate>, overrides: seq<Override>, id: StopId)
    ensures id in Included(overrides) - Ids(Kept(fetched, overrides)) <==>
      ForceInclude(id) in overrides && forall f :: f in fetched && f.id == id ==> ForceExclude(id) in overrides
  {
    CandidateOrigins(fetched, pool, overrides);
    ExcludedIff(overrides, id);
    if id in Ids(Kept(fetched, overrides)) {
      var c :| c in Kept(fetched, overrides) && c.id == id;
    }
  }

  lemma MissingIff(fetched: seq<Candidate>, pool: seq<Candidate>, overrides: seq<Override>, c: Candidate)
    ensures c in Missing(fetched, pool, overrides) <==> Added(c, fetched, pool, overrides)
  {
    var absent := (p: Candidate) => p.id in Included(overrides) - Ids(Kept(fetched, overrides));
    var rows, missing := Filter(pool, absent), Missing(fetched, pool, overrides);
    AbsentIff(fetched, pool, overrides, c.id);
    FilterMembers(pool, absent);
    if c in missing {
      var i :| 0 <= i < |missing| && missing[i] == c;
      assert rows[i] in rows;
    }
    if Added(c, fetched, pool, overrides) {
      var p :| p in pool && p.id == c.id && p.place == c.place;
      assert p in rows;
      var i :| 0 <= i < |rows| && rows[i] == p;
      assert missing[i] == c;
    }
  }

  lemma CandidateIff(fetched: seq<Candidate>, pool: seq<Candidate>, overrides: seq<Override>, c: Candidate)
    ensures c in Candidates(fetched, pool, overrides)
      <==> Fetched(c, fetched, overrides) || Added(c, fetched, pool, overrides)
  {
    KeptIff(fetched, pool, overrides, c);
    MissingIff(fetched, pool, overrides, c);
  }

  /** What is ranked: the fetched stops that no override excludes, and of the pool the included ones that are
      not among them, without weights. The score is the risk and all bumps of the stop, and for an included stop
      1000 and the highest risk (or zero, if that is higher) on top. */
  lemma RankedAre(ord: IdOrder, fetched: seq<Candidate>, pool: seq<Candidate>, overrides: seq<Override>)
    returns (top: real)
    ensures top >= 0.0 && forall s :: s in Ranked(ord, fetched, pool, overrides) ==> s.candidate.risk <= top
    ensures top == 0.0 || exists s :: s in Ranked(ord, fetched, pool, overrides) && s.candidate.risk == top
    ensures forall s :: s in Ranked(ord, fetched, pool, overrides) <==>
      && (Fetched(s.candidate, fetched, overrides) || Added(s.candidate, fetched, pool, overrides))
      && s.score == s.candidate.risk + Bump(overrides, s.candidate.id)
                    + if ForceInclude(s.candidate.id) in overrides then 1000.0 + top else 0.0
  {
    var candidates, ranked := Candidates(fetched, pool, overrides), Ranked(ord, fetched, pool, overrides);
    top := MaxRisk(candidates);
    forall s ensures s in ranked <==>
      s.candidate in candidates && s.score == Score(s.candidate, overrides, top + 1000.0)
    {
      RankedCandidate(ord, candidates, overrides, s);
    }
    if top != 0.0 {
      var c :| c in candidates && c.risk == top;
      assert Scored(c, Score(c, overrides, top + 1000.0)) in ranked;
    }
    forall c ensures c in candidates <==> Fetched(c, fetched, overrides) || Added(c, fetched, pool, overrides) {
      CandidateIff(fetched, pool, overrides, c);
    }
    forall s: Scored ensures s.candidate.id in Included(overrides) <==> ForceInclude(s.candidate.id) in overrides {
      ExcludedIff(overrides, s.candidate.id);
    }
  }

  /** Every bump of a stop counts, and nothing else does. */
  lemma BumpsAddUp(overrides: seq<Override>, o: Override, id: StopId)
    ensures Bump([], id) == 0.0
    ensures Bump(overrides + [o], id) == Bump(overrides, id) + if o.PriorityBump? && o.id == id then o.value else 0.0
    ensures Bump([o] + overrides, id) == Bump(overrides + [o], id)
  {
    assert [o][..0] == [];
    BumpConcat(overrides, [o], id);
    BumpConcat([o], overrides, id);
  }

  // -- The order -------------------------------------------------------------------------------------

  /** The higher score wins, then the higher hotspot weight, then the higher urgency, then the smaller id. */
  predicate Beats(ord: IdOrder, s: Scored, t: Scored) {
    var a, b := s.candidate, t.candidate;
    || s.score > t.score
    || (s.score == t.score && a.hotspot > b.hotspot)
    || (s.score == t.score && a.hotspot == b.hotspot && a.urgency > b.urgency)
    || (s.score == t.score && a.hotspot == b.hotspot && a.urgency == b.urgency && a.id != b.id && ord(a.id, b.id))
  }

  function Members<T>(s: seq<T>): set<T> {
    set x | x in s
  }

  lemma {:induction false} DistinctSize<T>(s: seq<T>)
    requires forall i, j :: 0 <= i < j < |s| ==> s[i] != s[j]
    ensures |Members(s)| == |s|
  {
    if s != [] {
      DistinctSize(s[1..]);
      assert s[0] !in s[1..] && s == [s[0]] + s[1..];
      assert Members(s) == {s[0]} + Members(s[1..]);
    }
  }

  /** Each stop is ranked once. */
  lemma RankedOnce(ord: IdOrder, fetched: seq<Candidate>, pool: seq<Candidate>, overrides: seq<Override>, i: nat, j: nat)
    requires DistinctIds(fetched) && DistinctIds(pool) && i < j < |Ranked(ord, fetched, pool, overrides)|
    ensures Ranked(ord, fetched, pool, overrides)[i].candidate.id != Ranked(ord, fetched, pool, overrides)[j].candidate.id
  {
    var candidates := Candidates(fetched, pool, overrides);
    var scored := Map(candidates, Scorer(overrides, Bonus(candidates)));
    CandidatesAreDistinct(fetched, pool, overrides);
    SortPermutes(scored, Rank(ord));
    SameIdsTwice(scored, Ranked(ord, fetched, pool, overrides), i, j);
  }

  lemma SameIdsTwice(s: seq<Scored>, r: seq<Scored>, i: nat, j: nat)
    requires multiset(s) == multiset(r) && i < j < |r|
    requires forall a, b :: 0 <= a < b < |s| ==> s[a].candidate.id != s[b].candidate.id
    ensures r[i].candidate.id != r[j].candidate.id
  {
    assert r[i] in multiset(r) && r[j] in multiset(r);
    if r[i] == r[j] {
      TwiceMeansTwo(r, i, j);
      DistinctMeansOne(s, r[i]);
    }
  }

  /** A stop stands before another one exactly when it beats it. */
  lemma RankedInOrder(ord: IdOrder, fetched: seq<Candidate>, pool: seq<Candidate>, overrides: seq<Override>, i: nat, j: nat)
    requires OrdersIds(ord) && DistinctIds(fetched) && DistinctIds(pool) && i < j < |Ranked(ord, fetched, pool, overrides)|
    ensures var ranked := Ranked(ord, fetched, pool, overrides);
      Beats(ord, ranked[i], ranked[j]) && !Beats(ord, ranked[j], ranked[i])
  {
    var candidates := Candidates(fetched, pool, overrides);
    RankedOnce(ord, fetched, pool, overrides, i, j);
    RankIsTotal(ord);
    SortSorts(Map(candidates, Scorer(overrides, Bonus(candidates))), Rank(ord));
    assert Rank(ord)(Ranked(ord, fetched, pool, overrides)[i], Ranked(ord, fetched, pool, overrides)[j]);
  }

  lemma CountOfPrefix<T(!new)>(s: seq<T>, part: set<T>, i: nat)
    requires i < |s| && forall a, b :: 0 <= a < b < |s| ==> s[a] != s[b]
    requires forall x :: x in part ==> x in s
    requires forall k :: 0 <= k < |s| ==> (s[k] in part <==> k < i)
    ensures |part| == i
  {
    forall x | x in part ensures x in s[..i] {
      var k :| 0 <= k < |s| && s[k] == x;
      assert s[..i][k] == x;
    }
    DistinctSize(s[..i]);
    assert part == Members(s[..i]);
  }

  lemma AheadIff(ord: IdOrder, fetched: seq<Candidate>, pool: seq<Candidate>, overrides: seq<Override>, k: nat, i: nat)
    requires OrdersIds(ord) && DistinctIds(fetched) && DistinctIds(pool)
    requires k < |Ranked(ord, fetched, pool, overrides)| && i < |Ranked(ord, fetched, pool, overrides)|
    ensures var ranked := Ranked(ord, fetched, pool, overrides); Beats(ord, ranked[k], ranked[i]) <==> k < i
  {
    if k < i {
      RankedInOrder(ord, fetched, pool, overrides, k, i);
    } else if k > i {
      RankedInOrder(ord, fetched, pool, overrides, i, k);
    }
  }

  /** As many stops beat a stop as stand before it. */
  lemma AheadCount(ord: IdOrder, fetched: seq<Candidate>, pool: seq<Candidate>, overrides: seq<Override>, i: nat)
    requires OrdersIds(ord) && DistinctIds(fetched) && DistinctIds(pool) && i < |Ranked(ord, fetched, pool, overrides)|
    ensures var ranked := Ranked(ord, fetched, pool, overrides);
      |set s | s in ranked && Beats(ord, s, ranked[i])| == i
  {
    var ranked := Ranked(ord, fetched, pool, overrides);
    var ahead := set s | s in ranked && Beats(ord, s, ranked[i]);
    forall k | 0 <= k < |ranked| ensures ranked[k] in ahead <==> k < i {
      AheadIff(ord, fetched, pool, overrides, k, i);
    }
    forall a, b | 0 <= a < b < |ranked| ensures ranked[a] != ranked[b] {
      RankedOnce(ord, fetched, pool, overrides, a, b);
    }
    CountOfPrefix(ranked, ahead, i);
  }

  // -- How many are taken ----------------------------------------------------------------------------

  /** The selection lists the ids and places of the ranked stops, from the first on, up to the limit. */
  lemma SelectionIs(ord: IdOrder, fetched: seq<Candidate>, pool: seq<Candidate>, overrides: seq<Override>, limit: nat)
    ensures var ranked, selected := Ranked(ord, fetched, pool, overrides), Selection(ord, fetched, pool, overrides, limit);
      && |selected| == (if limit <= |ranked| then limit else |ranked|)
      && forall k :: 0 <= k < |selected| ==>
           selected[k].id == ranked[k].candidate.id && selected[k].place == ranked[k].candidate.place
  {
  }

  /** A ranked stop is left out exactly when at least `limit` stops beat it. */
  lemma LeftOutIff(ord: IdOrder, fetched: seq<Candidate>, pool: seq<Candidate>, overrides: seq<Override>, limit: nat, t: Scored)
    requires OrdersIds(ord) && DistinctIds(fetched) && DistinctIds(pool) && t in Ranked(ord, fetched, pool, overrides)
    ensures (forall x :: x in Selection(ord, fetched, pool, overrides, limit) ==> x.id != t.candidate.id)
      <==> |set s | s in Ranked(ord, fetched, pool, overrides) && Beats(ord, s, t)| >= limit
  {
    var ranked, selected := Ranked(ord, fetched, pool, overrides), Selection(ord, fetched, pool, overrides, limit);
    var i :| 0 <= i < |ranked| && ranked[i] == t;
    AheadCount(ord, fetched, pool, overrides, i);
    SelectionIs(ord, fetched, pool, overrides, limit);
    if i < limit {
      assert selected[i] in selected && selected[i].id == t.candidate.id;
    } else {
      forall k | 0 <= k < |selected| ensures selected[k].id != t.candidate.id {
        RankedOnce(ord, fetched, pool, overrides, k, i);
      }
    }
  }

  // -- The prefetch ------------------------------------------------------------------------------------

  /** When the database answers with the 200 rows of highest risk, overrides only exclude, and no more than
      200 stops are excluded or wanted, the scores taken are those that the whole pool would have given. */
  lemma PrefetchOf200(ord: IdOrder, fetched: seq<Candidate>, rest: seq<Candidate>, pool: seq<Candidate>,
                      overrides: seq<Override>, limit: nat)
    requires OrdersIds(ord) && DistinctIds(pool) && multiset(fetched + rest) == multiset(pool)
    requires |fetched| == (if |pool| <= 200 then |pool| else 200)
    requires forall f, r :: f in fetched && r in rest ==> r.risk <= f.risk
    requires forall o :: o in overrides ==> !o.ForceInclude? && !o.PriorityBump?
    requires |Excluded(overrides)| + limit <= 200
    ensures var some, all := Ranked(ord, fetched, pool, overrides), Ranked(ord, pool, pool, overrides);
      forall k :: 0 <= k < limit ==> (k < |some| <==> k < |all|) && (k < |some| ==> some[k].score == all[k].score)
  {
    PrefetchSelectsTheSameScores(ord, fetched, rest, pool, overrides, limit);
    EqualSlices(Ranked(ord, fetched, pool, overrides), Ranked(ord, pool, pool, overrides), limit);
  }

  lemma EqualSlices(some: seq<Scored>, all: seq<Scored>, limit: nat)
    requires Map(Slice(some, limit), ScoreOf) == Map(Slice(all, limit), ScoreOf)
    ensures forall k :: 0 <= k < limit ==> (k < |some| <==> k < |all|) && (k < |some| ==> some[k].score == all[k].score)
  {
    var x, y := Map(Slice(some, limit), ScoreOf), Map(Slice(all, limit), ScoreOf);
    assert |x| == |y|;
    forall k | 0 <= k < |x| ensures some[k].score == all[k].score {
      assert x[k] == some[k].score && y[k] == all[k].score;
    }
  }
}
