/** Searching, filtering and stable sorting of sequences.

    `Array.prototype.sort` is a stable sort: `StableSort` is a reference definition, and
    `StableSortIsUnique` shows that every stable sort returns the same sequence. */
module Sequences {
  import opened Wrappers

  /** `Array.prototype.findIndex`: the first position that satisfies `found`. */
  function FindIndex<T>(s: seq<T>, found: T -> bool): (r: Option<nat>)
    ensures r.Some? ==> r.value < |s| && found(s[r.value]) && forall j :: 0 <= j < r.value ==> !found(s[j])
    ensures r.None? ==> forall j :: 0 <= j < |s| ==> !found(s[j])
  {
    if s == [] then None
    else if found(s[0]) then Some(0)
    else
      match FindIndex(s[1..], found)
      case None => None
      case Some(k) => Some(k + 1)
  }

  lemma ConcatAssociates<T>(a: seq<T>, b: seq<T>, c: seq<T>)
    ensures a + b + c == a + (b + c)
  {
  }

  lemma Halves<T>(s: seq<T>, i: int)
    requires 0 <= i <= |s|
    ensures s == s[..i] + s[i..]
  {
  }

  lemma Thirds<T>(s: seq<T>, i: int, j: int)
    requires 0 <= i <= j <= |s|
    ensures s == s[..i] + s[i..j] + s[j..]
  {
  }

  lemma SliceOfRest<T>(s: seq<T>, n: int, i: int, j: int)
    requires 0 <= n <= |s| && 0 <= i <= j <= |s| - n
    ensures s[n..][i..j] == s[n + i..n + j]
  {
  }

  function Filter<T>(s: seq<T>, keep: T -> bool): (r: seq<T>)
    ensures |r| <= |s|
  {
    if s == [] then []
    else if keep(s[0]) then [s[0]] + Filter(s[1..], keep)
    else Filter(s[1..], keep)
  }

  lemma {:induction false} FilterMembers<T(!new)>(s: seq<T>, keep: T -> bool)
    ensures forall x :: x in Filter(s, keep) <==> x in s && keep(x)
  {
    if s != [] {
      FilterMembers(s[1..], keep);
    }
  }

  lemma {:induction false} FilterConcat<T>(s: seq<T>, t: seq<T>, keep: T -> bool)
    ensures Filter(s + t, keep) == Filter(s, keep) + Filter(t, keep)
  {
    if s == [] {
      assert s + t == t;
    } else {
      assert (s + t)[1..] == s[1..] + t;
      FilterConcat(s[1..], t, keep);
    }
  }

  lemma {:induction false} FilterCounts<T>(s: seq<T>, keep: T -> bool, x: T)
    ensures multiset(Filter(s, keep))[x] == if keep(x) then multiset(s)[x] else 0
  {
    if s != [] {
      FilterCounts(s[1..], keep, x);
      assert s == [s[0]] + s[1..];
    }
  }

  /** Filtering carries permutations to permutations. */
  lemma FilterPermutes<T(!new)>(s: seq<T>, t: seq<T>, keep: T -> bool)
    requires multiset(s) == multiset(t)
    ensures multiset(Filter(s, keep)) == multiset(Filter(t, keep))
  {
    forall x ensures multiset(Filter(s, keep))[x] == multiset(Filter(t, keep))[x] {
      FilterCounts(s, keep, x);
      FilterCounts(t, keep, x);
    }
  }

  lemma FilterConcat3<T>(a: seq<T>, b: seq<T>, c: seq<T>, keep: T -> bool)
    ensures Filter(a + b + c, keep) == Filter(a, keep) + Filter(b, keep) + Filter(c, keep)
  {
    FilterConcat(a + b, c, keep);
    FilterConcat(a, b, keep);
  }

  lemma {:induction false} FilterAll<T(!new)>(s: seq<T>, keep: T -> bool)
    requires forall x :: x in s ==> keep(x)
    ensures Filter(s, keep) == s
  {
    if s != [] {
      FilterAll(s[1..], keep);
    }
  }

  lemma {:induction false} FilterNone<T(!new)>(s: seq<T>, keep: T -> bool)
    requires forall x :: x in s ==> !keep(x)
    ensures Filter(s, keep) == []
  {
    if s != [] {
      FilterNone(s[1..], keep);
    }
  }

  /** `Array.prototype.map`. */
  function Map<T, U>(s: seq<T>, f: T -> U): (r: seq<U>)
    ensures |r| == |s| && forall i :: 0 <= i < |s| ==> r[i] == f(s[i])
  {
    if s == [] then [] else [f(s[0])] + Map(s[1..], f)
  }

  lemma {:induction false} MapConcat<T, U>(s: seq<T>, t: seq<T>, f: T -> U)
    ensures Map(s + t, f) == Map(s, f) + Map(t, f)
  {
  }

  lemma {:induction false} MapCounts<T, U(!new)>(s: seq<T>, f: T -> U, y: U)
    ensures multiset(Map(s, f))[y] == |Filter(s, (x: T) => f(x) == y)|
  {
    if s != [] {
      MapCounts(s[1..], f, y);
      assert Map(s, f) == [f(s[0])] + Map(s[1..], f);
    }
  }

  /** Mapping carries permutations to permutations. */
  lemma MapPermutes<T(!new), U(!new)>(s: seq<T>, t: seq<T>, f: T -> U)
    requires multiset(s) == multiset(t)
    ensures multiset(Map(s, f)) == multiset(Map(t, f))
  {
    forall y ensures multiset(Map(s, f))[y] == multiset(Map(t, f))[y] {
      MapCounts(s, f, y);
      MapCounts(t, f, y);
      FilterPermutes(s, t, (x: T) => f(x) == y);
      assert |multiset(Filter(s, (x: T) => f(x) == y))| == |multiset(Filter(t, (x: T) => f(x) == y))|;
    }
  }

  function Without<T>(s: seq<T>, k: nat): seq<T>
    requires k < |s|
  {
    s[..k] + s[k + 1..]
  }

  lemma WithoutLosesOne<T(!new)>(s: seq<T>, k: nat)
    requires k < |s|
    ensures multiset(Without(s, k)) == multiset(s) - multiset{s[k]}
  {
    assert s == s[..k] + [s[k]] + s[k + 1..];
  }

  lemma TwiceMeansTwo<T(!new)>(s: seq<T>, i: int, j: int)
    requires 0 <= i < j < |s| && s[i] == s[j]
    ensures multiset(s)[s[i]] >= 2
  {
    assert s == s[..i] + [s[i]] + s[i + 1..j] + [s[j]] + s[j + 1..];
  }

  lemma {:induction false} DistinctMeansOne<T(!new)>(s: seq<T>, x: T)
    requires forall i, j :: 0 <= i < j < |s| ==> s[i] != s[j]
    ensures multiset(s)[x] <= 1
  {
    if s != [] {
      DistinctMeansOne(s[1..], x);
      assert s == [s[0]] + s[1..];
      if x == s[0] {
        assert x !in s[1..];
      }
    }
  }

  // -- Total preorders and stable sorting ------------------------------------------------------

  ghost predicate TotalPreorder<T(!new)>(le: (T, T) -> bool) {
    && (forall x, y :: le(x, y) || le(y, x))
    && (forall x, y, z :: le(x, y) && le(y, z) ==> le(x, z))
  }

  ghost predicate Sorted<T>(s: seq<T>, le: (T, T) -> bool) {
    forall i, j :: 0 <= i < j < |s| ==> le(s[i], s[j])
  }

  /** Inserts `x` before the first element it may precede, so `x` stays ahead of its equals. */
  function Insert<T>(x: T, s: seq<T>, le: (T, T) -> bool): (r: seq<T>)
    ensures |r| == |s| + 1
  {
    if s == [] || le(x, s[0]) then [x] + s else [s[0]] + Insert(x, s[1..], le)
  }

  function StableSort<T>(s: seq<T>, le: (T, T) -> bool): (r: seq<T>)
    ensures |r| == |s|
  {
    if s == [] then [] else Insert(s[0], StableSort(s[1..], le), le)
  }

  lemma {:induction false} InsertPermutes<T(!new)>(x: T, s: seq<T>, le: (T, T) -> bool)
    ensures multiset(Insert(x, s, le)) == multiset{x} + multiset(s)
  {
    if s != [] && !le(x, s[0]) {
      InsertPermutes(x, s[1..], le);
      assert s == [s[0]] + s[1..];
    }
  }

  lemma {:induction false} SortPermutes<T(!new)>(s: seq<T>, le: (T, T) -> bool)
    ensures multiset(StableSort(s, le)) == multiset(s)
    ensures forall x :: x in StableSort(s, le) <==> x in s
  {
    if s != [] {
      SortPermutes(s[1..], le);
      InsertPermutes(s[0], StableSort(s[1..], le), le);
      assert s == [s[0]] + s[1..];
    }
    assert forall x :: x in StableSort(s, le) <==> x in multiset(StableSort(s, le));
    assert forall x :: x in s <==> x in multiset(s);
  }

  lemma {:induction false} InsertSorts<T(!new)>(x: T, s: seq<T>, le: (T, T) -> bool)
    requires TotalPreorder(le) && Sorted(s, le)
    ensures Sorted(Insert(x, s, le), le)
  {
    if s != [] && !le(x, s[0]) {
      InsertSorts(x, s[1..], le);
      InsertPermutes(x, s[1..], le);
      var t := Insert(x, s[1..], le);
      forall y | y in t ensures le(s[0], y) {
        assert y in multiset(t);
        assert y == x || y in s[1..];
      }
    }
  }

  lemma {:induction false} SortSorts<T(!new)>(s: seq<T>, le: (T, T) -> bool)
    requires TotalPreorder(le)
    ensures Sorted(StableSort(s, le), le)
  {
    if s != [] {
      SortSorts(s[1..], le);
      InsertSorts(s[0], StableSort(s[1..], le), le);
    }
  }

  /** Sorting leaves a sorted sequence exactly as it is. */
  lemma {:induction false} SortOfSorted<T(!new)>(s: seq<T>, le: (T, T) -> bool)
    requires Sorted(s, le)
    ensures StableSort(s, le) == s
  {
    if s != [] {
      SortOfSorted(s[1..], le);
    }
  }

  lemma {:induction false} InsertFilter<T(!new)>(x: T, s: seq<T>, le: (T, T) -> bool, keep: T -> bool)
    requires TotalPreorder(le) && Sorted(s, le)
    ensures Filter(Insert(x, s, le), keep)
         == if keep(x) then Insert(x, Filter(s, keep), le) else Filter(s, keep)
  {
    if s == [] {
    } else if le(x, s[0]) {
      var f := Filter(s, keep);
      assert ([x] + s)[1..] == s;
      FilterMembers(s, keep);
      if f != [] {
        assert f[0] in s;
      }
    } else {
      InsertFilter(x, s[1..], le, keep);
      assert Insert(x, s, le)[1..] == Insert(x, s[1..], le);
      if keep(s[0]) {
        assert ([s[0]] + Filter(s[1..], keep))[1..] == Filter(s[1..], keep);
      }
    }
  }

  /** Stability in its strongest form: sorting commutes with taking any subsequence. */
  lemma {:induction false} SortCommutesWithFilter<T(!new)>(s: seq<T>, le: (T, T) -> bool, keep: T -> bool)
    requires TotalPreorder(le)
    ensures Filter(StableSort(s, le), keep) == StableSort(Filter(s, keep), le)
  {
    if s != [] {
      SortCommutesWithFilter(s[1..], le, keep);
      SortSorts(s[1..], le);
      InsertFilter(s[0], StableSort(s[1..], le), le, keep);
      if keep(s[0]) {
        assert ([s[0]] + Filter(s[1..], keep))[1..] == Filter(s[1..], keep);
      }
    }
  }

  /** The elements that `le` cannot tell apart from `x`. */
  /** Elements that tie with one another keep their order. */
  lemma SortKeepsTies<T(!new)>(s: seq<T>, le: (T, T) -> bool, tied: T -> bool)
    requires TotalPreorder(le) && forall x, y :: tied(x) && tied(y) ==> le(x, y)
    ensures Filter(StableSort(s, le), tied) == Filter(s, tied)
  {
    var f := Filter(s, tied);
    SortCommutesWithFilter(s, le, tied);
    FilterMembers(s, tied);
    forall i, j | 0 <= i < j < |f| ensures le(f[i], f[j]) {
      assert f[i] in f && f[j] in f;
    }
    SortOfSorted(f, le);
  }

  function EquivalentTo<T>(le: (T, T) -> bool, x: T): T -> bool {
    y => le(x, y) && le(y, x)
  }

  /** Two sorted sequences that agree on every class of equivalent elements are equal. */
  lemma {:induction false} SortedSequencesAgree<T(!new)>(s: seq<T>, t: seq<T>, le: (T, T) -> bool)
    requires TotalPreorder(le) && Sorted(s, le) && Sorted(t, le)
    requires forall x :: Filter(s, EquivalentTo(le, x)) == Filter(t, EquivalentTo(le, x))
    ensures s == t
  {
    if s == [] {
      if t != [] {
        assert false;
      }
    } else {
      var class0 := EquivalentTo(le, s[0]);
      FilterMembers(s, class0);
      FilterMembers(t, class0);
      assert s[0] in Filter(s, class0);
      assert Filter(t, class0) == Filter(s, class0);
      assert s[0] in t;
      var class1 := EquivalentTo(le, t[0]);
      FilterMembers(s, class1);
      FilterMembers(t, class1);
      assert t[0] in Filter(t, class1);
      assert t[0] in s;
      assert le(s[0], t[0]) && le(t[0], s[0]);
      assert class0(t[0]);
      assert s[0] == Filter(s, class0)[0] == Filter(t, class0)[0] == t[0];
      forall x ensures Filter(s[1..], EquivalentTo(le, x)) == Filter(t[1..], EquivalentTo(le, x)) {
        assert Filter(s, EquivalentTo(le, x)) == Filter(t, EquivalentTo(le, x));
        if EquivalentTo(le, x)(s[0]) {
          assert Filter(s, EquivalentTo(le, x))[1..] == Filter(s[1..], EquivalentTo(le, x));
          assert Filter(t, EquivalentTo(le, x))[1..] == Filter(t[1..], EquivalentTo(le, x));
        }
      }
      SortedSequencesAgree(s[1..], t[1..], le);
      assert s == [s[0]] + s[1..] && t == [t[0]] + t[1..];
    }
  }

  /** Every stable sort computes `StableSort`: if `t` is sorted and keeps the order of equivalent
      elements of `s`, then `t` is `StableSort(s)`. */
  lemma StableSortIsUnique<T(!new)>(s: seq<T>, t: seq<T>, le: (T, T) -> bool)
    requires TotalPreorder(le)
    requires Sorted(t, le)
    requires forall x :: Filter(t, EquivalentTo(le, x)) == Filter(s, EquivalentTo(le, x))
    ensures t == StableSort(s, le)
  {
    SortSorts(s, le);
    forall x ensures Filter(t, EquivalentTo(le, x)) == Filter(StableSort(s, le), EquivalentTo(le, x)) {
      SortKeepsTies(s, le, EquivalentTo(le, x));
    }
    SortedSequencesAgree(t, StableSort(s, le), le);
  }

  lemma TailLosesFirst<T(!new)>(s: seq<T>)
    requires s != []
    ensures multiset(s[1..]) == multiset(s) - multiset{s[0]}
  {
    assert s == [s[0]] + s[1..];
  }

  lemma FirstsAgree<T(!new)>(s: seq<T>, t: seq<T>, le: (T, T) -> bool)
    requires s != [] && t != [] && Sorted(s, le) && Sorted(t, le) && multiset(s) == multiset(t)
    requires forall x, y :: x in s && y in s && le(x, y) && le(y, x) ==> x == y
    ensures s[0] == t[0]
  {
    assert t[0] in multiset(t) && s[0] in multiset(s);
    assert t[0] in s && s[0] in t;
    var i :| 0 <= i < |s| && s[i] == t[0];
    var j :| 0 <= j < |t| && t[j] == s[0];
    assert i > 0 ==> le(s[0], s[i]);
    assert j > 0 ==> le(t[0], t[j]);
  }

  /** When only equal elements are equivalent, a sorted permutation is unique. */
  lemma {:induction false} SortedPermutationIsUnique<T(!new)>(s: seq<T>, t: seq<T>, le: (T, T) -> bool)
    requires Sorted(s, le) && Sorted(t, le) && multiset(s) == multiset(t)
    requires forall x, y :: x in s && y in s && le(x, y) && le(y, x) ==> x == y
    ensures s == t
  {
    assert |multiset(s)| == |multiset(t)|;
    if s != [] {
      FirstsAgree(s, t, le);
      TailLosesFirst(s);
      TailLosesFirst(t);
      SortedPermutationIsUnique(s[1..], t[1..], le);
      assert s == [s[0]] + s[1..] && t == [t[0]] + t[1..];
    }
  }

  /** When only equal elements are equivalent, sorting does not depend on the order of its input. */
  lemma SortIgnoresOrder<T(!new)>(s: seq<T>, t: seq<T>, le: (T, T) -> bool)
    requires TotalPreorder(le) && multiset(s) == multiset(t)
    requires forall x, y :: x in s && y in s && le(x, y) && le(y, x) ==> x == y
    ensures StableSort(s, le) == StableSort(t, le)
  {
    SortSorts(s, le);
    SortSorts(t, le);
    SortPermutes(s, le);
    SortPermutes(t, le);
    SortedPermutationIsUnique(StableSort(s, le), StableSort(t, le), le);
  }
}
