/** Route stops and the corridor (normalized street, normalized bearing) each one lies on. */
module Stops {
  import opened Wrappers

  datatype Stop = Stop(
    lon: real,
    lat: real,
    id: Option<string>,
    street: Option<string>,
    bearing: Option<string>)

  datatype Corridor = Corridor(street: string, bearing: string)

  predicate IsSpace(c: char) {
    c == ' ' || c == '\t' || c == '\n' || c == '\r'
  }

  function TrimLeft(s: string): string {
    if s != [] && IsSpace(s[0]) then TrimLeft(s[1..]) else s
  }

  function TrimRight(s: string): string {
    if s != [] && IsSpace(s[|s| - 1]) then TrimRight(s[..|s| - 1]) else s
  }

  function Upper(s: string): string {
    seq(|s|, i requires 0 <= i < |s| =>
      if 'a' <= s[i] <= 'z' then ((s[i] as int) - 32) as char else s[i])
  }

  function Normalize(s: Option<string>): string {
    Upper(TrimRight(TrimLeft(s.GetOr(""))))
  }

  // -- What normalization ignores --------------------------------------------------------------------

  predicate AllSpace(s: string) {
    forall i :: 0 <= i < |s| ==> IsSpace(s[i])
  }

  lemma {:induction false} TrimLeftDrops(pre: string, s: string)
    requires AllSpace(pre)
    ensures TrimLeft(pre + s) == TrimLeft(s)
  {
    if pre == [] {
      assert pre + s == s;
    } else {
      assert (pre + s)[1..] == pre[1..] + s;
      TrimLeftDrops(pre[1..], s);
    }
  }

  lemma {:induction false} TrimRightDrops(s: string, post: string)
    requires AllSpace(post)
    ensures TrimRight(s + post) == TrimRight(s)
    decreases |post|
  {
    if post == [] {
      assert s + post == s;
    } else {
      assert (s + post)[..|s + post| - 1] == s + post[..|post| - 1];
      TrimRightDrops(s, post[..|post| - 1]);
    }
  }

  /** Trimming on the left of a text with trailing spaces leaves spaces only on the right. */
  lemma {:induction false} TrimLeftOfPadded(s: string, post: string)
    requires AllSpace(post)
    ensures TrimRight(TrimLeft(s + post)) == TrimRight(TrimLeft(s))
  {
    if s == [] {
      assert s + post == post + [];
      TrimLeftDrops(post, []);
    } else if IsSpace(s[0]) {
      assert (s + post)[1..] == s[1..] + post;
      TrimLeftOfPadded(s[1..], post);
    } else {
      TrimRightDrops(s, post);
    }
  }

  lemma {:induction false} UpperTrimsLeft(s: string)
    ensures Upper(TrimLeft(s)) == TrimLeft(Upper(s))
  {
    if s != [] && IsSpace(s[0]) {
      assert Upper(s)[1..] == Upper(s[1..]);
      UpperTrimsLeft(s[1..]);
    }
  }

  lemma {:induction false} UpperTrimsRight(s: string)
    ensures Upper(TrimRight(s)) == TrimRight(Upper(s))
    decreases |s|
  {
    if s != [] && IsSpace(s[|s| - 1]) {
      assert Upper(s)[..|s| - 1] == Upper(s[..|s| - 1]);
      UpperTrimsRight(s[..|s| - 1]);
    }
  }

  /** Street names that differ only in letter case and in surrounding space are the same. */
  lemma NormalizeIgnoresCaseAndSpace(pre: string, s: string, post: string, spelled: string)
    requires AllSpace(pre) && AllSpace(post) && Upper(spelled) == Upper(s)
    ensures Normalize(Some(pre + spelled + post)) == Normalize(Some(s))
  {
    assert pre + spelled + post == pre + (spelled + post);
    TrimLeftDrops(pre, spelled + post);
    TrimLeftOfPadded(spelled, post);
    UpperTrimsRight(TrimLeft(spelled));
    UpperTrimsLeft(spelled);
    UpperTrimsRight(TrimLeft(s));
    UpperTrimsLeft(s);
  }

  function CorridorOf(s: Stop): Corridor {
    Corridor(Normalize(s.street), Normalize(s.bearing))
  }

  /** Corridors with an empty street or bearing are not corridors: their stops are never moved. */
  predicate Named(c: Corridor) {
    c.street != "" && c.bearing != ""
  }

  /** The passes look at a stop's corridor and nothing else, so they take the corridor of a stop as a function,
      and what is proved of them holds for every such function; the service uses `CorridorOf`. */
  type CorridorKey = Stop -> Corridor

  function On(key: CorridorKey, c: Corridor): Stop -> bool {
    s => key(s) == c
  }

  function Off(key: CorridorKey, c: Corridor): Stop -> bool {
    s => key(s) != c
  }
}
