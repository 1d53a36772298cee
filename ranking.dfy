/**
 * Ranking the per-state table by average, highest first or lowest first,
 * and keeping the first rows of the ranked list.
 *
 * Equal averages may come out in any order: the program sorts with an
 * unstable sort, so the model fixes nothing about ties and the contracts
 * speak of order by average only.
 */
module Ranking {
  import opened StateGroups

  /** `a` may stand before `b` in a list ranked highest first (`descending`)
      or lowest first. */
  predicate Precedes(a: StateAverage, b: StateAverage, descending: bool)
  {
    if descending then a.avgCases >= b.avgCases else a.avgCases <= b.avgCases
  }

  /** Every entry may stand before every later one. */
  predicate Ranked(s: seq<StateAverage>, descending: bool)
  {
    forall i, j :: 0 <= i < j < |s| ==> Precedes(s[i], s[j], descending)
  }

  /** Puts `x` into a ranked list before the first entry it may precede. */
  function Insert(x: StateAverage, s: seq<StateAverage>, descending: bool): (r: seq<StateAverage>)
    requires Ranked(s, descending)
    ensures multiset(r) == multiset(s) + multiset{x}
    ensures Ranked(r, descending)
  {
    if s == [] then [x]
    else if Precedes(x, s[0], descending) then
      PrependRanked(x, s, descending);
      [x] + s
    else
      var tail := Insert(x, s[1..], descending);
      assert s == [s[0]] + s[1..];
      FirstPrecedesInserted(x, s, tail, descending);
      PrependRanked(s[0], tail, descending);
      [s[0]] + tail
  }

  /** An entry that may precede every entry of a ranked list heads a ranked list. */
  lemma PrependRanked(a: StateAverage, t: seq<StateAverage>, descending: bool)
    requires Ranked(t, descending)
    requires forall y :: y in t ==> Precedes(a, y, descending)
    ensures Ranked([a] + t, descending)
  {
    var u := [a] + t;
    forall i, j | 0 <= i < j < |u| ensures Precedes(u[i], u[j], descending) {
      assert u[j] == t[j - 1];
      if i > 0 {
        assert u[i] == t[i - 1];
      }
    }
  }

  /** When `x` may not precede the head of a ranked list, the head may
      precede everything the rest becomes once `x` is put into it. */
  lemma FirstPrecedesInserted(x: StateAverage, s: seq<StateAverage>, tail: seq<StateAverage>, descending: bool)
    requires s != [] && Ranked(s, descending) && !Precedes(x, s[0], descending)
    requires multiset(tail) == multiset(s[1..]) + multiset{x}
    ensures forall y :: y in tail ==> Precedes(s[0], y, descending)
  {
    forall y | y in tail ensures Precedes(s[0], y, descending) {
      assert y in multiset(tail);
      if y != x {
        assert y in multiset(s[1..]);
        var j :| 0 <= j < |s[1..]| && s[1..][j] == y;
        assert s[j + 1] == y;
      }
    }
  }

  /** The entries of `s` ranked in the given direction. */
  function Sort(s: seq<StateAverage>, descending: bool): (r: seq<StateAverage>)
    ensures multiset(r) == multiset(s)
    ensures Ranked(r, descending)
  {
    if s == [] then []
    else
      assert s == [s[0]] + s[1..];
      Insert(s[0], Sort(s[1..], descending), descending)
  }

  function Min(a: int, b: int): int
  {
    if a <= b then a else b
  }

  /** How many rows a table's `head(k)` keeps out of `len`: the first `k`,
      or, for a negative `k`, all but the last `-k`. */
  function HeadLength(len: nat, k: int): (h: nat)
    ensures h <= len
    ensures 0 <= k <= len ==> h == k
    ensures k > len ==> h == len
    ensures k < 0 ==> h == len - Min(-k, len)
  {
    if k >= 0 then Min(k, len)
    else if len + k >= 0 then len + k
    else 0
  }

  /** The first `k` entries of the per-state table `g` ranked in the given
      direction: as many as asked for or as there are; ranked; taken from
      `g`; and no entry left out ranks before a kept one. */
  function Rank(g: seq<StateAverage>, k: int, descending: bool): (r: seq<StateAverage>)
    ensures |r| == HeadLength(|g|, k)
    ensures Ranked(r, descending)
    ensures multiset(r) <= multiset(g)
    ensures forall x, y :: x in g && x !in r && y in r ==> Precedes(y, x, descending)
  {
    var ranked := Sort(g, descending);
    var m := HeadLength(|g|, k);
    assert |ranked| == |multiset(ranked)| == |multiset(g)| == |g|;
    PrefixOfRanked(ranked, m, descending);
    PrefixOutranksRest(ranked, g, m, descending);
    ranked[..m]
  }

  /** A prefix of a ranked list is ranked and is part of the list. */
  lemma PrefixOfRanked(s: seq<StateAverage>, m: nat, descending: bool)
    requires Ranked(s, descending) && m <= |s|
    ensures Ranked(s[..m], descending)
    ensures multiset(s[..m]) <= multiset(s)
  {
    assert s == s[..m] + s[m..];
  }

  /** Whatever a ranked arrangement of `g` leaves out of its first `m`
      entries may not precede an entry it keeps. */
  lemma PrefixOutranksRest(ranked: seq<StateAverage>, g: seq<StateAverage>, m: nat, descending: bool)
    requires Ranked(ranked, descending) && multiset(ranked) == multiset(g) && m <= |ranked|
    ensures forall x, y :: x in g && x !in ranked[..m] && y in ranked[..m] ==> Precedes(y, x, descending)
  {
    var r := ranked[..m];
    forall x, y | x in g && x !in r && y in r ensures Precedes(y, x, descending) {
      assert x in multiset(ranked);
      var j :| 0 <= j < |ranked| && ranked[j] == x;
      var i :| 0 <= i < |r| && r[i] == y;
      assert ranked[i] == y;
    }
  }
}
