/**
 * The case table: one row per (date, state) with the day's new cases,
 * and the row selections the analysis makes on it (the trailing window,
 * the rows up to the reference date, the rows of one state).
 *
 * Dates are day numbers, so "n - 1 days before the reference date" is
 * plain subtraction.
 */
module CaseData {

  /** One row of the table: its date, the state's name and `cases_new`. */
  datatype CaseRecord = CaseRecord(date: int, state: string, casesNew: int)

  /** The rows of `rs` that `keep` accepts, each as often as it occurs in `rs`. */
  function Filter(rs: seq<CaseRecord>, keep: CaseRecord -> bool): (kept: seq<CaseRecord>)
    ensures forall x {:trigger multiset(kept)[x]} :: multiset(kept)[x] == if keep(x) then multiset(rs)[x] else 0
    ensures |kept| <= |rs|
  {
    if rs == [] then []
    else
      assert rs == [rs[0]] + rs[1..];
      (if keep(rs[0]) then [rs[0]] else []) + Filter(rs[1..], keep)
  }

  /** The sum of `cases_new` over some rows (0 for no rows); at least 0
      when no count is negative. */
  function SumCases(rs: seq<CaseRecord>): (total: int)
    ensures NonNegative(rs) ==> total >= 0
  {
    if rs == [] then 0 else rs[0].casesNew + SumCases(rs[1..])
  }

  /** The program never checks that counts are non-negative; some lemmas assume it. */
  predicate NonNegative(rs: seq<CaseRecord>)
  {
    forall i :: 0 <= i < |rs| ==> rs[i].casesNew >= 0
  }

  /** Date `d` lies in the `n`-day window that ends on `ref`, both ends included. */
  predicate InWindow(d: int, ref: int, n: int)
  {
    ref - (n - 1) <= d <= ref
  }

  /** The rows dated in the `n` days ending on `ref`. */
  function Window(df: seq<CaseRecord>, ref: int, n: int): (w: seq<CaseRecord>)
    ensures forall x {:trigger multiset(w)[x]} :: multiset(w)[x] == if InWindow(x.date, ref, n) then multiset(df)[x] else 0
  {
    Filter(df, (r: CaseRecord) => InWindow(r.date, ref, n))
  }

  /** The rows dated on or before `ref`. */
  function UpToRef(df: seq<CaseRecord>, ref: int): (u: seq<CaseRecord>)
    ensures forall x {:trigger multiset(u)[x]} :: multiset(u)[x] == if x.date <= ref then multiset(df)[x] else 0
  {
    Filter(df, (r: CaseRecord) => r.date <= ref)
  }

  /** The rows dated after `ref`: what `UpToRef` leaves out. */
  function AfterRef(df: seq<CaseRecord>, ref: int): (a: seq<CaseRecord>)
    ensures forall x {:trigger multiset(a)[x]} :: multiset(a)[x] == if x.date > ref then multiset(df)[x] else 0
  {
    Filter(df, (r: CaseRecord) => r.date > ref)
  }

  /** A window of length n >= 1 holds the day n - 1 days before the reference
      date and the reference date itself, and neither neighbour outside them. */
  lemma WindowBounds(df: seq<CaseRecord>, ref: int, n: int, x: CaseRecord)
    requires n >= 1 && x in df
    ensures x.date == ref - (n - 1) ==> x in Window(df, ref, n)
    ensures x.date == ref ==> x in Window(df, ref, n)
    ensures x.date == ref - n ==> x !in Window(df, ref, n)
    ensures x.date == ref + 1 ==> x !in Window(df, ref, n)
  {
    var w := Window(df, ref, n);
    assert multiset(w)[x] == if InWindow(x.date, ref, n) then multiset(df)[x] else 0;
  }

  /** Filtering splits the sum: what is kept plus what is dropped is the whole. */
  lemma {:induction false} SumSplit(rs: seq<CaseRecord>, keep: CaseRecord -> bool, drop: CaseRecord -> bool)
    requires forall r :: drop(r) == !keep(r)
    ensures SumCases(rs) == SumCases(Filter(rs, keep)) + SumCases(Filter(rs, drop))
  {
    if rs != [] {
      SumSplit(rs[1..], keep, drop);
      var k := if keep(rs[0]) then [rs[0]] else [];
      var d := if drop(rs[0]) then [rs[0]] else [];
      SumAppend(k, Filter(rs[1..], keep));
      SumAppend(d, Filter(rs[1..], drop));
    }
  }

  lemma {:induction false} SumAppend(a: seq<CaseRecord>, b: seq<CaseRecord>)
    ensures SumCases(a + b) == SumCases(a) + SumCases(b)
  {
    if a == [] {
      assert a + b == b;
    } else {
      assert (a + b)[1..] == a[1..] + b;
      SumAppend(a[1..], b);
    }
  }

  /** With non-negative counts, a selection that keeps fewer rows sums to less. */
  lemma {:induction false} SumFilterMonotone(rs: seq<CaseRecord>, p: CaseRecord -> bool, q: CaseRecord -> bool)
    requires NonNegative(rs)
    requires forall r :: p(r) ==> q(r)
    ensures SumCases(Filter(rs, p)) <= SumCases(Filter(rs, q))
  {
    if rs != [] {
      SumFilterMonotone(rs[1..], p, q);
      var kp := if p(rs[0]) then [rs[0]] else [];
      var kq := if q(rs[0]) then [rs[0]] else [];
      SumAppend(kp, Filter(rs[1..], p));
      SumAppend(kq, Filter(rs[1..], q));
    }
  }

  /** Keeping every row of `rs` changes nothing. */
  lemma {:induction false} FilterAll(rs: seq<CaseRecord>, keep: CaseRecord -> bool)
    requires forall i :: 0 <= i < |rs| ==> keep(rs[i])
    ensures Filter(rs, keep) == rs
  {
    if rs != [] {
      FilterAll(rs[1..], keep);
    }
  }

  /** A table whose rows all lie in the window is its own window, in the
      same order. */
  lemma WindowOfTableInRange(df: seq<CaseRecord>, ref: int, n: int)
    requires forall i :: 0 <= i < |df| ==> InWindow(df[i].date, ref, n)
    ensures Window(df, ref, n) == df
  {
    FilterAll(df, (r: CaseRecord) => InWindow(r.date, ref, n));
  }

  /** Keeping no row of `rs` leaves nothing. */
  lemma {:induction false} FilterNone(rs: seq<CaseRecord>, keep: CaseRecord -> bool)
    requires forall i :: 0 <= i < |rs| ==> !keep(rs[i])
    ensures Filter(rs, keep) == []
  {
    if rs != [] {
      FilterNone(rs[1..], keep);
    }
  }

  /** A selection of non-negative rows is non-negative and sums to at least 0. */
  lemma FilterNonNegative(rs: seq<CaseRecord>, keep: CaseRecord -> bool)
    requires NonNegative(rs)
    ensures NonNegative(Filter(rs, keep))
    ensures SumCases(Filter(rs, keep)) >= 0
  {
    var kept := Filter(rs, keep);
    forall i | 0 <= i < |kept| ensures kept[i].casesNew >= 0 {
      assert multiset(kept)[kept[i]] > 0;
      assert kept[i] in multiset(rs);
    }
  }
}
