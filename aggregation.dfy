/**
 * The analysis of one trailing window: the country-wide daily average and
 * the states with the highest and the lowest daily averages.
 */
module Aggregation {
  import opened CaseData
  import opened Ceiling
  import opened StateGroups
  import opened Ranking

  /** What one window yields: the country-wide daily average, the top
      states (highest average first) and the bottom states (lowest first). */
  datatype WindowResult = WindowResult(dailyAvg: int, top: seq<StateAverage>, bottom: seq<StateAverage>)

  /** Analyses the `n` days ending on `ref`, listing `numStates` states each way.
      The country-wide total is divided by the nominal `n`, however many days
      of the window actually have rows. */
  function PastNDaysProcess(df: seq<CaseRecord>, ref: int, n: int, numStates: int): (res: WindowResult)
    requires n >= 1
    ensures IsCeiling(res.dailyAvg, SumCases(Window(df, ref, n)), n)
    ensures NonNegative(df) ==> res.dailyAvg >= 0
  {
    var w := Window(df, ref, n);
    var byState := StateAverages(w);
    assert NonNegative(df) ==> SumCases(w) >= 0 by {
      if NonNegative(df) {
        FilterNonNegative(df, (r: CaseRecord) => InWindow(r.date, ref, n));
      }
    }
    WindowResult(CeilDiv(SumCases(w), n), Rank(byState, numStates, true), Rank(byState, numStates, false))
  }

  /** State `s` has an entry in the list `l`. */
  predicate Listed(l: seq<StateAverage>, s: string)
  {
    exists i :: 0 <= i < |l| && l[i].state == s
  }

  /** The top list: min(numStates, states in the window) entries (for a
      non-negative count), highest average first, each a state of the window
      with the ceiling of its mean, no state twice, and no state left out
      with a higher average than a listed one. */
  lemma TopStates(df: seq<CaseRecord>, ref: int, n: int, numStates: int)
    requires n >= 1
    ensures var w := Window(df, ref, n);
            var top := PastNDaysProcess(df, ref, n, numStates).top;
            && (numStates >= 0 ==> |top| == Min(numStates, |States(w)|))
            && Ranked(top, true)
            && (forall i :: 0 <= i < |top| ==>
                  top[i].state in States(w) && top[i].avgCases == StateMean(w, top[i].state))
            && (forall i, j :: 0 <= i < j < |top| ==> top[i].state != top[j].state)
            && (forall s, i :: s in States(w) && !Listed(top, s) && 0 <= i < |top| ==>
                  StateMean(w, s) <= top[i].avgCases)
  {
    RankOfStateAverages(Window(df, ref, n), numStates, true);
  }

  /** The bottom list: the mirror image of the top list, lowest average
      first, and no state left out with a lower average than a listed one. */
  lemma BottomStates(df: seq<CaseRecord>, ref: int, n: int, numStates: int)
    requires n >= 1
    ensures var w := Window(df, ref, n);
            var bottom := PastNDaysProcess(df, ref, n, numStates).bottom;
            && (numStates >= 0 ==> |bottom| == Min(numStates, |States(w)|))
            && Ranked(bottom, false)
            && (forall i :: 0 <= i < |bottom| ==>
                  bottom[i].state in States(w) && bottom[i].avgCases == StateMean(w, bottom[i].state))
            && (forall i, j :: 0 <= i < j < |bottom| ==> bottom[i].state != bottom[j].state)
            && (forall s, i :: s in States(w) && !Listed(bottom, s) && 0 <= i < |bottom| ==>
                  StateMean(w, s) >= bottom[i].avgCases)
  {
    RankOfStateAverages(Window(df, ref, n), numStates, false);
  }

  /** What ranking the per-state table of a window and keeping `k` entries
      gives, stated in terms of the window's states and their means. */
  lemma RankOfStateAverages(w: seq<CaseRecord>, k: int, descending: bool)
    ensures var r := Rank(StateAverages(w), k, descending);
            && (k >= 0 ==> |r| == Min(k, |States(w)|))
            && (forall i :: 0 <= i < |r| ==>
                  r[i].state in States(w) && r[i].avgCases == StateMean(w, r[i].state))
            && (forall i, j :: 0 <= i < j < |r| ==> r[i].state != r[j].state)
            && (forall s, i :: s in States(w) && !Listed(r, s) && 0 <= i < |r| ==>
                  Precedes(r[i], StateAverage(s, StateMean(w, s)), descending))
  {
    var g := StateAverages(w);
    var r := Rank(g, k, descending);
    RankedEntriesAreMeans(w, g, r);
    RankedStatesDistinct(g, r);
    UnlistedDoNotOutrank(w, g, r, descending);
  }

  /** Every entry of a selection from a window's per-state table carries a
      state of the window and that state's mean. */
  lemma RankedEntriesAreMeans(w: seq<CaseRecord>, g: seq<StateAverage>, r: seq<StateAverage>)
    requires g == StateAverages(w) && multiset(r) <= multiset(g)
    ensures forall i :: 0 <= i < |r| ==> r[i].state in States(w) && r[i].avgCases == StateMean(w, r[i].state)
  {
    forall i | 0 <= i < |r|
      ensures r[i].state in States(w) && r[i].avgCases == StateMean(w, r[i].state)
    {
      var a := EntryOfTable(g, r, i);
      CeilingUnique(g[a].avgCases, StateMean(w, g[a].state), StateSum(w, g[a].state), StateCount(w, g[a].state));
    }
  }

  /** A selection from a table with one entry per state names no state twice. */
  lemma RankedStatesDistinct(g: seq<StateAverage>, r: seq<StateAverage>)
    requires forall i, j :: 0 <= i < j < |g| ==> g[i].state != g[j].state
    requires multiset(r) <= multiset(g)
    ensures forall i, j :: 0 <= i < j < |r| ==> r[i].state != r[j].state
  {
    forall i, j | 0 <= i < j < |r| ensures r[i].state != r[j].state {
      var a := EntryOfTable(g, r, i);
      var b := EntryOfTable(g, r, j);
      SubMultisetNoRepeats(g, r, i, j);
      assert a != b;
    }
  }

  /** A state of the window that a ranked selection leaves out may not stand
      before any entry it keeps. */
  lemma UnlistedDoNotOutrank(w: seq<CaseRecord>, g: seq<StateAverage>, r: seq<StateAverage>, descending: bool)
    requires g == StateAverages(w)
    requires forall x, y :: x in g && x !in r && y in r ==> Precedes(y, x, descending)
    ensures forall s, i :: s in States(w) && !Listed(r, s) && 0 <= i < |r| ==>
              Precedes(r[i], StateAverage(s, StateMean(w, s)), descending)
  {
    forall s, i | s in States(w) && !Listed(r, s) && 0 <= i < |r|
      ensures Precedes(r[i], StateAverage(s, StateMean(w, s)), descending)
    {
      var a :| 0 <= a < |g| && g[a].state == s;
      CeilingUnique(g[a].avgCases, StateMean(w, s), StateSum(w, s), StateCount(w, s));
      forall b | 0 <= b < |r| ensures r[b] != g[a] {
        assert r[b].state != s;
      }
      assert g[a] !in r;
      assert r[i] in r;
    }
  }

  /** Every entry of a selection from the table is an entry of the table. */
  lemma EntryOfTable(g: seq<StateAverage>, r: seq<StateAverage>, i: int) returns (a: int)
    requires multiset(r) <= multiset(g) && 0 <= i < |r|
    ensures 0 <= a < |g| && g[a] == r[i]
  {
    assert r[i] in multiset(r);
    assert r[i] in multiset(g);
    a :| 0 <= a < |g| && g[a] == r[i];
  }

  /** A selection whose multiset lies within a table with no repeated entry
      repeats no entry either. */
  lemma SubMultisetNoRepeats(g: seq<StateAverage>, r: seq<StateAverage>, i: int, j: int)
    requires forall a, b :: 0 <= a < b < |g| ==> g[a].state != g[b].state
    requires multiset(r) <= multiset(g) && 0 <= i < j < |r|
    ensures r[i] != r[j]
  {
    if r[i] == r[j] {
      var x := r[i];
      assert multiset(r)[x] >= 2 by {
        assert r == r[..i] + [r[i]] + r[i + 1..j] + [r[j]] + r[j + 1..];
      }
      OneEntryPerState(g, x);
      assert false;
    }
  }

  /** With one entry per state, every entry occurs at most once. */
  lemma {:induction false} OneEntryPerState(g: seq<StateAverage>, x: StateAverage)
    requires forall a, b :: 0 <= a < b < |g| ==> g[a].state != g[b].state
    ensures multiset(g)[x] <= 1
  {
    if g != [] {
      assert g == [g[0]] + g[1..];
      OneEntryPerState(g[1..], x);
      if g[0] == x {
        forall b | 0 <= b < |g| - 1 ensures g[1..][b] != x {
          assert g[b + 1].state != g[0].state;
        }
        assert x !in g[1..];
      }
    }
  }

  /** A window without rows averages to zero and lists no state, without error. */
  lemma EmptyWindow(df: seq<CaseRecord>, ref: int, n: int, numStates: int)
    requires n >= 1
    requires forall x :: x in df ==> !InWindow(x.date, ref, n)
    ensures PastNDaysProcess(df, ref, n, numStates) == WindowResult(0, [], [])
  {
    var w := Window(df, ref, n);
    forall x: CaseRecord ensures multiset(w)[x] == 0 {
      if InWindow(x.date, ref, n) {
        assert x !in df;
      }
    }
    assert multiset(w) == multiset{};
    NoRowsNoGroups(w);
    CeilingOfZero(n);
  }

  /** A single row of 10 cases in a 7-day window: the country-wide average
      divides by the nominal 7 days (giving 2), while the state's own average
      divides by its one row (giving 10). */
  lemma NominalDivisorExample()
    ensures PastNDaysProcess([CaseRecord(100, "Perlis", 10)], 100, 7, 3)
            == WindowResult(2, [StateAverage("Perlis", 10)], [StateAverage("Perlis", 10)])
  {
    var df := [CaseRecord(100, "Perlis", 10)];
    var w := Window(df, 100, 7);
    assert df[1..] == [];
    assert w == df;
    assert SumCases(w) == 10;
    assert IsCeiling(2, 10, 7);
    CeilingUnique(CeilDiv(10, 7), 2, 10, 7);
    var g := StateAverages(w);
    assert g == [StateAverage("Perlis", 10)] by {
      assert States(w) == {"Perlis"};
      assert StateRecords(w, "Perlis") == df;
      assert IsCeiling(10, 10, 1);
      CeilingUnique(StateMean(w, "Perlis"), 10, 10, 1);
    }
    assert Rank(g, 3, true) == g;
    assert Rank(g, 3, false) == g;
  }
}
