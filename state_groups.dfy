/**
 * Grouping the rows of a window by state and taking each state's mean,
 * rounded up: one entry per state that has at least one row.
 */
module StateGroups {
  import opened CaseData
  import opened Ceiling

  /** A state's name with its rounded-up daily average. */
  datatype StateAverage = StateAverage(state: string, avgCases: int)

  /** The states that have at least one row in `w`. */
  function States(w: seq<CaseRecord>): set<string>
  {
    set r | r in w :: r.state
  }

  /** The rows of state `s`. */
  function StateRecords(w: seq<CaseRecord>, s: string): (rs: seq<CaseRecord>)
    ensures forall x {:trigger multiset(rs)[x]} :: multiset(rs)[x] == if x.state == s then multiset(w)[x] else 0
  {
    Filter(w, (r: CaseRecord) => r.state == s)
  }

  /** How many rows state `s` has: the divisor of its mean. It is positive
      exactly for the states that appear in `w`, so every mean is defined. */
  function StateCount(w: seq<CaseRecord>, s: string): (c: nat)
    ensures c > 0 <==> s in States(w)
    ensures c <= |w|
  {
    var rs := StateRecords(w, s);
    assert s in States(w) ==> |rs| > 0 by {
      if s in States(w) {
        var x :| x in w && x.state == s;
        assert multiset(rs)[x] == multiset(w)[x];
        assert x in multiset(rs);
      }
    }
    assert |rs| > 0 ==> s in States(w) by {
      if |rs| > 0 {
        assert multiset(rs)[rs[0]] > 0;
        assert rs[0] in multiset(w);
      }
    }
    |rs|
  }

  /** The cases of state `s` summed over its rows: 0 for a state with no
      rows, and at least 0 when no count in `w` is negative. */
  function StateSum(w: seq<CaseRecord>, s: string): (total: int)
    ensures s !in States(w) ==> total == 0
    ensures NonNegative(w) ==> total >= 0
  {
    var rs := StateRecords(w, s);
    assert NonNegative(w) ==> NonNegative(rs) by {
      if NonNegative(w) {
        forall i | 0 <= i < |rs| ensures rs[i].casesNew >= 0 {
          assert multiset(rs)[rs[i]] > 0;
          assert rs[i] in multiset(w);
        }
      }
    }
    SumCases(rs)
  }

  /** The ceiling of state `s`'s mean over `w`. */
  function StateMean(w: seq<CaseRecord>, s: string): (avg: int)
    requires s in States(w)
    ensures IsCeiling(avg, StateSum(w, s), StateCount(w, s))
  {
    CeilDiv(StateSum(w, s), StateCount(w, s))
  }

  /** The states of `w`, each once. */
  function DistinctStates(w: seq<CaseRecord>): (ss: seq<string>)
    ensures forall i, j :: 0 <= i < j < |ss| ==> ss[i] != ss[j]
    ensures forall s :: s in ss <==> s in States(w)
    ensures |ss| == |States(w)|
  {
    if w == [] then []
    else
      var rest := DistinctStates(w[1..]);
      StatesOfCons(w);
      if w[0].state in rest then
        assert States(w) == States(w[1..]);
        rest
      else
        assert |States(w)| == |States(w[1..])| + 1;
        [w[0].state] + rest
  }

  /** The states of a non-empty window: the first row's and the rest's. */
  lemma StatesOfCons(w: seq<CaseRecord>)
    requires w != []
    ensures States(w) == {w[0].state} + States(w[1..])
  {
    assert w == [w[0]] + w[1..];
  }

  /** The per-state table: for every state present in `w`, exactly one
      entry, carrying the ceiling of that state's mean. */
  function StateAverages(w: seq<CaseRecord>): (g: seq<StateAverage>)
    ensures |g| == |States(w)|
    ensures forall i, j :: 0 <= i < j < |g| ==> g[i].state != g[j].state
    ensures forall i :: 0 <= i < |g| ==> g[i].state in States(w)
    ensures forall i :: 0 <= i < |g| ==> IsCeiling(g[i].avgCases, StateSum(w, g[i].state), StateCount(w, g[i].state))
    ensures forall s :: s in States(w) ==> exists i :: 0 <= i < |g| && g[i].state == s
  {
    MeansOf(w, DistinctStates(w))
  }

  /** One entry per name in `ss`, in the same order, with that state's mean. */
  function MeansOf(w: seq<CaseRecord>, ss: seq<string>): (g: seq<StateAverage>)
    requires forall i :: 0 <= i < |ss| ==> ss[i] in States(w)
    ensures |g| == |ss|
    ensures forall i :: 0 <= i < |g| ==> g[i].state == ss[i]
    ensures forall i :: 0 <= i < |g| ==> IsCeiling(g[i].avgCases, StateSum(w, ss[i]), StateCount(w, ss[i]))
    ensures forall s :: s in ss ==> exists i :: 0 <= i < |g| && g[i].state == s
  {
    var g := seq(|ss|, i requires 0 <= i < |ss| => StateAverage(ss[i], StateMean(w, ss[i])));
    assert forall s :: s in ss ==> exists i :: 0 <= i < |g| && g[i].state == s by {
      forall s | s in ss ensures exists i :: 0 <= i < |g| && g[i].state == s {
        var i :| 0 <= i < |ss| && ss[i] == s;
        assert g[i].state == s;
      }
    }
    g
  }

  /** An empty window has no states and so no per-state entries. */
  lemma NoRowsNoGroups(w: seq<CaseRecord>)
    requires w == []
    ensures StateAverages(w) == []
  {
    assert States(w) == {};
  }
}
