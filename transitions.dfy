/** VTOL transition detection in `_get_transition_timestamps` (GraphData.py): edge
    masks from comparing each row of vehicle_status_0 with the row before it
    (pandas `ne(shift())`, where row 0 always differs from the shifted-in missing
    value), the rows a mask selects, and the list `pop(0)` leaves. */
module Transitions {
  import opened Common
  import opened Tables

  /** `col.ne(col.shift())`: row 0 differs from the missing value shifted in. */
  function ChangeMask(col: seq<Value>): (m: seq<bool>)
    ensures |m| == |col|
    ensures forall i :: 0 <= i < |col| ==> (m[i] <==> i == 0 || AsReal(col[i]) != AsReal(col[i - 1]))
  {
    seq(|col|, i requires 0 <= i < |col| => i == 0 || AsReal(col[i]) != AsReal(col[i - 1]))
  }

  /** `changed(in_transition_mode) & (is_rotary_wing == True)`. */
  function BackMask(mode: seq<Value>, rotary: seq<Value>): (m: seq<bool>)
    requires |rotary| == |mode|
    ensures |m| == |mode|
    ensures forall i :: 0 <= i < |mode| ==> (m[i] <==> ChangeMask(mode)[i] && AsReal(rotary[i]) == 1.0)
  {
    seq(|mode|, i requires 0 <= i < |mode| => ChangeMask(mode)[i] && AsReal(rotary[i]) == 1.0)
  }

  /** The rows a boolean mask selects, in row order (`df.index[mask]` by position). */
  function Positions(mask: seq<bool>): (p: seq<nat>)
    ensures forall k :: 0 <= k < |p| ==> p[k] < |mask| && mask[p[k]]
    ensures forall i :: 0 <= i < |mask| && mask[i] ==> i in p
    ensures forall j, k :: 0 <= j < k < |p| ==> p[j] < p[k]
    decreases |mask|
  {
    if mask == [] then []
    else Positions(mask[..|mask| - 1]) + (if mask[|mask| - 1] then [|mask| - 1] else [])
  }

  /** The timestamps of the given rows. */
  function At(index: seq<real>, rows: seq<nat>): (ts: seq<real>)
    requires forall k :: 0 <= k < |rows| ==> rows[k] < |index|
    ensures |ts| == |rows| && forall k :: 0 <= k < |rows| ==> ts[k] == index[rows[k]]
  {
    seq(|rows|, k requires 0 <= k < |rows| => index[rows[k]])
  }

  /** The rows at which a column changes value, row 0 excluded. */
  predicate IsEdge(col: seq<Value>, i: int)
  {
    1 <= i < |col| && AsReal(col[i]) != AsReal(col[i - 1])
  }

  /** The forward rows: the changed rows of in_transition_to_fw once `pop(0)` has
      removed the first one. */
  function ForwardRows(fw: seq<Value>): (rows: seq<nat>)
    requires |fw| >= 1
    ensures forall k :: 0 <= k < |rows| ==> rows[k] < |fw|
  {
    PositionsNonEmpty(ChangeMask(fw));
    Positions(ChangeMask(fw))[1..]
  }

  lemma PositionsNonEmpty(mask: seq<bool>)
    requires |mask| >= 1 && mask[0]
    ensures |Positions(mask)| >= 1 && Positions(mask)[0] == 0
  {
    var p := Positions(mask);
    assert 0 in p;
    var k :| 0 <= k < |p| && p[k] == 0;
    if k > 0 {
      assert p[0] < p[k];
    }
  }

  /** pop(0) drops exactly the artificial row 0: the forward rows are the rows
      i >= 1 where in_transition_to_fw differs from row i - 1, in increasing order. */
  lemma ForwardRowsAreEdges(fw: seq<Value>)
    requires |fw| >= 1
    ensures forall i :: i in ForwardRows(fw) <==> IsEdge(fw, i)
    ensures forall j, k :: 0 <= j < k < |ForwardRows(fw)| ==> ForwardRows(fw)[j] < ForwardRows(fw)[k]
  {
    var p := Positions(ChangeMask(fw));
    PositionsNonEmpty(ChangeMask(fw));
    var q := p[1..];
    assert ForwardRows(fw) == q;
    forall i ensures i in q <==> IsEdge(fw, i) {
      if i in q {
        var k :| 0 <= k < |q| && q[k] == i;
        assert q[k] == p[k + 1] && p[0] < p[k + 1];
      }
      if IsEdge(fw, i) {
        var k :| 0 <= k < |p| && p[k] == i;
        assert k != 0;
        assert q[k - 1] == i;
      }
    }
    forall j, k | 0 <= j < k < |q| ensures q[j] < q[k] {
      assert q[j] == p[j + 1] && q[k] == p[k + 1];
    }
  }

  /** Back-transition candidates: the rows where in_transition_mode changed (row 0
      always counts) while is_rotary_wing is true. */
  function BackCandidates(mode: seq<Value>, rotary: seq<Value>): seq<nat>
    requires |rotary| == |mode|
  {
    Positions(BackMask(mode, rotary))
  }

  /** `back_transition_lines.pop(0)`: the first candidate is dropped; with no
      candidate at all the pop raises. */
  function BackRows(mode: seq<Value>, rotary: seq<Value>): (r: Option<seq<nat>>)
    requires |rotary| == |mode|
    ensures r.Some? ==> forall k :: 0 <= k < |r.value| ==> r.value[k] < |mode|
  {
    var c := BackCandidates(mode, rotary);
    if |c| == 0 then None else Some(c[1..])
  }

  /** The pop raises exactly when no row is a candidate, and otherwise removes the
      first candidate only. When the log starts rotary-wing that candidate is the
      artificial row 0 and the result is every rotary-wing edge of in_transition_mode;
      when it does not, the first genuine rotary-wing edge is the one removed. */
  lemma BackRowsSpec(mode: seq<Value>, rotary: seq<Value>)
    requires |rotary| == |mode|
    ensures BackRows(mode, rotary).None? <==>
      forall i :: 0 <= i < |mode| ==> !(ChangeMask(mode)[i] && AsReal(rotary[i]) == 1.0)
    ensures |mode| >= 1 && AsReal(rotary[0]) == 1.0 ==>
      && BackRows(mode, rotary).Some?
      && forall i :: i in BackRows(mode, rotary).value <==> IsEdge(mode, i) && AsReal(rotary[i]) == 1.0
    ensures |mode| >= 1 && AsReal(rotary[0]) != 1.0 && BackRows(mode, rotary).Some? ==>
      var first := BackCandidates(mode, rotary)[0];
      && IsEdge(mode, first) && AsReal(rotary[first]) == 1.0
      && first !in BackRows(mode, rotary).value
      && forall i :: i in BackRows(mode, rotary).value <==> IsEdge(mode, i) && AsReal(rotary[i]) == 1.0 && i != first
  {
    var m := BackMask(mode, rotary);
    var c := Positions(m);
    if |c| == 0 {
      forall i | 0 <= i < |mode| ensures !(ChangeMask(mode)[i] && AsReal(rotary[i]) == 1.0) {
      }
    } else {
      assert m[c[0]];
      forall i: int ensures i in c[1..] <==> i in c && i != c[0] {
        TailMembers(c, i);
      }
      if |mode| >= 1 && AsReal(rotary[0]) == 1.0 {
        PositionsNonEmpty(m);
      }
    }
  }

  /** The tail of a strictly increasing sequence holds exactly its elements other
      than the first. */
  lemma TailMembers(c: seq<nat>, i: int)
    requires |c| > 0 && forall j, k :: 0 <= j < k < |c| ==> c[j] < c[k]
    ensures i in c[1..] <==> i in c && i != c[0]
  {
    if i in c[1..] {
      var k :| 1 <= k < |c| && c[k] == i;
      assert c[0] < c[k];
    }
    if i in c && i != c[0] {
      var k :| 0 <= k < |c| && c[k] == i;
      assert c[1..][k - 1] == i;
    }
  }

  /** Truthiness of `Series.any()`. */
  predicate AnyNonZero(col: seq<Value>)
  {
    exists i :: 0 <= i < |col| && AsReal(col[i]) != 0.0
  }

  datatype TransitionError = MissingStatusTable | MissingColumn(name: string) | NoBackTransition

  /** The two transition lists GraphData keeps. */
  datatype TransitionLines = TransitionLines(forward: seq<real>, back: seq<real>)

  /** `_get_transition_timestamps`: the lists it leaves and whether it raised. The
      forward list is assigned before the back-transition columns are read, so an
      error there leaves a new forward list with the old back list. */
  function TransitionStep(ts: Tables, prev: TransitionLines): (TransitionLines, Outcome<TransitionError>)
    requires "vehicle_status_0" in ts ==> Aligned(ts["vehicle_status_0"])
  {
    if "vehicle_status_0" !in ts then (prev, Fail(MissingStatusTable))
    else
      var t := ts["vehicle_status_0"];
      if "in_transition_mode" !in t.columns then (prev, Fail(MissingColumn("in_transition_mode")))
      else if !AnyNonZero(t.columns["in_transition_mode"]) then (prev, Pass)
      else if "in_transition_to_fw" !in t.columns then (prev, Fail(MissingColumn("in_transition_to_fw")))
      else
        var forward := At(t.index, ForwardRows(t.columns["in_transition_to_fw"]));
        if "is_rotary_wing" !in t.columns then (prev.(forward := forward), Fail(MissingColumn("is_rotary_wing")))
        else
          match BackRows(t.columns["in_transition_mode"], t.columns["is_rotary_wing"])
          case None => (prev.(forward := forward), Fail(NoBackTransition))
          case Some(rows) => (TransitionLines(forward, At(t.index, rows)), Pass)
  }

  /** No transition activity: both lists keep their previous values. */
  lemma NoActivityKeepsLines(ts: Tables, prev: TransitionLines)
    requires "vehicle_status_0" in ts && Aligned(ts["vehicle_status_0"])
    requires "in_transition_mode" in ts["vehicle_status_0"].columns
    requires forall i :: 0 <= i < |ts["vehicle_status_0"].columns["in_transition_mode"]| ==>
      AsReal(ts["vehicle_status_0"].columns["in_transition_mode"][i]) == 0.0
    ensures TransitionStep(ts, prev) == (prev, Pass)
  {
  }

  /** With transition activity, the forward list holds the timestamps of the
      in_transition_to_fw edges; it is replaced even when the back list then raises. */
  lemma ForwardTimestamps(ts: Tables, prev: TransitionLines)
    requires "vehicle_status_0" in ts && Aligned(ts["vehicle_status_0"])
    requires var c := ts["vehicle_status_0"].columns;
      "in_transition_mode" in c && AnyNonZero(c["in_transition_mode"]) && "in_transition_to_fw" in c
    ensures var t := ts["vehicle_status_0"];
      var (lines, outcome) := TransitionStep(ts, prev);
      && (forall x :: x in lines.forward <==>
            exists i :: IsEdge(t.columns["in_transition_to_fw"], i) && t.index[i] == x)
      && (outcome.Fail? ==> lines.back == prev.back)
  {
    var t := ts["vehicle_status_0"];
    var fw := t.columns["in_transition_to_fw"];
    var mode := t.columns["in_transition_mode"];
    var i0 :| 0 <= i0 < |mode| && AsReal(mode[i0]) != 0.0;
    assert |fw| >= 1;
    ForwardRowsAreEdges(fw);
    var rows := ForwardRows(fw);
    var lines := TransitionStep(ts, prev).0;
    assert lines.forward == At(t.index, rows);
    forall x ensures x in lines.forward <==> exists i :: IsEdge(fw, i) && t.index[i] == x {
      if x in lines.forward {
        var k :| 0 <= k < |rows| && lines.forward[k] == x;
        assert rows[k] in rows;
        assert IsEdge(fw, rows[k]) && t.index[rows[k]] == x;
      }
      if exists i :: IsEdge(fw, i) && t.index[i] == x {
        var i :| IsEdge(fw, i) && t.index[i] == x;
        var k :| 0 <= k < |rows| && rows[k] == i;
        assert lines.forward[k] == x;
      }
    }
  }

  /** The set of rows in a list. */
  function Elems(rows: seq<nat>): (s: set<nat>)
    ensures forall x :: x in s <==> x in rows
  {
    if rows == [] then {} else Elems(rows[..|rows| - 1]) + {rows[|rows| - 1]}
  }

  /** A strictly increasing sequence has as many elements as its set. */
  lemma {:induction false} IncreasingCard(rows: seq<nat>)
    requires forall j, k :: 0 <= j < k < |rows| ==> rows[j] < rows[k]
    ensures |Elems(rows)| == |rows|
  {
    if rows != [] {
      var init, last := rows[..|rows| - 1], rows[|rows| - 1];
      IncreasingCard(init);
      forall k | 0 <= k < |init| ensures init[k] < last {
        assert init[k] == rows[k];
      }
      assert last !in Elems(init);
    }
  }

  /** A strictly increasing sequence of rows that holds exactly the rows 5 and 12
      is [5, 12]. */
  lemma TwoRows(rows: seq<nat>)
    requires forall i :: i in rows <==> i == 5 || i == 12
    requires forall j, k :: 0 <= j < k < |rows| ==> rows[j] < rows[k]
    ensures rows == [5, 12]
  {
    ElemsOfPair(rows);
    IncreasingCard(rows);
    PairSize();
    var a, b := rows[0], rows[1];
    assert a in rows && b in rows && a < b;
    assert rows == [a, b];
  }

  lemma ElemsOfPair(rows: seq<nat>)
    requires forall i :: i in rows <==> i == 5 || i == 12
    ensures Elems(rows) == {5, 12}
  {
  }

  lemma PairSize()
    ensures |{5, 12}| == 2
  {
  }

  /** Fifteen samples whose in_transition_to_fw flips at samples 5 and 12, starting
      false: the forward list holds both flips. Only the artificial row 0 is
      discarded, not the edge at sample 5. */
  lemma FlipsAtFiveAndTwelve()
    ensures var fw := seq(15, i => if 5 <= i < 12 then Int(1) else Int(0));
      ForwardRows(fw) == [5, 12]
  {
    var fw := seq(15, i => if 5 <= i < 12 then Int(1) else Int(0));
    ForwardRowsAreEdges(fw);
    forall i ensures IsEdge(fw, i) <==> i == 5 || i == 12 {
      if 1 <= i < 15 {
        assert fw[i] == (if 5 <= i < 12 then Int(1) else Int(0));
        assert fw[i - 1] == (if 5 <= i - 1 < 12 then Int(1) else Int(0));
      }
    }
    TwoRows(ForwardRows(fw));
  }
}
