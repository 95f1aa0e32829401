/** The marker-line readout of ulog_explorer.py (`update_marker_line_status`): the
    sample shown for each selected curve is found with `argmax(index > t) - 1`, and
    a field named "...flags" also shows its value in binary. How a value prints is a
    parameter; the exact lookup, wrap-around and suffix are modelled. */
module Marker {
  import opened Common
  import opened Tables
  import opened Curves

  /** The first position whose timestamp exceeds t, or |index| when none does. */
  function FirstAbove(index: seq<real>, t: real): (k: nat)
    ensures k <= |index|
    ensures forall j :: 0 <= j < k ==> index[j] <= t
    ensures k < |index| ==> index[k] > t
    decreases |index|
  {
    if index == [] then 0
    else if index[0] > t then 0
    else 1 + FirstAbove(index[1..], t)
  }

  /** `np.argmax(index > t)`: the first True of the comparison, and 0 when every
      entry is False. */
  function FirstAfter(index: seq<real>, t: real): (a: nat)
    ensures a < |index| || (a == 0 && index == [])
    ensures (exists k :: 0 <= k < |index| && index[k] > t) ==>
      index[a] > t && forall j :: 0 <= j < a ==> index[j] <= t
    ensures (forall k :: 0 <= k < |index| ==> index[k] <= t) ==> a == 0
  {
    var k := FirstAbove(index, t);
    if k == |index| then 0 else k
  }

  /** The row `values[argmax(index > t) - 1]` reads: the index -1 is Python's last
      element. An empty table has no row (argmax of an empty array raises). */
  function MarkerRow(index: seq<real>, t: real): (r: Option<nat>)
    ensures r.None? <==> index == []
    ensures r.Some? ==> r.value < |index|
  {
    if index == [] then None
    else
      var a := FirstAfter(index, t);
      Some(if a == 0 then |index| - 1 else a - 1)
  }

  predicate Sorted(index: seq<real>)
  {
    forall i, j :: 0 <= i < j < |index| ==> index[i] <= index[j]
  }

  /** On a time-ordered index with t at or after the first sample, the row read is
      the last sample at or before t. */
  lemma MarkerRowIsLastAtOrBefore(index: seq<real>, t: real)
    requires Sorted(index) && |index| > 0 && index[0] <= t
    ensures var r := MarkerRow(index, t).value;
      index[r] <= t && forall j :: r < j < |index| ==> index[j] > t
  {
    var k := FirstAbove(index, t);
    if k < |index| {
      assert k > 0;
      forall j | k - 1 < j < |index| ensures index[j] > t {
        if j > k { assert index[k] <= index[j]; }
      }
    }
  }

  /** Before the first sample the lookup wraps around to the last one. */
  lemma MarkerRowWraps(index: seq<real>, t: real)
    requires |index| > 0 && t < index[0]
    ensures MarkerRow(index, t) == Some(|index| - 1)
  {
  }

  /** Python's `s[-5:]`: the last five characters, or all of a shorter string. */
  function LastFive(s: string): string
  {
    if |s| >= 5 then s[|s| - 5..] else s
  }

  predicate IsFlagsField(field: string)
  {
    LastFive(field) == "flags"
  }

  /** The test on the last five characters holds exactly for the names that end
      in "flags". */
  lemma IsFlagsFieldSpec(field: string)
    ensures IsFlagsField(field) <==> exists p :: field == p + "flags"
  {
    if IsFlagsField(field) {
      assert field == field[..|field| - 5] + "flags";
    }
    if exists p :: field == p + "flags" {
      var p :| field == p + "flags";
      assert field[|field| - 5..] == "flags";
    }
  }

  /** The text shown for one value: `str(value)`, followed by
      " (<binary of int(value)>)" for a flags field. */
  function ValueText(field: string, v: Value, show: Value -> string): string
  {
    if IsFlagsField(field) then show(v) + " (" + IntToBinary(IntOf(v)) + ")" else show(v)
  }

  /** The shown text starts with the plain value; something follows exactly for a
      flags field, and what follows reads back, in binary, as `int(value)`. */
  lemma ValueTextSpec(field: string, v: Value, show: Value -> string)
    ensures var s, p := ValueText(field, v, show), show(v);
      && p <= s
      && (|s| == |p| <==> !IsFlagsField(field))
      && (IsFlagsField(field) ==>
            |s| >= |p| + 3 && s[|p|..|p| + 2] == " (" && s[|s| - 1] == ')'
            && ParseSigned(s[|p| + 2..|s| - 1], 2) == Some(IntOf(v)))
  {
    if IsFlagsField(field) {
      var p, b := show(v), IntToBinary(IntOf(v));
      var s := ValueText(field, v, show);
      assert s == p + " (" + b + ")";
      assert s[|p| + 2..|s| - 1] == b;
      assert s[|p|..|p| + 2] == " (";
      IntToBinaryRoundTrip(IntOf(v));
    }
  }

  /** The ways one line of the label raises: a KeyError for the table, argmax of
      an empty index, or a KeyError for the column. */
  datatype LabelError = MissingTable(topic: string) | EmptyTable(topic: string) | MissingColumn(topic: string, field: string)

  /** Why a curve's line cannot be written, if it cannot, in the order the line
      evaluates: the table, the index lookup, then the column. */
  function LineProblem(ts: Tables, c: Curve): Option<LabelError>
  {
    if c.topic !in ts then Some(MissingTable(c.topic))
    else if ts[c.topic].index == [] then Some(EmptyTable(c.topic))
    else if c.field !in ts[c.topic].columns then Some(MissingColumn(c.topic, c.field))
    else None
  }

  /** `'\n' + topic_and_field + ': ' + value_str` for one curve. */
  function LabelLine(ts: Tables, c: Curve, t: real, show: Value -> string): (r: Result<string, LabelError>)
    requires AllAligned(ts)
    ensures r.Err? <==> LineProblem(ts, c).Some?
    ensures r.Err? ==> r.error == LineProblem(ts, c).value
  {
    match LineProblem(ts, c)
    case Some(e) => Err(e)
    case None =>
      var table := ts[c.topic];
      var row := MarkerRow(table.index, t).value;
      Ok("\n" + c.topicAndField + ": " + ValueText(c.field, table.columns[c.field][row], show))
  }

  /** The lines of every curve in list order; the first line that raises ends it. */
  function LabelLines(ts: Tables, curves: seq<Curve>, t: real, show: Value -> string): Result<string, LabelError>
    requires AllAligned(ts)
    decreases |curves|
  {
    if curves == [] then Ok("")
    else
      match LabelLines(ts, curves[..|curves| - 1], t, show)
      case Err(e) => Err(e)
      case Ok(s) =>
        match LabelLine(ts, curves[|curves| - 1], t, show)
        case Err(e) => Err(e)
        case Ok(line) => Ok(s + line)
  }

  /** The position of the first curve whose line cannot be written, or |curves|. */
  function FirstProblem(ts: Tables, curves: seq<Curve>): (k: nat)
    ensures k <= |curves|
    ensures forall j :: 0 <= j < k ==> LineProblem(ts, curves[j]).None?
    ensures k < |curves| ==> LineProblem(ts, curves[k]).Some?
    decreases |curves|
  {
    if curves == [] then 0
    else
      var init := curves[..|curves| - 1];
      var k := FirstProblem(ts, init);
      assert forall j :: 0 <= j < |init| ==> curves[j] == init[j];
      if k < |init| then k
      else if LineProblem(ts, curves[|curves| - 1]).Some? then |init|
      else |curves|
  }

  /** The label raises exactly when some curve's line cannot be written, and then
      with the error of the first such curve. */
  lemma {:induction false} LabelLinesError(ts: Tables, curves: seq<Curve>, t: real, show: Value -> string)
    requires AllAligned(ts)
    ensures var k := FirstProblem(ts, curves);
      && (LabelLines(ts, curves, t, show).Err? <==> k < |curves|)
      && (k < |curves| ==> LabelLines(ts, curves, t, show).error == LineProblem(ts, curves[k]).value)
    decreases |curves|
  {
    if curves != [] {
      var init := curves[..|curves| - 1];
      LabelLinesError(ts, init, t, show);
      if FirstProblem(ts, init) < |init| {
        assert curves[FirstProblem(ts, init)] == init[FirstProblem(ts, init)];
      }
    }
  }

  /** One more curve whose line can be written: its line is appended. */
  lemma LabelLinesAppend(ts: Tables, curves: seq<Curve>, i: nat, t: real, show: Value -> string, lines: string)
    requires AllAligned(ts) && i < |curves|
    requires LabelLines(ts, curves[..i], t, show) == Ok(lines)
    requires LineProblem(ts, curves[i]).None?
    ensures LabelLines(ts, curves[..i + 1], t, show) == Ok(lines + LabelLine(ts, curves[i], t, show).value)
  {
    assert curves[..i + 1][..i] == curves[..i];
    assert curves[..i + 1][i] == curves[i];
  }

  /** The first curve whose line cannot be written decides the whole label. */
  lemma LabelLinesFirstProblem(ts: Tables, curves: seq<Curve>, i: nat, t: real, show: Value -> string)
    requires AllAligned(ts) && i < |curves|
    requires LabelLines(ts, curves[..i], t, show).Ok?
    requires LineProblem(ts, curves[i]).Some?
    ensures LabelLines(ts, curves, t, show) == Err(LineProblem(ts, curves[i]).value)
  {
    var prefix := curves[..i];
    LabelLinesError(ts, prefix, t, show);
    var k := FirstProblem(ts, prefix);
    assert k == i;
    assert forall j :: 0 <= j < i ==> curves[j] == prefix[j];
    LabelLinesError(ts, curves, t, show);
  }

  /** The label text: the caller's "t = ..." header followed by the curve lines. */
  function Label(ts: Tables, curves: seq<Curve>, t: real, show: Value -> string, header: string): Result<string, LabelError>
    requires AllAligned(ts)
  {
    match LabelLines(ts, curves, t, show)
    case Err(e) => Err(e)
    case Ok(s) => Ok(header + s)
  }
}
