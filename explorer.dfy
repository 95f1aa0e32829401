/** The session callbacks of ulog_explorer.py with every Qt call removed: what a
    click, a key or a menu toggle does to the backend's selection and settings, the
    auto-range policy of `update_frontend`, and the marker line. The view itself is
    reduced to a count of the auto-range calls it received. */
module Explorer {
  import opened Common
  import opened Tables
  import opened Curves
  import opened Marker

  /** A row of the topic tree: a topic (top-level, no parent) or one of its fields. */
  datatype TreeItem = TopicItem(topic: string) | FieldItem(topic: string, field: string)

  datatype Arrow = Left | Right

  /** The auto-range part of `update_frontend`, from the selection size and the
      flag: whether the view is auto-ranged now, and the flag afterwards. */
  function AutoRangeStep(selected: nat, autoRange: bool): (r: (bool, bool))
    ensures r.0 <==> selected > 0 && autoRange
    ensures r.1 <==> selected == 0
  {
    if selected > 0 && autoRange then (true, false)
    else if selected == 0 then (false, true)
    else (false, autoRange)
  }

  /** One auto-range per non-empty selection: a second update with the same
      selection leaves the view and the flag alone. */
  lemma AutoRangeSettles(selected: nat, autoRange: bool)
    ensures var (_, flag) := AutoRangeStep(selected, autoRange);
      && AutoRangeStep(selected, flag) == (false, flag)
      && (selected > 0 ==> !flag)
  {
  }

  /** `callback_toggle_bold`: width 1 becomes 3, any other width becomes 1. */
  function BoldToggled(width: int): (w: int)
    ensures w == 1 || w == 3
    ensures w == 3 <==> width == 1
  {
    if width == 1 then 3 else 1
  }

  /** Toggling twice restores the default width 1 and the bold width 3; any other
      width is not restored but becomes 3. */
  lemma BoldToggleTwice(width: int)
    ensures BoldToggled(BoldToggled(width)) == (if width == 1 then 1 else 3)
  {
  }

  /** `callback_toggle_marker`: no symbol becomes 'o', any symbol becomes none. */
  function MarkerToggled(symbol: Option<string>): (s: Option<string>)
    ensures s.None? <==> symbol.Some?
    ensures s.Some? ==> s.value == "o"
  {
    if symbol.None? then Some("o") else None
  }

  lemma MarkerToggleTwice(symbol: Option<string>)
    ensures symbol == None || symbol == Some("o") ==> MarkerToggled(MarkerToggled(symbol)) == symbol
    ensures MarkerToggled(MarkerToggled(symbol)) != None ==> MarkerToggled(MarkerToggled(symbol)) == Some("o")
  {
  }

  /** The marker position after an arrow key: one second left or right, and only
      while the marker line is shown. */
  function ArrowMoved(pos: real, key: Arrow, shown: bool): (p: real)
    ensures !shown ==> p == pos
    ensures shown ==> p - pos == (if key == Left then -1.0 else 1.0)
  {
    if !shown then pos
    else match key
      case Left => pos - 1.0
      case Right => pos + 1.0
  }

  /** Left then right, or right then left, puts a shown marker back. */
  lemma ArrowsCancel(pos: real, shown: bool)
    ensures ArrowMoved(ArrowMoved(pos, Left, shown), Right, shown) == pos
    ensures ArrowMoved(ArrowMoved(pos, Right, shown), Left, shown) == pos
  {
  }

  /** The selection and palette after a click, and whether it raised. */
  datatype Click = Click(curves: seq<Curve>, occupied: map<string, bool>, outcome: Result<(), AddError>)

  /** A click on a field row: `contains` looks the combined name up; a hit removes
      the pair, a miss adds it, which raises when the palette is full. */
  function ClickField(s: seq<Curve>, occ: map<string, bool>, topic: string, field: string): (c: Click)
    requires occ.Keys == PaletteKeySet
    ensures c.outcome.Err? ==> c.curves == s && c.occupied == occ
  {
    if HasName(s, Combined(topic, field)) then
      Click(SweepRemove(s, topic, field), Freed(occ, Image(SweepPopped(s, topic, field), KeyOf)), Ok(()))
    else
      match FirstFree(occ, 0)
      case None => Click(s, occ, Err(PaletteFull))
      case Some(k) => Click(s + [NewCurve(topic, field, PaletteKeys[k], PaletteColors[k])], occ[PaletteKeys[k] := true], Ok(()))
  }

  /** A click raises exactly when the field is unselected and all ten colours are
      taken; an unselected field is appended with the first free colour. */
  lemma ClickFieldOutcome(s: seq<Curve>, occ: map<string, bool>, topic: string, field: string)
    requires occ.Keys == PaletteKeySet
    ensures var c := ClickField(s, occ, topic, field);
      && (c.outcome.Err? <==> !HasName(s, Combined(topic, field)) && forall k :: k in occ ==> occ[k])
      && (c.outcome.Ok? && !HasName(s, Combined(topic, field)) ==>
            |c.curves| == |s| + 1 && c.curves[..|s|] == s && c.curves[|s|].topicAndField == Combined(topic, field)
            && !occ[c.curves[|s|].colorKey] && c.occupied[c.curves[|s|].colorKey])
  {
    var c := ClickField(s, occ, topic, field);
    if !HasName(s, Combined(topic, field)) {
      if FirstFree(occ, 0).None? {
        forall k | k in occ ensures occ[k] {
          var j :| 0 <= j < PaletteSize && PaletteKeys[j] == k;
        }
      } else {
        var k := FirstFree(occ, 0).value;
        assert c.curves[..|s|] == s;
        assert PaletteKeys[k] in PaletteKeySet;
      }
    }
  }

  /** Clicking the same unselected field twice gives back the selection and the
      palette: the first click appends it with the first free colour, the second
      finds it by name and removes exactly it. */
  lemma ClickTwiceRestores(s: seq<Curve>, occ: map<string, bool>, topic: string, field: string)
    requires Consistent(s, occ) && FirstFree(occ, 0).Some?
    requires !HasName(s, Combined(topic, field))
    ensures var c := ClickField(s, occ, topic, field);
      c.outcome.Ok? && c.occupied.Keys == PaletteKeySet && ClickField(c.curves, c.occupied, topic, field) == Click(s, occ, Ok(()))
  {
    var k := FirstFree(occ, 0).value;
    var s' := s + [NewCurve(topic, field, PaletteKeys[k], PaletteColors[k])];
    assert s'[|s|].topicAndField == Combined(topic, field);
    forall i | 0 <= i < |s| ensures !Matches(s[i], topic, field) {
      assert WellFormed(s[i]);
    }
    AddThenRemove(s, occ, topic, field);
    assert PaletteKeys[k] in PaletteKeySet;
  }

  /** The main window, minus Qt: the backend it drives, the marker line and its
      label, and how many times the main graph was auto-ranged. */
  class Explorer {
    const backend: Backend
    var markerLinePos: real
    var markerLabel: string
    var autoRanges: nat

    ghost predicate Valid()
      reads backend`curveList, backend`occupied
    {
      backend.Valid()
    }

    /** The marker line is created at position 300 with an empty label. */
    constructor (b: Backend)
      requires b.Valid()
      ensures Valid() && backend == b
      ensures markerLinePos == 300.0 && markerLabel == "" && autoRanges == 0
    {
      backend := b;
      markerLinePos := 300.0;
      markerLabel := "";
      autoRanges := 0;
    }

    /** The auto-range step of `update_frontend`; the rest of it only draws. */
    method UpdateFrontend()
      modifies backend`autoRange, this`autoRanges
      ensures var (ranged, flag) := AutoRangeStep(|backend.curveList|, old(backend.autoRange));
        && backend.autoRange == flag
        && autoRanges == old(autoRanges) + (if ranged then 1 else 0)
    {
      if |backend.curveList| > 0 && backend.autoRange {
        autoRanges := autoRanges + 1;
        backend.autoRange := false;
      } else if |backend.curveList| == 0 {
        backend.autoRange := true;
      }
    }

    /** `callback_topic_tree_clicked`: a topic row only folds or unfolds; a field
        row toggles as `ClickField` says, and the frontend is updated unless adding
        raised. */
    method TopicTreeClicked(item: TreeItem) returns (r: Result<(), AddError>)
      requires Valid()
      modifies backend`curveList, backend`occupied, backend`autoRange, this`autoRanges
      ensures Valid()
      ensures item.TopicItem? ==> r.Ok? && unchanged(backend) && unchanged(this)
      ensures item.FieldItem? ==>
        var c := ClickField(old(backend.curveList), old(backend.occupied), item.topic, item.field);
        && backend.curveList == c.curves && backend.occupied == c.occupied && r == c.outcome
        && (r.Err? ==> backend.autoRange == old(backend.autoRange) && autoRanges == old(autoRanges))
        && (r.Ok? ==> backend.autoRange == (|backend.curveList| == 0)
                      && autoRanges == old(autoRanges) + (if |backend.curveList| > 0 && old(backend.autoRange) then 1 else 0))
      ensures old(backend.NoDuplicates()) ==> backend.NoDuplicates()
    {
      if item.TopicItem? {
        return Ok(());
      }
      r := FieldClicked(item.topic, item.field);
    }

    method FieldClicked(topic: string, field: string) returns (r: Result<(), AddError>)
      requires Valid()
      modifies backend`curveList, backend`occupied, backend`autoRange, this`autoRanges
      ensures Valid()
      ensures var c := ClickField(old(backend.curveList), old(backend.occupied), topic, field);
        && backend.curveList == c.curves && backend.occupied == c.occupied && r == c.outcome
        && (r.Err? ==> backend.autoRange == old(backend.autoRange) && autoRanges == old(autoRanges))
        && (r.Ok? ==> backend.autoRange == (|backend.curveList| == 0)
                      && autoRanges == old(autoRanges) + (if |backend.curveList| > 0 && old(backend.autoRange) then 1 else 0))
      ensures old(backend.NoDuplicates()) ==> backend.NoDuplicates()
    {
      ghost var c := ClickField(backend.curveList, backend.occupied, topic, field);
      var found := backend.Contains(topic, field);
      if found {
        backend.Remove(topic, field);
        UpdateFrontend();
        return Ok(());
      }
      assert c.outcome.Err? <==> FirstFree(old(backend.occupied), 0).None?;
      var added := backend.Add(topic, field);
      if added.Err? {
        assert c == Click(old(backend.curveList), old(backend.occupied), Err(PaletteFull));
        return Err(PaletteFull);
      }
      UpdateFrontend();
      r := Ok(());
    }

    /** `callback_selected_fields_list_clicked`: the item's text is split on "->"
        and that pair removed; a text without "->" raises. */
    method SelectedFieldsListClicked(text: string) returns (r: Result<(), NameError>)
      requires Valid()
      modifies backend`curveList, backend`occupied, backend`autoRange, this`autoRanges
      ensures Valid()
      ensures r.Err? <==> Separate(text).Err?
      ensures r.Err? ==> unchanged(backend) && unchanged(this)
      ensures r.Ok? ==>
        var (topic, field) := Separate(text).value;
        && backend.curveList == SweepRemove(old(backend.curveList), topic, field)
        && backend.occupied == Freed(old(backend.occupied), Image(SweepPopped(old(backend.curveList), topic, field), KeyOf))
        && backend.autoRange == (|backend.curveList| == 0)
        && autoRanges == old(autoRanges) + (if |backend.curveList| > 0 && old(backend.autoRange) then 1 else 0)
      ensures old(backend.NoDuplicates()) ==> backend.NoDuplicates()
    {
      var parts := Separate(text);
      if parts.Err? {
        return Err(parts.error);
      }
      var (topic, field) := parts.value;
      backend.Remove(topic, field);
      UpdateFrontend();
      r := Ok(());
    }

    /** `callback_clear_plot`: the selection is emptied, every colour freed, and the
        next non-empty selection is auto-ranged again. */
    method ClearPlot()
      requires Valid()
      modifies backend`curveList, backend`occupied, backend`autoRange, this`autoRanges
      ensures Valid() && backend.NoDuplicates()
      ensures backend.curveList == [] && backend.occupied == AllFree()
      ensures backend.autoRange && autoRanges == old(autoRanges)
    {
      backend.Clear();
      UpdateFrontend();
    }

    /** `callback_toggle_rescale_curves`: flips rescaling and asks for an
        auto-range, which a non-empty selection receives at once. */
    method ToggleRescaleCurves()
      modifies backend`rescaleCurves, backend`autoRange, this`autoRanges
      ensures backend.rescaleCurves == !old(backend.rescaleCurves)
      ensures backend.autoRange == (|backend.curveList| == 0)
      ensures autoRanges == old(autoRanges) + (if |backend.curveList| > 0 then 1 else 0)
    {
      backend.rescaleCurves := !backend.rescaleCurves;
      backend.autoRange := true;
      UpdateFrontend();
    }

    /** `callback_toggle_marker`. */
    method ToggleMarker()
      modifies backend`symbol, backend`autoRange, this`autoRanges
      ensures backend.symbol == MarkerToggled(old(backend.symbol))
      ensures backend.autoRange == AutoRangeStep(|backend.curveList|, old(backend.autoRange)).1
      ensures autoRanges == old(autoRanges) + (if |backend.curveList| > 0 && old(backend.autoRange) then 1 else 0)
    {
      if backend.symbol == None {
        backend.symbol := Some("o");
      } else {
        backend.symbol := None;
      }
      UpdateFrontend();
    }

    /** `callback_toggle_bold`. */
    method ToggleBold()
      modifies backend`linewidth, backend`autoRange, this`autoRanges
      ensures backend.linewidth == BoldToggled(old(backend.linewidth))
      ensures backend.autoRange == AutoRangeStep(|backend.curveList|, old(backend.autoRange)).1
      ensures autoRanges == old(autoRanges) + (if |backend.curveList| > 0 && old(backend.autoRange) then 1 else 0)
    {
      if backend.linewidth == 1 {
        backend.linewidth := 3;
      } else {
        backend.linewidth := 1;
      }
      UpdateFrontend();
    }

    /** `callback_toggle_title`. */
    method ToggleTitle()
      modifies backend`showTitle, backend`autoRange, this`autoRanges
      ensures backend.showTitle == !old(backend.showTitle)
      ensures backend.autoRange == AutoRangeStep(|backend.curveList|, old(backend.autoRange)).1
      ensures autoRanges == old(autoRanges) + (if |backend.curveList| > 0 && old(backend.autoRange) then 1 else 0)
    {
      backend.showTitle := !backend.showTitle;
      UpdateFrontend();
    }

    /** `callback_toggle_legend`. */
    method ToggleLegend()
      modifies backend`showLegend, backend`autoRange, this`autoRanges
      ensures backend.showLegend == !old(backend.showLegend)
      ensures backend.autoRange == AutoRangeStep(|backend.curveList|, old(backend.autoRange)).1
      ensures autoRanges == old(autoRanges) + (if |backend.curveList| > 0 && old(backend.autoRange) then 1 else 0)
    {
      backend.showLegend := !backend.showLegend;
      UpdateFrontend();
    }

    /** `callback_toggle_transition_lines`. */
    method ToggleTransitionLines()
      modifies backend`showTransitionLines, backend`autoRange, this`autoRanges
      ensures backend.showTransitionLines == !old(backend.showTransitionLines)
      ensures backend.autoRange == AutoRangeStep(|backend.curveList|, old(backend.autoRange)).1
      ensures autoRanges == old(autoRanges) + (if |backend.curveList| > 0 && old(backend.autoRange) then 1 else 0)
    {
      backend.showTransitionLines := !backend.showTransitionLines;
      UpdateFrontend();
    }

    /** `callback_toggle_ROI`: the region is placed on the middle half of the view,
        which is not modelled. */
    method ToggleRoi()
      modifies backend`showRoi, backend`autoRange, this`autoRanges
      ensures backend.showRoi == !old(backend.showRoi)
      ensures backend.autoRange == AutoRangeStep(|backend.curveList|, old(backend.autoRange)).1
      ensures autoRanges == old(autoRanges) + (if |backend.curveList| > 0 && old(backend.autoRange) then 1 else 0)
    {
      backend.showRoi := !backend.showRoi;
      UpdateFrontend();
    }

    /** `callback_toggle_marker_line`: flips the flag and moves the marker to the
        middle of the view, `mid`. */
    method ToggleMarkerLine(mid: real)
      modifies backend`showMarkerLine, this`markerLinePos, backend`autoRange, this`autoRanges
      ensures backend.showMarkerLine == !old(backend.showMarkerLine)
      ensures markerLinePos == mid
      ensures backend.autoRange == AutoRangeStep(|backend.curveList|, old(backend.autoRange)).1
      ensures autoRanges == old(autoRanges) + (if |backend.curveList| > 0 && old(backend.autoRange) then 1 else 0)
    {
      backend.showMarkerLine := !backend.showMarkerLine;
      markerLinePos := mid;
      UpdateFrontend();
    }

    /** `callback_toggle_secondary_graph`: flips the trajectory view, and turning it
        on while the marker line is hidden turns the marker line on too. */
    method ToggleSecondaryGraph(mid: real)
      modifies backend`showSecondaryGraph, backend`showMarkerLine, this`markerLinePos
      modifies backend`autoRange, this`autoRanges
      ensures backend.showSecondaryGraph == !old(backend.showSecondaryGraph)
      ensures backend.showMarkerLine == (old(backend.showMarkerLine) || backend.showSecondaryGraph)
      ensures markerLinePos == if backend.showMarkerLine != old(backend.showMarkerLine) then mid else old(markerLinePos)
      ensures backend.autoRange == AutoRangeStep(|backend.curveList|, old(backend.autoRange)).1
      ensures autoRanges == old(autoRanges) + (if |backend.curveList| > 0 && old(backend.autoRange) then 1 else 0)
    {
      backend.showSecondaryGraph := !backend.showSecondaryGraph;
      if backend.showSecondaryGraph && !backend.showMarkerLine {
        ToggleMarkerLine(mid);
      }
      UpdateFrontend();
    }

    /** The left and right arrow branches of `keyPressed`: while the marker line is
        shown, the marker moves one second and the label is refreshed for the new
        position, whose "t = ..." header `header` writes. */
    method ArrowKey(key: Arrow, ts: Tables, show: Value -> string, header: real -> string) returns (r: Result<(), LabelError>)
      requires AllAligned(ts)
      modifies this`markerLinePos, this`markerLabel
      ensures markerLinePos == ArrowMoved(old(markerLinePos), key, backend.showMarkerLine)
      ensures !backend.showMarkerLine ==> r.Ok? && markerLabel == old(markerLabel)
      ensures backend.showMarkerLine ==>
        var l := Label(ts, backend.curveList, markerLinePos, show, header(markerLinePos));
        && (r.Err? <==> l.Err?)
        && (l.Err? ==> r.error == l.error && markerLabel == old(markerLabel))
        && (l.Ok? ==> markerLabel == l.value)
    {
      if !backend.showMarkerLine {
        return Ok(());
      }
      if key == Left {
        markerLinePos := markerLinePos - 1.0;
      } else {
        markerLinePos := markerLinePos + 1.0;
      }
      r := UpdateMarkerLineStatus(ts, show, header(markerLinePos));
    }

    /** `update_marker_line_status`, up to the label: the header followed by one
        line per selected curve, built curve by curve; a line that raises leaves the
        label as it was. The tables are an explicit argument. */
    method UpdateMarkerLineStatus(ts: Tables, show: Value -> string, header: string) returns (r: Result<(), LabelError>)
      requires AllAligned(ts)
      modifies this`markerLabel
      ensures var l := Label(ts, backend.curveList, markerLinePos, show, header);
        && (r.Err? <==> l.Err?)
        && (l.Err? ==> r.error == l.error && markerLabel == old(markerLabel))
        && (l.Ok? ==> markerLabel == l.value)
    {
      var curves := backend.curveList;
      var t := markerLinePos;
      var lines := "";
      var i := 0;
      while i < |curves|
        invariant 0 <= i <= |curves|
        invariant LabelLines(ts, curves[..i], t, show) == Ok(lines)
        invariant markerLabel == old(markerLabel)
      {
        var c := curves[i];
        var problem: Option<LabelError> := None;
        if c.topic !in ts {
          problem := Some(MissingTable(c.topic));
        } else if ts[c.topic].index == [] {
          problem := Some(EmptyTable(c.topic));
        } else if c.field !in ts[c.topic].columns {
          problem := Some(MissingColumn(c.topic, c.field));
        }
        if problem.Some? {
          assert problem == LineProblem(ts, c);
          LabelLinesFirstProblem(ts, curves, i, t, show);
          return Err(problem.value);
        }
        var table := ts[c.topic];
        var row := MarkerRow(table.index, t).value;
        var value := table.columns[c.field][row];
        var line := "\n" + c.topicAndField + ": " + ValueText(c.field, value, show);
        assert LabelLine(ts, c, t, show) == Ok(line);
        LabelLinesAppend(ts, curves, i, t, show, lines);
        lines := lines + line;
        i := i + 1;
      }
      assert curves[..i] == curves;
      markerLabel := header + lines;
      r := Ok(());
    }
  }
}
