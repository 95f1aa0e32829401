/** The GraphData object of GraphData.py: the topic tables of a log, its title and
    its transition lists, rebuilt in place by `ulog_to_df`. The parsed log is an
    input value; pyulog itself is not modelled. */
module GraphData {
  import opened Common
  import opened Tables
  import opened Transitions
  import Derive

  /** One logged topic instance: name, multi id and its columns by field name. */
  datatype Dataset = Dataset(name: string, multiId: nat, data: map<string, seq<Value>>)

  /** What the parser guarantees: a timestamp column, and every column as long as it. */
  predicate WellShaped(ds: Dataset)
  {
    && "timestamp" in ds.data
    && forall n :: n in ds.data ==> |ds.data[n]| == |ds.data["timestamp"]|
  }

  datatype ParameterChange = ParameterChange(timestamp: int, name: string, value: Value)
  datatype LoggedMessage = LoggedMessage(timestamp: int, logLevel: int, message: string)

  /** The parts of a pyulog ULog object that ulog_to_df reads. */
  datatype ULog = ULog(
    dataList: seq<Dataset>,
    changedParameters: seq<ParameterChange>,
    initialParameters: map<string, Value>,
    loggedMessages: seq<LoggedMessage>,
    startTimestamp: int,
    lastTimestamp: int)

  predicate AllWellShaped(datasets: seq<Dataset>)
  {
    forall i :: 0 <= i < |datasets| ==> WellShaped(datasets[i])
  }

  /** `name + "_" + str(multi_id)`. */
  function TopicKey(name: string, multiId: nat): string
  {
    name + "_" + NatToBase(multiId, 10)
  }

  /** Two datasets share a table key only when they share name and multi id: the
      decimal digits never contain '_', so the last '_' splits the key. */
  lemma TopicKeyInjective(n1: string, i1: nat, n2: string, i2: nat)
    requires TopicKey(n1, i1) == TopicKey(n2, i2)
    ensures n1 == n2 && i1 == i2
  {
    var d1, d2 := NatToBase(i1, 10), NatToBase(i2, 10);
    var s := TopicKey(n1, i1);
    assert s == n1 + "_" + d1 == n2 + "_" + d2;
    UnderscoreBeforeDigits(n1, d1);
    UnderscoreBeforeDigits(n2, d2);
    // The last '_' of s sits right before d1 and right before d2.
    var p1, p2 := |s| - |d1| - 1, |s| - |d2| - 1;
    assert s[p1] == '_' && s[p2] == '_';
    assert p1 >= p2 by {
      assert forall k :: p2 < k < |s| ==> s[k] != '_';
    }
    assert p2 >= p1 by {
      assert forall k :: p1 < k < |s| ==> s[k] != '_';
    }
    assert d1 == s[p1 + 1..] == d2;
    assert n1 == s[..p1] == n2;
    ParseNatToBase(i1, 10);
    ParseNatToBase(i2, 10);
  }

  lemma UnderscoreBeforeDigits(n: string, d: string)
    requires IsDigits(d, 10)
    ensures var s := n + "_" + d;
      s[|n|] == '_' && forall k :: |n| < k < |s| ==> s[k] != '_'
  {
    var s := n + "_" + d;
    forall k | |n| < k < |s| ensures s[k] != '_' {
      assert s[k] == d[k - |n| - 1];
    }
  }

  /** The data frame of one dataset: index timestamp / 1e6 (seconds), one column per
      field other than timestamp. */
  function TableOf(ds: Dataset): Table
    requires "timestamp" in ds.data
  {
    var ts := ds.data["timestamp"];
    Table(seq(|ts|, i requires 0 <= i < |ts| => AsReal(ts[i]) / 1000000.0),
          map n | n in ds.data.Keys - {"timestamp"} :: ds.data[n])
  }

  /** Columns are the data keys other than timestamp, rows as many as timestamps. */
  lemma TableOfShape(ds: Dataset)
    requires WellShaped(ds)
    ensures var t := TableOf(ds);
      && t.columns.Keys == ds.data.Keys - {"timestamp"}
      && |t.index| == |ds.data["timestamp"]|
      && (forall n :: n in t.columns ==> t.columns[n] == ds.data[n])
      && Aligned(t)
  {
  }

  /** df_dict after the loop of ulog_to_df, iterating in list order. A later dataset
      with the same key replaces an earlier one. */
  function TablesOf(datasets: seq<Dataset>): (ts: Tables)
    requires forall i :: 0 <= i < |datasets| ==> "timestamp" in datasets[i].data
    ensures AllWellShaped(datasets) ==> AllAligned(ts)
    decreases |datasets|
  {
    if datasets == [] then map[]
    else
      var last := datasets[|datasets| - 1];
      TablesOf(datasets[..|datasets| - 1])[TopicKey(last.name, last.multiId) := TableOf(last)]
  }

  function KeyOf(ds: Dataset): string
  {
    TopicKey(ds.name, ds.multiId)
  }

  /** There is a table for every dataset's key and no other. */
  lemma {:induction false} TablesOfKeys(datasets: seq<Dataset>)
    requires AllWellShaped(datasets)
    ensures forall k :: k in TablesOf(datasets) <==> exists i :: 0 <= i < |datasets| && KeyOf(datasets[i]) == k
    decreases |datasets|
  {
    if datasets != [] {
      var init := datasets[..|datasets| - 1];
      TablesOfKeys(init);
      forall k ensures k in TablesOf(datasets) <==> exists i :: 0 <= i < |datasets| && KeyOf(datasets[i]) == k {
        if k in TablesOf(init) {
          var i :| 0 <= i < |init| && KeyOf(init[i]) == k;
          assert datasets[i] == init[i];
        }
        if exists i :: 0 <= i < |datasets| && KeyOf(datasets[i]) == k {
          var i :| 0 <= i < |datasets| && KeyOf(datasets[i]) == k;
          if i < |init| { assert init[i] == datasets[i]; }
        }
      }
    }
  }

  /** The table under a key is the one of the last dataset with that key. */
  lemma {:induction false} TablesOfLastWins(datasets: seq<Dataset>, i: nat)
    requires AllWellShaped(datasets)
    requires i < |datasets|
    requires forall j :: i < j < |datasets| ==> KeyOf(datasets[j]) != KeyOf(datasets[i])
    ensures KeyOf(datasets[i]) in TablesOf(datasets)
    ensures TablesOf(datasets)[KeyOf(datasets[i])] == TableOf(datasets[i])
    decreases |datasets|
  {
    var init := datasets[..|datasets| - 1];
    if i < |init| {
      assert init[i] == datasets[i];
      forall j | i < j < |init| ensures KeyOf(init[j]) != KeyOf(init[i]) {
        assert init[j] == datasets[j];
      }
      TablesOfLastWins(init, i);
    }
  }

  /** `_set_title`: the logfile string, then " (<int(AIRCRAFT_ID)>)" when that
      parameter exists. */
  function TitleOf(logfile: string, params: map<string, Value>): string
  {
    if "AIRCRAFT_ID" in params then logfile + " (" + IntToString(IntOf(params["AIRCRAFT_ID"])) + ")"
    else logfile
  }

  /** The title starts with the logfile string; the rest is empty exactly when
      there is no AIRCRAFT_ID, and otherwise reads back as that id. */
  lemma TitleOfSpec(logfile: string, params: map<string, Value>)
    ensures var t := TitleOf(logfile, params);
      && logfile <= t
      && (|t| == |logfile| <==> "AIRCRAFT_ID" !in params)
      && ("AIRCRAFT_ID" in params ==>
            |t| >= |logfile| + 3 && t[|logfile|..|logfile| + 2] == " (" && t[|t| - 1] == ')'
            && ParseSigned(t[|logfile| + 2..|t| - 1], 10) == Some(IntOf(params["AIRCRAFT_ID"])))
  {
    if "AIRCRAFT_ID" in params {
      var id := IntToString(IntOf(params["AIRCRAFT_ID"]));
      var t := TitleOf(logfile, params);
      assert t == logfile + " (" + id + ")";
      assert t[|logfile| + 2..|t| - 1] == id;
      assert t[|logfile|..|logfile| + 2] == " (";
      IntToStringRoundTrip(IntOf(params["AIRCRAFT_ID"]));
    }
  }

  /** The data frame of one dataset, built column by column as the inner loop of
      ulog_to_df does; the order the fields are visited in does not matter. */
  method BuildTable(ds: Dataset) returns (t: Table)
    requires "timestamp" in ds.data
    ensures t == TableOf(ds)
  {
    var ts := ds.data["timestamp"];
    var index := seq(|ts|, i requires 0 <= i < |ts| => AsReal(ts[i]) / 1000000.0);
    var names := ds.data.Keys - {"timestamp"};
    var done: set<string> := {};
    var columns: map<string, seq<Value>> := map[];
    while names != {}
      invariant names + done == ds.data.Keys - {"timestamp"} && names !! done
      invariant columns == map n | n in done :: ds.data[n]
      decreases names
    {
      var name :| name in names;
      columns := columns[name := ds.data[name]];
      done := done + {name};
      names := names - {name};
    }
    t := Table(index, columns);
  }

  /** The timestamps of the rows a mask selects, gathered row by row (pandas
      `index[mask].tolist()`). */
  method SelectRows(index: seq<real>, mask: seq<bool>) returns (list: seq<real>)
    requires |mask| == |index|
    ensures list == At(index, Positions(mask))
  {
    list := [];
    var i := 0;
    while i < |mask|
      invariant 0 <= i <= |mask|
      invariant list == At(index, Positions(mask[..i]))
    {
      assert mask[..i + 1][..i] == mask[..i];
      if mask[i] {
        list := list + [index[i]];
      }
      i := i + 1;
    }
    assert mask[..|mask|] == mask;
  }

  class GraphData {
    /** Topic tables, by topic key. */
    var dfDict: Tables
    var changedParameters: seq<ParameterChange>
    var pathToLogfile: string
    var forwardTransitionLines: seq<real>
    var backTransitionLines: seq<real>
    var showMarkerLine: bool
    var markerLinePos: real
    var initialParameters: map<string, Value>
    var title: string
    var logfileStr: string
    var loggedMessages: seq<LoggedMessage>
    var startTimestamp: int
    var lastTimestamp: int

    ghost predicate Valid()
      reads this`dfDict
    {
      AllAligned(dfDict)
    }

    function Lines(): TransitionLines
      reads this`forwardTransitionLines, this`backTransitionLines
    {
      TransitionLines(forwardTransitionLines, backTransitionLines)
    }

    constructor ()
      ensures Valid()
      ensures dfDict == map[] && changedParameters == [] && pathToLogfile == ""
      ensures forwardTransitionLines == [] && backTransitionLines == []
      ensures !showMarkerLine && markerLinePos == 0.0
      ensures initialParameters == map[] && title == "" && logfileStr == ""
    {
      dfDict := map[];
      changedParameters := [];
      pathToLogfile := "";
      forwardTransitionLines := [];
      backTransitionLines := [];
      showMarkerLine := false;
      markerLinePos := 0.0;
      initialParameters := map[];
      title := "";
      logfileStr := "";
      loggedMessages := [];
      startTimestamp := 0;
      lastTimestamp := 0;
    }

    /** `_set_title`. */
    method SetTitle()
      modifies this`title
      ensures title == TitleOf(logfileStr, initialParameters)
    {
      title := logfileStr;
      if "AIRCRAFT_ID" in initialParameters {
        title := title + " (" + IntToString(IntOf(initialParameters["AIRCRAFT_ID"])) + ")";
      }
    }

    /** `_get_transition_timestamps`: the lists become those of `Transitions`, and the
        outcome says whether it raised. */
    method GetTransitionTimestamps() returns (outcome: Outcome<TransitionError>)
      requires Valid()
      modifies this`forwardTransitionLines, this`backTransitionLines
      ensures (Lines(), outcome) == TransitionStep(dfDict, old(Lines()))
    {
      if "vehicle_status_0" !in dfDict {
        return Fail(MissingStatusTable);
      }
      var t := dfDict["vehicle_status_0"];
      if "in_transition_mode" !in t.columns {
        return Fail(MissingColumn("in_transition_mode"));
      }
      var mode := t.columns["in_transition_mode"];
      if !AnyNonZero(mode) {
        return Pass;
      }
      if "in_transition_to_fw" !in t.columns {
        return Fail(MissingColumn("in_transition_to_fw"));
      }
      var fw := t.columns["in_transition_to_fw"];
      var forward := SelectRows(t.index, ChangeMask(fw));
      PositionsNonEmpty(ChangeMask(fw));
      forward := forward[1..];
      assert forward == At(t.index, ForwardRows(fw));
      forwardTransitionLines := forward;
      if "is_rotary_wing" !in t.columns {
        return Fail(MissingColumn("is_rotary_wing"));
      }
      var rotary := t.columns["is_rotary_wing"];
      var back := SelectRows(t.index, BackMask(mode, rotary));
      assert back == At(t.index, BackCandidates(mode, rotary));
      if back == [] {
        assert BackRows(mode, rotary) == None;
        return Fail(NoBackTransition);
      }
      backTransitionLines := back[1..];
      assert backTransitionLines == At(t.index, BackRows(mode, rotary).value);
      outcome := Pass;
    }

    /** `_add_all_fields_to_df`: every derivation block applied to the tables. */
    method AddAllFieldsToDf(num: Numerics)
      requires Valid()
      modifies this`dfDict
      ensures dfDict == Derive.AllFields(old(dfDict), num)
      ensures Valid()
    {
      Derive.AllFieldsGrows(dfDict, num);
      dfDict := Derive.AllFields(dfDict, num);
    }

    /** The exception of `_get_transition_timestamps` ends `ulog_to_df`, so the
        derived fields are added only after a step that did not raise. */
    method AddFieldsUnlessRaised(outcome: Outcome<TransitionError>, num: Numerics)
      requires Valid()
      modifies this`dfDict
      ensures dfDict == if outcome.Pass? then Derive.AllFields(old(dfDict), num) else old(dfDict)
      ensures Valid()
    {
      if outcome.Pass? {
        AddAllFieldsToDf(num);
      }
    }

    /** The fields `ulog_to_df` copies from the log, and the title it derives. */
    ghost predicate HoldsMetadata(logfile: string, log: ULog)
      reads this`logfileStr, this`title, this`initialParameters, this`changedParameters
      reads this`loggedMessages, this`startTimestamp, this`lastTimestamp
    {
      && logfileStr == logfile && title == TitleOf(logfile, log.initialParameters)
      && initialParameters == log.initialParameters && changedParameters == log.changedParameters
      && loggedMessages == log.loggedMessages
      && startTimestamp == log.startTimestamp && lastTimestamp == log.lastTimestamp
    }

    /** `ulog_to_df`: clears and refills the tables from the log, copies the log's
        metadata, sets the title and the transition lists, and adds the derived
        fields. An exception from the transition step ends it before the fields are
        added. The file path, marker line and its flag are not touched. */
    method UlogToDf(logfile: string, log: ULog, num: Numerics) returns (outcome: Outcome<TransitionError>)
      requires AllWellShaped(log.dataList)
      modifies this`dfDict, this`logfileStr, this`title, this`changedParameters, this`initialParameters
      modifies this`loggedMessages, this`startTimestamp, this`lastTimestamp
      modifies this`forwardTransitionLines, this`backTransitionLines
      ensures Valid() && HoldsMetadata(logfile, log)
      ensures (Lines(), outcome) == TransitionStep(TablesOf(log.dataList), old(Lines()))
      ensures dfDict == if outcome.Pass? then Derive.AllFields(TablesOf(log.dataList), num)
                        else TablesOf(log.dataList)
    {
      outcome := Reload(logfile, log);
      AddFieldsUnlessRaised(outcome, num);
    }

    /** Everything `ulog_to_df` does before the derived fields. */
    method Reload(logfile: string, log: ULog) returns (outcome: Outcome<TransitionError>)
      requires AllWellShaped(log.dataList)
      modifies this`dfDict, this`logfileStr, this`title, this`changedParameters, this`initialParameters
      modifies this`loggedMessages, this`startTimestamp, this`lastTimestamp
      modifies this`forwardTransitionLines, this`backTransitionLines
      ensures Valid() && HoldsMetadata(logfile, log)
      ensures (Lines(), outcome) == TransitionStep(TablesOf(log.dataList), old(Lines()))
      ensures dfDict == TablesOf(log.dataList)
    {
      logfileStr := logfile;
      LoadTables(log.dataList);
      CopyMetadata(log);
      SetTitle();
      outcome := GetTransitionTimestamps();
    }

    /** The log's parameters, messages and start and end timestamps. */
    method CopyMetadata(log: ULog)
      modifies this`changedParameters, this`initialParameters, this`loggedMessages
      modifies this`startTimestamp, this`lastTimestamp
      ensures initialParameters == log.initialParameters && changedParameters == log.changedParameters
      ensures loggedMessages == log.loggedMessages
      ensures startTimestamp == log.startTimestamp && lastTimestamp == log.lastTimestamp
    {
      changedParameters := log.changedParameters;
      initialParameters := log.initialParameters;
      loggedMessages := log.loggedMessages;
      startTimestamp := log.startTimestamp;
      lastTimestamp := log.lastTimestamp;
    }

    /** The loop of `ulog_to_df`: df_dict is emptied, then each dataset's table is
        stored under its topic key. */
    method LoadTables(datasets: seq<Dataset>)
      requires AllWellShaped(datasets)
      modifies this`dfDict
      ensures dfDict == TablesOf(datasets) && Valid()
    {
      dfDict := map[];
      var i := 0;
      while i < |datasets|
        invariant 0 <= i <= |datasets|
        invariant dfDict == TablesOf(datasets[..i])
      {
        var ds := datasets[i];
        var table := BuildTable(ds);
        assert datasets[..i + 1][..i] == datasets[..i];
        dfDict := dfDict[TopicKey(ds.name, ds.multiId) := table];
        i := i + 1;
      }
      assert datasets[..i] == datasets;
    }
  }
}
