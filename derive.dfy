/** The derived columns of `_add_all_fields_to_df` in GraphData.py: best-effort
    blocks of column assignments, the yaw/pitch/roll and lat/lon helpers, the
    `dt*` forward difference and the expansion of two bit-field columns into 0/1
    flag columns. Only which columns appear, their length and the exact integer and
    index arithmetic are modelled; every floating-point value comes from `num`. */
module Derive {
  import opened Common
  import opened Tables

  // ---------------------------------------------------------------------------
  // Best-effort blocks
  // ---------------------------------------------------------------------------

  /** One assignment `df[output] = op(df[inputs[0]], ...)`. */
  datatype Step = Step(output: string, op: Op, inputs: seq<string>)

  /** One `try` block: assignments to the table `topic`, in order. */
  datatype Block = Block(topic: string, steps: seq<Step>)

  predicate HasInputs(t: Table, s: Step)
  {
    forall j :: 0 <= j < |s.inputs| ==> s.inputs[j] in t.columns
  }

  /** The column a step computes: `op` applied row by row to the input columns. */
  function Compute(t: Table, s: Step, num: Numerics): (col: seq<Value>)
    ensures |col| == |t.index|
    ensures forall i :: 0 <= i < |col| ==>
      col[i] == Real(num(s.op, seq(|s.inputs|, j requires 0 <= j < |s.inputs| => Cell(t, s.inputs[j], i))))
  {
    seq(|t.index|, i requires 0 <= i < |t.index| =>
      Real(num(s.op, seq(|s.inputs|, j requires 0 <= j < |s.inputs| => Cell(t, s.inputs[j], i)))))
  }

  /** The table after the block's steps: each step whose inputs exist adds its
      column; the first step with a missing input raises and ends the block, and the
      columns of the steps before it stay. */
  function RunSteps(t: Table, steps: seq<Step>, num: Numerics): Table
    decreases |steps|
  {
    if steps == [] || !HasInputs(t, steps[0]) then t
    else RunSteps(SetColumn(t, steps[0].output, Compute(t, steps[0], num)), steps[1..], num)
  }

  /** How many steps of the block complete. */
  function StepsRun(t: Table, steps: seq<Step>, num: Numerics): (n: nat)
    ensures n <= |steps|
    decreases |steps|
  {
    if steps == [] || !HasInputs(t, steps[0]) then 0
    else 1 + StepsRun(SetColumn(t, steps[0].output, Compute(t, steps[0], num)), steps[1..], num)
  }

  function Outputs(steps: seq<Step>): set<string>
  {
    set j | 0 <= j < |steps| :: steps[j].output
  }

  /** A block adds exactly the outputs of the steps that completed, and keeps the
      index. */
  lemma {:induction false} RunStepsAddsPrefix(t: Table, steps: seq<Step>, num: Numerics)
    ensures var r, n := RunSteps(t, steps, num), StepsRun(t, steps, num);
      && r.index == t.index
      && r.columns.Keys == t.columns.Keys + Outputs(steps[..n])
    decreases |steps|
  {
    if steps == [] || !HasInputs(t, steps[0]) {
      assert steps[..0] == [];
      assert Outputs([]) == {};
    } else {
      var t1 := SetColumn(t, steps[0].output, Compute(t, steps[0], num));
      var rest := steps[1..];
      RunStepsAddsPrefix(t1, rest, num);
      var n1 := StepsRun(t1, rest, num);
      assert steps[..n1 + 1] == [steps[0]] + rest[..n1];
      OutputsCons(steps[0], rest[..n1]);
    }
  }

  /** A column no completed step writes keeps its values. */
  lemma {:induction false} RunStepsKeepsColumns(t: Table, steps: seq<Step>, num: Numerics)
    ensures var r, n := RunSteps(t, steps, num), StepsRun(t, steps, num);
      forall c :: c in t.columns && c !in Outputs(steps[..n]) ==> c in r.columns && r.columns[c] == t.columns[c]
    decreases |steps|
  {
    if steps != [] && HasInputs(t, steps[0]) {
      var t1 := SetColumn(t, steps[0].output, Compute(t, steps[0], num));
      var rest := steps[1..];
      RunStepsKeepsColumns(t1, rest, num);
      var n1 := StepsRun(t1, rest, num);
      assert RunSteps(t, steps, num) == RunSteps(t1, rest, num);
      assert StepsRun(t, steps, num) == n1 + 1;
      assert steps[..n1 + 1] == [steps[0]] + rest[..n1];
      OutputsCons(steps[0], rest[..n1]);
      forall c | c in t.columns && c !in Outputs(steps[..n1 + 1])
        ensures c in t1.columns && t1.columns[c] == t.columns[c]
      {
      }
    }
  }

  /** A block that stops early stops at a step one of whose inputs is missing from
      the table the completed steps left. */
  lemma {:induction false} RunStepsStops(t: Table, steps: seq<Step>, num: Numerics)
    ensures var n := StepsRun(t, steps, num);
      n < |steps| ==> RunSteps(t, steps[..n], num) == RunSteps(t, steps, num)
                      && !HasInputs(RunSteps(t, steps, num), steps[n])
    decreases |steps|
  {
    if steps != [] && HasInputs(t, steps[0]) {
      var t1 := SetColumn(t, steps[0].output, Compute(t, steps[0], num));
      var rest := steps[1..];
      RunStepsStops(t1, rest, num);
      var n1 := StepsRun(t1, rest, num);
      if n1 < |rest| {
        RunStepsPrefix(t, steps, n1, num);
      }
    } else if steps != [] {
      assert steps[..0] == [];
    }
  }

  lemma OutputsCons(s: Step, steps: seq<Step>)
    ensures Outputs([s] + steps) == {s.output} + Outputs(steps)
  {
    var all := [s] + steps;
    forall x | x in Outputs(all) ensures x in {s.output} + Outputs(steps) {
      var j :| 0 <= j < |all| && all[j].output == x;
      if j > 0 { assert all[j] == steps[j - 1]; }
    }
    forall x | x in Outputs(steps) ensures x in Outputs(all) {
      var j :| 0 <= j < |steps| && steps[j].output == x;
      assert all[j + 1] == steps[j];
    }
    assert all[0] == s;
  }

  /** Running the first completed steps and the rest of their run agree. */
  lemma {:induction false} RunStepsPrefix(t: Table, steps: seq<Step>, n1: nat, num: Numerics)
    requires steps != [] && HasInputs(t, steps[0]) && n1 + 1 <= |steps|
    ensures RunSteps(t, steps[..n1 + 1], num)
         == RunSteps(SetColumn(t, steps[0].output, Compute(t, steps[0], num)), steps[1..][..n1], num)
  {
    var p := steps[..n1 + 1];
    assert p[0] == steps[0];
    assert p[1..] == steps[1..][..n1];
  }

  /** When every input is either already a column or the output of an earlier
      step, the whole block completes. */
  predicate InputsAvailable(t: Table, steps: seq<Step>)
  {
    forall k, j :: 0 <= k < |steps| && 0 <= j < |steps[k].inputs| ==>
      steps[k].inputs[j] in t.columns || steps[k].inputs[j] in Outputs(steps[..k])
  }

  lemma {:induction false} AvailableInputsCompleteBlock(t: Table, steps: seq<Step>, num: Numerics)
    requires InputsAvailable(t, steps)
    ensures StepsRun(t, steps, num) == |steps|
    decreases |steps|
  {
    if steps != [] {
      assert steps[..0] == [];
      assert HasInputs(t, steps[0]);
      var t1 := SetColumn(t, steps[0].output, Compute(t, steps[0], num));
      var rest := steps[1..];
      forall k, j | 0 <= k < |rest| && 0 <= j < |rest[k].inputs|
        ensures rest[k].inputs[j] in t1.columns || rest[k].inputs[j] in Outputs(rest[..k])
      {
        assert rest[k] == steps[k + 1];
        assert steps[..k + 1] == [steps[0]] + rest[..k];
        OutputsCons(steps[0], rest[..k]);
      }
      AvailableInputsCompleteBlock(t1, rest, num);
    }
  }

  lemma {:induction false} RunStepsAligned(t: Table, steps: seq<Step>, num: Numerics)
    requires Aligned(t)
    ensures Aligned(RunSteps(t, steps, num))
    decreases |steps|
  {
    if steps != [] && HasInputs(t, steps[0]) {
      RunStepsAligned(SetColumn(t, steps[0].output, Compute(t, steps[0], num)), steps[1..], num);
    }
  }

  /** A block leaves every other table alone; a missing table stops it at once. */
  function ApplyBlock(ts: Tables, b: Block, num: Numerics): Tables
  {
    if b.topic in ts then ts[b.topic := RunSteps(ts[b.topic], b.steps, num)] else ts
  }

  // ---------------------------------------------------------------------------
  // The blocks of _add_all_fields_to_df
  // ---------------------------------------------------------------------------

  const MagNorm := Block("sensor_combined_0", [
    Step("magnetometer_ga_norm*", Norm, ["magnetometer_ga[0]", "magnetometer_ga[1]", "magnetometer_ga[2]"])])

  const AccNorm := Block("sensor_combined_0", [
    Step("accelerometer_m_s2_norm*", Norm, ["accelerometer_m_s2[0]", "accelerometer_m_s2[1]", "accelerometer_m_s2[2]"])])

  const Wind := Block("wind_estimate_0", [
    Step("windspeed_magnitude*", Norm, ["windspeed_north", "windspeed_east"]),
    Step("windspeed_direction*", Atan2, ["variance_north", "variance_east"]),
    Step("windspeed_direction* [deg]", Rad2Deg, ["windspeed_direction*"])])

  const LocalVelocity := Block("vehicle_local_position_0", [
    Step("vxy*", Norm, ["vx", "vy"]),
    Step("vxyz*", Norm, ["vx", "vy", "vz"])])

  const GlobalVelocity := Block("vehicle_global_position_0", [
    Step("vel_ne*", Norm, ["vel_n", "vel_e"]),
    Step("vel_ned*", Norm, ["vel_n", "vel_e", "vel_d"])])

  function GpsVelocity(topic: string): Block
  {
    Block(topic, [
      Step("vel_ne_m_s*", Norm, ["vel_n_m_s", "vel_e_m_s"]),
      Step("gpsCOG*", Atan2, ["vel_e_m_s", "vel_n_m_s"]),
      Step("gpsCOG* [deg]", Rad2Deg, ["gpsCOG*"])])
  }

  const MagStates := Block("estimator_status_0", [
    Step("mag_declination_from_states*", Atan2, ["states[17]", "states[16]"]),
    Step("mag_declination_from_states* [deg]", Rad2Deg, ["mag_declination_from_states*"]),
    Step("mag_strength_from_states*", Norm, ["states[16]", "states[17]", "states[18]"]),
    Step("mag_inclination_from_states*", GuardedAsin, ["states[18]", "mag_strength_from_states*"]),
    Step("mag_inclination_from_states* [deg]", Rad2Deg, ["mag_inclination_from_states*"]),
    Step("ekfGOG*", Atan2, ["states[5]", "states[4]"]),
    Step("ekfGOG* [deg]", Rad2Deg, ["ekfGOG*"])])

  const Innovations := Block("ekf2_innovations_0", [
    Step("heading_innov_var^0.5", Sqrt, ["heading_innov_var"]),
    Step("mag_innov_var[0]^0.5", Sqrt, ["mag_innov_var[0]"]),
    Step("mag_innov_var[1]^0.5", Sqrt, ["mag_innov_var[1]"]),
    Step("mag_innov_var[2]^0.5", Sqrt, ["mag_innov_var[2]"]),
    Step("beta_innov_var^0.5", Sqrt, ["beta_innov_var"]),
    Step("vel_pos_innov_var[0]^0.5", Sqrt, ["vel_pos_innov_var[0]"]),
    Step("vel_pos_innov_var[1]^0.5", Sqrt, ["vel_pos_innov_var[1]"]),
    Step("vel_pos_innov_var[2]^0.5", Sqrt, ["vel_pos_innov_var[2]"]),
    Step("heading_innov* [deg]", Rad2Deg, ["heading_innov"])])

  /** _add_yaw_pitch_roll(topic, suffix): three angles from the quaternion columns
      suffix[0]..suffix[3], then each in degrees. */
  function YawPitchRoll(topic: string, suffix: string): Block
  {
    var q := [suffix + "[0]", suffix + "[1]", suffix + "[2]", suffix + "[3]"];
    Block(topic, [
      Step(suffix + "_yaw312*", Yaw312, q),
      Step(suffix + "_roll312*", Roll312, q),
      Step(suffix + "_pitch312*", Pitch312, q),
      Step(suffix + "_yaw312* [deg]", Rad2Deg, [suffix + "_yaw312*"]),
      Step(suffix + "_roll312* [deg]", Rad2Deg, [suffix + "_roll312*"]),
      Step(suffix + "_pitch312* [deg]", Rad2Deg, [suffix + "_pitch312*"])])
  }

  /** When the quaternion columns are present, all six angle columns appear. */
  lemma YawPitchRollComplete(t: Table, topic: string, suffix: string, num: Numerics)
    requires suffix + "[0]" in t.columns && suffix + "[1]" in t.columns
    requires suffix + "[2]" in t.columns && suffix + "[3]" in t.columns
    ensures StepsRun(t, YawPitchRoll(topic, suffix).steps, num) == 6
    ensures RunSteps(t, YawPitchRoll(topic, suffix).steps, num).columns.Keys
         == t.columns.Keys + {suffix + "_yaw312*", suffix + "_roll312*", suffix + "_pitch312*",
                              suffix + "_yaw312* [deg]", suffix + "_roll312* [deg]", suffix + "_pitch312* [deg]"}
  {
    var steps := YawPitchRoll(topic, suffix).steps;
    YawPitchRollInputs(t, topic, suffix);
    AvailableInputsCompleteBlock(t, steps, num);
    RunStepsAddsPrefix(t, steps, num);
    assert steps[..6] == steps;
    YawPitchRollOutputs(topic, suffix);
  }

  lemma YawPitchRollInputs(t: Table, topic: string, suffix: string)
    requires suffix + "[0]" in t.columns && suffix + "[1]" in t.columns
    requires suffix + "[2]" in t.columns && suffix + "[3]" in t.columns
    ensures InputsAvailable(t, YawPitchRoll(topic, suffix).steps)
  {
    var steps := YawPitchRoll(topic, suffix).steps;
    forall k, j | 0 <= k < |steps| && 0 <= j < |steps[k].inputs|
      ensures steps[k].inputs[j] in t.columns || steps[k].inputs[j] in Outputs(steps[..k])
    {
      if k >= 3 {
        assert steps[..k][k - 3] == steps[k - 3];
        assert steps[k - 3].output == steps[k].inputs[j];
      }
    }
  }

  lemma YawPitchRollOutputs(topic: string, suffix: string)
    ensures Outputs(YawPitchRoll(topic, suffix).steps)
         == {suffix + "_yaw312*", suffix + "_roll312*", suffix + "_pitch312*",
             suffix + "_yaw312* [deg]", suffix + "_roll312* [deg]", suffix + "_pitch312* [deg]"}
  {
    var steps := YawPitchRoll(topic, suffix).steps;
    forall x | x in Outputs(steps)
      ensures x in {suffix + "_yaw312*", suffix + "_roll312*", suffix + "_pitch312*",
                    suffix + "_yaw312* [deg]", suffix + "_roll312* [deg]", suffix + "_pitch312* [deg]"}
    {
      var j :| 0 <= j < |steps| && steps[j].output == x;
    }
    assert steps[0].output in Outputs(steps) && steps[1].output in Outputs(steps);
    assert steps[2].output in Outputs(steps) && steps[3].output in Outputs(steps);
    assert steps[4].output in Outputs(steps) && steps[5].output in Outputs(steps);
  }

  /** Wind magnitude is kept when the variance inputs of the next step are missing. */
  lemma WindMagnitudeSurvives(t: Table, num: Numerics)
    requires "windspeed_north" in t.columns && "windspeed_east" in t.columns
    requires "variance_north" !in t.columns
    ensures var r := ApplyBlock(map["wind_estimate_0" := t], Wind, num)["wind_estimate_0"];
      && "windspeed_magnitude*" in r.columns
      && ("windspeed_direction*" in r.columns <==> "windspeed_direction*" in t.columns)
  {
    var t1 := SetColumn(t, "windspeed_magnitude*", Compute(t, Wind.steps[0], num));
    assert HasInputs(t, Wind.steps[0]);
    assert !HasInputs(t1, Wind.steps[1]) by {
      assert Wind.steps[1].inputs[0] == "variance_north";
    }
    assert RunSteps(t, Wind.steps, num) == RunSteps(t1, Wind.steps[1..], num);
  }

  // ---------------------------------------------------------------------------
  // Latitude / longitude in metres
  // ---------------------------------------------------------------------------

  /** First row whose value is nonzero (`np.nonzero(...)[0][0]`). */
  function FirstNonZero(col: seq<Value>, from: nat): (r: Option<nat>)
    ensures r.Some? ==> from <= r.value < |col| && AsReal(col[r.value]) != 0.0
    ensures r.Some? ==> forall j :: from <= j < r.value ==> AsReal(col[j]) == 0.0
    ensures r.None? ==> forall j :: from <= j < |col| ==> AsReal(col[j]) == 0.0
    decreases |col| - from
  {
    if from >= |col| then None
    else if AsReal(col[from]) != 0.0 then Some(from)
    else FirstNonZero(col, from + 1)
  }

  /** The rows of vehicle_local_position_0 the anchor comes from, for latitude and
      for longitude (None: the first projected sample). The anchor is taken from the
      first row with a nonzero ref_timestamp. Any failure inside that `try` leaves
      what was assigned before it: ref_lat is read first, so a missing ref_lon
      gives a reference latitude with a first-sample longitude. */
  function AnchorRows(ts: Tables): (Option<nat>, Option<nat>)
  {
    if "vehicle_local_position_0" !in ts then (None, None)
    else
      var lp := ts["vehicle_local_position_0"].columns;
      if "ref_timestamp" !in lp then (None, None)
      else
        match FirstNonZero(lp["ref_timestamp"], 0)
        case None => (None, None)
        case Some(j) =>
          if "ref_lat" !in lp || j >= |lp["ref_lat"]| then (None, None)
          else if "ref_lon" !in lp || j >= |lp["ref_lon"]| then (Some(j), None)
          else (Some(j), Some(j))
  }

  lemma AnchorRowsSpec(ts: Tables)
    ensures var (la, lo) := AnchorRows(ts);
      && (lo.Some? ==> la == lo)
      && (la.Some? ==>
          var lp := ts["vehicle_local_position_0"].columns;
          && "vehicle_local_position_0" in ts && "ref_timestamp" in lp && "ref_lat" in lp
          && FirstNonZero(lp["ref_timestamp"], 0) == la
          && (lo.Some? <==> "ref_lon" in lp && la.value < |lp["ref_lon"]|))
      && (la.None? && "vehicle_local_position_0" in ts ==>
          var lp := ts["vehicle_local_position_0"].columns;
          "ref_timestamp" !in lp || FirstNonZero(lp["ref_timestamp"], 0).None? || "ref_lat" !in lp
          || FirstNonZero(lp["ref_timestamp"], 0).value >= |lp["ref_lat"]|)
  {
  }

  /** _add_lat_lon_m: degrees (divided by `div`) to radians, projected about the
      anchor into `lat + "_m*"` and `lon + "_m*"`. A missing table or column, or an
      empty latitude column, raises before anything is assigned. */
  function LatLonM(ts: Tables, topic: string, lat: string, lon: string, div: real, num: Numerics): Tables
    requires div != 0.0
  {
    if topic !in ts then ts
    else
      var t := ts[topic];
      if lat !in t.columns || lon !in t.columns || |t.columns[lat]| == 0 || |t.columns[lon]| == 0 then ts
      else
        var latRad := (i: nat) => num(Deg2Rad, [Cell(t, lat, i) / div]);
        var lonRad := (i: nat) => num(Deg2Rad, [Cell(t, lon, i) / div]);
        var (la, lo) := AnchorRows(ts);
        var ref := if "vehicle_local_position_0" in ts then ts["vehicle_local_position_0"] else t;
        var anchorLat := if la.Some? then num(Deg2Rad, [Cell(ref, "ref_lat", la.value)]) else latRad(0);
        var anchorLon := if lo.Some? then num(Deg2Rad, [Cell(ref, "ref_lon", lo.value)]) else lonRad(0);
        var x := seq(|t.index|, i requires 0 <= i < |t.index| =>
          Real(num(ProjectX, [latRad(i), lonRad(i), anchorLat, anchorLon])));
        var y := seq(|t.index|, i requires 0 <= i < |t.index| =>
          Real(num(ProjectY, [latRad(i), lonRad(i), anchorLat, anchorLon])));
        ts[topic := SetColumn(SetColumn(t, lat + "_m*", x), lon + "_m*", y)]
  }

  /** The two outputs appear exactly when the inputs are there; nothing else changes. */
  lemma LatLonMColumns(ts: Tables, topic: string, lat: string, lon: string, div: real, num: Numerics)
    requires div != 0.0
    ensures var r := LatLonM(ts, topic, lat, lon, div, num);
      var ok := topic in ts && lat in ts[topic].columns && lon in ts[topic].columns
                && |ts[topic].columns[lat]| > 0 && |ts[topic].columns[lon]| > 0;
      && r.Keys == ts.Keys
      && (forall k :: k in ts && k != topic ==> r[k] == ts[k])
      && (ok ==> r[topic].columns.Keys == ts[topic].columns.Keys + {lat + "_m*", lon + "_m*"}
                 && r[topic].index == ts[topic].index)
      && (!ok ==> r == ts)
      && (AllAligned(ts) ==> AllAligned(r))
  {
  }

  /** Row i of the outputs is the projection of row i about the anchor: the
      reference row's ref_lat / ref_lon where `AnchorRows` finds one, and otherwise
      the first sample of the table's own latitude / longitude. */
  lemma LatLonMAnchors(ts: Tables, topic: string, lat: string, lon: string, div: real, num: Numerics)
    requires div != 0.0
    ensures var r := LatLonM(ts, topic, lat, lon, div, num);
      var ok := topic in ts && lat in ts[topic].columns && lon in ts[topic].columns
                && |ts[topic].columns[lat]| > 0 && |ts[topic].columns[lon]| > 0;
      ok ==>
        var t, anchors := ts[topic], AnchorRows(ts);
        var ref := "vehicle_local_position_0" in ts;
        var aLat := if anchors.0.Some? && ref
          then num(Deg2Rad, [Cell(ts["vehicle_local_position_0"], "ref_lat", anchors.0.value)])
          else num(Deg2Rad, [Cell(t, lat, 0) / div]);
        var aLon := if anchors.1.Some? && ref
          then num(Deg2Rad, [Cell(ts["vehicle_local_position_0"], "ref_lon", anchors.1.value)])
          else num(Deg2Rad, [Cell(t, lon, 0) / div]);
        forall i :: 0 <= i < |t.index| ==>
          var p := [num(Deg2Rad, [Cell(t, lat, i) / div]), num(Deg2Rad, [Cell(t, lon, i) / div]), aLat, aLon];
          && (lat != lon ==> r[topic].columns[lat + "_m*"][i] == Real(num(ProjectX, p)))
          && r[topic].columns[lon + "_m*"][i] == Real(num(ProjectY, p))
  {
    AnchorRowsSpec(ts);
    if topic in ts && lat in ts[topic].columns && lon in ts[topic].columns
       && |ts[topic].columns[lat]| > 0 && |ts[topic].columns[lon]| > 0 {
      var t := ts[topic];
      var latRad := (i: nat) => num(Deg2Rad, [Cell(t, lat, i) / div]);
      var lonRad := (i: nat) => num(Deg2Rad, [Cell(t, lon, i) / div]);
      var (la, lo) := AnchorRows(ts);
      var ref := if "vehicle_local_position_0" in ts then ts["vehicle_local_position_0"] else t;
      var anchorLat := if la.Some? then num(Deg2Rad, [Cell(ref, "ref_lat", la.value)]) else latRad(0);
      var anchorLon := if lo.Some? then num(Deg2Rad, [Cell(ref, "ref_lon", lo.value)]) else lonRad(0);
      var x := seq(|t.index|, i requires 0 <= i < |t.index| =>
        Real(num(ProjectX, [latRad(i), lonRad(i), anchorLat, anchorLon])));
      var y := seq(|t.index|, i requires 0 <= i < |t.index| =>
        Real(num(ProjectY, [latRad(i), lonRad(i), anchorLat, anchorLon])));
      var r := LatLonM(ts, topic, lat, lon, div, num);
      assert r[topic] == SetColumn(SetColumn(t, lat + "_m*", x), lon + "_m*", y);
      assert r[topic].columns[lon + "_m*"] == y;
      if lat != lon {
        assert (lat + "_m*")[..|lat|] == lat && (lon + "_m*")[..|lon|] == lon;
        assert r[topic].columns[lat + "_m*"] == x;
      }
    }
  }

  // ---------------------------------------------------------------------------
  // dt*
  // ---------------------------------------------------------------------------

  /** `np.insert(np.diff(index) * 1e6, 0, 0)`. */
  function DtColumn(index: seq<real>): (col: seq<Value>)
    requires |index| > 0
    ensures |col| == |index| && col[0] == Real(0.0)
    ensures forall i :: 1 <= i < |index| ==> col[i] == Real((index[i] - index[i - 1]) * 1000000.0)
  {
    [Real(0.0)] + seq(|index| - 1, i requires 0 <= i < |index| - 1 => Real((index[i + 1] - index[i]) * 1000000.0))
  }

  function SumReals(col: seq<Value>): real
  {
    if col == [] then 0.0 else SumReals(col[..|col| - 1]) + AsReal(col[|col| - 1])
  }

  /** The first n differences add up to the time covered by the first n rows, in
      microseconds. */
  lemma {:induction false} DtTelescopes(index: seq<real>, n: nat)
    requires 1 <= n <= |index|
    ensures SumReals(DtColumn(index)[..n]) == (index[n - 1] - index[0]) * 1000000.0
  {
    var col := DtColumn(index);
    if n == 1 {
      assert col[..1] == [Real(0.0)];
      assert col[..1][..0] == [];
    } else {
      DtTelescopes(index, n - 1);
      assert col[..n][..n - 1] == col[..n - 1];
    }
  }

  /** The sensor_combined_0 `dt*` block: skipped for a missing table, and here also
      for an empty one, where pandas would instead re-index the frame to the
      one-element value's single row. */
  function AddDt(ts: Tables): Tables
  {
    if "sensor_combined_0" in ts && |ts["sensor_combined_0"].index| > 0 then
      var t := ts["sensor_combined_0"];
      ts["sensor_combined_0" := SetColumn(t, "dt*", DtColumn(t.index))]
    else ts
  }

  // ---------------------------------------------------------------------------
  // Bit flags
  // ---------------------------------------------------------------------------

  function Pow2(k: nat): (p: nat)
    ensures p >= 1
  {
    if k == 0 then 1 else 2 * Pow2(k - 1)
  }

  /** Bit k of v in two's complement, which is what `(2**k & v) > 0` tests. */
  predicate BitAt(v: int, k: nat)
  {
    (v / Pow2(k)) % 2 == 1
  }

  /** `((2**k & values) > 0) * 1`. */
  function FlagColumn(vals: seq<int>, k: nat): (col: seq<Value>)
    ensures |col| == |vals|
    ensures forall i :: 0 <= i < |vals| ==> col[i] == Int(if BitAt(vals[i], k) then 1 else 0)
  {
    seq(|vals|, i requires 0 <= i < |vals| => Int(if BitAt(vals[i], k) then 1 else 0))
  }

  /** The integers of a column; None when it holds floats, for which `&` raises. */
  function IntColumn(col: seq<Value>): (r: Option<seq<int>>)
    ensures r.Some? <==> forall i :: 0 <= i < |col| ==> col[i].Int?
    ensures r.Some? ==> |r.value| == |col| && forall i :: 0 <= i < |col| ==> r.value[i] == col[i].i
  {
    if forall i :: 0 <= i < |col| ==> col[i].Int? then Some(seq(|col|, i requires 0 <= i < |col| => col[i].i))
    else None
  }

  /** Bits 0..23 of control_mode_flags, in order. */
  const ControlStatusNames: seq<string> := [
    "CS_TILT_ALIGN", "CS_YAW_ALIGN", "CS_GPS", "CS_OPT_FLOW", "CS_MAG_HDG", "CS_MAG_3D",
    "CS_MAG_DEC", "CS_IN_AIR", "CS_WIND", "CS_BARO_HGT", "CS_RNG_HGT", "CS_GPS_HGT",
    "CS_EV_POS", "CS_EV_YAW", "CS_EV_HGT", "CS_BETA", "CS_MAG_FIELD", "CS_FIXED_WING",
    "CS_MAG_FAULT", "CS_ASPD", "CS_GND_EFFECT", "CS_RNG_STUCK", "CS_GPS_YAW", "CS_MAG_ALIGNED"]

  /** Bits 0..9 of gps_check_fail_flags, in order. */
  const GpsCheckFailNames: seq<string> := [
    "GPS_CHECK_FAIL_GPS_FIX", "GPS_CHECK_FAIL_MIN_SAT_COUNT", "GPS_CHECK_FAIL_MIN_GDOP",
    "GPS_CHECK_FAIL_MAX_HORZ_ERR", "GPS_CHECK_FAIL_MAX_VERT_ERR", "GPS_CHECK_FAIL_MAX_SPD_ERR",
    "GPS_CHECK_FAIL_MAX_HORZ_DRIFT", "GPS_CHECK_FAIL_MAX_VERT_DRIFT",
    "GPS_CHECK_FAIL_MAX_HORZ_SPD_ERR", "GPS_CHECK_FAIL_MAX_VERT_SPD_ERR"]

  predicate DistinctNames(names: seq<string>)
  {
    forall i, j :: 0 <= i < j < |names| ==> names[i] != names[j]
  }

  /** Assigns `names[k]` the flag column of bit k, for k from `from` on, in order. */
  function AddFlags(t: Table, names: seq<string>, vals: seq<int>, from: nat): Table
    decreases |names| - from
  {
    if from >= |names| then t
    else AddFlags(SetColumn(t, names[from], FlagColumn(vals, from)), names, vals, from + 1)
  }

  lemma {:induction false} AddFlagsSpec(t: Table, names: seq<string>, vals: seq<int>, from: nat)
    requires DistinctNames(names)
    ensures var r := AddFlags(t, names, vals, from);
      && r.index == t.index
      && r.columns.Keys == t.columns.Keys + NameSet(names, from)
      && (forall k :: from <= k < |names| ==> r.columns[names[k]] == FlagColumn(vals, k))
      && (forall c :: c in t.columns && c !in NameSet(names, from) ==> r.columns[c] == t.columns[c])
    decreases |names| - from
  {
    if from < |names| {
      var t1 := SetColumn(t, names[from], FlagColumn(vals, from));
      AddFlagsSpec(t1, names, vals, from + 1);
      var r := AddFlags(t1, names, vals, from + 1);
      assert NameSet(names, from) == {names[from]} + NameSet(names, from + 1);
      forall k | from <= k < |names| ensures r.columns[names[k]] == FlagColumn(vals, k) {
        if k == from {
          assert forall k' :: from + 1 <= k' < |names| ==> names[from] != names[k'];
        }
      }
    }
  }

  /** A decoder from control-status column names back to bit numbers. It stands for
      nothing in the logger: it exists so that `FlagNamesDistinct` can be proved
      name by name instead of pair by pair, telling the names apart by their length
      and one or two of their letters. */
  function ControlStatusBit(s: string): int
  {
    if |s| == 6 then 2
    else if |s| == 7 then (if s[3] == 'W' then 8 else if s[3] == 'B' then 15 else 19)
    else if |s| == 9 then
      (if s[3] == 'M' then 5 else if s[3] == 'I' then 7 else if s[6] == 'P' then 12 else if s[6] == 'Y' then 13 else 14)
    else if |s| == 10 then
      (if s[3] == 'M' then (if s[7] == 'H' then 4 else 6) else if s[3] == 'R' then 10 else if s[7] == 'H' then 11 else 22)
    else if |s| == 11 then (if s[3] == 'O' then 3 else 9)
    else if |s| == 12 then (if s[3] == 'Y' then 1 else if s[3] == 'M' then (if s[8] == 'I' then 16 else 18) else 21)
    else if |s| == 13 then (if s[3] == 'T' then 0 else if s[3] == 'F' then 17 else 20)
    else 23
  }

  /** The same device for the GPS-check column names. */
  function GpsCheckFailBit(s: string): int
  {
    if |s| == 22 then 0
    else if |s| == 23 then 2
    else if |s| == 26 then 5
    else if |s| == 27 then (if s[19] == 'H' then 3 else 4)
    else if |s| == 28 then 1
    else if |s| == 29 then (if s[19] == 'H' then 6 else 7)
    else if |s| > 19 && s[19] == 'H' then 8 else 9
  }

  /** Each flag column name decodes back to its bit, so no two bits share a column. */
  lemma FlagBitsDecode()
    ensures forall k :: 0 <= k < |ControlStatusNames| ==> ControlStatusBit(ControlStatusNames[k]) == k
    ensures forall k :: 0 <= k < |GpsCheckFailNames| ==> GpsCheckFailBit(GpsCheckFailNames[k]) == k
  {
  }

  /** The 24 control-status names and the 10 GPS-check names are 34 distinct columns. */
  lemma FlagNamesDistinct()
    ensures DistinctNames(ControlStatusNames) && DistinctNames(GpsCheckFailNames)
    ensures forall i, j :: 0 <= i < |ControlStatusNames| && 0 <= j < |GpsCheckFailNames| ==>
      ControlStatusNames[i] != GpsCheckFailNames[j]
  {
    FlagBitsDecode();
    forall i, j | 0 <= i < |ControlStatusNames| && 0 <= j < |GpsCheckFailNames|
      ensures ControlStatusNames[i] != GpsCheckFailNames[j]
    {
      assert ControlStatusNames[i][0] == 'C' && GpsCheckFailNames[j][0] == 'G';
    }
  }

  /** The names the flag columns from `from` on get. */
  function NameSet(names: seq<string>, from: nat): set<string>
  {
    set k | from <= k < |names| :: names[k]
  }

  /** The table the estimator_flags* block builds from estimator_status_0, with
      the bit names as parameters. None when control_mode_flags is missing or not
      integral (nothing is assigned); when gps_check_fail_flags then fails, the
      control-status columns stay. */
  function FlagTable(es: Table, csNames: seq<string>, gpsNames: seq<string>): Option<Table>
  {
    if "control_mode_flags" !in es.columns || IntColumn(es.columns["control_mode_flags"]).None? then None
    else
      var cs := IntColumn(es.columns["control_mode_flags"]).value;
      var flags := AddFlags(Table(es.index, map[]), csNames, cs, 0);
      if "gps_check_fail_flags" !in es.columns || IntColumn(es.columns["gps_check_fail_flags"]).None? then
        Some(flags)
      else
        Some(AddFlags(flags, gpsNames, IntColumn(es.columns["gps_check_fail_flags"]).value, 0))
  }

  predicate GpsFlagsReadable(es: Table)
  {
    "gps_check_fail_flags" in es.columns && IntColumn(es.columns["gps_check_fail_flags"]).Some?
  }

  /** Column k of each group is bit k of its word, row by row; the rows are
      estimator_status_0's; the table holds exactly the columns of the groups that
      could be read. */
  lemma FlagTableBits(es: Table, csNames: seq<string>, gpsNames: seq<string>)
    requires DistinctNames(csNames) && DistinctNames(gpsNames)
    requires forall i, j :: 0 <= i < |csNames| && 0 <= j < |gpsNames| ==> csNames[i] != gpsNames[j]
    requires "control_mode_flags" in es.columns && IntColumn(es.columns["control_mode_flags"]).Some?
    ensures FlagTable(es, csNames, gpsNames).Some?
    ensures var f := FlagTable(es, csNames, gpsNames).value;
      var cs := IntColumn(es.columns["control_mode_flags"]).value;
      && f.index == es.index
      && f.columns.Keys == NameSet(csNames, 0) + (if GpsFlagsReadable(es) then NameSet(gpsNames, 0) else {})
      && (forall k :: 0 <= k < |csNames| ==> f.columns[csNames[k]] == FlagColumn(cs, k))
      && (GpsFlagsReadable(es) ==>
          forall k :: 0 <= k < |gpsNames| ==>
            f.columns[gpsNames[k]] == FlagColumn(IntColumn(es.columns["gps_check_fail_flags"]).value, k))
  {
    var cs := IntColumn(es.columns["control_mode_flags"]).value;
    var t0 := Table(es.index, map[]);
    AddFlagsSpec(t0, csNames, cs, 0);
    var flags := AddFlags(t0, csNames, cs, 0);
    if GpsFlagsReadable(es) {
      AddFlagsSpec(flags, gpsNames, IntColumn(es.columns["gps_check_fail_flags"]).value, 0);
    }
  }

  /** The flag table has one value per estimator_status_0 row in every column. */
  lemma FlagTableAligned(es: Table, csNames: seq<string>, gpsNames: seq<string>)
    requires Aligned(es)
    ensures FlagTable(es, csNames, gpsNames).Some? ==> Aligned(FlagTable(es, csNames, gpsNames).value)
  {
    if "control_mode_flags" in es.columns && IntColumn(es.columns["control_mode_flags"]).Some? {
      var cs := IntColumn(es.columns["control_mode_flags"]).value;
      var t0 := Table(es.index, map[]);
      AddFlagsAligned(t0, csNames, cs, 0);
      if GpsFlagsReadable(es) {
        AddFlagsIndex(t0, csNames, cs, 0);
        AddFlagsAligned(AddFlags(t0, csNames, cs, 0), gpsNames, IntColumn(es.columns["gps_check_fail_flags"]).value, 0);
      }
    }
  }

  /** Stores the flag table built from estimator_status_0 as "estimator_flags*";
      nothing happens without estimator_status_0 or a readable control_mode_flags. */
  function AddFlagTable(ts: Tables, csNames: seq<string>, gpsNames: seq<string>): Tables
  {
    if "estimator_status_0" !in ts then ts
    else
      match FlagTable(ts["estimator_status_0"], csNames, gpsNames)
      case None => ts
      case Some(f) => ts["estimator_flags*" := f]
  }

  /** The estimator_flags* block. */
  function EstimatorFlags(ts: Tables): Tables
  {
    AddFlagTable(ts, ControlStatusNames, GpsCheckFailNames)
  }

  /** Each CS_* column k is 1 exactly where bit k of control_mode_flags is set, each
      GPS_CHECK_FAIL_* column likewise for gps_check_fail_flags; the rows are
      estimator_status_0's; the table has the 24 control-status columns, plus the 10
      GPS-check columns when that word could be read. */
  lemma EstimatorFlagsBits(ts: Tables)
    requires "estimator_status_0" in ts
    requires var es := ts["estimator_status_0"].columns;
      "control_mode_flags" in es && IntColumn(es["control_mode_flags"]).Some?
    ensures var es := ts["estimator_status_0"];
      var cs := IntColumn(es.columns["control_mode_flags"]).value;
      var f := EstimatorFlags(ts)["estimator_flags*"];
      && f.index == es.index
      && f.columns.Keys == NameSet(ControlStatusNames, 0)
                           + (if GpsFlagsReadable(es) then NameSet(GpsCheckFailNames, 0) else {})
      && (forall k :: 0 <= k < |ControlStatusNames| ==> f.columns[ControlStatusNames[k]] == FlagColumn(cs, k))
      && (GpsFlagsReadable(es) ==>
          forall k :: 0 <= k < |GpsCheckFailNames| ==>
            f.columns[GpsCheckFailNames[k]] == FlagColumn(IntColumn(es.columns["gps_check_fail_flags"]).value, k))
  {
    FlagNamesDistinct();
    FlagTableBits(ts["estimator_status_0"], ControlStatusNames, GpsCheckFailNames);
  }

  /** The 0/1 value of flag column k at a row, read as a number. */
  function Bit(v: int, k: nat): nat
  {
    if BitAt(v, k) then 1 else 0
  }

  /** The value the first n flag columns of a row encode. */
  function Reassemble(v: int, n: nat): int
  {
    if n == 0 then 0 else Reassemble(v, n - 1) + Bit(v, n - 1) * Pow2(n - 1)
  }

  /** The flag columns lose nothing below bit n: together they give back v mod 2^n,
      negative values included. */
  lemma {:induction false} ReassembleBits(v: int, n: nat)
    ensures Reassemble(v, n) == v % Pow2(n)
  {
    if n > 0 {
      ReassembleBits(v, n - 1);
      ModSplit(v, Pow2(n - 1));
    }
  }

  /** v mod 2a is v mod a plus a times the next bit of v / a. */
  lemma ModSplit(v: int, a: nat)
    requires a >= 1
    ensures v % (2 * a) == v % a + a * ((v / a) % 2)
  {
    var q, r := v / a, v % a;
    var q2, r2 := q / 2, q % 2;
    assert v == a * q + r && 0 <= r < a;
    assert q == 2 * q2 + r2 && 0 <= r2 < 2;
    assert v == (2 * a) * q2 + (a * r2 + r) by {
      assert a * q == a * (2 * q2 + r2) == (2 * a) * q2 + a * r2;
    }
    assert 0 <= a * r2 + r < 2 * a;
    ModUnique(v, 2 * a, q2, a * r2 + r);
  }

  lemma ModUnique(v: int, d: nat, q: int, r: int)
    requires d >= 1 && v == d * q + r && 0 <= r < d
    ensures v % d == r
  {
    var q0, r0 := v / d, v % d;
    assert v == d * q0 + r0 && 0 <= r0 < d;
    assert d * (q - q0) == r0 - r;
    if q > q0 {
      MulAtLeastOne(d, q - q0);
    } else if q < q0 {
      MulAtLeastOne(d, q0 - q);
    }
  }

  /** Reading the 24 control-status flags back gives the low 24 bits of the word. */
  lemma ControlFlagsRoundTrip(v: int)
    ensures Reassemble(v, |ControlStatusNames|) == v % Pow2(24)
  {
    ReassembleBits(v, 24);
  }

  // ---------------------------------------------------------------------------
  // _add_all_fields_to_df
  // ---------------------------------------------------------------------------

  /** The norm, wind, velocity, course, estimator-state and innovation blocks, in
      source order. */
  function SensorBlocks(ts: Tables, num: Numerics): Tables
  {
    var a := ApplyBlock(ts, MagNorm, num);
    var b := ApplyBlock(a, AccNorm, num);
    var c := ApplyBlock(b, Wind, num);
    var d := ApplyBlock(c, LocalVelocity, num);
    var e := ApplyBlock(d, GlobalVelocity, num);
    var f := ApplyBlock(e, GpsVelocity("vehicle_gps_position_0"), num);
    var g := ApplyBlock(f, GpsVelocity("vehicle_gps_position_1"), num);
    var h := ApplyBlock(g, MagStates, num);
    ApplyBlock(h, Innovations, num)
  }

  /** The five _add_yaw_pitch_roll calls. */
  function AttitudeBlocks(ts: Tables, num: Numerics): Tables
  {
    var a := ApplyBlock(ts, YawPitchRoll("vehicle_attitude_0", "q"), num);
    var b := ApplyBlock(a, YawPitchRoll("vehicle_attitude_groundtruth_0", "q"), num);
    var c := ApplyBlock(b, YawPitchRoll("vehicle_attitude_setpoint_0", "q_d"), num);
    var d := ApplyBlock(c, YawPitchRoll("estimator_status_0", "q"), num);
    ApplyBlock(d, YawPitchRoll("estimator_status_0", "states"), num)
  }

  /** The four _add_lat_lon_m calls: GPS positions in 1e-7 degrees, the others in degrees. */
  function PositionBlocks(ts: Tables, num: Numerics): Tables
  {
    var a := LatLonM(ts, "vehicle_gps_position_0", "lat", "lon", 10000000.0, num);
    var b := LatLonM(a, "vehicle_gps_position_1", "lat", "lon", 10000000.0, num);
    var c := LatLonM(b, "vehicle_global_position_0", "lat", "lon", 1.0, num);
    LatLonM(c, "position_setpoint_triplet_0", "current.lat", "current.lon", 1.0, num)
  }

  /** _add_all_fields_to_df: every block, in source order. */
  function AllFields(ts: Tables, num: Numerics): Tables
  {
    EstimatorFlags(AddDt(PositionBlocks(AttitudeBlocks(SensorBlocks(ts, num), num), num)))
  }

  /** Tables keep their index and their columns: an operation only adds columns,
      and only the estimator_flags* table may be created or replaced. */
  predicate Grows(ts: Tables, ts': Tables)
  {
    && ts.Keys <= ts'.Keys
    && forall k :: k in ts && k != "estimator_flags*" ==>
         ts'[k].index == ts[k].index && ts[k].columns.Keys <= ts'[k].columns.Keys
  }

  /** Grows, and keeps every table aligned. */
  predicate GrowsAligned(ts: Tables, ts': Tables)
  {
    Grows(ts, ts') && (AllAligned(ts) ==> AllAligned(ts'))
  }

  lemma GrowsTrans(a: Tables, b: Tables, c: Tables)
    requires GrowsAligned(a, b) && GrowsAligned(b, c)
    ensures GrowsAligned(a, c)
  {
  }

  lemma ApplyBlockGrows(ts: Tables, b: Block, num: Numerics)
    ensures GrowsAligned(ts, ApplyBlock(ts, b, num))
  {
    if b.topic in ts {
      RunStepsAddsPrefix(ts[b.topic], b.steps, num);
      if AllAligned(ts) { RunStepsAligned(ts[b.topic], b.steps, num); }
    }
  }

  lemma SensorBlocksGrow(ts: Tables, num: Numerics)
    ensures GrowsAligned(ts, SensorBlocks(ts, num))
  {
    var a := ApplyBlock(ts, MagNorm, num); ApplyBlockGrows(ts, MagNorm, num);
    var b := ApplyBlock(a, AccNorm, num); ApplyBlockGrows(a, AccNorm, num);
    var c := ApplyBlock(b, Wind, num); ApplyBlockGrows(b, Wind, num);
    var d := ApplyBlock(c, LocalVelocity, num); ApplyBlockGrows(c, LocalVelocity, num);
    var e := ApplyBlock(d, GlobalVelocity, num); ApplyBlockGrows(d, GlobalVelocity, num);
    var f := ApplyBlock(e, GpsVelocity("vehicle_gps_position_0"), num);
    ApplyBlockGrows(e, GpsVelocity("vehicle_gps_position_0"), num);
    var g := ApplyBlock(f, GpsVelocity("vehicle_gps_position_1"), num);
    ApplyBlockGrows(f, GpsVelocity("vehicle_gps_position_1"), num);
    var h := ApplyBlock(g, MagStates, num); ApplyBlockGrows(g, MagStates, num);
    ApplyBlockGrows(h, Innovations, num);
    GrowsTrans(ts, a, b); GrowsTrans(ts, b, c); GrowsTrans(ts, c, d); GrowsTrans(ts, d, e);
    GrowsTrans(ts, e, f); GrowsTrans(ts, f, g); GrowsTrans(ts, g, h);
    GrowsTrans(ts, h, SensorBlocks(ts, num));
  }

  lemma AttitudeBlocksGrow(ts: Tables, num: Numerics)
    ensures GrowsAligned(ts, AttitudeBlocks(ts, num))
  {
    var a := ApplyBlock(ts, YawPitchRoll("vehicle_attitude_0", "q"), num);
    ApplyBlockGrows(ts, YawPitchRoll("vehicle_attitude_0", "q"), num);
    var b := ApplyBlock(a, YawPitchRoll("vehicle_attitude_groundtruth_0", "q"), num);
    ApplyBlockGrows(a, YawPitchRoll("vehicle_attitude_groundtruth_0", "q"), num);
    var c := ApplyBlock(b, YawPitchRoll("vehicle_attitude_setpoint_0", "q_d"), num);
    ApplyBlockGrows(b, YawPitchRoll("vehicle_attitude_setpoint_0", "q_d"), num);
    var d := ApplyBlock(c, YawPitchRoll("estimator_status_0", "q"), num);
    ApplyBlockGrows(c, YawPitchRoll("estimator_status_0", "q"), num);
    ApplyBlockGrows(d, YawPitchRoll("estimator_status_0", "states"), num);
    GrowsTrans(ts, a, b); GrowsTrans(ts, b, c); GrowsTrans(ts, c, d);
    GrowsTrans(ts, d, AttitudeBlocks(ts, num));
  }

  lemma LatLonMGrows(ts: Tables, topic: string, lat: string, lon: string, div: real, num: Numerics)
    requires div != 0.0
    ensures GrowsAligned(ts, LatLonM(ts, topic, lat, lon, div, num))
  {
    LatLonMColumns(ts, topic, lat, lon, div, num);
  }

  lemma PositionBlocksGrow(ts: Tables, num: Numerics)
    ensures GrowsAligned(ts, PositionBlocks(ts, num))
  {
    var a := LatLonM(ts, "vehicle_gps_position_0", "lat", "lon", 10000000.0, num);
    LatLonMGrows(ts, "vehicle_gps_position_0", "lat", "lon", 10000000.0, num);
    var b := LatLonM(a, "vehicle_gps_position_1", "lat", "lon", 10000000.0, num);
    LatLonMGrows(a, "vehicle_gps_position_1", "lat", "lon", 10000000.0, num);
    var c := LatLonM(b, "vehicle_global_position_0", "lat", "lon", 1.0, num);
    LatLonMGrows(b, "vehicle_global_position_0", "lat", "lon", 1.0, num);
    LatLonMGrows(c, "position_setpoint_triplet_0", "current.lat", "current.lon", 1.0, num);
    GrowsTrans(ts, a, b); GrowsTrans(ts, b, c);
    GrowsTrans(ts, c, PositionBlocks(ts, num));
  }

  lemma AddDtGrows(ts: Tables)
    ensures GrowsAligned(ts, AddDt(ts))
  {
  }

  lemma {:induction false} AddFlagsAligned(t: Table, names: seq<string>, vals: seq<int>, from: nat)
    requires Aligned(t) && |vals| == |t.index|
    ensures Aligned(AddFlags(t, names, vals, from))
    decreases |names| - from
  {
    if from < |names| {
      AddFlagsAligned(SetColumn(t, names[from], FlagColumn(vals, from)), names, vals, from + 1);
    }
  }

  lemma AddFlagTableGrows(ts: Tables, csNames: seq<string>, gpsNames: seq<string>)
    ensures GrowsAligned(ts, AddFlagTable(ts, csNames, gpsNames))
  {
    if "estimator_status_0" in ts && AllAligned(ts) {
      FlagTableAligned(ts["estimator_status_0"], csNames, gpsNames);
    }
  }

  lemma EstimatorFlagsGrows(ts: Tables)
    ensures GrowsAligned(ts, EstimatorFlags(ts))
  {
    AddFlagTableGrows(ts, ControlStatusNames, GpsCheckFailNames);
  }

  lemma {:induction false} AddFlagsIndex(t: Table, names: seq<string>, vals: seq<int>, from: nat)
    ensures AddFlags(t, names, vals, from).index == t.index
    decreases |names| - from
  {
    if from < |names| {
      AddFlagsIndex(SetColumn(t, names[from], FlagColumn(vals, from)), names, vals, from + 1);
    }
  }

  /** _add_all_fields_to_df never removes a table or a logged column, never changes
      an index, and keeps every table aligned. */
  lemma AllFieldsGrows(ts: Tables, num: Numerics)
    ensures Grows(ts, AllFields(ts, num))
    ensures AllAligned(ts) ==> AllAligned(AllFields(ts, num))
  {
    var a := SensorBlocks(ts, num); SensorBlocksGrow(ts, num);
    var b := AttitudeBlocks(a, num); AttitudeBlocksGrow(a, num);
    var c := PositionBlocks(b, num); PositionBlocksGrow(b, num);
    var d := AddDt(c); AddDtGrows(c);
    EstimatorFlagsGrows(d);
    GrowsTrans(ts, a, b); GrowsTrans(ts, b, c); GrowsTrans(ts, c, d); GrowsTrans(ts, d, EstimatorFlags(d));
  }
}
