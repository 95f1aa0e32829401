/** The per-topic tables GraphData.py builds from a log: a time index and named
    columns of equal length. Cell values keep the one distinction the code depends
    on, integer versus floating-point storage; floating-point maths itself is a
    parameter. */
module Tables {
  import opened Common

  /** One cell: integer storage (flags, raw coordinates, timestamps) or floating point. */
  datatype Value = Int(i: int) | Real(r: real)

  function AsReal(v: Value): real
  {
    match v
    case Int(i) => i as real
    case Real(r) => r
  }

  /** Python's `int()` on a float: truncation toward zero. */
  function TruncToInt(r: real): (n: int)
    ensures r >= 0.0 ==> 0 <= n && n as real <= r < n as real + 1.0
    ensures r < 0.0 ==> n <= 0 && n as real - 1.0 < r <= n as real
  {
    if r >= 0.0 then r.Floor else -((-r).Floor)
  }

  /** Python's `int()` on a cell value. */
  function IntOf(v: Value): int
  {
    match v
    case Int(i) => i
    case Real(r) => TruncToInt(r)
  }

  lemma IntOfIntegral(v: Value)
    requires v.Int? || v.r == v.r.Floor as real
    ensures IntOf(v) as real == AsReal(v)
  {
    if v.Real? && v.r < 0.0 {
      var n := v.r.Floor;
      assert -v.r == (-n) as real;
      assert ((-n) as real).Floor == -n;
      assert TruncToInt(v.r) == n;
    }
  }

  /** A data frame: an index (seconds) and named columns. */
  datatype Table = Table(index: seq<real>, columns: map<string, seq<Value>>)

  /** Every column has one value per index entry, as pandas enforces on assignment. */
  predicate Aligned(t: Table)
  {
    forall c :: c in t.columns ==> |t.columns[c]| == |t.index|
  }

  /** df_dict: topic tables by key. */
  type Tables = map<string, Table>

  predicate AllAligned(ts: Tables)
  {
    forall k :: k in ts ==> Aligned(ts[k])
  }

  /** The floating-point operations the derivations apply. Their values are not
      modelled; a `Numerics` function stands for them. */
  datatype Op =
    | Norm        // square root of the sum of squares
    | Atan2       // arctan2(first, second)
    | Rad2Deg
    | Deg2Rad
    | Sqrt
    | GuardedAsin // arcsin(first / max(second, float32 epsilon))
    | Yaw312
    | Roll312
    | Pitch312
    | ProjectX    // azimuthal equidistant projection, north offset
    | ProjectY    // azimuthal equidistant projection, east offset

  type Numerics = (Op, seq<real>) -> real

  /** Row `i` of column `name` as a float (0.0 outside the column, which aligned
      tables never reach). */
  function Cell(t: Table, name: string, i: nat): real
  {
    if name in t.columns && i < |t.columns[name]| then AsReal(t.columns[name][i]) else 0.0
  }

  /** `df[name] = column`: adds or replaces one column. */
  function SetColumn(t: Table, name: string, col: seq<Value>): (r: Table)
    ensures r.index == t.index && r.columns.Keys == t.columns.Keys + {name}
    ensures r.columns[name] == col
    ensures forall c :: c in t.columns && c != name ==> r.columns[c] == t.columns[c]
    ensures Aligned(t) && |col| == |t.index| ==> Aligned(r)
  {
    t.(columns := t.columns[name := col])
  }
}
