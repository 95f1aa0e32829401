/** The hours:minutes:seconds arithmetic of `ulog_info` and `ulog_messages`
    (GraphData.py): a microsecond timestamp is cut to whole seconds with `int()`,
    then split with two `divmod(_, 60)`. The printing around it is not modelled. */
module LogInfo {
  import opened Common
  import opened Tables

  datatype Clock = Clock(h: int, m: int, s: int)

  /** `int(micros / 1e6)`: truncation toward zero of the quotient. */
  function Seconds(micros: int): int
  {
    TruncToInt(micros as real / 1000000.0)
  }

  /** For a non-negative timestamp the truncation is the integer floor. */
  lemma SecondsOfNonNegative(micros: int)
    requires micros >= 0
    ensures Seconds(micros) == micros / 1000000
  {
    var q, r := micros / 1000000, micros % 1000000;
    var x := micros as real / 1000000.0;
    assert micros == q * 1000000 + r && 0 <= r < 1000000;
    assert x == q as real + r as real / 1000000.0;
    assert q as real <= x < q as real + 1.0;
    var n := Seconds(micros);
    assert n as real <= x < n as real + 1.0;
  }

  /** `m, s = divmod(sec, 60); h, m = divmod(m, 60)`. Python's divmod floors, which
      for the positive divisor 60 is Dafny's division. */
  function Hms(sec: int): (c: Clock)
    ensures c.h * 3600 + c.m * 60 + c.s == sec
    ensures 0 <= c.m < 60 && 0 <= c.s < 60
  {
    var m1, s1 := sec / 60, sec % 60;
    Clock(m1 / 60, m1 % 60, s1)
  }

  /** The decomposition is the only one with minutes and seconds below 60. */
  lemma HmsUnique(sec: int, c: Clock)
    requires c.h * 3600 + c.m * 60 + c.s == sec
    requires 0 <= c.m < 60 && 0 <= c.s < 60
    ensures c == Hms(sec)
  {
    var d := Hms(sec);
    var a, b := c.h * 60 + c.m, d.h * 60 + d.m;
    assert a * 60 + c.s == sec && b * 60 + d.s == sec;
    DivModUnique(sec, 60, a, c.s, b, d.s);
    DivModUnique(a, 60, c.h, c.m, d.h, d.m);
  }

  lemma DivModUnique(n: int, d: int, q1: int, r1: int, q2: int, r2: int)
    requires d >= 1
    requires n == q1 * d + r1 && 0 <= r1 < d
    requires n == q2 * d + r2 && 0 <= r2 < d
    ensures q1 == q2 && r1 == r2
  {
    assert d * (q1 - q2) == r2 - r1;
    if q1 > q2 {
      MulAtLeastOne(d, q1 - q2);
    } else if q1 < q2 {
      MulAtLeastOne(d, q2 - q1);
    }
  }

  /** "Logging start time" of `ulog_info`. */
  function StartTime(startTimestamp: int): Clock
  {
    Hms(Seconds(startTimestamp))
  }

  /** "duration" of `ulog_info`. */
  function Duration(startTimestamp: int, lastTimestamp: int): Clock
  {
    Hms(Seconds(lastTimestamp - startTimestamp))
  }

  /** The time printed before each logged message in `ulog_messages`. */
  function MessageTime(timestamp: int): Clock
  {
    Hms(Seconds(timestamp))
  }

  /** For the timestamps a log holds (non-negative microseconds), the clock gives
      back the whole seconds: h * 3600 + m * 60 + s == floor(t / 1e6). */
  lemma MessageTimeSeconds(timestamp: int)
    requires timestamp >= 0
    ensures var c := MessageTime(timestamp);
      c.h * 3600 + c.m * 60 + c.s == timestamp / 1000000 && 0 <= c.m < 60 && 0 <= c.s < 60 && c.h >= 0
  {
    SecondsOfNonNegative(timestamp);
  }

  lemma DurationSeconds(startTimestamp: int, lastTimestamp: int)
    requires startTimestamp <= lastTimestamp
    ensures var c := Duration(startTimestamp, lastTimestamp);
      c.h * 3600 + c.m * 60 + c.s == (lastTimestamp - startTimestamp) / 1000000 && 0 <= c.m < 60 && 0 <= c.s < 60
  {
    SecondsOfNonNegative(lastTimestamp - startTimestamp);
  }
}
