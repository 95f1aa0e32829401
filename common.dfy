/** Shared vocabulary: optional values, results of operations that can raise,
    and the digit strings that Python's `str(n)` and `"{0:b}".format(n)` produce. */
module Common {

  datatype Option<T> = None | Some(value: T)

  /** The value of an operation that either returns or raises. */
  datatype Result<T, E> = Ok(value: T) | Err(error: E)

  /** Completion of a statement sequence that either runs to its end or raises. */
  datatype Outcome<E> = Pass | Fail(error: E)

  /** True when every character of `s` is a digit below `base`. */
  predicate IsDigits(s: string, base: nat)
  {
    forall i :: 0 <= i < |s| ==> '0' <= s[i] && (s[i] as int) - ('0' as int) < base
  }

  function DigitChar(d: nat): (c: char)
    requires d < 10
    ensures '0' <= c <= '9' && (c as int) - ('0' as int) == d
  {
    (('0' as int) + d) as char
  }

  /** The most-significant-first digits of `n` in `base`, without leading zeros. */
  function NatToBase(n: nat, base: nat): (s: string)
    requires 2 <= base <= 10
    ensures |s| >= 1 && IsDigits(s, base)
    ensures s[0] != '0' || n == 0
    decreases n
  {
    if n < base then [DigitChar(n)]
    else
      DivisionShrinks(n, base);
      NatToBase(n / base, base) + [DigitChar(n % base)]
  }

  lemma DivisionShrinks(n: nat, base: nat)
    requires 2 <= base <= n
    ensures 1 <= n / base < n && n % base < base
    ensures n == (n / base) * base + n % base
  {
    var q, r := n / base, n % base;
    assert n == q * base + r && 0 <= r < base;
    MulAtLeast(q, base);
  }

  lemma {:induction false} MulAtLeast(q: int, b: nat)
    requires 2 <= b
    ensures q <= 0 ==> q * b <= 0
    ensures q >= 0 ==> q * b >= 2 * q
    decreases if q < 0 then -q else q
  {
    if q > 0 {
      MulAtLeast(q - 1, b);
      assert q * b == (q - 1) * b + b;
    } else if q < 0 {
      MulAtLeast(q + 1, b);
      assert q * b == (q + 1) * b - b;
    }
  }

  lemma {:induction false} MulAtLeastOne(d: nat, x: int)
    requires x >= 1
    ensures d * x >= d
    decreases x
  {
    if x > 1 {
      MulAtLeastOne(d, x - 1);
      assert d * x == d * (x - 1) + d;
    }
  }

  /** The number a most-significant-first digit string denotes. */
  function ParseDigits(s: string, base: nat): nat
    requires IsDigits(s, base)
    decreases |s|
  {
    if s == [] then 0
    else ParseDigits(s[..|s| - 1], base) * base + ((s[|s| - 1] as int) - ('0' as int))
  }

  lemma {:induction false} ParseNatToBase(n: nat, base: nat)
    requires 2 <= base <= 10
    ensures ParseDigits(NatToBase(n, base), base) == n
    decreases n
  {
    var s := NatToBase(n, base);
    if n < base {
      assert s[..|s| - 1] == [];
    } else {
      DivisionShrinks(n, base);
      assert s[..|s| - 1] == NatToBase(n / base, base);
      assert s[|s| - 1] == DigitChar(n % base);
      ParseNatToBase(n / base, base);
    }
  }

  /** Python's `str(i)` for an int. */
  function IntToString(i: int): string
  {
    if i < 0 then "-" + NatToBase(-i, 10) else NatToBase(i, 10)
  }

  /** Python's `"{0:b}".format(i)`: binary digits, with a leading minus for negatives. */
  function IntToBinary(i: int): string
  {
    if i < 0 then "-" + NatToBase(-i, 2) else NatToBase(i, 2)
  }

  /** Reads back an optionally signed digit string; None when it is not one. */
  function ParseSigned(s: string, base: nat): Option<int>
  {
    if |s| >= 2 && s[0] == '-' && IsDigits(s[1..], base) then Some(0 - ParseDigits(s[1..], base))
    else if |s| >= 1 && IsDigits(s, base) then Some(ParseDigits(s, base))
    else None
  }

  /** Reading back a plain or minus-prefixed digit string. */
  lemma ParseSignedDigits(d: string, base: nat)
    requires |d| >= 1 && IsDigits(d, base)
    ensures ParseSigned(d, base) == Some(ParseDigits(d, base))
    ensures ParseSigned("-" + d, base) == Some(0 - ParseDigits(d, base))
  {
    assert ("-" + d)[1..] == d;
    assert d[0] != '-';
  }

  lemma IntToStringRoundTrip(i: int)
    ensures ParseSigned(IntToString(i), 10) == Some(i)
  {
    var d := NatToBase(if i < 0 then -i else i, 10);
    ParseSignedDigits(d, 10);
    ParseNatToBase(if i < 0 then -i else i, 10);
  }

  lemma IntToBinaryRoundTrip(i: int)
    ensures ParseSigned(IntToBinary(i), 2) == Some(i)
  {
    var d := NatToBase(if i < 0 then -i else i, 2);
    ParseSignedDigits(d, 2);
    ParseNatToBase(if i < 0 then -i else i, 2);
  }
}
