/**
 * Go's `strconv.ParseUint`, `strconv.ParseInt`, `strconv.Atoi` and
 * `strconv.FormatInt(x, 10)` on 64-bit integers, as the utilities and the
 * migration-file parser use them. Go walks the bytes left to right and stops
 * at the first byte that is not a digit of the base or that overflows; the
 * fold below recurses on the last character with failures absorbing, which
 * is the same early exit. Base 0 (prefix detection and `_` separators) is
 * not modelled.
 */
module Strconv {
  import opened Wrappers

  const MaxUint64: int := 0xFFFF_FFFF_FFFF_FFFF
  const MaxInt64: int := 0x7FFF_FFFF_FFFF_FFFF
  const MinInt64: int := -0x8000_0000_0000_0000

  /** Go's int64 (and int on a 64-bit platform). */
  type Int64 = x: int | MinInt64 <= x <= MaxInt64

  /** strconv.NumError's Err values. */
  datatype NumError = ErrSyntax | ErrRange | ErrBase | ErrBitSize

  /** A (value, error) pair as strconv returns it. */
  datatype NumResult = NumResult(value: int, err: Option<NumError>)

  /** Digit value of one byte in any base up to 36: 0-9, then a-z / A-Z. */
  function DigitValue(c: char): (d: Option<nat>)
    ensures d.Some? ==> d.value < 36
  {
    if '0' <= c <= '9' then Some(c as int - '0' as int)
    else if 'a' <= c <= 'z' then Some(c as int - 'a' as int + 10)
    else if 'A' <= c <= 'Z' then Some(c as int - 'A' as int + 10)
    else None
  }

  /** The state of ParseUint's digit loop: the accumulated value, or why it stopped. */
  datatype Scan = Acc(n: nat) | Stopped(err: NumError)

  /** One iteration of ParseUint's loop on byte `c`, with accumulator `n`. */
  function ScanStep(n: nat, c: char, base: nat, maxVal: nat): (r: Scan)
    requires 2 <= base <= 36
    ensures r.Acc? ==> r.n <= maxVal
    ensures r.Stopped? ==> r.err == ErrSyntax || r.err == ErrRange
  {
    match DigitValue(c)
    case None => Stopped(ErrSyntax)
    case Some(d) =>
      if d >= base then Stopped(ErrSyntax)
      else if n >= MaxUint64 / base + 1 then Stopped(ErrRange)
      else if n * base + d > maxVal then Stopped(ErrRange)
      else Acc(n * base + d)
  }

  /** ParseUint's loop over all of `s`, starting from 0. */
  function ScanDigits(s: string, base: nat, maxVal: nat): Scan
    requires 2 <= base <= 36
    decreases |s|
  {
    if s == [] then Acc(0)
    else match ScanDigits(s[..|s| - 1], base, maxVal)
      case Acc(n) => ScanStep(n, s[|s| - 1], base, maxVal)
      case Stopped(e) => Stopped(e)
  }

  /** The bit size ParseUint and ParseInt actually use: 0 means 64. */
  function EffectiveBits(bitSize: int): int
  {
    if bitSize == 0 then 64 else bitSize
  }

  function Pow2(k: nat): (r: nat)
    ensures r >= 1
  {
    if k == 0 then 1 else 2 * Pow2(k - 1)
  }

  /** strconv.ParseUint(s, base, bitSize) for base 2..36 (base 0 is not modelled). */
  function ParseUint(s: string, base: int, bitSize: int): (r: NumResult)
    requires base != 0
    ensures r.err.None? && 0 <= bitSize <= 64 ==> 0 <= r.value < Pow2(EffectiveBits(bitSize))
  {
    if s == [] then NumResult(0, Some(ErrSyntax))
    else if !(2 <= base <= 36) then NumResult(0, Some(ErrBase))
    else if bitSize < 0 || bitSize > 64 then NumResult(0, Some(ErrBitSize))
    else
      var maxVal := Pow2(EffectiveBits(bitSize)) - 1;
      match ScanDigits(s, base, maxVal)
      case Acc(n) => NumResult(n, None)
      case Stopped(ErrRange) => NumResult(maxVal, Some(ErrRange))
      case Stopped(e) => NumResult(0, Some(e))
  }

  /**
   * strconv.ParseInt(s, base, bitSize): an optional sign, then ParseUint of the
   * rest; out-of-range magnitudes are clamped to the bit size's limits.
   */
  function ParseInt(s: string, base: int, bitSize: int): NumResult
    requires base != 0
  {
    if s == [] then NumResult(0, Some(ErrSyntax))
    else
      var neg := s[0] == '-';
      var digits := if s[0] == '+' || s[0] == '-' then s[1..] else s;
      var u := ParseUint(digits, base, bitSize);
      if u.err.Some? && u.err.value != ErrRange then NumResult(0, u.err)
      else
        var cutoff := Pow2(EffectiveBits(bitSize) - 1);
        if !neg && u.value >= cutoff then NumResult(cutoff - 1, Some(ErrRange))
        else if neg && u.value > cutoff then NumResult(-(cutoff as int), Some(ErrRange))
        else NumResult(if neg then -u.value else u.value, None)
  }

  /** A scan whose first byte is rejected stays stopped with that error. */
  lemma {:induction false} ScanStopsAtHead(s: string, base: nat, maxVal: nat)
    requires 2 <= base <= 36 && |s| >= 1 && ScanStep(0, s[0], base, maxVal).Stopped?
    ensures ScanDigits(s, base, maxVal) == ScanStep(0, s[0], base, maxVal)
    decreases |s|
  {
    if |s| > 1 {
      ScanStopsAtHead(s[..|s| - 1], base, maxVal);
      assert s[..|s| - 1][0] == s[0];
    } else {
      assert s[..0] == [];
    }
  }

  /**
   * strconv.Atoi on a 64-bit platform. Go's short-string fast path gives the
   * same value and the same error-ness as ParseInt(s, 10, 0).
   */
  function Atoi(s: string): NumResult
  {
    ParseInt(s, 10, 0)
  }

  /** Text that, after an optional sign, does not start with a decimal digit reads as 0 with a syntax error. */
  lemma AtoiNonNumeric(s: string)
    requires var d := if s != [] && (s[0] == '+' || s[0] == '-') then s[1..] else s;
      d == [] || !('0' <= d[0] <= '9')
    ensures Atoi(s) == NumResult(0, Some(ErrSyntax))
  {
    if s != [] {
      var d := if s[0] == '+' || s[0] == '-' then s[1..] else s;
      if d != [] {
        ScanStopsAtHead(d, 10, Pow2(63 + 1) - 1);
      }
    }
  }

  function DigitChar(d: nat): (c: char)
    requires d < 10
    ensures DigitValue(c) == Some(d)
  {
    ('0' as int + d) as char
  }

  /** The decimal digits of `n`, most significant first, without leading zeros. */
  function Decimal(n: nat): (s: string)
    ensures |s| >= 1
    ensures forall i :: 0 <= i < |s| ==> '0' <= s[i] <= '9'
  {
    if n < 10 then [DigitChar(n)] else Decimal(n / 10) + [DigitChar(n % 10)]
  }

  /** strconv.FormatInt(x, 10). */
  function FormatInt(x: int): (s: string)
    ensures forall i :: 0 <= i < |s| ==> '0' <= s[i] <= '9' || s[i] == '-'
  {
    if x < 0 then "-" + Decimal(-x) else Decimal(x)
  }

  /** Every 64-bit ParseInt result lies in the range of the requested bit size. */
  lemma ParseIntInRange(s: string, base: int, bitSize: int)
    requires base != 0
    requires 1 <= EffectiveBits(bitSize) <= 64
    ensures var r := ParseInt(s, base, bitSize);
      -(Pow2(EffectiveBits(bitSize) - 1) as int) <= r.value <= Pow2(EffectiveBits(bitSize) - 1) - 1
  {
    var b := EffectiveBits(bitSize);
    assert Pow2(b) == 2 * Pow2(b - 1);
  }

  lemma {:induction false} Pow2Add(a: nat, b: nat)
    ensures Pow2(a + b) == Pow2(a) * Pow2(b)
    decreases a
  {
    if a > 0 {
      Pow2Add(a - 1, b);
    }
  }

  lemma Pow2Of8()
    ensures Pow2(8) == 0x100
  {
    assert Pow2(4) == 16;
    Pow2Add(4, 4);
  }

  lemma Pow2Of32()
    ensures Pow2(32) == 0x1_0000_0000
  {
    Pow2Of8();
    Pow2Add(8, 8);
    Pow2Add(16, 16);
  }

  lemma Pow2Facts()
    ensures Pow2(63) == MaxInt64 + 1
    ensures Pow2(64) == MaxUint64 + 1
  {
    Pow2Of32();
    Pow2Add(32, 32);
    Pow2Add(32, 31);
    Pow2Add(1, 31);
  }

  /** The loop of ParseUint reads the digits of `n` back as `n`. */
  lemma {:induction false} ScanDecimal(n: nat)
    requires n <= MaxUint64
    ensures ScanDigits(Decimal(n), 10, MaxUint64) == Acc(n)
    decreases n
  {
    var s := Decimal(n);
    if n < 10 {
      assert s[..|s| - 1] == [];
    } else {
      ScanDecimal(n / 10);
      assert s[..|s| - 1] == Decimal(n / 10);
      assert s[|s| - 1] == DigitChar(n % 10);
      assert n / 10 < MaxUint64 / 10 + 1;
      assert (n / 10) * 10 + n % 10 == n;
    }
  }

  /** ParseInt(FormatInt(x, 10), 10, 64) == x for every int64 `x`, without error. */
  lemma FormatParseRoundTrip(x: Int64)
    ensures ParseInt(FormatInt(x), 10, 64) == NumResult(x, None)
  {
    Pow2Facts();
    var s := FormatInt(x);
    if x < 0 {
      var m: nat := -(x as int);
      ScanDecimal(m);
      assert s[0] == '-' && s[1..] == Decimal(m);
      assert ParseUint(s[1..], 10, 64) == NumResult(m, None);
    } else {
      ScanDecimal(x);
      assert '0' <= s[0] <= '9';
      assert ParseUint(s, 10, 64) == NumResult(x, None);
    }
  }
}
