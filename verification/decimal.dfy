/**
 * The Go integer conversions the authorization code relies on: `strconv.Itoa`,
 * `strconv.ParseUint(s, 10, 64)` and the 64-bit `int`/`uint64` casts.
 */
module Decimal {
  import opened Wrappers
  import opened Errors

  const MaxUint64: int := 0xFFFF_FFFF_FFFF_FFFF

  type Uint64 = x: int | 0 <= x <= 0xFFFF_FFFF_FFFF_FFFF
  type Int64 = x: int | -0x8000_0000_0000_0000 <= x < 0x8000_0000_0000_0000

  /** Go's `uint64(i)`: the two's-complement reinterpretation of an int64. */
  function Uint64FromInt64(i: Int64): (u: Uint64)
    ensures u % 0x1_0000_0000_0000_0000 == i % 0x1_0000_0000_0000_0000
    ensures u < 0x8000_0000_0000_0000 <==> 0 <= i
  {
    if i >= 0 then i else i + 0x1_0000_0000_0000_0000
  }

  /** Go's `int(u)` on a 64-bit platform; it wraps ids of 2^63 and above to negatives. */
  function Int64FromUint64(u: Uint64): (i: Int64)
    ensures Uint64FromInt64(i) == u
    ensures 0 <= i <==> u < 0x8000_0000_0000_0000
    ensures 0 <= i ==> i == u
  {
    if u < 0x8000_0000_0000_0000 then u else u - 0x1_0000_0000_0000_0000
  }

  predicate IsDigit(c: char) {
    '0' <= c <= '9'
  }

  predicate AllDigits(s: string) {
    forall i | 0 <= i < |s| :: IsDigit(s[i])
  }

  function DigitValue(c: char): nat
    requires IsDigit(c)
  {
    c as int - '0' as int
  }

  function DigitChar(d: nat): (c: char)
    requires d < 10
    ensures IsDigit(c) && DigitValue(c) == d
  {
    (d + '0' as int) as char
  }

  /** The decimal digits of `n`, most significant first, without leading zeros. */
  function FormatUint(n: nat): (s: string)
    ensures 1 <= |s| && AllDigits(s)
    ensures |s| > 1 ==> s[0] != '0'
    decreases n
  {
    if n < 10 then [DigitChar(n)] else FormatUint(n / 10) + [DigitChar(n % 10)]
  }

  /** strconv.Itoa: an optional minus sign, then the decimal digits without leading zeros. */
  function Itoa(i: int): (s: string)
    ensures 1 <= |s|
    ensures (s[0] == '-') <==> i < 0
    ensures i < 0 ==> 2 <= |s| && AllDigits(s[1..]) && s[1] != '0'
    ensures 0 <= i ==> AllDigits(s) && (|s| > 1 ==> s[0] != '0')
  {
    if i < 0 then "-" + FormatUint(-i) else FormatUint(i)
  }

  /** The value of a digit string read left to right onto the accumulator `acc`. */
  function Accumulate(acc: nat, s: string): nat
    requires AllDigits(s)
    decreases |s|
  {
    if s == [] then acc else Accumulate(acc * 10 + DigitValue(s[0]), s[1..])
  }

  /**
   * The digit loop of strconv.ParseUint(s, 10, 64): the first character that is not a
   * digit stops it with value 0 and a syntax error; the first digit that would carry the
   * value past 2^64-1 stops it with value 2^64-1 and a range error.
   */
  function Scan(acc: Uint64, s: string): (r: (Uint64, Option<Error>))
    ensures r.1 == Some(NumberSyntax) ==> r.0 == 0
    ensures r.1.Some? ==> r.1 == Some(NumberSyntax) || r == (MaxUint64, Some(NumberRange))
    decreases |s|
  {
    if s == [] then (acc, None)
    else if !IsDigit(s[0]) then (0, Some(NumberSyntax))
    else if acc * 10 + DigitValue(s[0]) > MaxUint64 then (MaxUint64, Some(NumberRange))
    else Scan(acc * 10 + DigitValue(s[0]), s[1..])
  }

  /** strconv.ParseUint(s, 10, 64), as the Go pair (value, error). */
  function ParseUint(s: string): (r: (Uint64, Option<Error>))
    ensures r.1 == Some(NumberSyntax) ==> r.0 == 0
    ensures r.1.Some? ==> r.1 == Some(NumberSyntax) || r == (MaxUint64, Some(NumberRange))
  {
    if s == [] then (0, Some(NumberSyntax)) else Scan(0, s)
  }

  lemma {:induction false} AccumulateAtLeast(acc: nat, s: string)
    requires AllDigits(s)
    ensures Accumulate(acc, s) >= acc
    decreases |s|
  {
    if s != [] {
      AccumulateAtLeast(acc * 10 + DigitValue(s[0]), s[1..]);
    }
  }

  lemma {:induction false} AccumulateAppend(acc: nat, a: string, b: string)
    requires AllDigits(a) && AllDigits(b)
    ensures AllDigits(a + b)
    ensures Accumulate(acc, a + b) == Accumulate(Accumulate(acc, a), b)
    decreases |a|
  {
    if a == [] {
      assert a + b == b;
    } else {
      assert (a + b)[0] == a[0] && (a + b)[1..] == a[1..] + b;
      AccumulateAppend(acc * 10 + DigitValue(a[0]), a[1..], b);
    }
  }

  /** On a digit string the scan yields the string's value, or the range error when it
      does not fit in 64 bits. */
  lemma {:induction false} ScanDigits(acc: Uint64, s: string)
    requires AllDigits(s)
    ensures Scan(acc, s) == if Accumulate(acc, s) <= MaxUint64 then (Accumulate(acc, s), None)
                            else (MaxUint64, Some(NumberRange))
    decreases |s|
  {
    if s != [] {
      var next := acc * 10 + DigitValue(s[0]);
      AccumulateAtLeast(next, s[1..]);
      if next <= MaxUint64 {
        ScanDigits(next, s[1..]);
      }
    }
  }

  lemma {:induction false} AccumulateFormat(n: nat)
    ensures Accumulate(0, FormatUint(n)) == n
  {
    if n >= 10 {
      AccumulateFormat(n / 10);
      AccumulateAppend(0, FormatUint(n / 10), [DigitChar(n % 10)]);
    }
  }

  /** ParseUint inverts Itoa on exactly the uint64 range; a negative number is a syntax
      error (the sign) and a number above 2^64-1 a range error. */
  lemma ParseItoa(i: int)
    ensures ParseUint(Itoa(i)) == if i < 0 then (0, Some(NumberSyntax))
                                  else if i <= MaxUint64 then (i, None)
                                  else (MaxUint64, Some(NumberRange))
  {
    if i >= 0 {
      AccumulateFormat(i);
      ScanDigits(0, FormatUint(i));
    }
  }

  /** A value whose first non-digit character comes within its first 20 characters (a
      UUID, a word, an empty string) parses to 0 with a syntax error: 19 digits never
      overflow 64 bits, so the syntax error is met first. */
  lemma ParseNonNumeric(s: string, k: nat)
    requires k < |s| && k <= 19 && !IsDigit(s[k]) && AllDigits(s[..k])
    ensures ParseUint(s) == (0, Some(NumberSyntax))
  {
    ScanPrefixBelow(0, s, k);
  }

  lemma {:induction false} ScanPrefixBelow(acc: Uint64, s: string, k: nat)
    requires k <= 19 && acc < Pow10(19 - k)
    requires k < |s| && !IsDigit(s[k]) && AllDigits(s[..k])
    ensures Scan(acc, s) == (0, Some(NumberSyntax))
    decreases k
  {
    if k > 0 {
      assert IsDigit(s[..k][0]);
      assert s[1..][..k - 1] == s[1..k];
      var next := acc * 10 + DigitValue(s[0]);
      assert next < Pow10(19 - (k - 1));
      Pow10Monotone(19 - (k - 1), 19);
      Pow10Nineteen();
      ScanPrefixBelow(next, s[1..], k - 1);
    }
  }

  function Pow10(k: nat): (p: nat)
    ensures p >= 1
  {
    if k == 0 then 1 else 10 * Pow10(k - 1)
  }

  lemma {:induction false} Pow10Monotone(j: nat, m: nat)
    requires j <= m
    ensures Pow10(j) <= Pow10(m)
    decreases m
  {
    if j < m {
      Pow10Monotone(j, m - 1);
    }
  }

  lemma Pow10Nineteen()
    ensures Pow10(19) == 10_000_000_000_000_000_000
  {
    assert Pow10(4) == 10_000;
    assert Pow10(8) == 100_000_000;
    assert Pow10(12) == 1_000_000_000_000;
    assert Pow10(16) == 10_000_000_000_000_000;
  }

  lemma {:induction false} FormatUintLength(n: nat, k: nat)
    requires 1 <= k && n < Pow10(k)
    ensures |FormatUint(n)| <= k
  {
    if n >= 10 {
      FormatUintLength(n / 10, k - 1);
    }
  }

  /** strconv.Itoa of any int64 is at most 20 characters: 19 digits and a sign. */
  lemma ItoaInt64Length(i: Int64)
    ensures |Itoa(i)| <= 20
  {
    Pow10Nineteen();
    if i < 0 {
      FormatUintLength(-(i as int), 19);
    } else {
      FormatUintLength(i, 19);
    }
  }
}
