/**
 * Go's `strconv.Atoi` on a 64-bit platform, which `New` applies to both range
 * tokens, and `strconv.Itoa` on non-negative values as its inverse.
 *
 * Atoi accepts an optional `+` or `-` followed by one or more ASCII digits.
 * The digits are scanned left to right into an unsigned 64-bit accumulator:
 * the first non-digit is a syntax error, and an accumulator that would pass
 * 2^64 - 1 is a range error at once. The unsigned value is then checked
 * against the int64 range.
 */
module Strconv {
  import opened Wrappers

  /** The two kinds of `*strconv.NumError` that Atoi can return. */
  datatype NumError = ErrSyntax | ErrRange

  const MaxUint64: nat := 0xFFFF_FFFF_FFFF_FFFF
  const MaxInt64: nat := 0x7FFF_FFFF_FFFF_FFFF
  const MinInt64: int := -0x8000_0000_0000_0000

  predicate IsDigit(c: char)
  {
    '0' <= c <= '9'
  }

  function DigitValue(c: char): (d: nat)
    requires IsDigit(c)
    ensures d < 10
  {
    (c - '0') as nat
  }

  predicate AllDigits(s: string)
  {
    forall i :: 0 <= i < |s| ==> IsDigit(s[i])
  }

  /** The decimal value of a digit string: the value of all but the last digit, times ten, plus the last digit. */
  function Value(s: string): nat
    requires AllDigits(s)
    decreases |s|
  {
    if s == [] then 0 else Value(s[..|s| - 1]) * 10 + DigitValue(s[|s| - 1])
  }

  /** The loop of Go's `ParseUint` from position `i` on, with `n` the value accumulated so far. */
  function Scan(s: string, i: nat, n: nat): Result<nat, NumError>
    requires i <= |s|
    decreases |s| - i
  {
    if i == |s| then Success(n)
    else if !IsDigit(s[i]) then Failure(ErrSyntax)
    else if n * 10 + DigitValue(s[i]) > MaxUint64 then Failure(ErrRange)
    else Scan(s, i + 1, n * 10 + DigitValue(s[i]))
  }

  /** `strconv.Atoi(s)`. */
  function Atoi(s: string): (r: Result<int, NumError>)
    ensures r.Success? ==> MinInt64 <= r.value <= MaxInt64
    ensures r.Success? && '-' !in s ==> 0 <= r.value
  {
    if s == [] then Failure(ErrSyntax)
    else
      var neg := s[0] == '-';
      var digits := if s[0] == '+' || s[0] == '-' then s[1..] else s;
      if digits == [] then Failure(ErrSyntax)
      else match Scan(digits, 0, 0)
        case Failure(e) => Failure(e)
        case Success(u) =>
          if !neg && u > MaxInt64 then Failure(ErrRange)
          else if neg && u > -MinInt64 then Failure(ErrRange)
          else
            var v: int := if neg then -(u as int) else u;
            Success(v)
  }

  /** `strconv.Itoa(n)` for non-negative `n`: its decimal digits, without leading zeros. */
  function Itoa(n: nat): string
    decreases n
  {
    if n < 10 then ['0' + n as char] else Itoa(n / 10) + ['0' + (n % 10) as char]
  }

  lemma ValueAppend(s: string, c: char)
    requires AllDigits(s) && IsDigit(c)
    ensures AllDigits(s + [c])
    ensures Value(s + [c]) == Value(s) * 10 + DigitValue(c)
  {
  }

  /** A prefix of a digit string is worth no more than the whole string. */
  lemma {:induction false} ValuePrefix(s: string, j: nat)
    requires AllDigits(s) && j <= |s|
    ensures Value(s[..j]) <= Value(s)
    decreases |s|
  {
    if j < |s| {
      var init := s[..|s| - 1];
      assert init[..j] == s[..j];
      ValuePrefix(init, j);
    } else {
      assert s[..j] == s;
    }
  }

  /** On digits, the scan yields the value of the whole string, or a range error exactly when it exceeds 2^64 - 1. */
  lemma {:induction false} ScanDigits(s: string, i: nat, n: nat)
    requires AllDigits(s) && i <= |s| && n == Value(s[..i]) && n <= MaxUint64
    ensures Scan(s, i, n) == if Value(s) <= MaxUint64 then Success(Value(s)) else Failure(ErrRange)
    decreases |s| - i
  {
    if i == |s| {
      assert s[..i] == s;
    } else {
      assert s[..i + 1] == s[..i] + [s[i]];
      ValueAppend(s[..i], s[i]);
      ValuePrefix(s, i + 1);
      if n * 10 + DigitValue(s[i]) <= MaxUint64 {
        ScanDigits(s, i + 1, n * 10 + DigitValue(s[i]));
      }
    }
  }

  /** A non-digit anywhere from position `i` on makes the scan fail. */
  lemma {:induction false} ScanNonDigit(s: string, i: nat, n: nat, k: nat)
    requires i <= k < |s| && !IsDigit(s[k])
    ensures Scan(s, i, n).Failure?
    decreases |s| - i
  {
    if i < k && IsDigit(s[i]) && n * 10 + DigitValue(s[i]) <= MaxUint64 {
      ScanNonDigit(s, i + 1, n * 10 + DigitValue(s[i]), k);
    }
  }

  /** Unsigned digits parse to their value when it fits in an int64, and give a range error otherwise. */
  lemma AtoiDigits(s: string)
    requires s != [] && AllDigits(s)
    ensures Atoi(s) == if Value(s) <= MaxInt64 then Success(Value(s)) else Failure(ErrRange)
    ensures Atoi(['+'] + s) == Atoi(s)
  {
    assert s[..0] == [];
    ScanDigits(s, 0, 0);
    assert (['+'] + s)[1..] == s;
  }

  /** Anything other than an optional sign followed by one or more digits is rejected. */
  lemma AtoiMalformed(s: string)
    requires var digits := if s != [] && (s[0] == '+' || s[0] == '-') then s[1..] else s;
             digits == [] || !AllDigits(digits)
    ensures Atoi(s).Failure?
  {
    if s != [] {
      var digits := if s[0] == '+' || s[0] == '-' then s[1..] else s;
      if digits != [] {
        var k :| 0 <= k < |digits| && !IsDigit(digits[k]);
        ScanNonDigit(digits, 0, 0, k);
      }
    }
  }

  /** Itoa yields a non-empty digit string whose value is the number printed. */
  lemma {:induction false} ItoaValue(n: nat)
    ensures Itoa(n) != [] && AllDigits(Itoa(n))
    ensures Value(Itoa(n)) == n
    decreases n
  {
    if n < 10 {
      assert Itoa(n)[..0] == [];
    } else {
      ItoaValue(n / 10);
      ValueAppend(Itoa(n / 10), '0' + (n % 10) as char);
    }
  }

  /** Round trip: every int64 that Itoa prints, Atoi reads back unchanged. */
  lemma ItoaAtoi(n: nat)
    requires n <= MaxInt64
    ensures '-' !in Itoa(n)
    ensures Atoi(Itoa(n)) == Success(n)
  {
    ItoaValue(n);
    AtoiDigits(Itoa(n));
  }
}
