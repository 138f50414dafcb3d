/** The part of Go's `strconv` package the service relies on: `ParseInt(s, 10, 64)`,
    which reads an optional sign and a run of decimal digits into an `int64`. */
module StrConv {
  import opened Wrappers
  import opened GoInt
  import opened Decimal

  /** The two reasons `strconv.NumError` gives. */
  datatype NumError = ErrSyntax | ErrRange

  /** The smallest n for which n * 10 no longer fits in a `uint64`. */
  const Cutoff: int := MaxUint64 / 10 + 1

  /** The digit loop of `ParseUint` (base 10, bit size 64) with accumulator n:
      it stops at the first non-digit or at the first digit that overflows. */
  function ScanDigits(s: string, n: nat): Result<nat, NumError>
    decreases |s|
  {
    if s == [] then Ok(n)
    else if !IsDigit(s[0]) then Err(ErrSyntax)
    else if n >= Cutoff then Err(ErrRange)
    else
      var n1 := n * 10 + DigitValue(s[0]);
      // Go tests `n1 < n` (the uint64 sum wrapped) or `n1 > maxVal`; with maxVal = MaxUint64
      // and unbounded integers both are the one test below.
      if n1 > MaxUint64 then Err(ErrRange) else ScanDigits(s[1..], n1)
  }

  /** `strconv.ParseUint(s, 10, 64)`: the empty string is a syntax error. */
  function ParseUint(s: string): Result<nat, NumError> {
    if s == [] then Err(ErrSyntax) else ScanDigits(s, 0)
  }

  /** `strconv.ParseInt(s, 10, 64)`. A range error from `ParseUint` leaves the magnitude at
      MaxUint64, which fails the signed range test for either sign, so it stays a range error. */
  function ParseInt(s: string): Result<Int64, NumError> {
    if s == [] then Err(ErrSyntax)
    else
      var neg := s[0] == '-';
      var body := if s[0] == '+' || s[0] == '-' then s[1..] else s;
      match ParseUint(body)
      case Err(e) => Err(e)
      case Ok(un) =>
        if !neg && un >= -MinInt64 then Err(ErrRange)
        else if neg && un > -MinInt64 then Err(ErrRange)
        else Ok((if neg then -(un as int) else un as int) as Int64)
  }

  predicate HasSign(s: string) {
    |s| > 0 && (s[0] == '+' || s[0] == '-')
  }

  function Unsigned(s: string): string {
    if HasSign(s) then s[1..] else s
  }

  /** A base-10 integer literal: an optional sign followed by one or more digits. */
  predicate IsLiteral(s: string) {
    IsDigits(Unsigned(s))
  }

  /** The integer a literal denotes. */
  function LiteralValue(s: string): int
    requires IsLiteral(s)
  {
    if s[0] == '-' then -(Value(Unsigned(s)) as int) else Value(Unsigned(s))
  }

  /** Scanning digits after a prefix p already read into n yields the value of the whole
      digit string when it fits in a `uint64`, and a range error when it does not. */
  lemma {:induction false} ScanDigitsOfDigits(p: string, s: string, n: nat)
    requires AllDigits(p) && AllDigits(s) && n == Value(p) && n <= MaxUint64
    ensures AllDigits(p + s)
    ensures ScanDigits(s, n) == if Value(p + s) <= MaxUint64 then Ok(Value(p + s)) else Err(ErrRange)
    decreases |s|
  {
    if s == [] {
      assert p + s == p;
    } else {
      var c := s[0];
      ValueAppendDigit(p, c);
      assert p + s == (p + [c]) + s[1..];
      ValueMonotone(p + [c], s[1..]);
      if n < Cutoff && n * 10 + DigitValue(c) <= MaxUint64 {
        ScanDigitsOfDigits(p + [c], s[1..], n * 10 + DigitValue(c));
      }
    }
  }

  /** A non-digit anywhere makes the scan fail. */
  lemma {:induction false} ScanDigitsRejectsNonDigit(s: string, n: nat)
    requires !AllDigits(s)
    ensures ScanDigits(s, n).Err?
    decreases |s|
  {
    if IsDigit(s[0]) && n < Cutoff && n * 10 + DigitValue(s[0]) <= MaxUint64 {
      var i :| 0 <= i < |s| && !IsDigit(s[i]);
      assert s[1..][i - 1] == s[i];
      ScanDigitsRejectsNonDigit(s[1..], n * 10 + DigitValue(s[0]));
    }
  }

  /** `ParseUint` accepts exactly the non-empty digit strings whose value fits in a `uint64`,
      and returns that value. */
  lemma ParseUintMeaning(s: string)
    ensures ParseUint(s).Ok? <==> IsDigits(s) && Value(s) <= MaxUint64
    ensures ParseUint(s).Ok? ==> ParseUint(s).value == Value(s)
    ensures IsDigits(s) && Value(s) > MaxUint64 ==> ParseUint(s) == Err(ErrRange)
  {
    if s != [] {
      if AllDigits(s) {
        assert [] + s == s;
        ScanDigitsOfDigits([], s, 0);
      } else {
        ScanDigitsRejectsNonDigit(s, 0);
      }
    }
  }

  /** `ParseInt` accepts exactly the literals whose value lies in the `int64` range and returns
      that value; a literal outside the range is a range error. */
  lemma ParseIntMeaning(s: string)
    ensures ParseInt(s).Ok? <==> IsLiteral(s) && MinInt64 <= LiteralValue(s) <= MaxInt64
    ensures ParseInt(s).Ok? ==> ParseInt(s).value as int == LiteralValue(s)
    ensures IsLiteral(s) && !(MinInt64 <= LiteralValue(s) <= MaxInt64) ==> ParseInt(s) == Err(ErrRange)
  {
    if s != [] {
      ParseUintMeaning(Unsigned(s));
    }
  }
}
