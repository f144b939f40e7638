/**
 The decimal rendering of non-negative integers that JavaScript's `+`
 performs when a number is concatenated to a string, and the digit scanner
 that reads such a rendering back.
 */
module Decimal {

  import opened Wrappers

  predicate IsDigit(c: char) {
    '0' <= c <= '9'
  }

  predicate AllDigits(s: string) {
    forall i :: 0 <= i < |s| ==> IsDigit(s[i])
  }

  function DigitValue(c: char): (d: nat)
    requires IsDigit(c)
    ensures d < 10
  {
    (c as int) - ('0' as int)
  }

  function DigitChar(d: nat): (c: char)
    requires d < 10
    ensures IsDigit(c) && DigitValue(c) == d
  {
    (('0' as int) + d) as char
  }

  /** The number a non-empty or empty digit string denotes (most significant digit first). */
  function Value(s: string): nat
    requires AllDigits(s)
  {
    if |s| == 0 then 0 else 10 * Value(s[..|s| - 1]) + DigitValue(s[|s| - 1])
  }

  /** Shortest decimal rendering of `n`: digits only, no leading zero, denoting `n`. */
  function ToDecimal(n: nat): (s: string)
    ensures |s| >= 1 && AllDigits(s)
    ensures Value(s) == n
    ensures |s| > 1 ==> s[0] != '0'
    decreases n
  {
    if n < 10 then [DigitChar(n)]
    else
      var prefix := ToDecimal(n / 10);
      var s := prefix + [DigitChar(n % 10)];
      assert s[..|s| - 1] == prefix;
      s
  }

  /** Length of the longest all-digit prefix of `s`. */
  function DigitRun(s: string): (k: nat)
    ensures k <= |s| && AllDigits(s[..k])
    ensures k < |s| ==> !IsDigit(s[k])
  {
    if |s| == 0 || !IsDigit(s[0]) then 0
    else
      var k := 1 + DigitRun(s[1..]);
      assert s[..k] == [s[0]] + s[1..][..k - 1];
      k
  }

  /** A number read from the front of a string, with what follows it. */
  datatype Scan = Scan(value: nat, rest: string)

  /**
   Reads a number in canonical decimal from the front of `s`: the maximal
   run of digits, refused when the run is empty or carries a leading zero.
   What was read is exactly the rendering of the number.
   */
  function ReadNat(s: string): (r: Option<Scan>)
    ensures r.Some? <==> |s| > 0 && IsDigit(s[0]) && (s[0] == '0' ==> |s| == 1 || !IsDigit(s[1]))
    ensures r.Some? ==> s == ToDecimal(r.value.value) + r.value.rest
    ensures r.Some? ==> r.value.rest == [] || !IsDigit(r.value.rest[0])
  {
    var k := DigitRun(s);
    if k == 0 || (k > 1 && s[0] == '0') then None
    else
      var digits := s[..k];
      assert digits[0] == s[0];
      CanonicalIsToDecimal(digits, Value(digits));
      assert s == digits + s[k..];
      Some(Scan(Value(digits), s[k..]))
  }

  /** Reads a number followed by the literal `sep`, returning what follows `sep`. */
  function ReadField(s: string, sep: string): (r: Option<Scan>)
    ensures r.Some? ==> s == ToDecimal(r.value.value) + sep + r.value.rest
  {
    var n :- ReadNat(s);
    if sep <= n.rest then
      assert n.rest == sep + n.rest[|sep|..];
      Some(Scan(n.value, n.rest[|sep|..]))
    else None
  }

  /** A digit string without a leading zero denotes a positive number. */
  lemma {:induction false} ValuePositive(s: string)
    requires AllDigits(s) && |s| >= 1 && s[0] != '0'
    ensures Value(s) >= 1
  {
    if |s| > 1 {
      var p := s[..|s| - 1];
      assert p[0] == s[0];
      ValuePositive(p);
    }
  }

  /**
   Canonical decimal is unique: a non-empty digit string without a leading
   zero is the rendering of the number it denotes.
   */
  lemma {:induction false} CanonicalIsToDecimal(s: string, n: nat)
    requires AllDigits(s) && |s| >= 1 && (|s| > 1 ==> s[0] != '0')
    requires Value(s) == n
    ensures s == ToDecimal(n)
  {
    var last := s[|s| - 1];
    if |s| == 1 {
      assert DigitChar(DigitValue(last)) == last;
    } else {
      var p := s[..|s| - 1];
      assert p[0] == s[0];
      ValuePositive(p);
      assert n / 10 == Value(p) && n % 10 == DigitValue(last);
      CanonicalIsToDecimal(p, Value(p));
      assert DigitChar(DigitValue(last)) == last;
      assert s == p + [last];
    }
  }

  /** The digit run of a digit string followed by a non-digit is exactly that string. */
  lemma {:induction false} DigitRunOfDigitsThen(p: string, rest: string)
    requires AllDigits(p)
    requires rest == [] || !IsDigit(rest[0])
    ensures DigitRun(p + rest) == |p|
  {
    if |p| > 0 {
      assert (p + rest)[0] == p[0];
      assert (p + rest)[1..] == p[1..] + rest;
      DigitRunOfDigitsThen(p[1..], rest);
    }
  }

  /** Reading a rendered number back yields the number and leaves the rest untouched. */
  lemma ReadNatToDecimal(n: nat, rest: string)
    requires rest == [] || !IsDigit(rest[0])
    ensures ReadNat(ToDecimal(n) + rest) == Some(Scan(n, rest))
  {
    var d := ToDecimal(n);
    var s := d + rest;
    DigitRunOfDigitsThen(d, rest);
    assert s[..|d|] == d;
    assert s[|d|..] == rest;
  }

  /** A rendered number followed by a separator that starts with a non-digit is read back exactly. */
  lemma ReadFieldToDecimal(n: nat, sep: string, rest: string)
    requires |sep| > 0 && !IsDigit(sep[0])
    ensures ReadField(ToDecimal(n) + (sep + rest), sep) == Some(Scan(n, rest))
  {
    ReadNatToDecimal(n, sep + rest);
    assert (sep + rest)[|sep|..] == rest;
  }

  /** Distinct numbers have distinct renderings. */
  lemma ToDecimalInjective(m: nat, n: nat)
    requires ToDecimal(m) == ToDecimal(n)
    ensures m == n
  {
  }
}
