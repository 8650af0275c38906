/**
 * JavaScript's `parseInt(x)` called without a radix. The argument is first
 * converted with `String(x)`. Leading white space and one sign are then
 * skipped, and a `0x`/`0X` prefix selects base 16. The longest run of digits
 * of the base is read. A string with no such digits gives NaN, which is
 * modelled as `None`.
 */
module JsNumber {
  import opened Wrappers
  import opened Json
  import Text

  /** The value of `c` as a digit of bases up to 36, or 36 when it is no digit. */
  function DigitIn(c: char): (d: nat)
    ensures d <= 36
    ensures d < 10 <==> Text.IsDigit(c)
    ensures Text.IsDigit(c) ==> d == Text.DigitValue(c)
  {
    if '0' <= c <= '9' then c as int - '0' as int
    else if 'a' <= c <= 'z' then c as int - 'a' as int + 10
    else if 'A' <= c <= 'Z' then c as int - 'A' as int + 10
    else 36
  }

  /** The length of the leading run of base-`radix` digits of `s`. */
  function DigitRun(s: string, radix: nat): (n: nat)
    ensures n <= |s|
    ensures forall i :: 0 <= i < n ==> DigitIn(s[i]) < radix
    ensures n < |s| ==> DigitIn(s[n]) >= radix
  {
    if s != [] && DigitIn(s[0]) < radix then
      var n := 1 + DigitRun(s[1..], radix);
      assert forall i :: 1 <= i < n ==> s[i] == s[1..][i - 1];
      n
    else 0
  }

  /** The value of a string of base-`radix` digits, most significant first. */
  function RadixValue(s: string, radix: nat): nat
  {
    if s == [] then 0 else RadixValue(s[..|s| - 1], radix) * radix + DigitIn(s[|s| - 1])
  }

  /** `u` starts with `0x` or `0X`. */
  predicate HexPrefix(u: string)
  {
    |u| >= 2 && u[0] == '0' && (u[1] == 'x' || u[1] == 'X')
  }

  /** The digits after any sign: base 16 behind a `0x` prefix, base 10 otherwise. */
  function ParseUnsigned(u: string): Option<nat>
  {
    var hex := HexPrefix(u);
    var radix := if hex then 16 else 10;
    var v := if hex then u[2..] else u;
    var n := DigitRun(v, radix);
    if n == 0 then None else Some(RadixValue(v[..n], radix))
  }

  /** `parseInt(s)` on a string. */
  function ParseInt(s: string): Option<int>
  {
    var t := Text.TrimStart(s);
    var m := if t != [] && (t[0] == '-' || t[0] == '+') then ParseUnsigned(t[1..]) else ParseUnsigned(t);
    match m
    case None => None
    case Some(v) => var x: int := v; if t != [] && t[0] == '-' then Some(-x) else Some(x)
  }

  /** `parseInt(v)` on a request value, which converts `v` with `String(v)` first. */
  function ParseIntValue(v: Json): Option<int>
  {
    ParseInt(ToStr(v))
  }

  // ---------------------------------------------------------------------
  // Properties
  // ---------------------------------------------------------------------

  /** Read in base 10, a string of decimal digits has its decimal value. */
  lemma {:induction false} DecimalValue(d: string)
    requires forall i :: 0 <= i < |d| ==> Text.IsDigit(d[i])
    ensures RadixValue(d, 10) == Text.DigitsValue(d)
    decreases |d|
  {
    if d != [] {
      DecimalValue(d[..|d| - 1]);
    }
  }

  /** The digit run of base 10 stops exactly at the end of a leading block of decimal digits. */
  lemma {:induction false} DecimalRun(d: string, rest: string)
    requires forall i :: 0 <= i < |d| ==> Text.IsDigit(d[i])
    requires rest == [] || !Text.IsDigit(rest[0])
    ensures DigitRun(d + rest, 10) == |d|
    decreases |d|
  {
    if d != [] {
      assert (d + rest)[1..] == d[1..] + rest;
      DecimalRun(d[1..], rest);
    } else {
      assert d + rest == rest;
    }
  }

  /** Unsigned decimal digits followed by a non-digit are read up to the non-digit. */
  lemma UnsignedDecimalPrefix(d: string, rest: string)
    requires d != [] && forall i :: 0 <= i < |d| ==> Text.IsDigit(d[i])
    requires rest == [] || !Text.IsDigit(rest[0])
    requires !(d == "0" && rest != [] && (rest[0] == 'x' || rest[0] == 'X'))
    ensures ParseUnsigned(d + rest) == Some(Text.DigitsValue(d))
  {
    var s := d + rest;
    assert !HexPrefix(s) by {
      if |s| >= 2 && s[0] == '0' {
        if |d| >= 2 { assert s[1] == d[1]; } else { assert s[1] == rest[0]; }
      }
    }
    assert RadixValue(s[..DigitRun(s, 10)], 10) == Text.DigitsValue(d) by {
      DecimalRun(d, rest);
      assert s[..|d|] == d;
      DecimalValue(d);
    }
  }

  /**
   * A leading block of decimal digits is read and whatever follows the first
   * non-digit is ignored (`parseInt("3.7")` is 3, `parseInt("12abc")` is 12),
   * unless the block is a lone `0` followed by `x`, which selects base 16.
   */
  lemma ParseDecimalPrefix(d: string, rest: string)
    requires d != [] && forall i :: 0 <= i < |d| ==> Text.IsDigit(d[i])
    requires rest == [] || !Text.IsDigit(rest[0])
    requires !(d == "0" && rest != [] && (rest[0] == 'x' || rest[0] == 'X'))
    ensures ParseInt(d + rest) == Some(Text.DigitsValue(d))
  {
    var s := d + rest;
    assert s[0] == d[0];
    assert Text.TrimStart(s) == s;
    assert ParseUnsigned(s) == Some(Text.DigitsValue(d)) by {
      UnsignedDecimalPrefix(d, rest);
    }
    UnsignedInt(s, Text.DigitsValue(d));
  }

  /** Without leading space or sign, `parseInt` reads the unsigned digits. */
  lemma UnsignedInt(s: string, v: nat)
    requires s != [] && Text.IsDigit(s[0]) && Text.TrimStart(s) == s && ParseUnsigned(s) == Some(v)
    ensures ParseInt(s) == Some(v)
  {
  }

  /** `parseInt(String(n))` gives back the integer `n`. */
  lemma ParseIntToString(n: int)
    ensures ParseInt(Text.IntToString(n)) == Some(n)
  {
    var m: nat := if n < 0 then -n else n;
    var d := Text.NatToString(m);
    Text.NatToStringRoundTrip(m);
    assert d + [] == d;
    if n < 0 {
      var s := "-" + d;
      assert s[0] == '-' && !Text.IsSpace(s[0]);
      assert Text.TrimStart(s) == s;
      assert s[1..] == d + [];
      UnsignedDecimalPrefix(d, []);
    } else {
      ParseDecimalPrefix(d, []);
    }
  }

  /** A number in the request is read as itself. */
  lemma ParseIntNumber(n: int)
    ensures ParseIntValue(JNum(n)) == Some(n)
  {
    ParseIntToString(n);
  }

  /** Without a leading decimal digit there is neither a `0x` prefix nor a digit of base 10. */
  lemma UnsignedNoDigit(u: string)
    requires u == [] || !Text.IsDigit(u[0])
    ensures ParseUnsigned(u) == None
  {
    assert !HexPrefix(u);
  }

  /** A string without a single decimal digit is NaN. */
  lemma ParseIntNoDigits(s: string)
    requires forall i :: 0 <= i < |s| ==> !Text.IsDigit(s[i])
    ensures ParseInt(s) == None
  {
    var t := Text.TrimStart(s);
    assert forall i :: 0 <= i < |t| ==> !Text.IsDigit(t[i]) by {
      assert forall i :: 0 <= i < |t| ==> t[i] == s[|s| - |t| + i];
    }
    if t != [] && (t[0] == '-' || t[0] == '+') {
      assert |t| >= 2 ==> !Text.IsDigit(t[1..][0]);
      UnsignedNoDigit(t[1..]);
    } else {
      UnsignedNoDigit(t);
    }
  }
}
