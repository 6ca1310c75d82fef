/** Decimal text of integers, and Number.parseInt as main.js line 101 calls it: with no
    radix argument, so that a leading "0x" switches to hexadecimal. */
module Decimal {
  import opened Lexical
  import opened Wrappers

  /** The radixes Number.parseInt chooses between when no radix is given. */
  predicate IsRadix(radix: nat) {
    radix == 10 || radix == 16
  }

  predicate IsRadixDigit(c: char, radix: nat) {
    IsDigit(c) || (radix == 16 && ('a' <= c <= 'f' || 'A' <= c <= 'F'))
  }

  function RadixDigitValue(c: char, radix: nat): (d: nat)
    requires IsRadix(radix) && IsRadixDigit(c, radix)
    ensures d < radix
  {
    if IsDigit(c) then (c as int - '0' as int)
    else if 'a' <= c <= 'f' then (c as int - 'a' as int) + 10
    else (c as int - 'A' as int) + 10
  }

  /** The digit character of a value below ten. */
  function DigitChar(d: nat): (c: char)
    requires d < 10
    ensures IsDigit(c) && RadixDigitValue(c, 10) == d
  {
    ('0' as int + d) as char
  }

  /** The shortest decimal text of `n`: no leading zero except in "0" itself. */
  function NatText(n: nat): (s: string)
    ensures |s| > 0
    ensures forall i :: 0 <= i < |s| ==> IsDigit(s[i])
    ensures s[0] == '0' <==> n == 0
    ensures n == 0 ==> s == "0"
  {
    if n < 10 then [DigitChar(n)] else NatText(n / 10) + [DigitChar(n % 10)]
  }

  /** The decimal text of an integer, with a leading minus sign when it is negative. */
  function IntText(n: int): (s: string)
  {
    if n < 0 then "-" + NatText(-n) else NatText(n)
  }

  /** Length of the longest prefix of `s` made of digits of `radix`. */
  function RadixRun(s: string, radix: nat): (n: nat)
    ensures n <= |s|
    ensures forall i :: 0 <= i < n ==> IsRadixDigit(s[i], radix)
    ensures n < |s| ==> !IsRadixDigit(s[n], radix)
  {
    if s != [] && IsRadixDigit(s[0], radix) then 1 + RadixRun(s[1..], radix) else 0
  }

  /** The value of a string of digits of `radix`, most significant digit first. */
  function RadixValue(ds: string, radix: nat): nat
    requires IsRadix(radix)
    requires forall i :: 0 <= i < |ds| ==> IsRadixDigit(ds[i], radix)
  {
    if ds == [] then 0
    else RadixValue(ds[..|ds| - 1], radix) * radix + RadixDigitValue(ds[|ds| - 1], radix)
  }

  /** What Number.parseInt skips at the front of its argument. */
  function TrimStart(s: string): (t: string)
    ensures |t| <= |s| && t == s[|s| - |t|..]
    ensures t != [] ==> !IsJsSpace(t[0])
    ensures forall i :: 0 <= i < |s| - |t| ==> IsJsSpace(s[i])
  {
    if s != [] && IsJsSpace(s[0]) then TrimStart(s[1..]) else s
  }

  /** The value of the longest prefix of `body` made of digits of `radix`; None when
      that prefix is empty. */
  function RadixPrefixValue(body: string, radix: nat): Option<nat>
    requires IsRadix(radix)
  {
    var n := RadixRun(body, radix);
    if n == 0 then None else Some(RadixValue(body[..n], radix))
  }

  /** The digits after the sign: hexadecimal after a "0x" or "0X" prefix, else decimal. */
  function UnsignedValue(u: string): Option<nat>
  {
    if |u| >= 2 && u[0] == '0' && (u[1] == 'x' || u[1] == 'X') then RadixPrefixValue(u[2..], 16)
    else RadixPrefixValue(u, 10)
  }

  /** Number.parseInt(s): skip leading white space, read an optional sign, switch to
      radix 16 after a "0x" or "0X" prefix, and convert the longest prefix of digits that
      follows; None stands for NaN, returned when that prefix is empty. The sign of a
      zero result and the rounding of results beyond 2^53 are not modelled. */
  function ParseInt(s: string): Option<int>
  {
    var t := TrimStart(s);
    if t != [] && t[0] == '-' then
      match UnsignedValue(t[1..])
      case None => None
      case Some(v) => Some(-(v as int))
    else
      var u := if t != [] && t[0] == '+' then t[1..] else t;
      match UnsignedValue(u)
      case None => None
      case Some(v) => Some(v as int)
  }

  /** Reading back the decimal text of a natural number gives that number. */
  lemma {:induction false} NatTextValue(n: nat)
    ensures RadixValue(NatText(n), 10) == n
  {
    if n >= 10 {
      var prefix := NatText(n / 10);
      var s := NatText(n);
      assert s[..|s| - 1] == prefix;
      NatTextValue(n / 10);
    }
  }

  /** Different numbers have different decimal texts. */
  lemma NatTextInjective(m: nat, n: nat)
    ensures NatText(m) == NatText(n) ==> m == n
  {
    NatTextValue(m);
    NatTextValue(n);
  }

  /** Number.parseInt reads the decimal text of every integer back as that integer. */
  lemma ParseIntOfIntText(n: int)
    ensures ParseInt(IntText(n)) == Some(n)
  {
    var m: nat := if n < 0 then -n else n;
    var s := IntText(n);
    NoSpaceBeforeText(s);
    UnsignedValueOfNatText(m);
    if n < 0 {
      assert s[1..] == NatText(m);
    } else {
      assert s == NatText(m);
    }
  }

  /** Number.parseInt reads the leading run of decimal digits of a text and stops at the
      first character that is not a digit, unless the text starts with a "0x" prefix. */
  lemma ParseIntOfDigitPrefix(s: string, n: nat)
    requires 0 < n <= |s|
    requires forall i :: 0 <= i < n ==> IsDigit(s[i])
    requires n < |s| ==> !IsDigit(s[n])
    requires !(|s| >= 2 && s[0] == '0' && (s[1] == 'x' || s[1] == 'X'))
    ensures ParseInt(s) == Some(RadixValue(s[..n], 10) as int)
  {
    NoSpaceBeforeText(s);
    assert RadixRun(s, 10) == n;
  }

  /** Nothing is trimmed from a text that starts with a digit or a minus sign. */
  lemma NoSpaceBeforeText(s: string)
    requires s != [] && (IsDigit(s[0]) || s[0] == '-')
    ensures TrimStart(s) == s
  {
  }

  /** The decimal text of `m` has no hexadecimal prefix and is one whole run of digits
      whose value is `m`. */
  lemma UnsignedValueOfNatText(m: nat)
    ensures UnsignedValue(NatText(m)) == Some(m)
  {
    var u := NatText(m);
    RunOfDigits(u);
    assert u[..|u|] == u;
    NatTextValue(m);
  }

  /** A string made only of decimal digits is one whole decimal run. */
  lemma {:induction false} RunOfDigits(ds: string)
    requires forall i :: 0 <= i < |ds| ==> IsDigit(ds[i])
    ensures RadixRun(ds, 10) == |ds|
  {
    if ds != [] {
      RunOfDigits(ds[1..]);
    }
  }
}
