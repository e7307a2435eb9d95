/**
 * Decimal text as the C library writes and reads it: printf's "%d" and
 * "%0<w>d", sscanf's "%d" and atoi.
 */
module Decimal {
  import opened Bus

  predicate IsDigit(c: char) { '0' <= c <= '9' }

  predicate AllDigits(s: string) { forall i :: 0 <= i < |s| ==> IsDigit(s[i]) }

  /** The characters isspace accepts in the C locale. */
  predicate IsSpace(c: char) { c == ' ' || c == '\t' || c == '\n' || c == '\r' || c as int == 11 || c as int == 12 }

  function DigitChar(d: nat): (c: char)
    requires d < 10
    ensures IsDigit(c)
  {
    (48 + d) as char
  }

  function DigitValue(c: char): (d: nat)
    requires IsDigit(c)
    ensures d < 10 && DigitChar(d) == c
  {
    c as int - 48
  }

  /** The decimal text of n without leading zeros, as "%d" prints a non-negative value. */
  function Digits(n: nat): (s: string)
    ensures 1 <= |s| && AllDigits(s)
    ensures n < 10 <==> |s| == 1
  {
    if n < 10 then [DigitChar(n)] else Digits(n / 10) + [DigitChar(n % 10)]
  }

  /** The number a digit string denotes, most significant digit first. */
  function Value(s: string): nat
    requires AllDigits(s)
  {
    if s == [] then 0 else Value(s[..|s| - 1]) * 10 + DigitValue(s[|s| - 1])
  }

  lemma {:induction false} ValueOfDigits(n: nat)
    ensures Value(Digits(n)) == n
  {
    if n >= 10 {
      var s := Digits(n);
      assert s[..|s| - 1] == Digits(n / 10);
      ValueOfDigits(n / 10);
    }
  }

  function Zeros(k: nat): (z: string)
    ensures |z| == k && AllDigits(z)
  {
    seq(k, _ => '0')
  }

  lemma {:induction false} ZerosValue(k: nat)
    ensures Value(Zeros(k)) == 0
  {
    if k > 0 {
      assert Zeros(k)[..k - 1] == Zeros(k - 1);
      ZerosValue(k - 1);
    }
  }

  /** Leading zeros do not change the number a digit string denotes. */
  lemma {:induction false} LeadingZeros(k: nat, s: string)
    requires AllDigits(s)
    ensures AllDigits(Zeros(k) + s) && Value(Zeros(k) + s) == Value(s)
    decreases |s|
  {
    var t := Zeros(k) + s;
    assert AllDigits(t);
    if s == [] {
      assert t == Zeros(k);
      ZerosValue(k);
    } else {
      assert t[..|t| - 1] == Zeros(k) + s[..|s| - 1];
      LeadingZeros(k, s[..|s| - 1]);
    }
  }

  /** Left-pads a digit string with zeros to at least w characters. */
  function ZeroPad(s: string, w: nat): (r: string)
    requires AllDigits(s)
    ensures AllDigits(r) && |r| == (if |s| < w then w else |s|)
    ensures Value(r) == Value(s)
    ensures |s| >= w ==> r == s
  {
    LeadingZeros(if |s| < w then w - |s| else 0, s);
    if |s| < w then Zeros(w - |s|) + s else s
  }

  /**
   * printf("%0<w>d", x): the sign, then the magnitude padded with zeros
   * so that sign and digits together fill w characters.
   */
  function FormatInt(x: int, w: nat): (r: string)
    ensures |r| >= 1 && |r| >= w
    ensures x >= 0 ==> AllDigits(r) && Value(r) == x
    ensures x < 0 ==> |r| >= 2 && r[0] == '-' && AllDigits(r[1..]) && Value(r[1..]) == -x
  {
    ValueOfDigits(if x >= 0 then x else -x);
    if x >= 0 then ZeroPad(Digits(x), w)
    else "-" + ZeroPad(Digits(-x), if w > 0 then w - 1 else 0)
  }

  /** A 32-bit unsigned value passed where "%d" expects a signed int. */
  function AsInt32(v: nat): (x: int)
    requires v < 0x1_0000_0000
    ensures -0x8000_0000 <= x < 0x8000_0000 && x % 0x1_0000_0000 == v
  {
    if v < 0x8000_0000 then v else v - 0x1_0000_0000
  }

  function SkipSpaces(s: string, i: nat): (j: nat)
    requires i <= |s|
    ensures i <= j <= |s| && (j < |s| ==> !IsSpace(s[j]))
    ensures forall k :: i <= k < j ==> IsSpace(s[k])
    decreases |s| - i
  {
    if i < |s| && IsSpace(s[i]) then SkipSpaces(s, i + 1) else i
  }

  /** The end of the longest run of digits starting at i. */
  function DigitRunEnd(s: string, i: nat): (j: nat)
    requires i <= |s|
    ensures i <= j <= |s| && AllDigits(s[i..j]) && (j < |s| ==> !IsDigit(s[j]))
    decreases |s| - i
  {
    if i < |s| && IsDigit(s[i]) then DigitRunEnd(s, i + 1) else i
  }

  /**
   * The "%d" conversion at the front of s: white space, an optional sign,
   * then at least one digit. None when no digit follows.
   */
  function ScanInt(s: string): Option<int>
  {
    var i := SkipSpaces(s, 0);
    var k := if i < |s| && (s[i] == '-' || s[i] == '+') then i + 1 else i;
    var j := DigitRunEnd(s, k);
    if j == k then None
    else
      var v: int := Value(s[k..j]);
      if i < |s| && s[i] == '-' then Some(-v) else Some(v)
  }

  /** atoi: the "%d" conversion, 0 when there is none. */
  function Atoi(s: string): int
  {
    match ScanInt(s)
    case Some(v) => v
    case None => 0
  }

  lemma {:induction false} DigitRunOver(s: string, i: nat, e: nat)
    requires i <= e <= |s| && AllDigits(s[i..e])
    requires e == |s| || !IsDigit(s[e])
    ensures DigitRunEnd(s, i) == e
    decreases e - i
  {
    if i < e {
      assert s[i] == s[i..e][0];
      DigitRunOver(s, i + 1, e);
    }
  }

  /** A text opening with a run of digits scans as the number they denote. */
  lemma ScanUnsigned(s: string, e: nat)
    requires 1 <= e <= |s| && AllDigits(s[..e]) && (e == |s| || !IsDigit(s[e]))
    ensures ScanInt(s) == Some(Value(s[..e]))
  {
    assert s[0] == s[..e][0];
    assert SkipSpaces(s, 0) == 0;
    assert AllDigits(s[0..e]) by { assert s[0..e] == s[..e]; }
    DigitRunOver(s, 0, e);
    assert s[0..e] == s[..e];
  }

  /** A minus sign followed by a run of digits scans as the negated number. */
  lemma ScanNegative(s: string, e: nat)
    requires 2 <= e <= |s| && s[0] == '-' && AllDigits(s[1..e]) && (e == |s| || !IsDigit(s[e]))
    ensures ScanInt(s).Some? && ScanInt(s).value == -(Value(s[1..e]) as int)
  {
    assert SkipSpaces(s, 0) == 0;
    DigitRunOver(s, 1, e);
  }

  /** Digits denoting x, followed by a non-digit, scan as x. */
  lemma ScanUnsignedText(f: string, x: int, rest: string)
    requires |f| >= 1 && AllDigits(f) && Value(f) == x && (rest == [] || !IsDigit(rest[0]))
    ensures ScanInt(f + rest) == Some(x)
  {
    var t := f + rest;
    assert t[..|f|] == f;
    ScanUnsigned(t, |f|);
  }

  /** A minus sign and digits denoting -x, followed by a non-digit, scan as x. */
  lemma ScanNegativeText(f: string, x: int, rest: string)
    requires |f| >= 2 && f[0] == '-' && AllDigits(f[1..]) && Value(f[1..]) == -x && (rest == [] || !IsDigit(rest[0]))
    ensures ScanInt(f + rest) == Some(x)
  {
    var t := f + rest;
    assert t[1..|f|] == f[1..];
    ScanNegative(t, |f|);
  }

  /** Scanning the printed text of n back, followed by a non-digit, yields n. */
  lemma ScanDigits(n: nat, rest: string)
    requires rest == [] || !IsDigit(rest[0])
    ensures ScanInt(Digits(n) + rest) == Some(n)
    ensures Atoi(Digits(n) + rest) == n
  {
    ValueOfDigits(n);
    ScanUnsignedText(Digits(n), n, rest);
  }

  /** Scanning text printed by "%0<w>d" yields the printed number. */
  lemma ScanFormatted(x: int, w: nat, rest: string)
    requires rest == [] || !IsDigit(rest[0])
    ensures ScanInt(FormatInt(x, w) + rest) == Some(x)
  {
    if x >= 0 {
      ScanUnsignedText(FormatInt(x, w), x, rest);
    } else {
      ScanNegativeText(FormatInt(x, w), x, rest);
    }
  }
}
