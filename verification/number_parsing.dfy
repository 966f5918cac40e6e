/** JavaScript `parseInt(s)` with no radix argument, the parser the create-gig
    form applies to its occurrence count. A NaN result is `None`. */
module NumberParsing {
  import opened Wrappers

  /** The characters `parseInt` skips before the number: WhiteSpace and
      LineTerminator code points of ECMAScript. */
  predicate IsStrWhiteSpace(c: char) {
    || c == '\t' || c == '\U{B}' || c == '\U{C}' || c == ' ' || c == '\U{A0}' || c == '\U{FEFF}'
    || c == '\n' || c == '\r' || c == '\U{2028}' || c == '\U{2029}'
    || c == '\U{1680}' || ('\U{2000}' <= c <= '\U{200A}')
    || c == '\U{202F}' || c == '\U{205F}' || c == '\U{3000}'
  }

  function TrimStart(s: string): (r: string)
    ensures |r| <= |s|
  {
    if s != [] && IsStrWhiteSpace(s[0]) then TrimStart(s[1..]) else s
  }

  /** `TrimStart` removes exactly the leading white space: what it drops is
      white space and what it keeps is a suffix not starting with any. */
  lemma {:induction false} TrimStartSkipsWhiteSpace(s: string)
    ensures var r := TrimStart(s);
      && r == s[|s| - |r|..]
      && (r == [] || !IsStrWhiteSpace(r[0]))
      && forall k :: 0 <= k < |s| - |r| ==> IsStrWhiteSpace(s[k])
  {
    if s != [] && IsStrWhiteSpace(s[0]) {
      TrimStartSkipsWhiteSpace(s[1..]);
    }
  }

  predicate IsDecimalDigit(c: char) {
    '0' <= c <= '9'
  }

  /** The value of c as a digit in the given radix (10 or 16), if it is one. */
  function DigitValue(c: char, radix: int): (r: Option<int>)
    ensures r.Some? ==> 0 <= r.value < radix
    ensures radix == 10 ==> (r.Some? <==> IsDecimalDigit(c))
  {
    if IsDecimalDigit(c) && 0 <= (c as int) - ('0' as int) < radix then Some((c as int) - ('0' as int))
    else if radix == 16 && 'a' <= c <= 'f' then Some((c as int) - ('a' as int) + 10)
    else if radix == 16 && 'A' <= c <= 'F' then Some((c as int) - ('A' as int) + 10)
    else None
  }

  /** The length of the longest prefix of s made of digits of the radix. */
  function DigitRunLength(s: string, radix: int): (n: nat)
    ensures n <= |s|
  {
    if s != [] && DigitValue(s[0], radix).Some? then 1 + DigitRunLength(s[1..], radix) else 0
  }

  /** The digit run is the longest prefix made of digits. */
  lemma {:induction false} DigitRunIsLongest(s: string, radix: int)
    ensures var n := DigitRunLength(s, radix);
      && (forall k :: 0 <= k < n ==> DigitValue(s[k], radix).Some?)
      && (n < |s| ==> DigitValue(s[n], radix).None?)
  {
    if s != [] && DigitValue(s[0], radix).Some? {
      DigitRunIsLongest(s[1..], radix);
    }
  }

  /** The value of a run of digits, most significant first (only ever
      applied to a digit run). */
  function DigitsValue(s: string, radix: int): int {
    if s == [] then 0
    else
      var last := match DigitValue(s[|s| - 1], radix) case Some(v) => v case None => 0;
      DigitsValue(s[..|s| - 1], radix) * radix + last
  }

  /** After white space: whether a '-' sign was read, and the rest. */
  function ReadSign(t: string): (r: (bool, string))
    ensures |r.1| <= |t|
  {
    if t != [] && (t[0] == '-' || t[0] == '+') then (t[0] == '-', t[1..]) else (false, t)
  }

  /** After the sign: radix 16 and the rest after a `0x`/`0X` prefix, else
      radix 10 and the whole. */
  function ReadRadix(u: string): (r: (int, string))
    ensures |r.1| <= |u|
  {
    if |u| >= 2 && u[0] == '0' && (u[1] == 'x' || u[1] == 'X') then (16, u[2..]) else (10, u)
  }

  /** The unsigned part of `parseInt`: switch to radix 16 after a `0x` or
      `0X` prefix, then read the longest run of digits; no digits is NaN. */
  function ParseUnsigned(u: string): Option<int> {
    var (radix, body) := ReadRadix(u);
    var n := DigitRunLength(body, radix);
    if n == 0 then None else Some(DigitsValue(body[..n], radix))
  }

  /** `parseInt(s)`: skip leading white space, take an optional sign, then
      read the unsigned part. */
  function ParseInt(s: string): Option<int> {
    var (negative, u) := ReadSign(TrimStart(s));
    match ParseUnsigned(u)
    case None => None
    case Some(v) => Some(if negative then -v else v)
  }

  function DigitChar(d: int): (c: char)
    requires 0 <= d < 10
    ensures IsDecimalDigit(c) && DigitValue(c, 10) == Some(d)
  {
    (('0' as int) + d) as char
  }

  /** The decimal numeral of n, without leading zeros. */
  function NatDigits(n: nat): (s: string)
    ensures |s| >= 1
    ensures forall k :: 0 <= k < |s| ==> IsDecimalDigit(s[k])
    ensures s[0] == '0' ==> n == 0 && |s| == 1
  {
    if n < 10 then [DigitChar(n)] else NatDigits(n / 10) + [DigitChar(n % 10)]
  }

  /** The decimal numeral of n, with a leading '-' when n is negative, as a
      number input field holds it. */
  function DecimalString(n: int): string {
    if n < 0 then "-" + NatDigits(-n) else NatDigits(n)
  }

  lemma {:induction false} NatDigitsValue(n: nat)
    ensures DigitsValue(NatDigits(n), 10) == n
  {
    if n >= 10 {
      var s := NatDigits(n);
      assert s[..|s| - 1] == NatDigits(n / 10);
      NatDigitsValue(n / 10);
    }
  }

  lemma {:induction false} DigitRunOfDigits(p: string, tail: string)
    requires forall k :: 0 <= k < |p| ==> IsDecimalDigit(p[k])
    requires tail == [] || !IsDecimalDigit(tail[0])
    ensures DigitRunLength(p + tail, 10) == |p|
  {
    if p != [] {
      assert (p + tail)[1..] == p[1..] + tail;
      DigitRunOfDigits(p[1..], tail);
    } else {
      assert p + tail == tail;
    }
  }

  lemma TrimStartAtNumber(s: string)
    requires s != [] && (s[0] == '-' || IsDecimalDigit(s[0]))
    ensures TrimStart(s) == s
  {
    assert !IsStrWhiteSpace(s[0]);
  }

  /** A tail that cannot continue the numeral of n: it does not start with
      a digit, and, after the numeral "0" alone, not with the `x` or `X`
      that would make `0x` a hexadecimal prefix. */
  predicate EndsNumeral(n: int, tail: string) {
    tail == [] || (!IsDecimalDigit(tail[0]) && (n == 0 ==> tail[0] != 'x' && tail[0] != 'X'))
  }

  lemma ParseUnsignedDigits(m: nat, tail: string)
    requires EndsNumeral(m, tail)
    ensures ParseUnsigned(NatDigits(m) + tail) == Some(m)
  {
    var p := NatDigits(m);
    var u := p + tail;
    assert ReadRadix(u) == (10, u) by {
      if |u| >= 2 && u[0] == '0' {
        assert u[1] == tail[0];
      }
    }
    DigitRunOfDigits(p, tail);
    assert u[..|p|] == p;
    NatDigitsValue(m);
  }

  lemma ParseIntNatural(m: nat, tail: string)
    requires EndsNumeral(m, tail)
    ensures ParseInt(NatDigits(m) + tail) == Some(m)
  {
    var u := NatDigits(m) + tail;
    TrimStartAtNumber(u);
    assert u[0] != '-' && u[0] != '+';
    assert ReadSign(u) == (false, u);
    ParseUnsignedDigits(m, tail);
  }

  lemma ParseIntNegated(m: nat, tail: string)
    requires EndsNumeral(m, tail)
    ensures ParseInt("-" + NatDigits(m) + tail) == Some(-(m as int))
  {
    var u := NatDigits(m) + tail;
    var s := "-" + NatDigits(m) + tail;
    assert s == "-" + u;
    TrimStartAtNumber(s);
    assert s[1..] == u;
    assert ReadSign(s) == (true, u);
    ParseUnsignedDigits(m, tail);
  }

  /** `parseInt` reads back the numeral of any integer, and stops at the first
      character that cannot continue it: "2.5", "2e3" and "2x" all give 2. */
  lemma ParseIntDecimal(n: int, tail: string)
    requires EndsNumeral(n, tail)
    ensures ParseInt(DecimalString(n) + tail) == Some(n)
  {
    if n < 0 {
      ParseIntNegated(-n, tail);
    } else {
      ParseIntNatural(n, tail);
    }
  }

  /** A count field with no decimal digit in it (empty, "-", "abc") parses
      to NaN. */
  lemma ParseIntNaN(s: string)
    requires forall k :: 0 <= k < |s| ==> !IsDecimalDigit(s[k])
    ensures ParseInt(s) == None
  {
    var t := TrimStart(s);
    TrimStartSkipsWhiteSpace(s);
    assert forall k :: 0 <= k < |t| ==> t[k] == s[|s| - |t| + k];
    var u := ReadSign(t).1;
    assert u == t || u == t[1..];
    assert u == [] || !IsDecimalDigit(u[0]) by {
      if u != [] && u != t {
        assert u[0] == t[1];
      }
    }
    assert ReadRadix(u) == (10, u);
    assert DigitRunLength(u, 10) == 0;
  }
}
