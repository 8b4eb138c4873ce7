/**
 * `parseInt(text, 16)` as ECMAScript defines it, the octet a `Uint8Array`
 * element keeps of a number, and the two-digit hexadecimal spelling of an
 * octet that `Buffer.toString('hex')` produces.
 */
module Hex {
  import opened Wrappers
  import opened Bytes

  function HexDigitValue(c: char): (r: Option<nat>)
    ensures r.Some? ==> r.value < 16
  {
    if '0' <= c <= '9' then Some(c as int - '0' as int)
    else if 'a' <= c <= 'f' then Some(c as int - 'a' as int + 10)
    else if 'A' <= c <= 'F' then Some(c as int - 'A' as int + 10)
    else None
  }

  predicate IsHexDigit(c: char) {
    HexDigitValue(c).Some?
  }

  /** The white-space and line-terminator characters `parseInt` skips before the number. */
  predicate IsJsSpace(c: char) {
    || c == '\t' || c == '\n' || c == '\U{B}' || c == '\U{C}' || c == '\r' || c == ' '
    || c == '\U{A0}' || c == '\U{1680}' || ('\U{2000}' <= c <= '\U{200A}')
    || c == '\U{2028}' || c == '\U{2029}' || c == '\U{202F}' || c == '\U{205F}'
    || c == '\U{3000}' || c == '\U{FEFF}'
  }

  function TrimStart(s: string): string {
    if s != [] && IsJsSpace(s[0]) then TrimStart(s[1..]) else s
  }

  /** Trimming drops a run of leading spaces and nothing else. */
  lemma {:induction false} TrimStartSuffix(s: string)
    ensures |TrimStart(s)| <= |s| && TrimStart(s) == s[|s| - |TrimStart(s)|..]
    ensures TrimStart(s) == [] || !IsJsSpace(TrimStart(s)[0])
    ensures forall i :: 0 <= i < |s| - |TrimStart(s)| ==> IsJsSpace(s[i])
  {
    if s != [] && IsJsSpace(s[0]) {
      var t := s[1..];
      TrimStartSuffix(t);
      assert TrimStart(s) == TrimStart(t);
      assert t[|t| - |TrimStart(t)|..] == s[|s| - |TrimStart(s)|..];
      forall i | 0 <= i < |s| - |TrimStart(s)|
        ensures IsJsSpace(s[i])
      {
        if i > 0 {
          assert s[i] == t[i - 1];
        }
      }
    }
  }

  /** The longest prefix of `s` made of hexadecimal digits. */
  function LeadingHexDigits(s: string): (d: string)
    ensures |d| <= |s| && d == s[..|d|]
    ensures forall i :: 0 <= i < |d| ==> IsHexDigit(d[i])
    ensures |d| < |s| ==> !IsHexDigit(s[|d|])
  {
    if s != [] && IsHexDigit(s[0]) then [s[0]] + LeadingHexDigits(s[1..]) else ""
  }

  /** The number a string of hexadecimal digits denotes, most significant digit first. */
  function HexValue(d: string): nat
    requires forall i :: 0 <= i < |d| ==> IsHexDigit(d[i])
  {
    if d == [] then 0
    else
      assert IsHexDigit(d[|d| - 1]);
      16 * HexValue(d[..|d| - 1]) + HexDigitValue(d[|d| - 1]).value
  }

  /**
   * `parseInt(s, 16)`: leading white space is skipped, then an optional sign,
   * then an optional `0x`/`0X`; the longest run of hexadecimal digits that
   * follows is the value. No digits at all gives NaN (`None`).
   */
  function ParseIntHex(s: string): (r: Option<int>)
    ensures r.Some? ==> exists i :: 0 <= i < |s| && IsHexDigit(s[i])
  {
    TrimStartSuffix(s);
    var t := TrimStart(s);
    assert forall i :: 0 <= i < |t| ==> t[i] == s[|s| - |t| + i];
    ParseTrimmed(t)
  }

  /** `parseInt` after the leading white space is gone. */
  function ParseTrimmed(t: string): (r: Option<int>)
    ensures r.Some? ==> exists i :: 0 <= i < |t| && IsHexDigit(t[i])
  {
    var negative := t != [] && t[0] == '-';
    var u := if t != [] && (t[0] == '-' || t[0] == '+') then t[1..] else t;
    var v := if |u| >= 2 && u[0] == '0' && (u[1] == 'x' || u[1] == 'X') then u[2..] else u;
    var d := LeadingHexDigits(v);
    var n: int := if negative then -(HexValue(d) as int) else HexValue(d);
    if d == [] then None
    else
      assert v == t[|t| - |v|..];
      assert IsHexDigit(t[|t| - |v|]);
      Some(n)
  }

  /**
   * `parseInt` of a two-character string `[a, b]`, spelled out case by case:
   * a skipped space, a sign, a bare `0x`, one or two hexadecimal digits.
   */
  function ParsePair(a: char, b: char): (r: Option<int>)
    ensures r.Some? ==> -16 < r.value < 256
  {
    if IsJsSpace(a) then
      if IsJsSpace(b) then None else Digit(b)
    else if a == '-' || a == '+' then
      match HexDigitValue(b)
      case None => None
      case Some(y) => var v: int := if a == '-' then -(y as int) else y; Some(v)
    else if a == '0' && (b == 'x' || b == 'X') then None
    else
      match HexDigitValue(a)
      case None => None
      case Some(x) =>
        match HexDigitValue(b)
        case None => Some(x)
        case Some(y) => Some(16 * x + y)
  }

  function Digit(c: char): (r: Option<int>)
    ensures r.Some? ==> 0 <= r.value < 16
  {
    match HexDigitValue(c)
    case None => None
    case Some(y) => Some(y)
  }

  /** The case-by-case reading agrees with `parseInt` on every two-character string. */
  lemma ParsePairAgrees(a: char, b: char)
    ensures ParseIntHex([a, b]) == ParsePair(a, b)
  {
    if IsJsSpace(a) {
      ParseAfterSpace(a, b);
    } else if a == '-' || a == '+' {
      ParseSigned(a, b);
    } else {
      ParseUnsigned(a, b);
    }
  }

  lemma ParseAfterSpace(a: char, b: char)
    requires IsJsSpace(a)
    ensures ParseIntHex([a, b]) == ParsePair(a, b)
  {
    var s := [a, b];
    assert TrimStart(s) == TrimStart([b]) by {
      assert s[1..] == [b];
    }
    if IsJsSpace(b) {
      assert TrimStart([b]) == [] by {
        assert [b][1..] == [];
      }
      assert ParseTrimmed([]) == None by {
        assert LeadingHexDigits([]) == [];
      }
    } else {
      ParseSingle(b);
      assert TrimStart([b]) == [b];
      assert b == '-' || b == '+' ==> !IsHexDigit(b);
    }
  }

  lemma ParseSigned(a: char, b: char)
    requires a == '-' || a == '+'
    ensures ParseIntHex([a, b]) == ParsePair(a, b)
  {
    var s := [a, b];
    assert TrimStart(s) == s;
    var d := LeadingHexDigits([b]);
    assert ParseTrimmed(s) == if d == [] then None else Some(if a == '-' then -(HexValue(d) as int) else HexValue(d)) by {
      assert s[1..] == [b];
    }
    if IsHexDigit(b) {
      assert d == [b] by {
        assert [b][1..] == [];
      }
      assert HexValue([b]) == HexDigitValue(b).value by {
        assert [b][..0] == [];
      }
    } else {
      assert d == [];
    }
  }

  lemma ParseUnsigned(a: char, b: char)
    requires !IsJsSpace(a) && a != '-' && a != '+'
    ensures ParseIntHex([a, b]) == ParsePair(a, b)
  {
    var s := [a, b];
    assert s[1..] == [b] && [b][1..] == [];
    assert TrimStart(s) == s;
    if a == '0' && (b == 'x' || b == 'X') {
      assert s[2..] == [];
      assert LeadingHexDigits([]) == [];
    } else if IsHexDigit(a) {
      var x := HexDigitValue(a).value;
      if IsHexDigit(b) {
        ParseTwoHexDigits(a, b, x, HexDigitValue(b).value);
      } else {
        assert LeadingHexDigits(s[1..]) == [];
        assert LeadingHexDigits(s) == [a];
        assert [a][..0] == [];
        assert HexValue([a]) == x;
      }
    } else {
      assert LeadingHexDigits(s) == [];
    }
  }

  /** `parseInt` of a one-character string that is not a space. */
  lemma ParseSingle(b: char)
    requires !IsJsSpace(b)
    ensures ParseIntHex([b]) == if b == '-' || b == '+' then None else Digit(b)
  {
    var s := [b];
    assert s[1..] == [];
    assert TrimStart(s) == s;
    if b == '-' || b == '+' {
      assert LeadingHexDigits([]) == [];
    } else if IsHexDigit(b) {
      assert LeadingHexDigits(s[1..]) == [];
      assert LeadingHexDigits(s) == s;
      assert s[..0] == [];
      assert HexValue(s) == HexDigitValue(b).value;
    } else {
      assert LeadingHexDigits(s) == [];
    }
  }

  /** ToUint8: what a `Uint8Array` element keeps of a number; NaN becomes 0, the rest is taken modulo 256. */
  function ToUint8(n: Option<int>): (b: Byte)
    ensures n.None? ==> b == 0
    ensures n.Some? ==> b as int == n.value % 256
  {
    if n.None? then 0 else OfNat(n.value % 256)
  }

  /** A number that fits in an octet is stored unchanged. */
  lemma ToUint8Small(x: int)
    requires 0 <= x < 256
    ensures ToUint8(Some(x)) as int == x
  {
    var u := ToUint8(Some(x));
    assert u as int == x % 256;
    assert x % 256 == x;
  }

  function HexDigitChar(d: nat): (c: char)
    requires d < 16
    ensures HexDigitValue(c) == Some(d)
  {
    if d < 10 then ('0' as int + d) as char else ('a' as int + d - 10) as char
  }

  /** An octet as two lower-case hexadecimal digits, as `Buffer.toString('hex')` writes it. */
  function HexByte(b: Byte): (s: string)
    ensures |s| == 2 && IsHexDigit(s[0]) && IsHexDigit(s[1])
  {
    [HexDigitChar(b as int / 16), HexDigitChar(b as int % 16)]
  }

  function HexEncode(bs: Buffer): (s: string)
    ensures |s| == 2 * |bs|
  {
    if bs == [] then "" else HexByte(bs[0]) + HexEncode(bs[1..])
  }

  lemma {:induction false} HexEncodeAt(bs: Buffer, k: nat)
    requires k < |bs|
    ensures HexEncode(bs)[2 * k..2 * k + 2] == HexByte(bs[k])
  {
    var pre := HexEncode(bs[..k]);
    var rest := bs[k..];
    assert bs == bs[..k] + rest;
    HexEncodeAppend(bs[..k], rest);
    assert rest[0] == bs[k];
    var tail := HexByte(bs[k]) + HexEncode(rest[1..]);
    assert HexEncode(rest) == tail;
    assert |pre| == 2 * k;
    SliceAfter(pre, tail, 2 * k, 2 * k + 2);
    assert tail[0..2] == HexByte(bs[k]);
  }

  /** The hex spelling of two buffers one after the other is the two spellings one after the other. */
  lemma {:induction false} HexEncodeAppend(x: Buffer, y: Buffer)
    ensures HexEncode(x + y) == HexEncode(x) + HexEncode(y)
  {
    if x != [] {
      assert (x + y)[0] == x[0];
      assert (x + y)[1..] == x[1..] + y;
      assert HexEncode(x + y) == HexByte(x[0]) + HexEncode(x[1..] + y);
      HexEncodeAppend(x[1..], y);
      assert HexEncode(x) == HexByte(x[0]) + HexEncode(x[1..]);
    } else {
      assert x + y == y;
    }
  }

  /** A slice that lies wholly in the second part of a concatenation. */
  lemma SliceAfter(a: string, b: string, i: nat, j: nat)
    requires |a| <= i <= j <= |a| + |b|
    ensures (a + b)[i..j] == b[i - |a|..j - |a|]
  {
  }

  /** Two hexadecimal digits parse to the number they spell, whatever their case. */
  lemma ParseTwoHexDigits(a: char, b: char, x: nat, y: nat)
    requires HexDigitValue(a) == Some(x) && HexDigitValue(b) == Some(y)
    ensures ParseIntHex([a, b]) == Some(16 * x + y)
  {
    var s := [a, b];
    assert !IsJsSpace(a);
    assert TrimStart(s) == s;
    assert a != '-' && a != '+';
    assert b != 'x' && b != 'X';
    assert LeadingHexDigits(s[1..][1..]) == "";
    assert LeadingHexDigits(s[1..]) == [b];
    assert LeadingHexDigits(s) == s;
    assert s[..1] == [a];
    assert HexValue(s[..1]) == x;
  }

  lemma {:induction false} ParseHexByte(b: Byte)
    ensures ParseIntHex(HexByte(b)) == Some(b as int)
    ensures ToUint8(ParseIntHex(HexByte(b))) == b
  {
    var n := b as int;
    ParseDigitPair(n);
    assert HexByte(b) == [HexDigitChar(n / 16), HexDigitChar(n % 16)];
    ToUint8Small(n);
    ValueInjective(ToUint8(Some(n)), b);
  }

  lemma ParseDigitPair(n: nat)
    requires n < 256
    ensures ParseIntHex([HexDigitChar(n / 16), HexDigitChar(n % 16)]) == Some(n)
  {
    ParseTwoHexDigits(HexDigitChar(n / 16), HexDigitChar(n % 16), n / 16, n % 16);
  }
}
