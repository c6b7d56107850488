/** Bytes, and the strict UTF-8 codec behind `str.encode("utf-8")` and
    `bytes.decode("utf-8")`: overlong forms, surrogates and values past U+10FFFF
    are rejected. */
module Utf8 {
  import opened Options

  type byte = b: int | 0 <= b < 256

  function EncodeChar(c: char): (r: seq<byte>)
    ensures 1 <= |r| <= 4
  {
    var n := c as int;
    if n < 0x80 then [n]
    else if n < 0x800 then [0xC0 + n / 64, 0x80 + n % 64]
    else if n < 0x10000 then [0xE0 + n / 4096, 0x80 + n / 64 % 64, 0x80 + n % 64]
    else [0xF0 + n / 262144, 0x80 + n / 4096 % 64, 0x80 + n / 64 % 64, 0x80 + n % 64]
  }

  function EncodeString(s: string): (r: seq<byte>)
    ensures |s| <= |r|
  {
    if s == [] then [] else EncodeChar(s[0]) + EncodeString(s[1..])
  }

  predicate Continuation(b: byte) { 0x80 <= b < 0xC0 }

  /** The payload bits of a byte whose marker bits are `marker`. */
  function Payload(b: byte, marker: int): (n: int) { b - marker }

  predicate IsScalar(n: int) { 0 <= n < 0xD800 || 0xE000 <= n < 0x110000 }

  function Join2(b: seq<byte>): (n: int)
    requires |b| >= 2
  {
    Payload(b[0], 0xC0) * 64 + Payload(b[1], 0x80)
  }

  function Join3(b: seq<byte>): (n: int)
    requires |b| >= 3
  {
    Payload(b[0], 0xE0) * 4096 + Payload(b[1], 0x80) * 64 + Payload(b[2], 0x80)
  }

  function Join4(b: seq<byte>): (n: int)
    requires |b| >= 4
  {
    Payload(b[0], 0xF0) * 262144 + Payload(b[1], 0x80) * 4096 + Payload(b[2], 0x80) * 64 + Payload(b[3], 0x80)
  }

  /** The scalar value that `b` starts with and the number of bytes it occupies. */
  function DecodeChar(b: seq<byte>): (r: Option<(char, nat)>)
    requires b != []
    ensures r.Some? ==> 1 <= r.value.1 <= |b|
  {
    if b[0] < 0x80 then Some((b[0] as char, 1))
    else if 0xC0 <= b[0] < 0xE0 && |b| >= 2 && Continuation(b[1]) then
      if Join2(b) < 0x80 then None else Some((Join2(b) as char, 2))
    else if 0xE0 <= b[0] < 0xF0 && |b| >= 3 && Continuation(b[1]) && Continuation(b[2]) then
      if Join3(b) < 0x800 || !IsScalar(Join3(b)) then None else Some((Join3(b) as char, 3))
    else if 0xF0 <= b[0] < 0xF8 && |b| >= 4 && Continuation(b[1]) && Continuation(b[2]) && Continuation(b[3]) then
      if Join4(b) < 0x10000 || !IsScalar(Join4(b)) then None else Some((Join4(b) as char, 4))
    else None
  }

  function DecodeString(b: seq<byte>): (r: Option<string>)
  {
    if b == [] then Some([])
    else
      match DecodeChar(b)
      case None => None
      case Some((c, k)) =>
        match DecodeString(b[k..])
        case None => None
        case Some(s) => Some([c] + s)
  }

  lemma Digits(n: nat)
    ensures n == n / 64 * 64 + n % 64
    ensures n == n / 4096 * 4096 + n / 64 % 64 * 64 + n % 64
    ensures n == n / 262144 * 262144 + n / 4096 % 64 * 4096 + n / 64 % 64 * 64 + n % 64
  {
    assert n / 4096 == n / 64 / 64 && n / 262144 == n / 4096 / 64;
  }

  lemma DigitsUnique(a: int, b: int, c: int, d: int)
    requires 0 <= b < 64 && 0 <= c < 64 && 0 <= d < 64 && a >= 0
    ensures var n := a * 262144 + b * 4096 + c * 64 + d;
            n / 262144 == a && n / 4096 % 64 == b && n / 64 % 64 == c && n % 64 == d
  {
    var n := a * 262144 + b * 4096 + c * 64 + d;
    assert n / 64 == a * 4096 + b * 64 + c;
    assert n / 4096 == a * 64 + b;
  }

  lemma DecodeCharInvertsEncodeChar(c: char, rest: seq<byte>)
    ensures DecodeChar(EncodeChar(c) + rest) == Some((c, |EncodeChar(c)|))
  {
    var n := c as int;
    assert IsScalar(n);
    Digits(n);
    var e := EncodeChar(c);
    var b := e + rest;
    assert b[0] == e[0] && (|e| > 1 ==> b[1] == e[1]) && (|e| > 2 ==> b[2] == e[2]) && (|e| > 3 ==> b[3] == e[3]);
    if n < 0x80 {
    } else if n < 0x800 {
      assert Join2(b) == n;
    } else if n < 0x10000 {
      assert Join3(b) == n;
    } else {
      assert Join4(b) == n;
    }
  }

  lemma EncodeCharInvertsDecodeChar(b: seq<byte>)
    requires b != [] && DecodeChar(b).Some?
    ensures EncodeChar(DecodeChar(b).value.0) == b[..DecodeChar(b).value.1]
  {
    var (c, k) := DecodeChar(b).value;
    if k == 2 {
      DigitsUnique(0, 0, Payload(b[0], 0xC0), Payload(b[1], 0x80));
    } else if k == 3 {
      DigitsUnique(0, Payload(b[0], 0xE0), Payload(b[1], 0x80), Payload(b[2], 0x80));
    } else if k == 4 {
      DigitsUnique(Payload(b[0], 0xF0), Payload(b[1], 0x80), Payload(b[2], 0x80), Payload(b[3], 0x80));
    }
  }

  lemma {:induction false} DecodeInvertsEncode(s: string)
    ensures DecodeString(EncodeString(s)) == Some(s)
  {
    if s != [] {
      var h, t := EncodeChar(s[0]), EncodeString(s[1..]);
      DecodeCharInvertsEncodeChar(s[0], t);
      assert (h + t)[|h|..] == t;
      DecodeInvertsEncode(s[1..]);
      assert [s[0]] + s[1..] == s;
    }
  }

  lemma {:induction false} EncodeInvertsDecode(b: seq<byte>)
    requires DecodeString(b).Some?
    ensures EncodeString(DecodeString(b).value) == b
  {
    if b != [] {
      var (c, k) := DecodeChar(b).value;
      var t := DecodeString(b[k..]).value;
      EncodeInvertsDecode(b[k..]);
      EncodeCharInvertsDecodeChar(b);
      EncodeJoined(c, t, b, k);
    }
  }

  lemma {:induction false} EncodeJoined(c: char, t: string, b: seq<byte>, k: nat)
    requires k <= |b| && EncodeChar(c) == b[..k] && EncodeString(t) == b[k..]
    ensures EncodeString([c] + t) == b
  {
    assert ([c] + t)[1..] == t;
  }

  lemma {:induction false} EncodeInjective(s: string, t: string)
    requires EncodeString(s) == EncodeString(t)
    ensures s == t
  {
    DecodeInvertsEncode(s);
    DecodeInvertsEncode(t);
  }

  lemma {:induction false} EncodeAppend(s: string, t: string)
    ensures EncodeString(s + t) == EncodeString(s) + EncodeString(t)
  {
    if s == "" {
      assert s + t == t;
    } else {
      var u := s + t;
      assert u[0] == s[0] && u[1..] == s[1..] + t;
      EncodeAppend(s[1..], t);
      Regroup(EncodeChar(s[0]), EncodeString(s[1..]), EncodeString(t));
    }
  }

  lemma Regroup(a: seq<byte>, b: seq<byte>, c: seq<byte>)
    ensures a + (b + c) == a + b + c
  {
  }

  /** Characters of the examples of section 7 of RFC 3629, and the ends of each length. */
  lemma Examples()
    ensures EncodeChar('A') == [0x41] && EncodeChar('\U{7F}') == [0x7F] && EncodeChar('\U{80}') == [0xC2, 0x80]
    ensures EncodeChar('\U{0391}') == [0xCE, 0x91] && EncodeChar('\U{7FF}') == [0xDF, 0xBF]
    ensures EncodeChar('\U{800}') == [0xE0, 0xA0, 0x80] && EncodeChar('\U{2262}') == [0xE2, 0x89, 0xA2]
    ensures EncodeChar('\U{D55C}') == [0xED, 0x95, 0x9C] && EncodeChar('\U{FFFF}') == [0xEF, 0xBF, 0xBF]
    ensures EncodeChar('\U{10000}') == [0xF0, 0x90, 0x80, 0x80]
    ensures EncodeChar('\U{233B4}') == [0xF0, 0xA3, 0x8E, 0xB4]
    ensures EncodeChar('\U{10FFFF}') == [0xF4, 0x8F, 0xBF, 0xBF]
  {
  }
}
