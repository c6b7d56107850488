/** The canonical-CBOR codec of the guest entrypoint: heads in shortest form and
    map entries in ascending order of their encoded keys (section 4.2.1 of RFC 8949). */
module Cbor {
  import opened Utf8
  import opened Ordering

  const HEAD_LIMIT: nat := 0x1_0000_0000_0000_0000

  type Double = b: seq<byte> | |b| == 8 witness [0, 0, 0, 0, 0, 0, 0, 0]

  /** Maps have text keys; a float is its eight IEEE-754 bytes. */
  datatype Value =
    | Null
    | Bool(flag: bool)
    | Int(number: int)
    | Bytes(bytes: seq<byte>)
    | Text(text: string)
    | List(items: seq<Value>)
    | Map(entries: map<string, Value>)
    | Float(bits: Double)

  datatype Error =
    | Truncated | InvalidLength | InvalidUtf8 | DuplicateKey | NonTextKey
    | Unsupported | TrailingBytes | NotCanonical | TooLarge

  datatype Parsed<+T> = Ok(value: T, rest: seq<byte>) | Err(error: Error)

  datatype Result<+T> = Success(result: T) | Failure(error: Error)

  // ----- big-endian integers -----

  function Pow256(width: nat): (p: nat)
    ensures p >= 1
  {
    if width == 0 then 1 else 256 * Pow256(width - 1)
  }

  function BigEndian(n: nat, width: nat): (b: seq<byte>)
    ensures |b| == width
    decreases width
  {
    if width == 0 then [] else BigEndian(n / 256, width - 1) + [n % 256]
  }

  function FromBigEndian(b: seq<byte>): (n: nat)
  {
    if b == [] then 0 else FromBigEndian(b[..|b| - 1]) * 256 + b[|b| - 1]
  }

  lemma {:induction false} FromBigEndianInverts(n: nat, width: nat)
    requires n < Pow256(width)
    ensures FromBigEndian(BigEndian(n, width)) == n
    decreases width
  {
    if width > 0 {
      FromBigEndianInverts(n / 256, width - 1);
      assert BigEndian(n, width)[..width - 1] == BigEndian(n / 256, width - 1);
    }
  }

  lemma {:induction false} FromBigEndianBound(b: seq<byte>)
    ensures FromBigEndian(b) < Pow256(|b|)
  {
    if b != [] {
      FromBigEndianBound(b[..|b| - 1]);
    }
  }

  lemma {:induction false} BigEndianMonotone(m: nat, n: nat, width: nat)
    requires m < n < Pow256(width)
    ensures LexLess(BigEndian(m, width), BigEndian(n, width))
    decreases width
  {
    var p, q := BigEndian(m / 256, width - 1), BigEndian(n / 256, width - 1);
    if m / 256 < n / 256 {
      BigEndianMonotone(m / 256, n / 256, width - 1);
      LexEqualLengthHeads(p, q, [m % 256], [n % 256]);
    } else {
      LexCommonPrefix(p, [m % 256], [n % 256]);
    }
  }

  lemma Widths()
    ensures Pow256(1) == 0x100 && Pow256(2) == 0x1_0000
    ensures Pow256(4) == 0x1_0000_0000 && Pow256(8) == HEAD_LIMIT
  {
    assert Pow256(4) == 256 * (256 * Pow256(2));
    assert Pow256(6) == 256 * (256 * Pow256(4));
  }

  // ----- heads -----

  /** The initial bytes of an item.  A value of `HEAD_LIMIT` or more has no head:
      `Encodable` excludes it. */
  function Head(major: nat, n: nat): (h: seq<byte>)
    requires major < 8
    ensures |h| >= 1
  {
    if n < 24 then [major * 32 + n]
    else if n < 0x100 then [major * 32 + 24] + BigEndian(n, 1)
    else if n < 0x1_0000 then [major * 32 + 25] + BigEndian(n, 2)
    else if n < 0x1_0000_0000 then [major * 32 + 26] + BigEndian(n, 4)
    else [major * 32 + 27] + BigEndian(n, 8)
  }

  function Take(b: seq<byte>, size: nat): (r: Parsed<seq<byte>>)
    ensures r.Ok? ==> b == r.value + r.rest && |r.value| == size
  {
    if size <= |b| then Ok(b[..size], b[size..]) else Err(Truncated)
  }

  function TakeUint(b: seq<byte>, width: nat): (r: Parsed<nat>)
    ensures r.Ok? ==> |r.rest| <= |b| && r.value < Pow256(width)
  {
    match Take(b, width)
    case Err(e) => Err(e)
    case Ok(digits, rest) => FromBigEndianBound(digits); Ok(FromBigEndian(digits), rest)
  }

  function Uint(additional: nat, b: seq<byte>): (r: Parsed<nat>)
    ensures r.Ok? ==> |r.rest| <= |b| && r.value < HEAD_LIMIT
  {
    Widths();
    if additional < 24 then Ok(additional, b)
    else if additional == 24 then TakeUint(b, 1)
    else if additional == 25 then TakeUint(b, 2)
    else if additional == 26 then TakeUint(b, 4)
    else if additional == 27 then TakeUint(b, 8)
    else Err(InvalidLength)
  }

  lemma {:induction false} TakeUintInverts(n: nat, width: nat, rest: seq<byte>)
    requires n < Pow256(width)
    ensures TakeUint(BigEndian(n, width) + rest, width) == Ok(n, rest)
  {
    var d := BigEndian(n, width);
    assert (d + rest)[..width] == d && (d + rest)[width..] == rest;
    FromBigEndianInverts(n, width);
  }

  lemma UintInvertsHead(major: nat, n: nat, rest: seq<byte>)
    requires major < 8 && n < HEAD_LIMIT
    ensures var b := Head(major, n) + rest;
            b[0] / 32 == major && Uint(b[0] % 32, b[1..]) == Ok(n, rest)
  {
    Widths();
    var b := Head(major, n) + rest;
    if n < 24 {
      assert b[1..] == rest;
    } else {
      var width := if n < 0x100 then 1 else if n < 0x1_0000 then 2 else if n < 0x1_0000_0000 then 4 else 8;
      assert b[1..] == BigEndian(n, width) + rest;
      TakeUintInverts(n, width, rest);
    }
  }

  /** No shorter bytes are read as a head of the same number. */
  lemma HeadIsShortest(major: nat, b: seq<byte>, n: nat, rest: seq<byte>)
    requires major < 8 && n < HEAD_LIMIT && b != [] && Uint(b[0] % 32, b[1..]) == Ok(n, rest)
    ensures |Head(major, n)| <= |b| - |rest|
  {
    Widths();
  }

  /** The number of bytes after the initial byte of a head. */
  function Width(n: nat): (w: nat)
  {
    if n < 24 then 0 else if n < 0x100 then 1 else if n < 0x1_0000 then 2 else if n < 0x1_0000_0000 then 4 else 8
  }

  function Initial(major: nat, n: nat): (b: byte)
    requires major < 8
  {
    major * 32 +
    if n < 24 then n else if n < 0x100 then 24 else if n < 0x1_0000 then 25 else if n < 0x1_0000_0000 then 26 else 27
  }

  lemma {:induction false} HeadShape(major: nat, n: nat)
    requires major < 8
    ensures n >= 24 ==> Head(major, n) == [Initial(major, n)] + BigEndian(n, Width(n))
    ensures n < 24 ==> Head(major, n) == [Initial(major, n)]
    ensures n < HEAD_LIMIT && n >= 24 ==> n < Pow256(Width(n))
  {
    Widths();
  }

  lemma {:induction false} DigitsMonotone(i: int, m: nat, n: nat, width: nat, a: seq<int>, b: seq<int>)
    requires m < n < Pow256(width)
    ensures LexLess([i] + BigEndian(m, width) + a, [i] + BigEndian(n, width) + b)
  {
    var p, q := BigEndian(m, width), BigEndian(n, width);
    BigEndianMonotone(m, n, width);
    LexEqualLengthHeads(p, q, a, b);
    LexCommonPrefix([i], p + a, q + b);
    assert [i] + p + a == [i] + (p + a) && [i] + q + b == [i] + (q + b);
  }

  /** Heads of one major type are ordered as the numbers they announce. */
  lemma {:induction false} HeadMonotone(major: nat, m: nat, n: nat, a: seq<int>, b: seq<int>)
    requires major < 8 && m < n < HEAD_LIMIT
    ensures LexLess(Head(major, m) + a, Head(major, n) + b)
  {
    HeadShape(major, m);
    HeadShape(major, n);
    if Initial(major, m) == Initial(major, n) {
      assert Width(m) == Width(n) && m >= 24;
      DigitsMonotone(Initial(major, m), m, n, Width(n), a, b);
    } else {
      var p, q := Head(major, m) + a, Head(major, n) + b;
      assert p[0] == Initial(major, m) < Initial(major, n) == q[0];
    }
  }

  // ----- encoding -----

  function EncodeText(s: string): (b: seq<byte>)
  {
    Head(3, |EncodeString(s)|) + EncodeString(s)
  }

  function KeyBytes(key: string): (b: seq<int>)
  {
    EncodeText(key)
  }

  predicate Fits(s: string) { |EncodeString(s)| < HEAD_LIMIT }

  /** The values `encode_cbor` accepts: every integer and every length has a head. */
  predicate Encodable(v: Value)
  {
    match v
    case Null => true
    case Bool(_) => true
    case Int(i) => 0 - HEAD_LIMIT <= i < HEAD_LIMIT
    case Bytes(bs) => |bs| < HEAD_LIMIT
    case Text(s) => Fits(s)
    case List(items) => |items| < HEAD_LIMIT && forall i | 0 <= i < |items| :: Encodable(items[i])
    case Map(m) => |m| < HEAD_LIMIT && forall k | k in m :: Fits(k) && Encodable(m[k])
    case Float(_) => true
  }

  lemma EncodeTextInjective(s: string, t: string)
    requires Fits(s) && Fits(t) && EncodeText(s) == EncodeText(t)
    ensures s == t
  {
    var u, w := EncodeString(s), EncodeString(t);
    UintInvertsHead(3, |u|, u);
    UintInvertsHead(3, |w|, w);
    EncodeInjective(s, t);
  }

  lemma KeysInjective(m: map<string, Value>)
    requires forall k | k in m :: Fits(k)
    ensures InjectiveOn(m.Keys, KeyBytes)
  {
    forall x, y | x in m.Keys && y in m.Keys && KeyBytes(x) == KeyBytes(y) ensures x == y {
      EncodeTextInjective(x, y);
    }
  }

  /** The order in which a map's entries are written. */
  function KeyOrder(m: map<string, Value>): (ks: seq<string>)
    requires forall k | k in m :: Fits(k)
    ensures |ks| == |m| && (forall k :: k in ks <==> k in m) && Ascending(ks, KeyBytes)
    ensures forall i, j :: 0 <= i < j < |ks| ==> ks[i] != ks[j]
  {
    KeysInjective(m);
    SortBy(m.Keys, KeyBytes)
  }

  function Encode(v: Value): (b: seq<byte>)
    requires Encodable(v)
    ensures |b| >= 1
    decreases v, 1
  {
    match v
    case Null => [0xF6]
    case Bool(flag) => if flag then [0xF5] else [0xF4]
    case Int(i) => if i >= 0 then Head(0, i) else Head(1, -1 - i)
    case Bytes(bs) => Head(2, |bs|) + bs
    case Text(s) => EncodeText(s)
    case List(items) => Head(4, |items|) + EncodeItems(items)
    case Map(m) => Head(5, |m|) + EncodeEntries(v, KeyOrder(m))
    case Float(bits) => [0xFB] + bits
  }

  function EncodeItems(items: seq<Value>): (b: seq<byte>)
    requires forall i | 0 <= i < |items| :: Encodable(items[i])
    decreases items, 0
  {
    if items == [] then [] else Encode(items[0]) + EncodeItems(items[1..])
  }

  function EncodeEntries(v: Value, keys: seq<string>): (b: seq<byte>)
    requires v.Map? && Encodable(v) && forall k :: k in keys ==> k in v.entries
    decreases v, 0, |keys|
  {
    if keys == [] then []
    else EncodeText(keys[0]) + Encode(v.entries[keys[0]]) + EncodeEntries(v, keys[1..])
  }

  /** `encode_cbor`. */
  function EncodeCbor(v: Value): (r: Result<seq<byte>>)
  {
    if Encodable(v) then Success(Encode(v)) else Failure(TooLarge)
  }
}
