/** Decoding, and the laws that tie it to encoding. */
module CborDecoder {
  import opened Utf8
  import opened Cbor
  import Ordering

  // ----- what the decoder computes -----

  /** One item at the front of `b`.  Every item takes at least one byte, so the
      recursion ends however many elements a head announces. */
  function ParseValue(b: seq<byte>): (r: Parsed<Value>)
    ensures r.Ok? ==> |r.rest| < |b|
    decreases |b|, 0
  {
    if b == [] then Err(Truncated)
    else if b[0] / 32 == 7 then ParseSimple(b[0] % 32, b[1..])
    else if b[0] / 32 == 6 then Err(Unsupported)
    else
      match Uint(b[0] % 32, b[1..])
      case Err(e) => Err(e)
      case Ok(n, rest) => ParseBody(b[0] / 32, n, rest)
  }

  function ParseSimple(additional: nat, b: seq<byte>): (r: Parsed<Value>)
    ensures r.Ok? ==> |r.rest| <= |b|
  {
    if additional == 20 then Ok(Bool(false), b)
    else if additional == 21 then Ok(Bool(true), b)
    else if additional == 22 then Ok(Null, b)
    else if additional == 27 then
      match Take(b, 8)
      case Err(e) => Err(e)
      case Ok(bits, rest) => Ok(Float(bits), rest)
    else Err(Unsupported)
  }

  function ParseBody(major: nat, n: nat, b: seq<byte>): (r: Parsed<Value>)
    requires major < 6
    ensures r.Ok? ==> |r.rest| <= |b|
    decreases |b|, 3
  {
    match major
    case 0 => Ok(Int(n), b)
    case 1 => Ok(Int(-1 - n), b)
    case 2 =>
      (match Take(b, n)
       case Err(e) => Err(e)
       case Ok(bs, rest) => Ok(Bytes(bs), rest))
    case 3 =>
      (match Take(b, n)
       case Err(e) => Err(e)
       case Ok(bs, rest) =>
         match DecodeString(bs)
         case None => Err(InvalidUtf8)
         case Some(s) => Ok(Text(s), rest))
    case 4 =>
      (match ParseItems(b, n)
       case Err(e) => Err(e)
       case Ok(items, rest) => Ok(List(items), rest))
    case _ =>
      (match ParseEntries(b, n, map[])
       case Err(e) => Err(e)
       case Ok(m, rest) => Ok(Map(m), rest))
  }

  function ParseItems(b: seq<byte>, n: nat): (r: Parsed<seq<Value>>)
    ensures r.Ok? ==> |r.rest| <= |b| && |r.value| == n
    decreases |b|, 1
  {
    if n == 0 then Ok([], b)
    else
      match ParseValue(b)
      case Err(e) => Err(e)
      case Ok(v, rest) =>
        match ParseItems(rest, n - 1)
        case Err(e) => Err(e)
        case Ok(vs, rest') => Ok([v] + vs, rest')
  }

  /** A key that is not yet in `m`, and its value. */
  function ParseEntry(b: seq<byte>, m: map<string, Value>): (r: Parsed<(string, Value)>)
    ensures r.Ok? ==> |r.rest| < |b| && r.value.0 !in m
    decreases |b|, 1
  {
    match ParseValue(b)
    case Err(e) => Err(e)
    case Ok(key, rest) =>
      if !key.Text? then Err(NonTextKey)
      else if key.text in m then Err(DuplicateKey)
      else
        match ParseValue(rest)
        case Err(e) => Err(e)
        case Ok(v, rest') => Ok((key.text, v), rest')
  }

  function ParseEntries(b: seq<byte>, n: nat, m: map<string, Value>): (r: Parsed<map<string, Value>>)
    ensures r.Ok? ==> |r.rest| <= |b| && |r.value| == |m| + n
    decreases |b|, 2
  {
    if n == 0 then Ok(m, b)
    else
      match ParseEntry(b, m)
      case Err(e) => Err(e)
      case Ok((key, v), rest) => ParseEntries(rest, n - 1, m[key := v])
  }

  /** `decode_cbor`: one item, nothing after it, in canonical form. */
  function DecodeCbor(b: seq<byte>): (r: Result<Value>)
  {
    match ParseValue(b)
    case Err(e) => Failure(e)
    case Ok(v, rest) =>
      ParsedIsEncodable(b);
      if rest != [] then Failure(TrailingBytes)
      else if Encode(v) != b then Failure(NotCanonical)
      else Success(v)
  }

  // ----- everything parsed can be encoded again -----

  lemma {:induction false} ParsedIsEncodable(b: seq<byte>)
    ensures ParseValue(b).Ok? ==> Encodable(ParseValue(b).value)
    decreases |b|, 0
  {
    if b != [] && b[0] / 32 < 6 && Uint(b[0] % 32, b[1..]).Ok? {
      var Ok(n, rest) := Uint(b[0] % 32, b[1..]);
      BodyIsEncodable(b[0] / 32, n, rest);
    }
  }

  lemma {:induction false} BodyIsEncodable(major: nat, n: nat, b: seq<byte>)
    requires major < 6 && n < HEAD_LIMIT
    ensures ParseBody(major, n, b).Ok? ==> Encodable(ParseBody(major, n, b).value)
    decreases |b|, 3
  {
    if major == 3 && Take(b, n).Ok? && DecodeString(Take(b, n).value).Some? {
      EncodeInvertsDecode(Take(b, n).value);
    } else if major == 4 {
      ItemsAreEncodable(b, n);
    } else if major == 5 {
      EntriesAreEncodable(b, n, map[]);
    }
  }

  lemma {:induction false} ItemsAreEncodable(b: seq<byte>, n: nat)
    ensures ParseItems(b, n).Ok? ==> forall i | 0 <= i < n :: Encodable(ParseItems(b, n).value[i])
    decreases |b|, 1
  {
    if n > 0 && ParseValue(b).Ok? {
      ParsedIsEncodable(b);
      ItemsAreEncodable(ParseValue(b).rest, n - 1);
    }
  }

  lemma {:induction false} EntriesAreEncodable(b: seq<byte>, n: nat, m: map<string, Value>)
    requires forall k | k in m :: Fits(k) && Encodable(m[k])
    ensures var r := ParseEntries(b, n, m);
            r.Ok? ==> forall k | k in r.value :: Fits(k) && Encodable(r.value[k])
    decreases |b|, 2
  {
    if n > 0 && ParseEntry(b, m).Ok? {
      var Ok((key, v), rest) := ParseEntry(b, m);
      ParsedIsEncodable(b);
      ParsedIsEncodable(ParseValue(b).rest);
      EntriesAreEncodable(rest, n - 1, m[key := v]);
    }
  }

  // ----- the decoder undoes the encoder -----

  lemma {:induction false} ParseInvertsEncode(v: Value, rest: seq<byte>)
    requires Encodable(v)
    ensures ParseValue(Encode(v) + rest) == Ok(v, rest)
    decreases v, 1
  {
    match v
    case Text(s) => ParseInvertsEncodeText(s, rest);
    case List(items) =>
      ParseInvertsEncodeItems(items, rest);
      ListFromItems(v, rest);
    case Map(m) =>
      ParseInvertsEncodeEntries(v, KeyOrder(m), rest, map[]);
      RestrictToAll(m, KeyOrder(m));
      MapFromEntries(m, EncodeEntries(v, KeyOrder(m)), rest);
    case _ => ParseInvertsEncodeAtom(v, rest);
  }

  lemma {:induction false} ListFromItems(v: Value, rest: seq<byte>)
    requires v.List? && Encodable(v)
    requires ParseItems(EncodeItems(v.items) + rest, |v.items|) == Ok(v.items, rest)
    ensures ParseValue(Encode(v) + rest) == Ok(v, rest)
  {
    BodyAfterHead(4, |v.items|, EncodeItems(v.items), rest);
  }

  lemma {:induction false} MapFromEntries(m: map<string, Value>, body: seq<byte>, rest: seq<byte>)
    requires |m| < HEAD_LIMIT && ParseEntries(body + rest, |m|, map[]) == Ok(m, rest)
    ensures ParseValue(Head(5, |m|) + body + rest) == Ok(Map(m), rest)
  {
    BodyAfterHead(5, |m|, body, rest);
  }

  lemma RestrictToAll(m: map<string, Value>, keys: seq<string>)
    requires forall k :: k in keys <==> k in m
    ensures map[] + Restrict(m, keys) == m
  {
  }

  lemma TakeFront(p: seq<byte>, rest: seq<byte>)
    ensures Take(p + rest, |p|) == Ok(p, rest)
  {
    assert (p + rest)[..|p|] == p && (p + rest)[|p|..] == rest;
  }

  lemma {:induction false} ParseInvertsEncodeAtom(v: Value, rest: seq<byte>)
    requires Encodable(v) && !v.Text? && !v.List? && !v.Map?
    ensures ParseValue(Encode(v) + rest) == Ok(v, rest)
  {
    if v.Int? {
      UintInvertsHead(if v.number >= 0 then 0 else 1, if v.number >= 0 then v.number else -1 - v.number, rest);
    } else if v.Bytes? {
      ParseInvertsEncodeBytes(v.bytes, rest);
    } else if v.Float? {
      ParseInvertsEncodeFloat(v.bits, rest);
    } else {
      assert (Encode(v) + rest)[1..] == rest;
    }
  }

  lemma {:induction false} ParseInvertsEncodeBytes(bytes: seq<byte>, rest: seq<byte>)
    requires |bytes| < HEAD_LIMIT
    ensures ParseValue(Head(2, |bytes|) + bytes + rest) == Ok(Bytes(bytes), rest)
  {
    BodyAfterHead(2, |bytes|, bytes, rest);
    TakeFront(bytes, rest);
  }

  lemma {:induction false} ParseInvertsEncodeFloat(bits: Double, rest: seq<byte>)
    ensures ParseValue([0xFB] + bits + rest) == Ok(Float(bits), rest)
  {
    var b := [0xFB] + bits + rest;
    assert b[0] == 0xFB && b[1..] == bits + rest;
    TakeFront(bits, rest);
  }

  /** The entries of `m` whose keys are listed. */
  ghost function Restrict(m: map<string, Value>, keys: seq<string>): (r: map<string, Value>)
  {
    map k | k in keys && k in m :: m[k]
  }

  lemma {:induction false} BodyAfterHead(major: nat, n: nat, body: seq<byte>, rest: seq<byte>)
    requires major < 6 && n < HEAD_LIMIT
    ensures ParseValue(Head(major, n) + body + rest) == ParseBody(major, n, body + rest)
  {
    HeadIsParsed(major, n, body + rest);
    assert Head(major, n) + body + rest == Head(major, n) + (body + rest);
  }

  lemma HeadIsParsed(major: nat, n: nat, rest: seq<byte>)
    requires major < 6 && n < HEAD_LIMIT
    ensures ParseValue(Head(major, n) + rest) == ParseBody(major, n, rest)
  {
    UintInvertsHead(major, n, rest);
  }

  lemma {:induction false} ParseInvertsEncodeText(s: string, rest: seq<byte>)
    requires Fits(s)
    ensures ParseValue(EncodeText(s) + rest) == Ok(Text(s), rest)
  {
    var u := EncodeString(s);
    BodyAfterHead(3, |u|, u, rest);
    TakeFront(u, rest);
    DecodeInvertsEncode(s);
  }

  lemma {:induction false} ParseInvertsEncodeItems(items: seq<Value>, rest: seq<byte>)
    requires forall i | 0 <= i < |items| :: Encodable(items[i])
    ensures ParseItems(EncodeItems(items) + rest, |items|) == Ok(items, rest)
    decreases items, 0
  {
    if items == [] {
      assert EncodeItems(items) + rest == rest;
    } else {
      var tail := EncodeItems(items[1..]);
      ParseInvertsEncode(items[0], tail + rest);
      ParseInvertsEncodeItems(items[1..], rest);
      assert EncodeItems(items) + rest == Encode(items[0]) + (tail + rest);
      assert [items[0]] + items[1..] == items;
    }
  }

  /** The listed keys are distinct, in `m`, and not yet read. */
  ghost predicate Unread(m: map<string, Value>, keys: seq<string>, done: map<string, Value>)
  {
    && (forall k :: k in keys ==> k in m && k !in done)
    && (forall i, j :: 0 <= i < j < |keys| ==> keys[i] != keys[j])
  }

  lemma {:induction false} ParseInvertsEncodeEntries(
      v: Value, keys: seq<string>, rest: seq<byte>, done: map<string, Value>)
    requires v.Map? && Encodable(v) && Unread(v.entries, keys, done)
    ensures ParseEntries(EncodeEntries(v, keys) + rest, |keys|, done) == Ok(done + Restrict(v.entries, keys), rest)
    decreases v, 0, |keys|
  {
    if keys == [] {
      NothingLeft(v, rest, done);
    } else {
      var first := v.entries[keys[0]];
      var done' := done[keys[0] := first];
      var tail := EncodeEntries(v, keys[1..]) + rest;
      UnreadTail(v.entries, keys, done, first);
      RestrictTail(v.entries, keys, done);
      assert ParseValue(Encode(first) + tail) == Ok(first, tail) by {
        ParseInvertsEncode(first, tail);
      }
      assert ParseEntries(EncodeEntries(v, keys) + rest, |keys|, done) == ParseEntries(tail, |keys[1..]|, done') by {
        EncodeEntriesStep(v, keys, rest);
        ParseEntryStep(keys[0], first, Encode(first), tail, |keys|, done);
      }
      ParseInvertsEncodeEntries(v, keys[1..], rest, done');
    }
  }

  lemma {:induction false} NothingLeft(v: Value, rest: seq<byte>, done: map<string, Value>)
    requires v.Map? && Encodable(v)
    ensures ParseEntries(EncodeEntries(v, []) + rest, 0, done) == Ok(done + Restrict(v.entries, []), rest)
  {
    assert EncodeEntries(v, []) + rest == rest;
    assert done + Restrict(v.entries, []) == done;
  }

  lemma UnreadTail(m: map<string, Value>, keys: seq<string>, done: map<string, Value>, v: Value)
    requires keys != [] && Unread(m, keys, done)
    ensures Unread(m, keys[1..], done[keys[0] := v])
  {
  }

  lemma RestrictTail(m: map<string, Value>, keys: seq<string>, done: map<string, Value>)
    requires keys != [] && Unread(m, keys, done)
    ensures done[keys[0] := m[keys[0]]] + Restrict(m, keys[1..]) == done + Restrict(m, keys)
  {
    forall k ensures k in keys <==> k == keys[0] || k in keys[1..] {
      assert keys == [keys[0]] + keys[1..];
    }
  }

  lemma {:induction false} EncodeEntriesStep(v: Value, keys: seq<string>, rest: seq<byte>)
    requires v.Map? && Encodable(v) && keys != [] && forall k :: k in keys ==> k in v.entries
    ensures EncodeEntries(v, keys) + rest
         == EncodeText(keys[0]) + (Encode(v.entries[keys[0]]) + (EncodeEntries(v, keys[1..]) + rest))
  {
  }

  lemma {:induction false} ParseEntryStep(
      key: string, v: Value, value: seq<byte>, tail: seq<byte>, n: nat, done: map<string, Value>)
    requires n > 0 && Fits(key) && key !in done && ParseValue(value + tail) == Ok(v, tail)
    ensures ParseEntries(EncodeText(key) + (value + tail), n, done) == ParseEntries(tail, n - 1, done[key := v])
  {
    ParseInvertsEncodeText(key, value + tail);
    assert ParseEntry(EncodeText(key) + (value + tail), done) == Ok((key, v), tail);
  }

  lemma {:induction false} ParseWhole(v: Value)
    requires Encodable(v)
    ensures ParseValue(Encode(v)) == Ok(v, [])
  {
    ParseFront(v, Encode(v));
  }

  lemma EncodingDecodes(v: Value)
    requires Encodable(v)
    ensures DecodeCbor(Encode(v)) == Success(v)
  {
    ParseWhole(v);
  }

  /** `decode_cbor` accepts exactly the encoder's image. */
  lemma AcceptsExactlyEncodings(b: seq<byte>)
    ensures forall v :: DecodeCbor(b) == Success(v) <==> EncodeCbor(v) == Success(b)
  {
    ParsedIsEncodable(b);
    forall v | EncodeCbor(v) == Success(b) ensures DecodeCbor(b) == Success(v) {
      ParseWhole(v);
    }
    forall v | DecodeCbor(b) == Success(v) ensures EncodeCbor(v) == Success(b) {
    }
  }

  /** Round trip: what the encoder writes decodes to the value it was given, and no other
      body does; what it refuses, no body decodes to. */
  lemma RoundTrip(v: Value)
    ensures match EncodeCbor(v)
            case Success(b) => forall c :: DecodeCbor(c) == Success(v) <==> c == b
            case Failure(_) => forall c :: DecodeCbor(c) != Success(v)
  {
    forall c ensures DecodeCbor(c) == Success(v) <==> EncodeCbor(v) == Success(c) {
      AcceptsExactlyEncodings(c);
    }
  }

  lemma {:induction false} ParseFront(v: Value, b: seq<byte>)
    requires Encodable(v) && Encode(v) <= b
    ensures ParseValue(b) == Ok(v, b[|Encode(v)|..])
  {
    var rest := b[|Encode(v)|..];
    assert b == Encode(v) + rest;
    ParseInvertsEncode(v, rest);
  }

  /** Encodings are uniquely decodable in sequence: none is a prefix of another. */
  lemma {:induction false} PrefixFree(v: Value, w: Value)
    requires Encodable(v) && Encodable(w) && Encode(v) <= Encode(w)
    ensures v == w
  {
    ParseFront(v, Encode(w));
    ParseFront(w, Encode(w));
  }

  /** For text keys the bytewise order of section 4.2.1 of RFC 8949 is the
      length-first order of section 3.9 of RFC 7049. */
  lemma {:induction false} KeyOrdersCoincide(s: string, t: string)
    requires Fits(s) && Fits(t)
    ensures var u, w := EncodeString(s), EncodeString(t);
            Ordering.LexLess(EncodeText(s), EncodeText(t))
            <==> |u| < |w| || (|u| == |w| && Ordering.LexLess(u, w))
  {
    var u, w := EncodeString(s), EncodeString(t);
    if |u| < |w| {
      HeadMonotone(3, |u|, |w|, u, w);
    } else if |w| < |u| {
      HeadMonotone(3, |w|, |u|, w, u);
      Ordering.LexTrichotomy(EncodeText(s), EncodeText(t));
    } else {
      Ordering.LexCommonPrefix(Head(3, |u|), u, w);
    }
  }

  // ----- the bytes of the standard -----

  lemma QuotientIs(n: nat, d: nat, q: nat, r: nat)
    requires n == q * d + r && r < d
    ensures n / d == q
  {
    var p := n / d;
    assert p * d <= n < p * d + d;
    Ordered(p, q, d, n - p * d, r);
  }

  /** Equal sums with remainders below the divisor have equal quotients. */
  lemma Ordered(p: nat, q: nat, d: nat, s: nat, r: nat)
    requires p * d + s == q * d + r && s < d && r < d
    ensures p == q
  {
    assert (p - q) * d == r - s;
    assert p - q >= 1 ==> (p - q) * d >= d;
    assert q - p >= 1 ==> (q - p) * d >= d;
  }

  lemma DivTwice(n: nat, b: nat)
    requires b > 0
    ensures n / 256 / b == n / (256 * b)
  {
    var m := n / 256;
    var q, r, t := m / b, m % b, n % 256;
    assert m == q * b + r;
    assert q * (256 * b) == 256 * (q * b);
    QuotientIs(n, 256 * b, q, 256 * r + t);
  }

  /** Network byte order: the digit at `k` counts the powers of 256 that it is worth. */
  lemma {:induction false} BigEndianAt(n: nat, width: nat, k: nat)
    requires k < width
    ensures BigEndian(n, width)[k] == n / Pow256(width - 1 - k) % 256
    decreases width
  {
    if k < width - 1 {
      BigEndianAt(n / 256, width - 1, k);
      DivTwice(n, Pow256(width - 2 - k));
    }
  }

  /** The initial byte holds the major type and the number itself, or how many bytes follow
      (section 3 of RFC 8949). */
  lemma HeadsAre(major: nat, n: nat)
    requires major < 8 && n < HEAD_LIMIT
    ensures n < 24 ==> Head(major, n) == [32 * major + n]
    ensures 24 <= n < 256 ==> Head(major, n) == [32 * major + 24, n]
    ensures 256 <= n < 65536 ==> Head(major, n) == [32 * major + 25, n / 256, n % 256]
    ensures 65536 <= n < 4294967296 ==> Head(major, n) == [32 * major + 26] + BigEndian(n, 4)
    ensures 4294967296 <= n ==> Head(major, n) == [32 * major + 27] + BigEndian(n, 8)
  {
    assert BigEndian(n / 256, 1) == BigEndian(n / 256 / 256, 0) + [n / 256 % 256];
    assert BigEndian(n, 1) == BigEndian(n / 256, 0) + [n % 256];
  }

  /** Simple values and floats have the initial bytes of section 3.3 of RFC 8949; the other
      values begin with the head of their major type. */
  lemma FirstBytes(v: Value)
    requires Encodable(v)
    ensures v == Bool(false) ==> Encode(v) == [0xF4]
    ensures v == Bool(true) ==> Encode(v) == [0xF5]
    ensures v == Null ==> Encode(v) == [0xF6]
    ensures v.Float? ==> Encode(v) == [0xFB] + v.bits
    ensures v.Int? ==> Encode(v) == if v.number < 0 then Head(1, -1 - v.number) else Head(0, v.number)
    ensures v.Bytes? ==> Encode(v) == Head(2, |v.bytes|) + v.bytes
    ensures v.Text? ==> Encode(v) == Head(3, |EncodeString(v.text)|) + EncodeString(v.text)
    ensures v.List? ==> Head(4, |v.items|) <= Encode(v)
    ensures v.Map? ==> Head(5, |v.entries|) <= Encode(v)
  {
  }
}
