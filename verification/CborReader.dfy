/** The decoder as the guest runs it: an object that advances an offset into the
    body.  Each method is proved against the parsing function it carries out. */
module CborReader {
  import opened Utf8
  import opened Cbor
  import opened CborDecoder

  class Decoder {
    const body: seq<byte>
    var offset: nat

    constructor (body: seq<byte>)
      ensures this.body == body && offset == 0
    {
      this.body := body;
      offset := 0;
    }

    ghost predicate Valid() reads this { offset <= |body| }

    ghost function Rest(): (b: seq<byte>)
      requires Valid()
      reads this
    {
      body[offset..]
    }

    method TakeBytes(size: nat) returns (r: Result<seq<byte>>)
      requires Valid()
      modifies this
      ensures Valid() && offset >= old(offset)
      ensures match Take(old(Rest()), size)
              case Ok(v, rest) => r == Success(v) && Rest() == rest
              case Err(e) => r == Failure(e)
    {
      var end := offset + size;
      if end > |body| {
        return Failure(Truncated);
      }
      assert Rest()[..size] == body[offset..end] && Rest()[size..] == body[end..];
      r := Success(body[offset..end]);
      offset := end;
    }

    method TakeWidth(width: nat) returns (r: Result<nat>)
      requires Valid()
      modifies this
      ensures Valid() && offset >= old(offset)
      ensures match TakeUint(old(Rest()), width)
              case Ok(n, rest) => r == Success(n) && Rest() == rest
              case Err(e) => r == Failure(e)
    {
      var digits := TakeBytes(width);
      r := match digits case Success(d) => Success(FromBigEndian(d)) case Failure(e) => Failure(e);
    }

    method UintValue(additional: nat) returns (r: Result<nat>)
      requires Valid()
      modifies this
      ensures Valid() && offset >= old(offset)
      ensures match Uint(additional, old(Rest()))
              case Ok(n, rest) => r == Success(n) && Rest() == rest
              case Err(e) => r == Failure(e)
    {
      if additional < 24 {
        r := Success(additional);
      } else if additional == 24 {
        r := TakeWidth(1);
      } else if additional == 25 {
        r := TakeWidth(2);
      } else if additional == 26 {
        r := TakeWidth(4);
      } else if additional == 27 {
        r := TakeWidth(8);
      } else {
        r := Failure(InvalidLength);
      }
    }

    method ReadValue() returns (r: Result<Value>)
      requires Valid()
      modifies this
      ensures Valid() && offset >= old(offset) && (r.Success? ==> offset > old(offset))
      ensures match ParseValue(old(Rest()))
              case Ok(v, rest) => r == Success(v) && Rest() == rest
              case Err(e) => r == Failure(e)
      decreases |body| - offset, 0
    {
      var initial := TakeBytes(1);
      if initial.Failure? {
        return Failure(initial.error);
      }
      var first := initial.result[0];
      if first / 32 == 7 {
        r := ReadSimple(first % 32);
      } else if first / 32 == 6 {
        r := Failure(Unsupported);
      } else {
        var n := UintValue(first % 32);
        if n.Failure? {
          return Failure(n.error);
        }
        r := ReadBody(first / 32, n.result);
      }
    }

    method ReadSimple(additional: nat) returns (r: Result<Value>)
      requires Valid()
      modifies this
      ensures Valid() && offset >= old(offset)
      ensures match ParseSimple(additional, old(Rest()))
              case Ok(v, rest) => r == Success(v) && Rest() == rest
              case Err(e) => r == Failure(e)
    {
      if additional == 20 {
        r := Success(Bool(false));
      } else if additional == 21 {
        r := Success(Bool(true));
      } else if additional == 22 {
        r := Success(Null);
      } else if additional == 27 {
        var bits := TakeBytes(8);
        r := match bits case Success(d) => Success(Float(d)) case Failure(e) => Failure(e);
      } else {
        r := Failure(Unsupported);
      }
    }

    method ReadBody(major: nat, n: nat) returns (r: Result<Value>)
      requires Valid() && major < 6
      modifies this
      ensures Valid() && offset >= old(offset)
      ensures match ParseBody(major, n, old(Rest()))
              case Ok(v, rest) => r == Success(v) && Rest() == rest
              case Err(e) => r == Failure(e)
      decreases |body| - offset, 3
    {
      if major == 0 {
        r := Success(Int(n));
      } else if major == 1 {
        r := Success(Int(-1 - n));
      } else if major == 2 {
        var bytes := TakeBytes(n);
        r := match bytes case Success(d) => Success(Bytes(d)) case Failure(e) => Failure(e);
      } else if major == 3 {
        var bytes := TakeBytes(n);
        if bytes.Failure? {
          return Failure(bytes.error);
        }
        var text := DecodeString(bytes.result);
        r := match text case Some(s) => Success(Text(s)) case None => Failure(InvalidUtf8);
      } else if major == 4 {
        var items := ReadItems(n);
        r := match items case Success(d) => Success(List(d)) case Failure(e) => Failure(e);
      } else {
        var entries := ReadEntries(n);
        r := match entries case Success(d) => Success(Map(d)) case Failure(e) => Failure(e);
      }
    }

    method ReadItems(n: nat) returns (r: Result<seq<Value>>)
      requires Valid()
      modifies this
      ensures Valid() && offset >= old(offset)
      ensures match ParseItems(old(Rest()), n)
              case Ok(v, rest) => r == Success(v) && Rest() == rest
              case Err(e) => r == Failure(e)
      decreases |body| - offset, 1
    {
      var items: seq<Value> := [];
      ghost var start := Rest();
      assert ParseItems(start, n).Ok? ==> items + ParseItems(start, n).value == ParseItems(start, n).value;
      while |items| < n
        invariant Valid() && offset >= old(offset) && |items| <= n
        invariant items != [] ==> offset > old(offset)
        invariant match ParseItems(Rest(), n - |items|)
                  case Ok(vs, rest) => ParseItems(start, n) == Ok(items + vs, rest)
                  case Err(e) => ParseItems(start, n) == Err(e)
        decreases n - |items|
      {
        ghost var before := Rest();
        var item := ReadValue();
        if item.Failure? {
          return Failure(item.error);
        }
        assert ParseValue(before) == Ok(item.result, Rest());
        ghost var tail := ParseItems(Rest(), n - |items| - 1);
        if tail.Ok? {
          Regrouped(items, item.result, tail.value);
        }
        items := items + [item.result];
      }
      assert items + [] == items;
      r := Success(items);
    }

    method ReadEntry(entries: map<string, Value>) returns (r: Result<(string, Value)>)
      requires Valid()
      modifies this
      ensures Valid() && offset >= old(offset) && (r.Success? ==> offset > old(offset))
      ensures match ParseEntry(old(Rest()), entries)
              case Ok(v, rest) => r == Success(v) && Rest() == rest
              case Err(e) => r == Failure(e)
      decreases |body| - offset, 1
    {
      var key := ReadValue();
      if key.Failure? {
        return Failure(key.error);
      }
      if !key.result.Text? {
        return Failure(NonTextKey);
      }
      if key.result.text in entries {
        return Failure(DuplicateKey);
      }
      var value := ReadValue();
      r := match value case Success(v) => Success((key.result.text, v)) case Failure(e) => Failure(e);
    }

    method ReadEntries(n: nat) returns (r: Result<map<string, Value>>)
      requires Valid()
      modifies this
      ensures Valid() && offset >= old(offset)
      ensures match ParseEntries(old(Rest()), n, map[])
              case Ok(v, rest) => r == Success(v) && Rest() == rest
              case Err(e) => r == Failure(e)
      decreases |body| - offset, 2
    {
      var entries: map<string, Value> := map[];
      var i := 0;
      while i < n
        invariant Valid() && offset >= old(offset) && i <= n
        invariant i > 0 ==> offset > old(offset)
        invariant ParseEntries(old(Rest()), n, map[]) == ParseEntries(Rest(), n - i, entries)
      {
        var entry := ReadEntry(entries);
        if entry.Failure? {
          return Failure(entry.error);
        }
        entries := entries[entry.result.0 := entry.result.1];
        i := i + 1;
      }
      r := Success(entries);
    }
  }

  /** `decode_cbor`, on the decoder object. */
  method Decode(body: seq<byte>) returns (r: Result<Value>)
    ensures r == DecodeCbor(body)
  {
    var decoder := new Decoder(body);
    var value := decoder.ReadValue();
    assert body[0..] == body;
    if value.Failure? {
      return Failure(value.error);
    }
    ParsedIsEncodable(body);
    if decoder.offset != |body| {
      return Failure(TrailingBytes);
    }
    if Cbor.Encode(value.result) != body {
      return Failure(NotCanonical);
    }
    r := value;
  }

  lemma Regrouped(items: seq<Value>, v: Value, rest: seq<Value>)
    ensures items + ([v] + rest) == items + [v] + rest
  {
  }
}
