/** Length-framed canonical CBOR: frames, the byte stream they make, and what a
    reader gets back from it. */
module Transport {
  import opened Options
  import opened Utf8
  import opened Cbor
  import opened CborDecoder
  import opened Streams

  const SCHEMA := "testudo.vsock.frame.v1"

  datatype Frame = Frame(
    sequence: int, runId: string, tokenId: string, nonce: string, kind: string, payload: map<string, Value>)

  /** The checks of `Frame.__post_init__`. */
  predicate Valid(f: Frame)
  {
    f.sequence >= 0 && f.runId != "" && f.tokenId != "" && f.nonce != "" && f.kind != ""
  }

  const KEYS := {"schema", "sequence", "run_id", "token_id", "nonce", "kind", "payload"}

  function ToMapping(f: Frame): (v: Value)
  {
    Map(map[
      "schema" := Text(SCHEMA), "sequence" := Int(f.sequence), "run_id" := Text(f.runId),
      "token_id" := Text(f.tokenId), "nonce" := Text(f.nonce), "kind" := Text(f.kind),
      "payload" := Map(f.payload)])
  }

  function FromMapping(v: Value): (r: Option<Frame>)
    ensures r.Some? ==> Valid(r.value)
  {
    if !v.Map? || v.entries.Keys != KEYS then None
    else
      var m := v.entries;
      if m["schema"] != Text(SCHEMA) || !m["sequence"].Int? || !m["payload"].Map? then None
      else if !m["run_id"].Text? || !m["token_id"].Text? || !m["nonce"].Text? || !m["kind"].Text? then None
      else
        var f := Frame(m["sequence"].number, m["run_id"].text, m["token_id"].text, m["nonce"].text,
                       m["kind"].text, m["payload"].entries);
        if Valid(f) then Some(f) else None
  }

  lemma FromMappingInverts(f: Frame)
    requires Valid(f)
    ensures FromMapping(ToMapping(f)) == Some(f)
  {
    assert ToMapping(f).entries.Keys == KEYS;
  }

  /** A frame that can be written within `max` bytes. */
  predicate Writable(f: Frame, max: nat)
  {
    Valid(f) && Encodable(ToMapping(f)) && |Cbor.Encode(ToMapping(f))| <= max && max < 0x1_0000_0000
  }

  function EncodeFrame(f: Frame, max: nat): (r: Option<seq<byte>>)
  {
    if Writable(f, max) then
      var body := Cbor.Encode(ToMapping(f));
      Some(BigEndian(|body|, 4) + body)
    else None
  }

  function DecodeFrame(body: seq<byte>, max: nat): (r: Option<Frame>)
  {
    if body == [] || |body| > max then None
    else
      match DecodeCbor(body)
      case Failure(_) => None
      case Success(v) => FromMapping(v)
  }

  /** One frame from the front of a stream, and the bytes after it. */
  function ReadFrame(stream: seq<byte>, max: nat): (r: Option<(Frame, seq<byte>)>)
    ensures r.Some? ==> |r.value.1| < |stream|
  {
    if |stream| < 4 then None
    else
      var size := FromBigEndian(stream[..4]);
      if size == 0 || size > max || |stream| < 4 + size then None
      else
        match DecodeFrame(stream[4..4 + size], max)
        case None => None
        case Some(f) => Some((f, stream[4 + size..]))
  }

  lemma ReadInvertsEncode(f: Frame, max: nat, rest: seq<byte>)
    requires Writable(f, max)
    ensures ReadFrame(EncodeFrame(f, max).value + rest, max) == Some((f, rest))
  {
    var body := Cbor.Encode(ToMapping(f));
    var head := BigEndian(|body|, 4);
    var stream := head + body + rest;
    Widths();
    FromBigEndianInverts(|body|, 4);
    assert stream[..4] == head && stream[4..4 + |body|] == body && stream[4 + |body|..] == rest;
    EncodingDecodes(ToMapping(f));
    FromMappingInverts(f);
  }

  /** A mapping is a frame exactly when it has these seven fields and no other, each of its kind
      and none of the texts empty. */
  lemma FrameIsItsMapping(v: Value, f: Frame)
    ensures FromMapping(v) == Some(f) <==>
              && f.sequence >= 0 && f.runId != "" && f.tokenId != "" && f.nonce != "" && f.kind != ""
              && v == Map(map[
                   "schema" := Text("testudo.vsock.frame.v1"), "sequence" := Int(f.sequence),
                   "run_id" := Text(f.runId), "token_id" := Text(f.tokenId), "nonce" := Text(f.nonce),
                   "kind" := Text(f.kind), "payload" := Map(f.payload)])
  {
    if FromMapping(v) == Some(f) {
      FieldsAre(v, f);
    }
    if Valid(f) {
      FromMappingInverts(f);
    }
  }

  lemma FieldsAre(v: Value, f: Frame)
    requires FromMapping(v) == Some(f)
    ensures v == ToMapping(f)
  {
    var m, n := v.entries, ToMapping(f).entries;
    assert n.Keys == KEYS;
    forall k | k in KEYS ensures m[k] == n[k] {
    }
    assert m == n;
  }

  /** A frame is its body after the body's size, in four bytes and network byte order. */
  lemma FrameIsSized(f: Frame, max: nat)
    requires EncodeFrame(f, max).Some?
    ensures Encodable(ToMapping(f))
    ensures var body := Cbor.Encode(ToMapping(f)); EncodeFrame(f, max).value == BigEndian(|body|, 4) + body
  {
  }

  /** Reading takes exactly the frames that can be written, and leaves exactly what follows. */
  lemma ReadsExactlyFrames(stream: seq<byte>, max: nat, f: Frame, rest: seq<byte>)
    requires max < 0x1_0000_0000
    ensures ReadFrame(stream, max) == Some((f, rest)) <==>
              Writable(f, max) && stream == EncodeFrame(f, max).value + rest
  {
    if ReadFrame(stream, max) == Some((f, rest)) {
      WhatWasRead(stream, max, f, rest);
    }
    if Writable(f, max) {
      ReadInvertsEncode(f, max, rest);
    }
  }

  lemma WhatWasRead(stream: seq<byte>, max: nat, f: Frame, rest: seq<byte>)
    requires max < 0x1_0000_0000 && ReadFrame(stream, max) == Some((f, rest))
    ensures Writable(f, max) && stream == EncodeFrame(f, max).value + rest
  {
    var head, body := PartsRead(stream, max, f, rest);
    BodyIsFrame(body, max, f);
    SizeOf(head, body, f, max);
  }

  lemma PartsRead(stream: seq<byte>, max: nat, f: Frame, rest: seq<byte>) returns (head: seq<byte>, body: seq<byte>)
    requires ReadFrame(stream, max) == Some((f, rest))
    ensures stream == head + body + rest && |head| == 4 && FromBigEndian(head) == |body|
    ensures |body| <= max && DecodeFrame(body, max) == Some(f)
  {
    var size := FromBigEndian(stream[..4]);
    head, body := stream[..4], stream[4..4 + size];
    InThree(stream, 4, 4 + size);
  }

  lemma InThree(s: seq<byte>, i: nat, j: nat)
    requires i <= j <= |s|
    ensures s == s[..i] + s[i..j] + s[j..]
  {
  }

  lemma SizeOf(head: seq<byte>, body: seq<byte>, f: Frame, max: nat)
    requires |head| == 4 && FromBigEndian(head) == |body| && Writable(f, max) && Cbor.Encode(ToMapping(f)) == body
    ensures EncodeFrame(f, max) == Some(head + body)
  {
    BigEndianInverts(head);
  }

  lemma BodyIsFrame(body: seq<byte>, max: nat, f: Frame)
    requires DecodeFrame(body, max) == Some(f) && |body| <= max
    ensures Valid(f) && Encodable(ToMapping(f)) && Cbor.Encode(ToMapping(f)) == body
  {
    AcceptsExactlyEncodings(body);
    FieldsAre(DecodeCbor(body).result, f);
  }

  lemma {:induction false} BigEndianInverts(b: seq<byte>)
    ensures BigEndian(FromBigEndian(b), |b|) == b
  {
    if b != [] {
      var n := |b| - 1;
      BigEndianInverts(b[..n]);
      assert b == b[..n] + [b[n]];
      assert FromBigEndian(b) / 256 == FromBigEndian(b[..n]);
    }
  }

  // ----- streams of frames -----

  function FrameReader(max: nat): (read: Reader<Frame>)
    ensures Consumes(read) && read([]) == None
    ensures forall s :: read(s) == ReadFrame(s, max)
  {
    s => ReadFrame(s, max)
  }

  function ToPacket(f: Frame, max: nat): (p: Packet<Frame>)
    requires Writable(f, max)
    ensures p.message == f && EncodeFrame(f, max) == Some(p.bytes)
  {
    Packet(f, EncodeFrame(f, max).value)
  }

  /** A frame cut short is never read as a frame. */
  lemma CutFrameFails(f: Frame, max: nat, cut: nat)
    requires Writable(f, max) && cut < |ToPacket(f, max).bytes|
    ensures ReadFrame(ToPacket(f, max).bytes[..cut], max).None?
  {
    var body := Cbor.Encode(ToMapping(f));
    Widths();
    FromBigEndianInverts(|body|, 4);
    if cut >= 4 {
      assert ToPacket(f, max).bytes[..cut][..4] == BigEndian(|body|, 4);
    }
  }

  lemma FrameDelimits(f: Frame, max: nat)
    requires Writable(f, max)
    ensures Delimits(FrameReader(max), f, ToPacket(f, max).bytes)
  {
    var b := ToPacket(f, max).bytes;
    forall rest ensures FrameReader(max)(b + rest) == Some((f, rest)) {
      ReadInvertsEncode(f, max, rest);
    }
    forall cut | 0 <= cut < |b| ensures FrameReader(max)(b[..cut]).None? {
      CutFrameFails(f, max, cut);
    }
  }

  // ----- sockets that fragment reads and shorten writes -----

  class Socket {
    var incoming: seq<byte>
    var outgoing: seq<byte>

    constructor (incoming: seq<byte>)
      ensures this.incoming == incoming && outgoing == []
    {
      this.incoming := incoming;
      outgoing := [];
    }

    /** Any non-empty prefix of what has arrived, up to `size` bytes; empty once the peer closed. */
    method Recv(size: nat) returns (chunk: seq<byte>)
      requires size > 0
      modifies this`incoming
      ensures old(incoming) == chunk + incoming
      ensures |chunk| <= size && (chunk == [] <==> old(incoming) == [])
    {
      var n: nat :| n <= size && n <= |incoming| && (n == 0 <==> incoming == []);
      chunk := incoming[..n];
      incoming := incoming[n..];
    }

    /** Accepts any prefix of `data`, possibly none of it. */
    method Write(data: seq<byte>) returns (written: nat)
      modifies this`outgoing
      ensures written <= |data| && outgoing == old(outgoing) + data[..written]
    {
      written :| 0 <= written <= |data|;
      outgoing := outgoing + data[..written];
    }
  }

  method ReadExact(sock: Socket, size: nat) returns (r: Option<seq<byte>>)
    modifies sock`incoming
    ensures |old(sock.incoming)| >= size
            ==> r == Some(old(sock.incoming)[..size]) && sock.incoming == old(sock.incoming)[size..]
    ensures |old(sock.incoming)| < size ==> r == None
  {
    var parts: seq<byte> := [];
    var remaining := size;
    ghost var all := sock.incoming;
    while remaining > 0
      invariant 0 <= remaining == size - |parts|
      invariant all == parts + sock.incoming
    {
      var chunk := sock.Recv(remaining);
      if chunk == [] {
        return None;
      }
      parts := parts + chunk;
      remaining := remaining - |chunk|;
    }
    assert all[..size] == parts && all[size..] == sock.incoming;
    r := Some(parts);
  }

  method ReadOne(sock: Socket, max: nat) returns (r: Option<Frame>)
    modifies sock`incoming
    ensures match ReadFrame(old(sock.incoming), max)
            case Some((f, rest)) => r == Some(f) && sock.incoming == rest
            case None => r == None
  {
    var prefix := ReadExact(sock, 4);
    if prefix == None {
      return None;
    }
    var size := FromBigEndian(prefix.value);
    if size == 0 || size > max {
      return None;
    }
    ghost var stream := old(sock.incoming);
    assert |stream| >= 4 + size ==>
             stream[4..][..size] == stream[4..4 + size] && stream[4..][size..] == stream[4 + size..];
    var body := ReadExact(sock, size);
    if body == None {
      return None;
    }
    r := DecodeFrame(body.value, max);
  }

  method ReadUntilError(sock: Socket, max: nat) returns (fs: seq<Frame>)
    modifies sock`incoming
    ensures fs == ReadAll(FrameReader(max), old(sock.incoming))
  {
    fs := [];
    while true
      invariant fs + ReadAll(FrameReader(max), sock.incoming) == ReadAll(FrameReader(max), old(sock.incoming))
      decreases |sock.incoming|
    {
      ghost var stream := sock.incoming;
      var f := ReadOne(sock, max);
      assert FrameReader(max)(stream) == ReadFrame(stream, max);
      if f == None {
        return;
      }
      assert fs + ReadAll(FrameReader(max), stream) == (fs + [f.value]) + ReadAll(FrameReader(max), sock.incoming);
      fs := fs + [f.value];
    }
  }

  /** `sendall` over short writes; it fails only when a write makes no progress. */
  method SendAll(sock: Socket, data: seq<byte>) returns (ok: bool, ghost sent: nat)
    modifies sock`outgoing
    ensures sent <= |data| && sock.outgoing == old(sock.outgoing) + data[..sent]
    ensures ok <==> sent == |data|
  {
    sent := 0;
    var view := data;
    assert data[..0] == [];
    while view != []
      invariant sent <= |data| && view == data[sent..]
      invariant sock.outgoing == old(sock.outgoing) + data[..sent]
      decreases |view|
    {
      var written := sock.Write(view);
      assert data[..sent] + data[sent..][..written] == data[..sent + written];
      if written == 0 {
        return false, sent;
      }
      view := view[written..];
      sent := sent + written;
    }
    ok := true;
  }

  /** Writes the packets until one fails; what is on the wire is a cut of their stream. */
  method WritePackets(sock: Socket, ps: seq<Packet<Frame>>) returns (ok: bool, ghost cut: nat)
    requires sock.outgoing == []
    modifies sock`outgoing
    ensures cut <= |Flatten(ps)| && sock.outgoing == Flatten(ps)[..cut]
    ensures ok ==> cut == |Flatten(ps)|
  {
    var i := 0;
    while i < |ps|
      invariant 0 <= i <= |ps| && sock.outgoing == Flatten(ps[..i])
    {
      ghost var sent;
      ok, sent := SendAll(sock, ps[i].bytes);
      FlattenSplit(ps, i);
      if !ok {
        cut := |Flatten(ps[..i])| + sent;
        return;
      }
      i := i + 1;
    }
    assert ps[..i] == ps;
    ok, cut := true, |Flatten(ps)|;
  }

  /** End to end: whatever the socket does to reads and writes, the reader gets a
      prefix of the frames, and all of them when no write failed. */
  method Exchange(fs: seq<Frame>, max: nat) returns (ok: bool, received: seq<Frame>)
    requires forall f :: f in fs ==> Writable(f, max)
    ensures received <= fs && (ok ==> received == fs)
  {
    var ps := seq(|fs|, i requires 0 <= i < |fs| => ToPacket(fs[i], max));
    forall i | 0 <= i < |ps| ensures Delimits(FrameReader(max), ps[i].message, ps[i].bytes) {
      FrameDelimits(fs[i], max);
    }
    assert Messages(ps) == fs;
    var writer := new Socket([]);
    ghost var cut;
    ok, cut := WritePackets(writer, ps);
    var reader := new Socket(writer.outgoing);
    received := ReadUntilError(reader, max);
    ReadAllOfCut(FrameReader(max), ps, cut);
    WholeOfAll(ps);
  }
}
