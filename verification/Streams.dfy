/** Concatenations of self-delimiting messages, and what a reader recovers from
    any cut of one. */
module Streams {
  import opened Options
  import opened Utf8

  /** Reads one message from the front of a stream. */
  type Reader<!M> = seq<byte> -> Option<(M, seq<byte>)>

  ghost predicate Consumes<M>(read: Reader<M>)
  {
    forall s :: read(s).Some? ==> |read(s).value.1| < |s|
  }

  /** `b` reads back as `m` whatever follows it, and no strict prefix of it reads as anything. */
  ghost predicate Delimits<M>(read: Reader<M>, m: M, b: seq<byte>)
  {
    && (forall rest :: read(b + rest) == Some((m, rest)))
    && (forall cut | 0 <= cut < |b| :: read(b[..cut]).None?)
  }

  datatype Packet<M> = Packet(message: M, bytes: seq<byte>)

  ghost predicate AllDelimit<M>(read: Reader<M>, ps: seq<Packet<M>>)
  {
    forall i | 0 <= i < |ps| :: Delimits(read, ps[i].message, ps[i].bytes)
  }

  function Flatten<M>(ps: seq<Packet<M>>): (b: seq<byte>)
  {
    if ps == [] then [] else ps[0].bytes + Flatten(ps[1..])
  }

  function Messages<M>(ps: seq<Packet<M>>): (ms: seq<M>)
    ensures |ms| == |ps|
  {
    seq(|ps|, i requires 0 <= i < |ps| => ps[i].message)
  }

  /** The messages a reader returns before its first error.  A closed socket is an
      error, so every reader ends in one. */
  ghost function ReadAll<M>(read: Reader<M>, stream: seq<byte>): (ms: seq<M>)
    requires Consumes(read)
    decreases |stream|
  {
    match read(stream)
    case None => []
    case Some((m, rest)) => [m] + ReadAll(read, rest)
  }

  /** How many packets lie entirely within the first `cut` bytes. */
  function Whole<M>(ps: seq<Packet<M>>, cut: nat): (n: nat)
    ensures n <= |ps|
  {
    if ps == [] || cut < |ps[0].bytes| then 0 else 1 + Whole(ps[1..], cut - |ps[0].bytes|)
  }

  /** Reading a stream cut after `cut` bytes returns exactly the messages that arrived whole. */
  lemma {:induction false} ReadAllOfCut<M>(read: Reader<M>, ps: seq<Packet<M>>, cut: nat)
    requires Consumes(read) && AllDelimit(read, ps) && read([]).None? && cut <= |Flatten(ps)|
    ensures ReadAll(read, Flatten(ps)[..cut]) == Messages(ps)[..Whole(ps, cut)]
  {
    if ps != [] {
      var b, tail := ps[0].bytes, Flatten(ps[1..]);
      assert Delimits(read, ps[0].message, b);
      if cut < |b| {
        assert (b + tail)[..cut] == b[..cut];
      } else {
        assert (b + tail)[..cut] == b + tail[..cut - |b|];
        ReadAllOfCut(read, ps[1..], cut - |b|);
        assert Messages(ps[1..]) == Messages(ps)[1..];
      }
    }
  }

  lemma {:induction false} WholeOfAll<M>(ps: seq<Packet<M>>)
    ensures Whole(ps, |Flatten(ps)|) == |ps|
  {
    if ps != [] {
      WholeOfAll(ps[1..]);
    }
  }

  /** Reassembly: the uncut stream gives back every message. */
  lemma {:induction false} Reassembly<M>(read: Reader<M>, ps: seq<Packet<M>>)
    requires Consumes(read) && AllDelimit(read, ps) && read([]).None?
    ensures ReadAll(read, Flatten(ps)) == Messages(ps)
  {
    var b := Flatten(ps);
    ReadAllOfCut(read, ps, |b|);
    WholeOfAll(ps);
    assert b[..|b|] == b && Messages(ps)[..|ps|] == Messages(ps);
  }

  lemma {:induction false} FlattenSplit<M>(ps: seq<Packet<M>>, i: nat)
    requires i < |ps|
    ensures Flatten(ps[..i + 1]) == Flatten(ps[..i]) + ps[i].bytes
    ensures Flatten(ps[..i + 1]) <= Flatten(ps)
  {
    if i == 0 {
      assert ps[..1][1..] == [] && ps[..0] == [];
    } else {
      FlattenSplit(ps[1..], i - 1);
      assert ps[..i + 1][1..] == ps[1..][..i] && ps[..i][1..] == ps[1..][..i - 1];
    }
  }
}
