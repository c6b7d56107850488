/** One codec of event records, to show that the assumptions on codecs can be met:
    numbers in unary, texts with their length first, fields in order. */
module EventCodec {
  import opened Options
  import opened Utf8
  import opened EventLog

  const MORE: byte := 48
  const DONE: byte := 49

  function Unary(n: nat): (b: seq<byte>)
    ensures b != [] && NEWLINE !in b
  {
    if n == 0 then [DONE] else [MORE] + Unary(n - 1)
  }

  function Chars(s: string): (b: seq<byte>)
    ensures NEWLINE !in b
  {
    if s == "" then [] else Unary(s[0] as int) + Chars(s[1..])
  }

  function Word(s: string): (b: seq<byte>)
    ensures NEWLINE !in b
  {
    Unary(|s|) + Chars(s)
  }

  function NameIndex(name: EventName): (n: nat)
  {
    match name
    case Admitted => 0
    case Started => 1
    case CancelRequested => 2
    case Succeeded => 3
    case Failed => 4
    case Cancelled => 5
    case Refused => 6
  }

  function Render(e: Event): (b: seq<byte>)
    ensures b != [] && NEWLINE !in b
  {
    Word(e.assignmentId) + (Word(e.runId) + (Unary(e.sequence) + (Unary(NameIndex(e.name)) + Word(e.note))))
  }

  /** Codes that begin alike are the same code, followed by the same bytes. */
  lemma {:induction false} UnaryDelimits(m: nat, n: nat, r: seq<byte>, s: seq<byte>)
    requires Unary(m) + r == Unary(n) + s
    ensures m == n && r == s
  {
    var b, c := Unary(m) + r, Unary(n) + s;
    assert b[0] == (if m == 0 then DONE else MORE) && c[0] == (if n == 0 then DONE else MORE);
    if m == 0 {
      assert b[1..] == r && c[1..] == s;
    } else {
      assert b[1..] == Unary(m - 1) + r && c[1..] == Unary(n - 1) + s;
      UnaryDelimits(m - 1, n - 1, r, s);
    }
  }

  lemma {:induction false} CharsDelimit(x: string, y: string, r: seq<byte>, s: seq<byte>)
    requires |x| == |y| && Chars(x) + r == Chars(y) + s
    ensures x == y && r == s
    decreases |x|
  {
    if x == "" {
      assert Chars(x) + r == r && Chars(y) + s == s;
    } else {
      var more, rest := Chars(x[1..]) + r, Chars(y[1..]) + s;
      assert Chars(x) + r == Unary(x[0] as int) + more && Chars(y) + s == Unary(y[0] as int) + rest;
      UnaryDelimits(x[0] as int, y[0] as int, more, rest);
      CharsDelimit(x[1..], y[1..], r, s);
      assert x == [x[0]] + x[1..] && y == [y[0]] + y[1..];
    }
  }

  lemma WordDelimits(x: string, y: string, r: seq<byte>, s: seq<byte>)
    requires Word(x) + r == Word(y) + s
    ensures x == y && r == s
  {
    assert Word(x) + r == Unary(|x|) + (Chars(x) + r) && Word(y) + s == Unary(|y|) + (Chars(y) + s);
    UnaryDelimits(|x|, |y|, Chars(x) + r, Chars(y) + s);
    CharsDelimit(x, y, r, s);
  }

  lemma PeelWord(x: string, y: string, p: seq<byte>, q: seq<byte>, r: seq<byte>)
    requires Word(x) + p + r == Word(y) + q
    ensures x == y && p + r == q
  {
    assert Word(x) + p + r == Word(x) + (p + r);
    WordDelimits(x, y, p + r, q);
  }

  lemma PeelUnary(m: nat, n: nat, p: seq<byte>, q: seq<byte>, r: seq<byte>)
    requires Unary(m) + p + r == Unary(n) + q
    ensures m == n && p + r == q
  {
    assert Unary(m) + p + r == Unary(m) + (p + r);
    UnaryDelimits(m, n, p + r, q);
  }

  /** No record is the beginning of another. */
  lemma RenderDelimits(e: Event, f: Event, r: seq<byte>)
    requires Render(e) + r == Render(f)
    ensures e == f && r == []
  {
    var e4, f4 := Unary(NameIndex(e.name)) + Word(e.note), Unary(NameIndex(f.name)) + Word(f.note);
    var e3, f3 := Unary(e.sequence) + e4, Unary(f.sequence) + f4;
    PeelWord(e.assignmentId, f.assignmentId, Word(e.runId) + e3, Word(f.runId) + f3, r);
    PeelWord(e.runId, f.runId, e3, f3, r);
    PeelUnary(e.sequence, f.sequence, e4, f4, r);
    PeelUnary(NameIndex(e.name), NameIndex(f.name), Word(e.note), Word(f.note), r);
    assert Word(f.note) + [] == Word(f.note);
    WordDelimits(e.note, f.note, r, []);
  }

  ghost function Parse(b: seq<byte>): (r: Option<Event>)
  {
    if exists e :: Render(e) == b then var e :| Render(e) == b; Some(e) else None
  }

  lemma ParseInvertsRender(e: Event)
    ensures Parse(Render(e)) == Some(e)
  {
    var f := Parse(Render(e)).value;
    assert Render(f) + [] == Render(e);
    RenderDelimits(f, e, []);
  }

  lemma PrefixIsNoRecord(e: Event, n: nat)
    requires n < |Render(e)|
    ensures Parse(Render(e)[..n]) == None
  {
    if Parse(Render(e)[..n]).Some? {
      var f := Parse(Render(e)[..n]).value;
      assert Render(f) + Render(e)[n..] == Render(e);
      RenderDelimits(f, e, Render(e)[n..]);
    }
  }

  /** There is a codec as the recovery results assume. */
  lemma ALawfulCodecExists() returns (c: Codec)
    ensures Lawful(c)
  {
    c := Codec(Render, Parse);
    forall e ensures RecordOk(c, e) {
      ParseInvertsRender(e);
      forall n | 0 <= n < |c.render(e)| ensures c.parse(c.render(e)[..n]) == None {
        PrefixIsNoRecord(e, n);
      }
    }
  }
}
