/** The append-only event log of one assignment, at the level of bytes: what a torn
    append leaves behind and what recovery makes of it. */
module EventLog {
  import opened Options
  import opened Utf8

  datatype EventName = Admitted | Started | CancelRequested | Succeeded | Failed | Cancelled | Refused

  /** `note` stands for the timestamp and details. */
  datatype Event = Event(assignmentId: string, runId: string, sequence: nat, name: EventName, note: string)

  const NEWLINE: byte := 10

  /** Printing and parsing of event records as JSON. */
  datatype Codec = Codec(render: Event -> seq<byte>, parse: seq<byte> -> Option<Event>)

  /** The record parses back, prints on one line, and no strict prefix of it is a record. */
  ghost predicate RecordOk(c: Codec, e: Event)
  {
    && c.render(e) != []
    && NEWLINE !in c.render(e)
    && c.parse(c.render(e)) == Some(e)
    && (forall n | 0 <= n < |c.render(e)| :: c.parse(c.render(e)[..n]) == None)
  }

  ghost predicate Lawful(c: Codec) { forall e :: RecordOk(c, e) }

  function Line(c: Codec, e: Event): (b: seq<byte>)
  {
    c.render(e) + [NEWLINE]
  }

  function Lines(c: Codec, events: seq<Event>): (b: seq<byte>)
  {
    if events == [] then [] else Lines(c, events[..|events| - 1]) + Line(c, events[|events| - 1])
  }

  predicate Belongs(e: Event, id: string, sequence: nat)
  {
    e.assignmentId == id && e.runId == id && e.sequence == sequence
  }

  /** The log of `id`: numbered 0 .. n-1 without gaps. */
  predicate Contiguous(events: seq<Event>, id: string)
  {
    forall i | 0 <= i < |events| :: Belongs(events[i], id, i)
  }

  // ----- splitting into lines -----

  /** The newline-terminated lines of `raw`, and the bytes after the last newline. */
  datatype Split = Split(lines: seq<seq<byte>>, trailing: seq<byte>)

  function SplitLines(raw: seq<byte>): (s: Split)
  {
    if raw == [] then Split([], [])
    else
      var n := |raw| - 1;
      var s := SplitLines(raw[..n]);
      if raw[n] == NEWLINE then Split(s.lines + [s.trailing], []) else Split(s.lines, s.trailing + [raw[n]])
  }

  /** Bytes without a newline extend the trailing chunk. */
  lemma {:induction false} SplitAppend(raw: seq<byte>, p: seq<byte>)
    requires NEWLINE !in p
    ensures SplitLines(raw + p) == Split(SplitLines(raw).lines, SplitLines(raw).trailing + p)
  {
    if p == [] {
      assert raw + p == raw && SplitLines(raw).trailing + p == SplitLines(raw).trailing;
    } else {
      var n := |p| - 1;
      SplitAppend(raw, p[..n]);
      assert (raw + p)[..|raw + p| - 1] == raw + p[..n] && (raw + p)[|raw + p| - 1] == p[n];
      assert SplitLines(raw).trailing + p[..n] + [p[n]] == SplitLines(raw).trailing + p;
    }
  }

  ghost function Printed(c: Codec, events: seq<Event>): (lines: seq<seq<byte>>)
    ensures |lines| == |events|
  {
    seq(|events|, i requires 0 <= i < |events| => c.render(events[i]))
  }

  lemma {:induction false} SplitOneLine(c: Codec, raw: seq<byte>, e: Event)
    requires Lawful(c) && SplitLines(raw).trailing == []
    ensures SplitLines(raw + Line(c, e)) == Split(SplitLines(raw).lines + [c.render(e)], [])
  {
    assert RecordOk(c, e);
    SplitAppend(raw, c.render(e));
    var all := raw + Line(c, e);
    assert all[..|all| - 1] == raw + c.render(e) && all[|all| - 1] == NEWLINE;
    assert [] + c.render(e) == c.render(e);
  }

  lemma {:induction false} SplitOfLines(c: Codec, events: seq<Event>)
    requires Lawful(c)
    ensures SplitLines(Lines(c, events)) == Split(Printed(c, events), [])
  {
    if events != [] {
      var n := |events| - 1;
      SplitOfLines(c, events[..n]);
      SplitOneLine(c, Lines(c, events[..n]), events[n]);
      assert Printed(c, events) == Printed(c, events[..n]) + [c.render(events[n])];
    }
  }

  // ----- reading a log back -----

  /** The records of complete lines; every one must parse and carry the next number. */
  function ParseLines(c: Codec, lines: seq<seq<byte>>, id: string): (r: Option<seq<Event>>)
    ensures r.Some? ==> |r.value| == |lines| && Contiguous(r.value, id)
  {
    if lines == [] then Some([])
    else
      var n := |lines| - 1;
      match ParseLines(c, lines[..n], id)
      case None => None
      case Some(events) =>
        match c.parse(lines[n])
        case None => None
        case Some(e) => if Belongs(e, id, n) then Some(events + [e]) else None
  }

  /** The recovered events and the file contents recovery leaves. */
  datatype Recovered = Recovered(events: seq<Event>, file: seq<byte>)

  /** `_read_durable_events`; `None` is interior corruption. */
  function ReadLog(c: Codec, raw: seq<byte>, id: string): (r: Option<Recovered>)
    ensures r.Some? ==> Contiguous(r.value.events, id)
  {
    var s := SplitLines(raw);
    match ParseLines(c, s.lines, id)
    case None => None
    case Some(events) =>
      if s.trailing == [] then Some(Recovered(events, raw))
      else
        match c.parse(s.trailing)
        case None => Some(Recovered(events, Lines(c, events)))
        case Some(e) =>
          if Belongs(e, id, |events|) then Some(Recovered(events + [e], Lines(c, events + [e]))) else None
  }

  lemma {:induction false} ParsePrinted(c: Codec, events: seq<Event>, id: string)
    requires Lawful(c) && Contiguous(events, id)
    ensures ParseLines(c, Printed(c, events), id) == Some(events)
  {
    if events != [] {
      var n := |events| - 1;
      ParsePrinted(c, events[..n], id);
      assert RecordOk(c, events[n]);
      assert Printed(c, events)[..n] == Printed(c, events[..n]);
      assert events[..n] + [events[n]] == events;
    }
  }

  /** Recovery is idempotent: a complete log reads back unchanged. */
  lemma {:induction false} CompleteLogRecovers(c: Codec, events: seq<Event>, id: string)
    requires Lawful(c) && Contiguous(events, id)
    ensures ReadLog(c, Lines(c, events), id) == Some(Recovered(events, Lines(c, events)))
  {
    SplitOfLines(c, events);
    ParsePrinted(c, events, id);
  }

  /** Bytes after the last newline are kept only if they are a whole record. */
  lemma {:induction false} TailRecovers(c: Codec, events: seq<Event>, p: seq<byte>, id: string)
    requires Lawful(c) && Contiguous(events, id) && NEWLINE !in p && p != []
    ensures var r := ReadLog(c, Lines(c, events) + p, id);
            match c.parse(p)
            case None => r == Some(Recovered(events, Lines(c, events)))
            case Some(e) => Belongs(e, id, |events|) ==> r == Some(Recovered(events + [e], Lines(c, events + [e])))
  {
    SplitOfLines(c, events);
    ParsePrinted(c, events, id);
    SplitAppend(Lines(c, events), p);
    assert [] + p == p;
  }

  lemma {:induction false} LinesSnoc(c: Codec, events: seq<Event>, e: Event)
    ensures Lines(c, events + [e]) == Lines(c, events) + Line(c, e)
  {
    assert (events + [e])[..|events|] == events;
  }

  /** A log whose last append was cut after `n` of the record's bytes recovers to
      exactly the earlier events, or those and the record when all of its bytes
      were written; the file is then the compact log of what was recovered. */
  lemma {:induction false} TornAppendRecovers(c: Codec, events: seq<Event>, e: Event, n: nat, id: string)
    requires Lawful(c) && Contiguous(events, id) && Belongs(e, id, |events|) && n <= |Line(c, e)|
    ensures var kept := if n < |c.render(e)| then events else events + [e];
            ReadLog(c, Lines(c, events) + Line(c, e)[..n], id) == Some(Recovered(kept, Lines(c, kept)))
  {
    assert RecordOk(c, e);
    var raw, line := Lines(c, events), Line(c, e);
    if n == |line| {
      assert line[..n] == line;
      LinesSnoc(c, events, e);
      CompleteLogRecovers(c, events + [e], id);
    } else if n == 0 {
      assert raw + line[..0] == raw;
      CompleteLogRecovers(c, events, id);
    } else {
      var p := c.render(e)[..n];
      assert line[..n] == p;
      assert n == |c.render(e)| ==> p == c.render(e);
      TailRecovers(c, events, p, id);
    }
  }

  /** A rewritten log is the compact log of what was recovered. */
  lemma RewrittenLog(c: Codec, raw: seq<byte>, id: string, r: Recovered)
    requires ReadLog(c, raw, id) == Some(r) && r.file != raw
    ensures r.file == Lines(c, r.events) && Contiguous(r.events, id)
  {
  }

  // ----- as the service runs it -----

  method ParseCompleteLines(c: Codec, lines: seq<seq<byte>>, id: string) returns (r: Option<Recovered>)
    ensures match ParseLines(c, lines, id)
            case None => r == None
            case Some(events) => r == Some(Recovered(events, Lines(c, events)))
  {
    var events: seq<Event> := [];
    var complete: seq<byte> := [];
    var k := 0;
    while k < |lines|
      invariant 0 <= k <= |lines| && ParseLines(c, lines[..k], id) == Some(events)
      invariant complete == Lines(c, events)
    {
      assert lines[..k + 1][..k] == lines[..k];
      var record := c.parse(lines[k]);
      if record == None || !Belongs(record.value, id, |events|) {
        BadLineIsFatal(c, lines, k + 1, id);
        return None;
      }
      assert (events + [record.value])[..|events|] == events;
      events := events + [record.value];
      complete := complete + Line(c, record.value);
      k := k + 1;
    }
    assert lines[..k] == lines;
    r := Some(Recovered(events, complete));
  }

  method ReadDurableEvents(c: Codec, raw: seq<byte>, id: string) returns (r: Option<Recovered>)
    ensures r == ReadLog(c, raw, id)
  {
    var s := SplitLines(raw);
    r := ParseCompleteLines(c, s.lines, id);
    if r == None {
      return;
    }
    if s.trailing == [] {
      return Some(Recovered(r.value.events, raw));
    }
    var tail := c.parse(s.trailing);
    if tail == None {
      return;
    }
    var events := r.value.events;
    if !Belongs(tail.value, id, |events|) {
      return None;
    }
    assert (events + [tail.value])[..|events|] == events;
    r := Some(Recovered(events + [tail.value], r.value.file + Line(c, tail.value)));
  }

  lemma {:induction false} BadLineIsFatal(c: Codec, lines: seq<seq<byte>>, k: nat, id: string)
    requires k <= |lines| && ParseLines(c, lines[..k], id) == None
    ensures ParseLines(c, lines, id) == None
    decreases |lines|
  {
    if k == |lines| {
      assert lines[..k] == lines;
    } else {
      var n := |lines| - 1;
      assert lines[..n][..k] == lines[..k];
      BadLineIsFatal(c, lines[..n], k, id);
    }
  }

  // ----- what a reading means -----

  function Terminated(lines: seq<seq<byte>>): (raw: seq<byte>)
  {
    if lines == [] then [] else Terminated(lines[..|lines| - 1]) + lines[|lines| - 1] + [NEWLINE]
  }

  predicate NoNewlines(lines: seq<seq<byte>>) { forall i | 0 <= i < |lines| :: NEWLINE !in lines[i] }

  lemma {:induction false} SplitLinesMeans(raw: seq<byte>)
    ensures var s := SplitLines(raw);
            raw == Terminated(s.lines) + s.trailing && NoNewlines(s.lines) && NEWLINE !in s.trailing
  {
    if raw != [] {
      var n := |raw| - 1;
      SplitLinesMeans(raw[..n]);
      var s := SplitLines(raw[..n]);
      assert raw == raw[..n] + [raw[n]];
      if raw[n] == NEWLINE {
        TerminatedMore(s.lines, s.trailing);
      } else {
        assert Terminated(s.lines) + (s.trailing + [raw[n]]) == Terminated(s.lines) + s.trailing + [raw[n]];
      }
    }
  }

  lemma TerminatedMore(lines: seq<seq<byte>>, line: seq<byte>)
    ensures Terminated(lines + [line]) + [] == Terminated(lines) + line + [NEWLINE]
  {
    assert (lines + [line])[..|lines|] == lines;
  }

  lemma {:induction false} OnlySplitLines(lines: seq<seq<byte>>, tail: seq<byte>)
    requires NoNewlines(lines) && NEWLINE !in tail
    ensures SplitLines(Terminated(lines) + tail) == Split(lines, tail)
  {
    if lines == [] {
      assert Terminated(lines) + tail == [] + tail;
      SplitAppend([], tail);
      assert [] + tail == tail;
    } else {
      var n := |lines| - 1;
      OnlySplitLines(lines[..n], lines[n]);
      var raw := Terminated(lines);
      assert raw[..|raw| - 1] == Terminated(lines[..n]) + lines[n] && raw[|raw| - 1] == NEWLINE;
      assert lines[..n] + [lines[n]] == lines;
      SplitAppend(raw, tail);
      assert [] + tail == tail;
    }
  }

  /** The lines are records of this assignment, numbered from zero. */
  ghost predicate AreRecords(c: Codec, lines: seq<seq<byte>>, events: seq<Event>, id: string)
  {
    && |lines| == |events|
    && forall i | 0 <= i < |lines| ::
         && c.parse(lines[i]) == Some(events[i])
         && events[i].assignmentId == id && events[i].runId == id && events[i].sequence == i
  }

  lemma {:induction false} ParseLinesMeans(c: Codec, lines: seq<seq<byte>>, events: seq<Event>, id: string)
    ensures ParseLines(c, lines, id) == Some(events) <==> AreRecords(c, lines, events, id)
  {
    if lines != [] && events != [] {
      var n, m := |lines| - 1, |events| - 1;
      ParseLinesMeans(c, lines[..n], events[..m], id);
      assert events == events[..m] + [events[m]];
    }
  }

  /** A log is complete lines and a tail without a newline. Its lines are records, all of them;
      the tail is nothing, or torn off and dropped, or one more record without its newline. */
  ghost predicate Reads(c: Codec, raw: seq<byte>, id: string, events: seq<Event>, file: seq<byte>)
  {
    exists lines, tail ::
      && raw == Terminated(lines) + tail && NoNewlines(lines) && NEWLINE !in tail
      && if tail == [] then AreRecords(c, lines, events, id) && file == raw
         else if c.parse(tail).None? then AreRecords(c, lines, events, id) && file == Lines(c, events)
         else AreRecords(c, lines + [tail], events, id) && file == Lines(c, events)
  }

  /** Exactly such a log is read, as exactly these events. */
  lemma ReadsExactly(c: Codec, raw: seq<byte>, id: string, events: seq<Event>, file: seq<byte>)
    ensures ReadLog(c, raw, id) == Some(Recovered(events, file)) <==> Reads(c, raw, id, events, file)
  {
    var s := SplitLines(raw);
    SplitLinesMeans(raw);
    forall lines, tail | raw == Terminated(lines) + tail && NoNewlines(lines) && NEWLINE !in tail
      ensures lines == s.lines && tail == s.trailing
    {
      OnlySplitLines(lines, tail);
    }
    ParseLinesMeans(c, s.lines, events, id);
    if s.trailing != [] && c.parse(s.trailing).Some? {
      ParseLinesMeans(c, s.lines + [s.trailing], events, id);
      assert (s.lines + [s.trailing])[..|s.lines|] == s.lines;
    }
  }
}
