/** One assignment run: the state the service holds for it, the files it keeps, and
    the lock-held regions that change both.  A region changes memory at once and
    the files one write at a time, so a crash can fall between any two writes. */
module RunJournal {
  import opened Options
  import opened Utf8
  import opened EventLog

  datatype Request = Request(assignmentId: string, envelopeId: string, envelopeSha: string, backend: string)

  datatype Receipt = Receipt(
    assignmentId: string, envelopeId: string, envelopeSha: string, runId: string, backend: string,
    status: EventName, eventsDigest: string, note: string)

  datatype Tombstone = Tombstone(assignmentId: string, envelopeId: string)

  datatype FileName =
    | RequestFile | EventsFile | ReceiptFile | TerminalFile | WorkflowFile | QuarantineFile | TombstoneFile
    | Tmp(of: FileName)

  /** File contents as their readers see them; `Blob` parses as nothing. */
  datatype Content =
    | RequestDoc(request: Request)
    | LogBytes(bytes: seq<byte>)
    | ReceiptDoc(receipt: Receipt)
    | TombstoneDoc(tombstone: Tombstone)
    | Blob

  type Dir = map<FileName, Content>

  /** The JSON codec of events and the digest over an event list. */
  datatype Ctx = Ctx(codec: Codec, digest: seq<Event> -> string)

  /** Where the worker thread of a run is. */
  datatype Thread =
    | NoThread | Preparing | WorkflowStaged | Prepared | Entered | Working | Finishing(status: EventName) | Exited

  /** The writes a lock-held region has yet to make. */
  datatype Pending =
    | Idle
    | Appending(event: Event, written: nat, closing: bool)
    | Persisting(stage: nat)

  datatype Run = Run(
    request: Request,
    events: seq<Event>,
    receipt: Option<Receipt>,
    cancelRequested: bool,
    recovered: bool,
    runner: bool,
    thread: Thread,
    pending: Pending)

  predicate Has(events: seq<Event>, name: EventName)
  {
    exists i | 0 <= i < |events| :: events[i].name == name
  }

  /** All but the last event. */
  function Earlier(events: seq<Event>): (r: seq<Event>)
  {
    if events == [] then [] else events[..|events| - 1]
  }

  function LogOf(dir: Dir): (b: seq<byte>)
  {
    if EventsFile in dir && dir[EventsFile].LogBytes? then dir[EventsFile].bytes else []
  }

  // ----- the regions -----

  /** How the contained work ended: with an exit status, or with an exception, a refusal of the
      service's own or any other. */
  datatype Ending = Returned(exitStatus: int) | Raised(refused: bool)

  datatype Action =
    | Spawn
    | Cancel(note: string)
    | StageWorkflow | RenameWorkflow
    | PrepareFails(refused: bool)
    | EnterStart(note: string)
    | CallRunner
    | RunnerEnds(ending: Ending)
    | EnterFinish(note: string)
    | Terminalize(status: EventName, note: string)
    | WriteByte | EndAppend | PersistNext

  function NextEvent(run: Run, name: EventName, note: string): (e: Event)
  {
    Event(run.request.assignmentId, run.request.assignmentId, |run.events|, name, note)
  }

  /** `_emit`: the record joins the list now and the file byte by byte. */
  function Emit(run: Run, name: EventName, note: string): (r: Run)
  {
    var e := NextEvent(run, name, note);
    run.(events := run.events + [e], pending := Appending(e, 0, false))
  }

  function ReceiptFor(ctx: Ctx, q: Request, events: seq<Event>, status: EventName, note: string): (r: Receipt)
  {
    Receipt(q.assignmentId, q.envelopeId, q.envelopeSha, q.assignmentId, q.backend, status, ctx.digest(events), note)
  }

  /** The final region: terminal event, receipt over the whole log, then both persisted. */
  function Conclude(ctx: Ctx, run: Run, status: EventName, note: string): (r: Run)
  {
    var e := NextEvent(run, status, note);
    var events := run.events + [e];
    run.(events := events, receipt := Some(ReceiptFor(ctx, run.request, events, status, note)),
         pending := Appending(e, 0, true))
  }

  /** The status of a run that ends like this: a cancellation before then overrides it. */
  function StatusOf(cancelRequested: bool, ending: Ending): (status: EventName)
  {
    if cancelRequested then Cancelled
    else
      match ending
      case Returned(exit) => if exit == 0 then Succeeded else Failed
      case Raised(refused) => if refused then Refused else Failed
  }

  predicate IsTerminal(name: EventName) { name in {Succeeded, Failed, Cancelled, Refused} }

  predicate Enabled(ctx: Ctx, run: Run, a: Action)
  {
    match a
    case Spawn => run.thread == NoThread && !run.recovered && run.pending == Idle && run.receipt == None
    case Cancel(_) =>
      run.pending == Idle && run.receipt == None && !run.cancelRequested && (run.runner || !Has(run.events, Started))
    case StageWorkflow => run.thread == Preparing
    case RenameWorkflow => run.thread == WorkflowStaged
    case PrepareFails(_) => run.thread == Preparing || run.thread == WorkflowStaged
    case EnterStart(_) => run.thread == Prepared && run.pending == Idle
    case CallRunner => run.thread == Entered && run.pending == Idle
    case RunnerEnds(_) => run.thread == Working
    case EnterFinish(_) => run.thread.Finishing? && run.pending == Idle
    case Terminalize(st, _) =>
      run.pending == Idle && run.receipt == None && !run.runner && run.recovered && (st == Failed || st == Cancelled)
    case WriteByte => run.pending.Appending? && run.pending.written < |Line(ctx.codec, run.pending.event)|
    case EndAppend => run.pending.Appending? && run.pending.written == |Line(ctx.codec, run.pending.event)|
    case PersistNext => run.pending.Persisting? && run.pending.stage < 4 && run.receipt.Some?
  }

  function AfterMemory(ctx: Ctx, run: Run, a: Action): (r: Run)
    requires Enabled(ctx, run, a)
  {
    match a
    case Spawn => run.(thread := Preparing)
    case Cancel(note) => Emit(run.(cancelRequested := true), CancelRequested, note)
    case StageWorkflow => run.(thread := WorkflowStaged)
    case RenameWorkflow => run.(thread := Prepared)
    case PrepareFails(refused) => run.(thread := Finishing(StatusOf(run.cancelRequested, Raised(refused))))
    case EnterStart(note) =>
      if run.cancelRequested then run.(runner := true, thread := Finishing(Cancelled))
      else Emit(run.(runner := true, thread := Entered), Started, note)
    case CallRunner => run.(thread := Working)
    case RunnerEnds(ending) => run.(thread := Finishing(StatusOf(run.cancelRequested, ending)))
    case EnterFinish(note) => Conclude(ctx, run.(runner := false, thread := Exited), run.thread.status, note)
    case Terminalize(st, note) => Conclude(ctx, run.(cancelRequested := true), st, note)
    case WriteByte => run.(pending := run.pending.(written := run.pending.written + 1))
    case EndAppend => run.(pending := if run.pending.closing then Persisting(0) else Idle)
    case PersistNext => run.(pending := if run.pending.stage == 3 then Idle else Persisting(run.pending.stage + 1))
  }

  /** The one write, if any, that the action makes in the run directory. */
  function AfterDisk(ctx: Ctx, run: Run, dir: Dir, a: Action): (d: Dir)
    requires Enabled(ctx, run, a)
  {
    match a
    case StageWorkflow => dir[Tmp(WorkflowFile) := Blob]
    case RenameWorkflow => (dir - {Tmp(WorkflowFile)})[WorkflowFile := Blob]
    case WriteByte =>
      dir[EventsFile := LogBytes(LogOf(dir) + [Line(ctx.codec, run.pending.event)[run.pending.written]])]
    case PersistNext =>
      (match run.pending.stage
       case 0 => dir[Tmp(TerminalFile) := Blob]
       case 1 => (dir - {Tmp(TerminalFile)})[TerminalFile := Blob]
       case 2 => dir[Tmp(ReceiptFile) := Blob]
       case _ => (dir - {Tmp(ReceiptFile)})[ReceiptFile := ReceiptDoc(run.receipt.value)])
    case _ => dir
  }

  /** What `cancel` returns when it does not raise. */
  function CancelReply(run: Run, note: string): (e: Event)
    requires run.cancelRequested ==> run.events != []
  {
    if run.cancelRequested then run.events[|run.events| - 1] else NextEvent(run, CancelRequested, note)
  }

  /** `cancel` gets past its two checks. */
  predicate CancelAccepted(run: Run)
  {
    run.pending == Idle && run.receipt == None && (run.runner || !Has(run.events, Started))
  }

  // ----- loading a directory -----

  predicate ReceiptMatches(r: Receipt, q: Request)
  {
    && r.assignmentId == q.assignmentId && r.envelopeId == q.envelopeId && r.envelopeSha == q.envelopeSha
    && r.runId == q.assignmentId && r.backend == q.backend
  }

  function ParsedRequest(dir: Dir): (q: Option<Request>)
  {
    if RequestFile in dir && dir[RequestFile].RequestDoc? then Some(dir[RequestFile].request) else None
  }

  function RecoveredLog(ctx: Ctx, dir: Dir, id: string): (r: Option<Recovered>)
  {
    if EventsFile in dir then ReadLog(ctx.codec, LogOf(dir), id) else Some(Recovered([], []))
  }

  /** The directory after `_read_durable_events` compacted a torn log. */
  function Compacted(ctx: Ctx, dir: Dir): (d: Dir)
  {
    match ParsedRequest(dir)
    case None => dir
    case Some(q) =>
      match RecoveredLog(ctx, dir, q.assignmentId)
      case None => dir
      case Some(r) => if EventsFile in dir && r.file != LogOf(dir)
                      then (dir - {Tmp(EventsFile)})[EventsFile := LogBytes(r.file)] else dir
  }

  /** The run a directory loads into, or `None` when `_load_durable_state` quarantines it. */
  function LoadRun(ctx: Ctx, dir: Dir): (r: Option<Run>)
    ensures r.Some? ==> ParsedRequest(dir) == Some(r.value.request) && r.value.recovered && r.value.thread == NoThread
  {
    match ParsedRequest(dir)
    case None => None
    case Some(q) =>
      match RecoveredLog(ctx, dir, q.assignmentId)
      case None => None
      case Some(log) =>
        if ReceiptFile !in dir then
          Some(Run(q, log.events, None, false, true, false, NoThread, Idle))
        else if !dir[ReceiptFile].ReceiptDoc? || !ReceiptMatches(dir[ReceiptFile].receipt, q)
                || dir[ReceiptFile].receipt.eventsDigest != ctx.digest(log.events) then None
        else Some(Run(q, log.events, Some(dir[ReceiptFile].receipt), false, true, false, NoThread, Idle))
  }

  // ----- memory and files agree -----

  ghost predicate ReceiptOk(ctx: Ctx, run: Run)
  {
    run.receipt.Some? ==>
      ReceiptMatches(run.receipt.value, run.request) && run.receipt.value.eventsDigest == ctx.digest(run.events)
  }

  /** The log file holds the run's events, up to the bytes a region has yet to append. */
  ghost predicate LogAgrees(ctx: Ctx, dir: Dir, run: Run)
  {
    match run.pending
    case Appending(e, n, closing) =>
      && run.events != [] && run.events[|run.events| - 1] == e
      && n <= |Line(ctx.codec, e)|
      && LogOf(dir) == Lines(ctx.codec, run.events[..|run.events| - 1]) + Line(ctx.codec, e)[..n]
      && (closing <==> run.receipt.Some?)
    case Persisting(k) => k < 4 && run.receipt.Some? && LogOf(dir) == Lines(ctx.codec, run.events)
    case Idle => LogOf(dir) == Lines(ctx.codec, run.events)
  }

  ghost predicate Agrees(ctx: Ctx, dir: Dir, run: Run)
  {
    && Contiguous(run.events, run.request.assignmentId)
    && ParsedRequest(dir) == Some(run.request)
    && (EventsFile in dir ==> dir[EventsFile].LogBytes?)
    && LogAgrees(ctx, dir, run)
    && ReceiptOk(ctx, run)
    && (ReceiptFile in dir <==> run.receipt.Some? && run.pending == Idle)
    && (ReceiptFile in dir ==> dir[ReceiptFile] == ReceiptDoc(run.receipt.value))
  }

  /** A thread that has yet to conclude has no receipt. */
  ghost predicate ThreadOk(run: Run)
  {
    && (run.thread in {Preparing, WorkflowStaged, Prepared, Entered, Working} || run.thread.Finishing?
        ==> run.receipt == None && !run.recovered)
    && (run.recovered ==> run.thread == NoThread)
  }

  /** Starting to append an event leaves the file behind by exactly that event. */
  lemma EmitKeepsAgreement(ctx: Ctx, dir: Dir, run: Run, name: EventName, note: string)
    requires Agrees(ctx, dir, run) && run.pending == Idle && run.receipt == None
    ensures Agrees(ctx, dir, Emit(run, name, note))
    ensures Agrees(ctx, dir, Conclude(ctx, run, name, note))
  {
    var e := NextEvent(run, name, note);
    var events := run.events + [e];
    assert events[..|run.events|] == run.events;
    ContiguousGrows(run.events, e, run.request.assignmentId);
    NothingWritten(ctx.codec, run.events, e);
  }

  lemma ContiguousGrows(events: seq<Event>, e: Event, id: string)
    requires Contiguous(events, id) && Belongs(e, id, |events|)
    ensures Contiguous(events + [e], id)
  {
  }

  lemma NothingWritten(c: Codec, events: seq<Event>, e: Event)
    ensures Lines(c, events) + Line(c, e)[..0] == Lines(c, events)
  {
  }

  lemma WriteByteKeepsAgreement(ctx: Ctx, dir: Dir, run: Run)
    requires Agrees(ctx, dir, run) && Enabled(ctx, run, WriteByte)
    ensures Agrees(ctx, AfterDisk(ctx, run, dir, WriteByte), AfterMemory(ctx, run, WriteByte))
  {
    OneMoreByte(Lines(ctx.codec, Earlier(run.events)), Line(ctx.codec, run.pending.event), run.pending.written);
  }

  lemma OneMoreByte(before: seq<byte>, line: seq<byte>, n: nat)
    requires n < |line|
    ensures before + line[..n] + [line[n]] == before + line[..n + 1]
  {
    assert line[..n] + [line[n]] == line[..n + 1];
  }

  lemma EndAppendKeepsAgreement(ctx: Ctx, dir: Dir, run: Run)
    requires Agrees(ctx, dir, run) && Enabled(ctx, run, EndAppend)
    ensures Agrees(ctx, dir, AfterMemory(ctx, run, EndAppend))
  {
    var line := Line(ctx.codec, run.pending.event);
    assert line[..|line|] == line;
  }

  lemma PersistKeepsAgreement(ctx: Ctx, dir: Dir, run: Run)
    requires Agrees(ctx, dir, run) && Enabled(ctx, run, PersistNext)
    ensures Agrees(ctx, AfterDisk(ctx, run, dir, PersistNext), AfterMemory(ctx, run, PersistNext))
  {
  }

  /** Files other than the request, the log and the receipt do not matter. */
  lemma OtherFilesKeepAgreement(ctx: Ctx, dir: Dir, dir': Dir, run: Run, run': Run)
    requires Agrees(ctx, dir, run)
    requires forall f | f in {RequestFile, EventsFile, ReceiptFile} ::
               (f in dir <==> f in dir') && (f in dir ==> dir[f] == dir'[f])
    requires run' == run.(thread := run'.thread, runner := run'.runner, cancelRequested := run'.cancelRequested)
    ensures Agrees(ctx, dir', run')
  {
  }

  lemma CancelKeepsAgreement(ctx: Ctx, dir: Dir, run: Run, a: Action)
    requires Agrees(ctx, dir, run) && Enabled(ctx, run, a) && (a.Cancel? || a.Terminalize?)
    ensures Agrees(ctx, dir, AfterMemory(ctx, run, a))
  {
    var r := run.(cancelRequested := true);
    OtherFilesKeepAgreement(ctx, dir, dir, run, r);
    EmitKeepsAgreement(ctx, dir, r, if a.Cancel? then CancelRequested else a.status, a.note);
  }

  lemma EnterKeepsAgreement(ctx: Ctx, dir: Dir, run: Run, a: Action)
    requires Agrees(ctx, dir, run) && ThreadOk(run) && Enabled(ctx, run, a) && (a.EnterStart? || a.EnterFinish?)
    ensures Agrees(ctx, dir, AfterMemory(ctx, run, a))
  {
    if a.EnterFinish? {
      var r := run.(runner := false, thread := Exited);
      OtherFilesKeepAgreement(ctx, dir, dir, run, r);
      EmitKeepsAgreement(ctx, dir, r, run.thread.status, a.note);
    } else if run.cancelRequested {
      OtherFilesKeepAgreement(ctx, dir, dir, run, AfterMemory(ctx, run, a));
    } else {
      var r := run.(runner := true, thread := Entered);
      OtherFilesKeepAgreement(ctx, dir, dir, run, r);
      EmitKeepsAgreement(ctx, dir, r, Started, a.note);
    }
  }

  /** Every action keeps memory and files in agreement. */
  lemma ActionKeepsAgreement(ctx: Ctx, dir: Dir, run: Run, a: Action)
    requires Agrees(ctx, dir, run) && ThreadOk(run) && Enabled(ctx, run, a)
    ensures Agrees(ctx, AfterDisk(ctx, run, dir, a), AfterMemory(ctx, run, a))
  {
    match a
    case WriteByte => WriteByteKeepsAgreement(ctx, dir, run);
    case EndAppend => EndAppendKeepsAgreement(ctx, dir, run);
    case PersistNext => PersistKeepsAgreement(ctx, dir, run);
    case Cancel(_) => CancelKeepsAgreement(ctx, dir, run, a);
    case Terminalize(_, _) => CancelKeepsAgreement(ctx, dir, run, a);
    case EnterStart(_) => EnterKeepsAgreement(ctx, dir, run, a);
    case EnterFinish(_) => EnterKeepsAgreement(ctx, dir, run, a);
    case _ => OtherFilesKeepAgreement(ctx, dir, AfterDisk(ctx, run, dir, a), run, AfterMemory(ctx, run, a));
  }

  lemma ActionKeepsThread(ctx: Ctx, run: Run, a: Action)
    requires ThreadOk(run) && Enabled(ctx, run, a)
    ensures ThreadOk(AfterMemory(ctx, run, a))
  {
  }

  /** A thread that is alive can always go on, whatever comes of its work. */
  lemma ThreadGoesOn(ctx: Ctx, run: Run, refused: bool, ending: Ending, note: string)
    requires run.pending == Idle
    ensures run.thread == Preparing ==>
              Enabled(ctx, run, PrepareFails(refused)) && Enabled(ctx, run, StageWorkflow)
              && AfterMemory(ctx, run, StageWorkflow).thread == WorkflowStaged
    ensures run.thread == WorkflowStaged ==>
              Enabled(ctx, run, PrepareFails(refused)) && Enabled(ctx, run, RenameWorkflow)
              && AfterMemory(ctx, run, RenameWorkflow).thread == Prepared
    ensures run.thread == Prepared ==>
              && Enabled(ctx, run, EnterStart(note))
              && AfterMemory(ctx, run, EnterStart(note)).thread == if run.cancelRequested then Finishing(Cancelled)
                                                                   else Entered
    ensures run.thread == Entered ==>
              Enabled(ctx, run, CallRunner) && AfterMemory(ctx, run, CallRunner).thread == Working
    ensures run.thread == Working ==>
              Enabled(ctx, run, RunnerEnds(ending)) && AfterMemory(ctx, run, RunnerEnds(ending)).thread.Finishing?
    ensures run.thread.Finishing? ==>
              Enabled(ctx, run, EnterFinish(note)) && AfterMemory(ctx, run, EnterFinish(note)).thread == Exited
  {
  }

  /** And writes under way can always go on, until there are none. */
  lemma WritesGoOn(ctx: Ctx, dir: Dir, run: Run)
    requires Agrees(ctx, dir, run) && run.pending != Idle
    ensures run.pending.Appending? ==> Enabled(ctx, run, WriteByte) || Enabled(ctx, run, EndAppend)
    ensures run.pending.Persisting? ==>
              && Enabled(ctx, run, PersistNext)
              && AfterMemory(ctx, run, PersistNext).pending == if run.pending.stage < 3
                                                               then Persisting(run.pending.stage + 1) else Idle
  {
  }

  // ----- a crash between any two writes -----

  /** Whatever the run was doing, its directory loads again: with all the events
      emitted, or all but the one being appended, and with its receipt if that
      was durable. */
  lemma CrashedRunLoads(ctx: Ctx, dir: Dir, run: Run)
    requires Lawful(ctx.codec) && Agrees(ctx, dir, run)
    ensures var loaded := LoadRun(ctx, dir);
            && loaded.Some?
            && loaded.value.request == run.request
            && (loaded.value.events == run.events
                || (run.pending.Appending? && loaded.value.events == Earlier(run.events)))
            && loaded.value.receipt == (if ReceiptFile in dir then run.receipt else None)
            && Agrees(ctx, Compacted(ctx, dir), loaded.value)
  {
    RecoveredAfterCrash(ctx, dir, run);
    var log := RecoveredLog(ctx, dir, run.request.assignmentId).value;
    assert LoadRun(ctx, dir) == Some(Run(run.request, log.events, if ReceiptFile in dir then run.receipt else None,
                                         false, true, false, NoThread, Idle));
    CompactedFiles(ctx, dir, run.request, log);
  }

  lemma CompactedFiles(ctx: Ctx, dir: Dir, q: Request, log: Recovered)
    requires ParsedRequest(dir) == Some(q) && RecoveredLog(ctx, dir, q.assignmentId) == Some(log)
    requires log.file == Lines(ctx.codec, log.events) && (EventsFile in dir ==> dir[EventsFile].LogBytes?)
    ensures var dir' := Compacted(ctx, dir);
            && ParsedRequest(dir') == Some(q)
            && LogOf(dir') == log.file && (EventsFile in dir' ==> dir'[EventsFile].LogBytes?)
            && (ReceiptFile in dir' <==> ReceiptFile in dir)
                && (ReceiptFile in dir ==> dir'[ReceiptFile] == dir[ReceiptFile])
  {
  }

  lemma RecoveredAfterCrash(ctx: Ctx, dir: Dir, run: Run)
    requires Lawful(ctx.codec) && Agrees(ctx, dir, run)
    ensures var r := RecoveredLog(ctx, dir, run.request.assignmentId);
            && r.Some? && r.value.file == Lines(ctx.codec, r.value.events)
            && (r.value.events == run.events
                || (run.pending.Appending? && r.value.events == Earlier(run.events)))
            && (!run.pending.Appending? ==> r.value.events == run.events)
            && Contiguous(r.value.events, run.request.assignmentId)
  {
    var id := run.request.assignmentId;
    if run.pending.Appending? {
      var n := |run.events| - 1;
      var before, e := run.events[..n], run.events[n];
      assert before + [e] == run.events;
      assert Belongs(e, id, n) && Contiguous(before, id);
      TornAppendRecovers(ctx.codec, before, e, run.pending.written, id);
      if EventsFile !in dir {
        LinesOfNothing(ctx.codec, before);
      }
    } else {
      CompleteLogRecovers(ctx.codec, run.events, id);
      if EventsFile !in dir {
        LinesOfNothing(ctx.codec, run.events);
      }
    }
  }

  lemma {:induction false} LinesOfNothing(c: Codec, events: seq<Event>)
    ensures Lines(c, events) == [] ==> events == []
  {
  }

  /** Loading a loaded directory changes nothing more. */
  lemma RecoveryIsIdempotent(ctx: Ctx, dir: Dir, run: Run)
    requires Lawful(ctx.codec) && Agrees(ctx, dir, run)
    ensures var dir' := Compacted(ctx, dir);
            LoadRun(ctx, dir') == LoadRun(ctx, dir) && Compacted(ctx, dir') == dir'
  {
    CrashedRunLoads(ctx, dir, run);
    var loaded := LoadRun(ctx, dir).value;
    CrashedRunLoads(ctx, Compacted(ctx, dir), loaded);
    RecoveredAfterCrash(ctx, Compacted(ctx, dir), loaded);
  }

  /** A log that was compacted reads back as what was recovered from it. */
  lemma CompactLogReadsBack(c: Codec, raw: seq<byte>, id: string, r: Recovered)
    requires Lawful(c) && ReadLog(c, raw, id) == Some(r) && r.file != raw
    ensures ReadLog(c, r.file, id) == Some(r)
  {
    RewrittenLog(c, raw, id, r);
    CompleteLogRecovers(c, r.events, id);
  }

  lemma CompactedLog(ctx: Ctx, dir: Dir)
    requires Compacted(ctx, dir) != dir
    ensures ParsedRequest(dir).Some? && EventsFile in dir
    ensures var r := ReadLog(ctx.codec, LogOf(dir), ParsedRequest(dir).value.assignmentId);
            && r.Some? && r.value.file != LogOf(dir)
            && Compacted(ctx, dir) == (dir - {Tmp(EventsFile)})[EventsFile := LogBytes(r.value.file)]
  {
  }

  lemma AlreadyCompact(ctx: Ctx, dir: Dir, log: Recovered)
    requires ParsedRequest(dir).Some? && log.file == LogOf(dir)
    requires RecoveredLog(ctx, dir, ParsedRequest(dir).value.assignmentId) == Some(log)
    ensures Compacted(ctx, dir) == dir
  {
  }

  lemma LoadsAlike(ctx: Ctx, dir: Dir, dir': Dir, log: Recovered)
    requires ParsedRequest(dir).Some? && ParsedRequest(dir') == ParsedRequest(dir)
    requires RecoveredLog(ctx, dir, ParsedRequest(dir).value.assignmentId) == Some(log)
    requires RecoveredLog(ctx, dir', ParsedRequest(dir).value.assignmentId) == Some(log)
    requires ReceiptFile in dir' <==> ReceiptFile in dir
    requires ReceiptFile in dir ==> dir'[ReceiptFile] == dir[ReceiptFile]
    ensures LoadRun(ctx, dir') == LoadRun(ctx, dir)
  {
  }

  /** Compacting a compact directory changes nothing, whatever the directory. */
  lemma CompactedTwice(ctx: Ctx, dir: Dir)
    requires Lawful(ctx.codec)
    ensures Compacted(ctx, Compacted(ctx, dir)) == Compacted(ctx, dir)
    ensures LoadRun(ctx, Compacted(ctx, dir)) == LoadRun(ctx, dir)
  {
    if Compacted(ctx, dir) != dir {
      CompactedLog(ctx, dir);
      var id := ParsedRequest(dir).value.assignmentId;
      var log := ReadLog(ctx.codec, LogOf(dir), id).value;
      CompactLogReadsBack(ctx.codec, LogOf(dir), id, log);
      AlreadyCompact(ctx, Compacted(ctx, dir), log);
      LoadsAlike(ctx, dir, Compacted(ctx, dir), log);
    }
  }

  /** A half-written compaction is not looked at. */
  lemma CompactionIgnoresStaging(ctx: Ctx, dir: Dir)
    requires Compacted(ctx, dir) != dir
    ensures Compacted(ctx, dir[Tmp(EventsFile) := Blob]) == Compacted(ctx, dir) != dir[Tmp(EventsFile) := Blob]
  {
    CompactedLog(ctx, dir);
    var staged := dir[Tmp(EventsFile) := Blob];
    assert LogOf(staged) == LogOf(dir);
    assert staged - {Tmp(EventsFile)} == dir - {Tmp(EventsFile)};
  }
}
