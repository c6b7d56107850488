/** At most one launch per identity, whatever crashes, restarts, damaged evidence
    files and truthful reconciliations a run contains. */
module AdmissionSafety {
  import opened Options
  import opened EventLog
  import opened RunJournal
  import opened Admission

  type History = map<string, string>

  // ----- the invariant -----

  /** What still parses in the directory names the identity admitted under it. */
  ghost predicate EvidenceOk(dir: Dir, a: string, h: History)
  {
    && (RequestFile in dir && dir[RequestFile].RequestDoc? ==>
          a in h && dir[RequestFile].request.assignmentId == a && dir[RequestFile].request.envelopeId == h[a])
    && (ReceiptFile in dir && dir[ReceiptFile].ReceiptDoc? ==>
          a in h && dir[ReceiptFile].receipt.assignmentId == a && dir[ReceiptFile].receipt.envelopeId == h[a])
    && (RequestFile in dir ==> a in h)
  }

  ghost predicate RunDirOk(dir: Dir, a: string, h: History)
  {
    EvidenceOk(dir, a, h) && (RequestFile !in dir ==> dir.Keys <= {Tmp(RequestFile)}) && TombstoneFile !in dir
  }

  ghost predicate QuarantineDirOk(dir: Dir, a: string, h: History)
  {
    && EvidenceOk(dir, a, h)
    && (RequestFile in dir && TombstoneFile in dir && dir[TombstoneFile].TombstoneDoc? ==>
          dir[TombstoneFile].tombstone == Tombstone(a, h[a]))
  }

  /** The directory that holds the request of an admitted id is never lost. */
  ghost predicate Held(d: Disk, a: string)
  {
    (a in d.runs && RequestFile in d.runs[a]) || (a in d.quarantined && RequestFile in d.quarantined[a])
  }

  ghost predicate DiskOk(d: Disk, h: History)
  {
    && (forall a | a in d.runs :: RunDirOk(d.runs[a], a, h))
    && (forall a | a in d.quarantined :: QuarantineDirOk(d.quarantined[a], a, h))
    && (forall a | a in h :: Held(d, a))
  }

  ghost predicate RunOk(run: Run, a: string, d: Disk, h: History)
  {
    && a in h && run.request.assignmentId == a && run.request.envelopeId == h[a]
    && a in d.runs && RequestFile in d.runs[a]
    && (run.receipt.Some? ==> ReceiptMatches(run.receipt.value, run.request))
    && CancelAnswerable(run)
  }

  /** While a cancellation is pending, the last event is the one that requested it. */
  ghost predicate CancelAnswerable(run: Run)
  {
    run.cancelRequested && run.receipt == None ==>
      run.events != [] && run.events[|run.events| - 1].name == CancelRequested
  }

  ghost predicate RunsOk(p: Proc, d: Disk, h: History)
  {
    forall a | a in p.runs :: RunOk(p.runs[a], a, d, h)
  }

  /** Admission of this identity is refused: it is live, or tombstoned under both its
      ids, or its name keeps the root ambiguous. */
  ghost predicate Covered(p: Proc, a: string, e: string)
  {
    || a in p.runs
    || (a in p.tombstones && e in p.envelopeTombstones)
    || a in p.ambiguous
  }

  /** Which admitted ids the process may not yet cover, by what it is doing. */
  ghost predicate Excused(op: Op, d: Disk, a: string)
  {
    match op
    case Durable(q) => a == q.assignmentId
    case ReadingTombstones(todo) => a in todo || (a in d.runs && RequestFile in d.runs[a])
    case ReadingRuns(todo) => a in todo && a in d.runs
    case Moved(b, _, todo) => (a in todo && a in d.runs) || a == b
    case RecordStaged(b, _, todo) => (a in todo && a in d.runs) || a == b
    case Recorded(b, todo) => (a in todo && a in d.runs) || a == b
    case Tombstoning(b, _, todo) => (a in todo && a in d.runs) || a == b
    case Marking(_, todo) => a in todo && a in d.runs
    case _ => false
  }

  ghost predicate CoverOk(p: Proc, d: Disk, h: History)
  {
    forall a | a in h :: Covered(p, a, h[a]) || Excused(p.op, d, a)
  }

  /** What an operation in progress knows about the id it works on. */
  ghost predicate OpOk(p: Proc, d: Disk, h: History, launched: seq<string>)
  {
    match p.op
    case Making(q) => Unused(q, d, p, h, launched)
    case Staged(q) => Unused(q, d, p, h, launched)
    case Durable(q) =>
      && q.assignmentId in h && h[q.assignmentId] == q.envelopeId && q.assignmentId !in launched
          && q.assignmentId !in p.runs
      && q.assignmentId in d.runs && RequestFile in d.runs[q.assignmentId]
    case Announcing(q) => q.assignmentId in p.runs && q.assignmentId !in launched
    case Moved(b, pre, todo) =>
      && b in d.quarantined && b !in d.runs && b !in todo
      && (pre ==> RequestFile !in d.quarantined[b]) && (!pre ==> RequestFile in d.quarantined[b])
    case RecordStaged(b, pre, todo) =>
      && b in d.quarantined && b !in d.runs && b !in todo
      && (pre ==> RequestFile !in d.quarantined[b]) && (!pre ==> RequestFile in d.quarantined[b])
    case Recorded(b, todo) => b in d.quarantined && RequestFile in d.quarantined[b]
    case Tombstoning(b, t, todo) =>
      b in d.quarantined && RequestFile in d.quarantined[b] && b in h && t == Tombstone(b, h[b])
    case Marking(b, todo) => b in p.ambiguous
    case Reconciling(b, t) => b in d.quarantined && Truthful(h, b, t)
    case _ => true
  }

  /** A request being admitted uses an id and an envelope never admitted before. */
  ghost predicate Unused(q: Request, d: Disk, p: Proc, h: History, launched: seq<string>)
  {
    && q.assignmentId !in h && (forall a | a in h :: h[a] != q.envelopeId)
    && q.assignmentId in d.runs && q.assignmentId !in launched && q.assignmentId !in p.runs
  }

  ghost predicate Distinct<T>(s: seq<T>) { forall i, j | 0 <= i < j < |s| :: s[i] != s[j] }

  ghost predicate Injective(h: History) { forall a, b | a in h && b in h :: h[a] == h[b] ==> a == b }

  predicate BeforeWork(t: Thread) { t in {Preparing, WorkflowStaged, Prepared, Entered} }

  ghost predicate HistoryOk(w: World)
  {
    && Injective(w.admitted)
    && Distinct(w.launched) && (forall a | a in w.launched :: a in w.admitted)
    && Distinct(w.worked) && (forall a | a in w.worked :: a in w.launched)
    && (w.proc.Some? ==> forall a | a in w.proc.value.runs ::
          BeforeWork(w.proc.value.runs[a].thread) ==> a in w.launched && a !in w.worked)
  }

  /** The names recovery has yet to look at. */
  function Todo(op: Op): (names: set<string>)
  {
    match op
    case ReadingRuns(todo) => todo
    case Moved(_, _, todo) => todo
    case RecordStaged(_, _, todo) => todo
    case Recorded(_, todo) => todo
    case Tombstoning(_, _, todo) => todo
    case Marking(_, todo) => todo
    case _ => {}
  }

  ghost predicate ProcOk(p: Proc, d: Disk, h: History, launched: seq<string>)
  {
    && RunsOk(p, d, h) && CoverOk(p, d, h) && OpOk(p, d, h, launched)
    && p.runs.Keys !! Todo(p.op) && (p.op.ReadingTombstones? ==> p.runs == map[])
  }

  ghost predicate Inv(w: World)
  {
    && DiskOk(w.disk, w.admitted)
    && HistoryOk(w)
    && (w.proc.Some? ==> ProcOk(w.proc.value, w.disk, w.admitted, w.launched))
  }

  // ----- frames -----

  /** Rewriting one quarantined directory without losing its request. */
  lemma QuarantineWrite(d: Disk, a: string, dir: Dir, h: History)
    requires DiskOk(d, h) && a in d.quarantined && QuarantineDirOk(dir, a, h)
    requires RequestFile in dir <==> RequestFile in d.quarantined[a]
    ensures DiskOk(SetQuarantined(d, a, dir), h)
  {
    var d' := SetQuarantined(d, a, dir);
    forall b | b in h ensures Held(d', b) { assert Held(d, b); }
  }

  /** Rewriting one run directory without losing its request. */
  lemma RunWrite(d: Disk, a: string, dir: Dir, h: History)
    requires DiskOk(d, h) && a in d.runs && RunDirOk(dir, a, h)
    requires RequestFile in d.runs[a] ==> RequestFile in dir
    ensures DiskOk(SetRun(d, a, dir), h)
  {
    var d' := SetRun(d, a, dir);
    forall b | b in h ensures Held(d', b) { assert Held(d, b); }
  }

  /** The process does not notice writes that keep every request file in place. */
  lemma ProcFrame(p: Proc, d: Disk, d': Disk, h: History, launched: seq<string>)
    requires ProcOk(p, d, h, launched)
    requires d'.runs.Keys == d.runs.Keys && d'.quarantined.Keys == d.quarantined.Keys
    requires forall a | a in d.runs :: RequestFile in d'.runs[a] <==> RequestFile in d.runs[a]
    requires forall a | a in d.quarantined :: RequestFile in d'.quarantined[a] <==> RequestFile in d.quarantined[a]
    ensures ProcOk(p, d', h, launched)
  {
    forall a | a in h ensures Covered(p, a, h[a]) || Excused(p.op, d', a) {
      assert Covered(p, a, h[a]) || Excused(p.op, d, a);
    }
  }

  // ----- damage -----

  lemma CorruptRunKeeps(ctx: Ctx, w: World, s: Step)
    requires Inv(w) && s.CorruptRun? && Possible(ctx, w, s)
    ensures Inv(Next(ctx, w, s))
  {
    var dir := w.disk.runs[s.name][s.file := s.content];
    assert RunDirOk(w.disk.runs[s.name], s.name, w.admitted);
    assert RunDirOk(dir, s.name, w.admitted);
    RunWrite(w.disk, s.name, dir, w.admitted);
    if w.proc.Some? {
      ProcFrame(w.proc.value, w.disk, SetRun(w.disk, s.name, dir), w.admitted, w.launched);
    }
  }

  lemma CorruptQuarantinedKeeps(ctx: Ctx, w: World, s: Step)
    requires Inv(w) && s.CorruptQuarantined? && Possible(ctx, w, s)
    ensures Inv(Next(ctx, w, s))
  {
    var dir := w.disk.quarantined[s.name][s.file := s.content];
    assert QuarantineDirOk(dir, s.name, w.admitted);
    QuarantineWrite(w.disk, s.name, dir, w.admitted);
    if w.proc.Some? {
      ProcFrame(w.proc.value, w.disk, SetQuarantined(w.disk, s.name, dir), w.admitted, w.launched);
    }
  }

  // ----- recovery -----

  lemma BootKeeps(ctx: Ctx, w: World)
    requires Inv(w) && Possible(ctx, w, Boot)
    ensures Inv(Next(ctx, w, Boot))
  {
    var p := Next(ctx, w, Boot).proc.value;
    forall a | a in w.admitted ensures Excused(p.op, w.disk, a) {
      assert Held(w.disk, a);
    }
  }

  /** Once read, a quarantined directory that holds a request covers its id. */
  lemma TombstoneCovers(p: Proc, a: string, dir: Dir, h: History)
    requires QuarantineDirOk(dir, a, h) && RequestFile in dir
    ensures Covered(LoadTombstone(p, a, dir), a, h[a])
  {
    assert RequestFile != QuarantineFile && RequestFile != Tmp(RequestFile);
  }

  /** Loading a tombstone forgets nothing. */
  lemma LoadTombstoneGrows(p: Proc, a: string, dir: Dir, b: string, e: string)
    requires Covered(p, b, e)
    ensures Covered(LoadTombstone(p, a, dir), b, e) && LoadTombstone(p, a, dir).runs == p.runs
  {
  }

  lemma ReadTombstoneKeeps(p: Proc, d: Disk, h: History, launched: seq<string>, a: string)
    requires DiskOk(d, h) && ProcOk(p, d, h, launched) && p.op.ReadingTombstones? && a in p.op.todo
        && a in d.quarantined
    ensures ProcOk(LoadTombstone(p, a, d.quarantined[a]).(op := ReadingTombstones(p.op.todo - {a})), d, h, launched)
  {
    var dir := d.quarantined[a];
    var p' := LoadTombstone(p, a, dir).(op := ReadingTombstones(p.op.todo - {a}));
    forall b | b in h ensures Covered(p', b, h[b]) || Excused(p'.op, d, b) {
      assert Held(d, b) && (Covered(p, b, h[b]) || Excused(p.op, d, b));
      if Covered(p, b, h[b]) {
        LoadTombstoneGrows(p, a, dir, b, h[b]);
      } else if b == a && RequestFile in dir {
        TombstoneCovers(p, a, dir, h);
      }
    }
  }

  lemma ReadMarkersKeeps(p: Proc, d: Disk, h: History, launched: seq<string>)
    requires DiskOk(d, h) && ProcOk(p, d, h, launched) && p.op == ReadingTombstones({})
    ensures ProcOk(p.(ambiguous := p.ambiguous + d.markers, op := ReadingRuns(d.runs.Keys)), d, h, launched)
  {
    var p' := p.(ambiguous := p.ambiguous + d.markers, op := ReadingRuns(d.runs.Keys));
    forall b | b in h ensures Covered(p', b, h[b]) || Excused(p'.op, d, b) {
      assert Covered(p, b, h[b]) || Excused(p.op, d, b);
    }
  }

  lemma CompactedOk(ctx: Ctx, dir: Dir, a: string, h: History)
    requires RunDirOk(dir, a, h)
    ensures RunDirOk(Compacted(ctx, dir), a, h)
    ensures RequestFile in Compacted(ctx, dir) <==> RequestFile in dir
  {
  }

  lemma StageCompactionKeeps(d: Disk, p: Proc, h: History, launched: seq<string>, a: string)
    requires DiskOk(d, h) && ProcOk(p, d, h, launched) && a in d.runs && RequestFile in d.runs[a]
    ensures var d' := SetRun(d, a, d.runs[a][Tmp(EventsFile) := Blob]);
            DiskOk(d', h) && ProcOk(p, d', h, launched)
  {
    var dir := d.runs[a][Tmp(EventsFile) := Blob];
    assert RunDirOk(d.runs[a], a, h);
    assert RunDirOk(dir, a, h);
    RunWrite(d, a, dir, h);
    ProcFrame(p, d, SetRun(d, a, dir), h, launched);
  }

  lemma RenameCompactionKeeps(ctx: Ctx, d: Disk, p: Proc, h: History, launched: seq<string>, a: string)
    requires DiskOk(d, h) && ProcOk(p, d, h, launched) && a in d.runs
    ensures var d' := SetRun(d, a, Compacted(ctx, d.runs[a]));
            DiskOk(d', h) && ProcOk(p, d', h, launched)
  {
    var dir := Compacted(ctx, d.runs[a]);
    assert RunDirOk(d.runs[a], a, h);
    CompactedOk(ctx, d.runs[a], a, h);
    RunWrite(d, a, dir, h);
    ProcFrame(p, d, SetRun(d, a, dir), h, launched);
  }

  /** A directory that loads becomes a live run of its own name. */
  lemma LoadKeeps(ctx: Ctx, d: Disk, p: Proc, h: History, launched: seq<string>, a: string)
    requires DiskOk(d, h) && ProcOk(p, d, h, launched) && p.op.ReadingRuns? && a in p.op.todo && a in d.runs
    requires LoadRun(ctx, d.runs[a]).Some?
    ensures var run := LoadRun(ctx, d.runs[a]).value;
            var p' := p.(runs := p.runs[run.request.assignmentId := run], op := ReadingRuns(p.op.todo - {a}));
            run.request.assignmentId == a && ProcOk(p', d, h, launched)
  {
    var run := LoadRun(ctx, d.runs[a]).value;
    assert RunDirOk(d.runs[a], a, h);
    var p' := p.(runs := p.runs[a := run], op := ReadingRuns(p.op.todo - {a}));
    assert RunOk(run, a, d, h);
    forall b | b in h ensures Covered(p', b, h[b]) || Excused(p'.op, d, b) {
      assert Covered(p, b, h[b]) || Excused(p.op, d, b);
    }
  }

  /** A directory whose quarantine name is taken makes its name ambiguous. */
  lemma BlockedQuarantineKeeps(d: Disk, p: Proc, h: History, launched: seq<string>, a: string)
    requires ProcOk(p, d, h, launched) && p.op.ReadingRuns? && a in p.op.todo
    ensures ProcOk(p.(ambiguous := p.ambiguous + {a}, op := Marking(a, p.op.todo - {a})), d, h, launched)
  {
    var p' := p.(ambiguous := p.ambiguous + {a}, op := Marking(a, p.op.todo - {a}));
    forall b | b in h ensures Covered(p', b, h[b]) || Excused(p'.op, d, b) {
      assert Covered(p, b, h[b]) || Excused(p.op, d, b);
    }
  }

  lemma SetAsideKeepsDisk(d: Disk, h: History, a: string)
    requires DiskOk(d, h) && a in d.runs && a !in d.quarantined
    ensures DiskOk(SetAside(d, a), h)
  {
    var d' := SetAside(d, a);
    forall b | b in h ensures Held(d', b) { assert Held(d, b); }
    assert RunDirOk(d.runs[a], a, h);
    assert QuarantineDirOk(d.runs[a], a, h);
  }

  /** A directory that does not load stays accounted for while it is moved aside. */
  lemma SetAsideKeeps(d: Disk, p: Proc, h: History, launched: seq<string>, a: string)
    requires DiskOk(d, h) && ProcOk(p, d, h, launched)
    requires p.op.ReadingRuns? && a in p.op.todo && a in d.runs && a !in d.quarantined
    ensures ProcOk(p.(op := Moved(a, PreAdmission(d.runs[a]), p.op.todo - {a})), SetAside(d, a), h, launched)
  {
    var d' := SetAside(d, a);
    var p' := p.(op := Moved(a, PreAdmission(d.runs[a]), p.op.todo - {a}));
    forall b | b in h ensures Covered(p', b, h[b]) || Excused(p'.op, d', b) {
      assert Covered(p, b, h[b]) || Excused(p.op, d, b);
    }
    forall b | b in p'.runs ensures RunOk(p'.runs[b], b, d', h) {
      assert RunOk(p.runs[b], b, d, h) && b != a;
    }
    assert RunDirOk(d.runs[a], a, h);
    PreAdmissionHasNoRequest(d.runs[a], a, h);
  }

  lemma PreAdmissionHasNoRequest(dir: Dir, a: string, h: History)
    requires RunDirOk(dir, a, h)
    ensures PreAdmission(dir) <==> RequestFile !in dir
  {
    if RequestFile !in dir && Tmp(RequestFile) in dir {
      assert dir.Keys == {Tmp(RequestFile)};
    }
  }

  lemma LoadDirectoryKeeps(ctx: Ctx, d: Disk, p: Proc, h: History, launched: seq<string>, a: string)
    requires DiskOk(d, h) && ProcOk(p, d, h, launched) && p.op.ReadingRuns? && a in p.op.todo && a in d.runs
    ensures var (d', p') := LoadDirectory(ctx, d, p, a, p.op.todo - {a});
            DiskOk(d', h) && ProcOk(p', d', h, launched)
  {
    if LoadRun(ctx, d.runs[a]).Some? {
      LoadKeeps(ctx, d, p, h, launched, a);
    } else if a in d.quarantined {
      BlockedQuarantineKeeps(d, p, h, launched, a);
    } else {
      SetAsideKeepsDisk(d, h, a);
      SetAsideKeeps(d, p, h, launched, a);
    }
  }

  /** Loading starts no thread. */
  lemma LoadHistoryKeeps(ctx: Ctx, w: World, p: Proc, a: string, todo: set<string>)
    requires HistoryOk(w) && w.proc == Some(p) && a in w.disk.runs
    ensures HistoryOk(w.(disk := LoadDirectory(ctx, w.disk, p, a, todo).0,
        proc := Some(LoadDirectory(ctx, w.disk, p, a, todo).1)))
  {
  }

  lemma LoadOrMoveKeeps(ctx: Ctx, w: World, p: Proc, a: string)
    requires Inv(w) && w.proc == Some(p) && Ready(ctx, w.disk, p, w.admitted, LoadOrMove(a))
    ensures Inv(Work(ctx, w, p, LoadOrMove(a)))
  {
    LoadDirectoryKeeps(ctx, w.disk, p, w.admitted, w.launched, a);
    LoadHistoryKeeps(ctx, w, p, a, p.op.todo - {a});
  }

  /** Writing a file of no evidence value into the quarantined directory. */
  lemma AsideWriteKeeps(d: Disk, p: Proc, op: Op, h: History, launched: seq<string>, a: string, dir: Dir)
    requires DiskOk(d, h) && ProcOk(p, d, h, launched) && a in d.quarantined
    requires forall f | f in {RequestFile, ReceiptFile, TombstoneFile} ::
               (f in dir <==> f in d.quarantined[a]) && (f in dir ==> dir[f] == d.quarantined[a][f])
    requires Todo(op) == Todo(p.op) && !op.ReadingTombstones?
        && OpOk(p.(op := op), SetQuarantined(d, a, dir), h, launched)
    requires forall b | b in h :: Excused(p.op, d, b) ==> Excused(op, SetQuarantined(d, a, dir), b)
    ensures DiskOk(SetQuarantined(d, a, dir), h) && ProcOk(p.(op := op), SetQuarantined(d, a, dir), h, launched)
  {
    assert QuarantineDirOk(d.quarantined[a], a, h);
    QuarantineWrite(d, a, dir, h);
    var p', d' := p.(op := op), SetQuarantined(d, a, dir);
    forall b | b in h ensures Covered(p', b, h[b]) || Excused(op, d', b) {
      assert Covered(p, b, h[b]) || Excused(p.op, d, b);
    }
  }

  lemma StageRecordKeeps(ctx: Ctx, w: World, p: Proc)
    requires Inv(w) && w.proc == Some(p) && Ready(ctx, w.disk, p, w.admitted, StageRecord)
    ensures Inv(Work(ctx, w, p, StageRecord))
  {
    var a, d := p.op.name, w.disk;
    AsideWriteKeeps(d, p, RecordStaged(a, p.op.preAdmission, p.op.todo), w.admitted, w.launched, a,
                    d.quarantined[a][Tmp(QuarantineFile) := Blob]);
  }

  lemma WriteRecordKeeps(ctx: Ctx, w: World, p: Proc)
    requires Inv(w) && w.proc == Some(p) && Ready(ctx, w.disk, p, w.admitted, WriteRecord)
    ensures Inv(Work(ctx, w, p, WriteRecord))
  {
    var a, d := p.op.name, w.disk;
    var dir := (d.quarantined[a] - {Tmp(QuarantineFile)})[QuarantineFile := Blob];
    var op := if p.op.preAdmission then ReadingRuns(p.op.todo) else Recorded(a, p.op.todo);
    if p.op.preAdmission {
      NotAdmitted(d, w.admitted, a);
    }
    AsideWriteKeeps(d, p, op, w.admitted, w.launched, a, dir);
  }

  /** Nothing was ever admitted under a name moved aside before admission. */
  lemma NotAdmitted(d: Disk, h: History, a: string)
    requires DiskOk(d, h) && a !in d.runs && a in d.quarantined && RequestFile !in d.quarantined[a]
    ensures a !in h
  {
    assert a in h ==> Held(d, a);
  }

  lemma UnrecoverableKeeps(d: Disk, p: Proc, h: History, launched: seq<string>)
    requires ProcOk(p, d, h, launched) && p.op.Recorded?
    ensures ProcOk(p.(ambiguous := p.ambiguous + {p.op.name}, op := Marking(p.op.name, p.op.todo)), d, h, launched)
  {
    var p' := p.(ambiguous := p.ambiguous + {p.op.name}, op := Marking(p.op.name, p.op.todo));
    forall b | b in h ensures Covered(p', b, h[b]) || Excused(p'.op, d, b) {
      assert Covered(p, b, h[b]) || Excused(p.op, d, b);
    }
  }

  lemma StageTombstoneKeeps(d: Disk, p: Proc, h: History, launched: seq<string>, t: Tombstone)
    requires DiskOk(d, h) && ProcOk(p, d, h, launched) && p.op.Recorded?
        && RecoveredIdentity(d.quarantined[p.op.name]) == Some(t)
    ensures var d' := SetQuarantined(d, p.op.name, d.quarantined[p.op.name][Tmp(TombstoneFile) := Blob]);
            DiskOk(d', h) && ProcOk(p.(op := Tombstoning(p.op.name, t, p.op.todo)), d', h, launched)
  {
    var a := p.op.name;
    assert QuarantineDirOk(d.quarantined[a], a, h);
    AsideWriteKeeps(d, p, Tombstoning(a, t, p.op.todo), h, launched, a, d.quarantined[a][Tmp(TombstoneFile) := Blob]);
  }

  lemma RecoverIdentityKeeps(ctx: Ctx, w: World, p: Proc)
    requires Inv(w) && w.proc == Some(p) && Ready(ctx, w.disk, p, w.admitted, RecoverIdentity)
    ensures Inv(Work(ctx, w, p, RecoverIdentity))
  {
    match RecoveredIdentity(w.disk.quarantined[p.op.name])
    case None => UnrecoverableKeeps(w.disk, p, w.admitted, w.launched);
    case Some(t) => StageTombstoneKeeps(w.disk, p, w.admitted, w.launched, t);
  }

  /** A durable tombstone of the admitted identity. */
  lemma PutTombstoneKeeps(d: Disk, h: History, a: string, t: Tombstone)
    requires DiskOk(d, h) && a in d.quarantined && Truthful(h, a, t)
    ensures DiskOk(PutTombstone(d, a, t), h)
  {
    assert QuarantineDirOk(d.quarantined[a], a, h);
    QuarantineWrite(d, a, (d.quarantined[a] - {Tmp(TombstoneFile)})[TombstoneFile := TombstoneDoc(t)], h);
  }

  /** The tombstone covers the quarantined identity. */
  lemma TombstonedKeeps(d: Disk, d': Disk, p: Proc, h: History, launched: seq<string>)
    requires ProcOk(p, d, h, launched) && p.op.Tombstoning? && d'.runs == d.runs
    ensures ProcOk(Register(p, p.op.tombstone).(op := ReadingRuns(p.op.todo)), d', h, launched)
  {
    var p' := Register(p, p.op.tombstone).(op := ReadingRuns(p.op.todo));
    forall b | b in h ensures Covered(p', b, h[b]) || Excused(p'.op, d', b) {
      assert Covered(p, b, h[b]) || Excused(p.op, d, b);
    }
    forall b | b in p'.runs ensures RunOk(p'.runs[b], b, d', h) { assert RunOk(p.runs[b], b, d, h); }
  }

  lemma WriteTombstoneKeeps(ctx: Ctx, w: World, p: Proc)
    requires Inv(w) && w.proc == Some(p) && Ready(ctx, w.disk, p, w.admitted, WriteTombstone)
    ensures Inv(Work(ctx, w, p, WriteTombstone))
  {
    PutTombstoneKeeps(w.disk, w.admitted, p.op.name, p.op.tombstone);
    TombstonedKeeps(w.disk, PutTombstone(w.disk, p.op.name, p.op.tombstone), p, w.admitted, w.launched);
  }

  lemma WriteMarkerKeeps(ctx: Ctx, w: World, p: Proc)
    requires Inv(w) && w.proc == Some(p) && Ready(ctx, w.disk, p, w.admitted, WriteMarker)
    ensures Inv(Work(ctx, w, p, WriteMarker))
  {
    var d' := w.disk.(markers := w.disk.markers + {p.op.name});
    MarkersDoNotMatter(w.disk, d', p, w.admitted, w.launched);
    MarkedKeeps(d', p, w.admitted, w.launched);
  }

  /** Once its name is ambiguous, a directory needs no more looking at. */
  lemma MarkedKeeps(d: Disk, p: Proc, h: History, launched: seq<string>)
    requires ProcOk(p, d, h, launched) && p.op.Marking?
    ensures ProcOk(p.(op := ReadingRuns(p.op.todo)), d, h, launched)
  {
    var p' := p.(op := ReadingRuns(p.op.todo));
    forall b | b in h ensures Covered(p', b, h[b]) || Excused(p'.op, d, b) {
      assert Covered(p, b, h[b]) || Excused(p.op, d, b);
    }
  }

  lemma MarkersDoNotMatter(d: Disk, d': Disk, p: Proc, h: History, launched: seq<string>)
    requires DiskOk(d, h) && ProcOk(p, d, h, launched) && d' == d.(markers := d'.markers)
    ensures DiskOk(d', h) && ProcOk(p, d', h, launched)
  {
    forall b | b in h ensures Held(d', b) { assert Held(d, b); }
    ProcFrame(p, d, d', h, launched);
  }

  lemma FinishLoadKeeps(ctx: Ctx, w: World, p: Proc)
    requires Inv(w) && w.proc == Some(p) && Ready(ctx, w.disk, p, w.admitted, FinishLoad)
    ensures Inv(Work(ctx, w, p, FinishLoad))
  {
    var p' := p.(op := Free);
    forall b | b in w.admitted ensures Covered(p', b, w.admitted[b]) {
      assert Covered(p, b, w.admitted[b]) || Excused(p.op, w.disk, b);
    }
  }

  // ----- admission -----

  /** The duplicate checks refuse every identity that was ever admitted. */
  lemma AdmissibleIsUnused(p: Proc, d: Disk, h: History, launched: seq<string>, q: Request)
    requires DiskOk(d, h) && ProcOk(p, d, h, launched) && p.op == Free && Admissible(p, d, q)
    ensures q.assignmentId !in h && forall a | a in h :: h[a] != q.envelopeId
  {
    assert q.assignmentId in h ==> Covered(p, q.assignmentId, h[q.assignmentId]);
    forall a | a in h ensures h[a] != q.envelopeId {
      assert Covered(p, a, h[a]);
      assert a in p.runs ==> RunOk(p.runs[a], a, d, h);
    }
  }

  lemma MakeDirectoryKeeps(d: Disk, p: Proc, h: History, launched: seq<string>, q: Request)
    requires DiskOk(d, h) && ProcOk(p, d, h, launched) && p.op == Free && q.assignmentId !in d.runs
        && q.assignmentId !in p.runs
    requires q.assignmentId !in h && q.assignmentId !in launched && forall a | a in h :: h[a] != q.envelopeId
    ensures var d' := SetRun(d, q.assignmentId, map[]);
            DiskOk(d', h) && ProcOk(p.(op := Making(q)), d', h, launched)
  {
    var d', p' := SetRun(d, q.assignmentId, map[]), p.(op := Making(q));
    forall b | b in h ensures Held(d', b) { assert Held(d, b); }
    forall b | b in h ensures Covered(p', b, h[b]) { assert Covered(p, b, h[b]) || Excused(p.op, d, b); }
    forall b | b in p'.runs ensures RunOk(p'.runs[b], b, d', h) { assert RunOk(p.runs[b], b, d, h); }
  }

  lemma AdmitKeeps(ctx: Ctx, w: World, p: Proc, q: Request)
    requires Inv(w) && w.proc == Some(p) && Ready(ctx, w.disk, p, w.admitted, Admit(q))
    ensures Inv(Work(ctx, w, p, Admit(q)))
  {
    AdmissibleIsUnused(p, w.disk, w.admitted, w.launched, q);
    MakeDirectoryKeeps(w.disk, p, w.admitted, w.launched, q);
  }

  lemma StageRequestKeeps(ctx: Ctx, w: World, p: Proc)
    requires Inv(w) && w.proc == Some(p) && Ready(ctx, w.disk, p, w.admitted, StageRequest)
    ensures Inv(Work(ctx, w, p, StageRequest))
  {
    var d, h, a := w.disk, w.admitted, p.op.request.assignmentId;
    var dir := d.runs[a][Tmp(RequestFile) := Blob];
    assert RunDirOk(d.runs[a], a, h);
    RunWrite(d, a, dir, h);
    ProcFrame(p, d, SetRun(d, a, dir), h, w.launched);
    var p' := p.(op := Staged(p.op.request));
    forall b | b in h ensures Covered(p', b, h[b]) { assert Covered(p, b, h[b]) || Excused(p.op, d, b); }
  }

  lemma WriteRequestKeepsDisk(d: Disk, h: History, q: Request, dir: Dir)
    requires DiskOk(d, h) && q.assignmentId !in h && q.assignmentId in d.runs
    requires dir == (d.runs[q.assignmentId] - {Tmp(RequestFile)})[RequestFile := RequestDoc(q)]
    ensures DiskOk(SetRun(d, q.assignmentId, dir), h[q.assignmentId := q.envelopeId])
  {
    var a, d', h' := q.assignmentId, SetRun(d, q.assignmentId, dir), h[q.assignmentId := q.envelopeId];
    assert RunDirOk(d.runs[a], a, h);
    assert RunDirOk(dir, a, h');
    forall b | b in h' ensures Held(d', b) { assert b != a ==> Held(d, b); }
    forall b | b in d'.runs ensures RunDirOk(d'.runs[b], b, h') { assert b != a ==> RunDirOk(d.runs[b], b, h); }
    forall b | b in d'.quarantined ensures QuarantineDirOk(d'.quarantined[b], b, h') {
      assert QuarantineDirOk(d.quarantined[b], b, h);
    }
  }

  lemma WriteRequestKeeps(ctx: Ctx, w: World, p: Proc)
    requires Inv(w) && w.proc == Some(p) && Ready(ctx, w.disk, p, w.admitted, WriteRequest)
    ensures Inv(Work(ctx, w, p, WriteRequest))
  {
    var q := p.op.request;
    var a, d, h := q.assignmentId, w.disk, w.admitted;
    var dir := (d.runs[a] - {Tmp(RequestFile)})[RequestFile := RequestDoc(q)];
    WriteRequestKeepsDisk(d, h, q, dir);
    var d', h', p' := SetRun(d, a, dir), h[a := q.envelopeId], p.(op := Durable(q));
    forall b | b in h' ensures Covered(p', b, h'[b]) || Excused(p'.op, d', b) {
      assert b != a ==> Covered(p, b, h[b]) || Excused(p.op, d, b);
    }
    forall b | b in p'.runs ensures RunOk(p'.runs[b], b, d', h') { assert RunOk(p.runs[b], b, d, h) && b != a; }
    assert Injective(h');
  }

  /** The live table gains, or replaces, one run. */
  lemma SetLiveKeeps(d: Disk, p: Proc, p': Proc, h: History, launched: seq<string>, launched': seq<string>, a: string,
      run: Run)
    requires ProcOk(p, d, h, launched) && RunOk(run, a, d, h) && Serving(p.op) && Serving(p'.op)
    requires p' == p.(runs := p.runs[a := run], op := p'.op) && OpOk(p', d, h, launched')
    requires p'.op != p.op ==> !p'.op.Durable? && (p.op.Durable? ==> p.op.request.assignmentId == a)
    ensures ProcOk(p', d, h, launched')
  {
    forall b | b in h ensures Covered(p', b, h[b]) || Excused(p'.op, d, b) {
      assert Covered(p, b, h[b]) || Excused(p.op, d, b);
    }
    forall b | b in p'.runs ensures RunOk(p'.runs[b], b, d, h) { assert b != a ==> RunOk(p.runs[b], b, d, h); }
  }

  lemma PublishKeeps(ctx: Ctx, w: World, p: Proc, note: string)
    requires Inv(w) && w.proc == Some(p) && Ready(ctx, w.disk, p, w.admitted, Publish(note))
    ensures Inv(Work(ctx, w, p, Publish(note)))
  {
    var q := p.op.request;
    var run := Emit(Run(q, [], None, false, false, false, NoThread, Idle), Admitted, note);
    var p' := p.(runs := p.runs[q.assignmentId := run], op := Announcing(q));
    assert ProcOk(p', w.disk, w.admitted, w.launched) by {
      assert RunOk(run, q.assignmentId, w.disk, w.admitted);
      SetLiveKeeps(w.disk, p, p', w.admitted, w.launched, w.launched, q.assignmentId, run);
    }
    PublishKeepsHistory(w, p, p', q.assignmentId, run);
  }

  /** A published run has no thread yet. */
  lemma PublishKeepsHistory(w: World, p: Proc, p': Proc, a: string, run: Run)
    requires HistoryOk(w) && w.proc == Some(p) && p'.runs == p.runs[a := run] && run.thread == NoThread
    ensures HistoryOk(w.(proc := Some(p')))
  {
  }

  lemma LaunchKeeps(ctx: Ctx, w: World, p: Proc)
    requires Inv(w) && w.proc == Some(p) && Ready(ctx, w.disk, p, w.admitted, Launch)
    ensures Inv(Work(ctx, w, p, Launch))
  {
    var a := p.op.request.assignmentId;
    var run := AfterMemory(ctx, p.runs[a], Spawn);
    assert RunOk(p.runs[a], a, w.disk, w.admitted);
    SetLiveKeeps(w.disk, p, p.(runs := p.runs[a := run], op := Free), w.admitted, w.launched, w.launched + [a], a, run);
    assert a !in w.worked;
  }

  // ----- the run's own regions -----

  lemma ActionKeepsEvidence(ctx: Ctx, d: Disk, run: Run, a: string, act: Action, h: History)
    requires RunOk(run, a, d, h) && RunDirOk(d.runs[a], a, h) && Enabled(ctx, run, act)
    ensures RunDirOk(AfterDisk(ctx, run, d.runs[a], act), a, h) && RequestFile in AfterDisk(ctx, run, d.runs[a], act)
    ensures RunOk(AfterMemory(ctx, run, act), a, d, h)
  {
  }

  lemma RunActKeepsProc(ctx: Ctx, d: Disk, p: Proc, h: History, launched: seq<string>, a: string, act: Action)
    requires DiskOk(d, h) && ProcOk(p, d, h, launched) && a in p.runs && Serving(p.op) && Enabled(ctx, p.runs[a], act)
    ensures a in d.runs
    ensures var d' := SetRun(d, a, AfterDisk(ctx, p.runs[a], d.runs[a], act));
            DiskOk(d', h) && ProcOk(p.(runs := p.runs[a := AfterMemory(ctx, p.runs[a], act)]), d', h, launched)
  {
    assert RunOk(p.runs[a], a, d, h) && RunDirOk(d.runs[a], a, h);
    ActionKeepsEvidence(ctx, d, p.runs[a], a, act, h);
    RunChangeKeeps(d, p, h, launched, a, AfterDisk(ctx, p.runs[a], d.runs[a], act), AfterMemory(ctx, p.runs[a], act));
  }

  /** One live run and its directory change together. */
  lemma RunChangeKeeps(
      d: Disk, p: Proc, h: History, launched: seq<string>, a: string, dir: Dir, run: Run)
    requires DiskOk(d, h) && ProcOk(p, d, h, launched) && a in p.runs && a in d.runs && Serving(p.op)
    requires RequestFile in d.runs[a] && RequestFile in dir && RunDirOk(dir, a, h) && RunOk(run, a, d, h)
    ensures DiskOk(SetRun(d, a, dir), h) && ProcOk(p.(runs := p.runs[a := run]), SetRun(d, a, dir), h, launched)
  {
    RunWrite(d, a, dir, h);
    SetLiveKeeps(d, p, p.(runs := p.runs[a := run]), h, launched, launched, a, run);
    ProcFrame(p.(runs := p.runs[a := run]), d, SetRun(d, a, dir), h, launched);
  }

  /** A thread gets to its work once. */
  lemma RunActKeepsHistory(ctx: Ctx, w: World, p: Proc, a: string, act: Action)
    requires HistoryOk(w) && w.proc == Some(p) && a in p.runs && Enabled(ctx, p.runs[a], act) && act != Spawn
    ensures HistoryOk(w.(proc := Some(p.(runs := p.runs[a := AfterMemory(ctx, p.runs[a], act)])),
                         worked := w.worked + if act == CallRunner then [a] else []))
  {
  }

  lemma RunActKeeps(ctx: Ctx, w: World, p: Proc, a: string, act: Action)
    requires Inv(w) && w.proc == Some(p) && Ready(ctx, w.disk, p, w.admitted, RunAct(a, act))
    ensures Inv(Work(ctx, w, p, RunAct(a, act)))
  {
    RunActKeepsProc(ctx, w.disk, p, w.admitted, w.launched, a, act);
    RunActKeepsHistory(ctx, w, p, a, act);
  }

  // ----- reconciliation -----

  lemma ReconcileKeeps(ctx: Ctx, w: World, p: Proc, a: string, t: Tombstone)
    requires Inv(w) && w.proc == Some(p) && Ready(ctx, w.disk, p, w.admitted, Reconcile(a, t))
    ensures Inv(Work(ctx, w, p, Reconcile(a, t)))
  {
    AsideWriteKeeps(w.disk, p, Reconciling(a, t), w.admitted, w.launched, a,
        w.disk.quarantined[a][Tmp(TombstoneFile) := Blob]);
  }

  /** Lifting the ambiguity of a name leaves its identity tombstoned under both ids. */
  lemma LiftAmbiguity(d: Disk, d': Disk, p: Proc, h: History, launched: seq<string>)
    requires ProcOk(p, d, h, launched) && p.op.Reconciling? && d'.runs == d.runs
    ensures ProcOk(Register(p, p.op.tombstone).(ambiguous := p.ambiguous - {p.op.name}, op := Retiring(p.op.name)),
                   d', h, launched)
  {
    var p' := Register(p, p.op.tombstone).(ambiguous := p.ambiguous - {p.op.name}, op := Retiring(p.op.name));
    forall b | b in h ensures Covered(p', b, h[b]) { assert Covered(p, b, h[b]) || Excused(p.op, d, b); }
    forall b | b in p'.runs ensures RunOk(p'.runs[b], b, d', h) { assert RunOk(p.runs[b], b, d, h); }
  }

  lemma WriteReconciledKeeps(ctx: Ctx, w: World, p: Proc)
    requires Inv(w) && w.proc == Some(p) && Ready(ctx, w.disk, p, w.admitted, WriteReconciled)
    ensures Inv(Work(ctx, w, p, WriteReconciled))
  {
    PutTombstoneKeeps(w.disk, w.admitted, p.op.name, p.op.tombstone);
    LiftAmbiguity(w.disk, PutTombstone(w.disk, p.op.name, p.op.tombstone), p, w.admitted, w.launched);
  }

  lemma RetireMarkerKeeps(ctx: Ctx, w: World, p: Proc)
    requires Inv(w) && w.proc == Some(p) && Ready(ctx, w.disk, p, w.admitted, RetireMarker)
    ensures Inv(Work(ctx, w, p, RetireMarker))
  {
    var d' := w.disk.(markers := w.disk.markers - {p.op.name});
    MarkersDoNotMatter(w.disk, d', p, w.admitted, w.launched);
    var p' := p.(op := Free);
    forall b | b in w.admitted ensures Covered(p', b, w.admitted[b]) {
      assert Covered(p, b, w.admitted[b]) || Excused(p.op, d', b);
    }
  }

  // ----- every step -----

  lemma RecoveryStepKeeps(ctx: Ctx, w: World, p: Proc, s: Step)
    requires Inv(w) && w.proc == Some(p) && Ready(ctx, w.disk, p, w.admitted, s)
    requires IsRecoveryStep(s)
    ensures Inv(Work(ctx, w, p, s))
  {
    match s
    case ReadTombstone(a) => ReadTombstoneKeeps(p, w.disk, w.admitted, w.launched, a);
    case ReadMarkers => ReadMarkersKeeps(p, w.disk, w.admitted, w.launched);
    case StageCompaction(a) => StageCompactionKeeps(w.disk, p, w.admitted, w.launched, a);
    case RenameCompaction(a) => RenameCompactionKeeps(ctx, w.disk, p, w.admitted, w.launched, a);
    case LoadOrMove(a) => LoadOrMoveKeeps(ctx, w, p, a);
    case FinishLoad => FinishLoadKeeps(ctx, w, p);
  }

  lemma QuarantineStepKeeps(ctx: Ctx, w: World, p: Proc, s: Step)
    requires Inv(w) && w.proc == Some(p) && Ready(ctx, w.disk, p, w.admitted, s)
    requires IsQuarantineStep(s)
    ensures Inv(Work(ctx, w, p, s))
  {
    match s
    case StageRecord => StageRecordKeeps(ctx, w, p);
    case WriteRecord => WriteRecordKeeps(ctx, w, p);
    case RecoverIdentity => RecoverIdentityKeeps(ctx, w, p);
    case WriteTombstone => WriteTombstoneKeeps(ctx, w, p);
    case WriteMarker => WriteMarkerKeeps(ctx, w, p);
  }

  lemma AdmissionStepKeeps(ctx: Ctx, w: World, p: Proc, s: Step)
    requires Inv(w) && w.proc == Some(p) && Ready(ctx, w.disk, p, w.admitted, s)
    requires s.Admit? || s.StageRequest? || s.WriteRequest? || s.Publish? || s.Launch? || s.RunAct?
    ensures Inv(Work(ctx, w, p, s))
  {
    match s
    case Admit(q) => AdmitKeeps(ctx, w, p, q);
    case StageRequest => StageRequestKeeps(ctx, w, p);
    case WriteRequest => WriteRequestKeeps(ctx, w, p);
    case Publish(note) => PublishKeeps(ctx, w, p, note);
    case Launch => LaunchKeeps(ctx, w, p);
    case RunAct(a, act) => RunActKeeps(ctx, w, p, a, act);
  }

  lemma OperatorStepKeeps(ctx: Ctx, w: World, p: Proc, s: Step)
    requires Inv(w) && w.proc == Some(p) && Ready(ctx, w.disk, p, w.admitted, s)
    requires IsOperatorStep(s)
    ensures Inv(Work(ctx, w, p, s))
  {
    match s
    case Reconcile(a, t) => ReconcileKeeps(ctx, w, p, a, t);
    case WriteReconciled => WriteReconciledKeeps(ctx, w, p);
    case RetireMarker => RetireMarkerKeeps(ctx, w, p);
  }

  /** Which group a step of the running process belongs to. */
  predicate IsRecoveryStep(s: Step)
  {
    || s.ReadTombstone? || s.ReadMarkers? || s.StageCompaction? || s.RenameCompaction? || s.LoadOrMove?
    || s.FinishLoad?
  }

  predicate IsQuarantineStep(s: Step)
  {
    s.StageRecord? || s.WriteRecord? || s.RecoverIdentity? || s.WriteTombstone? || s.WriteMarker?
  }

  predicate IsOperatorStep(s: Step) { s.Reconcile? || s.WriteReconciled? || s.RetireMarker? }

  lemma WorkKeeps(ctx: Ctx, w: World, p: Proc, s: Step)
    requires Inv(w) && w.proc == Some(p) && Ready(ctx, w.disk, p, w.admitted, s) && s != Crash
    ensures Inv(Work(ctx, w, p, s))
  {
    if IsRecoveryStep(s) {
      RecoveryStepKeeps(ctx, w, p, s);
    } else if IsQuarantineStep(s) {
      QuarantineStepKeeps(ctx, w, p, s);
    } else if IsOperatorStep(s) {
      OperatorStepKeeps(ctx, w, p, s);
    } else {
      AdmissionStepKeeps(ctx, w, p, s);
    }
  }

  lemma StepKeeps(ctx: Ctx, w: World, s: Step)
    requires Inv(w) && Possible(ctx, w, s)
    ensures Inv(Next(ctx, w, s))
  {
    if s.Boot? {
      BootKeeps(ctx, w);
    } else if s.CorruptRun? {
      CorruptRunKeeps(ctx, w, s);
    } else if s.CorruptQuarantined? {
      CorruptQuarantinedKeeps(ctx, w, s);
    } else if s != Crash {
      WorkKeeps(ctx, w, w.proc.value, s);
    }
  }

  lemma {:induction false} RunKeeps(ctx: Ctx, worlds: seq<World>, steps: seq<Step>, n: nat)
    requires IsRun(ctx, worlds, steps) && n < |worlds|
    ensures Inv(worlds[n])
  {
    if n > 0 {
      RunKeeps(ctx, worlds, steps, n - 1);
      StepKeeps(ctx, worlds[n - 1], steps[n - 1]);
    }
  }

  // ----- the theorems -----

  /** Over every run, no assignment id and no envelope id is launched twice, and no
      contained work is run twice. */
  lemma AtMostOneLaunch(ctx: Ctx, worlds: seq<World>, steps: seq<Step>, n: nat)
    requires IsRun(ctx, worlds, steps) && n < |worlds|
    ensures var w := worlds[n];
            && Distinct(w.launched) && Distinct(w.worked)
            && (forall a | a in w.worked :: a in w.launched)
            && (forall a | a in w.launched :: a in w.admitted)
            && (forall i, j | 0 <= i < j < |w.launched| :: w.admitted[w.launched[i]] != w.admitted[w.launched[j]])
  {
    RunKeeps(ctx, worlds, steps, n);
  }

  /** Whenever the service is idle, every identity ever launched is live, or
      tombstoned under both its ids, or holds the root ambiguous - so a second
      request for it is refused. */
  lemma LaunchedIsRefused(ctx: Ctx, worlds: seq<World>, steps: seq<Step>, n: nat, a: string, q: Request)
    requires IsRun(ctx, worlds, steps) && n < |worlds| && worlds[n].proc.Some? && worlds[n].proc.value.op == Free
    requires a in worlds[n].launched
    ensures a in worlds[n].admitted && Covered(worlds[n].proc.value, a, worlds[n].admitted[a])
    ensures q.assignmentId == a || q.envelopeId == worlds[n].admitted[a] ==>
              !Admissible(worlds[n].proc.value, worlds[n].disk, q)
  {
    RunKeeps(ctx, worlds, steps, n);
    var w := worlds[n];
    if Admissible(w.proc.value, w.disk, q) {
      AdmissibleIsUnused(w.proc.value, w.disk, w.admitted, w.launched, q);
    }
  }

  lemma ReachableIsSafe(ctx: Ctx, intact: bool, w: World)
    requires Reachable(ctx, intact, w)
    ensures Inv(w)
  {
    var worlds, steps :| EndsIn(ctx, worlds, steps, w);
    RunKeeps(ctx, worlds, steps, |worlds| - 1);
  }
}
