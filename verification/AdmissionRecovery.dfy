/** With crashes but no damaged files, every durably admitted assignment comes back
    live after every restart and is never quarantined. */
module AdmissionRecovery {
  import opened Options
  import opened EventLog
  import opened RunJournal
  import opened Admission
  import opened AdmissionSafety

  // ----- the invariant -----

  /** The directory agrees with some state of the run admitted under its name. */
  ghost predicate Recoverable(ctx: Ctx, dir: Dir)
  {
    exists run :: Agrees(ctx, dir, run)
  }

  /** No quarantined directory ever held a request. */
  ghost predicate NothingAside(d: Disk)
  {
    forall a | a in d.quarantined :: RequestFile !in d.quarantined[a]
  }

  ghost predicate Intact(ctx: Ctx, d: Disk, h: History)
  {
    && (forall a | a in h :: a in d.runs && Recoverable(ctx, d.runs[a]))
    && NothingAside(d)
  }

  ghost predicate LiveOk(ctx: Ctx, p: Proc, d: Disk)
  {
    forall a | a in p.runs :: a in d.runs && Agrees(ctx, d.runs[a], p.runs[a]) && ThreadOk(p.runs[a])
  }

  /** Every admitted id is live, except those recovery has yet to reach. */
  ghost predicate AllLive(p: Proc, h: History)
  {
    forall a | a in h ::
      a in p.runs || a in Todo(p.op) || p.op.ReadingTombstones? || (p.op.Durable? && a == p.op.request.assignmentId)
  }

  function Blank(q: Request): (run: Run) { Run(q, [], None, false, false, false, NoThread, Idle) }

  /** A request that was just made durable is all its directory holds. */
  ghost predicate DurableOk(ctx: Ctx, p: Proc, d: Disk)
  {
    p.op.Durable? ==>
      p.op.request.assignmentId in d.runs && Agrees(ctx, d.runs[p.op.request.assignmentId], Blank(p.op.request))
  }

  ghost predicate Fine(ctx: Ctx, d: Disk, p: Proc, h: History)
  {
    Intact(ctx, d, h) && LiveOk(ctx, p, d) && AllLive(p, h) && DurableOk(ctx, p, d)
  }

  ghost predicate Good(ctx: Ctx, w: World)
  {
    && Inv(w)
    && Intact(ctx, w.disk, w.admitted)
    && (w.proc.Some? ==> Fine(ctx, w.disk, w.proc.value, w.admitted))
  }

  // ----- frames -----

  /** Steps that write no run directory and change neither the live table nor what is left to read. */
  lemma Undisturbed(ctx: Ctx, d: Disk, d': Disk, p: Proc, p': Proc, h: History)
    requires Fine(ctx, d, p, h) && d'.runs == d.runs && p'.runs == p.runs && !p'.op.Durable?
    requires NothingAside(d')
    requires forall a | a in h :: a in p.runs || p'.op.ReadingTombstones? || a in Todo(p'.op)
    ensures Fine(ctx, d', p', h)
  {
    assert Intact(ctx, d', h) by {
      forall a | a in h ensures a in d'.runs && Recoverable(ctx, d'.runs[a]) {
        assert a in d.runs && Recoverable(ctx, d.runs[a]);
      }
    }
    assert LiveOk(ctx, p', d') by {
      forall a | a in p'.runs ensures a in d'.runs && Agrees(ctx, d'.runs[a], p'.runs[a]) && ThreadOk(p'.runs[a]) {
        assert a in p.runs && a in d.runs;
      }
    }
  }

  /** One run directory changes while its live run, if any, keeps agreeing with it. */
  lemma RunDirectoryWrite(ctx: Ctx, d: Disk, p: Proc, p': Proc, h: History, a: string, dir: Dir)
    requires Fine(ctx, d, p, h) && AllLive(p', h)
        && (p'.op.Durable? ==> p'.op == p.op && p.op.request.assignmentId != a)
    requires a in h ==> Recoverable(ctx, dir)
    requires forall b | b in p'.runs && b != a :: b in p.runs && p'.runs[b] == p.runs[b]
    requires a in p'.runs ==> Agrees(ctx, dir, p'.runs[a]) && ThreadOk(p'.runs[a])
    ensures Fine(ctx, SetRun(d, a, dir), p', h)
  {
    var d' := SetRun(d, a, dir);
    assert Intact(ctx, d', h) by {
      forall b | b in h ensures b in d'.runs && Recoverable(ctx, d'.runs[b]) {
        assert b in d.runs && Recoverable(ctx, d.runs[b]);
      }
    }
    assert LiveOk(ctx, p', d') by {
      forall b | b in p'.runs ensures b in d'.runs && Agrees(ctx, d'.runs[b], p'.runs[b]) && ThreadOk(p'.runs[b]) {
        assert b != a ==> b in p.runs && b in d.runs;
      }
    }
    assert DurableOk(ctx, p', d');
  }

  // ----- recovery -----

  /** A recoverable directory loads, and the loaded run agrees with what is left on disk. */
  lemma LoadsAgain(ctx: Ctx, dir: Dir)
    requires Lawful(ctx.codec) && Recoverable(ctx, dir)
    ensures LoadRun(ctx, dir).Some? && ThreadOk(LoadRun(ctx, dir).value)
    ensures Agrees(ctx, Compacted(ctx, dir), LoadRun(ctx, dir).value)
  {
    var run :| Agrees(ctx, dir, run);
    CrashedRunLoads(ctx, dir, run);
  }

  lemma CompactedIsRecoverable(ctx: Ctx, dir: Dir)
    requires Lawful(ctx.codec) && Recoverable(ctx, dir)
    ensures Recoverable(ctx, Compacted(ctx, dir))
  {
    LoadsAgain(ctx, dir);
  }

  lemma TmpKeepsRecoverable(ctx: Ctx, dir: Dir)
    requires Recoverable(ctx, dir)
    ensures Recoverable(ctx, dir[Tmp(EventsFile) := Blob])
  {
    var run :| Agrees(ctx, dir, run);
    OtherFilesKeepAgreement(ctx, dir, dir[Tmp(EventsFile) := Blob], run, run);
  }

  /** The loaded run joins the live table. */
  lemma JoinsLive(ctx: Ctx, d: Disk, p: Proc, h: History, a: string, run: Run)
    requires Fine(ctx, d, p, h) && p.op.ReadingRuns? && a in d.runs && Agrees(ctx, d.runs[a], run) && ThreadOk(run)
    ensures Fine(ctx, d, p.(runs := p.runs[a := run], op := ReadingRuns(p.op.todo - {a})), h)
  {
  }

  /** A directory that holds a request always loads. */
  lemma AdmittedLoads(ctx: Ctx, d: Disk, p: Proc, h: History, launched: seq<string>, a: string)
    requires Lawful(ctx.codec) && DiskOk(d, h) && ProcOk(p, d, h, launched) && Fine(ctx, d, p, h)
    requires p.op.ReadingRuns? && a in p.op.todo && a in d.runs && a in h && Compacted(ctx, d.runs[a]) == d.runs[a]
    ensures var (d', p') := LoadDirectory(ctx, d, p, a, p.op.todo - {a});
            Fine(ctx, d', p', h)
  {
    LoadsAgain(ctx, d.runs[a]);
    var loaded := LoadRun(ctx, d.runs[a]).value;
    assert loaded.request.assignmentId == a && a !in p.runs by { LoadKeeps(ctx, d, p, h, launched, a); }
    JoinsLive(ctx, d, p, h, a, loaded);
  }

  lemma WithoutRequest(ctx: Ctx, d: Disk, h: History, a: string)
    requires DiskOk(d, h) && a in d.runs && a !in h
    ensures RequestFile !in d.runs[a] && Compacted(ctx, d.runs[a]) == d.runs[a] && LoadRun(ctx, d.runs[a]) == None
  {
    assert RunDirOk(d.runs[a], a, h);
  }

  /** Moving aside a directory that never held a request. */
  lemma MoveAside(ctx: Ctx, d: Disk, p: Proc, h: History, a: string, op: Op)
    requires Fine(ctx, d, p, h) && p.op.ReadingRuns? && a in d.runs && a !in h && a !in p.runs
        && RequestFile !in d.runs[a]
    requires Todo(op) == p.op.todo - {a} && !op.Durable?
    ensures Fine(ctx, SetAside(d, a), p.(op := op), h)
  {
    var d', p' := SetAside(d, a), p.(op := op);
    assert Intact(ctx, d', h) by {
      forall b | b in h ensures b in d'.runs && Recoverable(ctx, d'.runs[b]) {
        assert b in d.runs && Recoverable(ctx, d.runs[b]);
      }
    }
    assert LiveOk(ctx, p', d') by {
      forall b | b in p'.runs ensures b in d'.runs && d'.runs[b] == d.runs[b] {
      }
    }
    assert AllLive(p', h);
  }

  /** A directory moved aside never held a request. */
  lemma PreAdmissionMoves(ctx: Ctx, d: Disk, p: Proc, h: History, launched: seq<string>, a: string)
    requires DiskOk(d, h) && ProcOk(p, d, h, launched) && Fine(ctx, d, p, h)
    requires p.op.ReadingRuns? && a in p.op.todo && a in d.runs && a !in h
    ensures var (d', p') := LoadDirectory(ctx, d, p, a, p.op.todo - {a});
            Fine(ctx, d', p', h)
  {
    WithoutRequest(ctx, d, h, a);
    assert a !in p.runs;
    var dir, todo := d.runs[a], p.op.todo - {a};
    if a in d.quarantined {
      Undisturbed(ctx, d, d, p, p.(ambiguous := p.ambiguous + {a}, op := Marking(a, todo)), h);
    } else {
      MoveAside(ctx, d, p, h, a, Moved(a, PreAdmission(dir), todo));
    }
  }

  lemma LoadOrMoveFine(ctx: Ctx, w: World, p: Proc, a: string)
    requires Lawful(ctx.codec) && Good(ctx, w) && w.proc == Some(p) && Ready(ctx, w.disk, p, w.admitted, LoadOrMove(a))
    ensures Good(ctx, Work(ctx, w, p, LoadOrMove(a)))
  {
    LoadOrMoveKeeps(ctx, w, p, a);
    if a in w.admitted {
      AdmittedLoads(ctx, w.disk, p, w.admitted, w.launched, a);
    } else {
      PreAdmissionMoves(ctx, w.disk, p, w.admitted, w.launched, a);
    }
  }

  /** Recovery rewrites a directory it has not looked at yet. */
  lemma CompactionWrite(ctx: Ctx, w: World, p: Proc, a: string, dir: Dir)
    requires Good(ctx, w) && w.proc == Some(p) && p.op.ReadingRuns? && a in p.op.todo && a in w.disk.runs
    requires var d' := SetRun(w.disk, a, dir); DiskOk(d', w.admitted) && ProcOk(p, d', w.admitted, w.launched)
    requires a in w.admitted ==> Recoverable(ctx, dir)
    ensures Good(ctx, w.(disk := SetRun(w.disk, a, dir)))
  {
    RunDirectoryWrite(ctx, w.disk, p, p, w.admitted, a, dir);
  }

  lemma StageCompactionFine(ctx: Ctx, w: World, p: Proc, a: string)
    requires Good(ctx, w) && w.proc == Some(p) && Ready(ctx, w.disk, p, w.admitted, StageCompaction(a))
    ensures Good(ctx, Work(ctx, w, p, StageCompaction(a)))
  {
    var dir := w.disk.runs[a][Tmp(EventsFile) := Blob];
    assert RequestFile in w.disk.runs[a];
    StageCompactionKeeps(w.disk, p, w.admitted, w.launched, a);
    if a in w.admitted {
      TmpKeepsRecoverable(ctx, w.disk.runs[a]);
    }
    CompactionWrite(ctx, w, p, a, dir);
  }

  lemma RenameCompactionFine(ctx: Ctx, w: World, p: Proc, a: string)
    requires Lawful(ctx.codec) && Good(ctx, w) && w.proc == Some(p)
    requires Ready(ctx, w.disk, p, w.admitted, RenameCompaction(a))
    ensures Good(ctx, Work(ctx, w, p, RenameCompaction(a)))
  {
    var dir := Compacted(ctx, w.disk.runs[a]);
    RenameCompactionKeeps(ctx, w.disk, p, w.admitted, w.launched, a);
    if a in w.admitted {
      CompactedIsRecoverable(ctx, w.disk.runs[a]);
    }
    CompactionWrite(ctx, w, p, a, dir);
  }

  lemma ReadingFine(ctx: Ctx, w: World, p: Proc, s: Step)
    requires Good(ctx, w) && w.proc == Some(p) && Ready(ctx, w.disk, p, w.admitted, s)
    requires s.ReadTombstone? || s.ReadMarkers? || s.FinishLoad?
    ensures Good(ctx, Work(ctx, w, p, s))
  {
    RecoveryStepKeeps(ctx, w, p, s);
    var p' := Work(ctx, w, p, s).proc.value;
    assert p'.runs == p.runs;
    Undisturbed(ctx, w.disk, w.disk, p, p', w.admitted);
  }

  /** With intact files recovery never has an identity to recover. */
  lemma NeverTombstones(ctx: Ctx, w: World, p: Proc)
    requires Good(ctx, w) && w.proc == Some(p)
    ensures !p.op.Recorded? && !p.op.Tombstoning? && (p.op.RecordStaged? ==> p.op.preAdmission)
  {
  }

  lemma QuarantineFine(ctx: Ctx, w: World, p: Proc, s: Step)
    requires Good(ctx, w) && w.proc == Some(p) && Ready(ctx, w.disk, p, w.admitted, s) && IsQuarantineStep(s)
    ensures Good(ctx, Work(ctx, w, p, s))
  {
    QuarantineStepKeeps(ctx, w, p, s);
    NeverTombstones(ctx, w, p);
    var w' := Work(ctx, w, p, s);
    NoRequestAside(ctx, w, p, s);
    Undisturbed(ctx, w.disk, w'.disk, p, w'.proc.value, w.admitted);
  }

  lemma NoRequestAside(ctx: Ctx, w: World, p: Proc, s: Step)
    requires NothingAside(w.disk) && AllLive(p, w.admitted) && w.proc == Some(p) && Ready(ctx, w.disk, p, w.admitted, s)
    requires s == StageRecord || s == WriteRecord || s == WriteMarker
    requires p.op.RecordStaged? ==> p.op.preAdmission
    ensures var w' := Work(ctx, w, p, s);
            && NothingAside(w'.disk)
            && w'.disk.runs == w.disk.runs && w'.proc.value.runs == p.runs && !w'.proc.value.op.Durable?
            && (forall a | a in w.admitted :: a in p.runs || a in Todo(w'.proc.value.op))
  {
  }

  // ----- serving -----

  lemma BlankAgrees(ctx: Ctx, q: Request, dir: Dir)
    requires dir == map[RequestFile := RequestDoc(q)]
    ensures Agrees(ctx, dir, Blank(q)) && Recoverable(ctx, dir)
  {
    assert Agrees(ctx, dir, Blank(q));
  }

  lemma AdmitsOneMore(ctx: Ctx, d: Disk, p: Proc, h: History, q: Request, dir: Dir)
    requires Fine(ctx, d, p, h) && p.op.Staged? && q.assignmentId !in p.runs
    requires Recoverable(ctx, dir) && Agrees(ctx, dir, Blank(q))
    ensures Fine(ctx, SetRun(d, q.assignmentId, dir), p.(op := Durable(q)), h[q.assignmentId := q.envelopeId])
  {
    var a, d', p' := q.assignmentId, SetRun(d, q.assignmentId, dir), p.(op := Durable(q));
    var h' := h[a := q.envelopeId];
    assert Intact(ctx, d', h') by {
      forall b | b in h' ensures b in d'.runs && Recoverable(ctx, d'.runs[b]) {
        assert b != a ==> b in d.runs && Recoverable(ctx, d.runs[b]);
      }
    }
    assert LiveOk(ctx, p', d') by {
      forall b | b in p.runs ensures b in d'.runs && Agrees(ctx, d'.runs[b], p.runs[b]) && ThreadOk(p.runs[b]) {
        assert b != a && b in d.runs;
      }
    }
    assert AllLive(p', h') by {
      forall b | b in h' ensures b in p'.runs || b == a {
        assert b != a ==> b in p.runs || b in Todo(p.op);
      }
    }
  }

  /** The directory of a request just renamed into place holds nothing else. */
  lemma FreshDirectory(ctx: Ctx, d: Disk, h: History, q: Request)
    requires DiskOk(d, h) && q.assignmentId !in h && q.assignmentId in d.runs
    ensures var dir := (d.runs[q.assignmentId] - {Tmp(RequestFile)})[RequestFile := RequestDoc(q)];
            Agrees(ctx, dir, Blank(q)) && Recoverable(ctx, dir)
  {
    var a := q.assignmentId;
    var dir := (d.runs[a] - {Tmp(RequestFile)})[RequestFile := RequestDoc(q)];
    assert RunDirOk(d.runs[a], a, h);
    assert dir == map[RequestFile := RequestDoc(q)];
    BlankAgrees(ctx, q, dir);
  }

  lemma WriteRequestFine(ctx: Ctx, w: World, p: Proc)
    requires Good(ctx, w) && w.proc == Some(p) && Ready(ctx, w.disk, p, w.admitted, WriteRequest)
    ensures Good(ctx, Work(ctx, w, p, WriteRequest))
  {
    WriteRequestKeeps(ctx, w, p);
    var q := p.op.request;
    FreshDirectory(ctx, w.disk, w.admitted, q);
    AdmitsOneMore(ctx, w.disk, p, w.admitted, q,
        (w.disk.runs[q.assignmentId] - {Tmp(RequestFile)})[RequestFile := RequestDoc(q)]);
  }

  lemma NewRunAgrees(ctx: Ctx, dir: Dir, q: Request, note: string)
    requires Agrees(ctx, dir, Blank(q))
    ensures Agrees(ctx, dir, Emit(Blank(q), Admitted, note)) && ThreadOk(Emit(Blank(q), Admitted, note))
  {
    EmitKeepsAgreement(ctx, dir, Blank(q), Admitted, note);
  }

  /** The live table changes for one id; the disk does not. */
  lemma LiveChange(ctx: Ctx, d: Disk, p: Proc, h: History, a: string, run: Run, op: Op)
    requires Fine(ctx, d, p, h) && a in d.runs && Agrees(ctx, d.runs[a], run) && ThreadOk(run) && !op.Durable?
    requires Serving(p.op) && (p.op.Durable? ==> p.op.request.assignmentId == a)
    ensures Fine(ctx, d, p.(runs := p.runs[a := run], op := op), h)
  {
    var p' := p.(runs := p.runs[a := run], op := op);
    assert LiveOk(ctx, p', d) by {
      forall b | b in p'.runs ensures b in d.runs && Agrees(ctx, d.runs[b], p'.runs[b]) && ThreadOk(p'.runs[b]) {
        assert b != a ==> b in p.runs;
      }
    }
    assert AllLive(p', h) by {
      forall b | b in h ensures b in p'.runs {
        assert b in p.runs || b in Todo(p.op) || p.op.ReadingTombstones? || (p.op.Durable? && b == a);
      }
    }
  }

  lemma GoesLive(ctx: Ctx, d: Disk, p: Proc, h: History, note: string)
    requires Fine(ctx, d, p, h) && p.op.Durable?
    ensures var q := p.op.request;
            Fine(ctx, d, p.(runs := p.runs[q.assignmentId := Emit(Blank(q), Admitted, note)], op := Announcing(q)), h)
  {
    var q := p.op.request;
    NewRunAgrees(ctx, d.runs[q.assignmentId], q, note);
    LiveChange(ctx, d, p, h, q.assignmentId, Emit(Blank(q), Admitted, note), Announcing(q));
  }

  lemma PublishFine(ctx: Ctx, w: World, p: Proc, note: string)
    requires Good(ctx, w) && w.proc == Some(p) && Ready(ctx, w.disk, p, w.admitted, Publish(note))
    ensures Good(ctx, Work(ctx, w, p, Publish(note)))
  {
    PublishKeeps(ctx, w, p, note);
    GoesLive(ctx, w.disk, p, w.admitted, note);
  }

  lemma ActAgrees(ctx: Ctx, dir: Dir, run: Run, act: Action)
    requires Agrees(ctx, dir, run) && ThreadOk(run) && Enabled(ctx, run, act)
    ensures Agrees(ctx, AfterDisk(ctx, run, dir, act), AfterMemory(ctx, run, act))
        && ThreadOk(AfterMemory(ctx, run, act))
    ensures Recoverable(ctx, AfterDisk(ctx, run, dir, act))
  {
    ActionKeepsAgreement(ctx, dir, run, act);
    ActionKeepsThread(ctx, run, act);
  }

  /** A region of one run, with the write it makes. */
  lemma ActFine(ctx: Ctx, d: Disk, p: Proc, h: History, a: string, act: Action)
    requires Fine(ctx, d, p, h) && a in p.runs && a in d.runs && Enabled(ctx, p.runs[a], act)
    requires p.op.Durable? ==> p.op.request.assignmentId != a
    ensures var p' := p.(runs := p.runs[a := AfterMemory(ctx, p.runs[a], act)]);
            Fine(ctx, SetRun(d, a, AfterDisk(ctx, p.runs[a], d.runs[a], act)), p', h)
  {
    ActAgrees(ctx, d.runs[a], p.runs[a], act);
    var dir, run := AfterDisk(ctx, p.runs[a], d.runs[a], act), AfterMemory(ctx, p.runs[a], act);
    RunDirectoryWrite(ctx, d, p, p.(runs := p.runs[a := run]), h, a, dir);
  }

  lemma SpawnFine(ctx: Ctx, d: Disk, p: Proc, h: History, a: string)
    requires Fine(ctx, d, p, h) && p.op.Announcing? && a in p.runs && a in d.runs && Enabled(ctx, p.runs[a], Spawn)
    ensures Fine(ctx, d, p.(runs := p.runs[a := AfterMemory(ctx, p.runs[a], Spawn)], op := Free), h)
  {
    ActAgrees(ctx, d.runs[a], p.runs[a], Spawn);
    LiveChange(ctx, d, p, h, a, AfterMemory(ctx, p.runs[a], Spawn), Free);
  }

  lemma LaunchFine(ctx: Ctx, w: World, p: Proc)
    requires Good(ctx, w) && w.proc == Some(p) && Ready(ctx, w.disk, p, w.admitted, Launch)
    ensures Good(ctx, Work(ctx, w, p, Launch))
  {
    LaunchKeeps(ctx, w, p);
    SpawnFine(ctx, w.disk, p, w.admitted, p.op.request.assignmentId);
  }

  lemma RunActFine(ctx: Ctx, w: World, p: Proc, a: string, act: Action)
    requires Good(ctx, w) && w.proc == Some(p) && Ready(ctx, w.disk, p, w.admitted, RunAct(a, act))
    ensures Good(ctx, Work(ctx, w, p, RunAct(a, act)))
  {
    RunActKeeps(ctx, w, p, a, act);
    ActFine(ctx, w.disk, p, w.admitted, a, act);
  }

  /** Before the request is durable, its directory matters to nobody. */
  lemma UnadmittedWrite(ctx: Ctx, d: Disk, p: Proc, h: History, a: string, dir: Dir, op: Op)
    requires Fine(ctx, d, p, h) && a !in h && a !in p.runs && Serving(p.op) && !p.op.Durable? && !op.Durable?
    ensures Fine(ctx, SetRun(d, a, dir), p.(op := op), h)
  {
    var p' := p.(op := op);
    assert AllLive(p', h) by {
      forall b | b in h ensures b in p'.runs {
        assert b in p.runs || b in Todo(p.op);
      }
    }
    RunDirectoryWrite(ctx, d, p, p', h, a, dir);
  }

  lemma MakingFine(ctx: Ctx, w: World, p: Proc, s: Step)
    requires Good(ctx, w) && w.proc == Some(p) && Ready(ctx, w.disk, p, w.admitted, s) && (s.Admit? || s.StageRequest?)
    ensures Good(ctx, Work(ctx, w, p, s))
  {
    AdmissionStepKeeps(ctx, w, p, s);
    if s.Admit? {
      AdmissibleIsUnused(p, w.disk, w.admitted, w.launched, s.request);
      UnadmittedWrite(ctx, w.disk, p, w.admitted, s.request.assignmentId, map[], Making(s.request));
    } else {
      var a := p.op.request.assignmentId;
      UnadmittedWrite(ctx, w.disk, p, w.admitted, a, w.disk.runs[a][Tmp(RequestFile) := Blob], Staged(p.op.request));
    }
  }

  lemma OperatorFine(ctx: Ctx, w: World, p: Proc, s: Step)
    requires Good(ctx, w) && w.proc == Some(p) && Ready(ctx, w.disk, p, w.admitted, s) && IsOperatorStep(s)
    ensures Good(ctx, Work(ctx, w, p, s))
  {
    OperatorStepKeeps(ctx, w, p, s);
    OperatorTouchesNoRun(ctx, w, p, s);
    var w' := Work(ctx, w, p, s);
    Undisturbed(ctx, w.disk, w'.disk, p, w'.proc.value, w.admitted);
  }

  lemma OperatorTouchesNoRun(ctx: Ctx, w: World, p: Proc, s: Step)
    requires NothingAside(w.disk) && AllLive(p, w.admitted)
    requires w.proc == Some(p) && Ready(ctx, w.disk, p, w.admitted, s) && IsOperatorStep(s)
    ensures var w' := Work(ctx, w, p, s);
            && NothingAside(w'.disk)
            && w'.disk.runs == w.disk.runs && w'.proc.value.runs == p.runs && !w'.proc.value.op.Durable?
            && (forall a | a in w.admitted :: a in p.runs)
  {
  }

  // ----- every step, every run -----

  lemma ServingFine(ctx: Ctx, w: World, p: Proc, s: Step)
    requires Good(ctx, w) && w.proc == Some(p) && Ready(ctx, w.disk, p, w.admitted, s)
    requires s.Admit? || s.StageRequest? || s.WriteRequest? || s.Publish? || s.Launch? || s.RunAct?
    ensures Good(ctx, Work(ctx, w, p, s))
  {
    if s.RunAct? {
      RunActFine(ctx, w, p, s.id, s.action);
    } else if s.Launch? {
      LaunchFine(ctx, w, p);
    } else if s.Publish? {
      PublishFine(ctx, w, p, s.note);
    } else if s.WriteRequest? {
      WriteRequestFine(ctx, w, p);
    } else {
      MakingFine(ctx, w, p, s);
    }
  }

  lemma WorkFine(ctx: Ctx, w: World, p: Proc, s: Step)
    requires Lawful(ctx.codec) && Good(ctx, w) && w.proc == Some(p) && Ready(ctx, w.disk, p, w.admitted, s)
        && s != Crash
    ensures Good(ctx, Work(ctx, w, p, s))
  {
    if s.LoadOrMove? {
      LoadOrMoveFine(ctx, w, p, s.name);
    } else if s.StageCompaction? {
      StageCompactionFine(ctx, w, p, s.name);
    } else if s.RenameCompaction? {
      RenameCompactionFine(ctx, w, p, s.name);
    } else if IsRecoveryStep(s) {
      ReadingFine(ctx, w, p, s);
    } else if IsQuarantineStep(s) {
      QuarantineFine(ctx, w, p, s);
    } else if IsOperatorStep(s) {
      OperatorFine(ctx, w, p, s);
    } else {
      ServingFine(ctx, w, p, s);
    }
  }

  lemma StepFine(ctx: Ctx, w: World, s: Step)
    requires Lawful(ctx.codec) && Good(ctx, w) && Possible(ctx, w, s) && !IsDamage(s)
    ensures Good(ctx, Next(ctx, w, s))
  {
    if s.Boot? {
      BootKeeps(ctx, w);
    } else if s != Crash {
      WorkFine(ctx, w, w.proc.value, s);
    }
  }

  lemma {:induction false} RunFine(ctx: Ctx, worlds: seq<World>, steps: seq<Step>, n: nat)
    requires Lawful(ctx.codec) && IsRun(ctx, worlds, steps) && n < |worlds|
    requires forall i | 0 <= i < n :: !IsDamage(steps[i])
    ensures Good(ctx, worlds[n])
  {
    if n > 0 {
      RunFine(ctx, worlds, steps, n - 1);
      StepFine(ctx, worlds[n - 1], steps[n - 1]);
    }
  }

  /** As long as no file was damaged: whenever the service is idle every durably
      admitted id is live, its log numbered without gaps and its files in step with
      memory; and nothing that ever held a request is quarantined. */
  lemma AdmittedStaysLive(ctx: Ctx, worlds: seq<World>, steps: seq<Step>, n: nat)
    requires Lawful(ctx.codec) && IsRun(ctx, worlds, steps) && n < |worlds|
    requires forall i | 0 <= i < n :: !IsDamage(steps[i])
    ensures var w := worlds[n];
            && NothingAside(w.disk)
            && (w.proc.Some? && w.proc.value.op == Free ==>
                  forall a | a in w.admitted ::
                    && a in w.proc.value.runs && a in w.disk.runs
                    && w.proc.value.runs[a].request.envelopeId == w.admitted[a]
                    && Contiguous(w.proc.value.runs[a].events, a)
                    && Agrees(ctx, w.disk.runs[a], w.proc.value.runs[a]))
  {
    RunFine(ctx, worlds, steps, n);
    var w := worlds[n];
    if w.proc.Some? && w.proc.value.op == Free {
      forall a | a in w.admitted
        ensures a in w.proc.value.runs && a in w.disk.runs && RunOk(w.proc.value.runs[a], a, w.disk, w.admitted)
                && Agrees(ctx, w.disk.runs[a], w.proc.value.runs[a])
      {
      }
    }
  }
}
