/** The service object.  Its methods make their disk writes and memory updates in the
    order the service does; each write is a method of its own that is proved to be a
    step of the admission protocol, so wherever the process dies the state root is
    one the safety theorems speak about. */
module AssignmentService {
  import opened Options
  import opened Utf8
  import opened EventLog
  import opened RunJournal
  import opened Admission
  import opened AdmissionSafety
  import Admissibility
  import AdmissionMemory
  import Reconciliation
  import ServiceJourneys
  import Journey

  /** The directory with bytes appended to its log. */
  function WithLog(dir: Dir, b: seq<byte>): (r: Dir)
  {
    if b == [] then dir else dir[EventsFile := LogBytes(LogOf(dir) + b)]
  }

  lemma LogGrows(d: Disk, id: string, x: byte, rest: seq<byte>)
    requires id in d.runs
    ensures var dir := WithLog(d.runs[id], [x]);
            SetRun(SetRun(d, id, dir), id, WithLog(dir, rest)) == SetRun(d, id, WithLog(d.runs[id], [x] + rest))
  {
    var dir := d.runs[id];
    var one := dir[EventsFile := LogBytes(LogOf(dir) + [x])];
    assert LogOf(one) + rest == LogOf(dir) + ([x] + rest);
    assert one[EventsFile := LogBytes(LogOf(one) + rest)] == dir[EventsFile := LogBytes(LogOf(one) + rest)];
    if rest == [] {
      assert [x] + rest == [x];
    }
    assert d.runs[id := one][id := WithLog(one, rest)] == d.runs[id := WithLog(one, rest)];
  }

  lemma Overwrite(m: map<string, Run>, id: string, x: Run, y: Run)
    ensures m[id := x][id := y] == m[id := y]
  {
  }

  lemma Rewritten(d: Disk, a: string, x: Dir, y: Dir)
    ensures SetRun(SetRun(d, a, x), a, y) == SetRun(d, a, y)
  {
    assert d.runs[a := x][a := y] == d.runs[a := y];
  }

  lemma AnnouncedDisk(ctx: Ctx, d: Disk, q: Request, e: Event)
    ensures var a, dir := q.assignmentId, map[RequestFile := RequestDoc(q)];
            SetRun(SetRun(d, a, dir), a, WithLog(dir, Line(ctx.codec, e))) == SetRun(d, a, Announced(ctx, q, e))
  {
    var a, dir: Dir := q.assignmentId, map[RequestFile := RequestDoc(q)];
    assert LogOf(dir) + Line(ctx.codec, e) == Line(ctx.codec, e);
    assert WithLog(dir, Line(ctx.codec, e)) == Announced(ctx, q, e);
    assert d.runs[a := dir][a := Announced(ctx, q, e)] == d.runs[a := Announced(ctx, q, e)];
  }

  /** The run once its pending line is complete. */
  ghost function Written(ctx: Ctx, run: Run): (r: Run)
    requires run.pending.Appending?
  {
    run.(pending := run.pending.(written := |Line(ctx.codec, run.pending.event)|))
  }

  function Closed(run: Run): (r: Run)
    requires run.pending.Appending?
  {
    run.(pending := if run.pending.closing then Persisting(0) else Idle)
  }

  /** What `start` leaves on disk: the request, and a log of the one event. */
  function Announced(ctx: Ctx, q: Request, e: Event): (dir: Dir)
  {
    map[RequestFile := RequestDoc(q), EventsFile := LogBytes(Line(ctx.codec, e))]
  }

  /** The files of a run after each of the four writes that conclude it. */
  function PersistStage(dir: Dir, stage: nat, r: Receipt): (d: Dir)
  {
    if stage == 0 then dir[Tmp(TerminalFile) := Blob]
    else if stage == 1 then (dir - {Tmp(TerminalFile)})[TerminalFile := Blob]
    else if stage == 2 then dir[Tmp(ReceiptFile) := Blob]
    else (dir - {Tmp(ReceiptFile)})[ReceiptFile := ReceiptDoc(r)]
  }

  /** And after all of them. */
  function Persisted(dir: Dir, r: Receipt): (d: Dir)
  {
    (dir - {Tmp(TerminalFile), Tmp(ReceiptFile)})[TerminalFile := Blob][ReceiptFile := ReceiptDoc(r)]
  }

  lemma PersistedDisk(d: Disk, id: string, r: Receipt)
    requires id in d.runs
    ensures var dir := d.runs[id];
            var first := (dir[Tmp(TerminalFile) := Blob] - {Tmp(TerminalFile)})[TerminalFile := Blob];
            var e := SetRun(SetRun(d, id, dir[Tmp(TerminalFile) := Blob]), id, first);
            SetRun(SetRun(e, id, first[Tmp(ReceiptFile) := Blob]), id,
                   (first[Tmp(ReceiptFile) := Blob] - {Tmp(ReceiptFile)})[ReceiptFile := ReceiptDoc(r)])
            == SetRun(d, id, Persisted(dir, r))
  {
    var dir := d.runs[id];
    var staged := dir[Tmp(TerminalFile) := Blob];
    var first := (staged - {Tmp(TerminalFile)})[TerminalFile := Blob];
    var last := (first[Tmp(ReceiptFile) := Blob] - {Tmp(ReceiptFile)})[ReceiptFile := ReceiptDoc(r)];
    assert last == Persisted(dir, r);
    Rewritten(d, id, staged, first);
    Rewritten(d, id, first, first[Tmp(ReceiptFile) := Blob]);
    Rewritten(d, id, first[Tmp(ReceiptFile) := Blob], last);
  }

  class Service {
    const ctx: Ctx
    /** Whether every run the service may have come out of was one without damage. */
    ghost const intact: bool
    var disk: Disk
    var runs: map<string, Run>
    var tombstones: map<string, Tombstone>
    var envelopeTombstones: map<string, string>
    var ambiguous: set<string>

    ghost var op: Op
    ghost var admitted: map<string, string>
    ghost var launched: seq<string>
    ghost var worked: seq<string>
    ghost var reconciled: set<Tombstone>

    ghost function Memory(): (p: Proc) reads this { Proc(runs, tombstones, envelopeTombstones, ambiguous, op) }

    ghost function Now(): (w: World) reads this { World(disk, Some(Memory()), admitted, launched, worked, reconciled) }

    ghost predicate Valid()
      reads this
    {
      Reachable(ctx, intact, Now())
    }

    method RegisterTombstone(t: Tombstone)
      modifies this`tombstones, this`envelopeTombstones
      ensures Memory() == Register(old(Memory()), t)
    {
      tombstones := tombstones[t.assignmentId := t];
      if t.envelopeId !in envelopeTombstones {
        envelopeTombstones := envelopeTombstones[t.envelopeId := t.assignmentId];
      }
    }

    // ----- _load_durable_state -----

    /** A new process over whatever the last one left behind.  Directories are visited
        in any order; afterwards no identity ever launched can be admitted again. */
    constructor (
      ctx: Ctx, ghost intact: bool, disk: Disk, ghost admitted: map<string, string>, ghost launched: seq<string>,
      ghost worked: seq<string>, ghost reconciled: set<Tombstone>)
      requires Lawful(ctx.codec)
      requires Reachable(ctx, intact, World(disk, None, admitted, launched, worked, reconciled))
      ensures this.ctx == ctx && this.intact == intact && Valid() && op == Free
      ensures this.admitted == admitted && this.launched == launched && this.worked == worked
      ensures this.reconciled == reconciled
      ensures forall a | a in launched :: a in admitted && Covered(Memory(), a, admitted[a])
    {
      this.ctx, this.intact, this.disk := ctx, intact, disk;
      runs, tombstones, envelopeTombstones, ambiguous := map[], map[], map[], {};
      op := ReadingTombstones(disk.quarantined.Keys);
      this.admitted, this.launched, this.worked := admitted, launched, worked;
      this.reconciled := reconciled;
      new;
      BootIsReachable(disk, admitted, launched, worked, reconciled);
      LoadDurableState();
    }

    method LoadDurableState()
      requires Lawful(ctx.codec) && Valid() && op == ReadingTombstones(disk.quarantined.Keys)
      modifies this`disk, this`runs, this`tombstones, this`envelopeTombstones, this`ambiguous, this`op
      ensures Valid() && op == Free && forall a | a in launched :: a in admitted && Covered(Memory(), a, admitted[a])
    {
      ReadTombstones();
      ReadMarkerFiles();
      ReadRunDirectories();
      FinishLoading();
      IdleCoversLaunched(Now());
    }

    lemma BootIsReachable(disk: Disk, admitted: map<string, string>, launched: seq<string>, worked: seq<string>,
        reconciled: set<Tombstone>)
      requires Reachable(ctx, intact, World(disk, None, admitted, launched, worked, reconciled))
      ensures var p := Proc(map[], map[], map[], {}, ReadingTombstones(disk.quarantined.Keys));
              Reachable(ctx, intact, World(disk, Some(p), admitted, launched, worked, reconciled))
    {
      ReachableNext(ctx, intact, World(disk, None, admitted, launched, worked, reconciled), Boot);
    }

    lemma IdleCoversLaunched(w: World)
      requires Reachable(ctx, intact, w) && w.proc.Some? && w.proc.value.op == Free
      ensures forall a | a in w.launched :: a in w.admitted && Covered(w.proc.value, a, w.admitted[a])
    {
      ReachableIsSafe(ctx, intact, w);
    }

    method ReadTombstones()
      requires Valid() && op == ReadingTombstones(disk.quarantined.Keys)
      modifies this`tombstones, this`envelopeTombstones, this`ambiguous, this`op
      ensures Valid() && op == ReadingTombstones({})
    {
      var todo := disk.quarantined.Keys;
      while todo != {}
        invariant Valid() && op == ReadingTombstones(todo) && todo <= disk.quarantined.Keys
        decreases todo
      {
        var a :| a in todo;
        ReadOneTombstone(a, todo);
        todo := todo - {a};
      }
    }

    /** `_load_tombstone`. */
    method ReadOneTombstone(a: string, ghost todo: set<string>)
      requires Valid() && op == ReadingTombstones(todo) && a in todo && a in disk.quarantined
      modifies this`tombstones, this`envelopeTombstones, this`ambiguous, this`op
      ensures Valid() && op == ReadingTombstones(todo - {a})
    {
      var dir := disk.quarantined[a];
      if TombstoneFile !in dir {
        if exists f | f in dir :: f != QuarantineFile && f != Tmp(RequestFile) {
          ambiguous := ambiguous + {a};
        }
      } else if dir[TombstoneFile].TombstoneDoc? {
        RegisterTombstone(dir[TombstoneFile].tombstone);
      } else {
        ambiguous := ambiguous + {a};
      }
      op := ReadingTombstones(todo - {a});
      ReachableNext(ctx, intact, old(Now()), ReadTombstone(a));
    }

    method ReadMarkerFiles()
      requires Valid() && op == ReadingTombstones({})
      modifies this`ambiguous, this`op
      ensures Valid() && op == ReadingRuns(disk.runs.Keys)
    {
      ambiguous := ambiguous + disk.markers;
      op := ReadingRuns(disk.runs.Keys);
      ReachableNext(ctx, intact, old(Now()), ReadMarkers);
    }

    method FinishLoading()
      requires Valid() && op == ReadingRuns({})
      modifies this`op
      ensures Valid() && op == Free
    {
      op := Free;
      ReachableNext(ctx, intact, old(Now()), FinishLoad);
    }

    method ReadRunDirectories()
      requires Lawful(ctx.codec) && Valid() && op == ReadingRuns(disk.runs.Keys)
      modifies this`disk, this`runs, this`tombstones, this`envelopeTombstones, this`ambiguous, this`op
      ensures Valid() && op == ReadingRuns({})
    {
      var todo := disk.runs.Keys;
      while todo != {}
        invariant Valid() && op == ReadingRuns(todo) && todo <= disk.runs.Keys
        decreases todo
      {
        var a :| a in todo;
        ReadRunDirectory(a, todo);
        todo := todo - {a};
      }
    }

    /** One directory: its log is compacted; then it goes live, or is set aside, or, its
        quarantine name being taken, makes that name ambiguous. */
    method ReadRunDirectory(a: string, ghost todo: set<string>)
      requires Lawful(ctx.codec) && Valid() && op == ReadingRuns(todo) && a in todo && a in disk.runs
      modifies this`disk, this`runs, this`tombstones, this`envelopeTombstones, this`ambiguous, this`op
      ensures Valid() && op == ReadingRuns(todo - {a}) && disk.runs.Keys >= old(disk).runs.Keys - {a}
      ensures Placed(a, SetRun(old(disk), a, Compacted(ctx, old(disk).runs[a])), old(runs))
    {
      CompactedTwice(ctx, disk.runs[a]);
      if Compacted(ctx, disk.runs[a]) != disk.runs[a] {
        CompactLog(a, todo);
      }
      PlaceDirectory(a, todo);
    }

    /** What a directory with a compact log becomes. */
    method PlaceDirectory(a: string, ghost todo: set<string>)
      requires Valid() && op == ReadingRuns(todo) && a in todo && a in disk.runs
      requires Compacted(ctx, disk.runs[a]) == disk.runs[a]
      modifies this`disk, this`runs, this`tombstones, this`envelopeTombstones, this`ambiguous, this`op
      ensures Valid() && op == ReadingRuns(todo - {a}) && disk.runs.Keys >= old(disk).runs.Keys - {a}
      ensures Placed(a, old(disk), old(runs))
    {
      var loaded := LoadRun(ctx, disk.runs[a]);
      if loaded.Some? && loaded.value.request.assignmentId !in runs {
        AddLiveRun(a, loaded.value, todo);
      } else if a in disk.quarantined {
        RefuseQuarantine(a, todo);
      } else {
        QuarantineDirectory(a, todo);
      }
    }

    /** From the disk and live table before it: the directory went live, or it made its
        name ambiguous, or it is settled in quarantine. */
    ghost predicate Placed(a: string, d: Disk, live: map<string, Run>)
      requires a in d.runs
      reads this
    {
      var loaded := LoadRun(ctx, d.runs[a]);
      if loaded.Some? && loaded.value.request.assignmentId !in live then
        runs == live[loaded.value.request.assignmentId := loaded.value] && disk.runs == d.runs
      else runs == live && if a in d.quarantined then MadeAmbiguous(a) && disk.runs == d.runs else Settled(a, d.runs[a])
    }

    ghost predicate MadeAmbiguous(a: string)
      reads this
    {
      a in ambiguous && a in disk.markers
    }

    /** Both ids are tombstoned, in memory and beside the directory. */
    ghost predicate Tombstoned(a: string, t: Tombstone)
      reads this
    {
      && t.assignmentId in tombstones && tombstones[t.assignmentId] == t && t.envelopeId in envelopeTombstones
      && a in disk.quarantined && TombstoneFile in disk.quarantined[a]
      && disk.quarantined[a][TombstoneFile] == TombstoneDoc(t)
    }

    /** Its request or its receipt can still be read. */
    predicate Readable(dir: Dir)
    {
      || (RequestFile in dir && dir[RequestFile].RequestDoc?)
      || (ReceiptFile in dir && dir[ReceiptFile].ReceiptDoc?)
    }

    /** What became of a directory set aside: it was never admitted, or it is tombstoned as it
        was admitted, or, where nothing of that can be read, its name is ambiguous. */
    ghost predicate Settled(a: string, dir: Dir)
      reads this
    {
      && a in disk.quarantined
      && (RequestFile in dir ==>
            if Readable(dir) then a in admitted && Tombstoned(a, Tombstone(a, admitted[a])) else MadeAmbiguous(a))
    }

    lemma EvidenceTells(w: World, a: string)
      requires Reachable(ctx, intact, w) && a in w.disk.runs
      ensures var dir, t := w.disk.runs[a], RecoveredIdentity(w.disk.runs[a]);
              && (PreAdmission(dir) <==> RequestFile !in dir) && (t.Some? <==> Readable(dir))
              && (t.Some? && RequestFile in dir ==>
                    a in w.admitted && t.value == Tombstone(a, w.admitted[a]))
    {
      ReachableIsSafe(ctx, intact, w);
      assert RunDirOk(w.disk.runs[a], a, w.admitted);
      PreAdmissionHasNoRequest(w.disk.runs[a], a, w.admitted);
    }

    /** The compact log, staged and renamed. */
    method CompactLog(a: string, ghost todo: set<string>)
      requires Lawful(ctx.codec) && Valid() && op == ReadingRuns(todo) && a in todo && a in disk.runs
      requires Compacted(ctx, disk.runs[a]) != disk.runs[a]
      modifies this`disk
      ensures Valid() && disk == SetRun(old(disk), a, Compacted(ctx, old(disk).runs[a]))
    {
      ghost var before := disk;
      CompactionIgnoresStaging(ctx, disk.runs[a]);
      StageCompactLog(a, todo);
      RenameCompactLog(a, todo);
      Rewritten(before, a, before.runs[a][Tmp(EventsFile) := Blob], Compacted(ctx, before.runs[a]));
    }

    method StageCompactLog(a: string, ghost todo: set<string>)
      requires Valid() && op == ReadingRuns(todo) && a in todo && a in disk.runs
      requires Compacted(ctx, disk.runs[a]) != disk.runs[a]
      modifies this`disk
      ensures Valid() && disk == SetRun(old(disk), a, old(disk).runs[a][Tmp(EventsFile) := Blob])
    {
      disk := SetRun(disk, a, disk.runs[a][Tmp(EventsFile) := Blob]);
      ReachableNext(ctx, intact, old(Now()), StageCompaction(a));
    }

    method RenameCompactLog(a: string, ghost todo: set<string>)
      requires Valid() && op == ReadingRuns(todo) && a in todo && a in disk.runs && Tmp(EventsFile) in disk.runs[a]
      requires Compacted(ctx, disk.runs[a]) != disk.runs[a]
      modifies this`disk
      ensures Valid() && disk == SetRun(old(disk), a, Compacted(ctx, old(disk).runs[a]))
    {
      disk := SetRun(disk, a, Compacted(ctx, disk.runs[a]));
      ReachableNext(ctx, intact, old(Now()), RenameCompaction(a));
    }

    method AddLiveRun(a: string, run: Run, ghost todo: set<string>)
      requires Valid() && op == ReadingRuns(todo) && a in todo && a in disk.runs
      requires Compacted(ctx, disk.runs[a]) == disk.runs[a]
      requires LoadRun(ctx, disk.runs[a]) == Some(run) && run.request.assignmentId !in runs
      modifies this`runs, this`op
      ensures Valid() && op == ReadingRuns(todo - {a}) && runs == old(runs)[run.request.assignmentId := run]
    {
      runs := runs[run.request.assignmentId := run];
      op := ReadingRuns(todo - {a});
      LiveIsReached(old(Now()), a, run, todo);
    }

    lemma LiveIsReached(w: World, a: string, run: Run, todo: set<string>)
      requires Reachable(ctx, intact, w) && w.proc.Some? && w.proc.value.op == ReadingRuns(todo) && a in todo
          && a in w.disk.runs
      requires Compacted(ctx, w.disk.runs[a]) == w.disk.runs[a] && LoadRun(ctx, w.disk.runs[a]) == Some(run)
      requires run.request.assignmentId !in w.proc.value.runs
      ensures var p := w.proc.value;
              Reachable(ctx, intact, w.(proc := Some(p.(runs := p.runs[run.request.assignmentId := run],
                                                op := ReadingRuns(todo - {a})))))
    {
      ReachableNext(ctx, intact, w, LoadOrMove(a));
    }

    ghost predicate Unloadable(a: string)
      reads this
    {
      && a in disk.runs && Compacted(ctx, disk.runs[a]) == disk.runs[a]
      && var loaded := LoadRun(ctx, disk.runs[a]); loaded.Some? ==> loaded.value.request.assignmentId in runs
    }

    /** The quarantine name is taken: the name becomes ambiguous, in memory and on disk. */
    method RefuseQuarantine(a: string, ghost todo: set<string>)
      requires Valid() && op == ReadingRuns(todo) && a in todo && Unloadable(a) && a in disk.quarantined
      modifies this`disk, this`ambiguous, this`op
      ensures Valid() && op == ReadingRuns(todo - {a}) && MadeAmbiguous(a) && disk.runs == old(disk).runs
    {
      BlockQuarantine(a, todo);
      WriteMarkerFile(a, todo - {a});
    }

    method BlockQuarantine(a: string, ghost todo: set<string>)
      requires Valid() && op == ReadingRuns(todo) && a in todo && Unloadable(a) && a in disk.quarantined
      modifies this`ambiguous, this`op
      ensures Valid() && op == Marking(a, todo - {a}) && a in ambiguous
    {
      ambiguous := ambiguous + {a};
      op := Marking(a, todo - {a});
      ReachableNext(ctx, intact, old(Now()), LoadOrMove(a));
    }

    method WriteMarkerFile(a: string, ghost todo: set<string>)
      requires Valid() && op == Marking(a, todo)
      modifies this`disk, this`op
      ensures Valid() && op == ReadingRuns(todo) && disk == old(disk).(markers := old(disk).markers + {a})
    {
      disk := disk.(markers := disk.markers + {a});
      op := ReadingRuns(todo);
      ReachableNext(ctx, intact, old(Now()), WriteMarker);
    }

    // ----- _quarantine -----

    method RenameAside(a: string, ghost todo: set<string>) returns (pre: bool)
      requires Valid() && op == ReadingRuns(todo) && a in todo && Unloadable(a) && a !in disk.quarantined
      modifies this`disk, this`op
      ensures Valid() && op == Moved(a, pre, todo - {a}) && disk == SetAside(old(disk), a)
      ensures pre == PreAdmission(old(disk).runs[a])
    {
      pre := PreAdmission(disk.runs[a]);
      disk := SetAside(disk, a);
      op := Moved(a, pre, todo - {a});
      ReachableNext(ctx, intact, old(Now()), LoadOrMove(a));
    }

    /** The quarantined directory of `a` now also holds `f`. */
    ghost predicate Beside(before: Disk, a: string, f: FileName, c: Content)
      reads this
    {
      && a in before.quarantined
      && disk == SetQuarantined(before, a, (before.quarantined[a] - {Tmp(f)})[f := c])
    }

    method StageQuarantineRecord(a: string, pre: bool, ghost todo: set<string>)
      requires Valid() && op == Moved(a, pre, todo) && a in disk.quarantined
      modifies this`disk, this`op
      ensures Valid() && op == RecordStaged(a, pre, todo)
      ensures disk == SetQuarantined(old(disk), a, old(disk).quarantined[a][Tmp(QuarantineFile) := Blob])
    {
      disk := SetQuarantined(disk, a, disk.quarantined[a][Tmp(QuarantineFile) := Blob]);
      op := RecordStaged(a, pre, todo);
      ReachableNext(ctx, intact, old(Now()), StageRecord);
    }

    method RenameQuarantineRecord(a: string, pre: bool, ghost todo: set<string>)
      requires Valid() && op == RecordStaged(a, pre, todo) && a in disk.quarantined
      modifies this`disk, this`op
      ensures Valid() && op == if pre then ReadingRuns(todo) else Recorded(a, todo)
      ensures Beside(old(disk), a, QuarantineFile, Blob)
    {
      disk := SetQuarantined(disk, a, (disk.quarantined[a] - {Tmp(QuarantineFile)})[QuarantineFile := Blob]);
      op := if pre then ReadingRuns(todo) else Recorded(a, todo);
      ReachableNext(ctx, intact, old(Now()), WriteRecord);
    }

    method LoseIdentity(a: string, ghost todo: set<string>)
      requires Valid() && op == Recorded(a, todo) && a in disk.quarantined
      requires RecoveredIdentity(disk.quarantined[a]) == None
      modifies this`ambiguous, this`op
      ensures Valid() && op == Marking(a, todo) && a in ambiguous
    {
      ambiguous := ambiguous + {a};
      op := Marking(a, todo);
      ReachableNext(ctx, intact, old(Now()), RecoverIdentity);
    }

    method StageTombstone(a: string, t: Tombstone, ghost todo: set<string>)
      requires Valid() && op == Recorded(a, todo) && a in disk.quarantined
      requires RecoveredIdentity(disk.quarantined[a]) == Some(t)
      modifies this`disk, this`op
      ensures Valid() && op == Tombstoning(a, t, todo)
      ensures disk == SetQuarantined(old(disk), a, old(disk).quarantined[a][Tmp(TombstoneFile) := Blob])
    {
      disk := SetQuarantined(disk, a, disk.quarantined[a][Tmp(TombstoneFile) := Blob]);
      op := Tombstoning(a, t, todo);
      ReachableNext(ctx, intact, old(Now()), RecoverIdentity);
    }

    method RenameTombstone(a: string, t: Tombstone, ghost todo: set<string>)
      requires Valid() && op == Tombstoning(a, t, todo) && a in disk.quarantined
      modifies this`disk, this`tombstones, this`envelopeTombstones, this`op
      ensures Valid() && op == ReadingRuns(todo) && disk.runs == old(disk).runs && Tombstoned(a, t)
    {
      disk := PutTombstone(disk, a, t);
      RegisterTombstone(t);
      op := ReadingRuns(todo);
      TombstoneIsReached(old(Now()), a, t, todo);
    }

    lemma TombstoneIsReached(w: World, a: string, t: Tombstone, todo: set<string>)
      requires Reachable(ctx, intact, w) && w.proc.Some? && w.proc.value.op == Tombstoning(a, t, todo)
          && a in w.disk.quarantined
      ensures Reachable(ctx, intact, w.(disk := PutTombstone(w.disk, a, t),
                                proc := Some(Register(w.proc.value, t).(op := ReadingRuns(todo)))))
    {
      ReachableNext(ctx, intact, w, WriteTombstone);
    }

    /** The identity of a quarantined run is tombstoned, or its name made ambiguous. */
    method SettleIdentity(a: string, ghost todo: set<string>)
      requires Valid() && op == Recorded(a, todo) && a in disk.quarantined
      modifies this`disk, this`tombstones, this`envelopeTombstones, this`ambiguous, this`op
      ensures Valid() && op == ReadingRuns(todo) && disk.runs == old(disk).runs && a in disk.quarantined
      ensures match RecoveredIdentity(old(disk).quarantined[a])
              case None => MadeAmbiguous(a)
              case Some(t) => Tombstoned(a, t)
    {
      var identity := RecoveredIdentity(disk.quarantined[a]);
      if identity == None {
        LoseIdentity(a, todo);
        WriteMarkerFile(a, todo);
      } else {
        StageTombstone(a, identity.value, todo);
        RenameTombstone(a, identity.value, todo);
      }
    }

    /** The quarantine record, staged and renamed. It hides no identity. */
    method RecordQuarantine(a: string, pre: bool, ghost todo: set<string>)
      requires Valid() && op == Moved(a, pre, todo) && a in disk.quarantined
      modifies this`disk, this`op
      ensures Valid() && op == (if pre then ReadingRuns(todo) else Recorded(a, todo)) && disk.runs == old(disk).runs
      ensures a in disk.quarantined
      ensures RecoveredIdentity(disk.quarantined[a]) == RecoveredIdentity(old(disk).quarantined[a])
    {
      StageQuarantineRecord(a, pre, todo);
      RenameQuarantineRecord(a, pre, todo);
    }

    method QuarantineDirectory(a: string, ghost todo: set<string>)
      requires Valid() && op == ReadingRuns(todo) && a in todo && Unloadable(a) && a !in disk.quarantined
      modifies this`disk, this`tombstones, this`envelopeTombstones, this`ambiguous, this`op
      ensures Valid() && op == ReadingRuns(todo - {a}) && disk.runs == old(disk).runs - {a}
      ensures Settled(a, old(disk).runs[a])
    {
      EvidenceTells(Now(), a);
      MoveAndSettle(a, todo);
    }

    /** The directory was never admitted, or what it says of its identity is settled. */
    ghost predicate SettledBy(a: string, pre: bool, identity: Option<Tombstone>)
      reads this
    {
      a in disk.quarantined
      && (!pre ==> if identity.Some? then Tombstoned(a, identity.value) else MadeAmbiguous(a))
    }

    method MoveAndSettle(a: string, ghost todo: set<string>)
      requires Valid() && op == ReadingRuns(todo) && a in todo && Unloadable(a) && a !in disk.quarantined
      modifies this`disk, this`tombstones, this`envelopeTombstones, this`ambiguous, this`op
      ensures Valid() && op == ReadingRuns(todo - {a}) && disk.runs == old(disk).runs - {a}
      ensures SettledBy(a, PreAdmission(old(disk).runs[a]), RecoveredIdentity(old(disk).runs[a]))
    {
      var pre := RenameAside(a, todo);
      RecordQuarantine(a, pre, todo - {a});
      if !pre {
        SettleIdentity(a, todo - {a});
      }
    }

    // ----- start, write by write -----

    method MakeRunDirectory(q: Request)
      requires Valid() && op == Free && Admissible(Memory(), disk, q)
      modifies this`disk, this`op
      ensures Valid()
      ensures disk == SetRun(old(disk), q.assignmentId, map[]) && op == Making(q)
    {
      disk := SetRun(disk, q.assignmentId, map[]);
      op := Making(q);
      ReachableNext(ctx, intact, old(Now()), Admit(q));
    }

    method StageRequestFile(q: Request)
      requires Valid() && op == Making(q) && q.assignmentId in disk.runs
      modifies this`disk, this`op
      ensures Valid() && op == Staged(q)
      ensures disk == SetRun(old(disk), q.assignmentId, old(disk).runs[q.assignmentId][Tmp(RequestFile) := Blob])
    {
      disk := SetRun(disk, q.assignmentId, disk.runs[q.assignmentId][Tmp(RequestFile) := Blob]);
      op := Staged(q);
      ReachableNext(ctx, intact, old(Now()), StageRequest);
    }

    method RenameRequestFile(q: Request)
      requires Valid() && op == Staged(q) && q.assignmentId in disk.runs
      modifies this`disk, this`op, this`admitted
      ensures Valid() && op == Durable(q)
      ensures disk == SetRun(old(disk), q.assignmentId,
          (old(disk).runs[q.assignmentId] - {Tmp(RequestFile)})[RequestFile := RequestDoc(q)])
      ensures admitted == old(admitted)[q.assignmentId := q.envelopeId]
    {
      disk := SetRun(disk, q.assignmentId,
          (disk.runs[q.assignmentId] - {Tmp(RequestFile)})[RequestFile := RequestDoc(q)]);
      op := Durable(q);
      admitted := admitted[q.assignmentId := q.envelopeId];
      ReachableNext(ctx, intact, old(Now()), WriteRequest);
    }

    method PublishRun(q: Request, note: string)
      requires Valid() && op == Durable(q)
      modifies this`runs, this`op
      ensures Valid() && op == Announcing(q)
      ensures runs == old(runs)[q.assignmentId := 
                Emit(Run(q, [], None, false, false, false, NoThread, Idle), Admitted, note)]
    {
      runs := runs[q.assignmentId := Emit(Run(q, [], None, false, false, false, NoThread, Idle), Admitted, note)];
      op := Announcing(q);
      ReachableNext(ctx, intact, old(Now()), Publish(note));
    }

    method StartThread(q: Request)
      requires Valid() && op == Announcing(q) && q.assignmentId in runs && Enabled(ctx, runs[q.assignmentId], Spawn)
      modifies this`runs, this`op, this`launched
      ensures Valid() && op == Free && launched == old(launched) + [q.assignmentId]
      ensures runs == old(runs)[q.assignmentId := old(runs)[q.assignmentId].(thread := Preparing)]
    {
      runs := runs[q.assignmentId := runs[q.assignmentId].(thread := Preparing)];
      op := Free;
      launched := launched + [q.assignmentId];
      LaunchIsReached(old(Now()), q);
    }

    lemma LaunchIsReached(w: World, q: Request)
      requires Reachable(ctx, intact, w) && w.proc.Some? && w.proc.value.op == Announcing(q)
      requires q.assignmentId in w.proc.value.runs && Enabled(ctx, w.proc.value.runs[q.assignmentId], Spawn)
      ensures var p, a := w.proc.value, q.assignmentId;
              var live := p.runs[a := p.runs[a].(thread := Preparing)];
              Reachable(ctx, intact, w.(proc := Some(p.(runs := live, op := Free)), launched := w.launched + [a]))
    {
      ReachableNext(ctx, intact, w, Launch);
    }

    /** One lock-held change, or one write, of a run. */
    method Region(id: string, act: Action)
      requires Valid() && Serving(op) && id in runs && id in disk.runs && act != Spawn && Enabled(ctx, runs[id], act)
      modifies this`disk, this`runs, this`worked
      ensures Valid()
      ensures disk == SetRun(old(disk), id, AfterDisk(ctx, old(runs)[id], old(disk).runs[id], act))
      ensures runs == old(runs)[id := AfterMemory(ctx, old(runs)[id], act)]
      ensures worked == old(worked) + if act == CallRunner then [id] else []
    {
      disk := SetRun(disk, id, AfterDisk(ctx, runs[id], disk.runs[id], act));
      runs := runs[id := AfterMemory(ctx, runs[id], act)];
      worked := worked + if act == CallRunner then [id] else [];
      RegionIsReached(old(Now()), id, act);
    }

    lemma RegionIsReached(w: World, id: string, act: Action)
      requires Reachable(ctx, intact, w) && w.proc.Some? && Serving(w.proc.value.op)
      requires id in w.proc.value.runs && id in w.disk.runs && act != Spawn && Enabled(ctx, w.proc.value.runs[id], act)
      ensures var p := w.proc.value;
              Reachable(ctx, intact, w.(disk := SetRun(w.disk, id, AfterDisk(ctx, p.runs[id], w.disk.runs[id], act)),
                                proc := Some(p.(runs := p.runs[id := AfterMemory(ctx, p.runs[id], act)])),
                                worked := w.worked + if act == CallRunner then [id] else []))
    {
      ReachableNext(ctx, intact, w, RunAct(id, act));
    }

    method AppendByte(id: string)
      requires Valid() && MayAppend(id) && runs[id].pending.written < |PendingLine(id)|
      modifies this`disk, this`runs, this`worked
      ensures Valid() && worked == old(worked)
      ensures var run := old(runs)[id];
              && runs == old(runs)[id := run.(pending := run.pending.(written := run.pending.written + 1))]
              && disk == SetRun(old(disk), id, WithLog(old(disk).runs[id], [old(PendingLine(id))[run.pending.written]]))
    {
      Region(id, WriteByte);
    }

    method CloseLine(id: string)
      requires Valid() && MayAppend(id) && runs[id].pending.written == |PendingLine(id)|
      modifies this`disk, this`runs, this`worked
      ensures Valid() && worked == old(worked) && disk == old(disk)
      ensures runs == old(runs)[id := Closed(old(runs)[id])]
    {
      Region(id, EndAppend);
      SameRun(old(disk), id);
    }

    lemma SameRun(d: Disk, id: string)
      requires id in d.runs
      ensures SetRun(d, id, d.runs[id]) == d
    {
      assert d.runs[id := d.runs[id]] == d.runs;
    }

    /** The line a region has yet to append. */
    ghost function PendingLine(id: string): (b: seq<byte>)
      requires id in runs && runs[id].pending.Appending?
      reads this
    {
      Line(ctx.codec, runs[id].pending.event)
    }

    ghost predicate MayAppend(id: string)
      reads this
    {
      && Serving(op) && id in runs && id in disk.runs && runs[id].pending.Appending?
      && runs[id].pending.written <= |PendingLine(id)|
    }

    method AppendBytes(id: string)
      requires Valid() && MayAppend(id)
      modifies this`disk, this`runs, this`worked
      ensures Valid() && worked == old(worked)
      ensures runs == old(runs)[id := Written(ctx, old(runs)[id])]
      ensures disk == SetRun(old(disk), id,
          WithLog(old(disk).runs[id], old(PendingLine(id)[runs[id].pending.written..])))
      decreases |PendingLine(id)| - runs[id].pending.written
    {
      var run := runs[id];
      if run.pending.written < |Line(ctx.codec, run.pending.event)| {
        ghost var rest := PendingLine(id)[run.pending.written..];
        ghost var before, live := disk, runs;
        AppendByte(id);
        ghost var next := runs[id];
        assert PendingLine(id)[next.pending.written..] == rest[1..];
        AppendBytes(id);
        assert rest == [rest[0]] + rest[1..];
        LogGrows(before, id, rest[0], rest[1..]);
        Overwrite(live, id, next, runs[id]);
      } else {
        SameRun(disk, id);
        assert runs == runs[id := run];
      }
    }

    /** The rest of `_emit`: the pending line is appended to the log file, byte by byte, and
        nothing else of the disk changes. */
    method AppendLine(id: string)
      requires Valid() && MayAppend(id) && runs[id].pending.written == 0
      modifies this`disk, this`runs, this`worked
      ensures Valid() && worked == old(worked)
      ensures runs == old(runs)[id := Closed(old(runs)[id])]
      ensures disk == SetRun(old(disk), id, WithLog(old(disk).runs[id], old(PendingLine(id))))
    {
      ghost var run, live := runs[id], runs;
      assert PendingLine(id)[0..] == PendingLine(id);
      AppendBytes(id);
      assert Closed(runs[id]) == Closed(run);
      CloseLine(id);
      Overwrite(live, id, Written(ctx, run), Closed(run));
    }

    /** The first part of `start`: the request becomes durable before anything else. */
    method AdmitDurably(q: Request)
      requires Valid() && op == Free && Admissible(Memory(), disk, q)
      modifies this`disk, this`op, this`admitted
      ensures Valid() && op == Durable(q)
          && disk == SetRun(old(disk), q.assignmentId, map[RequestFile := RequestDoc(q)])
      ensures admitted == old(admitted)[q.assignmentId := q.envelopeId]
    {
      MakeRunDirectory(q);
      StageRequestFile(q);
      RenameRequestFile(q);
      FreshRun(old(disk), q);
    }

    lemma FreshRun(d: Disk, q: Request)
      ensures var a := q.assignmentId;
              SetRun(SetRun(SetRun(d, a, map[]), a, map[Tmp(RequestFile) := Blob]), a,
                  map[RequestFile := RequestDoc(q)])
              == SetRun(d, a, map[RequestFile := RequestDoc(q)])
      ensures map[Tmp(RequestFile) := Blob] - {Tmp(RequestFile)} == map[]
    {
      var staged: Dir := map[Tmp(RequestFile) := Blob];
      assert staged - {Tmp(RequestFile)} == map[];
    }

    /** The second part: the run is live, its first event is on disk, and its thread starts. */
    method AnnounceAndLaunch(q: Request, note: string) returns (e: Event)
      requires Valid() && op == Durable(q) && q.assignmentId in disk.runs
      modifies this`disk, this`runs, this`op, this`launched, this`worked
      ensures Valid() && op == Free && launched == old(launched) + [q.assignmentId] && worked == old(worked)
      ensures q.assignmentId in runs && runs[q.assignmentId].request == q && runs[q.assignmentId].events == [e]
      ensures e == Event(q.assignmentId, q.assignmentId, 0, Admitted, note)
      ensures disk == SetRun(old(disk), q.assignmentId, WithLog(old(disk).runs[q.assignmentId], Line(ctx.codec, e)))
    {
      PublishRun(q, note);
      e := runs[q.assignmentId].pending.event;
      assert PendingLine(q.assignmentId) == Line(ctx.codec, e);
      AppendLine(q.assignmentId);
      StartThread(q);
    }

    /** `start`, once the envelope is verified: durable admission, then one launch.
        Admission happens exactly when the duplicate checks pass: never for an id or envelope
        admitted before, and always for ids that were never used when nothing is ambiguous
        and no directory has that name. */
    method Start(q: Request, note: string) returns (admittedEvent: Option<Event>)
      requires Valid() && op == Free
      modifies this
      ensures Valid() && op == Free && Distinct(launched)
      ensures admittedEvent.Some? <==> old(Admissible(Memory(), disk, q))
      ensures admittedEvent.Some? ==> q.assignmentId !in old(admitted) && q.envelopeId !in old(admitted).Values
      ensures old(ambiguous == {} && q.assignmentId !in disk.runs && Admissibility.NeverUsed(Now(), q)) ==>
                admittedEvent.Some?
      ensures admittedEvent == None ==> Now() == old(Now())
      ensures admittedEvent.Some? ==>
                && launched == old(launched) + [q.assignmentId]
                && admitted == old(admitted)[q.assignmentId := q.envelopeId]
                && q.assignmentId in runs && runs[q.assignmentId].request == q
                && runs[q.assignmentId].events == [admittedEvent.value]
                && admittedEvent.value == Event(q.assignmentId, q.assignmentId, 0, Admitted, note)
                && disk == SetRun(old(disk), q.assignmentId, Announced(ctx, q, admittedEvent.value))
    {
      ReachableIsDistinct(Now());
      AdmissibleBothWays(Now(), q);
      if !Admissible(Proc(runs, tombstones, envelopeTombstones, ambiguous, Free), disk, q) {
        return None;
      }
      AdmitDurably(q);
      var e := AnnounceAndLaunch(q, note);
      AnnouncedDisk(ctx, old(disk), q, e);
      ReachableIsDistinct(Now());
      admittedEvent := Some(e);
    }

    lemma AdmissibleBothWays(w: World, q: Request)
      requires Reachable(ctx, intact, w) && w.proc.Some? && w.proc.value.op == Free
      ensures Admissible(w.proc.value, w.disk, q) ==>
                q.assignmentId !in w.admitted && q.envelopeId !in w.admitted.Values
      ensures w.proc.value.ambiguous == {} && q.assignmentId !in w.disk.runs && Admissibility.NeverUsed(w, q) ==>
                Admissible(w.proc.value, w.disk, q)
    {
      Admissibility.ReachableIsKnown(ctx, intact, w);
      if Admissible(w.proc.value, w.disk, q) {
        AdmissibleIsUnused(w.proc.value, w.disk, w.admitted, w.launched, q);
      }
      if w.proc.value.ambiguous == {} && q.assignmentId !in w.disk.runs && Admissibility.NeverUsed(w, q) {
        Admissibility.KnownIsUnused(w, w.proc.value, q);
      }
    }

    // ----- cancel and terminalize -----

    /** `cancel`: accepted exactly until the run is over, unless the run was recovered after its
        work had begun; an accepted one answers with the cancel_requested event. */
    method CancelRun(id: string, note: string) returns (r: Option<Event>)
      requires Valid() && op == Free && (id in runs ==> runs[id].pending == Idle)
      modifies this`disk, this`runs, this`worked
      ensures Valid() && worked == old(worked)
      ensures r.Some? <==>
                && id in old(runs) && old(runs)[id].receipt == None
                && (old(runs)[id].recovered ==> !Has(old(runs)[id].events, Started))
      ensures r.Some? ==> r.value.name == CancelRequested && id in runs && runs[id].cancelRequested
                          && runs[id].events != [] && runs[id].events[|runs[id].events| - 1] == r.value
      ensures r == None ==> runs == old(runs)
      ensures r == None || old(runs)[id].cancelRequested ==> disk == old(disk)
      ensures r.Some? && !old(runs)[id].cancelRequested ==>
                && id in old(disk).runs
                && disk == SetRun(old(disk), id, WithLog(old(disk).runs[id], Line(ctx.codec, r.value)))
    {
      if id in runs {
        LiveRunIsCoherent(Now(), id);
      }
      if id !in runs || runs[id].receipt != None || (!runs[id].runner && Has(runs[id].events, Started)) {
        return None;
      }
      LiveRunIsSound(Now(), id);
      if runs[id].cancelRequested {
        return Some(runs[id].events[|runs[id].events| - 1]);
      }
      var e := RequestCancel(id, note);
      r := Some(e);
    }

    /** The first cancellation of a run: its event joins the list and the log file. */
    method RequestCancel(id: string, note: string) returns (e: Event)
      requires Valid() && op == Free && id in runs && id in disk.runs && Enabled(ctx, runs[id], Cancel(note))
      modifies this`disk, this`runs, this`worked
      ensures Valid() && worked == old(worked) && e == NextEvent(old(runs)[id], CancelRequested, note)
      ensures runs == old(runs)[id := old(runs)[id].(cancelRequested := true, events := old(runs)[id].events + [e])]
      ensures disk == SetRun(old(disk), id, WithLog(old(disk).runs[id], Line(ctx.codec, e)))
    {
      Region(id, Cancel(note));
      e := runs[id].pending.event;
      SameRun(old(disk), id);
      assert PendingLine(id) == Line(ctx.codec, e);
      AppendLine(id);
    }

    /** `_persist`: terminal event, then receipt, each staged and renamed. */
    method Persist(id: string)
      requires Valid() && Serving(op) && id in runs && id in disk.runs && runs[id].pending == Persisting(0)
          && runs[id].receipt.Some?
      modifies this`disk, this`runs, this`worked
      ensures Valid() && worked == old(worked)
      ensures id in runs && runs[id] == old(runs)[id].(pending := Idle)
      ensures id in disk.runs && ReceiptFile in disk.runs[id]
          && disk.runs[id][ReceiptFile] == ReceiptDoc(runs[id].receipt.value)
      ensures disk == SetRun(old(disk), id, Persisted(old(disk).runs[id], runs[id].receipt.value))
    {
      ghost var d, r := disk, runs[id].receipt.value;
      PersistTerminal(id);
      PersistReceipt(id);
      PersistedDisk(d, id, r);
    }

    method PersistTerminal(id: string)
      requires Valid() && Serving(op) && id in runs && id in disk.runs && runs[id].pending == Persisting(0)
          && runs[id].receipt.Some?
      modifies this`disk, this`runs, this`worked
      ensures Valid() && worked == old(worked) && id in runs && runs[id] == old(runs)[id].(pending := Persisting(2))
      ensures disk == SetRun(SetRun(old(disk), id, old(disk).runs[id][Tmp(TerminalFile) := Blob]), id,
          (old(disk).runs[id][Tmp(TerminalFile) := Blob] - {Tmp(TerminalFile)})[TerminalFile := Blob])
    {
      PersistOne(id, 0);
      PersistOne(id, 1);
    }

    method PersistReceipt(id: string)
      requires Valid() && Serving(op) && id in runs && id in disk.runs && runs[id].pending == Persisting(2)
          && runs[id].receipt.Some?
      modifies this`disk, this`runs, this`worked
      ensures Valid() && worked == old(worked) && id in runs && runs[id] == old(runs)[id].(pending := Idle)
      ensures disk == SetRun(SetRun(old(disk), id, old(disk).runs[id][Tmp(ReceiptFile) := Blob]), id,
          (old(disk).runs[id][Tmp(ReceiptFile) := Blob] - {Tmp(ReceiptFile)})[ReceiptFile := 
            ReceiptDoc(old(runs)[id].receipt.value)])
    {
      PersistOne(id, 2);
      PersistOne(id, 3);
    }

    method PersistOne(id: string, stage: nat)
      requires Valid() && Serving(op) && id in runs && id in disk.runs && stage < 4
      requires runs[id].pending == Persisting(stage) && runs[id].receipt.Some?
      modifies this`disk, this`runs, this`worked
      ensures Valid() && worked == old(worked) && id in runs && id in disk.runs
      ensures runs[id] == old(runs)[id].(pending := if stage == 3 then Idle else Persisting(stage + 1))
      ensures disk == SetRun(old(disk), id, PersistStage(old(disk).runs[id], stage, old(runs)[id].receipt.value))
    {
      Region(id, PersistNext);
    }

    /** `terminalize`: a recovered, interrupted run is closed by a digest-bound durable
        receipt, and nothing is launched. */
    method TerminalizeRun(id: string, status: EventName, note: string) returns (r: Option<Receipt>)
      requires Valid() && op == Free && (status == Failed || status == Cancelled)
          && (id in runs ==> runs[id].pending == Idle)
      modifies this`disk, this`runs, this`worked
      ensures Valid() && worked == old(worked)
      ensures r.Some? <==>
                && id in old(runs) && old(runs)[id].receipt == None && !old(runs)[id].runner
                && old(runs)[id].recovered
      ensures r == None ==> runs == old(runs)
      ensures r.Some? ==>
                && id in runs && runs[id].receipt == r && r.value.status == status
                && r.value.eventsDigest == ctx.digest(runs[id].events)
                && id in disk.runs && ReceiptFile in disk.runs[id] && disk.runs[id][ReceiptFile] == ReceiptDoc(r.value)
    {
      if id !in runs || runs[id].receipt != None || runs[id].runner || !runs[id].recovered {
        return None;
      }
      LiveRunIsSound(Now(), id);
      Region(id, Terminalize(status, note));
      AppendLine(id);
      Persist(id);
      r := runs[id].receipt;
    }

    lemma LiveRunIsCoherent(w: World, id: string)
      requires Reachable(ctx, intact, w) && w.proc.Some? && id in w.proc.value.runs
      ensures AdmissionMemory.Coherent(w.proc.value.runs[id])
    {
      Reconciliation.ReachableIsSound(ctx, intact, w);
    }

    lemma LiveRunIsSound(w: World, id: string)
      requires Reachable(ctx, intact, w) && w.proc.Some? && id in w.proc.value.runs
      ensures id in w.disk.runs && CancelAnswerable(w.proc.value.runs[id])
    {
      ReachableIsSafe(ctx, intact, w);
      assert RunOk(w.proc.value.runs[id], id, w.disk, w.admitted);
    }

    // ----- reconcile_quarantine -----

    method StageReconciliation(name: string, t: Tombstone)
      requires Valid() && op == Free && Reconcilable(Memory(), disk, name, t) && Truthful(admitted, name, t)
      modifies this`disk, this`op, this`reconciled
      ensures Valid() && op == Reconciling(name, t) && reconciled == old(reconciled) + {t}
      ensures disk == SetQuarantined(old(disk), name, old(disk).quarantined[name][Tmp(TombstoneFile) := Blob])
    {
      disk := SetQuarantined(disk, name, disk.quarantined[name][Tmp(TombstoneFile) := Blob]);
      op := Reconciling(name, t);
      reconciled := reconciled + {t};
      ReachableNext(ctx, intact, old(Now()), Reconcile(name, t));
    }

    method RenameReconciliation(name: string, t: Tombstone)
      requires Valid() && op == Reconciling(name, t) && name in disk.quarantined
      modifies this`disk, this`tombstones, this`envelopeTombstones, this`ambiguous, this`op
      ensures Valid() && disk == PutTombstone(old(disk), name, t)
      ensures Memory() == Register(old(Memory()), t).(ambiguous := old(ambiguous) - {name}, op := Retiring(name))
    {
      disk := PutTombstone(disk, name, t);
      RegisterTombstone(t);
      ambiguous := ambiguous - {name};
      op := Retiring(name);
      ReconciledIsReachable(old(Now()), name, t);
    }

    lemma ReconciledIsReachable(w: World, name: string, t: Tombstone)
      requires Reachable(ctx, intact, w) && w.proc.Some? && w.proc.value.op == Reconciling(name, t)
          && name in w.disk.quarantined
      ensures var p := w.proc.value;
              Reachable(ctx, intact, w.(disk := PutTombstone(w.disk, name, t),
                                proc := Some(Register(p, t).(ambiguous := p.ambiguous - {name}, op := Retiring(name)))))
    {
      ReachableNext(ctx, intact, w, WriteReconciled);
    }

    method UnlinkMarker(name: string)
      requires Valid() && op == Retiring(name)
      modifies this`disk, this`op
      ensures Valid() && op == Free && disk == old(disk).(markers := old(disk).markers - {name})
    {
      disk := disk.(markers := disk.markers - {name});
      op := Free;
      ReachableNext(ctx, intact, old(Now()), RetireMarker);
    }

    /** A truthful reconciliation tombstones the identity under both its ids, durably
        and in memory, before the ambiguity is lifted. */
    method ReconcileQuarantine(name: string, t: Tombstone) returns (ok: bool)
      requires Valid() && op == Free && Truthful(admitted, name, t)
      modifies this`disk, this`tombstones, this`envelopeTombstones, this`ambiguous, this`op, this`reconciled
      ensures Valid() && op == Free && reconciled == old(reconciled) + if ok then {t} else {}
      ensures ok <==> old(Reconcilable(Memory(), disk, name, t))
      ensures !ok ==> Now() == old(Now())
      ensures ok ==>
                && name !in ambiguous && name !in disk.markers
                && t.assignmentId in tombstones && t.envelopeId in envelopeTombstones
                && name in disk.quarantined && TombstoneFile in disk.quarantined[name]
                && disk.quarantined[name][TombstoneFile] == TombstoneDoc(t)
    {
      ok := Reconcilable(Proc(runs, tombstones, envelopeTombstones, ambiguous, Free), disk, name, t);
      assert ok == Reconcilable(Memory(), disk, name, t);
      if !ok {
        return;
      }
      TombstoneIdentity(name, t);
      UnlinkMarker(name);
    }

    method TombstoneIdentity(name: string, t: Tombstone)
      requires Valid() && op == Free && Reconcilable(Memory(), disk, name, t) && Truthful(admitted, name, t)
      modifies this`disk, this`tombstones, this`envelopeTombstones, this`ambiguous, this`op, this`reconciled
      ensures Valid() && op == Retiring(name) && name !in ambiguous && reconciled == old(reconciled) + {t}
      ensures t.assignmentId in tombstones && t.envelopeId in envelopeTombstones
      ensures name in disk.quarantined && TombstoneFile in disk.quarantined[name]
      ensures disk.quarantined[name][TombstoneFile] == TombstoneDoc(t)
    {
      StageReconciliation(name, t);
      RenameReconciliation(name, t);
      assert Memory().tombstones == Register(old(Memory()), t).tombstones;
      assert Memory().envelopeTombstones == Register(old(Memory()), t).envelopeTombstones;
    }

    /** What the service shows of a live run, when no evidence was damaged: numbered events, no
        start after a cancellation, and a receipt that covers the log. */
    lemma LiveRunsAreOrderly(id: string)
      requires Lawful(ctx.codec) && Valid() && intact && id in runs
      ensures Contiguous(runs[id].events, id) && Journey.NoStartAfterCancel(runs[id].events)
      ensures runs[id].receipt.Some? ==> runs[id].receipt.value.eventsDigest == ctx.digest(runs[id].events)
    {
      ServiceJourneys.ReachableIsOrderly(ctx, Now(), id);
    }

    /** An ambiguous name can be reconciled exactly when what was admitted under it is neither
        live nor tombstoned. */
    lemma AmbiguityCanBeLifted(name: string)
      requires Valid() && name in ambiguous
      ensures (exists t :: Truthful(admitted, name, t) && Reconcilable(Memory(), disk, name, t))
              <==> (name in admitted ==>
                      && name !in runs && name !in tombstones && admitted[name] !in envelopeTombstones)
    {
      Reconciliation.ReachableIsSound(ctx, intact, Now());
      Reconciliation.ReconcilableExactlyWhen(Now(), name);
    }

    lemma ReachableIsDistinct(w: World)
      requires Reachable(ctx, intact, w)
      ensures Distinct(w.launched)
    {
      ReachableIsSafe(ctx, intact, w);
    }
  }
}
