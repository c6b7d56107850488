/** The assignment service over its state root: durable admission, launch, restart
    recovery, quarantine and operator reconciliation, one disk write at a time.

    Run ids match `[A-Za-z0-9][A-Za-z0-9_-]*`, so `x`, `x.quarantined` and
    `x.quarantined.ambiguous` never collide: the root is three separate tables. */
module Admission {
  import opened Options
  import opened EventLog
  import opened RunJournal

  datatype Disk = Disk(runs: map<string, Dir>, quarantined: map<string, Dir>, markers: set<string>)

  /** What the holder of the service lock is in the middle of. */
  datatype Op =
    | Free
    // start
    | Making(request: Request)                                    // the run directory exists
    | Staged(request: Request)                                    // request.json.tmp exists
    | Durable(request: Request)                                   // request.json exists
    | Announcing(request: Request)                                // live; the admitted event is being appended
    // the constructor's recovery
    | ReadingTombstones(todo: set<string>)
    | ReadingRuns(todo: set<string>)
    | Moved(name: string, preAdmission: bool, todo: set<string>)  // renamed to its quarantine name
    | RecordStaged(name: string, preAdmission: bool, todo: set<string>)
    | Recorded(name: string, todo: set<string>)                   // quarantine.json written; identity to recover
    | Tombstoning(name: string, tombstone: Tombstone, todo: set<string>)
    | Marking(name: string, todo: set<string>)                    // ambiguous in memory, marker to write
    // reconcile_quarantine
    | Reconciling(name: string, tombstone: Tombstone)
    | Retiring(name: string)

  /** The volatile fields of `AssignmentService`. */
  datatype Proc = Proc(
    runs: map<string, Run>,
    tombstones: map<string, Tombstone>,
    envelopeTombstones: map<string, string>,
    ambiguous: set<string>,
    op: Op)

  /** The disk, the process if one is up, and four histories: which envelope each id
      was durably admitted with, the ids a worker thread was started for, the ids
      whose contained work was run, and the identities named in a reconciliation. */
  datatype World = World(
    disk: Disk,
    proc: Option<Proc>,
    admitted: map<string, string>,
    launched: seq<string>,
    worked: seq<string>,
    reconciled: set<Tombstone>)

  datatype Step =
    | Boot
    | ReadTombstone(name: string) | ReadMarkers | FinishLoad
    | StageCompaction(name: string) | RenameCompaction(name: string) | LoadOrMove(name: string)
    | StageRecord | WriteRecord | RecoverIdentity | WriteTombstone | WriteMarker
    | Admit(request: Request) | StageRequest | WriteRequest | Publish(note: string) | Launch
    | RunAct(id: string, action: Action)
    | Reconcile(name: string, tombstone: Tombstone) | WriteReconciled | RetireMarker
    | Crash
    | CorruptRun(name: string, file: FileName, content: Content)
    | CorruptQuarantined(name: string, file: FileName, content: Content)

  function Init(): (w: World)
  {
    World(Disk(map[], map[], {}), None, map[], [], [], {})
  }

  // ----- the checks -----

  /** `_reject_duplicate_identity` and the ambiguity check before it. */
  predicate Admissible(p: Proc, d: Disk, q: Request)
  {
    && p.ambiguous == {}
    && q.assignmentId !in p.runs
    && q.assignmentId !in p.tombstones
    && q.envelopeId !in p.envelopeTombstones
    && q.assignmentId !in d.runs
    && (forall a | a in p.runs :: p.runs[a].request.envelopeId != q.envelopeId)
    && (forall a | a in d.runs ::
          ParsedRequest(d.runs[a]).Some? ==> ParsedRequest(d.runs[a]).value.envelopeId != q.envelopeId)
    && (forall a | a in d.quarantined ::
          ParsedRequest(d.quarantined[a]).Some? ==> ParsedRequest(d.quarantined[a]).value.envelopeId != q.envelopeId)
  }

  /** The checks of `reconcile_quarantine`. */
  predicate Reconcilable(p: Proc, d: Disk, name: string, t: Tombstone)
  {
    && name in d.quarantined
    && name in p.ambiguous
    && t.assignmentId !in p.tombstones && t.assignmentId !in p.runs
    && t.envelopeId !in p.envelopeTombstones
    && (forall a | a in p.runs :: p.runs[a].request.envelopeId != t.envelopeId)
  }

  /** The operator names the identity that was really admitted under `name`, if one was. */
  predicate Truthful(admitted: map<string, string>, name: string, t: Tombstone)
  {
    name in admitted ==> t == Tombstone(name, admitted[name])
  }

  predicate PreAdmission(dir: Dir) { dir.Keys == {} || dir.Keys == {Tmp(RequestFile)} }

  /** `_recover_identity`: the request, else the receipt. */
  function RecoveredIdentity(dir: Dir): (t: Option<Tombstone>)
  {
    if RequestFile in dir && dir[RequestFile].RequestDoc? then
      Some(Tombstone(dir[RequestFile].request.assignmentId, dir[RequestFile].request.envelopeId))
    else if ReceiptFile in dir && dir[ReceiptFile].ReceiptDoc? then
      Some(Tombstone(dir[ReceiptFile].receipt.assignmentId, dir[ReceiptFile].receipt.envelopeId))
    else None
  }

  function Register(p: Proc, t: Tombstone): (r: Proc)
  {
    p.(tombstones := p.tombstones[t.assignmentId := t],
       envelopeTombstones := if t.envelopeId in p.envelopeTombstones then p.envelopeTombstones
                             else p.envelopeTombstones[t.envelopeId := t.assignmentId])
  }

  /** `_load_tombstone`. */
  function LoadTombstone(p: Proc, name: string, dir: Dir): (r: Proc)
  {
    if TombstoneFile !in dir then
      if exists f | f in dir :: f != QuarantineFile && f != Tmp(RequestFile) then p.(ambiguous := p.ambiguous + {name})
      else p
    else if dir[TombstoneFile].TombstoneDoc? then Register(p, dir[TombstoneFile].tombstone)
    else p.(ambiguous := p.ambiguous + {name})
  }

  function SetRun(d: Disk, a: string, dir: Dir): (r: Disk) { d.(runs := d.runs[a := dir]) }

  function SetQuarantined(d: Disk, a: string, dir: Dir): (r: Disk) { d.(quarantined := d.quarantined[a := dir]) }

  /** An evidence file turning unparsable; a log may turn into any bytes. */
  predicate Damage(dir: Dir, f: FileName, c: Content)
  {
    f in dir && if f == EventsFile then c.LogBytes? else c == Blob
  }

  // ----- the steps -----

  predicate Possible(ctx: Ctx, w: World, s: Step)
  {
    if s.Boot? then w.proc == None
    else if s.CorruptRun? then s.name in w.disk.runs && Damage(w.disk.runs[s.name], s.file, s.content)
    else if s.CorruptQuarantined? then
      s.name in w.disk.quarantined && Damage(w.disk.quarantined[s.name], s.file, s.content)
    else w.proc.Some? && Ready(ctx, w.disk, w.proc.value, w.admitted, s)
  }

  predicate Ready(ctx: Ctx, d: Disk, p: Proc, admitted: map<string, string>, s: Step)
  {
    match s
    case ReadTombstone(a) => p.op.ReadingTombstones? && a in p.op.todo && a in d.quarantined
    case ReadMarkers => p.op == ReadingTombstones({})
    case StageCompaction(a) =>
      p.op.ReadingRuns? && a in p.op.todo && a in d.runs && Compacted(ctx, d.runs[a]) != d.runs[a]
    case RenameCompaction(a) =>
      && p.op.ReadingRuns? && a in p.op.todo && a in d.runs && Compacted(ctx, d.runs[a]) != d.runs[a]
      && Tmp(EventsFile) in d.runs[a]
    case LoadOrMove(a) => p.op.ReadingRuns? && a in p.op.todo && a in d.runs && Compacted(ctx, d.runs[a]) == d.runs[a]
    case FinishLoad => p.op == ReadingRuns({})
    case StageRecord => p.op.Moved? && p.op.name in d.quarantined
    case WriteRecord => p.op.RecordStaged? && p.op.name in d.quarantined
    case RecoverIdentity => p.op.Recorded? && p.op.name in d.quarantined
    case WriteTombstone => p.op.Tombstoning? && p.op.name in d.quarantined
    case WriteMarker => p.op.Marking?
    case Admit(q) => p.op == Free && Admissible(p, d, q)
    case StageRequest => p.op.Making? && p.op.request.assignmentId in d.runs
    case WriteRequest => p.op.Staged? && p.op.request.assignmentId in d.runs
    case Publish(_) => p.op.Durable?
    case Launch =>
      && p.op.Announcing? && p.op.request.assignmentId in p.runs
      && Enabled(ctx, p.runs[p.op.request.assignmentId], Spawn)
    case RunAct(a, act) => Serving(p.op) && a in p.runs && a in d.runs && act != Spawn && Enabled(ctx, p.runs[a], act)
    case Reconcile(a, t) => p.op == Free && Reconcilable(p, d, a, t) && Truthful(admitted, a, t)
    case WriteReconciled => p.op.Reconciling? && p.op.name in d.quarantined
    case RetireMarker => p.op.Retiring?
    case Crash => true
    case _ => false
  }

  predicate Serving(op: Op)
  {
    op.Free? || op.Making? || op.Staged? || op.Durable? || op.Announcing? || op.Reconciling? || op.Retiring?
  }

  /** `_quarantine` up to its rename. */
  function BeginQuarantine(d: Disk, p: Proc, a: string, todo: set<string>): (r: (Disk, Proc))
    requires a in d.runs
  {
    if a in d.quarantined then (d, p.(ambiguous := p.ambiguous + {a}, op := Marking(a, todo)))
    else (SetAside(d, a), p.(op := Moved(a, PreAdmission(d.runs[a]), todo)))
  }

  /** Renaming a run directory to its quarantine name. */
  function SetAside(d: Disk, a: string): (r: Disk)
    requires a in d.runs
  {
    d.(runs := d.runs - {a}, quarantined := d.quarantined[a := d.runs[a]])
  }

  /** One run directory in `_load_durable_state`, its log already compact. */
  function LoadDirectory(ctx: Ctx, d: Disk, p: Proc, a: string, todo: set<string>): (r: (Disk, Proc))
    requires a in d.runs
  {
    var loaded := LoadRun(ctx, d.runs[a]);
    if loaded.Some? && loaded.value.request.assignmentId !in p.runs then
      (d, p.(runs := p.runs[loaded.value.request.assignmentId := loaded.value], op := ReadingRuns(todo)))
    else BeginQuarantine(d, p, a, todo)
  }

  function Next(ctx: Ctx, w: World, s: Step): (w': World)
    requires Possible(ctx, w, s)
  {
    match s
    case Boot => w.(proc := Some(Proc(map[], map[], map[], {}, ReadingTombstones(w.disk.quarantined.Keys))))
    case Crash => w.(proc := None)
    case CorruptRun(a, f, c) => w.(disk := SetRun(w.disk, a, w.disk.runs[a][f := c]))
    case CorruptQuarantined(a, f, c) => w.(disk := SetQuarantined(w.disk, a, w.disk.quarantined[a][f := c]))
    case _ => Work(ctx, w, w.proc.value, s)
  }

  /** A step of the running process. */
  function Work(ctx: Ctx, w: World, p: Proc, s: Step): (w': World)
    requires w.proc == Some(p) && Ready(ctx, w.disk, p, w.admitted, s) && s != Crash
  {
    var d := w.disk;
    match s
    case ReadTombstone(a) =>
      w.(proc := Some(LoadTombstone(p, a, d.quarantined[a]).(op := ReadingTombstones(p.op.todo - {a}))))
    case ReadMarkers =>
      w.(proc := Some(p.(ambiguous := p.ambiguous + d.markers, op := ReadingRuns(d.runs.Keys))))
    case StageCompaction(a) => w.(disk := SetRun(d, a, d.runs[a][Tmp(EventsFile) := Blob]))
    case RenameCompaction(a) => w.(disk := SetRun(d, a, Compacted(ctx, d.runs[a])))
    case LoadOrMove(a) =>
      var (d', p') := LoadDirectory(ctx, d, p, a, p.op.todo - {a});
      w.(disk := d', proc := Some(p'))
    case FinishLoad => w.(proc := Some(p.(op := Free)))
    case StageRecord =>
      w.(disk := SetQuarantined(d, p.op.name, d.quarantined[p.op.name][Tmp(QuarantineFile) := Blob]),
         proc := Some(p.(op := RecordStaged(p.op.name, p.op.preAdmission, p.op.todo))))
    case WriteRecord =>
      w.(disk := SetQuarantined(d, p.op.name,
          (d.quarantined[p.op.name] - {Tmp(QuarantineFile)})[QuarantineFile := Blob]),
         proc := Some(p.(op := if p.op.preAdmission then ReadingRuns(p.op.todo) else Recorded(p.op.name, p.op.todo))))
    case RecoverIdentity =>
      (match RecoveredIdentity(d.quarantined[p.op.name])
       case None => w.(proc := Some(p.(ambiguous := p.ambiguous + {p.op.name}, op := Marking(p.op.name, p.op.todo))))
       case Some(t) =>
         w.(disk := SetQuarantined(d, p.op.name, d.quarantined[p.op.name][Tmp(TombstoneFile) := Blob]),
            proc := Some(p.(op := Tombstoning(p.op.name, t, p.op.todo)))))
    case WriteTombstone =>
      w.(disk := PutTombstone(d, p.op.name, p.op.tombstone),
         proc := Some(Register(p, p.op.tombstone).(op := ReadingRuns(p.op.todo))))
    case WriteMarker =>
      w.(disk := d.(markers := d.markers + {p.op.name}), proc := Some(p.(op := ReadingRuns(p.op.todo))))
    case Admit(q) => w.(disk := SetRun(d, q.assignmentId, map[]), proc := Some(p.(op := Making(q))))
    case StageRequest =>
      var q := p.op.request;
      w.(disk := SetRun(d, q.assignmentId, d.runs[q.assignmentId][Tmp(RequestFile) := Blob]),
          proc := Some(p.(op := Staged(q))))
    case WriteRequest =>
      var q := p.op.request;
      w.(disk := SetRun(d, q.assignmentId, (d.runs[q.assignmentId] - {Tmp(RequestFile)})[RequestFile := RequestDoc(q)]),
         proc := Some(p.(op := Durable(q))),
         admitted := w.admitted[q.assignmentId := q.envelopeId])
    case Publish(note) =>
      var q := p.op.request;
      var run := Emit(Run(q, [], None, false, false, false, NoThread, Idle), Admitted, note);
      w.(proc := Some(p.(runs := p.runs[q.assignmentId := run], op := Announcing(q))))
    case Launch =>
      var a := p.op.request.assignmentId;
      w.(proc := Some(p.(runs := p.runs[a := AfterMemory(ctx, p.runs[a], Spawn)], op := Free)),
          launched := w.launched + [a])
    case RunAct(a, act) =>
      w.(disk := SetRun(d, a, AfterDisk(ctx, p.runs[a], d.runs[a], act)),
         proc := Some(p.(runs := p.runs[a := AfterMemory(ctx, p.runs[a], act)])),
         worked := w.worked + if act == CallRunner then [a] else [])
    case Reconcile(a, t) =>
      w.(disk := SetQuarantined(d, a, d.quarantined[a][Tmp(TombstoneFile) := Blob]),
          proc := Some(p.(op := Reconciling(a, t))),
          reconciled := w.reconciled + {t})
    case WriteReconciled =>
      w.(disk := PutTombstone(d, p.op.name, p.op.tombstone),
         proc := Some(Register(p, p.op.tombstone).(ambiguous := p.ambiguous - {p.op.name}, op := Retiring(p.op.name))))
    case RetireMarker =>
      w.(disk := d.(markers := d.markers - {p.op.name}), proc := Some(p.(op := Free)))
  }

  function PutTombstone(d: Disk, a: string, t: Tombstone): (r: Disk)
    requires a in d.quarantined
  {
    SetQuarantined(d, a, (d.quarantined[a] - {Tmp(TombstoneFile)})[TombstoneFile := TombstoneDoc(t)])
  }

  ghost predicate IsRun(ctx: Ctx, worlds: seq<World>, steps: seq<Step>)
  {
    && |worlds| == |steps| + 1
    && worlds[0] == Init()
    && forall i | 0 <= i < |steps| ::
         Possible(ctx, worlds[i], steps[i]) && worlds[i + 1] == Next(ctx, worlds[i], steps[i])
  }

  ghost predicate EndsIn(ctx: Ctx, worlds: seq<World>, steps: seq<Step>, w: World)
  {
    IsRun(ctx, worlds, steps) && worlds[|worlds| - 1] == w
  }

  predicate IsDamage(s: Step) { s.CorruptRun? || s.CorruptQuarantined? }

  predicate Undamaged(steps: seq<Step>, n: nat) { forall i | 0 <= i < n && i < |steps| :: !IsDamage(steps[i]) }

  /** Some run of the protocol ends in `w`; one without damage if `intact`. */
  ghost predicate Reachable(ctx: Ctx, intact: bool, w: World)
  {
    exists worlds, steps :: EndsIn(ctx, worlds, steps, w) && (intact ==> Undamaged(steps, |steps|))
  }

  lemma ReachableNext(ctx: Ctx, intact: bool, w: World, s: Step)
    requires Reachable(ctx, intact, w) && Possible(ctx, w, s) && (intact ==> !IsDamage(s))
    ensures Reachable(ctx, intact, Next(ctx, w, s))
  {
    var worlds, steps :| EndsIn(ctx, worlds, steps, w) && (intact ==> Undamaged(steps, |steps|));
    var w' := Next(ctx, w, s);
    assert EndsIn(ctx, worlds + [w'], steps + [s], w');
    assert intact ==> Undamaged(steps + [s], |steps| + 1);
  }
}
