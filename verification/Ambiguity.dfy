/** What keeps admission blocked is there to see on disk: without damage, the ambiguous names of an
    idle service are those with a marker, or with quarantined files that no tombstone covers. */
module Ambiguity {
  import opened Options
  import opened EventLog
  import opened RunJournal
  import opened Admission
  import opened AdmissionSafety
  import opened AdmissionMemory
  import opened Reconciliation

  /** Files that tell of an identity, and no tombstone. */
  predicate Uncovered(dir: Dir)
  {
    TombstoneFile !in dir && exists f | f in dir :: f != QuarantineFile && f != Tmp(RequestFile)
  }

  predicate Unsettled(d: Disk, a: string)
  {
    a in d.markers || (a in d.quarantined && Uncovered(d.quarantined[a]))
  }

  /** The name an operation is working on, for which memory and disk may differ. */
  predicate WorksOn(op: Op, a: string)
  {
    match op
    case Moved(b, _, _) => a == b
    case RecordStaged(b, _, _) => a == b
    case Recorded(b, _) => a == b
    case Tombstoning(b, _, _) => a == b
    case Marking(b, _) => a == b
    case Reconciling(b, _) => a == b
    case Retiring(b) => a == b
    case _ => false
  }

  /** Without damage tombstones parse. */
  ghost predicate Legible(d: Disk)
  {
    forall a | a in d.quarantined && TombstoneFile in d.quarantined[a] :: d.quarantined[a][TombstoneFile].TombstoneDoc?
  }

  ghost predicate Shown(p: Proc, d: Disk)
  {
    if p.op.ReadingTombstones? then
      forall a :: a in p.ambiguous <==> a in d.quarantined && a !in p.op.todo && Uncovered(d.quarantined[a])
    else forall a | !WorksOn(p.op, a) :: a in p.ambiguous <==> Unsettled(d, a)
  }

  /** What an operation knows of the name it works on. */
  ghost predicate KnowsItsName(p: Proc, d: Disk)
  {
    match p.op
    case Moved(b, pre, _) => Aside(p, d, b) && (pre ==> d.quarantined[b].Keys <= {Tmp(RequestFile)})
    case RecordStaged(b, pre, _) =>
      Aside(p, d, b) && (pre ==> d.quarantined[b].Keys <= {Tmp(RequestFile), Tmp(QuarantineFile)})
    case Recorded(b, _) => Aside(p, d, b) && RequestFile in d.quarantined[b]
    case Tombstoning(b, _, _) => Aside(p, d, b)
    case Marking(b, _) => b in p.ambiguous
    case Retiring(b) => b !in p.ambiguous && b in d.quarantined && TombstoneFile in d.quarantined[b]
    case _ => true
  }

  predicate Aside(p: Proc, d: Disk, b: string)
  {
    b in d.quarantined && TombstoneFile !in d.quarantined[b] && b !in d.markers && b !in p.ambiguous
  }

  ghost predicate Visible(w: World)
  {
    Legible(w.disk) && (w.proc.Some? ==> Shown(w.proc.value, w.disk) && KnowsItsName(w.proc.value, w.disk))
  }

  lemma ReadingIsVisible(ctx: Ctx, w: World, p: Proc, a: string)
    requires Visible(w) && w.proc == Some(p) && Ready(ctx, w.disk, p, w.admitted, ReadTombstone(a))
    ensures Visible(Work(ctx, w, p, ReadTombstone(a)))
  {
  }

  lemma MarkersAreVisible(ctx: Ctx, w: World, p: Proc)
    requires Visible(w) && w.proc == Some(p) && Ready(ctx, w.disk, p, w.admitted, ReadMarkers)
    ensures Visible(Work(ctx, w, p, ReadMarkers))
  {
  }

  lemma CompactionIsVisible(ctx: Ctx, w: World, p: Proc, s: Step)
    requires Visible(w) && w.proc == Some(p) && Ready(ctx, w.disk, p, w.admitted, s)
    requires s.StageCompaction? || s.RenameCompaction? || s.FinishLoad?
    ensures Visible(Work(ctx, w, p, s))
  {
  }

  /** Two moments that differ in one name only. */
  ghost predicate OnlyAt(p: Proc, d: Disk, p': Proc, d': Disk, b: string)
  {
    forall a | a != b ::
      && (a in p'.ambiguous <==> a in p.ambiguous) && (a in d'.markers <==> a in d.markers)
      && (a in d'.quarantined <==> a in d.quarantined)
      && (a in d.quarantined ==> d'.quarantined[a] == d.quarantined[a])
  }

  /** What is shown of the other names stays; this one is being worked on, or is shown too. */
  lemma OthersStayShown(p: Proc, d: Disk, p': Proc, d': Disk, b: string)
    requires Shown(p, d) && OnlyAt(p, d, p', d', b) && !p.op.ReadingTombstones? && !p'.op.ReadingTombstones?
    requires forall a :: WorksOn(p.op, a) ==> a == b
    requires WorksOn(p'.op, b) || (b in p'.ambiguous <==> Unsettled(d', b))
    ensures Shown(p', d')
  {
    forall a | a != b ensures Unsettled(d', a) <==> Unsettled(d, a) {
    }
  }

  lemma LoadingIsVisible(ctx: Ctx, w: World, p: Proc, a: string)
    requires Inv(w) && Evidenced(w) && Visible(w) && w.proc == Some(p)
    requires Ready(ctx, w.disk, p, w.admitted, LoadOrMove(a))
    ensures Visible(Work(ctx, w, p, LoadOrMove(a)))
  {
    assert RunDirOk(w.disk.runs[a], a, w.admitted);
    var loaded := LoadRun(ctx, w.disk.runs[a]);
    if !(loaded.Some? && loaded.value.request.assignmentId !in p.runs) {
      SettingAsideIsVisible(w.disk, p, a);
    }
  }

  lemma SettingAsideIsVisible(d: Disk, p: Proc, a: string)
    requires p.op.ReadingRuns? && a in d.runs && TombstoneFile !in d.runs[a]
    requires Legible(d) && Shown(p, d) && KnowsItsName(p, d)
    requires d.markers <= d.quarantined.Keys && p.ambiguous <= d.quarantined.Keys
    ensures var (d', p') := BeginQuarantine(d, p, a, p.op.todo - {a});
            Legible(d') && Shown(p', d') && KnowsItsName(p', d')
  {
    var (d', p') := BeginQuarantine(d, p, a, p.op.todo - {a});
    OthersStayShown(p, d, p', d', a);
  }

  lemma StagingIsVisible(ctx: Ctx, w: World, p: Proc)
    requires Visible(w) && w.proc == Some(p) && Ready(ctx, w.disk, p, w.admitted, StageRecord)
    ensures Visible(Work(ctx, w, p, StageRecord))
  {
    var w' := Work(ctx, w, p, StageRecord);
    OthersStayShown(p, w.disk, w'.proc.value, w'.disk, p.op.name);
  }

  lemma RecordingIsVisible(ctx: Ctx, w: World, p: Proc)
    requires Inv(w) && Visible(w) && w.proc == Some(p) && Ready(ctx, w.disk, p, w.admitted, WriteRecord)
    ensures Visible(Work(ctx, w, p, WriteRecord))
  {
    var w' := Work(ctx, w, p, WriteRecord);
    OthersStayShown(p, w.disk, w'.proc.value, w'.disk, p.op.name);
  }

  lemma LosingIsVisible(d: Disk, p: Proc)
    requires p.op.Recorded? && Legible(d) && Shown(p, d) && KnowsItsName(p, d)
    ensures var p' := p.(ambiguous := p.ambiguous + {p.op.name}, op := Marking(p.op.name, p.op.todo));
            Shown(p', d) && KnowsItsName(p', d)
  {
    var p' := p.(ambiguous := p.ambiguous + {p.op.name}, op := Marking(p.op.name, p.op.todo));
    OthersStayShown(p, d, p', d, p.op.name);
  }

  lemma FindingIsVisible(d: Disk, p: Proc, t: Tombstone)
    requires p.op.Recorded? && Legible(d) && Shown(p, d) && KnowsItsName(p, d)
    ensures var d' := SetQuarantined(d, p.op.name, d.quarantined[p.op.name][Tmp(TombstoneFile) := Blob]);
            var p' := p.(op := Tombstoning(p.op.name, t, p.op.todo));
            Legible(d') && Shown(p', d') && KnowsItsName(p', d')
  {
    var d' := SetQuarantined(d, p.op.name, d.quarantined[p.op.name][Tmp(TombstoneFile) := Blob]);
    OthersStayShown(p, d, p.(op := Tombstoning(p.op.name, t, p.op.todo)), d', p.op.name);
  }

  lemma RecoveringIsVisible(ctx: Ctx, w: World, p: Proc)
    requires Visible(w) && w.proc == Some(p) && Ready(ctx, w.disk, p, w.admitted, RecoverIdentity)
    ensures Visible(Work(ctx, w, p, RecoverIdentity))
  {
    var t := RecoveredIdentity(w.disk.quarantined[p.op.name]);
    if t.Some? {
      FindingIsVisible(w.disk, p, t.value);
    } else {
      LosingIsVisible(w.disk, p);
    }
  }

  lemma TombstoningIsVisible(ctx: Ctx, w: World, p: Proc)
    requires Visible(w) && w.proc == Some(p) && Ready(ctx, w.disk, p, w.admitted, WriteTombstone)
    ensures Visible(Work(ctx, w, p, WriteTombstone))
  {
  }

  lemma MarkingIsVisible(ctx: Ctx, w: World, p: Proc)
    requires Visible(w) && w.proc == Some(p) && Ready(ctx, w.disk, p, w.admitted, WriteMarker)
    ensures Visible(Work(ctx, w, p, WriteMarker))
  {
  }

  lemma NamingIsVisible(ctx: Ctx, w: World, p: Proc, a: string, t: Tombstone)
    requires Visible(w) && w.proc == Some(p) && Ready(ctx, w.disk, p, w.admitted, Reconcile(a, t))
    ensures Visible(Work(ctx, w, p, Reconcile(a, t)))
  {
    var w' := Work(ctx, w, p, Reconcile(a, t));
    OthersStayShown(p, w.disk, w'.proc.value, w'.disk, a);
  }

  lemma ReconcilingIsVisible(ctx: Ctx, w: World, p: Proc)
    requires Visible(w) && w.proc == Some(p) && Ready(ctx, w.disk, p, w.admitted, WriteReconciled)
    ensures Visible(Work(ctx, w, p, WriteReconciled))
  {
    var w' := Work(ctx, w, p, WriteReconciled);
    OthersStayShown(p, w.disk, w'.proc.value, w'.disk, p.op.name);
  }

  lemma RetiringIsVisible(ctx: Ctx, w: World, p: Proc)
    requires Visible(w) && w.proc == Some(p) && Ready(ctx, w.disk, p, w.admitted, RetireMarker)
    ensures Visible(Work(ctx, w, p, RetireMarker))
  {
    var w' := Work(ctx, w, p, RetireMarker);
    OthersStayShown(p, w.disk, w'.proc.value, w'.disk, p.op.name);
  }

  lemma ServingIsVisible(ctx: Ctx, w: World, p: Proc, s: Step)
    requires Visible(w) && w.proc == Some(p) && Ready(ctx, w.disk, p, w.admitted, s) && s != Crash
    requires !IsRecoveryStep(s) && !IsQuarantineStep(s) && !IsOperatorStep(s)
    ensures Visible(Work(ctx, w, p, s))
  {
  }

  lemma RecoveryIsVisible(ctx: Ctx, w: World, p: Proc, s: Step)
    requires Inv(w) && Evidenced(w) && Visible(w) && w.proc == Some(p)
    requires Ready(ctx, w.disk, p, w.admitted, s) && IsRecoveryStep(s)
    ensures Visible(Work(ctx, w, p, s))
  {
    if s.ReadTombstone? {
      ReadingIsVisible(ctx, w, p, s.name);
    } else if s.ReadMarkers? {
      MarkersAreVisible(ctx, w, p);
    } else if s.LoadOrMove? {
      LoadingIsVisible(ctx, w, p, s.name);
    } else {
      CompactionIsVisible(ctx, w, p, s);
    }
  }

  lemma QuarantineIsVisible(ctx: Ctx, w: World, p: Proc, s: Step)
    requires Inv(w) && Visible(w) && w.proc == Some(p)
    requires Ready(ctx, w.disk, p, w.admitted, s) && IsQuarantineStep(s)
    ensures Visible(Work(ctx, w, p, s))
  {
    if s.RecoverIdentity? {
      RecoveringIsVisible(ctx, w, p);
    } else if s.WriteTombstone? {
      TombstoningIsVisible(ctx, w, p);
    } else if s.WriteMarker? {
      MarkingIsVisible(ctx, w, p);
    } else if s.StageRecord? {
      StagingIsVisible(ctx, w, p);
    } else {
      RecordingIsVisible(ctx, w, p);
    }
  }

  lemma OperatorIsVisible(ctx: Ctx, w: World, p: Proc, s: Step)
    requires Visible(w) && w.proc == Some(p) && Ready(ctx, w.disk, p, w.admitted, s) && IsOperatorStep(s)
    ensures Visible(Work(ctx, w, p, s))
  {
    if s.Reconcile? {
      NamingIsVisible(ctx, w, p, s.name, s.tombstone);
    } else if s.WriteReconciled? {
      ReconcilingIsVisible(ctx, w, p);
    } else {
      RetiringIsVisible(ctx, w, p);
    }
  }

  lemma StepIsVisible(ctx: Ctx, w: World, s: Step)
    requires Inv(w) && Evidenced(w) && Visible(w) && Possible(ctx, w, s) && !IsDamage(s)
    ensures Visible(Next(ctx, w, s))
  {
    if s != Boot && s != Crash {
      var p := w.proc.value;
      if IsRecoveryStep(s) {
        RecoveryIsVisible(ctx, w, p, s);
      } else if IsQuarantineStep(s) {
        QuarantineIsVisible(ctx, w, p, s);
      } else if IsOperatorStep(s) {
        OperatorIsVisible(ctx, w, p, s);
      } else {
        ServingIsVisible(ctx, w, p, s);
      }
    }
  }

  lemma {:induction false} RunIsVisible(ctx: Ctx, worlds: seq<World>, steps: seq<Step>, n: nat)
    requires IsRun(ctx, worlds, steps) && n < |worlds| && Undamaged(steps, n)
    ensures Visible(worlds[n])
  {
    if n > 0 {
      RunIsVisible(ctx, worlds, steps, n - 1);
      RunIsSound(ctx, worlds, steps, n - 1);
      StepIsVisible(ctx, worlds[n - 1], steps[n - 1]);
    }
  }

  /** In every run without damage, an idle service takes a name for ambiguous exactly when the disk
      shows it. */
  lemma AmbiguousExactly(ctx: Ctx, worlds: seq<World>, steps: seq<Step>, n: nat, a: string)
    requires IsRun(ctx, worlds, steps) && n < |worlds| && Undamaged(steps, n)
    requires Reconciliation.Idle(worlds[n])
    ensures Ambiguous(worlds[n], a) <==>
              var d := worlds[n].disk;
              || a in d.markers
              || (a in d.quarantined && TombstoneFile !in d.quarantined[a]
                  && exists f | f in d.quarantined[a] :: f != QuarantineFile && f != Tmp(RequestFile))
  {
    RunIsVisible(ctx, worlds, steps, n);
  }
}
