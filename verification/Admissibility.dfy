/** The duplicate checks refuse no more than they have to: an identity that was never admitted and
    never named by an operator is admissible. */
module Admissibility {
  import opened Options
  import opened EventLog
  import opened RunJournal
  import opened Admission
  import opened AdmissionSafety

  /** The identity was admitted, or named in a reconciliation. */
  predicate Known(h: History, named: set<Tombstone>, t: Tombstone)
  {
    (t.assignmentId in h && h[t.assignmentId] == t.envelopeId) || t in named
  }

  ghost predicate MemoryKnown(p: Proc, h: History, named: set<Tombstone>)
  {
    && (forall a | a in p.tombstones :: p.tombstones[a].assignmentId == a && Known(h, named, p.tombstones[a]))
    && (forall e | e in p.envelopeTombstones :: Known(h, named, Tombstone(p.envelopeTombstones[e], e)))
    && (p.op.Tombstoning? || p.op.Reconciling? ==> Known(h, named, p.op.tombstone))
  }

  ghost predicate DiskKnown(d: Disk, h: History, named: set<Tombstone>)
  {
    forall a | a in d.quarantined
        && TombstoneFile in d.quarantined[a] && d.quarantined[a][TombstoneFile].TombstoneDoc? ::
      Known(h, named, d.quarantined[a][TombstoneFile].tombstone)
  }

  /** Every tombstone, on disk or in memory, is of a known identity. */
  ghost predicate AllKnown(w: World)
  {
    && DiskKnown(w.disk, w.admitted, w.reconciled)
    && (w.proc.Some? ==> MemoryKnown(w.proc.value, w.admitted, w.reconciled))
  }

  lemma RegisteredIsKnown(p: Proc, t: Tombstone, h: History, named: set<Tombstone>)
    requires MemoryKnown(p, h, named) && Known(h, named, t)
    ensures MemoryKnown(Register(p, t), h, named)
  {
  }

  lemma MoreIsKnown(p: Proc, d: Disk, h: History, named: set<Tombstone>, h': History, named': set<Tombstone>)
    requires MemoryKnown(p, h, named) && DiskKnown(d, h, named) && named <= named'
    requires forall a | a in h :: a in h' && h'[a] == h[a]
    ensures MemoryKnown(p, h', named') && DiskKnown(d, h', named')
  {
  }

  lemma ReadingIsKnown(ctx: Ctx, w: World, p: Proc, a: string)
    requires AllKnown(w) && w.proc == Some(p) && Ready(ctx, w.disk, p, w.admitted, ReadTombstone(a))
    ensures AllKnown(Work(ctx, w, p, ReadTombstone(a)))
  {
    var dir := w.disk.quarantined[a];
    if TombstoneFile in dir && dir[TombstoneFile].TombstoneDoc? {
      RegisteredIsKnown(p, dir[TombstoneFile].tombstone, w.admitted, w.reconciled);
    }
  }

  lemma LoadingIsKnown(ctx: Ctx, w: World, p: Proc, a: string)
    requires Inv(w) && AllKnown(w) && w.proc == Some(p) && Ready(ctx, w.disk, p, w.admitted, LoadOrMove(a))
    ensures AllKnown(Work(ctx, w, p, LoadOrMove(a)))
  {
    assert RunDirOk(w.disk.runs[a], a, w.admitted);
  }

  lemma RecoveryIsKnown(ctx: Ctx, w: World, p: Proc, s: Step)
    requires AllKnown(w) && w.proc == Some(p) && Ready(ctx, w.disk, p, w.admitted, s)
    requires IsRecoveryStep(s) && !s.LoadOrMove? && !s.ReadTombstone?
    ensures AllKnown(Work(ctx, w, p, s))
  {
  }

  lemma RecordingIsKnown(ctx: Ctx, w: World, p: Proc, s: Step)
    requires AllKnown(w) && w.proc == Some(p) && Ready(ctx, w.disk, p, w.admitted, s)
    requires s.StageRecord? || s.WriteRecord? || s.WriteMarker?
    ensures AllKnown(Work(ctx, w, p, s))
  {
  }

  lemma RecoveredIsKnown(ctx: Ctx, w: World, p: Proc)
    requires Inv(w) && AllKnown(w) && w.proc == Some(p) && Ready(ctx, w.disk, p, w.admitted, RecoverIdentity)
    ensures AllKnown(Work(ctx, w, p, RecoverIdentity))
  {
    assert QuarantineDirOk(w.disk.quarantined[p.op.name], p.op.name, w.admitted);
  }

  lemma TombstonedIsKnown(ctx: Ctx, w: World, p: Proc, s: Step)
    requires AllKnown(w) && w.proc == Some(p) && Ready(ctx, w.disk, p, w.admitted, s)
    requires s.WriteTombstone? || s.WriteReconciled?
    ensures AllKnown(Work(ctx, w, p, s))
  {
    RegisteredIsKnown(p, p.op.tombstone, w.admitted, w.reconciled);
  }

  lemma OperatorIsKnown(ctx: Ctx, w: World, p: Proc, s: Step)
    requires AllKnown(w) && w.proc == Some(p) && Ready(ctx, w.disk, p, w.admitted, s)
    requires s.Reconcile? || s.RetireMarker?
    ensures AllKnown(Work(ctx, w, p, s))
  {
    if s.Reconcile? {
      MoreIsKnown(p, w.disk, w.admitted, w.reconciled, w.admitted, w.reconciled + {s.tombstone});
    }
  }

  lemma AdmittingIsKnown(ctx: Ctx, w: World, p: Proc)
    requires Inv(w) && AllKnown(w) && w.proc == Some(p) && Ready(ctx, w.disk, p, w.admitted, WriteRequest)
    ensures AllKnown(Work(ctx, w, p, WriteRequest))
  {
    var q := p.op.request;
    MoreIsKnown(p, w.disk, w.admitted, w.reconciled, w.admitted[q.assignmentId := q.envelopeId], w.reconciled);
  }

  lemma ServingIsKnown(ctx: Ctx, w: World, p: Proc, s: Step)
    requires AllKnown(w) && w.proc == Some(p) && Ready(ctx, w.disk, p, w.admitted, s)
    requires s.Admit? || s.StageRequest? || s.Publish? || s.Launch? || s.RunAct?
    ensures AllKnown(Work(ctx, w, p, s))
  {
  }

  lemma RecoveryStepIsKnown(ctx: Ctx, w: World, p: Proc, s: Step)
    requires Inv(w) && AllKnown(w) && w.proc == Some(p) && Ready(ctx, w.disk, p, w.admitted, s) && IsRecoveryStep(s)
    ensures AllKnown(Work(ctx, w, p, s))
  {
    if s.ReadTombstone? {
      ReadingIsKnown(ctx, w, p, s.name);
    } else if s.LoadOrMove? {
      LoadingIsKnown(ctx, w, p, s.name);
    } else {
      RecoveryIsKnown(ctx, w, p, s);
    }
  }

  lemma TombstoneStepIsKnown(ctx: Ctx, w: World, p: Proc, s: Step)
    requires Inv(w) && AllKnown(w) && w.proc == Some(p) && Ready(ctx, w.disk, p, w.admitted, s)
    requires IsQuarantineStep(s) || IsOperatorStep(s)
    ensures AllKnown(Work(ctx, w, p, s))
  {
    if s.RecoverIdentity? {
      RecoveredIsKnown(ctx, w, p);
    } else if s.WriteTombstone? || s.WriteReconciled? {
      TombstonedIsKnown(ctx, w, p, s);
    } else if IsQuarantineStep(s) {
      RecordingIsKnown(ctx, w, p, s);
    } else {
      OperatorIsKnown(ctx, w, p, s);
    }
  }

  lemma WorkIsKnown(ctx: Ctx, w: World, p: Proc, s: Step)
    requires Inv(w) && AllKnown(w) && w.proc == Some(p) && Ready(ctx, w.disk, p, w.admitted, s) && s != Crash
    ensures AllKnown(Work(ctx, w, p, s))
  {
    if IsRecoveryStep(s) {
      RecoveryStepIsKnown(ctx, w, p, s);
    } else if IsQuarantineStep(s) || IsOperatorStep(s) {
      TombstoneStepIsKnown(ctx, w, p, s);
    } else if s.WriteRequest? {
      AdmittingIsKnown(ctx, w, p);
    } else {
      ServingIsKnown(ctx, w, p, s);
    }
  }

  lemma StepIsKnown(ctx: Ctx, w: World, s: Step)
    requires Inv(w) && AllKnown(w) && Possible(ctx, w, s)
    ensures AllKnown(Next(ctx, w, s))
  {
    if IsDamage(s) {
      DamageIsKnown(ctx, w, s);
    } else if s != Boot && s != Crash {
      WorkIsKnown(ctx, w, w.proc.value, s);
    }
  }

  /** Damage makes no tombstone. */
  lemma DamageIsKnown(ctx: Ctx, w: World, s: Step)
    requires AllKnown(w) && Possible(ctx, w, s) && IsDamage(s)
    ensures AllKnown(Next(ctx, w, s))
  {
    if s.CorruptQuarantined? {
      var d, d' := w.disk, Next(ctx, w, s).disk;
      assert forall a | a in d'.quarantined && a != s.name :: d'.quarantined[a] == d.quarantined[a];
      assert forall f | f in d'.quarantined[s.name] && f != s.file ::
          d'.quarantined[s.name][f] == d.quarantined[s.name][f];
    }
  }

  lemma {:induction false} RunIsKnown(ctx: Ctx, worlds: seq<World>, steps: seq<Step>, n: nat)
    requires IsRun(ctx, worlds, steps) && n < |worlds|
    ensures AllKnown(worlds[n])
  {
    if n > 0 {
      RunIsKnown(ctx, worlds, steps, n - 1);
      RunKeeps(ctx, worlds, steps, n - 1);
      StepIsKnown(ctx, worlds[n - 1], steps[n - 1]);
    }
  }

  // ----- the theorems -----

  /** Neither id was admitted, in whatever assignment, or named in a reconciliation. */
  predicate NeverUsed(w: World, q: Request)
  {
    && q.assignmentId !in w.admitted && q.envelopeId !in w.admitted.Values
    && forall t | t in w.reconciled :: t.assignmentId != q.assignmentId && t.envelopeId != q.envelopeId
  }

  /** In every reachable world, damage included, a request whose ids were never used is
      admissible when nothing is ambiguous and no directory has its name: what is live, and
      what else is on disk, does not matter. */
  lemma UnusedIsAdmissible(ctx: Ctx, worlds: seq<World>, steps: seq<Step>, n: nat, q: Request)
    requires IsRun(ctx, worlds, steps) && n < |worlds| && worlds[n].proc.Some?
    requires worlds[n].proc.value.ambiguous == {} && q.assignmentId !in worlds[n].disk.runs
    requires NeverUsed(worlds[n], q)
    ensures Admissible(worlds[n].proc.value, worlds[n].disk, q)
  {
    RunKeeps(ctx, worlds, steps, n);
    RunIsKnown(ctx, worlds, steps, n);
    KnownIsUnused(worlds[n], worlds[n].proc.value, q);
  }

  lemma KnownIsUnused(w: World, p: Proc, q: Request)
    requires Inv(w) && AllKnown(w) && w.proc == Some(p) && NeverUsed(w, q)
    requires p.ambiguous == {} && q.assignmentId !in w.disk.runs
    ensures Admissible(p, w.disk, q)
  {
    LiveDiffer(w, p, q);
    DurableDiffer(w, q);
    assert q.assignmentId in p.tombstones ==> Known(w.admitted, w.reconciled, p.tombstones[q.assignmentId]);
    assert q.envelopeId in p.envelopeTombstones ==>
        Known(w.admitted, w.reconciled, Tombstone(p.envelopeTombstones[q.envelopeId], q.envelopeId));
  }

  lemma LiveDiffer(w: World, p: Proc, q: Request)
    requires Inv(w) && w.proc == Some(p) && NeverUsed(w, q)
    ensures q.assignmentId !in p.runs && forall a | a in p.runs :: p.runs[a].request.envelopeId != q.envelopeId
  {
    forall a | a in p.runs ensures a != q.assignmentId && p.runs[a].request.envelopeId != q.envelopeId {
      assert RunOk(p.runs[a], a, w.disk, w.admitted);
    }
  }

  lemma DurableDiffer(w: World, q: Request)
    requires Inv(w) && NeverUsed(w, q)
    ensures forall a | a in w.disk.runs && ParsedRequest(w.disk.runs[a]).Some? ::
              ParsedRequest(w.disk.runs[a]).value.envelopeId != q.envelopeId
    ensures forall a | a in w.disk.quarantined && ParsedRequest(w.disk.quarantined[a]).Some? ::
              ParsedRequest(w.disk.quarantined[a]).value.envelopeId != q.envelopeId
  {
    forall a | a in w.disk.runs && ParsedRequest(w.disk.runs[a]).Some?
      ensures ParsedRequest(w.disk.runs[a]).value.envelopeId != q.envelopeId
    {
      assert RunDirOk(w.disk.runs[a], a, w.admitted);
    }
    forall a | a in w.disk.quarantined && ParsedRequest(w.disk.quarantined[a]).Some?
      ensures ParsedRequest(w.disk.quarantined[a]).value.envelopeId != q.envelopeId
    {
      assert QuarantineDirOk(w.disk.quarantined[a], a, w.admitted);
    }
  }

  lemma ReachableIsKnown(ctx: Ctx, intact: bool, w: World)
    requires Reachable(ctx, intact, w)
    ensures Inv(w) && AllKnown(w)
  {
    var worlds, steps :| EndsIn(ctx, worlds, steps, w);
    RunKeeps(ctx, worlds, steps, |worlds| - 1);
    RunIsKnown(ctx, worlds, steps, |worlds| - 1);
  }
}
