/** What a running service never forgets, whatever happens to its files: live runs, their
    receipts, tombstones, and what blocks admission. */
module AdmissionMemory {
  import opened Options
  import opened EventLog
  import opened RunJournal
  import opened Admission
  import opened AdmissionSafety
  import Journey

  /** A run that was not recovered has its cancellation among its events, and its runner from
      its start until its receipt; a recovered one never has a runner; work under way was
      announced. */
  ghost predicate Coherent(run: Run)
  {
    && ThreadOk(run) && (run.thread.Finishing? ==> IsTerminal(run.thread.status))
    && (!run.recovered ==> (run.cancelRequested <==> Has(run.events, CancelRequested)))
    && (run.recovered ==> !run.runner)
    && (!run.recovered && run.receipt == None && Has(run.events, Started) ==> run.runner)
    && (run.thread in {Entered, Working} ==> Has(run.events, Started))
  }

  ghost predicate Threads(p: Proc)
  {
    forall a | a in p.runs :: Coherent(p.runs[a])
  }

  /** A receipt that is set, and the log it covers, stay. */
  predicate KeepsReceipt(run: Run, later: Run)
  {
    run.receipt.Some? ==> later.receipt == run.receipt && later.events == run.events
  }

  /** What the step does to the run of `a`, if anything. */
  function ActionOn(p: Proc, s: Step, a: string): (act: Option<Action>)
  {
    if s.RunAct? && s.id == a then Some(s.action)
    else if s.Launch? && p.op.Announcing? && p.op.request.assignmentId == a then Some(Spawn)
    else None
  }

  /** Live runs stay live, and change by their own actions alone. */
  ghost predicate ByActions(ctx: Ctx, p: Proc, later: Proc, s: Step)
  {
    forall a | a in p.runs ::
      && a in later.runs
      && match ActionOn(p, s, a)
         case None => later.runs[a] == p.runs[a]
         case Some(act) => Enabled(ctx, p.runs[a], act) && later.runs[a] == AfterMemory(ctx, p.runs[a], act)
  }

  /** The name whose ambiguity the step lifts. */
  function Lifted(p: Proc, s: Step): (names: set<string>)
  {
    if s.WriteReconciled? && p.op.Reconciling? then {p.op.name} else {}
  }

  ghost predicate Remembers(ctx: Ctx, p: Proc, later: Proc, s: Step)
  {
    && ByActions(ctx, p, later, s) && Threads(later)
    && p.tombstones.Keys <= later.tombstones.Keys
    && p.envelopeTombstones.Keys <= later.envelopeTombstones.Keys
    && p.ambiguous - Lifted(p, s) <= later.ambiguous
    && (later.op.Reconciling? ==> s.Reconcile? || later.op == p.op)
  }

  lemma LoadingRemembers(ctx: Ctx, w: World, p: Proc, a: string)
    requires w.proc == Some(p) && Ready(ctx, w.disk, p, w.admitted, LoadOrMove(a)) && Threads(p)
    ensures var w' := Work(ctx, w, p, LoadOrMove(a)); w'.proc.Some? && Remembers(ctx, p, w'.proc.value, LoadOrMove(a))
  {
    if LoadRun(ctx, w.disk.runs[a]).Some? {
      Journey.LoadedIsIdle(ctx, w.disk.runs[a]);
    }
  }

  lemma NewIsCoherent(q: Request, note: string)
    ensures Coherent(Emit(Run(q, [], None, false, false, false, NoThread, Idle), Admitted, note))
  {
  }

  lemma PublishingRemembers(ctx: Ctx, w: World, p: Proc, note: string)
    requires Inv(w) && w.proc == Some(p) && Ready(ctx, w.disk, p, w.admitted, Publish(note)) && Threads(p)
    ensures var w' := Work(ctx, w, p, Publish(note)); w'.proc.Some? && Remembers(ctx, p, w'.proc.value, Publish(note))
  {
    NewIsCoherent(p.op.request, note);
  }

  lemma HasMore(events: seq<Event>, e: Event)
    ensures forall name :: Has(events + [e], name) <==> Has(events, name) || e.name == name
  {
    var more := events + [e];
    forall name ensures Has(more, name) <==> Has(events, name) || e.name == name {
      assert more[|events|] == e;
      if i :| 0 <= i < |events| && events[i].name == name {
        assert more[i] == events[i];
      }
    }
  }

  lemma ActingRemembers(ctx: Ctx, run: Run, act: Action)
    requires Coherent(run) && Enabled(ctx, run, act)
    ensures KeepsReceipt(run, AfterMemory(ctx, run, act)) && Coherent(AfterMemory(ctx, run, act))
  {
    ActionKeepsThread(ctx, run, act);
    var later := AfterMemory(ctx, run, act);
    if later.events != run.events {
      var e := later.events[|run.events|];
      assert later.events == run.events + [e];
      HasMore(run.events, e);
    }
  }

  lemma ServingRemembers(ctx: Ctx, w: World, p: Proc, s: Step)
    requires w.proc == Some(p) && Ready(ctx, w.disk, p, w.admitted, s) && Threads(p)
    requires s.Launch? || s.RunAct?
    ensures var w' := Work(ctx, w, p, s); w'.proc.Some? && Remembers(ctx, p, w'.proc.value, s)
  {
    var a := if s.RunAct? then s.id else p.op.request.assignmentId;
    ActingRemembers(ctx, p.runs[a], if s.RunAct? then s.action else Spawn);
  }

  lemma ReadingRemembers(ctx: Ctx, w: World, p: Proc, a: string)
    requires w.proc == Some(p) && Ready(ctx, w.disk, p, w.admitted, ReadTombstone(a)) && Threads(p)
    ensures var w' := Work(ctx, w, p, ReadTombstone(a));
            w'.proc.Some? && Remembers(ctx, p, w'.proc.value, ReadTombstone(a))
  {
  }

  lemma RecoveryRemembers(ctx: Ctx, w: World, p: Proc, s: Step)
    requires w.proc == Some(p) && Ready(ctx, w.disk, p, w.admitted, s) && Threads(p)
    requires IsRecoveryStep(s) && !s.LoadOrMove? && !s.ReadTombstone?
    ensures var w' := Work(ctx, w, p, s); w'.proc.Some? && Remembers(ctx, p, w'.proc.value, s)
  {
  }

  lemma QuarantineRemembers(ctx: Ctx, w: World, p: Proc, s: Step)
    requires w.proc == Some(p) && Ready(ctx, w.disk, p, w.admitted, s) && Threads(p)
    requires IsQuarantineStep(s) && !s.WriteTombstone?
    ensures var w' := Work(ctx, w, p, s); w'.proc.Some? && Remembers(ctx, p, w'.proc.value, s)
  {
  }

  lemma TombstoningRemembers(ctx: Ctx, w: World, p: Proc)
    requires w.proc == Some(p) && Ready(ctx, w.disk, p, w.admitted, WriteTombstone) && Threads(p)
    ensures var w' := Work(ctx, w, p, WriteTombstone); w'.proc.Some? && Remembers(ctx, p, w'.proc.value, WriteTombstone)
  {
  }

  lemma OperatorRemembers(ctx: Ctx, w: World, p: Proc, s: Step)
    requires w.proc == Some(p) && Ready(ctx, w.disk, p, w.admitted, s) && Threads(p) && IsOperatorStep(s)
    ensures var w' := Work(ctx, w, p, s); w'.proc.Some? && Remembers(ctx, p, w'.proc.value, s)
  {
  }

  lemma MakingRemembers(ctx: Ctx, w: World, p: Proc, s: Step)
    requires w.proc == Some(p) && Ready(ctx, w.disk, p, w.admitted, s) && Threads(p)
    requires s.Admit? || s.StageRequest? || s.WriteRequest?
    ensures var w' := Work(ctx, w, p, s); w'.proc.Some? && Remembers(ctx, p, w'.proc.value, s)
  {
  }

  lemma WorkRemembers(ctx: Ctx, w: World, p: Proc, s: Step)
    requires Inv(w) && w.proc == Some(p) && Ready(ctx, w.disk, p, w.admitted, s) && s != Crash && Threads(p)
    ensures var w' := Work(ctx, w, p, s); w'.proc.Some? && Remembers(ctx, p, w'.proc.value, s)
  {
    if IsRecoveryStep(s) {
      LoadingOrReadingRemembers(ctx, w, p, s);
    } else if s.WriteTombstone? {
      TombstoningRemembers(ctx, w, p);
    } else if IsQuarantineStep(s) {
      QuarantineRemembers(ctx, w, p, s);
    } else if IsOperatorStep(s) {
      OperatorRemembers(ctx, w, p, s);
    } else if s.Publish? {
      PublishingRemembers(ctx, w, p, s.note);
    } else if s.Launch? || s.RunAct? {
      ServingRemembers(ctx, w, p, s);
    } else {
      MakingRemembers(ctx, w, p, s);
    }
  }

  lemma LoadingOrReadingRemembers(ctx: Ctx, w: World, p: Proc, s: Step)
    requires w.proc == Some(p) && Ready(ctx, w.disk, p, w.admitted, s) && Threads(p) && IsRecoveryStep(s)
    ensures var w' := Work(ctx, w, p, s); w'.proc.Some? && Remembers(ctx, p, w'.proc.value, s)
  {
    if s.LoadOrMove? {
      LoadingRemembers(ctx, w, p, s.name);
    } else if s.ReadTombstone? {
      ReadingRemembers(ctx, w, p, s.name);
    } else {
      RecoveryRemembers(ctx, w, p, s);
    }
  }

  /** Every step but a crash, damage included, leaves the process with what it knew. */
  lemma StepRemembers(ctx: Ctx, w: World, s: Step)
    requires Inv(w) && Possible(ctx, w, s) && s != Crash && w.proc.Some? && Threads(w.proc.value)
    ensures var w' := Next(ctx, w, s); w'.proc.Some? && Remembers(ctx, w.proc.value, w'.proc.value, s)
  {
    if !IsDamage(s) {
      WorkRemembers(ctx, w, w.proc.value, s);
    }
  }

  lemma StepKeepsThreads(ctx: Ctx, w: World, s: Step)
    requires Inv(w) && Possible(ctx, w, s) && (w.proc.Some? ==> Threads(w.proc.value))
    ensures var w' := Next(ctx, w, s); w'.proc.Some? ==> Threads(w'.proc.value)
  {
    if s != Crash && s != Boot && w.proc.Some? {
      StepRemembers(ctx, w, s);
    }
  }

  lemma {:induction false} RunThreads(ctx: Ctx, worlds: seq<World>, steps: seq<Step>, n: nat)
    requires IsRun(ctx, worlds, steps) && n < |worlds|
    ensures Inv(worlds[n]) && (worlds[n].proc.Some? ==> Threads(worlds[n].proc.value))
  {
    RunKeeps(ctx, worlds, steps, n);
    if n > 0 {
      RunThreads(ctx, worlds, steps, n - 1);
      StepKeepsThreads(ctx, worlds[n - 1], steps[n - 1]);
    }
  }

  /** The run is live, and has kept the receipt it had as `run`. */
  predicate LiveSince(run: Run, w: World, a: string)
  {
    w.proc.Some? && a in w.proc.value.runs && KeepsReceipt(run, w.proc.value.runs[a])
  }

  lemma StaysLive(ctx: Ctx, run: Run, w: World, s: Step, a: string)
    requires Inv(w) && Possible(ctx, w, s) && s != Crash && (w.proc.Some? ==> Threads(w.proc.value))
    requires LiveSince(run, w, a)
    ensures LiveSince(run, Next(ctx, w, s), a)
  {
    StepRemembers(ctx, w, s);
    var p := w.proc.value;
    if ActionOn(p, s, a).Some? {
      ActingRemembers(ctx, p.runs[a], ActionOn(p, s, a).value);
    }
  }

  lemma StaysLiveAt(ctx: Ctx, worlds: seq<World>, steps: seq<Step>, k: nat, run: Run, a: string)
    requires IsRun(ctx, worlds, steps) && k < |steps| && steps[k] != Crash && LiveSince(run, worlds[k], a)
    ensures LiveSince(run, worlds[k + 1], a)
  {
    RunThreads(ctx, worlds, steps, k);
    StaysLive(ctx, run, worlds[k], steps[k], a);
  }

  /** No step from `m` to `n` ends the process. */
  predicate Uninterrupted(steps: seq<Step>, m: nat, n: nat)
  {
    forall i | m <= i < n && i < |steps| :: steps[i] != Crash
  }

  /** Over every run, damage included: until the process ends, a live run stays live, and its
      receipt once set, durable or not, never changes, nor does the log it covers. */
  lemma {:induction false} ReceiptsAreFinalInProcess(
      ctx: Ctx, worlds: seq<World>, steps: seq<Step>, m: nat, n: nat, a: string)
    requires IsRun(ctx, worlds, steps) && m <= n < |worlds| && Uninterrupted(steps, m, n)
    requires worlds[m].proc.Some? && a in worlds[m].proc.value.runs
    ensures LiveSince(worlds[m].proc.value.runs[a], worlds[n], a)
    decreases n
  {
    if m < n {
      ReceiptsAreFinalInProcess(ctx, worlds, steps, m, n - 1, a);
      StaysLiveAt(ctx, worlds, steps, n - 1, worlds[m].proc.value.runs[a], a);
    }
  }

  // ----- what was admitted -----

  lemma WorkAdmitsNothing(ctx: Ctx, w: World, p: Proc, s: Step)
    requires w.proc == Some(p) && Ready(ctx, w.disk, p, w.admitted, s) && s != Crash && s != WriteRequest
    ensures Work(ctx, w, p, s).admitted == w.admitted
  {
  }

  lemma NothingAdmitted(ctx: Ctx, w: World, s: Step)
    requires Possible(ctx, w, s) && s != WriteRequest
    ensures Next(ctx, w, s).admitted == w.admitted
  {
    if s != Boot && s != Crash && !IsDamage(s) {
      WorkAdmitsNothing(ctx, w, w.proc.value, s);
    }
  }

  lemma OneMoreAdmitted(ctx: Ctx, w: World, p: Proc, a: string)
    requires Inv(w) && w.proc == Some(p) && Ready(ctx, w.disk, p, w.admitted, WriteRequest) && a in w.admitted
    ensures var w' := Work(ctx, w, p, WriteRequest); a in w'.admitted && w'.admitted[a] == w.admitted[a]
  {
  }

  /** What was admitted under an id stays as it is. */
  lemma StaysAdmitted(ctx: Ctx, w: World, s: Step, a: string)
    requires Inv(w) && Possible(ctx, w, s) && a in w.admitted
    ensures var w' := Next(ctx, w, s); a in w'.admitted && w'.admitted[a] == w.admitted[a]
  {
    if s == WriteRequest {
      OneMoreAdmitted(ctx, w, w.proc.value, a);
    } else {
      NothingAdmitted(ctx, w, s);
    }
  }
}
