/** What a run of the service says about how its work ended: each receipt has its cause, and
    each cause its receipt. */
module RunOutcomes {
  import opened Options
  import opened EventLog
  import opened RunJournal
  import opened Admission
  import opened AdmissionSafety
  import opened AdmissionMemory

  /** What a run that ends by an exception is: cancelled when that was asked for before, else
      refused or failed by the kind of the exception. */
  function AfterException(cancelled: bool, refused: bool): (status: EventName)
  {
    if cancelled then Cancelled else if refused then Refused else Failed
  }

  /** The status an action settles, by the events before it. */
  function Verdict(run: Run, act: Action): (status: Option<EventName>)
  {
    var cancelled := Has(run.events, CancelRequested);
    match act
    case RunnerEnds(Returned(exit)) =>
      Some(if cancelled then Cancelled else if exit == 0 then Succeeded else Failed)
    case RunnerEnds(Raised(refused)) => Some(AfterException(cancelled, refused))
    case PrepareFails(refused) => Some(AfterException(cancelled, refused))
    case EnterStart(_) => if cancelled then Some(Cancelled) else None
    case Terminalize(status, _) => Some(status)
    case _ => None
  }

  /** The receipt and the last event say this status. */
  predicate Says(run: Run, status: EventName)
  {
    && run.receipt.Some? && run.receipt.value.status == status
    && run.events != [] && run.events[|run.events| - 1].name == status
  }

  // ----- one action -----

  lemma ActSettles(ctx: Ctx, run: Run, act: Action)
    requires Coherent(run) && Enabled(ctx, run, act) && Verdict(run, act).Some?
    ensures var later, status := AfterMemory(ctx, run, act), Verdict(run, act).value;
            if act.Terminalize? then Says(later, status) else later.thread == Finishing(status)
  {
  }

  lemma StaysSettled(ctx: Ctx, run: Run, act: Action)
    requires run.thread.Finishing? && Coherent(run) && Enabled(ctx, run, act)
    ensures if act.EnterFinish? then Says(AfterMemory(ctx, run, act), run.thread.status)
            else AfterMemory(ctx, run, act).thread == run.thread
  {
  }

  // ----- from the cause to the receipt -----

  predicate Settled(w: World, a: string, status: EventName)
  {
    w.proc.Some? && a in w.proc.value.runs && w.proc.value.runs[a].thread == Finishing(status)
  }

  predicate Concludes(s: Step, a: string) { s.RunAct? && s.id == a && s.action.EnterFinish? }

  lemma StepStaysSettled(ctx: Ctx, w: World, s: Step, a: string, status: EventName)
    requires Inv(w) && Possible(ctx, w, s) && s != Crash && (w.proc.Some? ==> Threads(w.proc.value))
    requires Settled(w, a, status)
    ensures var w' := Next(ctx, w, s);
            if Concludes(s, a) then
              w'.proc.Some? && a in w'.proc.value.runs && Says(w'.proc.value.runs[a], status)
            else Settled(w', a, status)
  {
    StepRemembers(ctx, w, s);
    var p := w.proc.value;
    if ActionOn(p, s, a).Some? {
      StaysSettled(ctx, p.runs[a], ActionOn(p, s, a).value);
    }
  }

  lemma StepSettles(ctx: Ctx, w: World, s: Step)
    requires Inv(w) && Possible(ctx, w, s) && w.proc.Some? && Threads(w.proc.value)
    requires s.RunAct? && Verdict(w.proc.value.runs[s.id], s.action).Some?
    ensures var w', status := Next(ctx, w, s), Verdict(w.proc.value.runs[s.id], s.action).value;
            if s.action.Terminalize? then
              w'.proc.Some? && s.id in w'.proc.value.runs && Says(w'.proc.value.runs[s.id], status)
            else Settled(w', s.id, status)
  {
    StepRemembers(ctx, w, s);
    ActSettles(ctx, w.proc.value.runs[s.id], s.action);
  }

  lemma SettledAt(ctx: Ctx, worlds: seq<World>, steps: seq<Step>, k: nat, a: string, status: EventName)
    requires IsRun(ctx, worlds, steps) && k < |steps| && steps[k] != Crash && !Concludes(steps[k], a)
    requires Settled(worlds[k], a, status)
    ensures Settled(worlds[k + 1], a, status)
  {
    RunThreads(ctx, worlds, steps, k);
    StepStaysSettled(ctx, worlds[k], steps[k], a, status);
  }

  lemma {:induction false} SettledUntil(
      ctx: Ctx, worlds: seq<World>, steps: seq<Step>, m: nat, n: nat, a: string, status: EventName)
    requires IsRun(ctx, worlds, steps) && m <= n < |worlds| && Uninterrupted(steps, m, n)
    requires Settled(worlds[m], a, status) && forall k | m <= k < n :: !Concludes(steps[k], a)
    ensures Settled(worlds[n], a, status)
    decreases n
  {
    if m < n {
      SettledUntil(ctx, worlds, steps, m, n - 1, a, status);
      SettledAt(ctx, worlds, steps, n - 1, a, status);
    }
  }

  /** Over every run, damage included: what ends a run's work settles the status its next
      conclusion says, if the process lives until then. */
  lemma StatusIsTold(ctx: Ctx, worlds: seq<World>, steps: seq<Step>, m: nat, n: nat, status: EventName)
    requires IsRun(ctx, worlds, steps) && m < n < |steps| && Uninterrupted(steps, m, n)
    requires steps[m].RunAct? && !steps[m].action.Terminalize?
    requires Possible(ctx, worlds[m], steps[m])
    requires Verdict(worlds[m].proc.value.runs[steps[m].id], steps[m].action) == Some(status)
    requires Concludes(steps[n], steps[m].id) && forall k | m < k < n :: !Concludes(steps[k], steps[m].id)
    ensures worlds[n + 1].proc.Some? && steps[m].id in worlds[n + 1].proc.value.runs
    ensures Says(worlds[n + 1].proc.value.runs[steps[m].id], status)
  {
    RunThreads(ctx, worlds, steps, m);
    StepSettles(ctx, worlds[m], steps[m]);
    SettledUntil(ctx, worlds, steps, m + 1, n, steps[m].id, status);
    RunThreads(ctx, worlds, steps, n);
    StepStaysSettled(ctx, worlds[n], steps[n], steps[m].id, status);
  }

  /** Contained work runs only after its start is among the run's events. */
  lemma WorkIsAnnounced(ctx: Ctx, worlds: seq<World>, steps: seq<Step>, k: nat, a: string)
    requires IsRun(ctx, worlds, steps) && k < |steps| && steps[k] == RunAct(a, CallRunner)
    ensures worlds[k].proc.Some? && a in worlds[k].proc.value.runs
    ensures Has(worlds[k].proc.value.runs[a].events, Started)
  {
    RunThreads(ctx, worlds, steps, k);
    assert Possible(ctx, worlds[k], steps[k]);
    assert Coherent(worlds[k].proc.value.runs[a]);
  }

  // ----- from the receipt to the cause -----

  /** The status a step settles for an assignment. */
  function CauseAt(w: World, s: Step): (causes: set<(string, EventName)>)
  {
    if s.RunAct? && w.proc.Some? && s.id in w.proc.value.runs && Verdict(w.proc.value.runs[s.id], s.action).Some? then
      {(s.id, Verdict(w.proc.value.runs[s.id], s.action).value)}
    else {}
  }

  function Causes(worlds: seq<World>, steps: seq<Step>, n: nat): (causes: set<(string, EventName)>)
    requires n <= |steps| <= |worlds|
  {
    if n == 0 then {} else Causes(worlds, steps, n - 1) + CauseAt(worlds[n - 1], steps[n - 1])
  }

  lemma {:induction false} CauseIsAStep(worlds: seq<World>, steps: seq<Step>, n: nat, a: string, status: EventName)
      returns (k: nat)
    requires n <= |steps| <= |worlds| && (a, status) in Causes(worlds, steps, n)
    ensures k < n && (a, status) in CauseAt(worlds[k], steps[k])
  {
    if (a, status) in CauseAt(worlds[n - 1], steps[n - 1]) {
      k := n - 1;
    } else {
      k := CauseIsAStep(worlds, steps, n - 1, a, status);
    }
  }

  ghost predicate RunTraced(run: Run, a: string, causes: set<(string, EventName)>)
  {
    && (run.receipt.Some? ==> (a, run.receipt.value.status) in causes)
    && (run.thread.Finishing? ==> (a, run.thread.status) in causes)
  }

  ghost predicate DirTraced(dir: Dir, a: string, causes: set<(string, EventName)>)
  {
    ReceiptFile in dir && dir[ReceiptFile].ReceiptDoc? ==> (a, dir[ReceiptFile].receipt.status) in causes
  }

  /** Every receipt, in memory or on disk, and every settled status has its cause. */
  ghost predicate Traced(w: World, causes: set<(string, EventName)>)
  {
    && (w.proc.Some? ==> forall a | a in w.proc.value.runs :: RunTraced(w.proc.value.runs[a], a, causes))
    && forall a | a in w.disk.runs :: DirTraced(w.disk.runs[a], a, causes)
  }

  lemma ActTraced(ctx: Ctx, run: Run, act: Action, a: string, causes: set<(string, EventName)>)
    requires Coherent(run) && Enabled(ctx, run, act) && RunTraced(run, a, causes)
    ensures var more := if Verdict(run, act).Some? then {(a, Verdict(run, act).value)} else {};
            RunTraced(AfterMemory(ctx, run, act), a, causes + more)
  {
  }

  /** Where a run comes from that was not live before. */
  predicate Arrives(ctx: Ctx, w: World, s: Step, a: string, run: Run)
  {
    || (a in w.disk.runs && LoadRun(ctx, w.disk.runs[a]) == Some(run))
    || (run.receipt == None && run.thread == NoThread)
  }

  lemma LoadingArrives(ctx: Ctx, w: World, p: Proc, b: string, a: string)
    requires Inv(w) && w.proc == Some(p) && Ready(ctx, w.disk, p, w.admitted, LoadOrMove(b))
    requires a in Work(ctx, w, p, LoadOrMove(b)).proc.value.runs && a !in p.runs
    ensures Arrives(ctx, w, LoadOrMove(b), a, Work(ctx, w, p, LoadOrMove(b)).proc.value.runs[a])
  {
    assert RunDirOk(w.disk.runs[b], b, w.admitted);
  }

  lemma OtherArrives(ctx: Ctx, w: World, p: Proc, s: Step, a: string)
    requires w.proc == Some(p) && Ready(ctx, w.disk, p, w.admitted, s) && s != Crash && !s.LoadOrMove?
    requires Work(ctx, w, p, s).proc.Some? && a in Work(ctx, w, p, s).proc.value.runs && a !in p.runs
    ensures Arrives(ctx, w, s, a, Work(ctx, w, p, s).proc.value.runs[a])
  {
  }

  lemma StepArrives(ctx: Ctx, w: World, s: Step, a: string)
    requires Inv(w) && Possible(ctx, w, s) && s != Crash && w.proc.Some?
    requires Next(ctx, w, s).proc.Some? && a in Next(ctx, w, s).proc.value.runs && a !in w.proc.value.runs
    ensures Arrives(ctx, w, s, a, Next(ctx, w, s).proc.value.runs[a])
  {
    if s.LoadOrMove? {
      LoadingArrives(ctx, w, w.proc.value, s.name, a);
    } else if !IsDamage(s) {
      OtherArrives(ctx, w, w.proc.value, s, a);
    }
  }

  /** The receipt file was there before, or it is the run's own receipt. */
  ghost predicate ReceiptKept(w: World, s: Step, d: Disk, a: string)
    requires a in d.runs
  {
    var dir := d.runs[a];
    ReceiptFile in dir && dir[ReceiptFile].ReceiptDoc? ==>
      || (a in w.disk.runs && ReceiptFile in w.disk.runs[a] && w.disk.runs[a][ReceiptFile] == dir[ReceiptFile])
      || (w.proc.Some? && a in w.proc.value.runs && w.proc.value.runs[a].receipt == Some(dir[ReceiptFile].receipt))
  }

  lemma RecoveryKeepsReceipts(ctx: Ctx, w: World, p: Proc, s: Step, a: string)
    requires w.proc == Some(p) && Ready(ctx, w.disk, p, w.admitted, s) && IsRecoveryStep(s)
    requires a in Work(ctx, w, p, s).disk.runs
    ensures ReceiptKept(w, s, Work(ctx, w, p, s).disk, a)
  {
  }

  lemma AsideKeepsReceipts(ctx: Ctx, w: World, p: Proc, s: Step, a: string)
    requires w.proc == Some(p) && Ready(ctx, w.disk, p, w.admitted, s) && (IsQuarantineStep(s) || IsOperatorStep(s))
    requires a in Work(ctx, w, p, s).disk.runs
    ensures ReceiptKept(w, s, Work(ctx, w, p, s).disk, a)
  {
  }

  lemma MakingKeepsReceipts(ctx: Ctx, w: World, p: Proc, s: Step, a: string)
    requires w.proc == Some(p) && Ready(ctx, w.disk, p, w.admitted, s)
    requires s.Admit? || s.StageRequest? || s.WriteRequest? || s.Publish? || s.Launch?
    requires a in Work(ctx, w, p, s).disk.runs
    ensures ReceiptKept(w, s, Work(ctx, w, p, s).disk, a)
  {
  }

  lemma ActingKeepsReceipts(ctx: Ctx, w: World, p: Proc, s: Step, a: string)
    requires w.proc == Some(p) && Ready(ctx, w.disk, p, w.admitted, s) && s.RunAct?
    requires a in Work(ctx, w, p, s).disk.runs
    ensures ReceiptKept(w, s, Work(ctx, w, p, s).disk, a)
  {
  }

  lemma StepKeepsReceipts(ctx: Ctx, w: World, s: Step, a: string)
    requires Possible(ctx, w, s) && a in Next(ctx, w, s).disk.runs
    ensures ReceiptKept(w, s, Next(ctx, w, s).disk, a)
  {
    if s != Boot && s != Crash && !IsDamage(s) {
      var p := w.proc.value;
      if IsRecoveryStep(s) {
        RecoveryKeepsReceipts(ctx, w, p, s, a);
      } else if IsQuarantineStep(s) || IsOperatorStep(s) {
        AsideKeepsReceipts(ctx, w, p, s, a);
      } else if s.RunAct? {
        ActingKeepsReceipts(ctx, w, p, s, a);
      } else {
        MakingKeepsReceipts(ctx, w, p, s, a);
      }
    }
  }

  lemma LiveStaysTraced(ctx: Ctx, w: World, s: Step, a: string, causes: set<(string, EventName)>)
    requires Inv(w) && Possible(ctx, w, s) && s != Crash && w.proc.Some? && Threads(w.proc.value)
    requires a in w.proc.value.runs && RunTraced(w.proc.value.runs[a], a, causes)
    ensures var w' := Next(ctx, w, s);
            w'.proc.Some? && a in w'.proc.value.runs && RunTraced(w'.proc.value.runs[a], a, causes + CauseAt(w, s))
  {
    var p := w.proc.value;
    StepRemembers(ctx, w, s);
    if ActionOn(p, s, a).Some? {
      ActTraced(ctx, p.runs[a], ActionOn(p, s, a).value, a, causes);
    }
  }

  lemma LoadedIsTraced(ctx: Ctx, dir: Dir, a: string, causes: set<(string, EventName)>)
    requires LoadRun(ctx, dir).Some? && DirTraced(dir, a, causes)
    ensures RunTraced(LoadRun(ctx, dir).value, a, causes)
  {
  }

  lemma NewIsTraced(ctx: Ctx, w: World, s: Step, a: string, causes: set<(string, EventName)>)
    requires Inv(w) && Possible(ctx, w, s) && s != Crash && w.proc.Some? && Traced(w, causes)
    requires Next(ctx, w, s).proc.Some? && a in Next(ctx, w, s).proc.value.runs && a !in w.proc.value.runs
    ensures RunTraced(Next(ctx, w, s).proc.value.runs[a], a, causes)
  {
    StepArrives(ctx, w, s, a);
    if a in w.disk.runs && LoadRun(ctx, w.disk.runs[a]).Some? {
      LoadedIsTraced(ctx, w.disk.runs[a], a, causes);
    }
  }

  lemma StepStaysTraced(ctx: Ctx, w: World, s: Step, causes: set<(string, EventName)>)
    requires Inv(w) && Possible(ctx, w, s) && (w.proc.Some? ==> Threads(w.proc.value)) && Traced(w, causes)
    ensures Traced(Next(ctx, w, s), causes + CauseAt(w, s))
  {
    var w' := Next(ctx, w, s);
    forall a | a in w'.disk.runs ensures DirTraced(w'.disk.runs[a], a, causes + CauseAt(w, s)) {
      StepKeepsReceipts(ctx, w, s, a);
    }
    if w'.proc.Some? && s != Boot && w.proc.Some? {
      forall a | a in w'.proc.value.runs ensures RunTraced(w'.proc.value.runs[a], a, causes + CauseAt(w, s)) {
        if a in w.proc.value.runs {
          LiveStaysTraced(ctx, w, s, a, causes);
        } else {
          NewIsTraced(ctx, w, s, a, causes);
        }
      }
    }
  }

  lemma {:induction false} RunIsTraced(ctx: Ctx, worlds: seq<World>, steps: seq<Step>, n: nat)
    requires IsRun(ctx, worlds, steps) && n < |worlds|
    ensures Traced(worlds[n], Causes(worlds, steps, n))
  {
    if n > 0 {
      RunIsTraced(ctx, worlds, steps, n - 1);
      RunThreads(ctx, worlds, steps, n - 1);
      StepStaysTraced(ctx, worlds[n - 1], steps[n - 1], Causes(worlds, steps, n - 1));
    }
  }

  /** Over every run, crashes, restarts and damage included: a receipt's status was settled by a
      step of its own assignment. */
  lemma ReceiptHasCause(ctx: Ctx, worlds: seq<World>, steps: seq<Step>, n: nat, a: string) returns (k: nat)
    requires IsRun(ctx, worlds, steps) && n < |worlds| && worlds[n].proc.Some? && a in worlds[n].proc.value.runs
    requires worlds[n].proc.value.runs[a].receipt.Some?
    ensures k < n && worlds[k].proc.Some? && a in worlds[k].proc.value.runs
    ensures steps[k].RunAct? && steps[k].id == a
    ensures Verdict(worlds[k].proc.value.runs[a], steps[k].action)
            == Some(worlds[n].proc.value.runs[a].receipt.value.status)
  {
    RunIsTraced(ctx, worlds, steps, n);
    k := CauseIsAStep(worlds, steps, n, a, worlds[n].proc.value.runs[a].receipt.value.status);
  }

  /** So a run is reported to have succeeded only if its work returned zero and nobody had asked
      to cancel it by then. */
  lemma SuccessIsEarned(ctx: Ctx, worlds: seq<World>, steps: seq<Step>, n: nat, a: string) returns (k: nat)
    requires IsRun(ctx, worlds, steps) && n < |worlds| && worlds[n].proc.Some? && a in worlds[n].proc.value.runs
    requires worlds[n].proc.value.runs[a].receipt.Some?
    requires worlds[n].proc.value.runs[a].receipt.value.status == Succeeded
    ensures k < n && steps[k] == RunAct(a, RunnerEnds(Returned(0)))
    ensures worlds[k].proc.Some? && a in worlds[k].proc.value.runs
    ensures !Has(worlds[k].proc.value.runs[a].events, CancelRequested)
  {
    k := ReceiptHasCause(ctx, worlds, steps, n, a);
    assert Possible(ctx, worlds[k], steps[k]);
  }

  // ----- receipts and logs -----

  ghost predicate AllCover(ctx: Ctx, w: World)
  {
    w.proc.Some? ==> forall a | a in w.proc.value.runs :: ReceiptOk(ctx, w.proc.value.runs[a])
  }

  lemma ActCovers(ctx: Ctx, run: Run, act: Action)
    requires Coherent(run) && Enabled(ctx, run, act) && ReceiptOk(ctx, run)
    ensures ReceiptOk(ctx, AfterMemory(ctx, run, act))
  {
    ActingRemembers(ctx, run, act);
  }

  lemma LoadedCovers(ctx: Ctx, dir: Dir)
    requires LoadRun(ctx, dir).Some?
    ensures ReceiptOk(ctx, LoadRun(ctx, dir).value)
  {
  }

  lemma StepCovers(ctx: Ctx, w: World, s: Step, a: string)
    requires Inv(w) && Possible(ctx, w, s) && s != Crash && w.proc.Some? && Threads(w.proc.value) && AllCover(ctx, w)
    requires Next(ctx, w, s).proc.Some? && a in Next(ctx, w, s).proc.value.runs
    ensures ReceiptOk(ctx, Next(ctx, w, s).proc.value.runs[a])
  {
    var p := w.proc.value;
    if a !in p.runs {
      StepArrives(ctx, w, s, a);
      if a in w.disk.runs && LoadRun(ctx, w.disk.runs[a]).Some? {
        LoadedCovers(ctx, w.disk.runs[a]);
      }
    } else {
      StepRemembers(ctx, w, s);
      if ActionOn(p, s, a).Some? {
        ActCovers(ctx, p.runs[a], ActionOn(p, s, a).value);
      }
    }
  }

  lemma StepStaysCovered(ctx: Ctx, w: World, s: Step)
    requires Inv(w) && Possible(ctx, w, s) && (w.proc.Some? ==> Threads(w.proc.value)) && AllCover(ctx, w)
    ensures AllCover(ctx, Next(ctx, w, s))
  {
    if s != Crash && s != Boot && w.proc.Some? {
      var w' := Next(ctx, w, s);
      StepRemembers(ctx, w, s);
      forall a | a in w'.proc.value.runs ensures ReceiptOk(ctx, w'.proc.value.runs[a]) {
        StepCovers(ctx, w, s, a);
      }
    }
  }

  lemma {:induction false} RunCovers(ctx: Ctx, worlds: seq<World>, steps: seq<Step>, n: nat)
    requires IsRun(ctx, worlds, steps) && n < |worlds|
    ensures AllCover(ctx, worlds[n])
  {
    if n > 0 {
      RunCovers(ctx, worlds, steps, n - 1);
      RunThreads(ctx, worlds, steps, n - 1);
      StepStaysCovered(ctx, worlds[n - 1], steps[n - 1]);
    }
  }

  /** Over every run, damage included: a live run's receipt is of its own request, and its digest
      is that of the run's events. */
  lemma ReceiptsCoverTheirLogs(ctx: Ctx, worlds: seq<World>, steps: seq<Step>, n: nat, a: string)
    requires IsRun(ctx, worlds, steps) && n < |worlds| && worlds[n].proc.Some? && a in worlds[n].proc.value.runs
    requires worlds[n].proc.value.runs[a].receipt.Some?
    ensures var run := worlds[n].proc.value.runs[a];
            var r, q := run.receipt.value, run.request;
            && r.eventsDigest == ctx.digest(run.events) && r.assignmentId == q.assignmentId == r.runId == a
            && r.envelopeId == q.envelopeId && r.envelopeSha == q.envelopeSha && r.backend == q.backend
  {
    RunCovers(ctx, worlds, steps, n);
    RunKeeps(ctx, worlds, steps, n);
    assert RunOk(worlds[n].proc.value.runs[a], a, worlds[n].disk, worlds[n].admitted);
  }
}
