/** Every interleaving of a run's lock-held regions - start, cancel, finish,
    operator terminalization - with crashes and reloads between any two writes. */
module Journey {
  import opened Options
  import opened EventLog
  import opened RunJournal

  datatype State = State(dir: Dir, run: Run)

  datatype Step = Act(action: Action) | CrashAndReload

  ghost predicate CanStep(ctx: Ctx, s: State, step: Step)
  {
    match step
    case Act(a) => Enabled(ctx, s.run, a)
    case CrashAndReload => LoadRun(ctx, s.dir).Some?
  }

  ghost function Next(ctx: Ctx, s: State, step: Step): (s': State)
    requires CanStep(ctx, s, step)
  {
    match step
    case Act(a) => State(AfterDisk(ctx, s.run, s.dir, a), AfterMemory(ctx, s.run, a))
    case CrashAndReload => State(Compacted(ctx, s.dir), LoadRun(ctx, s.dir).value)
  }

  /** The run of a request that is durable and has done nothing yet. */
  function Unstarted(q: Request, recovered: bool): (run: Run)
  {
    Run(q, [], None, false, recovered, false, NoThread, Idle)
  }

  /** Just admitted: the request is durable, and the first event is about to be written, or
      a crash came before that and the request alone was loaded. */
  ghost predicate Begins(s: State)
  {
    && s.dir == map[RequestFile := RequestDoc(s.run.request)]
    && (s.run == Unstarted(s.run.request, true)
        || exists note :: s.run == Emit(Unstarted(s.run.request, false), Admitted, note))
  }

  ghost predicate IsPath(ctx: Ctx, states: seq<State>, steps: seq<Step>)
  {
    && |states| == |steps| + 1
    && forall i | 0 <= i < |steps| ::
         CanStep(ctx, states[i], steps[i]) && states[i + 1] == Next(ctx, states[i], steps[i])
  }

  ghost predicate IsJourney(ctx: Ctx, states: seq<State>, steps: seq<Step>)
  {
    IsPath(ctx, states, steps) && Begins(states[0])
  }

  // ----- what the event list looks like -----

  ghost predicate NoStartAfterCancel(events: seq<Event>)
  {
    forall i, j | 0 <= i < j < |events| :: events[i].name == CancelRequested ==> events[j].name != Started
  }

  ghost predicate Orderly(run: Run)
  {
    && NoStartAfterCancel(run.events)
    && (Has(run.events, CancelRequested) ==> run.cancelRequested || run.recovered)
    && (run.cancelRequested && run.receipt == None ==>
          run.events != [] && run.events[|run.events| - 1].name == CancelRequested)
  }

  lemma AppendOrderly(events: seq<Event>, e: Event)
    requires NoStartAfterCancel(events) && (e.name == Started ==> !Has(events, CancelRequested))
    ensures NoStartAfterCancel(events + [e])
    ensures Has(events + [e], CancelRequested) <==> Has(events, CancelRequested) || e.name == CancelRequested
  {
    var all := events + [e];
    if Has(events, CancelRequested) {
      var i :| 0 <= i < |events| && events[i].name == CancelRequested;
      assert all[i].name == CancelRequested;
    }
    if e.name == CancelRequested {
      assert all[|events|].name == CancelRequested;
    }
  }

  lemma ActionKeepsOrder(ctx: Ctx, run: Run, a: Action)
    requires Orderly(run) && ThreadOk(run) && Enabled(ctx, run, a) && (a.EnterFinish? ==> IsTerminal(run.thread.status))
    ensures Orderly(AfterMemory(ctx, run, a))
  {
    var run' := AfterMemory(ctx, run, a);
    if run'.events != run.events {
      AppendOrderly(run.events, run'.events[|run.events|]);
      assert run'.events == run.events + [run'.events[|run.events|]];
    }
  }

  /** A prefix of an orderly list is orderly. */
  lemma PrefixOrderly(events: seq<Event>, n: nat)
    requires NoStartAfterCancel(events) && n <= |events|
    ensures NoStartAfterCancel(events[..n])
  {
    forall i, j | 0 <= i < j < n && events[..n][i].name == CancelRequested ensures events[..n][j].name != Started {
      assert events[i].name == CancelRequested;
    }
  }

  // ----- the invariant along a journey -----

  ghost predicate StatusOk(run: Run) { run.thread.Finishing? ==> IsTerminal(run.thread.status) }

  ghost predicate Inv(ctx: Ctx, s: State)
  {
    Agrees(ctx, s.dir, s.run) && ThreadOk(s.run) && StatusOk(s.run) && Orderly(s.run)
  }

  lemma UnstartedAgrees(ctx: Ctx, q: Request, recovered: bool)
    ensures Agrees(ctx, map[RequestFile := RequestDoc(q)], Unstarted(q, recovered))
  {
  }

  lemma BeginsWell(ctx: Ctx, s: State)
    requires Begins(s)
    ensures Inv(ctx, s)
  {
    var q := s.run.request;
    if s.run == Unstarted(q, true) {
      UnstartedAgrees(ctx, q, true);
    } else {
      var note :| s.run == Emit(Unstarted(q, false), Admitted, note);
      UnstartedAgrees(ctx, q, false);
      EmitKeepsAgreement(ctx, s.dir, Unstarted(q, false), Admitted, note);
    }
  }

  lemma ReloadKeeps(ctx: Ctx, s: State)
    requires Lawful(ctx.codec) && Inv(ctx, s) && CanStep(ctx, s, CrashAndReload)
    ensures Inv(ctx, Next(ctx, s, CrashAndReload))
  {
    CrashedRunLoads(ctx, s.dir, s.run);
    var loaded := LoadRun(ctx, s.dir).value;
    assert loaded.events == s.run.events[..|loaded.events|];
    PrefixOrderly(s.run.events, |loaded.events|);
    LoadedIsIdle(ctx, s.dir);
  }

  lemma LoadedIsIdle(ctx: Ctx, dir: Dir)
    requires LoadRun(ctx, dir).Some?
    ensures var run := LoadRun(ctx, dir).value;
            ThreadOk(run) && StatusOk(run) && run.recovered && !run.cancelRequested && !run.runner
  {
  }

  lemma ActKeeps(ctx: Ctx, s: State, a: Action)
    requires Inv(ctx, s) && Enabled(ctx, s.run, a)
    ensures Inv(ctx, Next(ctx, s, Act(a)))
  {
    ActionKeepsAgreement(ctx, s.dir, s.run, a);
    ActionKeepsThread(ctx, s.run, a);
    ActionKeepsOrder(ctx, s.run, a);
  }

  lemma StepKeeps(ctx: Ctx, s: State, step: Step)
    requires Lawful(ctx.codec) && Inv(ctx, s) && CanStep(ctx, s, step)
    ensures Inv(ctx, Next(ctx, s, step))
  {
    match step
    case Act(a) => ActKeeps(ctx, s, a);
    case CrashAndReload => ReloadKeeps(ctx, s);
  }

  lemma {:induction false} JourneyKeeps(ctx: Ctx, states: seq<State>, steps: seq<Step>, n: nat)
    requires Lawful(ctx.codec) && IsJourney(ctx, states, steps) && n < |states|
    ensures Inv(ctx, states[n])
  {
    if n == 0 {
      BeginsWell(ctx, states[0]);
    } else {
      JourneyKeeps(ctx, states, steps, n - 1);
      StepKeeps(ctx, states[n - 1], steps[n - 1]);
    }
  }

  // ----- the theorems -----

  /** At every point: events are numbered without gaps, nothing starts after a
      cancellation, a receipt's digest covers the log exactly, and a cancellation
      that is accepted answers with the cancel_requested event. */
  lemma RegionsAreOrderly(ctx: Ctx, states: seq<State>, steps: seq<Step>, n: nat, note: string)
    requires Lawful(ctx.codec) && IsJourney(ctx, states, steps) && n < |states|
    ensures var run := states[n].run;
            && Contiguous(run.events, run.request.assignmentId)
            && NoStartAfterCancel(run.events)
            && (run.receipt.Some? ==> run.receipt.value.eventsDigest == ctx.digest(run.events))
            && (CancelAccepted(run) && run.cancelRequested ==> run.events != [])
            && (CancelAccepted(run) ==> CancelReply(run, note).name == CancelRequested)
  {
    JourneyKeeps(ctx, states, steps, n);
  }

  /** A crash never costs the run: its directory always loads, with no event lost
      except the one whose append was cut. */
  lemma CrashIsSurvived(ctx: Ctx, states: seq<State>, steps: seq<Step>, n: nat)
    requires Lawful(ctx.codec) && IsJourney(ctx, states, steps) && n < |states|
    ensures CanStep(ctx, states[n], CrashAndReload)
    ensures var s := states[n];
            var t := Next(ctx, s, CrashAndReload);
            && t.run.request == s.run.request
            && (t.run.events == s.run.events || (s.run.pending.Appending? && t.run.events == Earlier(s.run.events)))
            && CanStep(ctx, t, CrashAndReload) && Next(ctx, t, CrashAndReload) == t
  {
    JourneyKeeps(ctx, states, steps, n);
    CrashedRunLoads(ctx, states[n].dir, states[n].run);
    RecoveryIsIdempotent(ctx, states[n].dir, states[n].run);
  }

  /** Within one process a receipt is set once and no event follows it. */
  lemma ReceiptIsFinalInMemory(ctx: Ctx, s: State, a: Action)
    requires Inv(ctx, s) && Enabled(ctx, s.run, a) && s.run.receipt.Some?
    ensures var t := Next(ctx, s, Act(a)); t.run.receipt == s.run.receipt && t.run.events == s.run.events
  {
  }

  /** Until a crash, a receipt once set and the log it covers stay as they are. */
  lemma {:induction false} ReceiptIsFinalInProcess(ctx: Ctx, states: seq<State>, steps: seq<Step>, m: nat, n: nat)
    requires Lawful(ctx.codec) && IsJourney(ctx, states, steps) && m <= n < |states| && states[m].run.receipt.Some?
    requires forall i | m <= i < n :: steps[i].Act?
    ensures states[n].run.receipt == states[m].run.receipt && states[n].run.events == states[m].run.events
    decreases n
  {
    if m < n {
      ReceiptIsFinalInProcess(ctx, states, steps, m, n - 1);
      JourneyKeeps(ctx, states, steps, n - 1);
      ReceiptIsFinalInMemory(ctx, states[n - 1], steps[n - 1].action);
    }
  }

  lemma DurableReceiptStep(ctx: Ctx, s: State, step: Step)
    requires Lawful(ctx.codec) && Inv(ctx, s) && CanStep(ctx, s, step) && ReceiptFile in s.dir
    ensures var t := Next(ctx, s, step);
            && ReceiptFile in t.dir && t.dir[ReceiptFile] == s.dir[ReceiptFile]
            && t.run.receipt == s.run.receipt && t.run.events == s.run.events
  {
    if step.Act? {
      ReceiptIsFinalInMemory(ctx, s, step.action);
    } else {
      CrashedRunLoads(ctx, s.dir, s.run);
      RecoveredAfterCrash(ctx, s.dir, s.run);
      CompactedFiles(ctx, s.dir, s.run.request, RecoveredLog(ctx, s.dir, s.run.request.assignmentId).value);
    }
  }

  /** Some path leads from `s` to `t`. */
  ghost predicate Leads(ctx: Ctx, s: State, t: State)
  {
    exists states, steps :: IsPath(ctx, states, steps) && states[0] == s && states[|states| - 1] == t
  }

  lemma LeadsNowhere(ctx: Ctx, s: State)
    ensures Leads(ctx, s, s)
  {
    assert IsPath(ctx, [s], []) && [s][0] == s;
  }

  lemma LeadsOn(ctx: Ctx, s: State, t: State, step: Step)
    requires Leads(ctx, s, t) && CanStep(ctx, t, step)
    ensures Leads(ctx, s, Next(ctx, t, step))
  {
    var states, steps :| IsPath(ctx, states, steps) && states[0] == s && states[|states| - 1] == t;
    var longer, more := states + [Next(ctx, t, step)], steps + [step];
    assert IsPath(ctx, longer, more) && longer[0] == s && longer[|longer| - 1] == Next(ctx, t, step);
  }

  /** A durable receipt and its log are final along any path. */
  lemma {:induction false} DurableReceiptIsFinalOnPath(
      ctx: Ctx, states: seq<State>, steps: seq<Step>, n: nat)
    requires Lawful(ctx.codec) && IsPath(ctx, states, steps) && n < |states|
    requires Inv(ctx, states[0]) && ReceiptFile in states[0].dir
    ensures Inv(ctx, states[n]) && ReceiptFile in states[n].dir
    ensures states[n].dir[ReceiptFile] == states[0].dir[ReceiptFile]
    ensures states[n].run.receipt == states[0].run.receipt && states[n].run.events == states[0].run.events
  {
    if n > 0 {
      DurableReceiptIsFinalOnPath(ctx, states, steps, n - 1);
      StepKeeps(ctx, states[n - 1], steps[n - 1]);
      DurableReceiptStep(ctx, states[n - 1], steps[n - 1]);
    }
  }

  /** The events whose lines are complete. */
  function Done(run: Run): (events: seq<Event>)
  {
    if run.pending.Appending? then Earlier(run.events) else run.events
  }

  predicate Announced(run: Run) { Has(Done(run), Started) }

  lemma HadEarlier(events: seq<Event>, more: seq<Event>, name: EventName)
    requires events <= more && Has(events, name)
    ensures Has(more, name)
  {
    var i :| 0 <= i < |events| && events[i].name == name;
    assert more[i] == events[i];
  }

  lemma ActKeepsDone(ctx: Ctx, s: State, a: Action)
    requires Inv(ctx, s) && Enabled(ctx, s.run, a)
    ensures Done(s.run) <= Done(AfterMemory(ctx, s.run, a))
  {
  }

  /** No act and no crash takes away an event whose line is complete. */
  lemma StepKeepsDone(ctx: Ctx, s: State, step: Step)
    requires Lawful(ctx.codec) && Inv(ctx, s) && CanStep(ctx, s, step)
    ensures Done(s.run) <= Done(Next(ctx, s, step).run)
  {
    if step.CrashAndReload? {
      CrashedRunLoads(ctx, s.dir, s.run);
    } else {
      ActKeepsDone(ctx, s, step.action);
    }
  }

  lemma {:induction false} AnnouncedOnPath(ctx: Ctx, states: seq<State>, steps: seq<Step>, n: nat)
    requires Lawful(ctx.codec) && IsPath(ctx, states, steps) && n < |states|
    requires Inv(ctx, states[0]) && Announced(states[0].run)
    ensures Inv(ctx, states[n]) && Announced(states[n].run)
  {
    if n > 0 {
      AnnouncedOnPath(ctx, states, steps, n - 1);
      StepKeeps(ctx, states[n - 1], steps[n - 1]);
      StepKeepsDone(ctx, states[n - 1], steps[n - 1]);
      HadEarlier(Done(states[n - 1].run), Done(states[n].run), Started);
    }
  }

  /** Once durable, the receipt and the log it covers are final across every later
      step, crash and restart. */
  lemma {:induction false} DurableReceiptIsFinal(ctx: Ctx, states: seq<State>, steps: seq<Step>, m: nat, n: nat)
    requires Lawful(ctx.codec) && IsJourney(ctx, states, steps) && m <= n < |states| && ReceiptFile in states[m].dir
    ensures ReceiptFile in states[n].dir && states[n].dir[ReceiptFile] == states[m].dir[ReceiptFile]
    ensures states[n].run.receipt == states[m].run.receipt && states[n].run.events == states[m].run.events
    decreases n
  {
    if m < n {
      DurableReceiptIsFinal(ctx, states, steps, m, n - 1);
      JourneyKeeps(ctx, states, steps, n - 1);
      DurableReceiptStep(ctx, states[n - 1], steps[n - 1]);
    }
  }
}
