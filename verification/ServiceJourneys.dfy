/** Every run of the service, seen at one assignment, is a journey of that assignment: so
    what holds along journeys holds of the service. */
module ServiceJourneys {
  import opened Options
  import opened EventLog
  import opened RunJournal
  import opened Admission
  import opened AdmissionSafety
  import opened AdmissionMemory
  import opened AdmissionRecovery
  import Journey
  import RunOutcomes

  predicate Live(w: World, a: string) { w.proc.Some? && a in w.proc.value.runs }

  /** What a journey sees of a live run: its directory and its memory. */
  function At(w: World, a: string): (s: Journey.State)
    requires Live(w, a) && a in w.disk.runs
  {
    Journey.State(w.disk.runs[a], w.proc.value.runs[a])
  }

  /** The service has made the request durable and not published it yet. */
  predicate Publishing(w: World, a: string)
  {
    w.proc.Some? && w.proc.value.op.Durable? && w.proc.value.op.request.assignmentId == a
  }

  /** The two directories load into the same run and compact to the same files. */
  predicate LoadsAs(ctx: Ctx, dir: Dir, other: Dir)
  {
    Compacted(ctx, dir) == Compacted(ctx, other) && LoadRun(ctx, dir) == LoadRun(ctx, other)
  }

  /** The directory of a run that is not live is, but for a compaction under way, one that the
      journey from `s` left behind. */
  ghost predicate Sleeps(ctx: Ctx, dir: Dir, s: Journey.State)
  {
    exists t :: Journey.Leads(ctx, s, t) && LoadsAs(ctx, dir, t.dir)
  }

  /** The assignment is where a path from `s` leads. */
  ghost predicate Follows(ctx: Ctx, w: World, a: string, s: Journey.State)
  {
    && a in w.disk.runs && !Publishing(w, a)
    && if Live(w, a) then Journey.Leads(ctx, s, At(w, a)) else Sleeps(ctx, w.disk.runs[a], s)
  }

  // ----- what a step leaves alone -----

  /** The step changes the directory or the live run of `a`. */
  predicate Touches(w: World, s: Step, a: string)
  {
    match s
    case StageCompaction(b) => a == b
    case RenameCompaction(b) => a == b
    case LoadOrMove(b) => a == b
    case RunAct(b, _) => a == b
    case Publish(_) => Publishing(w, a)
    case Launch => w.proc.Some? && w.proc.value.op.Announcing? && w.proc.value.op.request.assignmentId == a
    case Boot => true
    case Crash => true
    case _ => false
  }

  predicate SameAt(w: World, w': World, a: string)
  {
    && a in w.disk.runs && a in w'.disk.runs && w'.disk.runs[a] == w.disk.runs[a]
    && w.proc.Some? && w'.proc.Some? && (Live(w, a) <==> Live(w', a))
    && (Live(w, a) ==> w'.proc.value.runs[a] == w.proc.value.runs[a])
    && (Publishing(w', a) ==> Publishing(w, a) && w'.proc.value.op == w.proc.value.op)
  }

  lemma IsHere(ctx: Ctx, w: World, a: string)
    requires Good(ctx, w) && a in w.admitted
    ensures a in w.disk.runs
  {
  }

  lemma ReadingLeavesAlone(ctx: Ctx, w: World, p: Proc, s: Step, a: string)
    requires w.proc == Some(p) && Ready(ctx, w.disk, p, w.admitted, s) && a in w.disk.runs
    requires s.ReadTombstone? || s.ReadMarkers? || s.FinishLoad? || s.StageCompaction? || s.RenameCompaction?
    requires !Touches(w, s, a)
    ensures SameAt(w, Work(ctx, w, p, s), a)
  {
  }

  lemma LoadingLeavesAlone(ctx: Ctx, w: World, p: Proc, b: string, a: string)
    requires w.proc == Some(p) && Ready(ctx, w.disk, p, w.admitted, LoadOrMove(b)) && a in w.disk.runs && a != b
    requires LoadRun(ctx, w.disk.runs[b]).Some? ==> LoadRun(ctx, w.disk.runs[b]).value.request.assignmentId == b
    ensures SameAt(w, Work(ctx, w, p, LoadOrMove(b)), a)
  {
  }

  lemma LoadsUnderItsName(ctx: Ctx, w: World, p: Proc, b: string)
    requires Good(ctx, w) && w.proc == Some(p) && Ready(ctx, w.disk, p, w.admitted, LoadOrMove(b))
    ensures LoadRun(ctx, w.disk.runs[b]).Some? ==> LoadRun(ctx, w.disk.runs[b]).value.request.assignmentId == b
  {
    if LoadRun(ctx, w.disk.runs[b]).Some? {
      LoadKeeps(ctx, w.disk, p, w.admitted, w.launched, b);
    }
  }

  lemma QuarantineLeavesAlone(ctx: Ctx, w: World, p: Proc, s: Step, a: string)
    requires Good(ctx, w) && w.proc == Some(p) && Ready(ctx, w.disk, p, w.admitted, s)
    requires IsQuarantineStep(s) && a in w.disk.runs
    ensures SameAt(w, Work(ctx, w, p, s), a)
  {
    NeverTombstones(ctx, w, p);
    NoRequestAside(ctx, w, p, s);
  }

  lemma OperatorLeavesAlone(ctx: Ctx, w: World, p: Proc, s: Step, a: string)
    requires w.proc == Some(p) && Ready(ctx, w.disk, p, w.admitted, s) && IsOperatorStep(s) && a in w.disk.runs
    ensures SameAt(w, Work(ctx, w, p, s), a)
  {
  }

  /** The id a start is admitting. */
  function Admitting(p: Proc, s: Step): (a: string)
    requires s.Admit? || ((s.StageRequest? || s.WriteRequest?) && (p.op.Making? || p.op.Staged?))
  {
    if s.Admit? then s.request.assignmentId else p.op.request.assignmentId
  }

  /** A request being admitted is never one that was. */
  lemma AdmitsAnother(ctx: Ctx, w: World, p: Proc, s: Step, a: string)
    requires Good(ctx, w) && w.proc == Some(p) && Ready(ctx, w.disk, p, w.admitted, s)
    requires (s.Admit? || s.StageRequest? || s.WriteRequest?) && a in w.admitted
    ensures Admitting(p, s) != a
  {
    if s.Admit? {
      AdmissibleIsUnused(p, w.disk, w.admitted, w.launched, s.request);
    }
  }

  lemma AdmissionLeavesAlone(ctx: Ctx, w: World, p: Proc, s: Step, a: string)
    requires w.proc == Some(p) && Ready(ctx, w.disk, p, w.admitted, s) && a in w.disk.runs
    requires (s.Admit? || s.StageRequest? || s.WriteRequest?) && Admitting(p, s) != a
    ensures SameAt(w, Work(ctx, w, p, s), a)
  {
  }

  lemma ServingLeavesAlone(ctx: Ctx, w: World, p: Proc, s: Step, a: string)
    requires w.proc == Some(p) && Ready(ctx, w.disk, p, w.admitted, s) && a in w.disk.runs
    requires (s.Publish? || s.Launch? || s.RunAct?) && !Touches(w, s, a)
    ensures SameAt(w, Work(ctx, w, p, s), a)
  {
  }

  lemma LeftAlone(ctx: Ctx, w: World, s: Step, a: string)
    requires Lawful(ctx.codec) && Good(ctx, w) && Possible(ctx, w, s) && !IsDamage(s)
    requires a in w.admitted && !Touches(w, s, a)
    ensures SameAt(w, Next(ctx, w, s), a)
  {
    var p := w.proc.value;
    IsHere(ctx, w, a);
    if s.LoadOrMove? {
      LoadsUnderItsName(ctx, w, p, s.name);
      LoadingLeavesAlone(ctx, w, p, s.name, a);
    } else if IsRecoveryStep(s) {
      ReadingLeavesAlone(ctx, w, p, s, a);
    } else if IsQuarantineStep(s) {
      QuarantineLeavesAlone(ctx, w, p, s, a);
    } else if IsOperatorStep(s) {
      OperatorLeavesAlone(ctx, w, p, s, a);
    } else if s.Admit? || s.StageRequest? || s.WriteRequest? {
      AdmitsAnother(ctx, w, p, s, a);
      AdmissionLeavesAlone(ctx, w, p, s, a);
    } else {
      ServingLeavesAlone(ctx, w, p, s, a);
    }
  }

  // ----- what a step does to one assignment -----

  lemma CrashSleeps(ctx: Ctx, w: World, a: string, s: Journey.State)
    requires Follows(ctx, w, a, s)
    ensures Follows(ctx, w.(proc := None), a, s)
  {
    if Live(w, a) {
      assert LoadsAs(ctx, w.disk.runs[a], At(w, a).dir);
    }
  }

  /** Compacting a sleeping directory, or preparing to, changes nothing that loading sees. */
  lemma CompactionSleeps(ctx: Ctx, dir: Dir, s: Journey.State)
    requires Lawful(ctx.codec) && Sleeps(ctx, dir, s) && Compacted(ctx, dir) != dir
    ensures Sleeps(ctx, dir[Tmp(EventsFile) := Blob], s) && Sleeps(ctx, Compacted(ctx, dir), s)
  {
    var t :| Journey.Leads(ctx, s, t) && LoadsAs(ctx, dir, t.dir);
    CompactionIgnoresStaging(ctx, dir);
    StagingLoadsAlike(ctx, dir);
    CompactedTwice(ctx, dir);
    assert LoadsAs(ctx, dir[Tmp(EventsFile) := Blob], t.dir) && LoadsAs(ctx, Compacted(ctx, dir), t.dir);
  }

  lemma StagingLoadsAlike(ctx: Ctx, dir: Dir)
    requires Compacted(ctx, dir) != dir
    ensures LoadRun(ctx, dir[Tmp(EventsFile) := Blob]) == LoadRun(ctx, dir)
  {
    var staged := dir[Tmp(EventsFile) := Blob];
    CompactedLog(ctx, dir);
    assert LogOf(staged) == LogOf(dir);
    LoadsAlike(ctx, dir, staged, RecoveredLog(ctx, dir, ParsedRequest(dir).value.assignmentId).value);
  }

  /** Loading a sleeping directory is the journey's reload. */
  lemma LoadingFollows(ctx: Ctx, dir: Dir, s: Journey.State)
    requires Sleeps(ctx, dir, s) && Compacted(ctx, dir) == dir && LoadRun(ctx, dir).Some?
    ensures Journey.Leads(ctx, s, Journey.State(dir, LoadRun(ctx, dir).value))
  {
    var t :| Journey.Leads(ctx, s, t) && LoadsAs(ctx, dir, t.dir);
    Journey.LeadsOn(ctx, s, t, Journey.CrashAndReload);
  }

  /** Under an admitted name, what loads goes live under that name. */
  lemma AdmittedGoesLive(ctx: Ctx, w: World, p: Proc, a: string)
    requires Lawful(ctx.codec) && Good(ctx, w) && w.proc == Some(p) && a in w.admitted
    requires Ready(ctx, w.disk, p, w.admitted, LoadOrMove(a))
    ensures var w' := Work(ctx, w, p, LoadOrMove(a));
            && LoadRun(ctx, w.disk.runs[a]).Some? && w'.disk == w.disk && Live(w', a) && !Publishing(w', a)
            && w'.proc.value.runs[a] == LoadRun(ctx, w.disk.runs[a]).value
  {
    LoadsAgain(ctx, w.disk.runs[a]);
    LoadKeeps(ctx, w.disk, p, w.admitted, w.launched, a);
  }

  lemma TouchedByRecovery(ctx: Ctx, w: World, p: Proc, s: Step, a: string, from: Journey.State)
    requires Lawful(ctx.codec) && Good(ctx, w) && w.proc == Some(p) && Ready(ctx, w.disk, p, w.admitted, s)
    requires a in w.admitted && Follows(ctx, w, a, from)
    requires s in {StageCompaction(a), RenameCompaction(a), LoadOrMove(a)}
    ensures Follows(ctx, Work(ctx, w, p, s), a, from)
  {
    assert !Live(w, a);
    if s.LoadOrMove? {
      AdmittedGoesLive(ctx, w, p, a);
      LoadingFollows(ctx, w.disk.runs[a], from);
    } else {
      CompactionSleeps(ctx, w.disk.runs[a], from);
    }
  }

  lemma TouchedInService(ctx: Ctx, w: World, p: Proc, s: Step, a: string, from: Journey.State)
    requires w.proc == Some(p) && Ready(ctx, w.disk, p, w.admitted, s)
    requires Follows(ctx, w, a, from) && (s.RunAct? || s.Launch?) && Touches(w, s, a)
    ensures Follows(ctx, Work(ctx, w, p, s), a, from)
  {
    Journey.LeadsOn(ctx, from, At(w, a), Journey.Act(if s.RunAct? then s.action else Spawn));
  }

  /** Each step of the service without damage takes an assignment along a path. */
  lemma StepFollows(ctx: Ctx, w: World, s: Step, a: string, from: Journey.State)
    requires Lawful(ctx.codec) && Good(ctx, w) && Possible(ctx, w, s) && !IsDamage(s)
    requires a in w.admitted && Follows(ctx, w, a, from)
    ensures Follows(ctx, Next(ctx, w, s), a, from)
  {
    if !Touches(w, s, a) {
      LeftAlone(ctx, w, s, a);
    } else if s.Crash? {
      CrashSleeps(ctx, w, a, from);
    } else if s.RunAct? || s.Launch? {
      TouchedInService(ctx, w, w.proc.value, s, a, from);
    } else if !s.Boot? {
      TouchedByRecovery(ctx, w, w.proc.value, s, a, from);
    }
  }

  // ----- where journeys begin -----

  /** Durable and nothing more: the service died before it published the request, or is about
      to publish it. */
  ghost predicate Fresh(w: World, a: string)
  {
    && a in w.disk.runs && !Live(w, a)
    && exists q: Request :: w.disk.runs[a] == map[RequestFile := RequestDoc(q)] && q.assignmentId == a
         && (Publishing(w, a) ==> w.proc.value.op.request == q)
  }

  ghost predicate Begun(ctx: Ctx, w: World, a: string)
  {
    exists s :: Journey.Begins(s) && Follows(ctx, w, a, s)
  }

  lemma BeginsHere(ctx: Ctx, w: World, a: string)
    requires Live(w, a) && a in w.disk.runs && Journey.Begins(At(w, a)) && !Publishing(w, a)
    ensures Begun(ctx, w, a)
  {
    Journey.LeadsNowhere(ctx, At(w, a));
    assert Follows(ctx, w, a, At(w, a));
  }

  lemma FreshLoads(ctx: Ctx, q: Request)
    ensures var dir: Dir := map[RequestFile := RequestDoc(q)];
            Compacted(ctx, dir) == dir && LoadRun(ctx, dir) == Some(Journey.Unstarted(q, true))
  {
  }

  /** A fresh assignment stays fresh until it is published or loaded, and then begins. */
  lemma FreshStep(ctx: Ctx, w: World, s: Step, a: string)
    requires Lawful(ctx.codec) && Good(ctx, w) && Possible(ctx, w, s) && !IsDamage(s)
    requires a in w.admitted && Fresh(w, a)
    ensures var w' := Next(ctx, w, s); Fresh(w', a) || Begun(ctx, w', a)
  {
    var q: Request :| w.disk.runs[a] == map[RequestFile := RequestDoc(q)] && q.assignmentId == a
                      && (Publishing(w, a) ==> w.proc.value.op.request == q);
    FreshLoads(ctx, q);
    if !Touches(w, s, a) {
      LeftAlone(ctx, w, s, a);
      FreshStays(w, Next(ctx, w, s), a);
    } else if s.Publish? {
      FreshIsPublished(ctx, w, w.proc.value, s.note, a, q);
    } else if s.LoadOrMove? {
      FreshIsLoaded(ctx, w, w.proc.value, a, q);
    }
  }

  lemma FreshStays(w: World, w': World, a: string)
    requires Fresh(w, a) && SameAt(w, w', a)
    ensures Fresh(w', a)
  {
  }

  lemma FreshIsLoaded(ctx: Ctx, w: World, p: Proc, a: string, q: Request)
    requires Lawful(ctx.codec) && Good(ctx, w) && w.proc == Some(p) && a in w.admitted
    requires Ready(ctx, w.disk, p, w.admitted, LoadOrMove(a)) && w.disk.runs[a] == map[RequestFile := RequestDoc(q)]
    ensures Begun(ctx, Work(ctx, w, p, LoadOrMove(a)), a)
  {
    FreshLoads(ctx, q);
    AdmittedGoesLive(ctx, w, p, a);
    BeginsHere(ctx, Work(ctx, w, p, LoadOrMove(a)), a);
  }

  lemma FreshIsPublished(ctx: Ctx, w: World, p: Proc, note: string, a: string, q: Request)
    requires w.proc == Some(p) && p.op == Durable(q) && q.assignmentId == a && a in w.disk.runs
    requires w.disk.runs[a] == map[RequestFile := RequestDoc(q)]
    ensures Begun(ctx, Work(ctx, w, p, Publish(note)), a)
  {
    var w' := Work(ctx, w, p, Publish(note));
    assert At(w', a).run == Emit(Journey.Unstarted(q, false), Admitted, note);
    BeginsHere(ctx, w', a);
  }

  /** A request just made durable is fresh. */
  lemma AdmittedIsFresh(ctx: Ctx, w: World, p: Proc, a: string)
    requires Good(ctx, w) && w.proc == Some(p) && Ready(ctx, w.disk, p, w.admitted, WriteRequest)
    requires a == p.op.request.assignmentId
    ensures Fresh(Work(ctx, w, p, WriteRequest), a)
  {
    var q := p.op.request;
    assert RunDirOk(w.disk.runs[a], a, w.admitted);
    assert (w.disk.runs[a] - {Tmp(RequestFile)})[RequestFile := RequestDoc(q)] == map[RequestFile := RequestDoc(q)];
  }

  ghost predicate Accounted(ctx: Ctx, w: World)
  {
    forall a | a in w.admitted :: Fresh(w, a) || Begun(ctx, w, a)
  }

  lemma StepAccounts(ctx: Ctx, w: World, s: Step)
    requires Lawful(ctx.codec) && Good(ctx, w) && Accounted(ctx, w) && Possible(ctx, w, s) && !IsDamage(s)
    ensures Accounted(ctx, Next(ctx, w, s))
  {
    var w' := Next(ctx, w, s);
    forall a | a in w'.admitted ensures Fresh(w', a) || Begun(ctx, w', a) {
      if a !in w.admitted {
        NewlyAdmitted(ctx, w, s, a);
        AdmittedIsFresh(ctx, w, w.proc.value, a);
      } else if Fresh(w, a) {
        FreshStep(ctx, w, s, a);
      } else {
        var from :| Journey.Begins(from) && Follows(ctx, w, a, from);
        StepFollows(ctx, w, s, a, from);
      }
    }
  }

  lemma NewlyAdmitted(ctx: Ctx, w: World, s: Step, a: string)
    requires Possible(ctx, w, s) && a in Next(ctx, w, s).admitted && a !in w.admitted
    ensures s == WriteRequest && w.proc.value.op.request.assignmentId == a
  {
    if s != WriteRequest {
      NothingAdmitted(ctx, w, s);
    }
  }

  lemma {:induction false} RunAccounts(ctx: Ctx, worlds: seq<World>, steps: seq<Step>, n: nat)
    requires Lawful(ctx.codec) && IsRun(ctx, worlds, steps) && n < |worlds| && Undamaged(steps, n)
    ensures Accounted(ctx, worlds[n])
  {
    if n > 0 {
      RunAccounts(ctx, worlds, steps, n - 1);
      RunFine(ctx, worlds, steps, n - 1);
      StepAccounts(ctx, worlds[n - 1], steps[n - 1]);
    }
  }

  // ----- the theorems -----

  /** In every run without damage, each live assignment is where some journey ends. */
  lemma LiveRunsAreJourneys(ctx: Ctx, worlds: seq<World>, steps: seq<Step>, n: nat, a: string)
    returns (states: seq<Journey.State>, moves: seq<Journey.Step>)
    requires Lawful(ctx.codec) && IsRun(ctx, worlds, steps) && n < |worlds| && Undamaged(steps, n)
    requires Live(worlds[n], a)
    ensures a in worlds[n].disk.runs
    ensures Journey.IsJourney(ctx, states, moves) && states[|states| - 1] == At(worlds[n], a)
  {
    RunFine(ctx, worlds, steps, n);
    RunAccounts(ctx, worlds, steps, n);
    var w := worlds[n];
    assert RunOk(w.proc.value.runs[a], a, w.disk, w.admitted);
    var from :| Journey.Begins(from) && Follows(ctx, w, a, from);
    states, moves :| Journey.IsPath(ctx, states, moves) && states[0] == from && states[|states| - 1] == At(w, a);
  }

  /** So in the service, whatever crashes and restarts there were, a live run's events are
      numbered without gaps, nothing starts after a cancellation, and a receipt's digest
      covers the log. */
  lemma LiveRunsAreOrderly(ctx: Ctx, worlds: seq<World>, steps: seq<Step>, n: nat, a: string)
    requires Lawful(ctx.codec) && IsRun(ctx, worlds, steps) && n < |worlds| && Undamaged(steps, n)
    requires Live(worlds[n], a)
    ensures var run := worlds[n].proc.value.runs[a];
            && Contiguous(run.events, run.request.assignmentId) && Journey.NoStartAfterCancel(run.events)
            && (run.receipt.Some? ==> run.receipt.value.eventsDigest == ctx.digest(run.events))
  {
    var states, moves := LiveRunsAreJourneys(ctx, worlds, steps, n, a);
    Journey.RegionsAreOrderly(ctx, states, moves, |states| - 1, "");
  }

  lemma ReachableIsOrderly(ctx: Ctx, w: World, a: string)
    requires Lawful(ctx.codec) && Reachable(ctx, true, w) && Live(w, a)
    ensures var run := w.proc.value.runs[a];
            && Contiguous(run.events, a) && Journey.NoStartAfterCancel(run.events)
            && (run.receipt.Some? ==> run.receipt.value.eventsDigest == ctx.digest(run.events))
  {
    var worlds, steps :| EndsIn(ctx, worlds, steps, w) && Undamaged(steps, |steps|);
    LiveRunsAreOrderly(ctx, worlds, steps, |worlds| - 1, a);
    ReachableIsSafe(ctx, true, w);
    assert RunOk(w.proc.value.runs[a], a, w.disk, w.admitted);
  }

  lemma FollowsOn(ctx: Ctx, w: World, s: Step, a: string, from: Journey.State)
    requires Lawful(ctx.codec) && Good(ctx, w) && Possible(ctx, w, s) && !IsDamage(s)
    requires a in w.admitted && Follows(ctx, w, a, from)
    ensures var w' := Next(ctx, w, s); a in w'.admitted && Follows(ctx, w', a, from)
  {
    StepFollows(ctx, w, s, a, from);
    StaysAdmitted(ctx, w, s, a);
  }

  lemma {:induction false} RunFollows(
      ctx: Ctx, worlds: seq<World>, steps: seq<Step>, m: nat, n: nat, a: string)
    requires Lawful(ctx.codec) && IsRun(ctx, worlds, steps) && m <= n < |worlds| && Undamaged(steps, n)
    requires Live(worlds[m], a) && !Publishing(worlds[m], a)
    ensures a in worlds[m].disk.runs && a in worlds[n].admitted
    ensures Follows(ctx, worlds[n], a, At(worlds[m], a))
    decreases n
  {
    if m == n {
      RunFine(ctx, worlds, steps, n);
      var w := worlds[n];
      assert RunOk(w.proc.value.runs[a], a, w.disk, w.admitted);
      Journey.LeadsNowhere(ctx, At(w, a));
    } else {
      RunFollows(ctx, worlds, steps, m, n - 1, a);
      RunFine(ctx, worlds, steps, n - 1);
      FollowsOn(ctx, worlds[n - 1], steps[n - 1], a, At(worlds[m], a));
    }
  }

  /** Work once begun is known to every later process: the start is among the run's events
      whenever it is live, so that after a restart it cannot be cancelled any more. */
  lemma WorkIsRemembered(ctx: Ctx, worlds: seq<World>, steps: seq<Step>, m: nat, n: nat, a: string)
    requires Lawful(ctx.codec) && IsRun(ctx, worlds, steps) && m < n < |worlds| && Undamaged(steps, n)
    requires steps[m] == RunAct(a, CallRunner) && Live(worlds[n], a)
    ensures var run := worlds[n].proc.value.runs[a];
            Has(run.events, Started) && (run.recovered ==> !CancelAccepted(run))
  {
    RunOutcomes.WorkIsAnnounced(ctx, worlds, steps, m, a);
    BegunIsAnnounced(ctx, worlds[m], steps[m], a);
    RunFine(ctx, worlds, steps, m);
    var states, moves := LiveRunsAreJourneys(ctx, worlds, steps, m, a);
    Journey.JourneyKeeps(ctx, states, moves, |states| - 1);
    RunFollows(ctx, worlds, steps, m, n, a);
    AnnouncedAlong(ctx, At(worlds[m], a), At(worlds[n], a));
    RunThreads(ctx, worlds, steps, n);
    assert Coherent(worlds[n].proc.value.runs[a]);
    HadBefore(worlds[n].proc.value.runs[a]);
  }

  lemma BegunIsAnnounced(ctx: Ctx, w: World, s: Step, a: string)
    requires Possible(ctx, w, s) && s == RunAct(a, CallRunner) && Has(w.proc.value.runs[a].events, Started)
    ensures Live(w, a) && Journey.Announced(w.proc.value.runs[a])
  {
  }

  lemma HadBefore(run: Run)
    requires Journey.Announced(run)
    ensures Has(run.events, Started)
  {
    Journey.HadEarlier(Journey.Done(run), run.events, Started);
  }

  lemma AnnouncedAlong(ctx: Ctx, s: Journey.State, t: Journey.State)
    requires Lawful(ctx.codec) && Journey.Inv(ctx, s) && Journey.Announced(s.run) && Journey.Leads(ctx, s, t)
    ensures Journey.Announced(t.run)
  {
    var states, moves :| Journey.IsPath(ctx, states, moves) && states[0] == s && states[|states| - 1] == t;
    Journey.AnnouncedOnPath(ctx, states, moves, |states| - 1);
  }

  /** And once a receipt is durable, it is final through every later step, crash and restart:
      its file stays as it is, and whenever the assignment is live it has this receipt and the
      log it covers. */
  lemma DurableReceiptsAreFinal(ctx: Ctx, worlds: seq<World>, steps: seq<Step>, m: nat, n: nat, a: string)
    requires Lawful(ctx.codec) && IsRun(ctx, worlds, steps) && m <= n < |worlds| && Undamaged(steps, n)
    requires Live(worlds[m], a) && a in worlds[m].disk.runs && ReceiptFile in worlds[m].disk.runs[a]
    ensures a in worlds[n].disk.runs && ReceiptFile in worlds[n].disk.runs[a]
    ensures worlds[n].disk.runs[a][ReceiptFile] == worlds[m].disk.runs[a][ReceiptFile]
    ensures Live(worlds[n], a) ==>
              && worlds[n].proc.value.runs[a].receipt == worlds[m].proc.value.runs[a].receipt
              && worlds[n].proc.value.runs[a].events == worlds[m].proc.value.runs[a].events
  {
    var from := At(worlds[m], a);
    var states, moves := LiveRunsAreJourneys(ctx, worlds, steps, m, a);
    Journey.JourneyKeeps(ctx, states, moves, |states| - 1);
    RunFine(ctx, worlds, steps, m);
    RunFollows(ctx, worlds, steps, m, n, a);
    var w := worlds[n];
    if Live(w, a) {
      FinalAlong(ctx, from, At(w, a));
    } else {
      var t :| Journey.Leads(ctx, from, t) && LoadsAs(ctx, w.disk.runs[a], t.dir);
      FinalAlong(ctx, from, t);
      CompactionKeepsReceipt(ctx, w.disk.runs[a]);
      CompactionKeepsReceipt(ctx, t.dir);
    }
  }

  lemma FinalAlong(ctx: Ctx, s: Journey.State, t: Journey.State)
    requires Lawful(ctx.codec) && Journey.Inv(ctx, s) && ReceiptFile in s.dir && Journey.Leads(ctx, s, t)
    ensures ReceiptFile in t.dir && t.dir[ReceiptFile] == s.dir[ReceiptFile]
    ensures t.run.receipt == s.run.receipt && t.run.events == s.run.events
  {
    var states, moves :| Journey.IsPath(ctx, states, moves) && states[0] == s && states[|states| - 1] == t;
    Journey.DurableReceiptIsFinalOnPath(ctx, states, moves, |states| - 1);
  }

  lemma CompactionKeepsReceipt(ctx: Ctx, dir: Dir)
    ensures ReceiptFile in Compacted(ctx, dir) <==> ReceiptFile in dir
    ensures ReceiptFile in dir ==> Compacted(ctx, dir)[ReceiptFile] == dir[ReceiptFile]
  {
  }
}
