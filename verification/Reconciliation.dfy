/** When truthful reconciliation lets the service admit again, and when it never can. */
module Reconciliation {
  import opened Options
  import opened EventLog
  import opened RunJournal
  import opened Admission
  import opened AdmissionSafety
  import opened AdmissionMemory

  // ----- an ambiguous name has a quarantined directory -----

  ghost predicate Evidenced(w: World)
  {
    && w.disk.markers <= w.disk.quarantined.Keys
    && (w.proc.Some? ==> w.proc.value.ambiguous <= w.disk.quarantined.Keys)
  }

  lemma RecoveryKeepsEvidence(ctx: Ctx, w: World, p: Proc, s: Step)
    requires Evidenced(w) && w.proc == Some(p) && Ready(ctx, w.disk, p, w.admitted, s) && IsRecoveryStep(s)
    ensures Evidenced(Work(ctx, w, p, s))
  {
  }

  lemma QuarantineKeepsEvidence(ctx: Ctx, w: World, p: Proc, s: Step)
    requires Inv(w) && Evidenced(w) && w.proc == Some(p) && Ready(ctx, w.disk, p, w.admitted, s) && IsQuarantineStep(s)
    ensures Evidenced(Work(ctx, w, p, s))
  {
  }

  lemma OperatorKeepsEvidence(ctx: Ctx, w: World, p: Proc, s: Step)
    requires Evidenced(w) && w.proc == Some(p) && Ready(ctx, w.disk, p, w.admitted, s) && IsOperatorStep(s)
    ensures Evidenced(Work(ctx, w, p, s))
  {
  }

  lemma ServingKeepsEvidence(ctx: Ctx, w: World, p: Proc, s: Step)
    requires Evidenced(w) && w.proc == Some(p) && Ready(ctx, w.disk, p, w.admitted, s) && s != Crash
    requires !IsRecoveryStep(s) && !IsQuarantineStep(s) && !IsOperatorStep(s)
    ensures Evidenced(Work(ctx, w, p, s))
  {
  }

  lemma StepKeepsEvidence(ctx: Ctx, w: World, s: Step)
    requires Inv(w) && Evidenced(w) && Possible(ctx, w, s)
    ensures Evidenced(Next(ctx, w, s))
  {
    if s != Boot && s != Crash && !IsDamage(s) {
      var p := w.proc.value;
      if IsRecoveryStep(s) {
        RecoveryKeepsEvidence(ctx, w, p, s);
      } else if IsQuarantineStep(s) {
        QuarantineKeepsEvidence(ctx, w, p, s);
      } else if IsOperatorStep(s) {
        OperatorKeepsEvidence(ctx, w, p, s);
      } else {
        ServingKeepsEvidence(ctx, w, p, s);
      }
    }
  }

  /** What every reachable world satisfies. */
  ghost predicate Sound(w: World)
  {
    Inv(w) && Evidenced(w) && (w.proc.Some? ==> Threads(w.proc.value))
  }

  lemma StepIsSound(ctx: Ctx, w: World, s: Step)
    requires Sound(w) && Possible(ctx, w, s)
    ensures Sound(Next(ctx, w, s))
  {
    StepKeeps(ctx, w, s);
    StepKeepsEvidence(ctx, w, s);
    StepKeepsThreads(ctx, w, s);
  }

  lemma {:induction false} RunIsSound(ctx: Ctx, worlds: seq<World>, steps: seq<Step>, n: nat)
    requires IsRun(ctx, worlds, steps) && n < |worlds|
    ensures Sound(worlds[n])
  {
    if n > 0 {
      RunIsSound(ctx, worlds, steps, n - 1);
      StepIsSound(ctx, worlds[n - 1], steps[n - 1]);
    }
  }

  lemma ReachableIsSound(ctx: Ctx, intact: bool, w: World)
    requires Reachable(ctx, intact, w)
    ensures Sound(w)
  {
    var worlds, steps :| EndsIn(ctx, worlds, steps, w);
    RunIsSound(ctx, worlds, steps, |worlds| - 1);
  }

  // ----- what can be reconciled -----

  predicate Idle(w: World) { w.proc.Some? && w.proc.value.op == Free }

  predicate Ambiguous(w: World, a: string) { w.proc.Some? && a in w.proc.value.ambiguous }

  /** The service does not know yet what was admitted under the name, if anything was. */
  predicate Clearable(w: World, a: string)
    requires w.proc.Some?
  {
    var p := w.proc.value;
    a in w.admitted ==> a !in p.runs && a !in p.tombstones && w.admitted[a] !in p.envelopeTombstones
  }

  /** The identity is not one of another admitted assignment. */
  ghost predicate HarmsNoOther(w: World, a: string, t: Tombstone)
  {
    forall b | b in w.admitted && b != a :: t.assignmentId != b && t.envelopeId != w.admitted[b]
  }

  lemma {:induction false} LongerThanAll(names: set<string>) returns (n: nat)
    ensures forall x | x in names :: |x| < n
    decreases |names|
  {
    if names == {} {
      n := 0;
    } else {
      var y :| y in names;
      n := LongerThanAll(names - {y});
      n := if n <= |y| then |y| + 1 else n;
    }
  }

  lemma NewName(names: set<string>) returns (x: string)
    ensures x !in names
  {
    var n := LongerThanAll(names);
    x := seq(n, _ => 'a');
  }

  lemma ClearableReconciles(w: World, a: string) returns (t: Tombstone)
    requires Sound(w) && Ambiguous(w, a) && Clearable(w, a)
    ensures Truthful(w.admitted, a, t) && Reconcilable(w.proc.value, w.disk, a, t) && HarmsNoOther(w, a, t)
  {
    var p, h := w.proc.value, w.admitted;
    if a in h {
      t := Tombstone(a, h[a]);
      forall b | b in p.runs ensures p.runs[b].request.envelopeId != h[a] {
        assert RunOk(p.runs[b], b, w.disk, h);
      }
    } else {
      var id := NewName(p.tombstones.Keys + p.runs.Keys + h.Keys);
      var live := set b | b in p.runs :: p.runs[b].request.envelopeId;
      var envelope := NewName(p.envelopeTombstones.Keys + live + h.Values);
      t := Tombstone(id, envelope);
    }
  }

  /** An ambiguous name can be reconciled truthfully exactly when what was admitted under it
      is neither live nor tombstoned under either of its ids. */
  lemma ReconcilableExactlyWhen(w: World, a: string)
    requires Sound(w) && Ambiguous(w, a)
    ensures (exists t :: Truthful(w.admitted, a, t) && Reconcilable(w.proc.value, w.disk, a, t)) <==> Clearable(w, a)
  {
    if Clearable(w, a) {
      var t := ClearableReconciles(w, a);
    }
  }

  // ----- clearing the root -----

  /** A name that blocks admission for as long as this process lives. */
  ghost predicate Blocked(w: World, a: string)
  {
    && Ambiguous(w, a) && a in w.admitted && !Clearable(w, a)
    && !(w.proc.value.op.Reconciling? && w.proc.value.op.name == a)
  }

  lemma StepStaysBlocked(ctx: Ctx, w: World, s: Step, a: string)
    requires Sound(w) && Possible(ctx, w, s) && s != Crash && Blocked(w, a)
    ensures Blocked(Next(ctx, w, s), a)
  {
    StepRemembers(ctx, w, s);
    StaysAdmitted(ctx, w, s, a);
  }

  lemma BlockedAdmitsNothing(w: World, a: string)
    requires Blocked(w, a)
    ensures forall q :: !Admissible(w.proc.value, w.disk, q)
  {
  }

  /** Until the process ends, an ambiguous name that cannot be reconciled stays so, and nothing
      is admitted. */
  lemma {:induction false} BlockedUntilRestart(
      ctx: Ctx, worlds: seq<World>, steps: seq<Step>, m: nat, n: nat, a: string)
    requires IsRun(ctx, worlds, steps) && m <= n < |worlds| && Uninterrupted(steps, m, n)
    requires Idle(worlds[m]) && Ambiguous(worlds[m], a) && !Clearable(worlds[m], a)
    ensures Blocked(worlds[n], a) && forall q :: !Admissible(worlds[n].proc.value, worlds[n].disk, q)
    decreases n
  {
    if m < n {
      BlockedUntilRestart(ctx, worlds, steps, m, n - 1, a);
      RunIsSound(ctx, worlds, steps, n - 1);
      NextStaysBlocked(ctx, worlds[n - 1], steps[n - 1], a);
    } else {
      BlockedAdmitsNothing(worlds[n], a);
    }
  }

  lemma NextStaysBlocked(ctx: Ctx, w: World, s: Step, a: string)
    requires Sound(w) && Possible(ctx, w, s) && s != Crash && Blocked(w, a)
    ensures var w' := Next(ctx, w, s); Blocked(w', a) && forall q :: !Admissible(w'.proc.value, w'.disk, q)
  {
    StepStaysBlocked(ctx, w, s, a);
    BlockedAdmitsNothing(Next(ctx, w, s), a);
  }

  /** Only the operator acts between the first of these worlds and the last. */
  ghost predicate OperatorPath(ctx: Ctx, worlds: seq<World>, steps: seq<Step>)
  {
    && |worlds| == |steps| + 1
    && forall i | 0 <= i < |steps| ::
         && IsOperatorStep(steps[i]) && Possible(ctx, worlds[i], steps[i])
         && worlds[i + 1] == Next(ctx, worlds[i], steps[i])
  }

  ghost predicate Clears(ctx: Ctx, w: World, worlds: seq<World>, steps: seq<Step>)
  {
    && OperatorPath(ctx, worlds, steps) && worlds[0] == w
    && Idle(worlds[|steps|]) && worlds[|steps|].proc.value.ambiguous == {}
  }

  lemma JoinPaths(ctx: Ctx, first: seq<World>, firstSteps: seq<Step>, second: seq<World>, secondSteps: seq<Step>)
    requires OperatorPath(ctx, first, firstSteps) && OperatorPath(ctx, second, secondSteps)
    requires first[|firstSteps|] == second[0]
    ensures OperatorPath(ctx, first[..|firstSteps|] + second, firstSteps + secondSteps)
  {
    var n, worlds, steps := |firstSteps|, first[..|firstSteps|] + second, firstSteps + secondSteps;
    forall i | 0 <= i < |steps|
      ensures IsOperatorStep(steps[i]) && Possible(ctx, worlds[i], steps[i])
      ensures worlds[i + 1] == Next(ctx, worlds[i], steps[i])
    {
      if i < n {
        assert worlds[i] == first[i] && worlds[i + 1] == first[i + 1] && steps[i] == firstSteps[i];
      } else {
        assert worlds[i] == second[i - n] && worlds[i + 1] == second[i - n + 1] && steps[i] == secondSteps[i - n];
      }
    }
  }

  lemma OneStep(ctx: Ctx, w: World, s: Step)
    requires IsOperatorStep(s) && Possible(ctx, w, s)
    ensures OperatorPath(ctx, [w, Next(ctx, w, s)], [s])
  {
  }

  lemma Longer(ctx: Ctx, worlds: seq<World>, steps: seq<Step>, s: Step)
    requires OperatorPath(ctx, worlds, steps) && IsOperatorStep(s)
    requires Sound(worlds[|steps|]) && Possible(ctx, worlds[|steps|], s)
    ensures var w' := Next(ctx, worlds[|steps|], s);
            Sound(w') && OperatorPath(ctx, worlds + [w'], steps + [s])
  {
    var n, w' := |steps|, Next(ctx, worlds[|steps|], s);
    StepIsSound(ctx, worlds[n], s);
    OneStep(ctx, worlds[n], s);
    JoinPaths(ctx, worlds, steps, [worlds[n], w'], [s]);
    assert worlds[..n] + [worlds[n], w'] == worlds + [w'];
  }

  /** The tombstone's temporary file is written. */
  lemma Staged(ctx: Ctx, w: World, a: string, t: Tombstone) returns (worlds: seq<World>, steps: seq<Step>)
    requires Sound(w) && Idle(w) && Truthful(w.admitted, a, t) && Reconcilable(w.proc.value, w.disk, a, t)
    ensures OperatorPath(ctx, worlds, steps) && worlds[0] == w && |steps| == 1 && Sound(worlds[1])
    ensures worlds[1].admitted == w.admitted && a in worlds[1].disk.quarantined
    ensures worlds[1].proc == Some(w.proc.value.(op := Reconciling(a, t)))
  {
    Longer(ctx, [w], [], Reconcile(a, t));
    worlds, steps := [w] + [Next(ctx, w, Reconcile(a, t))], [] + [Reconcile(a, t)];
  }

  lemma WritingReconciles(ctx: Ctx, w: World, p: Proc)
    requires w.proc == Some(p) && p.op.Reconciling? && p.op.name in w.disk.quarantined
    ensures Possible(ctx, w, WriteReconciled)
    ensures var w' := Next(ctx, w, WriteReconciled);
            && w'.admitted == w.admitted
            && w'.proc == Some(Register(p, p.op.tombstone).(
                                 ambiguous := p.ambiguous - {p.op.name}, op := Retiring(p.op.name)))
  {
  }

  /** The tombstone is durable, and the ambiguity lifted. */
  lemma Committed(ctx: Ctx, w: World, a: string, t: Tombstone) returns (worlds: seq<World>, steps: seq<Step>)
    requires Sound(w) && Idle(w) && Truthful(w.admitted, a, t) && Reconcilable(w.proc.value, w.disk, a, t)
    ensures OperatorPath(ctx, worlds, steps) && worlds[0] == w && |steps| == 2 && Sound(worlds[2])
    ensures worlds[2].admitted == w.admitted
    ensures var p := w.proc.value;
            worlds[2].proc == Some(Register(p, t).(ambiguous := p.ambiguous - {a}, op := Retiring(a)))
  {
    worlds, steps := Staged(ctx, w, a, t);
    WritingReconciles(ctx, worlds[1], worlds[1].proc.value);
    Longer(ctx, worlds, steps, WriteReconciled);
    worlds, steps := worlds + [Next(ctx, worlds[1], WriteReconciled)], steps + [WriteReconciled];
  }

  /** What a whole reconciliation leaves in memory. */
  function Reconciled(p: Proc, a: string, t: Tombstone): (r: Proc)
  {
    Register(p, t).(ambiguous := p.ambiguous - {a}, op := Free)
  }

  lemma ReconcileOne(ctx: Ctx, w: World, a: string, t: Tombstone) returns (worlds: seq<World>, steps: seq<Step>)
    requires Sound(w) && Idle(w) && Truthful(w.admitted, a, t) && Reconcilable(w.proc.value, w.disk, a, t)
    ensures OperatorPath(ctx, worlds, steps) && worlds[0] == w && |steps| == 3 && Sound(worlds[3])
    ensures worlds[3].admitted == w.admitted && worlds[3].proc == Some(Reconciled(w.proc.value, a, t))
  {
    worlds, steps := Committed(ctx, w, a, t);
    Longer(ctx, worlds, steps, RetireMarker);
    worlds, steps := worlds + [Next(ctx, worlds[2], RetireMarker)], steps + [RetireMarker];
  }

  /** Reconciling one name, without harm to others, leaves the rest clearable. */
  lemma RestStaysClearable(w: World, w': World, a: string, t: Tombstone)
    requires Idle(w) && w'.admitted == w.admitted && w'.proc == Some(Reconciled(w.proc.value, a, t))
    requires HarmsNoOther(w, a, t) && forall b | b in w.proc.value.ambiguous :: Clearable(w, b)
    ensures forall b | b in w'.proc.value.ambiguous :: Clearable(w', b)
  {
  }

  /** Reconciling the names one after another clears the root. */
  lemma {:induction false} ClearAll(ctx: Ctx, w: World) returns (worlds: seq<World>, steps: seq<Step>)
    requires Sound(w) && Idle(w) && forall a | a in w.proc.value.ambiguous :: Clearable(w, a)
    ensures Clears(ctx, w, worlds, steps)
    decreases |w.proc.value.ambiguous|
  {
    if w.proc.value.ambiguous == {} {
      worlds, steps := [w], [];
    } else {
      var a :| a in w.proc.value.ambiguous;
      var t := ClearableReconciles(w, a);
      var first, firstSteps := ReconcileOne(ctx, w, a, t);
      RestStaysClearable(w, first[3], a, t);
      var second, secondSteps := ClearAll(ctx, first[3]);
      JoinPaths(ctx, first, firstSteps, second, secondSteps);
      worlds, steps := first[..3] + second, firstSteps + secondSteps;
    }
  }

  lemma OperatorStaysBlocked(ctx: Ctx, w: World, s: Step, a: string)
    requires Sound(w) && Blocked(w, a) && IsOperatorStep(s) && Possible(ctx, w, s)
    ensures var w' := Next(ctx, w, s); Sound(w') && Blocked(w', a)
  {
    StepIsSound(ctx, w, s);
    StepStaysBlocked(ctx, w, s, a);
  }

  lemma {:induction false} PathStaysBlocked(ctx: Ctx, worlds: seq<World>, steps: seq<Step>, n: nat, a: string)
    requires OperatorPath(ctx, worlds, steps) && n < |worlds| && Sound(worlds[0]) && Blocked(worlds[0], a)
    ensures Sound(worlds[n]) && Blocked(worlds[n], a)
  {
    if n > 0 {
      PathStaysBlocked(ctx, worlds, steps, n - 1, a);
      OperatorStaysBlocked(ctx, worlds[n - 1], steps[n - 1], a);
    }
  }

  /** The operator can clear an idle service exactly when each of its ambiguous names can be
      reconciled: reconciling one never stands in the way of another. */
  lemma ClearsExactlyWhen(ctx: Ctx, w: World)
    requires Sound(w) && Idle(w)
    ensures (exists worlds, steps :: Clears(ctx, w, worlds, steps))
            <==> forall a | a in w.proc.value.ambiguous :: Clearable(w, a)
  {
    if forall a | a in w.proc.value.ambiguous :: Clearable(w, a) {
      var worlds, steps := ClearAll(ctx, w);
    } else {
      var a :| a in w.proc.value.ambiguous && !Clearable(w, a);
      forall worlds, steps | OperatorPath(ctx, worlds, steps) && worlds[0] == w
        ensures !Clears(ctx, w, worlds, steps)
      {
        PathStaysBlocked(ctx, worlds, steps, |steps|, a);
      }
    }
  }

  // ----- a crash before the marker is retired -----

  /** The disk holds both the name's marker and a tombstone of its own. */
  predicate MarkedAndTombstoned(d: Disk, a: string)
  {
    && a in d.markers && a in d.quarantined && TombstoneFile in d.quarantined[a]
    && d.quarantined[a][TombstoneFile].TombstoneDoc?
    && d.quarantined[a][TombstoneFile].tombstone.assignmentId == a
  }

  /** Such a disk makes every process that reads it blocked. */
  ghost predicate Doomed(w: World, a: string)
  {
    && a in w.admitted && MarkedAndTombstoned(w.disk, a)
    && (w.proc.Some? ==>
          var p := w.proc.value;
          if p.op.ReadingTombstones? then a in p.op.todo || a in p.tombstones
          else a in p.tombstones && Blocked(w, a) && p.op != Retiring(a))
  }

  lemma TombstoneIsRead(ctx: Ctx, w: World, p: Proc, b: string, a: string)
    requires Doomed(w, a) && w.proc == Some(p) && Ready(ctx, w.disk, p, w.admitted, ReadTombstone(b))
    ensures Doomed(Work(ctx, w, p, ReadTombstone(b)), a)
  {
  }

  lemma MarkersAreRead(ctx: Ctx, w: World, p: Proc, a: string)
    requires Doomed(w, a) && w.proc == Some(p) && Ready(ctx, w.disk, p, w.admitted, ReadMarkers)
    ensures Doomed(Work(ctx, w, p, ReadMarkers), a)
  {
  }

  lemma ReadingStaysDoomed(ctx: Ctx, w: World, p: Proc, s: Step, a: string)
    requires Doomed(w, a) && w.proc == Some(p) && Ready(ctx, w.disk, p, w.admitted, s) && p.op.ReadingTombstones?
    requires s != Crash
    ensures Doomed(Work(ctx, w, p, s), a)
  {
    if s.ReadTombstone? {
      TombstoneIsRead(ctx, w, p, s.name, a);
    } else {
      assert s == ReadMarkers;
      MarkersAreRead(ctx, w, p, a);
    }
  }

  lemma RecoveryStaysMarked(ctx: Ctx, w: World, p: Proc, s: Step, a: string)
    requires w.proc == Some(p) && Ready(ctx, w.disk, p, w.admitted, s) && IsRecoveryStep(s)
    requires MarkedAndTombstoned(w.disk, a)
    ensures MarkedAndTombstoned(Work(ctx, w, p, s).disk, a)
  {
  }

  lemma QuarantineStaysMarked(ctx: Ctx, w: World, p: Proc, s: Step, a: string)
    requires w.proc == Some(p) && Ready(ctx, w.disk, p, w.admitted, s) && IsQuarantineStep(s) && !s.WriteTombstone?
    requires MarkedAndTombstoned(w.disk, a)
    ensures MarkedAndTombstoned(Work(ctx, w, p, s).disk, a)
  {
  }

  /** A recovered tombstone names the directory it is written to. */
  lemma TombstoningStaysMarked(ctx: Ctx, w: World, p: Proc, a: string)
    requires Inv(w) && w.proc == Some(p) && Ready(ctx, w.disk, p, w.admitted, WriteTombstone)
    requires MarkedAndTombstoned(w.disk, a)
    ensures MarkedAndTombstoned(Work(ctx, w, p, WriteTombstone).disk, a)
  {
  }

  lemma OthersStayMarked(ctx: Ctx, w: World, p: Proc, s: Step, a: string)
    requires w.proc == Some(p) && Ready(ctx, w.disk, p, w.admitted, s) && s != Crash
    requires !IsRecoveryStep(s) && !IsQuarantineStep(s) && !(s.Reconcile? && s.name == a)
    requires MarkedAndTombstoned(w.disk, a) && p.op != Retiring(a) && !(p.op.Reconciling? && p.op.name == a)
    ensures MarkedAndTombstoned(Work(ctx, w, p, s).disk, a)
  {
  }

  lemma StaysMarked(ctx: Ctx, w: World, p: Proc, s: Step, a: string)
    requires Inv(w) && w.proc == Some(p) && Ready(ctx, w.disk, p, w.admitted, s) && s != Crash
    requires Doomed(w, a) && !p.op.ReadingTombstones?
    ensures MarkedAndTombstoned(Work(ctx, w, p, s).disk, a)
  {
    if IsRecoveryStep(s) {
      RecoveryStaysMarked(ctx, w, p, s, a);
    } else if s.WriteTombstone? {
      TombstoningStaysMarked(ctx, w, p, a);
    } else if IsQuarantineStep(s) {
      QuarantineStaysMarked(ctx, w, p, s, a);
    } else {
      OthersStayMarked(ctx, w, p, s, a);
    }
  }

  lemma StepStaysDoomed(ctx: Ctx, w: World, s: Step, a: string)
    requires Sound(w) && Possible(ctx, w, s) && !IsDamage(s) && Doomed(w, a)
    ensures Doomed(Next(ctx, w, s), a)
  {
    StaysAdmitted(ctx, w, s, a);
    if s != Boot && s != Crash {
      var p := w.proc.value;
      if p.op.ReadingTombstones? {
        ReadingStaysDoomed(ctx, w, p, s, a);
      } else {
        StaysMarked(ctx, w, p, s, a);
        StepStaysBlocked(ctx, w, s, a);
        StepRemembers(ctx, w, s);
      }
    }
  }

  /** From a crash that left both a marker and a tombstone of the same admitted name, until
      its evidence is damaged, every service that comes up is blocked once it has loaded: the
      name is ambiguous, no truthful reconciliation of it is accepted, and nothing is admitted. */
  lemma {:induction false} StaysDoomed(ctx: Ctx, worlds: seq<World>, steps: seq<Step>, m: nat, n: nat, a: string)
    requires IsRun(ctx, worlds, steps) && m <= n < |worlds|
    requires forall i | m <= i < n :: !IsDamage(steps[i])
    requires worlds[m].proc == None && a in worlds[m].admitted && MarkedAndTombstoned(worlds[m].disk, a)
    ensures Doomed(worlds[n], a)
    decreases n
  {
    if m < n {
      StaysDoomed(ctx, worlds, steps, m, n - 1, a);
      RunIsSound(ctx, worlds, steps, n - 1);
      StepStaysDoomed(ctx, worlds[n - 1], steps[n - 1], a);
    }
  }

  lemma BlockedForever(ctx: Ctx, worlds: seq<World>, steps: seq<Step>, m: nat, n: nat, a: string)
    requires IsRun(ctx, worlds, steps) && m <= n < |worlds|
    requires forall i | m <= i < n :: !IsDamage(steps[i])
    requires worlds[m].proc == None && a in worlds[m].admitted && MarkedAndTombstoned(worlds[m].disk, a)
    ensures Idle(worlds[n]) ==>
              && Ambiguous(worlds[n], a)
              && (forall t :: Truthful(worlds[n].admitted, a, t) ==>
                    !Reconcilable(worlds[n].proc.value, worlds[n].disk, a, t))
              && (forall q :: !Admissible(worlds[n].proc.value, worlds[n].disk, q))
  {
    StaysDoomed(ctx, worlds, steps, m, n, a);
    RunIsSound(ctx, worlds, steps, n);
    if Idle(worlds[n]) {
      BlockedAdmitsNothing(worlds[n], a);
      ReconcilableExactlyWhen(worlds[n], a);
    }
  }

  // ----- such a crash can happen -----

  lemma Goes(ctx: Ctx, w: World, s: Step, w': World)
    requires Reachable(ctx, false, w) && Possible(ctx, w, s) && Next(ctx, w, s) == w'
    ensures Reachable(ctx, false, w')
  {
    ReachableNext(ctx, false, w, s);
  }

  function Doing(op: Op): (p: Option<Proc>) { Some(Proc(map[], map[], map[], {}, op)) }

  function Asking(q: Request): (dir: Dir) { map[RequestFile := RequestDoc(q)] }

  const UNREADABLE: Dir := map[RequestFile := Blob]

  /** The first assignment is being admitted. */
  function Made(q: Request, dir: Dir, op: Op): (w: World)
  {
    World(Disk(map[q.assignmentId := dir], map[], {}), Doing(op), map[], [], [], {})
  }

  /** The one assignment ever admitted, in its run directory. */
  function Running(q: Request, dir: Dir, p: Option<Proc>): (w: World)
  {
    World(Disk(map[q.assignmentId := dir], map[], {}), p, map[q.assignmentId := q.envelopeId], [], [], {})
  }

  /** Its directory has been set aside. */
  function Aside(q: Request, dir: Dir, markers: set<string>, p: Option<Proc>): (w: World)
  {
    World(Disk(map[], map[q.assignmentId := dir], markers), p, map[q.assignmentId := q.envelopeId], [], [], {})
  }

  lemma NoneIsNone(a: set<string>)
    ensures {} + a == a && a - a == {}
  {
  }

  lemma StartsIdle(ctx: Ctx)
    ensures Reachable(ctx, false, Init().(proc := Doing(Free)))
  {
    var w := Init();
    assert EndsIn(ctx, [w], [], w);
    assert w.disk.quarantined.Keys == {} && w.disk.runs.Keys == {};
    NoneIsNone({});
    Goes(ctx, w, Boot, w.(proc := Doing(ReadingTombstones({}))));
    Goes(ctx, w.(proc := Doing(ReadingTombstones({}))), ReadMarkers, w.(proc := Doing(ReadingRuns({}))));
    Goes(ctx, w.(proc := Doing(ReadingRuns({}))), FinishLoad, w.(proc := Doing(Free)));
  }

  lemma MakesDirectory(ctx: Ctx, q: Request)
    ensures Reachable(ctx, false, Made(q, map[], Making(q)))
  {
    StartsIdle(ctx);
    Goes(ctx, Init().(proc := Doing(Free)), Admit(q),
         Made(q, map[], Making(q)));
  }

  lemma StagesRequest(ctx: Ctx, q: Request)
    ensures Reachable(ctx, false, Made(q, map[Tmp(RequestFile) := Blob], Admission.Staged(q)))
  {
    MakesDirectory(ctx, q);
    Goes(ctx, Made(q, map[], Making(q)), StageRequest,
         Made(q, map[Tmp(RequestFile) := Blob], Admission.Staged(q)));
  }

  /** The request is durable. */
  lemma IsAdmitted(ctx: Ctx, q: Request)
    ensures Reachable(ctx, false, Running(q, Asking(q), Doing(Durable(q))))
  {
    StagesRequest(ctx, q);
    var dir: Dir := map[Tmp(RequestFile) := Blob];
    assert (dir - {Tmp(RequestFile)})[RequestFile := RequestDoc(q)] == Asking(q);
    Goes(ctx, Made(q, dir, Admission.Staged(q)), WriteRequest,
         Running(q, Asking(q), Doing(Durable(q))));
  }

  /** The service went down, the request turned unparsable, and a new service comes up. */
  lemma IsDamaged(ctx: Ctx, q: Request)
    ensures Reachable(ctx, false, Running(q, UNREADABLE, Doing(ReadingTombstones({}))))
  {
    IsAdmitted(ctx, q);
    Goes(ctx, Running(q, Asking(q), Doing(Durable(q))), Crash, Running(q, Asking(q), None));
    assert Asking(q)[RequestFile := Blob] == UNREADABLE;
    Goes(ctx, Running(q, Asking(q), None), CorruptRun(q.assignmentId, RequestFile, Blob), Running(q, UNREADABLE, None));
    assert Running(q, UNREADABLE, None).disk.quarantined.Keys == {};
    Goes(ctx, Running(q, UNREADABLE, None), Boot, Running(q, UNREADABLE, Doing(ReadingTombstones({}))));
  }

  lemma IsSetAside(ctx: Ctx, q: Request)
    ensures Reachable(ctx, false, Aside(q, UNREADABLE, {}, Doing(Moved(q.assignmentId, false, {}))))
  {
    var a := q.assignmentId;
    IsDamaged(ctx, q);
    var w := Running(q, UNREADABLE, Doing(ReadingRuns({a})));
    assert w.disk.runs.Keys == {a};
    NoneIsNone({});
    Goes(ctx, Running(q, UNREADABLE, Doing(ReadingTombstones({}))), ReadMarkers, w);
    assert w.disk.runs - {a} == map[] && w.disk.quarantined[a := UNREADABLE] == map[a := UNREADABLE];
    assert RequestFile in UNREADABLE.Keys;
    NoneIsNone({a});
    Goes(ctx, w, LoadOrMove(a), Aside(q, UNREADABLE, {}, Doing(Moved(a, false, {}))));
  }

  const RECORDED: Dir := map[RequestFile := Blob, QuarantineFile := Blob]

  lemma IsRecorded(ctx: Ctx, q: Request)
    ensures Reachable(ctx, false, Aside(q, RECORDED, {}, Doing(Recorded(q.assignmentId, {}))))
  {
    var a := q.assignmentId;
    IsSetAside(ctx, q);
    var staged: Dir := UNREADABLE[Tmp(QuarantineFile) := Blob];
    Goes(ctx, Aside(q, UNREADABLE, {}, Doing(Moved(a, false, {}))), StageRecord,
         Aside(q, staged, {}, Doing(RecordStaged(a, false, {}))));
    assert (staged - {Tmp(QuarantineFile)})[QuarantineFile := Blob] == RECORDED;
    Goes(ctx, Aside(q, staged, {}, Doing(RecordStaged(a, false, {}))), WriteRecord,
         Aside(q, RECORDED, {}, Doing(Recorded(a, {}))));
  }

  function Unclear(q: Request, op: Op): (p: Option<Proc>) { Some(Proc(map[], map[], map[], {q.assignmentId}, op)) }

  /** Its identity is lost: the name is ambiguous and marked, and the service idle. */
  lemma IsAmbiguous(ctx: Ctx, q: Request)
    ensures Reachable(ctx, false, Aside(q, RECORDED, {q.assignmentId}, Unclear(q, Free)))
  {
    var a := q.assignmentId;
    IsRecorded(ctx, q);
    NoneIsNone({a});
    Goes(ctx, Aside(q, RECORDED, {}, Doing(Recorded(a, {}))), RecoverIdentity,
         Aside(q, RECORDED, {}, Unclear(q, Marking(a, {}))));
    Goes(ctx, Aside(q, RECORDED, {}, Unclear(q, Marking(a, {}))), WriteMarker,
         Aside(q, RECORDED, {a}, Unclear(q, ReadingRuns({}))));
    Goes(ctx, Aside(q, RECORDED, {a}, Unclear(q, ReadingRuns({}))), FinishLoad,
         Aside(q, RECORDED, {a}, Unclear(q, Free)));
  }

  const TOMBSTONING: Dir := RECORDED[Tmp(TombstoneFile) := Blob]

  function Buried(q: Request): (dir: Dir) { RECORDED[TombstoneFile := TombstoneDoc(Own(q))] }

  /** It is being reconciled under its own identity, or was. */
  function Named(q: Request, dir: Dir, p: Option<Proc>): (w: World)
  {
    Aside(q, dir, {q.assignmentId}, p).(reconciled := {Own(q)})
  }

  function Own(q: Request): (t: Tombstone) { Tombstone(q.assignmentId, q.envelopeId) }

  /** The operator reconciles it under its own identity; the tombstone's file is staged. */
  lemma IsReconciling(ctx: Ctx, q: Request)
    ensures Reachable(ctx, false, Named(q, TOMBSTONING, Unclear(q, Reconciling(q.assignmentId, Own(q)))))
  {
    var a := q.assignmentId;
    IsAmbiguous(ctx, q);
    Goes(ctx, Aside(q, RECORDED, {a}, Unclear(q, Free)), Reconcile(a, Own(q)),
         Named(q, TOMBSTONING, Unclear(q, Reconciling(a, Own(q)))));
  }

  /** The tombstone is durable, and the marker not retired yet. */
  lemma IsBuried(ctx: Ctx, q: Request)
    ensures var a, t := q.assignmentId, Own(q);
            Reachable(ctx, false, Named(q, Buried(q),
                Some(Proc(map[], map[a := t], map[t.envelopeId := a], {}, Retiring(a)))))
  {
    var a, t := q.assignmentId, Own(q);
    IsReconciling(ctx, q);
    NoneIsNone({a});
    assert (TOMBSTONING - {Tmp(TombstoneFile)})[TombstoneFile := TombstoneDoc(t)] == Buried(q);
    Goes(ctx, Named(q, TOMBSTONING, Unclear(q, Reconciling(a, t))), WriteReconciled,
         Named(q, Buried(q), Some(Proc(map[], map[a := t], map[t.envelopeId := a], {}, Retiring(a)))));
  }

  /** Every request can end up blocked, with a truthful operator: its evidence is damaged, its
      name is reconciled, and a crash comes between the tombstone and the marker. */
  lemma AnyRequestCanBeBlocked(ctx: Ctx, q: Request)
    ensures exists w :: Reachable(ctx, false, w) && w.proc == None && q.assignmentId in w.admitted
                && MarkedAndTombstoned(w.disk, q.assignmentId)
  {
    var a, t := q.assignmentId, Own(q);
    IsBuried(ctx, q);
    var down := Named(q, Buried(q), None);
    Goes(ctx, down.(proc := Some(Proc(map[], map[a := t], map[t.envelopeId := a], {}, Retiring(a)))), Crash, down);
    assert MarkedAndTombstoned(down.disk, a);
  }
}
