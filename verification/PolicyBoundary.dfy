/** The stateful policy boundary of one run: byte accounting, expiry, one launch plan,
    one publication, one wipe. */
module PolicyBoundary {
  import opened Options
  import opened Strings

  // ----- declarations -----

  datatype Access = ReadOnly | ReadWrite

  datatype Storage = Storage(workspace: string, inputs: string, cache: Option<string>, cacheAccess: Access)

  /** `digest` binds the declarations; `bound` says the digest the caller expected was it. */
  datatype Policy = Policy(
    phase: string, purpose: string, hosts: seq<string>, ports: seq<int>, methods: seq<string>,
    maxBytes: Option<nat>, maxDuration: Option<nat>, expiresAt: Option<real>,
    storage: Storage, runRoot: Option<string>, digest: string, bound: bool)

  datatype Mount = Mount(host: string, guest: string, access: Access)

  function Mounts(p: Policy): (ms: seq<Mount>)
  {
    if p.runRoot.None? then []
    else
      var root := p.runRoot.value;
      [Mount(root, p.storage.workspace, ReadWrite), Mount(root + "/inputs", p.storage.inputs, ReadOnly)]
      + if p.storage.cache.Some? then [Mount(root + "/cache", p.storage.cache.value, p.storage.cacheAccess)] else []
  }

  predicate Under(path: string, prefix: string) { path == prefix || prefix + "/" <= path }

  predicate Apart(a: string, b: string) { !Under(a, b) && !Under(b, a) }

  predicate HasDoubleSlash(s: string) { exists i | 0 <= i < |s| - 1 :: s[i] == '/' && s[i + 1] == '/' }

  predicate SafeGuest(path: string)
  {
    && path != "" && path[0] == '/' && '\0' !in path && '\\' !in path && !HasDoubleSlash(path)
    && (path[|path| - 1] == '/' ==> path == "/")
    && "." !in Split(path, '/') && ".." !in Split(path, '/')
  }

  /** Path resolution is the host's. */
  predicate SafeHost(resolve: string -> string, path: string, root: string)
  {
    && path != "" && path[0] == '/' && '\0' !in path && '\\' !in path && ".." !in Split(path, '/')
    && Under(resolve(path), resolve(root))
  }

  /** What validated storage declarations satisfy. */
  predicate ValidStorage(s: Storage)
  {
    && SafeGuest(s.workspace) && SafeGuest(s.inputs) && (s.cache.Some? ==> SafeGuest(s.cache.value))
    && Apart(s.inputs, s.workspace)
    && (s.cache.Some? ==> Apart(s.cache.value, s.workspace) && Apart(s.cache.value, s.inputs))
  }

  // ----- decisions -----

  datatype Operation = MountOp | StorageOp | NetworkOp | LaunchOp | PublicationOp | DigestOp

  datatype Reason =
    | Allowed | NotBound | DigestRequired | DigestMismatch | WipedAlready | Expired
    | PurposeNone | DurationOver | ElapsedOver | PhaseMismatch | PurposeMismatch
    | BadHost | HostNotListed | PortNotListed | BadMethod | MethodNotListed | BadBytes | BadElapsed | BytesOver
    | NoRunRoot | UnsafePath | UnknownOperation | GuestNotDeclared | NotGuestRoot | HostNotBound | ModeExceeds
    | PlanNotEnforceable | NoLaunchReceipt | PublicationRepeated

  /** `bytes` is what an allowed network decision was charged. */
  datatype Decision = Decision(operation: Operation, reason: Reason, sequence: nat, issuedAt: real, bytes: nat) {
    predicate Allow() { reason.Allowed? }
  }

  datatype Elapsed = NotGiven | Malformed | Elapsed(seconds: real)

  /** A phase or purpose named by the caller. */
  datatype Label = Unnamed | NotText | Named(text: string) {
    /** A receipt can carry it. */
    predicate Writable() { !NotText? }

    /** Unnamed stands for the policy's own. */
    predicate Matches(own: string) { Unnamed? || this == Named(own) }
  }

  /** Host, port, method and bytes of the wrong type are `None`. */
  datatype NetworkRequest = NetworkRequest(
    host: Option<string>, port: Option<int>, verb: Option<string>, phase: Label, purpose: Label,
    bytes: Option<int>, elapsed: Elapsed, digest: Option<string>)
  {
    /** A receipt can carry its labels. */
    predicate Writable() { phase.Writable() && purpose.Writable() }
  }

  /** A decision that took a number, and the clock readings its call began at, it was checked
      at, and it was stamped at. If it was not issued, its receipt could not be written and
      the call raised. */
  datatype Entry = Entry(decision: Decision, began: nat, checked: nat, stamped: nat, issued: bool)

  function Bytes(log: seq<Entry>): (n: nat)
  {
    if log == [] then 0
    else
      var d := log[|log| - 1].decision;
      Bytes(log[..|log| - 1]) + if d.operation.NetworkOp? && d.Allow() then d.bytes else 0
  }

  function Publications(log: seq<Entry>): (n: nat)
  {
    if log == [] then 0
    else
      var d := log[|log| - 1].decision;
      Publications(log[..|log| - 1]) + if d.operation.PublicationOp? && d.Allow() then 1 else 0
  }

  predicate InForce(p: Policy, now: real) { p.expiresAt.Some? ==> now < p.expiresAt.value }

  /** The run's duration is not used up at this reading; the first reading was its start. */
  predicate InTime(p: Policy, clock: nat -> real, tick: nat)
  {
    p.maxDuration.Some? ==> clock(tick) - clock(0) < p.maxDuration.value as real
  }

  /** Requests, launches and publications read the duration once, right after their first
      check: an allowed one was in time then, and one refused as over was not. */
  predicate Timely(p: Policy, clock: nat -> real, operation: Operation, reason: Reason, began: nat)
  {
    operation in {NetworkOp, LaunchOp, PublicationOp} ==>
      && (reason.Allowed? ==> InTime(p, clock, began + 1))
      && (reason.DurationOver? ==> !InTime(p, clock, began + 1))
  }

  /** Two decisions of one call: only a launch makes several, its mounts first. */
  predicate SameCall(e: Entry, next: Entry)
  {
    e.began == next.began && e.decision.operation.MountOp? && next.decision.operation in {MountOp, LaunchOp}
  }

  /** A decision is stamped after the one before it, and, unless it closes a launch, checked
      after that stamp; an allowed launch has no refused mount before it. */
  predicate Follows(log: seq<Entry>, next: Entry)
  {
    log == [] ||
    var e := log[|log| - 1];
    && e.stamped < next.stamped && (e.stamped < next.began || SameCall(e, next))
    && (next.decision.operation.LaunchOp? || e.stamped < next.checked)
    && (next.decision.Allow() && SameCall(e, next) && next.decision.operation.LaunchOp? ==> e.decision.Allow())
  }

  /** One decision on its own: stamped by the clock, and if allowed issued, and checked in force
      before. */
  ghost predicate Stamped(p: Policy, clock: nat -> real, e: Entry)
  {
    && e.decision.issuedAt == clock(e.stamped) && e.began <= e.checked <= e.stamped
    && (e.decision.Allow() ==> e.issued && e.checked < e.stamped && InForce(p, clock(e.checked)))
    && Timely(p, clock, e.decision.operation, e.decision.reason, e.began)
  }

  /** Each decision takes the next number, follows those before it, and if allowed comes
      before any wipe. */
  ghost predicate Lawful(p: Policy, clock: nat -> real, wipedAt: Option<nat>, log: seq<Entry>)
  {
    log == [] ||
    var n := |log| - 1;
    && Lawful(p, clock, wipedAt, log[..n])
    && log[n].decision.sequence == n && Follows(log[..n], log[n]) && Stamped(p, clock, log[n])
    && (log[n].decision.Allow() && wipedAt.Some? ==> n < wipedAt.value)
  }

  /** Everything logged was stamped before this reading. */
  predicate StampedBefore(log: seq<Entry>, tick: nat)
  {
    log == [] || log[|log| - 1].began <= log[|log| - 1].stamped < tick
  }

  /** A decision of the call that began at `began` may come next: it is the call's first, or
      only mounts came before it. */
  predicate Within(log: seq<Entry>, began: nat)
  {
    log == [] ||
    var e := log[|log| - 1];
    StampedBefore(log, began) || (e.began == began && e.decision.operation.MountOp?)
  }

  ghost predicate LaunchLogged(log: seq<Entry>, d: Decision)
  {
    d.operation.LaunchOp? && d.Allow() && exists i | 0 <= i < |log| :: log[i].decision == d
  }

  ghost predicate Steady(clock: nat -> real) { forall i, j | 0 <= i <= j :: clock(i) <= clock(j) }

  /** It is the first of its call, or comes after that call's mounts. */
  predicate InTurn(log: seq<Entry>, operation: Operation, allowed: bool, began: nat, checked: nat)
  {
    StampedBefore(log, began) ||
    var e := log[|log| - 1];
    && e.began == began && e.decision.operation.MountOp?
    && ((operation.MountOp? && e.stamped < checked) || (operation.LaunchOp? && (allowed ==> e.decision.Allow())))
  }

  lemma InTurnFollows(log: seq<Entry>, e: Entry)
    requires InTurn(log, e.decision.operation, e.decision.Allow(), e.began, e.checked) && StampedBefore(log, e.stamped)
    requires e.began <= e.checked <= e.stamped
    ensures Follows(log, e)
  {
  }

  lemma {:induction false} LawfulPrefix(p: Policy, clock: nat -> real, wipedAt: Option<nat>, log: seq<Entry>, n: nat)
    requires Lawful(p, clock, wipedAt, log) && n <= |log|
    ensures Lawful(p, clock, wipedAt, log[..n])
    decreases |log|
  {
    if n == |log| {
      assert log[..n] == log;
    } else {
      var last := |log| - 1;
      LawfulPrefix(p, clock, wipedAt, log[..last], n);
      assert log[..last][..n] == log[..n];
    }
  }

  /** What holds of each decision of a lawful log. */
  lemma LawfulAt(p: Policy, clock: nat -> real, wipedAt: Option<nat>, log: seq<Entry>, i: nat)
    requires Lawful(p, clock, wipedAt, log) && i < |log|
    ensures log[i].decision.sequence == i && Stamped(p, clock, log[i]) && Follows(log[..i], log[i])
    ensures log[i].decision.Allow() && wipedAt.Some? ==> i < wipedAt.value
  {
    LawfulPrefix(p, clock, wipedAt, log, i + 1);
    assert log[..i + 1][..i] == log[..i] && log[..i + 1][i] == log[i];
  }

  /** Calls follow one another: a later decision was stamped later, and it is of the same
      call or its call began after the earlier stamp. Unless it closes a launch it was also
      checked after that stamp. */
  lemma {:induction false} LaterIsStampedLater(p: Policy, clock: nat -> real, wipedAt: Option<nat>, log: seq<Entry>,
      i: nat, j: nat)
    requires Lawful(p, clock, wipedAt, log) && i < j < |log|
    ensures log[i].stamped < log[j].stamped
    ensures log[i].stamped < log[j].began || SameCall(log[i], log[j])
    ensures log[j].decision.operation.LaunchOp? || log[i].stamped < log[j].checked
    decreases j
  {
    LawfulAt(p, clock, wipedAt, log, j);
    LawfulAt(p, clock, wipedAt, log, j - 1);
    assert log[..j][|log[..j]| - 1] == log[j - 1];
    if i < j - 1 {
      LaterIsStampedLater(p, clock, wipedAt, log, i, j - 1);
    }
  }

  /** The receipts issued, in order. */
  function Receipts(log: seq<Entry>): (ds: seq<Decision>)
  {
    if log == [] then []
    else
      var e := log[|log| - 1];
      Receipts(log[..|log| - 1]) + if e.issued then [e.decision] else []
  }

  /** The numbers increase, and `log` has an issued entry for each of them. */
  ghost predicate NumberedBy(ds: seq<Decision>, log: seq<Entry>)
  {
    && (forall i, j | 0 <= i < j < |ds| :: ds[i].sequence < ds[j].sequence)
    && forall d :: d in ds <==> IssuedIn(d, log)
  }

  predicate IssuedIn(d: Decision, log: seq<Entry>)
  {
    d.sequence < |log| && log[d.sequence].issued && log[d.sequence].decision == d
  }

  lemma NumberedGrows(ds: seq<Decision>, log: seq<Entry>, e: Entry)
    requires NumberedBy(ds, log) && e.decision.sequence == |log|
    ensures NumberedBy(if e.issued then ds + [e.decision] else ds, log + [e])
  {
    forall d ensures IssuedIn(d, log + [e]) <==> IssuedIn(d, log) || (e.issued && d == e.decision) {
    }
    forall i | 0 <= i < |ds| ensures ds[i].sequence < |log| {
      assert IssuedIn(ds[i], log);
    }
  }

  lemma {:induction false} NumberedReceipts(log: seq<Entry>)
    requires forall i | 0 <= i < |log| :: log[i].decision.sequence == i
    ensures NumberedBy(Receipts(log), log)
  {
    if log != [] {
      var n := |log| - 1;
      NumberedReceipts(log[..n]);
      NumberedGrows(Receipts(log[..n]), log[..n], log[n]);
      assert log[..n] + [log[n]] == log;
      assert Receipts(log[..n]) + [] == Receipts(log[..n]);
    }
  }

  /** Numbers of the receipts increase, and one is missing exactly where a decision took it
      and could not be issued. */
  lemma ReceiptsAreNumbered(p: Policy, clock: nat -> real, wipedAt: Option<nat>, log: seq<Entry>)
    requires Lawful(p, clock, wipedAt, log)
    ensures NumberedBy(Receipts(log), log)
  {
    LawfulMeans(p, clock, wipedAt, log);
    NumberedReceipts(log);
  }

  /** Decisions take the numbers from zero without gaps, and after a wipe none is allowed. */
  lemma {:induction false} LawfulMeans(p: Policy, clock: nat -> real, wipedAt: Option<nat>, log: seq<Entry>)
    requires Lawful(p, clock, wipedAt, log)
    ensures forall i | 0 <= i < |log| :: log[i].decision.sequence == i
    ensures wipedAt.Some? ==> forall i | wipedAt.value <= i < |log| :: !log[i].decision.Allow()
  {
    forall i | 0 <= i < |log|
      ensures log[i].decision.sequence == i
      ensures wipedAt.Some? && log[i].decision.Allow() ==> i < wipedAt.value
    {
      LawfulAt(p, clock, wipedAt, log, i);
    }
  }

  /** With a clock that never goes back, once a call began at or past expiry nothing is
      allowed by it or by any later call. */
  lemma NothingAllowedAfterExpiry(p: Policy, clock: nat -> real, wipedAt: Option<nat>, log: seq<Entry>, i: nat, j: nat)
    requires Steady(clock) && Lawful(p, clock, wipedAt, log) && i <= j < |log|
    requires !InForce(p, clock(log[i].began))
    ensures !log[j].decision.Allow()
  {
    LawfulAt(p, clock, wipedAt, log, i);
    LawfulAt(p, clock, wipedAt, log, j);
    if i < j {
      LaterIsStampedLater(p, clock, wipedAt, log, i, j);
    }
    assert log[i].began <= log[j].checked;
    assert clock(log[i].began) <= clock(log[j].checked);
  }

  predicate Timed(operation: Operation) { operation.NetworkOp? || operation.LaunchOp? || operation.PublicationOp? }

  /** An allowed request, launch or publication read the clock less than the limit after the
      run's start, and one refused because the duration is over read it no earlier than that. */
  lemma DurationIsKept(p: Policy, clock: nat -> real, wipedAt: Option<nat>, log: seq<Entry>, i: nat)
    requires Lawful(p, clock, wipedAt, log) && i < |log| && Timed(log[i].decision.operation) && p.maxDuration.Some?
    ensures var e := log[i];
            && (e.decision.Allow() ==> clock(e.began + 1) < clock(0) + p.maxDuration.value as real)
            && (e.decision.reason == DurationOver ==> clock(e.began + 1) >= clock(0) + p.maxDuration.value as real)
  {
    LawfulAt(p, clock, wipedAt, log, i);
  }

  /** A request, launch or publication is refused because the duration is over only where one
      is set. */
  lemma NoLimitNoEnd(p: Policy, clock: nat -> real, wipedAt: Option<nat>, log: seq<Entry>, i: nat)
    requires Lawful(p, clock, wipedAt, log) && i < |log| && Timed(log[i].decision.operation) && p.maxDuration.None?
    ensures log[i].decision.reason != DurationOver
  {
    LawfulAt(p, clock, wipedAt, log, i);
  }

  /** With a clock that never goes back, once the duration was over no request, launch or
      publication is allowed. */
  lemma NothingAllowedAfterTheDuration(p: Policy, clock: nat -> real, wipedAt: Option<nat>, log: seq<Entry>,
      i: nat, j: nat)
    requires Steady(clock) && Lawful(p, clock, wipedAt, log) && i < j < |log|
    requires Timed(log[i].decision.operation) && log[i].decision.reason == DurationOver
    requires Timed(log[j].decision.operation)
    ensures !log[j].decision.Allow()
  {
    LawfulAt(p, clock, wipedAt, log, i);
    LawfulAt(p, clock, wipedAt, log, j);
    LaterIsStampedLater(p, clock, wipedAt, log, i, j);
    assert clock(log[i].began + 1) <= clock(log[j].began + 1);
  }

  /** An allowed receipt whose own time is at or past expiry. */
  predicate Late(p: Policy, e: Entry) { e.decision.Allow() && !InForce(p, e.decision.issuedAt) }

  /** An allowed receipt is late exactly when expiry lies between its check and its stamp. */
  lemma LateExactlyWhenExpiryFallsBetween(p: Policy, clock: nat -> real, wipedAt: Option<nat>, log: seq<Entry>, i: nat)
    requires Lawful(p, clock, wipedAt, log) && i < |log| && log[i].decision.Allow()
    ensures Late(p, log[i]) <==>
              p.expiresAt.Some? && clock(log[i].checked) < p.expiresAt.value <= clock(log[i].stamped)
  {
    LawfulAt(p, clock, wipedAt, log, i);
  }

  /** With a clock that never goes back, lateness ends a run's permissions: after a late
      receipt nothing is allowed, except that a launch whose last mount was late may itself
      be, and is then late too. So at most two receipts are late, both of one call. */
  lemma NothingAllowedAfterALateReceipt(p: Policy, clock: nat -> real, wipedAt: Option<nat>, log: seq<Entry>, i: nat,
      j: nat)
    requires Steady(clock) && Lawful(p, clock, wipedAt, log) && i < j < |log| && Late(p, log[i])
    ensures log[j].decision.Allow() ==>
              && j == i + 1 && SameCall(log[i], log[j]) && log[j].decision.operation.LaunchOp? && Late(p, log[j])
  {
    LawfulAt(p, clock, wipedAt, log, i);
    LawfulAt(p, clock, wipedAt, log, j);
    LaterIsStampedLater(p, clock, wipedAt, log, i, j);
    assert clock(log[i].stamped) <= clock(log[j].stamped);
    if log[j].decision.Allow() {
      assert clock(log[j].checked) < clock(log[i].stamped);
      assert log[j].checked <= log[i].stamped;
      if i < j - 1 {
        LaunchHasNoRefusedMount(p, clock, wipedAt, log, i, j);
        NothingAllowedAfterALateReceipt(p, clock, wipedAt, log, i, j - 1);
      }
    }
  }

  /** Between the first mounts of a launch and the launch itself there are only mounts, and
      the last of them was allowed if the launch was. */
  lemma LaunchHasNoRefusedMount(p: Policy, clock: nat -> real, wipedAt: Option<nat>, log: seq<Entry>, i: nat, j: nat)
    requires Lawful(p, clock, wipedAt, log) && i < j - 1 && j < |log|
    requires log[j].decision.operation.LaunchOp? && log[j].decision.Allow() && SameCall(log[i], log[j])
    requires log[j].checked <= log[i].stamped
    ensures log[j - 1].decision.Allow() && log[j - 1].decision.operation.MountOp?
  {
    LawfulAt(p, clock, wipedAt, log, j);
    LaterIsStampedLater(p, clock, wipedAt, log, j - 1, j);
    LaterIsStampedLater(p, clock, wipedAt, log, i, j - 1);
    assert log[..j][|log[..j]| - 1] == log[j - 1];
  }

  /** A wipe leaves the log lawful. */
  lemma {:induction false} WipingIsLawful(p: Policy, clock: nat -> real, log: seq<Entry>, at: nat)
    requires Lawful(p, clock, None, log) && |log| <= at
    ensures Lawful(p, clock, Some(at), log)
  {
    if log != [] {
      WipingIsLawful(p, clock, log[..|log| - 1], at);
    }
  }

  lemma LaunchStaysLogged(log: seq<Entry>, e: Entry, d: Decision)
    requires LaunchLogged(log, d)
    ensures LaunchLogged(log + [e], d)
  {
    var i :| 0 <= i < |log| && log[i].decision == d;
    assert (log + [e])[i].decision == d;
  }

  /** A run's running totals and its log. */
  datatype Book = Book(networkBytes: nat, published: bool, wipedAt: Option<nat>, launch: Option<Decision>,
      log: seq<Entry>)

  /** Numbered without gaps, bytes accounted and within the limit, at most one publication,
      and nothing allowed since a wipe. */
  ghost predicate Balanced(p: Policy, clock: nat -> real, b: Book, charge: nat, pending: nat)
  {
    && Lawful(p, clock, b.wipedAt, b.log) && (b.wipedAt.Some? ==> b.wipedAt.value <= |b.log|)
    && Bytes(b.log) + charge == b.networkBytes
    && (if p.maxBytes.Some? then b.networkBytes <= p.maxBytes.value else b.networkBytes == 0)
    && Publications(b.log) + pending == (if b.published then 1 else 0)
    && (b.launch.Some? ==> LaunchLogged(b.log, b.launch.value))
  }

  function ChargeOf(operation: Operation, reason: Reason, bytes: nat): (n: nat)
  {
    if operation.NetworkOp? && reason.Allowed? then bytes else 0
  }

  function PublicationOf(operation: Operation, reason: Reason): (n: nat)
  {
    if operation.PublicationOp? && reason.Allowed? then 1 else 0
  }

  lemma {:induction false} SumsGrow(log: seq<Entry>, e: Entry)
    ensures Bytes(log + [e]) == Bytes(log) + ChargeOf(e.decision.operation, e.decision.reason, e.decision.bytes)
    ensures Publications(log + [e]) == Publications(log) + PublicationOf(e.decision.operation, e.decision.reason)
  {
    assert (log + [e])[..|log|] == log;
  }

  /** Logging a decision settles what it charges. */
  lemma LoggingBalances(p: Policy, clock: nat -> real, b: Book, e: Entry)
    requires var d := e.decision;
             Balanced(p, clock, b, ChargeOf(d.operation, d.reason, d.bytes), PublicationOf(d.operation, d.reason))
    requires e.decision.sequence == |b.log| && Follows(b.log, e) && Stamped(p, clock, e)
    requires e.decision.Allow() ==> b.wipedAt.None?
    ensures Balanced(p, clock, b.(log := b.log + [e]), 0, 0)
  {
    SumsGrow(b.log, e);
    assert (b.log + [e])[..|b.log|] == b.log;
    if b.launch.Some? {
      LaunchStaysLogged(b.log, e, b.launch.value);
    }
  }

  // ----- guest paths -----

  predicate Name(x: string)
  {
    x != "" && x != "." && x != ".." && '/' !in x && '\0' !in x && '\\' !in x
  }

  predicate AllNames(names: seq<string>) { forall i | 0 <= i < |names| :: Name(names[i]) }

  function Slashed(names: seq<string>): (path: string)
  {
    if names == [] then "" else "/" + names[0] + Slashed(names[1..])
  }

  function GuestOf(names: seq<string>): (path: string) { if names == [] then "/" else Slashed(names) }

  lemma {:induction false} SlashedJoins(names: seq<string>)
    requires names != []
    ensures Slashed(names) == "/" + JoinWith(names, '/')
  {
    if |names| > 1 {
      SlashedJoins(names[1..]);
    }
  }

  lemma {:induction false} SlashedIsPlain(names: seq<string>)
    requires AllNames(names) && names != []
    ensures var s := Slashed(names);
            && |s| >= 2 && s[0] == '/' && s[1] != '/' && s[|s| - 1] != '/'
            && '\0' !in s && '\\' !in s && !HasDoubleSlash(s)
  {
    var s, x, rest := Slashed(names), names[0], Slashed(names[1..]);
    assert s == "/" + x + rest;
    if |names| > 1 {
      SlashedIsPlain(names[1..]);
      forall i | 0 <= i < |s| - 1 ensures !(s[i] == '/' && s[i + 1] == '/') {
        if i > |x| {
          assert s[i] == rest[i - |x| - 1] && s[i + 1] == rest[i - |x|];
        } else if 0 < i {
          assert s[i] == x[i - 1];
        }
      }
    }
  }

  lemma {:induction false} PartsAreFull(s: string)
    requires s != "" && s[0] != '/' && s[|s| - 1] != '/' && !HasDoubleSlash(s)
    ensures forall i | 0 <= i < |Split(s, '/')| :: Split(s, '/')[i] != ""
    decreases |s|
  {
    var rest := s[1..];
    assert [s[0]] + "" == [s[0]];
    if rest != "" && rest[0] != '/' {
      forall i | 0 <= i < |rest| - 1 ensures !(rest[i] == '/' && rest[i + 1] == '/') {
        assert s[i + 1] == rest[i] && s[i + 2] == rest[i + 1];
      }
      PartsAreFull(rest);
    } else if rest != "" {
      var next := s[2..];
      assert s[1] == '/' && rest[1..] == next;
      assert next != "" && next[0] == s[2];
      forall i | 0 <= i < |next| - 1 ensures !(next[i] == '/' && next[i + 1] == '/') {
        assert s[i + 2] == next[i] && s[i + 3] == next[i + 1];
      }
      PartsAreFull(next);
      assert Split(rest, '/') == [""] + Split(next, '/');
      assert ([""] + Split(next, '/'))[1..] == Split(next, '/');
      assert Split(s, '/') == [[s[0]]] + Split(next, '/');
    } else {
      assert Split(rest, '/') == [""];
      assert Split(s, '/') == [[s[0]]];
    }
  }

  /** A safe guest path is the root, or names that are neither empty nor `.` nor `..`, each after
      one slash. */
  lemma SafeGuestMeans(path: string)
    ensures SafeGuest(path) <==> exists names :: AllNames(names) && path == GuestOf(names)
  {
    if SafeGuest(path) {
      var names := NamesOf(path);
    }
    if names :| AllNames(names) && path == GuestOf(names) {
      NamesAreSafe(names);
    }
  }

  lemma NamesOf(path: string) returns (names: seq<string>)
    requires SafeGuest(path)
    ensures AllNames(names) && path == GuestOf(names)
  {
    names := [];
    if path != "/" {
      var tail := path[1..];
      names := Split(tail, '/');
      SplitMeans(tail, '/');
      SlashedJoins(names);
      assert path == "" + ['/'] + tail;
      SplitFirst("", tail, '/');
      forall i | 0 <= i < |tail| - 1 ensures !(tail[i] == '/' && tail[i + 1] == '/') {
        assert path[i + 1] == tail[i] && path[i + 2] == tail[i + 1];
      }
      assert path[1] != '/';
      PartsAreFull(tail);
      PartsHoldNothingElse(tail, '/', '\0');
      PartsHoldNothingElse(tail, '/', '\\');
      assert forall i | 0 <= i < |names| :: names[i] == Split(path, '/')[i + 1];
    }
  }

  lemma NamesAreSafe(names: seq<string>)
    requires AllNames(names)
    ensures SafeGuest(GuestOf(names))
  {
    if names == [] {
      assert Split("/", '/') == [""] + Split("", '/');
    } else {
      SlashedIsPlain(names);
      SlashedJoins(names);
      OnlySplit(names, '/');
      SplitFirst("", JoinWith(names, '/'), '/');
      assert Slashed(names) == "" + ['/'] + JoinWith(names, '/');
      assert Split(Slashed(names), '/') == [""] + names;
    }
  }

  /** One path is under another exactly when it begins with all its names. */
  lemma UnderIsPrefix(a: seq<string>, b: seq<string>)
    requires AllNames(a) && AllNames(b) && b != []
    ensures Under(GuestOf(a), GuestOf(b)) <==> b <= a
  {
    var x, y := GuestOf(a), GuestOf(b);
    SlashedIsPlain(b);
    if a == [] {
      assert !(y + "/" <= x);
    } else {
      assert Under(x, y) <==> y + "/" <= x + "/" by {
        if y + "/" <= x + "/" && |x| == |y| {
          assert x == (x + "/")[..|x|] && y == (x + "/")[..|x|];
        }
        if y + "/" <= x + "/" && |y| < |x| {
          assert (x + "/")[..|y| + 1] == x[..|y| + 1];
        }
      }
      ClosedPrefix(a, b);
    }
  }

  lemma {:induction false} ClosedPrefix(a: seq<string>, b: seq<string>)
    requires AllNames(a) && AllNames(b)
    ensures Slashed(b) + "/" <= Slashed(a) + "/" <==> b <= a
  {
    if b == [] {
      assert Slashed(a) + "/" != "" && (Slashed(a) + "/")[0] == '/';
    } else if a == [] {
      SlashedIsPlain(b);
    } else {
      var x, y := a[0], b[0];
      var s, t := Slashed(a[1..]) + "/", Slashed(b[1..]) + "/";
      assert Slashed(a) + "/" == "/" + x + s && Slashed(b) + "/" == "/" + y + t;
      ClosedPrefix(a[1..], b[1..]);
      FirstNames(x, s, y, t);
      assert b <= a <==> y == x && b[1..] <= a[1..];
    }
  }

  lemma FirstNames(x: string, s: string, y: string, t: string)
    requires '/' !in x && '/' !in y && s != "" && s[0] == '/' && t != "" && t[0] == '/'
    ensures "/" + y + t <= "/" + x + s <==> y == x && t <= s
  {
    var a, b := "/" + x + s, "/" + y + t;
    if b <= a {
      assert a[1 + |y|] == b[1 + |y|] == '/';
      assert a[1 + |x|] == '/';
      assert forall i | 0 <= i < |x| :: a[1 + i] == x[i];
      assert forall i | 0 <= i < |y| :: a[1 + i] == b[1 + i] == y[i];
      assert |x| == |y|;
      assert x == a[1..1 + |x|] && y == a[1..1 + |x|];
      assert t == b[1 + |x|..] && s == a[1 + |x|..] && b[1 + |x|..] == a[1 + |x|..][..|t|];
    }
    if y == x && t <= s {
      assert a == "/" + x + t + s[|t|..];
    }
  }

  // ----- mounts and paths -----

  /** The declared tree a guest path falls in; the first one that fits. */
  function DeclaredTree(s: Storage, guest: string): (r: Option<(string, Access)>)
  {
    if Under(guest, s.workspace) then Some((s.workspace, ReadWrite))
    else if Under(guest, s.inputs) then Some((s.inputs, ReadOnly))
    else if s.cache.Some? && Under(guest, s.cache.value) then Some((s.cache.value, s.cacheAccess))
    else None
  }

  /** Where the tree declared at `prefix` lives on the host. */
  function HostBase(s: Storage, root: string, prefix: string): (r: string)
  {
    if prefix == s.workspace then root else if prefix == s.inputs then root + "/inputs" else root + "/cache"
  }

  /** The checks of one mount after the common ones, in order. */
  function MountReason(p: Policy, resolve: string -> string, m: Mount): (r: Reason)
    ensures r.Allowed? <==>
              && p.runRoot.Some? && SafeGuest(m.guest) && SafeHost(resolve, m.host, p.runRoot.value)
              && DeclaredTree(p.storage, m.guest) == Some((m.guest, m.access))
              && resolve(m.host) == resolve(HostBase(p.storage, p.runRoot.value, m.guest))
  {
    if p.runRoot.None? then NoRunRoot
    else if !SafeGuest(m.guest) || !SafeHost(resolve, m.host, p.runRoot.value) then UnsafePath
    else
      match DeclaredTree(p.storage, m.guest)
      case None => GuestNotDeclared
      case Some((prefix, access)) =>
        if m.guest != prefix then NotGuestRoot
        else if resolve(m.host) != resolve(HostBase(p.storage, p.runRoot.value, prefix)) then HostNotBound
        else if m.access != access then ModeExceeds
        else Allowed
  }

  /** A mount is allowable exactly when it is one of the declared mounts, up to the host's
      own path resolution. */
  lemma AllowedMountsAreDeclared(p: Policy, resolve: string -> string, m: Mount)
    requires p.runRoot.Some? && ValidStorage(p.storage)
    ensures MountReason(p, resolve, m).Allowed? <==>
              && SafeHost(resolve, m.host, p.runRoot.value)
              && exists d :: d in Mounts(p) && d.guest == m.guest && d.access == m.access
                  && resolve(d.host) == resolve(m.host)
  {
    var s, root, ms := p.storage, p.runRoot.value, Mounts(p);
    var tree := DeclaredTree(s, m.guest);
    assert Mount(root, s.workspace, ReadWrite) == ms[0] && Mount(root + "/inputs", s.inputs, ReadOnly) == ms[1];
    assert s.cache.Some? ==> Mount(root + "/cache", s.cache.value, s.cacheAccess) == ms[2];
    if tree.Some? {
      var k := if tree.value.0 == s.workspace then 0 else if tree.value.0 == s.inputs then 1 else 2;
      assert m.guest == tree.value.0 ==> ms[k] == Mount(HostBase(s, root, m.guest), m.guest, tree.value.1);
    }
    forall d | d in ms
      ensures DeclaredTree(s, d.guest) == Some((d.guest, d.access))
      ensures HostBase(s, root, d.guest) == d.host && SafeGuest(d.guest)
    {
    }
  }

  /** What the path checks make of each mount. They depend on no state of the run. */
  function Verdicts(p: Policy, resolve: string -> string, mounts: seq<Mount>): (rs: seq<Reason>)
    ensures |rs| == |mounts|
  {
    seq(|mounts|, i requires 0 <= i < |mounts| => MountReason(p, resolve, mounts[i]))
  }

  predicate AllAllowed(rs: seq<Reason>) { forall i | 0 <= i < |rs| :: rs[i].Allowed? }

  /** An allowed plan resolves below the run root, mount by mount. */
  lemma PlanStaysBelowRoot(p: Policy, resolve: string -> string, mounts: seq<Mount>)
    requires AllAllowed(Verdicts(p, resolve, mounts))
    ensures forall m :: m in mounts ==> p.runRoot.Some? && Under(resolve(m.host), resolve(p.runRoot.value))
  {
    forall i | 0 <= i < |mounts|
      ensures p.runRoot.Some? && Under(resolve(mounts[i].host), resolve(p.runRoot.value))
    {
      assert Verdicts(p, resolve, mounts)[i].Allowed?;
    }
  }

  /** The plan passes, its `k`-th mount being checked at the reading `from + 2 * k`. */
  predicate PlanPasses(p: Policy, clock: nat -> real, rs: seq<Reason>, from: nat)
  {
    rs == [] ||
    var n := |rs| - 1;
    PlanPasses(p, clock, rs[..n], from) && InForce(p, clock(from + 2 * n)) && rs[n].Allowed?
  }

  lemma {:induction false} PlanPassesPrefix(p: Policy, clock: nat -> real, rs: seq<Reason>, from: nat, n: nat)
    requires PlanPasses(p, clock, rs, from) && n <= |rs|
    ensures PlanPasses(p, clock, rs[..n], from)
    decreases |rs|
  {
    if n == |rs| {
      assert rs[..n] == rs;
    } else {
      PlanPassesPrefix(p, clock, rs[..|rs| - 1], from, n);
      assert rs[..|rs| - 1][..n] == rs[..n];
    }
  }

  /** A plan passes exactly when every mount is allowed and every one of its readings is in
      force. */
  lemma {:induction false} PlanPassesMeans(p: Policy, clock: nat -> real, rs: seq<Reason>, from: nat)
    ensures PlanPasses(p, clock, rs, from)
            <==> AllAllowed(rs) && forall k | 0 <= k < |rs| :: InForce(p, clock(from + 2 * k))
  {
    if rs != [] {
      PlanPassesMeans(p, clock, rs[..|rs| - 1], from);
    }
  }

  /** With validated declarations the whole plan is allowed exactly when each of its host
      paths is a safe one below the run root. */
  lemma DeclaredPlanIsAllowed(p: Policy, resolve: string -> string)
    requires p.runRoot.Some? && ValidStorage(p.storage)
    ensures AllAllowed(Verdicts(p, resolve, Mounts(p)))
            <==> forall m :: m in Mounts(p) ==> SafeHost(resolve, m.host, p.runRoot.value)
  {
    var ms, rs := Mounts(p), Verdicts(p, resolve, Mounts(p));
    forall i | 0 <= i < |ms| ensures rs[i].Allowed? <==> SafeHost(resolve, ms[i].host, p.runRoot.value) {
      DeclaredMountIsAllowed(p, resolve, ms[i]);
    }
  }

  lemma DeclaredMountIsAllowed(p: Policy, resolve: string -> string, m: Mount)
    requires p.runRoot.Some? && ValidStorage(p.storage) && m in Mounts(p)
    ensures MountReason(p, resolve, m).Allowed? <==> SafeHost(resolve, m.host, p.runRoot.value)
  {
    AllowedMountsAreDeclared(p, resolve, m);
  }

  /** The last thing logged is an allowed decision. */
  predicate EndsAllowed(log: seq<Entry>) { log != [] && log[|log| - 1].decision.Allow() }

  datatype StorageUse = Read | Write | Mounting | UnknownUse

  /** The host path of a guest path in the tree at `prefix`. */
  function HostPath(s: Storage, root: string, prefix: string, guest: string): (r: string)
  {
    HostBase(s, root, prefix) + if |guest| <= |prefix| then "" else "/" + guest[|prefix| + 1..]
  }

  /** The checks of a storage use after the common ones, in order; a mount that passes them
      goes on to the mount check. */
  function StorageReason(p: Policy, resolve: string -> string, guest: string, use: StorageUse,
      host: Option<string>): (r: Reason)
  {
    if !SafeGuest(guest) then UnsafePath
    else if use.UnknownUse? then UnknownOperation
    else
      match DeclaredTree(p.storage, guest)
      case None => GuestNotDeclared
      case Some((prefix, access)) =>
        if use.Mounting? then if guest == prefix then Allowed else NotGuestRoot
        else if use.Write? && access.ReadOnly? then ModeExceeds
        else if host.None? then Allowed
        else if p.runRoot.None? then NoRunRoot
        else if !SafeHost(resolve, host.value, p.runRoot.value) then UnsafePath
        else if resolve(host.value) != resolve(HostPath(p.storage, p.runRoot.value, prefix, guest)) then HostNotBound
        else Allowed
  }

  /** An allowed write lands below a tree declared writable, never below the inputs, and on
      the host below the run root. */
  lemma WritesStayWritable(p: Policy, resolve: string -> string, guest: string, host: Option<string>)
    requires ValidStorage(p.storage) && StorageReason(p, resolve, guest, Write, host).Allowed?
    ensures exists m :: m in Writable(p.storage) && Under(guest, m)
    ensures !Under(guest, p.storage.inputs)
    ensures host.Some? ==> p.runRoot.Some? && Under(resolve(host.value), resolve(p.runRoot.value))
  {
    var s := p.storage;
    var (prefix, access) := DeclaredTree(s, guest).value;
    assert prefix in Writable(s);
    if Under(guest, s.inputs) && prefix == s.workspace {
      Comparable(guest, s.inputs, s.workspace);
    }
  }

  /** A host path is safe when it is absolute, holds no NUL, no backslash and no `..` between
      slashes, and resolves to the root or below. */
  lemma SafeHostMeans(resolve: string -> string, path: string, root: string)
    ensures SafeHost(resolve, path, root) <==>
              && path != "" && path[0] == '/' && (forall i | 0 <= i < |path| :: path[i] != '\0' && path[i] != '\\')
              && !(exists i :: PartAt(path, '/', "..", i))
              && (resolve(path) == resolve(root) || resolve(root) + "/" <= resolve(path))
  {
    PartIn(path, '/', "..");
  }

  /** The declared trees and their modes. */
  function Declared(s: Storage): (trees: seq<(string, Access)>)
  {
    [(s.workspace, ReadWrite), (s.inputs, ReadOnly)]
    + if s.cache.Some? then [(s.cache.value, s.cacheAccess)] else []
  }

  /** The host path of a guest path: that of the declared mount above it, and the rest of the
      guest path after it. */
  ghost predicate BoundTo(p: Policy, resolve: string -> string, guest: string, host: string)
  {
    exists m :: m in Mounts(p) && Under(guest, m.guest) && resolve(host) == resolve(m.host + guest[|m.guest|..])
  }

  /** With validated declarations a path may be read exactly when it is a safe one in a declared
      tree, written exactly when that tree is writable, and mounted exactly when it is the tree's
      root; a host path given with it must be a safe one and the one it is mounted from. */
  lemma StorageAllowedExactly(p: Policy, resolve: string -> string, guest: string, use: StorageUse,
      host: Option<string>)
    requires ValidStorage(p.storage)
    ensures StorageReason(p, resolve, guest, use, host).Allowed? <==>
              && SafeGuest(guest) && !use.UnknownUse?
              && (exists d :: d in Declared(p.storage) && Under(guest, d.0)
                              && (use.Write? ==> d.1.ReadWrite?) && (use.Mounting? ==> guest == d.0))
              && (host.Some? && !use.Mounting? ==>
                    && p.runRoot.Some? && SafeHost(resolve, host.value, p.runRoot.value)
                    && BoundTo(p, resolve, guest, host.value))
  {
    if SafeGuest(guest) {
      OneTreeFits(p.storage, guest);
      var tree := DeclaredTree(p.storage, guest);
      if tree.Some? && host.Some? && p.runRoot.Some? {
        BoundExactly(p, resolve, guest, host.value);
      }
    }
  }

  /** Trees that lie apart share no path. */
  lemma OneTreeFits(s: Storage, guest: string)
    requires ValidStorage(s)
    ensures forall d :: d in Declared(s) && Under(guest, d.0) <==> DeclaredTree(s, guest) == Some(d)
  {
    var trees, cache := Declared(s), if s.cache.Some? then s.cache.value else s.inputs;
    assert trees[0] == (s.workspace, ReadWrite) && trees[1] == (s.inputs, ReadOnly);
    assert s.cache.Some? ==> trees[2] == (cache, s.cacheAccess);
    OnlyOne(guest, s.workspace, s.inputs);
    if s.cache.Some? {
      OnlyOne(guest, s.workspace, cache);
      OnlyOne(guest, s.inputs, cache);
    }
  }

  lemma OnlyOne(path: string, a: string, b: string)
    requires Apart(a, b)
    ensures !(Under(path, a) && Under(path, b))
  {
    if Under(path, a) && Under(path, b) {
      Comparable(path, a, b);
    }
  }

  lemma MountsAreDeclared(p: Policy)
    requires ValidStorage(p.storage) && p.runRoot.Some?
    ensures |Mounts(p)| == |Declared(p.storage)|
    ensures forall i | 0 <= i < |Mounts(p)| ::
              && (Mounts(p)[i].guest, Mounts(p)[i].access) == Declared(p.storage)[i]
              && Mounts(p)[i].host == HostBase(p.storage, p.runRoot.value, Mounts(p)[i].guest)
  {
  }

  lemma BoundMeans(p: Policy, guest: string, i: nat)
    requires ValidStorage(p.storage) && p.runRoot.Some? && DeclaredTree(p.storage, guest).Some?
    requires i < |Mounts(p)| && Under(guest, Mounts(p)[i].guest)
    ensures var m, prefix := Mounts(p)[i], DeclaredTree(p.storage, guest).value.0;
            m.guest == prefix && |prefix| <= |guest|
            && m.host + guest[|prefix|..] == HostPath(p.storage, p.runRoot.value, prefix, guest)
  {
    MountsAreDeclared(p);
    OneTreeFits(p.storage, guest);
    assert Declared(p.storage)[i] in Declared(p.storage);
    RestAfter(guest, Mounts(p)[i].guest);
  }

  lemma BoundExactly(p: Policy, resolve: string -> string, guest: string, host: string)
    requires ValidStorage(p.storage) && p.runRoot.Some? && DeclaredTree(p.storage, guest).Some?
    ensures BoundTo(p, resolve, guest, host) <==>
              var prefix := DeclaredTree(p.storage, guest).value.0;
              resolve(host) == resolve(HostPath(p.storage, p.runRoot.value, prefix, guest))
  {
    var tree, ms := DeclaredTree(p.storage, guest).value, Mounts(p);
    forall i | 0 <= i < |ms| && Under(guest, ms[i].guest)
      ensures |ms[i].guest| <= |guest|
      ensures ms[i].host + guest[|ms[i].guest|..] == HostPath(p.storage, p.runRoot.value, tree.0, guest)
    {
      BoundMeans(p, guest, i);
    }
    MountsAreDeclared(p);
    OneTreeFits(p.storage, guest);
    var k :| 0 <= k < |ms| && Declared(p.storage)[k] == tree;
    assert ms[k] in ms && Under(guest, ms[k].guest);
  }

  lemma RestAfter(guest: string, prefix: string)
    requires Under(guest, prefix)
    ensures |prefix| <= |guest|
    ensures guest[|prefix|..] == if |guest| <= |prefix| then "" else "/" + guest[|prefix| + 1..]
  {
    if guest != prefix {
      assert guest[..|prefix| + 1] == prefix + "/";
    }
  }

  function Writable(s: Storage): (trees: set<string>)
  {
    {s.workspace} + if s.cache.Some? && s.cacheAccess.ReadWrite? then {s.cache.value} else {}
  }

  /** Two trees holding the same path are one below the other. */
  lemma Comparable(path: string, a: string, b: string)
    requires Under(path, a) && Under(path, b)
    ensures Under(a, b) || Under(b, a)
  {
    if |a| < |b| {
      ShorterIsAbove(path, a, b);
    } else if |b| < |a| {
      ShorterIsAbove(path, b, a);
    } else {
      assert a == path[..|a|] && b == path[..|b|];
    }
  }

  lemma ShorterIsAbove(path: string, a: string, b: string)
    requires Under(path, a) && Under(path, b) && |a| < |b|
    ensures Under(b, a)
  {
    assert a + "/" == path[..|a| + 1];
    assert b == path[..|b|];
  }

  class PolicyEnforcer {
    const policy: Policy
    const clock: nat -> real
    const resolve: string -> string
    const canonicalHost: string -> Option<string>
    const upper: string -> string
    const startedAt: real
    var ticks: nat
    var networkBytes: nat
    var sequence: nat
    var launchReceipt: Option<Decision>
    var published: bool
    var wiped: bool
    var wipeReceipt: Option<(string, real)>
    ghost var wipeCalls: nat
    ghost var wipedAt: nat
    ghost var log: seq<Entry>

    ghost function Books(): (b: Book)
      reads this
    {
      Book(networkBytes, published, if wiped then Some(wipedAt) else None, launchReceipt, log)
    }

    /** The books, with `charge` bytes and `pending` publications entered but not yet logged. */
    ghost predicate Pending(charge: nat, pending: nat)
      reads this
    {
      && Balanced(policy, clock, Books(), charge, pending)
      && sequence == |log| && StampedBefore(log, ticks) && startedAt == clock(0)
      && (wipeReceipt.Some? <==> wiped) && wipeCalls <= if wiped then 1 else 0
    }

    ghost predicate Valid()
      reads this
    {
      Pending(0, 0)
    }

    constructor (policy: Policy, clock: nat -> real, resolve: string -> string,
        canonicalHost: string -> Option<string>, upper: string -> string)
      ensures Valid() && log == [] && !wiped && ticks == 1 && startedAt == clock(0)
      ensures this.policy == policy && this.clock == clock && this.resolve == resolve
      ensures this.canonicalHost == canonicalHost && this.upper == upper
    {
      this.policy, this.clock, this.resolve, this.canonicalHost, this.upper := 
        policy, clock, resolve, canonicalHost, upper;
      startedAt, ticks := clock(0), 1;
      networkBytes, sequence, launchReceipt, published := 0, 0, None, false;
      wiped, wipeReceipt, wipeCalls, wipedAt, log := false, None, 0, 0, [];
    }

    /** `_decision`: number it, stamp it, log it. */
    method Decide(operation: Operation, reason: Reason, bytes: nat, ghost began: nat, ghost checked: nat)
        returns (d: Decision)
      requires Pending(ChargeOf(operation, reason, bytes), PublicationOf(operation, reason))
      requires began <= checked <= ticks && InTurn(log, operation, reason.Allowed?, began, checked)
      requires Timely(policy, clock, operation, reason, began)
      requires reason.Allowed? ==> !wiped && checked < ticks && InForce(policy, clock(checked))
      modifies this`ticks, this`sequence, this`log
      ensures Valid() && d == Decision(operation, reason, old(sequence), clock(old(ticks)), bytes)
      ensures log == old(log) + [Entry(d, began, checked, old(ticks), true)] && ticks == old(ticks) + 1
    {
      d := Spend(operation, reason, bytes, true, began, checked);
    }

    /** What a decision uses up whether or not its receipt can be written: a number and a
        clock reading. */
    method Spend(operation: Operation, reason: Reason, bytes: nat, ghost issued: bool, ghost began: nat,
        ghost checked: nat) returns (d: Decision)
      requires Pending(ChargeOf(operation, reason, bytes), PublicationOf(operation, reason))
      requires began <= checked <= ticks && InTurn(log, operation, reason.Allowed?, began, checked)
      requires Timely(policy, clock, operation, reason, began)
      requires reason.Allowed? ==> issued && !wiped && checked < ticks && InForce(policy, clock(checked))
      modifies this`ticks, this`sequence, this`log
      ensures Valid() && d == Decision(operation, reason, old(sequence), clock(old(ticks)), bytes)
      ensures log == old(log) + [Entry(d, began, checked, old(ticks), issued)] && ticks == old(ticks) + 1
    {
      d := Decision(operation, reason, sequence, clock(ticks), bytes);
      ghost var e, b := Entry(d, began, checked, ticks, issued), Books();
      ghost var after := b.(log := b.log + [e]);
      InTurnFollows(log, e);
      assert Balanced(policy, clock, after, 0, 0) by {
        LoggingBalances(policy, clock, b, e);
      }
      sequence, ticks := sequence + 1, ticks + 1;
      log := log + [e];
      assert Pending(0, 0) by {
        assert Books() == after;
        assert log[|log| - 1] == e;
      }
    }

    /** A call that began at `began` logged just this decision. */
    ghost predicate Logged(d: Decision, before: seq<Entry>, began: nat)
      reads this
    {
      began < ticks && log == before + [Entry(d, began, began, ticks - 1, true)]
    }

    /** `_common_denial` at the present reading. */
    function CommonReason(candidate: Option<string>, required: bool): (r: Reason)
      reads this
      ensures r.Allowed? <==>
                && policy.bound && (required ==> candidate.Some?)
                    && (candidate.Some? ==> candidate.value == policy.digest)
                && !wiped && InForce(policy, clock(ticks))
    {
      if !policy.bound then NotBound
      else if required && candidate.None? then DigestRequired
      else if candidate.Some? && candidate.value != policy.digest then DigestMismatch
      else if wiped then WipedAlready
      else if !InForce(policy, clock(ticks)) then Expired
      else Allowed
    }

    /** The clock is read only when everything before it passes. */
    method CommonDenial(candidate: Option<string>, required: bool) returns (r: Reason)
      requires Valid()
      modifies this`ticks
      ensures Valid() && r == old(CommonReason(candidate, required))
      ensures old(ticks) <= ticks <= old(ticks) + 1 && Books() == old(Books())
      ensures r.Allowed? ==> !wiped && InForce(policy, clock(old(ticks))) && ticks == old(ticks) + 1
    {
      r := CommonReason(candidate, required);
      if r.Allowed? || r.Expired? {
        ticks := ticks + 1;
      }
    }

    predicate DurationOk(now: real)
      reads this
    {
      policy.maxDuration.Some? ==> now - startedAt < policy.maxDuration.value as real
    }

    method DurationReason() returns (r: Reason)
      requires Valid()
      modifies this`ticks
      ensures Valid() && r == if DurationOk(clock(old(ticks))) then Allowed else DurationOver
      ensures ticks == old(ticks) + (if policy.maxDuration.Some? then 1 else 0) && Books() == old(Books())
    {
      r := Allowed;
      if policy.maxDuration.Some? {
        if !DurationOk(clock(ticks)) {
          r := DurationOver;
        }
        ticks := ticks + 1;
      }
    }

    /** The checks of a network request that need no clock, in order. */
    function RequestReason(q: NetworkRequest): (r: Reason)
      reads this`networkBytes
      ensures r.Allowed? <==>
                && q.phase in {Unnamed, Named(policy.phase)} && q.purpose in {Unnamed, Named(policy.purpose)}
                && q.host.Some? && q.port.Some? && q.verb.Some? && q.bytes.Some?
                && canonicalHost(q.host.value).Some? && canonicalHost(q.host.value).value in policy.hosts
                && q.port.value in policy.ports && upper(q.verb.value) in policy.methods
                && 0 <= q.bytes.value && policy.maxBytes.Some? && networkBytes + q.bytes.value <= policy.maxBytes.value
                && !q.elapsed.Malformed?
                && (q.elapsed.Elapsed? ==>
                      && 0.0 <= q.elapsed.seconds
                      && (policy.maxDuration.Some? ==> q.elapsed.seconds < policy.maxDuration.value as real))
    {
      if !q.phase.Matches(policy.phase) then PhaseMismatch
      else if !q.purpose.Matches(policy.purpose) then PurposeMismatch
      else if q.host.None? || canonicalHost(q.host.value).None? then BadHost
      else if canonicalHost(q.host.value).value !in policy.hosts then HostNotListed
      else if q.port.None? || q.port.value !in policy.ports then PortNotListed
      else if q.verb.None? then BadMethod
      else if upper(q.verb.value) !in policy.methods then MethodNotListed
      else if q.bytes.None? || q.bytes.value < 0 then BadBytes
      else if q.elapsed.Malformed? || (q.elapsed.Elapsed? && q.elapsed.seconds < 0.0) then BadElapsed
      else if q.elapsed.Elapsed? && policy.maxDuration.Some?
          && q.elapsed.seconds >= policy.maxDuration.value as real then ElapsedOver
      else if policy.maxBytes.None? || networkBytes + q.bytes.value > policy.maxBytes.value then BytesOver
      else Allowed
    }

    /** Allowed exactly when every check passes; then, and only then, the bytes are charged. A
        request with labels that are not text is denied, and its receipt cannot be written: the
        call raises, exactly then, with a number and a reading gone. */
    method CheckNetwork(q: NetworkRequest) returns (r: Option<Decision>)
      requires Valid()
      modifies this`ticks, this`sequence, this`log, this`networkBytes
      ensures Valid() && (r.Some? <==> !q.phase.NotText? && !q.purpose.NotText?)
      ensures |log| == |old(log)| + 1 && sequence == old(sequence) + 1
      ensures var e := log[|old(log)|];
              && (if r.Some? then Logged(r.value, old(log), old(ticks)) else log == old(log) + [e] && !e.issued)
              && e.decision.operation.NetworkOp?
              && e.decision.reason == old(NetworkReason(q))
              && (e.decision.Allow() ==> q.bytes == Some(e.decision.bytes))
              && networkBytes == old(networkBytes) + if e.decision.Allow() then e.decision.bytes else 0
      ensures r.Some? && r.value.Allow() <==> old(NetworkPasses(q))
    {
      ghost var began := ticks;
      var reason := NetworkDenial(q);
      if q.Writable() {
        var d := RecordNetwork(reason, if reason.Allowed? then q.bytes.value else 0, began);
        r := Some(d);
      } else {
        LoseNetwork(reason, began);
        r := None;
      }
    }

    /** A refusal whose receipt cannot be written. */
    method LoseNetwork(reason: Reason, ghost began: nat)
      requires Valid() && began <= ticks && StampedBefore(log, began) && !reason.Allowed?
      requires Timely(policy, clock, NetworkOp, reason, began)
      modifies this`ticks, this`sequence, this`log
      ensures Valid() && |log| == |old(log)| + 1 && old(log) <= log && sequence == old(sequence) + 1
      ensures var e := log[|old(log)|]; !e.issued && e.decision.operation.NetworkOp? && e.decision.reason == reason
    {
      var d := Spend(NetworkOp, reason, 0, false, began, began);
    }

    /** Everything a request needs. */
    predicate NetworkPasses(q: NetworkRequest)
      reads this
    {
      CommonReason(q.digest, false).Allowed? && policy.purpose != "none" && DurationOk(clock(ticks + 1))
      && RequestReason(q).Allowed?
    }

    /** Which refusal a request meets first. */
    function NetworkReason(q: NetworkRequest): (r: Reason)
      reads this
      ensures r.Allowed? <==> NetworkPasses(q)
    {
      var common := CommonReason(q.digest, false);
      if !common.Allowed? then common
      else if policy.purpose == "none" then PurposeNone
      else if !DurationOk(clock(ticks + 1)) then DurationOver
      else RequestReason(q)
    }

    /** The network decision itself, charged when it allows. */
    method RecordNetwork(reason: Reason, bytes: nat, ghost began: nat) returns (d: Decision)
      requires Valid() && began <= ticks && StampedBefore(log, began)
      requires reason.Allowed? ==> !wiped && began < ticks && InForce(policy, clock(began))
      requires reason.Allowed? ==> policy.maxBytes.Some? && networkBytes + bytes <= policy.maxBytes.value
      requires Timely(policy, clock, NetworkOp, reason, began)
      modifies this`ticks, this`sequence, this`log, this`networkBytes
      ensures Valid() && d.operation.NetworkOp? && d.reason == reason && d.bytes == bytes && Logged(d, old(log), began)
      ensures networkBytes == old(networkBytes) + if d.Allow() then bytes else 0
    {
      if reason.Allowed? {
        ghost var b := Books();
        networkBytes := networkBytes + bytes;
        assert Books() == b.(networkBytes := b.networkBytes + bytes);
      }
      d := Decide(NetworkOp, reason, bytes, began, began);
    }

    method NetworkDenial(q: NetworkRequest) returns (reason: Reason)
      requires Valid()
      modifies this`ticks
      ensures Valid() && Books() == old(Books()) && old(ticks) <= ticks
      ensures reason.Allowed? ==> old(ticks) < ticks && !wiped && InForce(policy, clock(old(ticks)))
      ensures reason == old(NetworkReason(q))
    {
      reason := CommonDenial(q.digest, false);
      if reason.Allowed? && policy.purpose == "none" {
        reason := PurposeNone;
      }
      if reason.Allowed? {
        reason := DurationReason();
      }
      if reason.Allowed? {
        reason := RequestReason(q);
      }
    }

    /** One mount with this verdict on its paths, within the call that began at `began`. */
    method AuthorizeMount(verdict: Reason, digest: Option<string>, ghost began: nat) returns (d: Decision)
      requires Valid() && began <= ticks && Within(log, began)
      modifies this`ticks, this`sequence, this`log
      ensures Valid() && d.operation.MountOp? && old(ticks) < ticks && (d.Allow() ==> ticks == old(ticks) + 2)
      ensures log == old(log) + [Entry(d, began, old(ticks), ticks - 1, true)] && Within(log, began)
      ensures d.reason == var common := old(CommonReason(digest, false)); if common.Allowed? then verdict else common
    {
      ghost var checked := ticks;
      assert InTurn(log, MountOp, true, began, checked) && InTurn(log, MountOp, false, began, checked);
      var reason := StorageDenial(verdict, digest);
      d := Decide(MountOp, reason, 0, began, checked);
      assert log[|log| - 1] == Entry(d, began, checked, ticks - 1, true);
    }

    method CheckMount(m: Mount, digest: Option<string>) returns (d: Decision)
      requires Valid()
      modifies this`ticks, this`sequence, this`log
      ensures Valid() && d.operation.MountOp? && Logged(d, old(log), old(ticks))
      ensures d.reason ==
              var common := old(CommonReason(digest, false));
              if common.Allowed? then MountReason(policy, resolve, m) else common
    {
      d := AuthorizeMount(MountReason(policy, resolve, m), digest, ticks);
    }

    /** A storage use is decided by its own checks; a mount that passes them by the mount check. */
    method CheckStorage(guest: string, use: StorageUse, host: Option<string>, digest: Option<string>)
        returns (d: Decision)
      requires Valid()
      modifies this`ticks, this`sequence, this`log
      ensures Valid()
      ensures StorageDecided(d, StorageReason(policy, resolve, guest, use, host), use.Mounting?,
                             MountReason(policy, resolve, MountFor(guest, host)), old(CommonReason(digest, false)),
                             old(log), old(ticks))
    {
      d := DecideStorage(StorageReason(policy, resolve, guest, use, host), use.Mounting?,
                         MountReason(policy, resolve, MountFor(guest, host)), digest);
    }

    /** The one decision of a storage call: the common refusal, else its own verdict, else for
        a mount the mount verdict if the policy is still in force at the second reading. */
    ghost predicate StorageDecided(
        d: Decision, verdict: Reason, mounting: bool, mount: Reason, common: Reason, before: seq<Entry>, began: nat)
      reads this
    {
      && before <= log && |log| == |before| + 1 && log[|before|].decision == d && log[|before|].began == began
      && (if !common.Allowed? then d.operation.StorageOp? && d.reason == common
          else if !verdict.Allowed? || !mounting then d.operation.StorageOp? && d.reason == verdict
          else d.operation.MountOp? && d.reason == if InForce(policy, clock(began + 1)) then mount else Expired)
    }

    method DecideStorage(verdict: Reason, mounting: bool, mount: Reason, digest: Option<string>) returns (d: Decision)
      requires Valid()
      modifies this`ticks, this`sequence, this`log
      ensures Valid()
      ensures StorageDecided(d, verdict, mounting, mount, old(CommonReason(digest, false)), old(log), old(ticks))
    {
      ghost var began := ticks;
      var reason := StorageDenial(verdict, digest);
      if mounting && reason.Allowed? {
        d := AuthorizeSecond(mount, digest, began);
      } else {
        d := RecordStorage(reason, began);
      }
    }

    /** The second reading of a call whose first passed. */
    method AuthorizeSecond(mount: Reason, digest: Option<string>, ghost began: nat) returns (d: Decision)
      requires Valid() && began <= ticks && Within(log, began) && Admits(digest)
      modifies this`ticks, this`sequence, this`log
      ensures Valid() && d.operation.MountOp?
      ensures d.reason == if InForce(policy, clock(old(ticks))) then mount else Expired
      ensures old(log) <= log && |log| == |old(log)| + 1
      ensures log[|old(log)|].decision == d && log[|old(log)|].began == began
    {
      assert CommonReason(digest, false) == if InForce(policy, clock(ticks)) then Allowed else Expired;
      d := AuthorizeMount(mount, digest, began);
    }

    method RecordStorage(reason: Reason, ghost began: nat) returns (d: Decision)
      requires Valid() && began <= ticks && StampedBefore(log, began)
      requires reason.Allowed? ==> !wiped && began < ticks && InForce(policy, clock(began))
      modifies this`ticks, this`sequence, this`log
      ensures Valid() && d.operation.StorageOp? && d.reason == reason && Logged(d, old(log), began)
    {
      d := Decide(StorageOp, reason, 0, began, began);
    }

    method StorageDenial(verdict: Reason, digest: Option<string>) returns (reason: Reason)
      requires Valid()
      modifies this`ticks
      ensures Valid() && Books() == old(Books()) && old(ticks) <= ticks
      ensures reason == var common := old(CommonReason(digest, false)); if common.Allowed? then verdict else common
      ensures reason.Allowed? ==> ticks == old(ticks) + 1
    {
      reason := CommonDenial(digest, false);
      if reason.Allowed? {
        reason := verdict;
      }
    }

    /** The mount a storage use asks for, in its tree's own mode. */
    function MountFor(guest: string, host: Option<string>): (m: Mount)
    {
      var tree := DeclaredTree(policy.storage, guest);
      Mount(if host.Some? then host.value else "", guest, if tree.Some? then tree.value.1 else ReadOnly)
    }

    /** Every declared mount is authorised, and logged, before the launch is. Allowed exactly
        when the common checks, the run root, the duration and each mount at its own reading
        pass. */
    method BeforeLaunch(digest: Option<string>) returns (d: Decision)
      requires Valid()
      modifies this`ticks, this`sequence, this`log, this`launchReceipt
      ensures Valid() && d.operation.LaunchOp? && old(log) < log && log[|log| - 1].decision == d
      ensures d.Allow() <==> old(LaunchPasses(digest))
      ensures d.Allow() ==> |log| == |old(log)| + |Mounts(policy)| + 1
      ensures launchReceipt == if d.Allow() then Some(d) else old(launchReceipt)
      ensures old(LaunchReasonOk(digest, d.reason))
    {
      ghost var began := ticks;
      var reason := LaunchReason(digest);
      d := RecordLaunch(reason, began);
    }

    ghost predicate LaunchPasses(digest: Option<string>)
      reads this
    {
      && CommonReason(digest, false).Allowed? && policy.runRoot.Some? && DurationOk(clock(ticks + 1))
      && PlanPasses(policy, clock, Verdicts(policy, resolve, Mounts(policy)), PlanStart(ticks))
    }

    /** Which refusal a launch meets. */
    ghost predicate LaunchReasonOk(digest: Option<string>, reason: Reason)
      reads this
    {
      var common := CommonReason(digest, false);
      if !common.Allowed? then reason == common
      else if policy.runRoot.None? then reason == NoRunRoot
      else if !DurationOk(clock(ticks + 1)) then reason == DurationOver
      else reason in {Allowed, PlanNotEnforceable}
    }

    /** The reading at which a launch begun at `tick` checks its first mount. */
    function PlanStart(tick: nat): (from: nat)
    {
      tick + 1 + if policy.maxDuration.Some? then 1 else 0
    }

    /** The launch decision itself, kept as this run's launch receipt when it allows. */
    method RecordLaunch(reason: Reason, ghost began: nat) returns (d: Decision)
      requires Valid() && began <= ticks && Within(log, began)
      requires reason.Allowed? ==> !wiped && InForce(policy, clock(began)) && began < ticks && EndsAllowed(log)
      requires Timely(policy, clock, LaunchOp, reason, began)
      modifies this`ticks, this`sequence, this`log, this`launchReceipt
      ensures Valid() && d.operation.LaunchOp? && d.reason == reason
      ensures old(log) < log && |log| == |old(log)| + 1 && log[|log| - 1].decision == d
      ensures launchReceipt == if d.Allow() then Some(d) else old(launchReceipt)
    {
      d := Decide(LaunchOp, reason, 0, began, began);
      if d.Allow() {
        assert log[|log| - 1].decision == d;
        launchReceipt := Some(d);
      }
    }

    /** Everything a launch is checked for. */
    method LaunchReason(digest: Option<string>) returns (reason: Reason)
      requires Valid()
      modifies this`ticks, this`sequence, this`log
      ensures Valid() && old(log) <= log && old(ticks) <= ticks && Within(log, old(ticks))
      ensures reason.Allowed? <==> old(LaunchPasses(digest))
      ensures reason.Allowed? ==> old(ticks) < ticks && |log| == |old(log)| + |Mounts(policy)| && EndsAllowed(log)
      ensures old(LaunchReasonOk(digest, reason)) && Timely(policy, clock, LaunchOp, reason, old(ticks))
    {
      ghost var began := ticks;
      reason := Preflight(digest);
      if reason.Allowed? {
        reason := AuthorizePlan(Verdicts(policy, resolve, Mounts(policy)), digest, began);
      }
    }

    /** What a launch is checked for before its mounts. */
    method Preflight(digest: Option<string>) returns (reason: Reason)
      requires Valid()
      modifies this`ticks
      ensures Valid() && Books() == old(Books()) && old(ticks) <= ticks
      ensures reason.Allowed? ==> ticks == PlanStart(old(ticks)) && Admits(digest)
      ensures reason ==
              var common := old(CommonReason(digest, false));
              if !common.Allowed? then common
              else if policy.runRoot.None? then NoRunRoot
              else if !DurationOk(clock(old(ticks) + 1)) then DurationOver
              else Allowed
    {
      reason := CommonDenial(digest, false);
      if reason.Allowed? && policy.runRoot.None? {
        reason := NoRunRoot;
      }
      if reason.Allowed? {
        reason := DurationReason();
      }
    }

    /** What a mount needs besides its own checks and the clock. */
    predicate Admits(digest: Option<string>)
      reads this
    {
      policy.bound && !wiped && (digest.Some? ==> digest.value == policy.digest)
    }

    /** The next mount of the plan, logged. */
    method AuthorizePlanned(verdicts: seq<Reason>, i: nat, digest: Option<string>, ghost began: nat, ghost from: nat)
        returns (ok: bool)
      requires i < |verdicts| && PlanPasses(policy, clock, verdicts[..i], from) && ticks == from + 2 * i
      requires Valid() && began <= ticks && Within(log, began) && Admits(digest)
      modifies this`ticks, this`sequence, this`log
      ensures Valid() && old(log) <= log && |log| == |old(log)| + 1 && Within(log, began)
      ensures old(ticks) <= ticks && (ok ==> ticks == from + 2 * (i + 1) && EndsAllowed(log))
      ensures ok <==> PlanPasses(policy, clock, verdicts[..i + 1], from)
    {
      var d := AuthorizeMount(verdicts[i], digest, began);
      ok := d.Allow();
      assert verdicts[..i + 1][..i] == verdicts[..i];
    }

    method AuthorizePlan(verdicts: seq<Reason>, digest: Option<string>, ghost began: nat) returns (reason: Reason)
      requires Valid() && began <= ticks && Within(log, began) && Admits(digest)
      modifies this`ticks, this`sequence, this`log
      ensures Valid() && old(log) <= log && old(ticks) <= ticks && Within(log, began)
      ensures reason == if PlanPasses(policy, clock, verdicts, old(ticks)) then Allowed else PlanNotEnforceable
      ensures reason.Allowed? ==> |log| == |old(log)| + |verdicts| && (verdicts == [] || EndsAllowed(log))
    {
      ghost var from := ticks;
      for i := 0 to |verdicts|
        invariant Valid() && old(log) <= log && ticks == from + 2 * i && |log| == |old(log)| + i
        invariant Within(log, began) && (i == 0 || EndsAllowed(log))
        invariant PlanPasses(policy, clock, verdicts[..i], from)
      {
        var ok := AuthorizePlanned(verdicts, i, digest, began, from);
        if !ok {
          PlanFails(verdicts, from, i + 1);
          return PlanNotEnforceable;
        }
      }
      assert verdicts[..|verdicts|] == verdicts;
      return Allowed;
    }

    lemma PlanFails(verdicts: seq<Reason>, from: nat, n: nat)
      requires n <= |verdicts| && !PlanPasses(policy, clock, verdicts[..n], from)
      ensures !PlanPasses(policy, clock, verdicts, from)
    {
      if PlanPasses(policy, clock, verdicts, from) {
        PlanPassesPrefix(policy, clock, verdicts, from, n);
      }
    }

    /** A publication needs an allowed launch receipt: the caller's, or this run's own. It is
        authorised at most once. */
    method BeforePublication(supplied: Supplied, digest: Option<string>, bytes: Option<int>) returns (d: Decision)
      requires Valid()
      modifies this`ticks, this`sequence, this`log, this`published
      ensures Valid() && d.operation.PublicationOp? && Logged(d, old(log), old(ticks))
      ensures d.Allow() <==>
                && old(CommonReason(digest, false)).Allowed? && LaunchReceiptOk(supplied, launchReceipt)
                && DurationOk(clock(old(ticks) + 1)) && old(PublicationReason(bytes)).Allowed?
      ensures d.reason ==
              var common := old(CommonReason(digest, false));
              if !common.Allowed? then common
              else if !LaunchReceiptOk(supplied, launchReceipt) then ReceiptReason(supplied)
              else if !DurationOk(clock(old(ticks) + 1)) then DurationOver
              else old(PublicationReason(bytes))
      ensures published == (old(published) || d.Allow())
      ensures d.Allow() && supplied.NoneSupplied? ==> launchReceipt.Some? && LaunchLogged(old(log), launchReceipt.value)
      ensures d.Allow() && !supplied.NoneSupplied? ==>
                supplied.Receipt? && supplied.verified && supplied.decision.operation.LaunchOp?
                && supplied.decision.reason.Allowed?
    {
      ghost var began := ticks;
      var reason := PublicationDenial(supplied, digest, bytes);
      d := RecordPublication(reason, began);
    }

    /** The publication decision itself; an allowed one is the run's only one. */
    method RecordPublication(reason: Reason, ghost began: nat) returns (d: Decision)
      requires Valid() && began <= ticks && StampedBefore(log, began)
      requires reason.Allowed? ==> !published && !wiped && began < ticks && InForce(policy, clock(began))
      requires Timely(policy, clock, PublicationOp, reason, began)
      modifies this`ticks, this`sequence, this`log, this`published
      ensures Valid() && d.operation.PublicationOp? && d.reason == reason && Logged(d, old(log), began)
      ensures published == (old(published) || d.Allow())
    {
      if reason.Allowed? {
        ghost var b := Books();
        published := true;
        assert Books() == b.(published := true);
      }
      d := Decide(PublicationOp, reason, 0, began, began);
    }

    method PublicationDenial(supplied: Supplied, digest: Option<string>, bytes: Option<int>) returns (reason: Reason)
      requires Valid()
      modifies this`ticks
      ensures Valid() && Books() == old(Books()) && old(ticks) <= ticks
      ensures reason.Allowed? ==> old(ticks) < ticks && !wiped && InForce(policy, clock(old(ticks)))
      ensures reason.Allowed? <==>
                && old(CommonReason(digest, false)).Allowed? && LaunchReceiptOk(supplied, launchReceipt)
                && DurationOk(clock(old(ticks) + 1)) && PublicationReason(bytes).Allowed?
      ensures reason ==
              var common := old(CommonReason(digest, false));
              if !common.Allowed? then common
              else if !LaunchReceiptOk(supplied, launchReceipt) then ReceiptReason(supplied)
              else if !DurationOk(clock(old(ticks) + 1)) then DurationOver
              else PublicationReason(bytes)
    {
      reason := CommonDenial(digest, false);
      if reason.Allowed? && !LaunchReceiptOk(supplied, launchReceipt) {
        reason := ReceiptReason(supplied);
      }
      if reason.Allowed? {
        reason := DurationReason();
      }
      if reason.Allowed? {
        reason := PublicationReason(bytes);
      }
    }

    function PublicationReason(bytes: Option<int>): (r: Reason)
      reads this`networkBytes, this`published
      ensures r.Allowed? <==>
                && bytes.Some? && bytes.value >= 0 && !published
                && (policy.maxBytes.Some? ==> networkBytes + bytes.value <= policy.maxBytes.value)
    {
      if bytes.None? || bytes.value < 0 then BadBytes
      else if policy.maxBytes.Some? && networkBytes + bytes.value > policy.maxBytes.value then BytesOver
      else if published then PublicationRepeated
      else Allowed
    }

    method CheckPolicyDigest(candidate: Option<string>) returns (d: Decision)
      requires Valid()
      modifies this`ticks, this`sequence, this`log
      ensures d.Allow() ==> d.issuedAt == clock(old(ticks) + 1)
      ensures Valid() && d.operation.DigestOp? && Logged(d, old(log), old(ticks))
      ensures d.reason == old(CommonReason(candidate, true))
    {
      ghost var began := ticks;
      var reason := CommonDenial(candidate, true);
      d := Decide(DigestOp, reason, 0, began, began);
    }

    /** The first wipe calls the adapter; every later one returns the first receipt. */
    method WipeOnce(reason: string) returns (receipt: (string, real))
      requires Valid()
      modifies this`ticks, this`wiped, this`wipeReceipt, this`wipeCalls, this`wipedAt
      ensures Valid() && wiped && wipeReceipt == Some(receipt) && ticks == old(ticks) + 1
      ensures receipt == if old(wiped) then old(wipeReceipt).value else (reason, clock(old(ticks)))
      ensures wipeCalls == old(wipeCalls) + if old(wiped) then 0 else 1
      ensures wipedAt == if old(wiped) then old(wipedAt) else |log|
    {
      var now := clock(ticks);
      ticks := ticks + 1;
      if wipeReceipt.Some? {
        return wipeReceipt.value;
      }
      receipt := (reason, now);
      WipingIsLawful(policy, clock, log, |log|);
      wiped, wipeReceipt := true, Some(receipt);
      wipeCalls, wipedAt := wipeCalls + 1, |log|;
    }
  }

  const EXPIRY: real := 2.0

  /** An allowed receipt may still be stamped at expiry: a decision is checked at one clock
      reading and stamped at the next. */
  method AllowedReceiptCanBeStampedLate() returns (d: Decision)
    ensures d.Allow() && d.issuedAt >= EXPIRY
  {
    var storage := Storage("/runs", "/inputs", None, ReadOnly);
    var policy := Policy("evaluation", "none", [], [], [], None, None, Some(EXPIRY), storage, None, "digest", true);
    var enforcer := new PolicyEnforcer(policy, n => n as real, s => s, s => Some(s), s => s);
    d := enforcer.CheckPolicyDigest(Some("digest"));
  }

  /** A launch receipt handed in by the caller: unreadable, or read and checked. */
  datatype Supplied = NoneSupplied | Unreadable | Receipt(decision: Decision, verified: bool)

  predicate LaunchReceiptOk(supplied: Supplied, own: Option<Decision>)
  {
    match supplied
    case NoneSupplied => own.Some? && IsAllowedLaunch(own.value)
    case Unreadable => false
    case Receipt(d, verified) => IsAllowedLaunch(d) && verified
  }

  /** Why a launch receipt is not good enough. */
  function ReceiptReason(supplied: Supplied): (r: Reason)
  {
    if supplied.Receipt? && IsAllowedLaunch(supplied.decision) then DigestMismatch else NoLaunchReceipt
  }

  predicate IsAllowedLaunch(d: Decision) { d.operation.LaunchOp? && d.Allow() }
}
