/** An honest host and an honest guest talking over two lossless FIFO channels, in
    every interleaving of their calls. */
module Conversation {
  import opened Options
  import opened Sessions

  /** The two sessions, the frames in flight, and a record of what happened. */
  datatype System = System(
    host: Session,
    guest: Session,
    toGuest: seq<Frame>,
    toHost: seq<Frame>,
    contractRead: bool,        // the guest is between the two halves of its bootstrap
    hostSent: seq<Kind>,
    guestSent: seq<Kind>,
    hostRejected: seq<Kind>,
    guestRejected: seq<Kind>,
    crossed: nat)              // rejected without advancing the guest's counter

  /** Calls an honest party makes.  The host bootstraps once, the guest answers its
      contract before anything else; beyond that any call may come at any time. */
  datatype Step =
    | HostBootstraps | HostRuns | HostStops | HostReceives | HostCloses
    | GuestReadsContract | GuestAnnouncesReady
    | GuestReceivesCommand | GuestReceivesRun | GuestSends(kind: Kind) | GuestCloses

  function Start(id: Identity): (s: System)
  {
    var idle := Session(id, 0, 0, New);
    System(idle, idle, [], [], false, [], [], [], [], 0)
  }

  /** A read returns once a frame has arrived or the peer has closed. */
  predicate Readable(channel: seq<Frame>, peer: Session) { channel != [] || peer.phase == Closed }

  predicate Enabled(s: System, step: Step)
  {
    match step
    case HostBootstraps => s.hostSent == []
    case HostReceives => Readable(s.toHost, s.guest)
    case GuestReadsContract => !s.contractRead && s.guest.received == 0 && Readable(s.toGuest, s.host)
    case GuestAnnouncesReady => s.contractRead
    case GuestReceivesCommand => !s.contractRead && s.guestSent != [] && Readable(s.toGuest, s.host)
    case GuestReceivesRun => !s.contractRead && s.guestSent != [] && Readable(s.toGuest, s.host)
    case GuestSends(k) => !s.contractRead && (IsStream(k) || IsFinal(k))
    case _ => true
  }

  function First(channel: seq<Frame>): (f: Option<Frame>) { if channel == [] then None else Some(channel[0]) }

  function Rest(channel: seq<Frame>): (r: seq<Frame>) { if channel == [] then [] else channel[1..] }

  function HostSends(s: System, k: Kind, payload: Payload): (s': System)
  {
    var (host, out) := Send(Host, s.host, k, payload, true);
    if out == None then s.(host := host)
    else s.(host := host, toGuest := s.toGuest + [out.value], hostSent := s.hostSent + [k])
  }

  function GuestPuts(s: System, k: Kind): (s': System)
  {
    var (guest, out) := Send(Guest, s.guest, k, Opaque, true);
    if out == None then s.(guest := guest)
    else s.(guest := guest, toHost := s.toHost + [out.value], guestSent := s.guestSent + [k])
  }

  function HostGets(s: System): (s': System)
  {
    var (host, got) := Receive(Host, s.host, First(s.toHost));
    if got.NotOpen? then s
    else s.(host := host, toHost := Rest(s.toHost),
            hostRejected := s.hostRejected + if got.Rejected? then [s.toHost[0].kind] else [])
  }

  /** The guest consumed the first host frame, with the given outcome. */
  function GuestGets(s: System, r: (Session, Received)): (s': System)
    requires r.1.Rejected? ==> s.toGuest != []
  {
    if r.1.NotOpen? then s
    else
      s.(guest := r.0, toGuest := Rest(s.toGuest),
         guestRejected := s.guestRejected + (if r.1.Rejected? then [s.toGuest[0].kind] else []),
         crossed := s.crossed + if r.1.Rejected? && r.0.received == s.guest.received then 1 else 0)
  }

  function Next(s: System, step: Step): (s': System)
    requires Enabled(s, step)
  {
    match step
    case HostBootstraps => HostSends(s, Bootstrap, Contract(s.host.identity))
    case HostRuns => HostSends(s, Run, Workflow)
    case HostStops => HostSends(s, Stop, Opaque)
    case HostReceives => HostGets(s)
    case HostCloses => s.(host := Close(s.host))
    case GuestReadsContract =>
      var r := ReceiveBootstrap(s.guest, First(s.toGuest));
      GuestGets(s, r).(contractRead := r.1.Accepted?)
    case GuestAnnouncesReady => GuestPuts(s, Ready).(contractRead := false)
    case GuestReceivesCommand => GuestGets(s, Receive(Guest, s.guest, First(s.toGuest)))
    case GuestReceivesRun => GuestGets(s, ReceiveRun(s.guest, First(s.toGuest)))
    case GuestSends(k) => GuestPuts(s, k)
    case GuestCloses => s.(guest := Close(s.guest))
  }

  // ----- the invariant -----

  /** bootstrap, then run, stop, or run and stop. */
  predicate HostScript(ks: seq<Kind>)
  {
    && |ks| <= 3
    && (|ks| >= 1 ==> ks[0] == Bootstrap)
    && (|ks| == 2 ==> ks[1] == Run || ks[1] == Stop)
    && (|ks| == 3 ==> ks[1] == Run && ks[2] == Stop)
  }

  /** ready, then stream frames, then at most one final frame. */
  predicate GuestScript(ks: seq<Kind>)
  {
    && (|ks| >= 1 ==> ks[0] == Ready)
    && (forall i | 1 <= i < |ks| :: IsStream(ks[i]) || (IsFinal(ks[i]) && i == |ks| - 1))
  }

  predicate Finished(ks: seq<Kind>) { ks != [] && IsFinal(ks[|ks| - 1]) }

  function HostPayload(id: Identity, k: Kind): (p: Payload)
  {
    if k == Bootstrap then Contract(id) else if k == Run then Workflow else Opaque
  }

  /** The channel holds the frames of `ks` from index `from` on, in order. */
  predicate Carries(channel: seq<Frame>, id: Identity, ks: seq<Kind>, from: nat, fromHost: bool)
  {
    && |ks| == from + |channel|
    && forall i | 0 <= i < |channel| ::
         channel[i] == Frame(id, from + i, ks[from + i], if fromHost then HostPayload(id, ks[from + i]) else Opaque)
  }

  predicate HostOk(s: System)
  {
    && HostScript(s.hostSent)
    && s.host.sent == |s.hostSent|
    && (|s.hostSent| >= 2 ==> s.host.received >= 1)
    && match s.host.phase
       case New => |s.hostSent| <= 1 && s.host.received == 0
       case IsReady => |s.hostSent| == 1 && s.host.received == 1
       case Running => |s.hostSent| == 2 && s.hostSent[1] == Run && s.host.received >= 1
       case StopRequested => |s.hostSent| >= 2 && s.hostSent[|s.hostSent| - 1] == Stop
       case Terminal => s.toHost == [] && (s.guest.phase == Terminal || s.guest.phase == Closed)
       case Closed => true
  }

  predicate GuestOk(s: System)
  {
    && GuestScript(s.guestSent)
    && s.guest.received + s.crossed <= |s.hostSent|
    && s.guest.sent == |s.guestSent|
    && (s.guestSent != [] ==> s.guest.received >= 1)
    && (|s.guestSent| >= 2 ==> s.guest.received >= 2)
    && (s.contractRead ==> s.guestSent == [] && s.guest.received == 1)
    && match s.guest.phase
       case New => s.guestSent == [] && s.guest.received <= 1 && s.crossed == 0
           && s.contractRead == (s.guest.received == 1)
       case IsReady => |s.guestSent| == 1 && s.guest.received == 1 && s.crossed == 0
       case Running => s.guest.received == 2 && s.hostSent[1] == Run && !Finished(s.guestSent) && s.crossed == 0
       case StopRequested => s.guest.received >= 2 && s.hostSent[s.guest.received - 1] == Stop
           && !Finished(s.guestSent) && s.crossed == 0
       case Terminal =>
         && (Finished(s.guestSent) || s.host.phase == Closed
             || (|s.hostSent| >= 2 && s.hostSent[|s.hostSent| - 1] == Stop))
         && (s.guest.received + s.crossed < |s.hostSent| ==> Finished(s.guestSent))
         && forall i | s.guest.received + s.crossed <= i < |s.hostSent| :: s.hostSent[i] == Stop
       case Closed => true
  }

  /** A rejected frame is the stop that ends the host's script. */
  predicate RejectionsOk(s: System)
  {
    && s.crossed <= |s.guestRejected| <= 1
    && (s.guestRejected != [] ==>
          && s.guestRejected[0] == Stop
          && s.guest.received + s.crossed == |s.hostSent| >= 2
          && s.hostSent[|s.hostSent| - 1] == Stop
          && (s.guest.phase == Terminal || s.guest.phase == Closed))
  }

  predicate Inv(s: System)
  {
    && s.host.identity == s.guest.identity
    && Carries(s.toGuest, s.host.identity, s.hostSent, s.guest.received + s.crossed, true)
    && Carries(s.toHost, s.host.identity, s.guestSent, s.host.received, false)
    && HostOk(s)
    && GuestOk(s)
    && s.hostRejected == []
    && RejectionsOk(s)
  }

  // ----- every step keeps it -----

  lemma CarriesAppend(channel: seq<Frame>, id: Identity, ks: seq<Kind>, from: nat, fromHost: bool, k: Kind)
    requires Carries(channel, id, ks, from, fromHost)
    ensures Carries(channel + [Frame(id, |ks|, k, if fromHost then HostPayload(id, k) else Opaque)],
                    id, ks + [k], from, fromHost)
  {
  }

  lemma CarriesRest(channel: seq<Frame>, id: Identity, ks: seq<Kind>, from: nat, fromHost: bool)
    requires Carries(channel, id, ks, from, fromHost) && channel != []
    ensures Carries(Rest(channel), id, ks, from + 1, fromHost)
    ensures channel[0] == Frame(id, from, ks[from], if fromHost then HostPayload(id, ks[from]) else Opaque)
  {
  }

  lemma ScriptAppend(ks: seq<Kind>, k: Kind)
    requires GuestScript(ks) && !Finished(ks) && if ks == [] then k == Ready else IsStream(k) || IsFinal(k)
    ensures GuestScript(ks + [k]) && (Finished(ks + [k]) <==> IsFinal(k))
  {
  }

  lemma HostSendsKeeps(s: System, k: Kind)
    requires Inv(s) && HostKind(k) && (k == Bootstrap ==> s.hostSent == [])
    ensures Inv(HostSends(s, k, HostPayload(s.host.identity, k)))
  {
    if Send(Host, s.host, k, HostPayload(s.host.identity, k), true).1.Some? {
      assert s.hostSent + [k] == if s.hostSent == [] then [k] else s.hostSent + [k];
    }
  }

  lemma GuestPutsKeeps(s: System, k: Kind)
    requires Inv(s) && (if k == Ready then s.contractRead else !s.contractRead && (IsStream(k) || IsFinal(k)))
    ensures Inv(GuestPuts(s, k).(contractRead := false))
  {
    if GuestTable(s.guest.phase, k) {
      CarriesAppend(s.toHost, s.host.identity, s.guestSent, s.host.received, false, k);
      ScriptAppend(s.guestSent, k);
      GuestPutsOk(s, k);
    }
  }

  lemma GuestPutsOk(s: System, k: Kind)
    requires HostOk(s) && GuestOk(s) && GuestTable(s.guest.phase, k) && (k == Ready <==> s.contractRead)
    requires GuestScript(s.guestSent + [k]) && (Finished(s.guestSent + [k]) <==> IsFinal(k))
    ensures HostOk(GuestPuts(s, k).(contractRead := false)) && GuestOk(GuestPuts(s, k).(contractRead := false))
  {
  }

  lemma HostGetsKeeps(s: System)
    requires Inv(s) && Readable(s.toHost, s.guest)
    ensures Inv(HostGets(s))
  {
    if s.host.phase != Closed && s.toHost != [] {
      HostAccepts(s);
    }
  }

  lemma HostAccepts(s: System)
    requires Inv(s) && s.host.phase != Closed && s.toHost != []
    ensures Inv(HostGets(s))
  {
    CarriesRest(s.toHost, s.host.identity, s.guestSent, s.host.received, false);
    HostGetsOk(s);
    var t := HostGets(s);
    assert t == s.(host := t.host, toHost := Rest(s.toHost)) && t.host.identity == s.host.identity;
    assert t.host.received == s.host.received + 1;
  }

  lemma HostGetsOk(s: System)
    requires HostOk(s) && GuestOk(s) && s.host.phase != Closed && s.toHost != []
    requires |s.guestSent| == s.host.received + |s.toHost|
    requires s.toHost[0] == Frame(s.host.identity, s.host.received, s.guestSent[s.host.received], Opaque)
    ensures Receive(Host, s.host, Some(s.toHost[0])).1.Accepted?
    ensures HostOk(HostGets(s)) && GuestOk(HostGets(s))
  {
    var k := s.guestSent[s.host.received];
    assert GuestTable(s.host.phase, k);
    assert IsFinal(k) ==> Rest(s.toHost) == [] && Finished(s.guestSent);
  }

  lemma GuestReadsContractKeeps(s: System)
    requires Inv(s) && Enabled(s, GuestReadsContract)
    ensures Inv(Next(s, GuestReadsContract))
  {
    if s.guest.phase != Closed && s.toGuest != [] {
      assert s.toGuest[0].kind == s.hostSent[s.guest.received + s.crossed];
    }
  }

  /** The frame at the front of the guest's channel. */
  lemma GuestFront(s: System)
    requires Inv(s) && s.toGuest != []
    ensures var i := s.guest.received + s.crossed;
            && i < |s.hostSent|
            && s.toGuest[0] == Frame(s.guest.identity, i, s.hostSent[i], HostPayload(s.guest.identity, s.hostSent[i]))
    ensures s.guestRejected == [] && s.crossed == 0
    ensures s.guest.phase != Closed && s.guestSent != [] && !HostTable(s.guest.phase, s.toGuest[0].kind)
            ==> s.guest.phase == Terminal && s.toGuest[0].kind == Stop && Finished(s.guestSent) && |s.toGuest| == 1
  {
  }

  /** Receiving an acceptable command. */
  lemma GuestAcceptsKeeps(s: System)
    requires Inv(s) && s.toGuest != [] && s.guestSent != [] && s.guest.phase != Closed
    requires HostTable(s.guest.phase, s.toGuest[0].kind)
    ensures Inv(GuestGets(s, Receive(Guest, s.guest, Some(s.toGuest[0]))))
    ensures Receive(Guest, s.guest, Some(s.toGuest[0])).1.Accepted?
  {
    GuestFront(s);
    var s' := GuestGets(s, Receive(Guest, s.guest, Some(s.toGuest[0])));
    assert Carries(s'.toGuest, s.host.identity, s'.hostSent, s'.guest.received, true);
    assert GuestOk(s');
  }

  /** Rejecting a stop that crossed the final frame. */
  lemma GuestRefusesKeeps(s: System)
    requires Inv(s) && s.toGuest != [] && s.guestSent != [] && s.guest.phase != Closed
    requires !HostTable(s.guest.phase, s.toGuest[0].kind)
    ensures Inv(GuestGets(s, (s.guest.(phase := Terminal), Rejected)))
  {
    GuestFront(s);
    var s' := GuestGets(s, (s.guest.(phase := Terminal), Rejected));
    assert s'.toGuest == [];
    assert GuestOk(s') && HostOk(s') && RejectionsOk(s');
  }

  /** `receive_run` meeting a stop. */
  lemma GuestMeetsStopKeeps(s: System)
    requires Inv(s) && s.toGuest != [] && s.guestSent != [] && s.guest.phase != Closed
    requires HostTable(s.guest.phase, s.toGuest[0].kind) && s.toGuest[0].kind == Stop
    ensures Inv(GuestGets(s, (s.guest.(phase := Terminal, received := s.guest.received + 1), Rejected)))
  {
    GuestFront(s);
    var s' := GuestGets(s, (s.guest.(phase := Terminal, received := s.guest.received + 1), Rejected));
    assert s'.toGuest == [];
    assert GuestOk(s') && HostOk(s') && RejectionsOk(s');
  }

  lemma GuestReceivesCommandKeeps(s: System)
    requires Inv(s) && Enabled(s, GuestReceivesCommand)
    ensures Inv(Next(s, GuestReceivesCommand))
  {
    if s.guest.phase != Closed {
      if s.toGuest == [] {
        GuestSeesCloseKeeps(s);
      } else if HostTable(s.guest.phase, s.toGuest[0].kind) {
        GuestAcceptsKeeps(s);
      } else {
        GuestRefusesKeeps(s);
      }
    }
  }

  predicate StopMetByRun(s: System)
  {
    s.guest.phase != Closed && s.toGuest != [] && s.toGuest[0].kind == Stop && HostTable(s.guest.phase, Stop)
  }

  /** `receive_run` differs from `receive_command` only when it meets a stop. */
  lemma ReceiveRunOnFront(s: System)
    requires Inv(s) && Enabled(s, GuestReceivesRun)
    ensures ReceiveRun(s.guest, First(s.toGuest))
         == if StopMetByRun(s) then (s.guest.(phase := Terminal, received := s.guest.received + 1), Rejected)
            else Receive(Guest, s.guest, First(s.toGuest))
  {
    if s.toGuest != [] {
      GuestFront(s);
    }
  }

  lemma GuestReceivesRunKeeps(s: System)
    requires Inv(s) && Enabled(s, GuestReceivesRun)
    ensures Inv(Next(s, GuestReceivesRun))
  {
    ReceiveRunOnFront(s);
    if StopMetByRun(s) {
      GuestMeetsStopKeeps(s);
    } else {
      GuestReceivesCommandKeeps(s);
    }
  }

  lemma GuestSeesCloseKeeps(s: System)
    requires Inv(s) && s.toGuest == [] && s.host.phase == Closed && s.guest.phase != Closed && !s.contractRead
    ensures Inv(GuestGets(s, (s.guest.(phase := Terminal), Unreadable)))
  {
  }

  lemma HostClosingKeeps(s: System)
    requires Inv(s)
    ensures Inv(s.(host := Close(s.host)))
  {
  }

  lemma GuestClosingKeeps(s: System)
    requires Inv(s)
    ensures Inv(s.(guest := Close(s.guest)))
  {
  }

  lemma HostStepKeeps(s: System, step: Step)
    requires Inv(s) && Enabled(s, step) && step in {HostBootstraps, HostRuns, HostStops, HostReceives, HostCloses}
    ensures Inv(Next(s, step))
  {
    match step
    case HostBootstraps => HostSendsKeeps(s, Bootstrap);
    case HostRuns => HostSendsKeeps(s, Run);
    case HostStops => HostSendsKeeps(s, Stop);
    case HostReceives => HostGetsKeeps(s);
    case HostCloses => HostClosingKeeps(s);
  }

  lemma StepKeeps(s: System, step: Step)
    requires Inv(s) && Enabled(s, step)
    ensures Inv(Next(s, step))
  {
    match step
    case GuestReadsContract => GuestReadsContractKeeps(s);
    case GuestAnnouncesReady => GuestPutsKeeps(s, Ready);
    case GuestReceivesCommand => GuestReceivesCommandKeeps(s);
    case GuestReceivesRun => GuestReceivesRunKeeps(s);
    case GuestSends(k) => GuestPutsKeeps(s, k);
    case GuestCloses => GuestClosingKeeps(s);
    case _ => HostStepKeeps(s, step);
  }

  // ----- every run -----

  /** `states` is a run: it starts fresh and each state follows by an enabled step. */
  ghost predicate IsRun(id: Identity, states: seq<System>, steps: seq<Step>)
  {
    && |states| == |steps| + 1
    && states[0] == Start(id)
    && forall i | 0 <= i < |steps| :: Enabled(states[i], steps[i]) && states[i + 1] == Next(states[i], steps[i])
  }

  lemma {:induction false} RunKeeps(id: Identity, states: seq<System>, steps: seq<Step>, n: nat)
    requires IsRun(id, states, steps) && n < |states|
    ensures Inv(states[n])
  {
    if n > 0 {
      RunKeeps(id, states, steps, n - 1);
      StepKeeps(states[n - 1], steps[n - 1]);
    }
  }

  /** In every interleaving the host rejects nothing the guest sends, the guest
      rejects at most one frame and only a stop, and each sender is ahead of its
      peer by exactly the frames in flight (plus a stop the finished guest refused). */
  lemma ConversationIsSafe(id: Identity, states: seq<System>, steps: seq<Step>, n: nat)
    requires IsRun(id, states, steps) && n < |states|
    ensures var s := states[n];
            && s.hostRejected == []
            && (s.guestRejected == [] || s.guestRejected == [Stop])
            && s.guest.sent == s.host.received + |s.toHost|
            && s.host.sent == s.guest.received + |s.toGuest| + s.crossed
            && s.crossed <= |s.guestRejected|
  {
    RunKeeps(id, states, steps, n);
  }

  /** The guest rejects a stop only when it crossed the guest's own final frame, or
      when the guest met it with `receive_run`. */
  lemma RejectionHasCause(id: Identity, states: seq<System>, steps: seq<Step>, n: nat)
    requires IsRun(id, states, steps) && n < |steps|
    requires states[n + 1].guestRejected != states[n].guestRejected
    ensures states[n].toGuest != [] && states[n].toGuest[0].kind == Stop
    ensures steps[n] == GuestReceivesRun || (steps[n] == GuestReceivesCommand && Finished(states[n].guestSent))
  {
    RunKeeps(id, states, steps, n);
    RunKeeps(id, states, steps, n + 1);
    RejectingStep(states[n], steps[n]);
  }

  lemma RejectingStep(s: System, step: Step)
    requires Inv(s) && Enabled(s, step) && Next(s, step).guestRejected != s.guestRejected
    ensures s.toGuest != [] && s.toGuest[0].kind == Stop
    ensures step == GuestReceivesRun || (step == GuestReceivesCommand && Finished(s.guestSent))
  {
    OnlyReadsReject(s, step);
    GuestFront(s);
  }

  /** Only the guest's reads of a frame can reject it. */
  lemma OnlyReadsReject(s: System, step: Step)
    requires Inv(s) && Enabled(s, step) && Next(s, step).guestRejected != s.guestRejected
    ensures s.toGuest != [] && s.guest.phase != Closed
    ensures step == GuestReceivesRun || (step == GuestReceivesCommand && !HostTable(s.guest.phase, s.toGuest[0].kind))
  {
    if step == GuestReadsContract {
      ContractNotRejected(s);
    } else if s.toGuest != [] {
      GuestFront(s);
    }
  }

  lemma ContractNotRejected(s: System)
    requires Inv(s) && Enabled(s, GuestReadsContract)
    ensures Next(s, GuestReadsContract).guestRejected == s.guestRejected
  {
    if s.toGuest != [] {
      CarriesRest(s.toGuest, s.host.identity, s.hostSent, s.guest.received + s.crossed, true);
    }
  }
}
