/** The host (broker) and guest sides of the conversation as session objects, and
    the transition functions they carry out. */
module Sessions {
  import opened Options

  datatype Kind = Bootstrap | Run | Stop | Ready | Stdout | Stderr | Receipt | Result | Error | OtherKind(name: string)

  datatype Phase = New | IsReady | Running | StopRequested | Terminal | Closed

  datatype Side = Host | Guest

  datatype Identity = Identity(runId: string, tokenId: string, nonce: string)

  /** What the checks look at in a payload: the identity a bootstrap contract
      names, or that a run command carries its workflow and inputs maps. */
  datatype Payload = Contract(identity: Identity) | Workflow | Opaque

  datatype Frame = Frame(identity: Identity, sequence: int, kind: Kind, payload: Payload)

  datatype Session = Session(identity: Identity, sent: nat, received: nat, phase: Phase)

  predicate IsStream(k: Kind) { k in {Stdout, Stderr, Receipt} }

  predicate IsFinal(k: Kind) { k in {Result, Error} }

  predicate HostKind(k: Kind) { k in {Bootstrap, Run, Stop} }

  predicate GuestKind(k: Kind) { k == Ready || IsStream(k) || IsFinal(k) }

  /** `_HOST_KINDS` and `_GUEST_KINDS`. */
  predicate Speaks(side: Side, k: Kind) { if side == Host then HostKind(k) else GuestKind(k) }

  /** The phase a side must be in to exchange a host-to-guest frame. */
  predicate HostTable(p: Phase, k: Kind)
  {
    match k
    case Bootstrap => p == New
    case Run => p == IsReady
    case Stop => p == IsReady || p == Running
    case _ => false
  }

  /** The phase a side must be in to exchange a guest-to-host frame. */
  predicate GuestTable(p: Phase, k: Kind)
  {
    if k == Ready then p == New else GuestKind(k) && (p == Running || p == StopRequested)
  }

  function AfterHostFrame(p: Phase, k: Kind): (q: Phase)
  {
    if k == Run then Running else if k == Stop then StopRequested else p
  }

  function AfterGuestFrame(p: Phase, k: Kind): (q: Phase)
  {
    if k == Ready then IsReady else if IsFinal(k) then Terminal else p
  }

  predicate MaySend(side: Side, p: Phase, k: Kind)
  {
    Speaks(side, k) && if side == Host then HostTable(p, k) else GuestTable(p, k)
  }

  function AfterSend(side: Side, p: Phase, k: Kind): (q: Phase)
  {
    if side == Host then AfterHostFrame(p, k) else AfterGuestFrame(p, k)
  }

  function Other(side: Side): (o: Side) { if side == Host then Guest else Host }

  /** `send`: refused calls raise and change nothing; a failed write ends the session. */
  function Send(side: Side, s: Session, k: Kind, payload: Payload, writes: bool): (r: (Session, Option<Frame>))
  {
    if s.phase == Closed || !MaySend(side, s.phase, k) then (s, None)
    else if !writes then (s.(phase := Terminal), None)
    else (s.(sent := s.sent + 1, phase := AfterSend(side, s.phase, k)),
          Some(Frame(s.identity, s.sent, k, payload)))
  }

  /** What one `receive` call ended in. */
  datatype Received = Accepted(frame: Frame) | Rejected | Unreadable | NotOpen

  /** `receive` and `receive_command`; `incoming` is what `read_frame` returned. */
  function Receive(side: Side, s: Session, incoming: Option<Frame>): (r: (Session, Received))
  {
    if s.phase == Closed then (s, NotOpen)
    else if incoming == None then (s.(phase := Terminal), Unreadable)
    else
      var f := incoming.value;
      if f.identity != s.identity || f.sequence != s.received || !MaySend(Other(side), s.phase, f.kind)
      then (s.(phase := Terminal), Rejected)
      else (s.(received := s.received + 1, phase := AfterSend(Other(side), s.phase, f.kind)), Accepted(f))
  }

  /** `close`. */
  function Close(s: Session): (r: Session) { s.(phase := Closed) }

  /** `receive_run`: a command other than a complete run is rejected after it was accepted. */
  function ReceiveRun(s: Session, incoming: Option<Frame>): (r: (Session, Received))
  {
    var (s', got) := Receive(Guest, s, incoming);
    if got.Accepted? && (got.frame.kind != Run || got.frame.payload != Workflow)
    then (s'.(phase := Terminal), Rejected)
    else (s', got)
  }

  /** The receiving half of the guest's `bootstrap`. */
  function ReceiveBootstrap(s: Session, incoming: Option<Frame>): (r: (Session, Received))
  {
    var (s', got) := Receive(Guest, s, incoming);
    if got.Accepted?
       && (got.frame.kind != Bootstrap || got.frame.sequence != 0 || got.frame.payload != Contract(s.identity))
    then (s'.(phase := Terminal), Rejected)
    else (s', got)
  }

  predicate Complete(id: Identity) { id.runId != "" && id.tokenId != "" && id.nonce != "" }

  /** `accept_bootstrap`: a guest that learns its identity from the contract in the first
      frame. The identity in the frame's own header is not looked at. */
  function AcceptBootstrap(incoming: Option<Frame>, writes: bool): (r: Option<(Session, Frame)>)
  {
    if incoming == None then None
    else
      var f := incoming.value;
      if f.kind != Bootstrap || !f.payload.Contract? || !Complete(f.payload.identity) || f.sequence != 0 then None
      else
        var (s, ready) := Send(Guest, Session(f.payload.identity, 0, 1, New), Ready, Opaque, writes);
        if ready.Some? then Some((s, ready.value)) else None
  }

  /** An accepted first frame makes the session and the answer that a guest knowing that
      identity makes of it, exactly when the frame's header carries the contract's identity;
      otherwise such a guest rejects it. */
  lemma AcceptingIsBootstrapping(f: Frame, writes: bool)
    requires AcceptBootstrap(Some(f), writes).Some?
    ensures var (s, ready) := AcceptBootstrap(Some(f), writes).value;
            var (known, got) := ReceiveBootstrap(Session(f.payload.identity, 0, 0, New), Some(f));
            if f.identity == f.payload.identity then
              got == Accepted(f) && Send(Guest, known, Ready, Opaque, writes) == (s, Some(ready))
            else got == Rejected
  {
  }

  /** A frame that is accepted although a guest of any known identity rejects it. */
  lemma ForeignHeaderIsAccepted(id: Identity, other: Identity)
    requires Complete(id) && other != id
    ensures var f := Frame(other, 0, Bootstrap, Contract(id));
            && AcceptBootstrap(Some(f), true).Some?
            && forall known :: ReceiveBootstrap(Session(known, 0, 0, New), Some(f)).1 == Rejected
  {
  }

  // ----- the session objects -----

  class BrokerSession {
    const identity: Identity
    var sendSequence: nat
    var receiveSequence: nat
    var phase: Phase
    var closed: bool

    ghost predicate Valid() reads this { closed <==> phase == Closed }

    ghost function Abs(): (s: Session) reads this { Session(identity, sendSequence, receiveSequence, phase) }

    constructor (identity: Identity)
      ensures Valid() && Abs() == Session(identity, 0, 0, New)
    {
      this.identity := identity;
      sendSequence, receiveSequence, phase, closed := 0, 0, New, false;
    }

    method SendFrame(kind: Kind, payload: Payload, writes: bool) returns (r: Option<Frame>)
      requires Valid()
      modifies this
      ensures Valid() && (Abs(), r) == Send(Host, old(Abs()), kind, payload, writes)
    {
      if closed || !HostKind(kind) || !HostTable(phase, kind) {
        return None;
      }
      if !writes {
        phase := Terminal;
        return None;
      }
      r := Some(Frame(identity, sendSequence, kind, payload));
      sendSequence := sendSequence + 1;
      if kind == Run {
        phase := Running;
      } else if kind == Stop {
        phase := StopRequested;
      }
    }

    method ReceiveFrame(incoming: Option<Frame>) returns (r: Received)
      requires Valid()
      modifies this
      ensures Valid() && (Abs(), r) == Receive(Host, old(Abs()), incoming)
    {
      if closed {
        return NotOpen;
      }
      if incoming == None {
        phase := Terminal;
        return Unreadable;
      }
      var f := incoming.value;
      if f.identity != identity || f.sequence != receiveSequence || !GuestKind(f.kind) || !GuestTable(phase, f.kind) {
        phase := Terminal;
        return Rejected;
      }
      receiveSequence := receiveSequence + 1;
      if f.kind == Ready {
        phase := IsReady;
      } else if IsFinal(f.kind) {
        phase := Terminal;
      }
      r := Accepted(f);
    }

    method CloseSession()
      requires Valid()
      modifies this
      ensures Valid() && Abs() == Close(old(Abs()))
    {
      if !closed {
        closed, phase := true, Closed;
      }
    }
  }

  class GuestSession {
    const identity: Identity
    var sendSequence: nat
    var receiveSequence: nat
    var phase: Phase
    var closed: bool

    ghost predicate Valid() reads this { closed <==> phase == Closed }

    ghost function Abs(): (s: Session) reads this { Session(identity, sendSequence, receiveSequence, phase) }

    constructor (identity: Identity)
      ensures Valid() && Abs() == Session(identity, 0, 0, New)
    {
      this.identity := identity;
      sendSequence, receiveSequence, phase, closed := 0, 0, New, false;
    }

    method ReceiveCommand(incoming: Option<Frame>) returns (r: Received)
      requires Valid()
      modifies this
      ensures Valid() && (Abs(), r) == Receive(Guest, old(Abs()), incoming)
    {
      if closed {
        return NotOpen;
      }
      if incoming == None {
        phase := Terminal;
        return Unreadable;
      }
      var f := incoming.value;
      if f.identity != identity || f.sequence != receiveSequence || !HostKind(f.kind) || !HostTable(phase, f.kind) {
        phase := Terminal;
        return Rejected;
      }
      receiveSequence := receiveSequence + 1;
      if f.kind == Run {
        phase := Running;
      } else if f.kind == Stop {
        phase := StopRequested;
      }
      r := Accepted(f);
    }

    method ReceiveRunCommand(incoming: Option<Frame>) returns (r: Received)
      requires Valid()
      modifies this
      ensures Valid() && (Abs(), r) == ReceiveRun(old(Abs()), incoming)
    {
      r := ReceiveCommand(incoming);
      if r.Accepted? && (r.frame.kind != Run || r.frame.payload != Workflow) {
        phase := Terminal;
        r := Rejected;
      }
    }

    method SendFrame(kind: Kind, payload: Payload, writes: bool) returns (r: Option<Frame>)
      requires Valid()
      modifies this
      ensures Valid() && (Abs(), r) == Send(Guest, old(Abs()), kind, payload, writes)
    {
      if closed || !GuestKind(kind) || !GuestTable(phase, kind) {
        return None;
      }
      if !writes {
        phase := Terminal;
        return None;
      }
      r := Some(Frame(identity, sendSequence, kind, payload));
      sendSequence := sendSequence + 1;
      if IsFinal(kind) {
        phase := Terminal;
      } else if kind == Ready {
        phase := IsReady;
      }
    }

    /** The guest's `bootstrap`: accept the contract, then announce readiness. */
    method BootstrapSession(incoming: Option<Frame>, writes: bool) returns (r: Option<Frame>)
      requires Valid()
      modifies this
      ensures Valid()
      ensures var (s, got) := ReceiveBootstrap(old(Abs()), incoming);
              (Abs(), r) == if got.Accepted? then Send(Guest, s, Ready, Opaque, writes) else (s, None)
    {
      var got := ReceiveCommand(incoming);
      if !got.Accepted? {
        return None;
      }
      if got.frame.kind != Bootstrap || got.frame.sequence != 0 || got.frame.payload != Contract(identity) {
        phase := Terminal;
        return None;
      }
      r := SendFrame(Ready, Opaque, writes);
    }

    method CloseSession()
      requires Valid()
      modifies this
      ensures Valid() && Abs() == Close(old(Abs()))
    {
      if !closed {
        closed, phase := true, Closed;
      }
    }
  }

  /** `accept_bootstrap`; a session exists afterwards only if the answer was sent. */
  method AcceptBootstrapSession(incoming: Option<Frame>, writes: bool)
    returns (session: GuestSession?, r: Option<Frame>)
    ensures match AcceptBootstrap(incoming, writes)
            case None => session == null && r == None
            case Some((s, ready)) =>
              && session != null && fresh(session) && session.Valid() && session.Abs() == s
              && r == Some(ready)
  {
    session, r := null, None;
    if incoming == None {
      return;
    }
    var f := incoming.value;
    if f.kind != Bootstrap || !f.payload.Contract? || !Complete(f.payload.identity) {
      return;
    }
    var guest := new GuestSession(f.payload.identity);
    guest.receiveSequence := 1;
    if f.sequence != 0 {
      return;
    }
    r := guest.SendFrame(Ready, Opaque, writes);
    if r.Some? {
      session := guest;
    }
  }

  // ----- one side against an arbitrary peer -----

  /** Calls on one session; what arrives is up to the peer. */
  datatype Call =
    | CallSend(kind: Kind, payload: Payload, writes: bool)
    | CallReceive(incoming: Option<Frame>)
    | CallClose

  function Apply(side: Side, s: Session, c: Call): (r: (Session, Option<Frame>))
  {
    match c
    case CallSend(k, p, w) => Send(side, s, k, p, w)
    case CallReceive(f) => (Receive(side, s, f).0, None)
    case CallClose => (Close(s), None)
  }

  /** The kinds a session put on the wire over a sequence of calls. */
  function Sent(side: Side, s: Session, calls: seq<Call>): (ks: seq<Kind>)
    decreases |calls|
  {
    if calls == [] then []
    else
      var (s', out) := Apply(side, s, calls[0]);
      (if out.Some? then [out.value.kind] else []) + Sent(side, s', calls[1..])
  }

  function Final(side: Side, s: Session, calls: seq<Call>): (r: Session)
    decreases |calls|
  {
    if calls == [] then s else Final(side, Apply(side, s, calls[0]).0, calls[1..])
  }

  function Rank(p: Phase): (n: nat)
  {
    match p
    case New => 0
    case IsReady => 1
    case Running => 2
    case StopRequested => 3
    case Terminal => 4
    case Closed => 5
  }

  function Count(k: Kind, ks: seq<Kind>): (n: nat)
  {
    if ks == [] then 0 else (if ks[0] == k then 1 else 0) + Count(k, ks[1..])
  }

  /** Whatever the peer sends, a session's phase only advances. */
  lemma {:induction false} RankNeverDecreases(side: Side, s: Session, calls: seq<Call>)
    ensures Rank(Final(side, s, calls).phase) >= Rank(s.phase)
    decreases |calls|
  {
    if calls != [] {
      RankNeverDecreases(side, Apply(side, s, calls[0]).0, calls[1..]);
    }
  }

  /** Whatever the peer sends, the host puts at most one run and one stop on the wire. */
  lemma {:induction false} AtMostOneRunAndStop(s: Session, calls: seq<Call>)
    ensures Count(Run, Sent(Host, s, calls)) <= if Rank(s.phase) <= 1 then 1 else 0
    ensures Count(Stop, Sent(Host, s, calls)) <= if Rank(s.phase) <= 2 then 1 else 0
    decreases |calls|
  {
    if calls != [] {
      var (s', out) := Apply(Host, s, calls[0]);
      AtMostOneRunAndStop(s', calls[1..]);
      if out.Some? {
        var tail := Sent(Host, s', calls[1..]);
        assert ([out.value.kind] + tail)[1..] == tail;
      } else {
        assert [] + Sent(Host, s', calls[1..]) == Sent(Host, s', calls[1..]);
      }
    }
  }

  // ----- what is accepted from an arbitrary peer -----

  function Outcome(side: Side, s: Session, c: Call): (r: Option<Received>)
  {
    if c.CallReceive? then Some(Receive(side, s, c.incoming).1) else None
  }

  /** The frames a session accepted over a sequence of calls, in order. */
  function Taken(side: Side, s: Session, calls: seq<Call>): (fs: seq<Frame>)
    decreases |calls|
  {
    if calls == [] then []
    else
      var got := Outcome(side, s, calls[0]);
      (if got.Some? && got.value.Accepted? then [got.value.frame] else [])
      + Taken(side, Apply(side, s, calls[0]).0, calls[1..])
  }

  /** Whatever the peer sends, the accepted frames carry the session's identity and consecutive
      numbers: none is accepted twice, out of order, or in place of another. */
  lemma {:induction false} AcceptedInOrder(side: Side, s: Session, calls: seq<Call>, k: nat)
    requires k < |Taken(side, s, calls)|
    ensures Taken(side, s, calls)[k].identity == s.identity
    ensures Taken(side, s, calls)[k].sequence == s.received + k
    decreases |calls|
  {
    var got := Outcome(side, s, calls[0]);
    var s' := Apply(side, s, calls[0]).0;
    if !(got.Some? && got.value.Accepted?) {
      AcceptedInOrder(side, s', calls[1..], k);
    } else if k > 0 {
      AcceptedInOrder(side, s', calls[1..], k - 1);
    }
  }

  // ----- the protocol as a language -----

  /** What became of a call: a frame was exchanged, or nothing happened, or the session ended. */
  datatype Effect = Exchanged(kind: Kind) | Ignored | Ended

  predicate FromHost(k: Kind) { k.Bootstrap? || k.Run? || k.Stop? }

  predicate FromGuest(k: Kind)
  {
    k.Ready? || k.Stdout? || k.Stderr? || k.Receipt? || k.Result? || k.Error?
  }

  predicate SpokenBy(side: Side, k: Kind) { if side.Host? then FromHost(k) else FromGuest(k) }

  predicate Over(h: seq<Effect>) { Exchanged(Result) in h || Exchanged(Error) in h }

  /** What may follow in a conversation, by what was exchanged before: bootstraps, then one
      ready, at most one run and one stop in that order, and once there was either of them the
      guest's frames, the last of which is a result or an error. */
  predicate MayFollow(h: seq<Effect>, k: Kind)
  {
    match k
    case Bootstrap => Exchanged(Ready) !in h
    case Ready => Exchanged(Ready) !in h
    case Run => Exchanged(Ready) in h && Exchanged(Run) !in h && Exchanged(Stop) !in h
    case Stop => Exchanged(Ready) in h && Exchanged(Stop) !in h && !Over(h)
    case OtherKind(_) => false
    case _ => (Exchanged(Run) in h || Exchanged(Stop) in h) && !Over(h)
  }

  /** How many of the exchanged frames were spoken by this side. */
  function Spoken(side: Side, h: seq<Effect>): (n: nat)
  {
    if h == [] then 0
    else
      var e := h[|h| - 1];
      Spoken(side, h[..|h| - 1]) + if e.Exchanged? && SpokenBy(side, e.kind) then 1 else 0
  }

  /** The effect of a call, by what happened before it alone. */
  function EffectOf(side: Side, id: Identity, h: seq<Effect>, c: Call): (e: Effect)
  {
    match c
    case CallClose => Ended
    case CallSend(k, _, writes) =>
      if Ended in h || !SpokenBy(side, k) || !MayFollow(h, k) then Ignored
      else if writes then Exchanged(k) else Ended
    case CallReceive(None) => Ended
    case CallReceive(Some(f)) =>
      if && Ended !in h && f.identity == id && f.sequence == Spoken(Other(side), h)
         && SpokenBy(Other(side), f.kind) && MayFollow(h, f.kind)
      then Exchanged(f.kind) else Ended
  }

  function History(side: Side, id: Identity, calls: seq<Call>): (h: seq<Effect>)
  {
    if calls == [] then []
    else
      var init := calls[..|calls| - 1];
      var h := History(side, id, init);
      h + [EffectOf(side, id, h, calls[|calls| - 1])]
  }

  /** A session after these calls. */
  function After(side: Side, id: Identity, calls: seq<Call>): (s: Session)
  {
    if calls == [] then Session(id, 0, 0, New)
    else Apply(side, After(side, id, calls[..|calls| - 1]), calls[|calls| - 1]).0
  }

  lemma {:induction false} AfterIsFinal(side: Side, id: Identity, calls: seq<Call>)
    ensures After(side, id, calls) == Final(side, Session(id, 0, 0, New), calls)
  {
    if calls != [] {
      AfterIsFinal(side, id, calls[..|calls| - 1]);
      assert calls == calls[..|calls| - 1] + [calls[|calls| - 1]];
      FinalSnoc(side, Session(id, 0, 0, New), calls[..|calls| - 1], calls[|calls| - 1]);
    }
  }

  lemma {:induction false} FinalSnoc(side: Side, s: Session, calls: seq<Call>, c: Call)
    ensures Final(side, s, calls + [c]) == Apply(side, Final(side, s, calls), c).0
    decreases |calls|
  {
    if calls != [] {
      assert (calls + [c])[1..] == calls[1..] + [c];
      FinalSnoc(side, Apply(side, s, calls[0]).0, calls[1..], c);
    }
  }

  /** The phase and the counters are what the history says. */
  predicate Tells(side: Side, id: Identity, h: seq<Effect>, s: Session)
  {
    && s.identity == id
    && if Ended in h then s.phase == Terminal || s.phase == Closed
       else
         && s.sent == Spoken(side, h) && s.received == Spoken(Other(side), h)
         && s.phase == PhaseAfter(h)
         && (Exchanged(Ready) !in h ==> Exchanged(Run) !in h && Exchanged(Stop) !in h)
         && (Over(h) ==> Exchanged(Run) in h || Exchanged(Stop) in h)
  }

  function PhaseAfter(h: seq<Effect>): (p: Phase)
  {
    if Over(h) then Terminal
    else if Exchanged(Stop) in h then StopRequested
    else if Exchanged(Run) in h then Running
    else if Exchanged(Ready) in h then IsReady
    else New
  }

  lemma Appended(h: seq<Effect>, e: Effect)
    ensures forall x :: x in h + [e] <==> x in h || x == e
    ensures forall side :: Spoken(side, h + [e])
                           == Spoken(side, h) + if e.Exchanged? && SpokenBy(side, e.kind) then 1 else 0
  {
    assert (h + [e])[..|h|] == h;
  }

  lemma SendTells(side: Side, id: Identity, h: seq<Effect>, s: Session, k: Kind, payload: Payload, writes: bool)
    requires Tells(side, id, h, s)
    ensures Tells(side, id, h + [EffectOf(side, id, h, CallSend(k, payload, writes))],
                  Send(side, s, k, payload, writes).0)
  {
    Appended(h, EffectOf(side, id, h, CallSend(k, payload, writes)));
  }

  lemma ReceiveTells(side: Side, id: Identity, h: seq<Effect>, s: Session, incoming: Option<Frame>)
    requires Tells(side, id, h, s)
    ensures Tells(side, id, h + [EffectOf(side, id, h, CallReceive(incoming))], Receive(side, s, incoming).0)
  {
    Appended(h, EffectOf(side, id, h, CallReceive(incoming)));
  }

  lemma StepTells(side: Side, id: Identity, h: seq<Effect>, s: Session, c: Call)
    requires Tells(side, id, h, s)
    ensures Tells(side, id, h + [EffectOf(side, id, h, c)], Apply(side, s, c).0)
  {
    match c
    case CallSend(k, payload, writes) => SendTells(side, id, h, s, k, payload, writes);
    case CallReceive(incoming) => ReceiveTells(side, id, h, s, incoming);
    case CallClose => Appended(h, Ended);
  }

  lemma {:induction false} HistoryTells(side: Side, id: Identity, calls: seq<Call>)
    ensures Tells(side, id, History(side, id, calls), After(side, id, calls))
  {
    if calls != [] {
      HistoryTells(side, id, calls[..|calls| - 1]);
      StepTells(side, id, History(side, id, calls[..|calls| - 1]), After(side, id, calls[..|calls| - 1]),
                calls[|calls| - 1]);
    }
  }

  /** A new session exchanges exactly the frames that may come next in the conversation: a send
      goes out, numbered by the sends before it, exactly when its kind may follow, and a frame
      is accepted exactly when it is the next one of the peer and its kind may follow. */
  lemma SpeaksTheLanguage(side: Side, id: Identity, calls: seq<Call>, c: Call)
    ensures var h, s := History(side, id, calls), Final(side, Session(id, 0, 0, New), calls);
            && (c.CallReceive? ==>
                  (Receive(side, s, c.incoming).1.Accepted? <==> EffectOf(side, id, h, c).Exchanged?)
                  && (Receive(side, s, c.incoming).1.Accepted? ==>
                        c.incoming.Some? && Receive(side, s, c.incoming).1.frame == c.incoming.value))
            && (c.CallSend? ==>
                  Send(side, s, c.kind, c.payload, c.writes).1
                  == if EffectOf(side, id, h, c).Exchanged? then Some(Frame(id, Spoken(side, h), c.kind, c.payload))
                     else None)
  {
    AfterIsFinal(side, id, calls);
    HistoryTells(side, id, calls);
    var h, s := History(side, id, calls), Final(side, Session(id, 0, 0, New), calls);
    if c.CallReceive? {
      ReceivesByHistory(side, id, h, s, c.incoming);
    } else if c.CallSend? {
      SendsByHistory(side, id, h, s, c.kind, c.payload, c.writes);
    }
  }

  lemma ReceivesByHistory(side: Side, id: Identity, h: seq<Effect>, s: Session, incoming: Option<Frame>)
    requires Tells(side, id, h, s)
    ensures var got := Receive(side, s, incoming).1;
            && (got.Accepted? <==> EffectOf(side, id, h, CallReceive(incoming)).Exchanged?)
            && (got.Accepted? ==> incoming.Some? && got.frame == incoming.value)
  {
  }

  lemma SendsByHistory(
      side: Side, id: Identity, h: seq<Effect>, s: Session, k: Kind, payload: Payload, writes: bool)
    requires Tells(side, id, h, s)
    ensures Send(side, s, k, payload, writes).1
            == if EffectOf(side, id, h, CallSend(k, payload, writes)).Exchanged?
               then Some(Frame(id, Spoken(side, h), k, payload)) else None
  {
  }

  /** One frame and no other bootstraps a session that knows its identity. */
  lemma OneFrameBootstraps(id: Identity, f: Frame)
    ensures ReceiveBootstrap(Session(id, 0, 0, New), Some(f)).1.Accepted?
            <==> f == Frame(id, 0, Bootstrap, Contract(id))
  {
  }

  /** One frame and no other starts the work of a session that is ready. */
  lemma OneFrameRuns(s: Session, f: Frame)
    requires s.phase == IsReady
    ensures ReceiveRun(s, Some(f)).1.Accepted? <==> f == Frame(s.identity, s.received, Run, Workflow)
  {
  }

  /** A guest without an identity takes the one in a complete contract that comes first, and
      answers that it is ready. */
  lemma FirstContractIsTaken(f: Frame, writes: bool)
    ensures AcceptBootstrap(Some(f), writes).Some? <==>
              writes && f.kind == Bootstrap && f.sequence == 0 && f.payload.Contract?
              && f.payload.identity.runId != "" && f.payload.identity.tokenId != "" && f.payload.identity.nonce != ""
    ensures AcceptBootstrap(Some(f), writes).Some? ==>
              var id := f.payload.identity;
              AcceptBootstrap(Some(f), writes).value == (Session(id, 1, 1, IsReady), Frame(id, 0, Ready, Opaque))
  {
  }
}
