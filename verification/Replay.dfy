/** The replay verifier of a framed command session: one provisioned secret, canonical
    increasing nonces, a bounded budget, and a registry of active generations. */
module Replay {
  import opened Options
  import opened Utf8

  const BUDGET: nat := 1024
  const TEXT_LIMIT: nat := 128
  const SECRET_LENGTH: nat := 32

  type Secret = seq<byte>
  type Digest = string
  type Mac = (Secret, string) -> Digest

  /** Session identity to the provisioning digest of its active secret. */
  type Registry = map<string, Digest>

  datatype Rejection =
    | NoNonce | NoRequestId | NoCredential | BadCredential | Inactive | NotCanonical
    | Reused | Exhausted | NotIncreasing

  datatype Verdict = Accepted(sequence: nat) | Rejected(why: Rejection)

  /** A field that is absent or not text is `None`. */
  datatype Command = Command(nonce: Option<string>, requestId: Option<string>, credential: Option<string>)

  datatype Session = Session(secret: Secret, id: string, provisioning: Digest)

  // ----- session identities and nonces -----

  predicate Alphanumeric(c: char) { 'a' <= c <= 'z' || 'A' <= c <= 'Z' || '0' <= c <= '9' }

  predicate ValidSessionId(s: string)
  {
    && 0 < |s| <= TEXT_LIMIT && Alphanumeric(s[0])
    && forall i | 0 <= i < |s| :: Alphanumeric(s[i]) || s[i] in {'.', '_', '-'}
  }

  /** By their ASCII codes: letters, digits, and `-`, `.`, `_`. */
  predicate IdCode(n: int) { 48 <= n <= 57 || 65 <= n <= 90 || 97 <= n <= 122 || n in {45, 46, 95} }

  /** A session id is 1 to 128 of these characters and starts with a letter or a digit. */
  lemma SessionIdsAre(s: string)
    ensures ValidSessionId(s) <==>
              && 1 <= |s| <= 128 && s[0] as int !in {45, 46, 95}
              && forall i | 0 <= i < |s| :: IdCode(s[i] as int)
  {
  }

  predicate IsDigit(c: char) { '0' <= c <= '9' }

  predicate Canonical(s: string)
  {
    s != "" && (forall i | 0 <= i < |s| :: IsDigit(s[i])) && (|s| > 1 ==> s[0] != '0')
  }

  predicate AllDigits(s: string) { forall i | 0 <= i < |s| :: IsDigit(s[i]) }

  function ParseDecimal(s: string): (n: nat)
    requires AllDigits(s)
  {
    if s == "" then 0 else ParseDecimal(s[..|s| - 1]) * 10 + (s[|s| - 1] - '0') as nat
  }

  lemma {:induction false} LeadingDigitIsPositive(s: string)
    requires AllDigits(s) && s != "" && s[0] != '0'
    ensures ParseDecimal(s) > 0
  {
    if |s| > 1 {
      LeadingDigitIsPositive(s[..|s| - 1]);
    }
  }

  /** Different digit strings without leading zeros are different numbers. */
  lemma {:induction false} DigitsAreUnique(a: string, b: string)
    requires AllDigits(a) && AllDigits(b) && (a != "" ==> a[0] != '0') && (b != "" ==> b[0] != '0')
    requires ParseDecimal(a) == ParseDecimal(b)
    ensures a == b
    decreases |a|
  {
    if a == "" && b != "" {
      LeadingDigitIsPositive(b);
    } else if a != "" && b == "" {
      LeadingDigitIsPositive(a);
    } else if a != "" {
      var a', b' := a[..|a| - 1], b[..|b| - 1];
      assert ParseDecimal(a') == ParseDecimal(b') && a[|a| - 1] == b[|b| - 1];
      DigitsAreUnique(a', b');
      assert a == a' + [a[|a| - 1]] && b == b' + [b[|b| - 1]];
    }
  }

  /** One number has one canonical nonce, so refusing numbers refuses texts. */
  lemma {:induction false} CanonicalIsUnique(a: string, b: string)
    requires Canonical(a) && Canonical(b) && ParseDecimal(a) == ParseDecimal(b)
    ensures a == b
  {
    if a[0] == '0' && b[0] != '0' {
      LeadingDigitIsPositive(b);
    } else if a[0] != '0' && b[0] == '0' {
      LeadingDigitIsPositive(a);
    } else if a[0] != '0' {
      DigitsAreUnique(a, b);
    }
  }

  // ----- the verifier -----

  function Binding(mac: Mac, secret: Secret, id: string): (d: Digest)
  {
    mac(secret, "session:" + id)
  }

  function Credential(mac: Mac, v: Session, nonce: string, requestId: string): (d: Digest)
  {
    mac(v.secret, v.id + ":" + nonce + ":" + requestId)
  }

  predicate Present(field: Option<string>) { field.Some? && 0 < |field.value| <= TEXT_LIMIT }

  /** The checks that do not depend on what was accepted before, in order. */
  function CheckForm(mac: Mac, v: Session, registry: Registry, c: Command): (r: Option<Rejection>)
  {
    if !Present(c.nonce) then Some(NoNonce)
    else if !Present(c.requestId) then Some(NoRequestId)
    else if c.credential.None? || c.credential.value == "" then Some(NoCredential)
    else if c.credential.value != Credential(mac, v, c.nonce.value, c.requestId.value) then Some(BadCredential)
    else if v.id !in registry || registry[v.id] != v.provisioning then Some(Inactive)
    else if !Canonical(c.nonce.value) then Some(NotCanonical)
    else None
  }

  datatype Memory = Memory(seen: set<nat>, highWater: Option<nat>)

  function Verify(mac: Mac, v: Session, m: Memory, registry: Registry, c: Command): (r: (Memory, Verdict))
    ensures r.1.Rejected? ==> r.0 == m
  {
    var form := CheckForm(mac, v, registry, c);
    if form.Some? then (m, Rejected(form.value))
    else
      var n := ParseDecimal(c.nonce.value);
      if n in m.seen then (m, Rejected(Reused))
      else if |m.seen| >= BUDGET then (m, Rejected(Exhausted))
      else if m.highWater.Some? && n <= m.highWater.value then (m, Rejected(NotIncreasing))
      else (Memory(m.seen + {n}, Some(n)), Accepted(n))
  }

  /** A well-formed command whose number is above every accepted one. */
  predicate Advances(mac: Mac, v: Session, m: Memory, registry: Registry, c: Command)
  {
    && CheckForm(mac, v, registry, c).None?
    && (m.highWater.Some? ==> ParseDecimal(c.nonce.value) > m.highWater.value)
  }

  ghost predicate MemoryOk(m: Memory)
  {
    && |m.seen| <= BUDGET && (m.highWater.None? <==> m.seen == {})
    && (m.highWater.Some? ==> m.highWater.value in m.seen)
    && (forall n | n in m.seen :: n <= m.highWater.value)
  }

  class SecretRegistry {
    var active: Registry

    constructor ()
      ensures active == map[]
    {
      active := map[];
    }

    /** `provision_session_secret`, given the fresh random bytes. */
    method Provision(mac: Mac, id: string, secret: Secret) returns (session: Option<Session>)
      modifies this
      ensures session == if ValidSessionId(id) then Some(Session(secret, id, Binding(mac, secret, id))) else None
      ensures active == Registered(mac, old(active), Mint(id, secret))
    {
      if !ValidSessionId(id) {
        return None;
      }
      var binding := Binding(mac, secret, id);
      active := active[id := binding];
      session := Some(Session(secret, id, binding));
    }

    method Revoke(mac: Mac, id: string) returns (ok: bool)
      modifies this
      ensures ok == ValidSessionId(id)
      ensures active == Registered(mac, old(active), Withdraw(id))
    {
      ok := ValidSessionId(id);
      if ok {
        active := active - {id};
      }
    }
  }

  class CommandSessionVerifier {
    const mac: Mac
    const session: Session
    const registry: SecretRegistry
    var seen: set<nat>
    var highWater: Option<nat>

    constructor (mac: Mac, session: Session, registry: SecretRegistry)
      requires Opens(mac, session, registry.active)
      ensures this.mac == mac && this.session == session && this.registry == registry
      ensures Remembered() == Memory({}, None)
    {
      this.mac, this.session, this.registry := mac, session, registry;
      seen, highWater := {}, None;
    }

    function Remembered(): (m: Memory)
      reads this
    {
      Memory(seen, highWater)
    }

    /** What is left of the budget: something is left exactly when a well-formed command with
        a number above all earlier ones would still be accepted. */
    method CommandsRemaining() returns (n: nat)
      ensures MemoryOk(Remembered()) ==> n + |seen| == BUDGET
      ensures MemoryOk(Remembered()) ==>
                forall active, c :: Advances(mac, session, Remembered(), active, c) ==>
                  (Verify(mac, session, Remembered(), active, c).1.Accepted? <==> n > 0)
    {
      n := if |seen| <= BUDGET then BUDGET - |seen| else 0;
    }

    method VerifyCommand(c: Command) returns (verdict: Verdict)
      requires MemoryOk(Remembered())
      modifies this
      ensures (Remembered(), verdict) == Verify(mac, session, old(Remembered()), registry.active, c)
      ensures MemoryOk(Remembered())
    {
      VerifyKeeps(mac, session, Remembered(), registry.active, c);
      var form := CheckForm(mac, session, registry.active, c);
      if form.Some? {
        return Rejected(form.value);
      }
      var sequence := ParseDecimal(c.nonce.value);
      if sequence in seen {
        return Rejected(Reused);
      }
      if |seen| >= BUDGET {
        return Rejected(Exhausted);
      }
      if highWater.Some? && sequence <= highWater.value {
        return Rejected(NotIncreasing);
      }
      seen := seen + {sequence};
      highWater := Some(sequence);
      verdict := Accepted(sequence);
    }
  }

  /** When a verifier may be built at all: otherwise its construction raises. */
  predicate Opens(mac: Mac, v: Session, registry: Registry)
  {
    && |v.secret| >= SECRET_LENGTH && v.provisioning == Binding(mac, v.secret, v.id)
    && v.id in registry && registry[v.id] == v.provisioning
  }

  /** Builds a verifier, or raises. */
  method OpenSession(mac: Mac, session: Session, registry: SecretRegistry) returns (verifier: CommandSessionVerifier?)
    ensures verifier != null <==> Opens(mac, session, registry.active)
    ensures verifier != null ==>
              && fresh(verifier) && verifier.mac == mac && verifier.session == session && verifier.registry == registry
              && verifier.Remembered() == Memory({}, None)
  {
    if Opens(mac, session, registry.active) {
      verifier := new CommandSessionVerifier(mac, session, registry);
    } else {
      verifier := null;
    }
  }

  lemma VerifyKeeps(mac: Mac, v: Session, m: Memory, registry: Registry, c: Command)
    requires MemoryOk(m)
    ensures MemoryOk(Verify(mac, v, m, registry, c).0)
  {
  }

  // ----- runs -----

  datatype Event = Check(command: Command) | Mint(id: string, secret: Secret) | Withdraw(id: string)

  function Registered(mac: Mac, registry: Registry, e: Event): (r: Registry)
  {
    match e
    case Check(_) => registry
    case Mint(id, secret) => if ValidSessionId(id) then registry[id := Binding(mac, secret, id)] else registry
    case Withdraw(id) => if ValidSessionId(id) then registry - {id} else registry
  }

  /** What one event does to the verifier: its new memory, and the number it accepts. */
  function VerifierStep(mac: Mac, v: Session, m: Memory, registry: Registry, e: Event): (r: (Memory, Option<nat>))
  {
    if !e.Check? then (m, None)
    else
      var (m', verdict) := Verify(mac, v, m, registry, e.command);
      (m', if verdict.Accepted? then Some(verdict.sequence) else None)
  }

  /** What one verifier accepts along a run in which secrets also come and go. */
  function Outcomes(mac: Mac, v: Session, m: Memory, registry: Registry, events: seq<Event>): (r: seq<Option<nat>>)
    ensures |r| == |events|
    decreases |events|
  {
    if events == [] then []
    else
      var (m', accepted) := VerifierStep(mac, v, m, registry, events[0]);
      [accepted] + Outcomes(mac, v, m', Registered(mac, registry, events[0]), events[1..])
  }

  /** The simple verifier, which keeps only the last accepted number and a count. */
  function SimpleStep(mac: Mac, v: Session, h: Option<nat>, count: nat, registry: Registry, e: Event): (r: Option<nat>)
  {
    if e.Check? && CheckForm(mac, v, registry, e.command).None? && count < BUDGET
       && (h.Some? ==> ParseDecimal(e.command.nonce.value) > h.value)
    then Some(ParseDecimal(e.command.nonce.value))
    else None
  }

  function SimpleNext(h: Option<nat>, count: nat, accepted: Option<nat>): (r: (Option<nat>, nat))
  {
    if accepted.Some? then (accepted, count + 1) else (h, count)
  }

  function SimpleOutcomes(mac: Mac, v: Session, h: Option<nat>, count: nat, registry: Registry,
      events: seq<Event>): (r: seq<Option<nat>>)
    ensures |r| == |events|
    decreases |events|
  {
    if events == [] then []
    else
      var accepted := SimpleStep(mac, v, h, count, registry, events[0]);
      var (h', count') := SimpleNext(h, count, accepted);
      [accepted] + SimpleOutcomes(mac, v, h', count', Registered(mac, registry, events[0]), events[1..])
  }

  lemma StepsAgree(mac: Mac, v: Session, m: Memory, registry: Registry, e: Event)
    requires MemoryOk(m)
    ensures var (m', accepted) := VerifierStep(mac, v, m, registry, e);
            && MemoryOk(m') && accepted == SimpleStep(mac, v, m.highWater, |m.seen|, registry, e)
            && (m'.highWater, |m'.seen|) == SimpleNext(m.highWater, |m.seen|, accepted)
  {
  }

  /** The full history decides no more than the high-water mark and the count. */
  lemma {:induction false} AcceptsAsSimple(mac: Mac, v: Session, m: Memory, registry: Registry, events: seq<Event>)
    requires MemoryOk(m)
    ensures Outcomes(mac, v, m, registry, events) == SimpleOutcomes(mac, v, m.highWater, |m.seen|, registry, events)
    decreases |events|
  {
    if events != [] {
      StepsAgree(mac, v, m, registry, events[0]);
      var m' := VerifierStep(mac, v, m, registry, events[0]).0;
      AcceptsAsSimple(mac, v, m', Registered(mac, registry, events[0]), events[1..]);
    }
  }

  lemma {:induction false} AcceptedAbove(mac: Mac, v: Session, h: Option<nat>, count: nat, registry: Registry,
      events: seq<Event>, j: nat)
    requires j < |events| && SimpleOutcomes(mac, v, h, count, registry, events)[j].Some?
    ensures h.Some? ==> SimpleOutcomes(mac, v, h, count, registry, events)[j].value > h.value
    decreases |events|
  {
    if j > 0 {
      var (h', count') := SimpleNext(h, count, SimpleStep(mac, v, h, count, registry, events[0]));
      AcceptedAbove(mac, v, h', count', Registered(mac, registry, events[0]), events[1..], j - 1);
    }
  }

  lemma {:induction false} SimpleIncreases(mac: Mac, v: Session, h: Option<nat>, count: nat, registry: Registry,
      events: seq<Event>, i: nat, j: nat)
    requires i < j < |events|
    requires var r := SimpleOutcomes(mac, v, h, count, registry, events); r[i].Some? && r[j].Some?
    ensures var r := SimpleOutcomes(mac, v, h, count, registry, events); r[i].value < r[j].value
    decreases |events|
  {
    var (h', count') := SimpleNext(h, count, SimpleStep(mac, v, h, count, registry, events[0]));
    if i == 0 {
      AcceptedAbove(mac, v, h', count', Registered(mac, registry, events[0]), events[1..], j - 1);
    } else {
      SimpleIncreases(mac, v, h', count', Registered(mac, registry, events[0]), events[1..], i - 1, j - 1);
    }
  }

  function CountAccepted(r: seq<Option<nat>>): (n: nat)
  {
    if r == [] then 0 else (if r[0].Some? then 1 else 0) + CountAccepted(r[1..])
  }

  lemma {:induction false} SimpleIsBounded(mac: Mac, v: Session, h: Option<nat>, count: nat, registry: Registry,
      events: seq<Event>)
    requires count <= BUDGET
    ensures count + CountAccepted(SimpleOutcomes(mac, v, h, count, registry, events)) <= BUDGET
    decreases |events|
  {
    if events != [] {
      var (h', count') := SimpleNext(h, count, SimpleStep(mac, v, h, count, registry, events[0]));
      SimpleIsBounded(mac, v, h', count', Registered(mac, registry, events[0]), events[1..]);
    }
  }

  /** From a new verifier, whatever commands arrive and secrets come and go: accepted
      numbers strictly increase, so no nonce is accepted twice, and at most the budget
      is accepted. */
  lemma {:induction false} SessionRun(mac: Mac, v: Session, registry: Registry, events: seq<Event>)
    ensures var r := Outcomes(mac, v, Memory({}, None), registry, events);
            && (forall i, j | 0 <= i < j < |r| && r[i].Some? && r[j].Some? :: r[i].value < r[j].value)
            && CountAccepted(r) <= BUDGET
  {
    AcceptsAsSimple(mac, v, Memory({}, None), registry, events);
    var r := SimpleOutcomes(mac, v, None, 0, registry, events);
    forall i, j | 0 <= i < j < |r| && r[i].Some? && r[j].Some? ensures r[i].value < r[j].value {
      SimpleIncreases(mac, v, None, 0, registry, events, i, j);
    }
    SimpleIsBounded(mac, v, None, 0, registry, events);
  }

  // ----- replacement -----

  /** No later secret of this session has the verifier's provisioning digest. */
  predicate FreshSecrets(mac: Mac, v: Session, events: seq<Event>)
  {
    forall i | 0 <= i < |events| ::
      events[i].Mint? && events[i].id == v.id ==> Binding(mac, events[i].secret, v.id) != v.provisioning
  }

  predicate Active(v: Session, registry: Registry) { v.id in registry && registry[v.id] == v.provisioning }

  lemma {:induction false} InactiveAcceptsNothing(mac: Mac, v: Session, m: Memory, registry: Registry,
      events: seq<Event>, j: nat)
    requires !Active(v, registry) && FreshSecrets(mac, v, events) && j < |events|
    ensures Outcomes(mac, v, m, registry, events)[j].None?
    decreases |events|
  {
    if j > 0 {
      var e := events[0];
      InactiveAcceptsNothing(mac, v, m, Registered(mac, registry, e), events[1..], j - 1);
    }
  }

  /** After the session's secret is replaced or withdrawn, the verifier accepts nothing. */
  lemma {:induction false} NothingAfterReplacement(mac: Mac, v: Session, m: Memory, registry: Registry,
      events: seq<Event>, i: nat, j: nat)
    requires ValidSessionId(v.id) && FreshSecrets(mac, v, events) && i < j < |events|
    requires !events[i].Check? && events[i].id == v.id
    ensures Outcomes(mac, v, m, registry, events)[j].None?
    decreases |events|
  {
    var e, rest := events[0], events[1..];
    assert FreshSecrets(mac, v, rest);
    if i == 0 {
      InactiveAcceptsNothing(mac, v, m, Registered(mac, registry, e), rest, j - 1);
    } else {
      var m' := VerifierStep(mac, v, m, registry, e).0;
      NothingAfterReplacement(mac, v, m', Registered(mac, registry, e), rest, i - 1, j - 1);
    }
  }

  // ----- what an acceptance means -----

  /** A number in base ten. */
  function Decimal(n: nat): (s: string)
  {
    if n < 10 then [Digit(n)] else Decimal(n / 10) + [Digit(n % 10)]
  }

  function Digit(d: nat): (c: char)
    requires d < 10
  {
    "0123456789"[d]
  }

  lemma DigitParses(d: nat)
    requires d < 10
    ensures IsDigit(Digit(d)) && (Digit(d) - '0') as nat == d && (d > 0 ==> Digit(d) != '0')
  {
  }

  lemma {:induction false} DecimalParses(n: nat)
    ensures AllDigits(Decimal(n)) && Canonical(Decimal(n)) && ParseDecimal(Decimal(n)) == n
    ensures n > 0 ==> Decimal(n)[0] != '0'
  {
    var s := Decimal(n);
    DigitParses(n % 10);
    if n < 10 {
      assert s[..0] == "";
    } else {
      DecimalParses(n / 10);
      assert s[..|s| - 1] == Decimal(n / 10);
    }
  }

  /** The canonical texts are the numbers printed in base ten. */
  lemma CanonicalIsDecimal(s: string)
    ensures Canonical(s) <==> exists n :: s == Decimal(n)
    ensures Canonical(s) ==> s == Decimal(ParseDecimal(s))
  {
    if Canonical(s) {
      DecimalParses(ParseDecimal(s));
      CanonicalIsUnique(s, Decimal(ParseDecimal(s)));
    }
    if n :| s == Decimal(n) {
      DecimalParses(n);
    }
  }

  /** The event settles which generation of the session is active. */
  predicate Concerns(e: Event, id: string) { !e.Check? && e.id == id }

  /** The verifier's generation is the one registered before the `j`-th event: the last event
      about the session minted it, or there was none and it was there to begin with. */
  ghost predicate GenerationAt(mac: Mac, v: Session, registry: Registry, events: seq<Event>, j: nat)
    requires j <= |events|
  {
    || (exists k | 0 <= k < j :: Minted(mac, v, events[k]) && Undisturbed(v.id, events, k + 1, j))
    || (v.id in registry && registry[v.id] == v.provisioning && Undisturbed(v.id, events, 0, j))
  }

  predicate Minted(mac: Mac, v: Session, e: Event)
  {
    e.Mint? && e.id == v.id && mac(e.secret, "session:" + v.id) == v.provisioning
  }

  predicate Undisturbed(id: string, events: seq<Event>, i: nat, j: nat)
  {
    forall k | i <= k < j && k < |events| :: !Concerns(events[k], id)
  }

  /** The event is a command with number `n` that carries the credential of its own nonce,
      request and session, under an active secret. */
  ghost predicate Authentic(mac: Mac, v: Session, registry: Registry, events: seq<Event>, j: nat, n: nat)
    requires j < |events|
  {
    && events[j].Check?
    && var c := events[j].command;
       && c.nonce == Some(Decimal(n)) && |Decimal(n)| <= 128
       && c.requestId.Some? && 0 < |c.requestId.value| <= 128
       && c.credential == Some(mac(v.secret, v.id + ":" + Decimal(n) + ":" + c.requestId.value))
       && c.credential != Some("")
       && GenerationAt(mac, v, registry, events, j)
  }

  function RegistryAt(mac: Mac, registry: Registry, events: seq<Event>): (r: Registry)
  {
    if events == [] then registry
    else Registered(mac, RegistryAt(mac, registry, events[..|events| - 1]), events[|events| - 1])
  }

  lemma {:induction false} GenerationIsRegistered(mac: Mac, v: Session, registry: Registry, events: seq<Event>, j: nat)
    requires j <= |events| && ValidSessionId(v.id)
    ensures Active(v, RegistryAt(mac, registry, events[..j])) <==> GenerationAt(mac, v, registry, events, j)
  {
    if j > 0 {
      var e := events[j - 1];
      GenerationIsRegistered(mac, v, registry, events, j - 1);
      assert events[..j][..j - 1] == events[..j - 1];
      if Concerns(e, v.id) {
        assert GenerationAt(mac, v, registry, events, j) <==> Minted(mac, v, e);
      } else {
        GenerationStays(mac, v, registry, events, j);
      }
    }
  }

  /** An event about something else leaves the generation as it is. */
  lemma GenerationStays(mac: Mac, v: Session, registry: Registry, events: seq<Event>, j: nat)
    requires 0 < j <= |events| && !Concerns(events[j - 1], v.id)
    ensures GenerationAt(mac, v, registry, events, j) <==> GenerationAt(mac, v, registry, events, j - 1)
  {
    if GenerationAt(mac, v, registry, events, j - 1) && !Undisturbed(v.id, events, 0, j - 1) {
      var k :| 0 <= k < j - 1 && Minted(mac, v, events[k]) && Undisturbed(v.id, events, k + 1, j - 1);
      assert Undisturbed(v.id, events, k + 1, j);
    }
  }

  lemma {:induction false} RegistryFromFront(mac: Mac, registry: Registry, e: Event, events: seq<Event>)
    ensures RegistryAt(mac, registry, [e] + events) == RegistryAt(mac, Registered(mac, registry, e), events)
  {
    var all := [e] + events;
    if events == [] {
      assert all[..0] == [];
    } else {
      assert all[..|all| - 1] == [e] + events[..|events| - 1];
      RegistryFromFront(mac, registry, e, events[..|events| - 1]);
    }
  }

  /** The last accepted number, `h` before any. */
  function HighWater(h: Option<nat>, r: seq<Option<nat>>): (top: Option<nat>)
    decreases |r|
  {
    if r == [] then h else HighWater(if r[0].Some? then r[0] else h, r[1..])
  }

  /** Each outcome is that of the simple verifier on what came before. */
  lemma {:induction false} OutcomeAt(mac: Mac, v: Session, h: Option<nat>, count: nat, registry: Registry,
      events: seq<Event>, j: nat)
    requires j < |events|
    ensures var r := SimpleOutcomes(mac, v, h, count, registry, events);
            r[j] == SimpleStep(mac, v, HighWater(h, r[..j]), count + CountAccepted(r[..j]),
                               RegistryAt(mac, registry, events[..j]), events[j])
    decreases |events|
  {
    var r := SimpleOutcomes(mac, v, h, count, registry, events);
    if j > 0 {
      var (h', count') := SimpleNext(h, count, r[0]);
      OutcomeAt(mac, v, h', count', Registered(mac, registry, events[0]), events[1..], j - 1);
      RegistryFromFront(mac, registry, events[0], events[1..j]);
      assert events[..j] == [events[0]] + events[1..j] && events[1..][..j - 1] == events[1..j];
      assert r[..j][1..] == r[1..][..j - 1];
    }
  }

  ghost predicate Rising(r: seq<Option<nat>>)
  {
    forall i, j | 0 <= i < j < |r| && r[i].Some? && r[j].Some? :: r[i].value < r[j].value
  }

  predicate AllBelow(r: seq<Option<nat>>, n: nat) { forall i | 0 <= i < |r| && r[i].Some? :: r[i].value < n }

  lemma RisingPart(r: seq<Option<nat>>, i: nat, j: nat)
    requires Rising(r) && i <= j <= |r|
    ensures Rising(r[i..j])
  {
  }

  /** Being above a rising list of numbers is being above its last. */
  lemma {:induction false} AboveAll(h: Option<nat>, r: seq<Option<nat>>, n: nat)
    requires Rising(r) && (h.Some? ==> forall i | 0 <= i < |r| && r[i].Some? :: h.value < r[i].value)
    ensures (HighWater(h, r).Some? ==> n > HighWater(h, r).value) <==> (h.Some? ==> n > h.value) && AllBelow(r, n)
    decreases |r|
  {
    if r != [] {
      var rest := r[1..];
      RisingPart(r, 1, |r|);
      assert r[1..|r|] == rest;
      assert forall i | 0 <= i < |rest| && rest[i].Some? :: rest[i] == r[i + 1];
      AboveAll(if r[0].Some? then r[0] else h, rest, n);
      BelowFirst(r, n);
    }
  }

  lemma BelowFirst(r: seq<Option<nat>>, n: nat)
    requires r != []
    ensures AllBelow(r, n) <==> (r[0].Some? ==> r[0].value < n) && AllBelow(r[1..], n)
  {
    assert forall i | 0 < i < |r| :: r[i] == r[1..][i - 1];
  }

  /** A new verifier accepts exactly the authentic commands whose number is above all it
      accepted before, as long as those were fewer than 1024. */
  lemma {:induction false} AcceptedExactlyWhen(
      mac: Mac, v: Session, registry: Registry, events: seq<Event>, j: nat, n: nat)
    requires j < |events| && ValidSessionId(v.id)
    ensures var r := Outcomes(mac, v, Memory({}, None), registry, events);
            r[j] == Some(n) <==>
              && Authentic(mac, v, registry, events, j, n)
              && AllBelow(r[..j], n) && CountAccepted(r[..j]) < 1024
  {
    var r := Outcomes(mac, v, Memory({}, None), registry, events);
    SessionRun(mac, v, registry, events);
    RisingPart(r, 0, j);
    assert r[0..j] == r[..j];
    AcceptsAsSimple(mac, v, Memory({}, None), registry, events);
    OutcomeAt(mac, v, None, 0, registry, events, j);
    AboveAll(None, r[..j], n);
    StepMeans(mac, v, HighWater(None, r[..j]), CountAccepted(r[..j]), registry, events, j, n);
  }

  /** The simple verifier accepts exactly the authentic commands above its mark. */
  lemma StepMeans(mac: Mac, v: Session, h: Option<nat>, count: nat, registry: Registry, events: seq<Event>, j: nat,
      n: nat)
    requires j < |events| && ValidSessionId(v.id)
    ensures SimpleStep(mac, v, h, count, RegistryAt(mac, registry, events[..j]), events[j]) == Some(n) <==>
              Authentic(mac, v, registry, events, j, n) && (h.Some? ==> n > h.value) && count < 1024
  {
    FormMeans(mac, v, registry, events, j, n);
  }

  /** The checks on a command's form pass exactly when it is authentic under its number. */
  lemma FormMeans(mac: Mac, v: Session, registry: Registry, events: seq<Event>, j: nat, n: nat)
    requires j < |events| && ValidSessionId(v.id)
    ensures Authentic(mac, v, registry, events, j, n) <==>
              && events[j].Check?
              && CheckForm(mac, v, RegistryAt(mac, registry, events[..j]), events[j].command).None?
              && ParseDecimal(events[j].command.nonce.value) == n
  {
    GenerationIsRegistered(mac, v, registry, events, j);
    DecimalParses(n);
    if events[j].Check? && events[j].command.nonce.Some? {
      CanonicalIsDecimal(events[j].command.nonce.value);
    }
  }

  /** After any events a verifier can be opened exactly for a secret long enough, bound to its
      own session, whose generation is the one registered. */
  lemma OpensExactlyWhen(mac: Mac, v: Session, registry: Registry, events: seq<Event>)
    requires ValidSessionId(v.id)
    ensures Opens(mac, v, RegistryAt(mac, registry, events)) <==>
              && |v.secret| >= 32 && v.provisioning == mac(v.secret, "session:" + v.id)
              && GenerationAt(mac, v, registry, events, |events|)
  {
    GenerationIsRegistered(mac, v, registry, events, |events|);
    assert events[..|events|] == events;
  }

  // ----- captured credentials -----

  /** No two inputs have the same code. */
  ghost predicate Injective(mac: Mac)
  {
    forall k, m, k', m' :: mac(k, m) == mac(k', m') ==> k == k' && m == m'
  }

  /** Fields joined by a character that the first does not hold can be told apart. */
  lemma FirstField(a: string, x: string, b: string, y: string)
    requires ':' !in a && ':' !in b && a + ":" + x == b + ":" + y
    ensures a == b && x == y
  {
    var s := a + ":" + x;
    assert s[|a|] == ':' && s[|b|] == ':';
    assert forall i | 0 <= i < |a| :: s[i] == a[i];
    assert forall i | 0 <= i < |b| :: s[i] == b[i];
    assert |a| == |b|;
    assert a == s[..|a|] && b == s[..|a|] && x == s[|a| + 1..] && y == s[|a| + 1..];
  }

  lemma DigitsHoldNoColon(s: string)
    requires AllDigits(s) || ValidSessionId(s)
    ensures ':' !in s
  {
  }

  /** With an injective code, a credential accepted anywhere is accepted for no other nonce,
      request, session or secret: a captured command passes on no other session. */
  lemma CredentialsAreUnique(mac: Mac, v: Session, registry: Registry, events: seq<Event>, i: nat, n: nat,
      w: Session, registry': Registry, events': seq<Event>, j: nat, k: nat)
    requires Injective(mac) && i < |events| && j < |events'| && ValidSessionId(v.id) && ValidSessionId(w.id)
    requires Outcomes(mac, v, Memory({}, None), registry, events)[i] == Some(n)
    requires Outcomes(mac, w, Memory({}, None), registry', events')[j] == Some(k)
    requires events[i].Check? && events'[j].Check? && events[i].command.credential == events'[j].command.credential
    ensures n == k && v.id == w.id && v.secret == w.secret
    ensures events[i].command.requestId == events'[j].command.requestId
  {
    AcceptedExactlyWhen(mac, v, registry, events, i, n);
    AcceptedExactlyWhen(mac, w, registry', events', j, k);
    SameMessage(v.id, n, events[i].command.requestId.value, w.id, k, events'[j].command.requestId.value);
  }

  lemma SameMessage(id: string, n: nat, r: string, id': string, n': nat, r': string)
    requires ValidSessionId(id) && ValidSessionId(id')
    requires id + ":" + Decimal(n) + ":" + r == id' + ":" + Decimal(n') + ":" + r'
    ensures id == id' && n == n' && r == r'
  {
    var a, b := Decimal(n), Decimal(n');
    DecimalParses(n);
    DecimalParses(n');
    assert id + ":" + a + ":" + r == id + ":" + (a + ":" + r);
    assert id' + ":" + b + ":" + r' == id' + ":" + (b + ":" + r');
    DigitsHoldNoColon(id);
    DigitsHoldNoColon(id');
    DigitsHoldNoColon(a);
    DigitsHoldNoColon(b);
    FirstField(id, a + ":" + r, id', b + ":" + r');
    FirstField(a, r, b, r');
  }
}
