/** The host controller: launch one worker, take its frames, and issue a receipt only when
    the guest's result, the guest's receipt and the worker's exit status all agree. */
module HostControl {
  import opened Options
  import opened Utf8
  import opened Cbor
  import opened Supervision

  const OUTPUT_LIMIT: nat := 4 * 1024 * 1024
  const GUEST_SCHEMA := "testudo.guest.receipt.v1"

  type Payload = map<string, Value>

  /** What a float is to a comparison: nothing equals NaN, and a whole number equals that
      integer. */
  datatype Meaning = NotANumber | Whole(number: int) | Fractional

  /** The hash of a payload's canonical text, and the reading of a float's eight bytes. */
  datatype Env = Env(digest: Payload -> string, floats: Double -> Meaning)

  /** JSON has no text for byte strings. */
  predicate Writable(v: Value)
  {
    match v
    case Bytes(_) => false
    case List(items) => forall i | 0 <= i < |items| :: Writable(items[i])
    case Map(entries) => forall k | k in entries :: Writable(entries[k])
    case _ => true
  }

  /** `_sha256`, which raises for a payload that cannot be written. */
  function Hash(env: Env, p: Payload): (h: Option<string>)
  {
    if Writable(Map(p)) then Some(env.digest(p)) else None
  }

  datatype Identity = Identity(runId: string, tokenId: string, nonce: string)

  datatype Kind = OnStdout | OnStderr | OnReceipt | OnResult | OnError | OnOther

  datatype Message = Message(kind: Kind, sequence: nat, payload: Payload)

  /** One pass of the receive loop: an operator stop before it, the clock for the token,
      the deadline, and the frame, if the broker did not raise. */
  datatype Arrival = Arrival(stopped: bool, now: real, late: bool, message: Option<Message>)

  datatype Output = Output(stdout: string, stderr: string)

  /** Everything a launched worker does. */
  datatype Worker = Worker(
    token: Token, bootstraps: bool, starts: bool, arrivals: seq<Arrival>,
    checkedAt: real, stoppedBeforeWait: bool, polls: seq<Poll>, collected: Option<Output>, closes: bool)

  datatype HostReceipt = HostReceipt(
    id: Identity, success: bool, exitStatus: int, resultHash: string, guest: Payload, receiptId: string)

  datatype Body =
    | Transport(phase: string)
    | Chunk(error: bool, text: string, frame: nat)
    | Summary(exitStatus: int)
    | Receipt(receipt: HostReceipt)
    | Supervisor(reason: string)
    | Revoked(reason: string)
    | Wiped(reason: string)

  datatype Event = Event(runId: string, tokenId: string, sequence: nat, body: Body)

  datatype RunResult = RunResult(exitStatus: int, stdout: string, stderr: string)

  datatype Outcome = Refused | Raised | Returned(result: RunResult)

  function Get(p: Payload, key: string): (v: Option<Value>)
  {
    if key in p && p[key] != Null then Some(p[key]) else None
  }

  // ----- admission and agreement -----

  predicate Admissible(id: Identity, contract: Payload)
  {
    && id.runId != "" && id.tokenId != "" && id.nonce != ""
    && Get(contract, "run_id") == Some(Text(id.runId)) && Get(contract, "token_id") == Some(Text(id.tokenId))
    && Get(contract, "nonce") == Some(Text(id.nonce))
  }

  predicate HexDigit(c: char) { '0' <= c <= '9' || 'a' <= c <= 'f' || 'A' <= c <= 'F' }

  predicate IsSha256(s: string) { |s| == 64 && forall i | 0 <= i < |s| :: HexDigit(s[i]) }

  /** The integer a value compares as, if any: booleans are 0 and 1. */
  function AsNumber(env: Env, v: Value): (n: Option<int>)
  {
    match v
    case Bool(b) => Some(if b then 1 else 0)
    case Int(n) => Some(n)
    case Float(bits) => if env.floats(bits).Whole? then Some(env.floats(bits).number) else None
    case _ => None
  }

  /** Python's `==` on decoded values: `1`, `1.0` and `True` are equal, at any depth. */
  predicate Equal(env: Env, v: Value, w: Value)
  {
    match v
    case List(xs) => w.List? && |xs| == |w.items| && forall i | 0 <= i < |xs| :: Equal(env, xs[i], w.items[i])
    case Map(m) => w.Map? && m.Keys == w.entries.Keys && forall k | k in m :: Equal(env, m[k], w.entries[k])
    case _ =>
      if AsNumber(env, v).Some? || AsNumber(env, w).Some? then AsNumber(env, v) == AsNumber(env, w)
      else v == w && (v.Float? ==> !env.floats(v.bits).NotANumber?)
  }

  /** The two values have the same kinds at the same places, and the same bytes for floats. */
  predicate Alike(v: Value, w: Value)
  {
    match v
    case List(xs) => w.List? && |xs| == |w.items| && forall i | 0 <= i < |xs| :: Alike(xs[i], w.items[i])
    case Map(m) => w.Map? && m.Keys == w.entries.Keys && forall k | k in m :: Alike(m[k], w.entries[k])
    case Null => w.Null?
    case Bool(_) => w.Bool?
    case Int(_) => w.Int?
    case Bytes(_) => w.Bytes?
    case Text(_) => w.Text?
    case Float(_) => v == w
  }

  /** Equal values are identical exactly when they are alike. */
  lemma {:induction false} EqualIsIdentity(env: Env, v: Value, w: Value)
    requires Equal(env, v, w)
    ensures v == w <==> Alike(v, w)
    decreases v
  {
    match v
    case List(xs) =>
      forall i | 0 <= i < |xs| ensures xs[i] == w.items[i] <==> Alike(xs[i], w.items[i]) {
        EqualIsIdentity(env, xs[i], w.items[i]);
      }
    case Map(m) =>
      forall k | k in m ensures m[k] == w.entries[k] <==> Alike(m[k], w.entries[k]) {
        EqualIsIdentity(env, m[k], w.entries[k]);
      }
      if Alike(v, w) {
        assert m == w.entries;
      }
    case _ =>
  }

  /** What the contract's containment must come back as. */
  function ExpectedContainment(c: Value): (v: Value)
    requires c.Map?
  {
    Map(c.entries["monitor_active" := Bool(true)])
  }

  predicate ContainmentAgrees(env: Env, receipt: Payload, contract: Payload)
  {
    match Get(contract, "containment")
    case None => "containment" !in receipt
    case Some(c) => c.Map? && "containment" in receipt && Equal(env, receipt["containment"], ExpectedContainment(c))
  }

  /** A guest may answer `1` for `True`: the receipt agrees without being identical. */
  lemma ContainmentNeedNotBeIdentical(env: Env)
    ensures var answer, asked := Map(map["monitor_active" := Int(1)]), Map(map[]);
            && ContainmentAgrees(env, map["containment" := answer], map["containment" := asked])
            && answer != ExpectedContainment(asked)
  {
    var answer := Map(map["monitor_active" := Int(1)]);
    assert answer.entries["monitor_active"] == Int(1);
    assert ExpectedContainment(Map(map[])).entries["monitor_active"] == Bool(true);
  }

  /** An agreeing containment is identical to the expected one exactly when it is alike. */
  lemma ContainmentIsIdenticalWhenAlike(env: Env, receipt: Payload, contract: Payload)
    requires ContainmentAgrees(env, receipt, contract) && Get(contract, "containment").Some?
    ensures var expected := ExpectedContainment(Get(contract, "containment").value);
            receipt["containment"] == expected <==> Alike(receipt["containment"], expected)
  {
    EqualIsIdentity(env, receipt["containment"], ExpectedContainment(Get(contract, "containment").value));
  }

  /** `_validate_guest_receipt`. */
  predicate GuestReceiptAgrees(env: Env, receipt: Payload, id: Identity, resultHash: string, contract: Payload)
  {
    && Get(receipt, "schema") == Some(Text(GUEST_SCHEMA))
    && Get(receipt, "run_id") == Some(Text(id.runId)) && Get(receipt, "token_id") == Some(Text(id.tokenId))
    && Get(receipt, "nonce") == Some(Text(id.nonce)) && Get(receipt, "result_sha256") == Some(Text(resultHash))
    && ContainmentAgrees(env, receipt, contract)
    && var d := Get(receipt, "artifact_digest"); d.Some? && d.value.Text? && IsSha256(d.value.text)
  }

  /** The result carries its own hash, computed over everything else. */
  predicate ResultAgrees(env: Env, result: Payload, resultHash: string, exitStatus: int)
  {
    && Hash(env, result - {"result_sha256"}) == Some(resultHash)
    && Get(result, "result_sha256") == Some(Text(resultHash))
    && Get(result, "exit_status") == Some(Int(exitStatus))
  }

  /** The hash and exit status that result and receipt agree on. */
  function AgreedOn(env: Env, id: Identity, contract: Payload, result: Payload,
      receipt: Option<Payload>): (r: Option<(string, int)>)
    ensures r.Some? ==>
              && receipt.Some? && ResultAgrees(env, result, r.value.0, r.value.1)
              && GuestReceiptAgrees(env, receipt.value, id, r.value.0, contract)
  {
    var h, status := Hash(env, result - {"result_sha256"}), Get(result, "exit_status");
    if h.Some? && status.Some? && status.value.Int? && receipt.Some?
        && ResultAgrees(env, result, h.value, status.value.number)
       && GuestReceiptAgrees(env, receipt.value, id, h.value, contract)
    then Some((h.value, status.value.number))
    else None
  }

  /** Nothing is refused that agrees on any hash and exit status. */
  lemma AgreementIsFound(
      env: Env, id: Identity, contract: Payload, result: Payload, receipt: Payload, h: string, status: int)
    requires ResultAgrees(env, result, h, status) && GuestReceiptAgrees(env, receipt, id, h, contract)
    ensures AgreedOn(env, id, contract, result, Some(receipt)) == Some((h, status))
  {
  }

  // ----- what arrived -----

  function Texts(arrivals: seq<Arrival>, kind: Kind): (text: string)
  {
    if arrivals == [] then ""
    else
      var n := |arrivals| - 1;
      Texts(arrivals[..n], kind) + ChunkOf(arrivals[n], kind)
  }

  function ChunkOf(a: Arrival, kind: Kind): (text: string)
  {
    if a.message.Some? && a.message.value.kind == kind then ChunkText(a.message.value) else ""
  }

  function ChunkText(m: Message): (text: string)
  {
    var c := Get(m.payload, "chunk");
    if c.Some? && c.value.Text? then c.value.text else ""
  }

  function GuestReceipts(arrivals: seq<Arrival>): (rs: seq<Payload>)
  {
    if arrivals == [] then []
    else
      var n := |arrivals| - 1;
      GuestReceipts(arrivals[..n]) + ReceiptOf(arrivals[n])
  }

  function ReceiptOf(a: Arrival): (rs: seq<Payload>)
  {
    if a.message.Some? && a.message.value.kind.OnReceipt? then [a.message.value.payload] else []
  }

  /** A frame that keeps the loop going. */
  predicate Ordinary(token: Token, a: Arrival)
  {
    InForce(token, a.now) && !a.late && a.message.Some? && a.message.value.kind !in {OnResult, OnError}
  }

  predicate ResultAt(token: Token, arrivals: seq<Arrival>, n: nat)
  {
    && n < |arrivals| && InForce(token, arrivals[n].now) && !arrivals[n].late
    && arrivals[n].message.Some? && arrivals[n].message.value.kind.OnResult?
    && AllOrdinary(token, arrivals[..n])
  }

  predicate AllOrdinary(token: Token, arrivals: seq<Arrival>)
  {
    forall i | 0 <= i < |arrivals| :: Ordinary(token, arrivals[i])
  }

  lemma OrdinaryGrows(token: Token, arrivals: seq<Arrival>, n: nat)
    requires n < |arrivals| && AllOrdinary(token, arrivals[..n]) && Ordinary(token, arrivals[n])
    ensures AllOrdinary(token, arrivals[..n + 1])
  {
    assert arrivals[..n + 1] == arrivals[..n] + [arrivals[n]];
  }

  ghost predicate Observed(w: Worker, status: int)
  {
    exists k | 0 <= k < |w.polls| :: w.polls[k].status == Some(status) && InForce(w.token, w.polls[k].now)
  }

  /** What the guest sent, and what it was checked against. */
  ghost predicate Vouched(env: Env, id: Identity, contract: Payload, w: Worker, n: nat, receipt: HostReceipt)
  {
    && ResultAt(w.token, w.arrivals, n) && GuestReceipts(w.arrivals[..n]) == [receipt.guest]
    && ResultAgrees(env, w.arrivals[n].message.value.payload, receipt.resultHash, receipt.exitStatus)
    && GuestReceiptAgrees(env, receipt.guest, id, receipt.resultHash, contract)
    && receipt.id == id && (receipt.success <==> receipt.exitStatus == 0)
  }

  /** What a host receipt is hashed over: all of it, the guest's receipt included. */
  function ReceiptPayload(r: HostReceipt): (p: Payload)
  {
    map["schema" := Text("testudo.host.receipt.v1"), "run_id" := Text(r.id.runId), "token_id" := Text(r.id.tokenId),
        "nonce" := Text(r.id.nonce), "status" := Text(if r.success then "success" else "failed"),
        "exit_status" := Int(r.exitStatus), "result_sha256" := Text(r.resultHash), "guest_receipt" := Map(r.guest)]
  }

  /** The checks of `HostReceipt.__post_init__` on a receipt made by the controller. */
  predicate Issuable(env: Env, r: HostReceipt)
  {
    IsSha256(r.resultHash) && Hash(env, ReceiptPayload(r)) == Some(r.receiptId)
  }

  /** The receipt the controller makes; it has an id if it can be written. */
  function ReceiptFor(env: Env, id: Identity, agreed: (string, int), guest: Payload): (r: HostReceipt)
  {
    var draft := HostReceipt(id, agreed.1 == 0, agreed.1, agreed.0, guest, "");
    var h := Hash(env, ReceiptPayload(draft));
    draft.(receiptId := if h.Some? then h.value else "")
  }

  /** A host receipt can be issued exactly when its hash is one and the guest's receipt can be
      written. */
  lemma IssuableWhenWritable(env: Env, id: Identity, agreed: (string, int), guest: Payload)
    ensures Issuable(env, ReceiptFor(env, id, agreed, guest)) <==> IsSha256(agreed.0) && Writable(Map(guest))
  {
    var r := ReceiptFor(env, id, agreed, guest);
    var p := ReceiptPayload(r);
    assert p["guest_receipt"] == Map(guest);
    assert ReceiptPayload(r.(receiptId := "")) == p;
    assert Writable(Map(p)) <==> Writable(Map(guest)) by {
      assert forall k | k in p && k != "guest_receipt" :: p[k].Text? || p[k].Int?;
    }
  }

  /** The checks on a guest's receipt look at named fields only: one that agrees still does with
      a byte string beside them, and then no host receipt can be issued for it. */
  lemma BytesPassTheChecksAndStopTheReceipt(
      env: Env, id: Identity, contract: Payload, agreed: (string, int), guest: Payload)
    requires GuestReceiptAgrees(env, guest, id, agreed.0, contract)
    ensures var odd := guest["extra" := Bytes([0])];
            GuestReceiptAgrees(env, odd, id, agreed.0, contract) && !Issuable(env, ReceiptFor(env, id, agreed, odd))
  {
    var odd := guest["extra" := Bytes([0])];
    assert forall k | k != "extra" :: Get(odd, k) == Get(guest, k);
    assert odd["extra"].Bytes?;
    IssuableWhenWritable(env, id, agreed, odd);
  }

  /** Everything a host receipt vouches for. */
  ghost predicate Agreement(env: Env, id: Identity, contract: Payload, w: Worker, n: nat, receipt: HostReceipt)
  {
    Vouched(env, id, contract, w, n, receipt) && Observed(w, receipt.exitStatus) && Issuable(env, receipt)
  }

  /** Output so far, with the sizes of its UTF-8 encodings. */
  datatype Captured = Captured(stdout: string, stderr: string, stdoutBytes: nat, stderrBytes: nat)

  datatype Turn = Failed | Finished | Continue(captured: Captured, receipt: Option<Payload>)

  /** What one frame does to the receive loop. */
  function TurnOf(c: Captured, receipt: Option<Payload>, m: Message): (turn: Turn)
  {
    if m.kind.OnStdout? || m.kind.OnStderr? then
      var chunk := Get(m.payload, "chunk");
      if chunk.None? || !chunk.value.Text? then Failed
      else
        var text, size := chunk.value.text, |EncodeString(chunk.value.text)|;
        if m.kind.OnStderr? then
          if c.stderrBytes + size > OUTPUT_LIMIT then Failed
          else Continue(c.(stderr := c.stderr + text, stderrBytes := c.stderrBytes + size), receipt)
        else if c.stdoutBytes + size > OUTPUT_LIMIT then Failed
        else Continue(c.(stdout := c.stdout + text, stdoutBytes := c.stdoutBytes + size), receipt)
    else if m.kind.OnReceipt? then if receipt.Some? then Failed else Continue(c, Some(m.payload))
    else if m.kind.OnResult? then Finished
    else if m.kind.OnError? then Failed
    else Continue(c, receipt)
  }

  /** One pass of the receive loop. */
  function PassOf(token: Token, a: Arrival, c: Captured, receipt: Option<Payload>): (turn: Turn)
  {
    if !InForce(token, a.now) || a.late || a.message.None? then Failed else TurnOf(c, receipt, a.message.value)
  }

  /** The whole receive loop from the `n`-th frame on: what was kept when the result came. */
  function Received(token: Token, arrivals: seq<Arrival>, n: nat, c: Captured,
      receipt: Option<Payload>): (r: Option<(Captured, Option<Payload>, nat)>)
    requires n <= |arrivals|
    ensures r.Some? ==> n <= r.value.2 < |arrivals|
    decreases |arrivals| - n
  {
    if n == |arrivals| then None
    else
      match PassOf(token, arrivals[n], c, receipt)
      case Failed => None
      case Finished => Some((c, receipt, n))
      case Continue(c', receipt') => Received(token, arrivals, n + 1, c', receipt')
  }

  const NOTHING: Captured := Captured("", "", 0, 0)

  /** The worker does everything a run needs: frames up to a result that its receipt agrees
      with, an exit with the reported status, and a close that does not raise. */
  predicate Sound(env: Env, id: Identity, contract: Payload, w: Worker)
  {
    && w.bootstraps && w.starts && w.closes && InForce(w.token, w.checkedAt) && w.collected.Some?
    && var got := Received(w.token, w.arrivals, 0, NOTHING, None);
    && got.Some? && w.arrivals[got.value.2].message.Some?
    && var agreed := AgreedOn(env, id, contract, w.arrivals[got.value.2].message.value.payload, got.value.1);
       agreed.Some? && Confirmed(env, w, ReceiptFor(env, id, agreed.value, got.value.1.value))
  }

  /** The receipt can be issued, and the worker exits with the status in it. */
  predicate Confirmed(env: Env, w: Worker, receipt: HostReceipt)
  {
    Issuable(env, receipt) && EndingOf(w.token, w.polls) == Exited(receipt.exitStatus)
  }

  predicate Counted(c: Captured)
  {
    c.stdoutBytes == |EncodeString(c.stdout)| <= OUTPUT_LIMIT
        && c.stderrBytes == |EncodeString(c.stderr)| <= OUTPUT_LIMIT
  }

  /** What these frames carried, with at most one receipt among them. */
  ghost predicate Carried(arrivals: seq<Arrival>, c: Captured, receipt: Option<Payload>)
  {
    && Counted(c) && c.stdout == Texts(arrivals, OnStdout) && c.stderr == Texts(arrivals, OnStderr)
    && GuestReceipts(arrivals) == if receipt.Some? then [receipt.value] else []
  }

  /** One more frame adds its chunk to its stream, or its payload to the receipts. */
  lemma TextsGrow(arrivals: seq<Arrival>, n: nat)
    requires n < |arrivals|
    ensures Texts(arrivals[..n + 1], OnStdout) == Texts(arrivals[..n], OnStdout) + ChunkOf(arrivals[n], OnStdout)
    ensures Texts(arrivals[..n + 1], OnStderr) == Texts(arrivals[..n], OnStderr) + ChunkOf(arrivals[n], OnStderr)
    ensures GuestReceipts(arrivals[..n + 1]) == GuestReceipts(arrivals[..n]) + ReceiptOf(arrivals[n])
  {
    assert arrivals[..n + 1][..n] == arrivals[..n];
  }

  lemma {:induction false} SizesAdd(c: Captured, text: string)
    requires Counted(c)
    ensures c.stdoutBytes + |EncodeString(text)| == |EncodeString(c.stdout + text)|
    ensures c.stderrBytes + |EncodeString(text)| == |EncodeString(c.stderr + text)|
  {
    EncodeAppend(c.stdout, text);
    EncodeAppend(c.stderr, text);
  }

  lemma TurnCounts(c: Captured, receipt: Option<Payload>, m: Message)
    requires Counted(c) && TurnOf(c, receipt, m).Continue?
    ensures Counted(TurnOf(c, receipt, m).captured)
  {
    SizesAdd(c, ChunkText(m));
  }

  /** One more frame keeps what was carried. */
  lemma TurnCarries(arrivals: seq<Arrival>, n: nat, c: Captured, receipt: Option<Payload>)
    requires n < |arrivals| && arrivals[n].message.Some? && Carried(arrivals[..n], c, receipt)
    requires TurnOf(c, receipt, arrivals[n].message.value).Continue?
    ensures var turn := TurnOf(c, receipt, arrivals[n].message.value);
            Carried(arrivals[..n + 1], turn.captured, turn.receipt)
                && arrivals[n].message.value.kind !in {OnResult, OnError}
  {
    TextsGrow(arrivals, n);
    TurnCounts(c, receipt, arrivals[n].message.value);
  }

  /** What the loop keeps is what the frames before the result carried. */
  lemma {:induction false} ReceivedIsCarried(token: Token, arrivals: seq<Arrival>, n: nat, c: Captured,
      receipt: Option<Payload>)
    requires n <= |arrivals| && AllOrdinary(token, arrivals[..n]) && Carried(arrivals[..n], c, receipt)
    requires Received(token, arrivals, n, c, receipt).Some?
    ensures var (c', receipt', at) := Received(token, arrivals, n, c, receipt).value;
            ResultAt(token, arrivals, at) && Carried(arrivals[..at], c', receipt')
    decreases |arrivals| - n
  {
    var turn := PassOf(token, arrivals[n], c, receipt);
    if turn.Continue? {
      TurnCarries(arrivals, n, c, receipt);
      OrdinaryGrows(token, arrivals, n);
      ReceivedIsCarried(token, arrivals, n + 1, turn.captured, turn.receipt);
    }
  }

  // ----- what was reported -----

  predicate Numbered(events: seq<Event>)
  {
    forall i | 0 <= i < |events| :: events[i].sequence == i
  }

  datatype Tally = Tally(stdout: string, stderr: string, receipts: seq<HostReceipt>)

  function Add(t: Tally, body: Body): (r: Tally)
  {
    match body
    case Chunk(error, text, _) => if error then t.(stderr := t.stderr + text) else t.(stdout := t.stdout + text)
    case Receipt(receipt) => t.(receipts := t.receipts + [receipt])
    case _ => t
  }

  /** The output and the receipts of an event log. */
  function TallyOf(events: seq<Event>): (t: Tally)
  {
    if events == [] then Tally("", "", [])
    else Add(TallyOf(events[..|events| - 1]), events[|events| - 1].body)
  }

  lemma {:induction false} TallyAppend(events: seq<Event>, e: Event)
    ensures TallyOf(events + [e]) == Add(TallyOf(events), e.body)
  {
    assert (events + [e])[..|events|] == events;
  }

  /** What was reported, in order. */
  function Bodies(events: seq<Event>): (bodies: seq<Body>)
    ensures |bodies| == |events|
  {
    seq(|events|, i requires 0 <= i < |events| => events[i].body)
  }

  lemma BodiesAppend(events: seq<Event>, e: Event)
    ensures Bodies(events + [e]) == Bodies(events) + [e.body]
  {
  }

  /** The chunks of these frames, as they are reported. */
  function Chunks(arrivals: seq<Arrival>): (bodies: seq<Body>)
  {
    if arrivals == [] then []
    else
      var n := |arrivals| - 1;
      Chunks(arrivals[..n]) + ChunkEvents(arrivals[n])
  }

  function ChunkEvents(a: Arrival): (bodies: seq<Body>)
  {
    if a.message.Some? && (a.message.value.kind.OnStdout? || a.message.value.kind.OnStderr?) then
      [Chunk(a.message.value.kind.OnStderr?, ChunkText(a.message.value), a.message.value.sequence)]
    else []
  }

  lemma ChunksGrow(arrivals: seq<Arrival>, n: nat)
    requires n < |arrivals|
    ensures Chunks(arrivals[..n + 1]) == Chunks(arrivals[..n]) + ChunkEvents(arrivals[n])
  {
    assert arrivals[..n + 1][..n] == arrivals[..n];
  }

  const OPENING: seq<Body> := [Transport("bootstrap"), Transport("ready"), Transport("run")]

  /** A stop, a revocation and a wipe, for one reason. */
  function Closing(reason: string): (bodies: seq<Body>) { [Supervisor(reason), Revoked(reason), Wiped(reason)] }

  /** What is reported with a receipt. */
  function Issuing(receipt: HostReceipt): (bodies: seq<Body>)
  {
    [Summary(receipt.exitStatus), Receipt(receipt)] + Closing("worker_exit")
  }

  class HostController {
    const env: Env
    /** Whether the operator stops the run on seeing its `n`-th event. */
    const stopsAt: nat -> bool
    var active: WorkerLifecycle?
    var activeRun: Identity
    var stopCalled: bool
    var sequence: nat
    ghost var events: seq<Event>

    constructor (env: Env, stopsAt: nat -> bool)
      ensures active == null && Logged() && this.env == env && this.stopsAt == stopsAt
    {
      this.env, this.stopsAt, active, activeRun := env, stopsAt, null, Identity("", "", "");
      stopCalled, sequence, events := false, 0, [];
    }

    ghost predicate Logged()
      reads this
    {
      && sequence == |events| && Numbered(events)
      && forall i | 0 <= i < |events| :: events[i].runId == activeRun.runId
    }

    /** The operator stops this run at no event. */
    ghost predicate Calm() { forall n :: !stopsAt(n) }

    /** Nor at any other point of the worker's run. */
    ghost predicate Undisturbed(w: Worker)
    {
      Calm() && !w.stoppedBeforeWait && forall i | 0 <= i < |w.arrivals| :: !w.arrivals[i].stopped
    }

    /** `_emit`. The sink may call `Stop`. */
    method Emit(lifecycle: WorkerLifecycle, tokenId: string, body: Body)
      requires active == lifecycle && lifecycle.Valid() && Logged()
      modifies this`stopCalled, this`sequence, this`events, lifecycle
      ensures lifecycle.Valid() && Logged()
      ensures TallyOf(events) == Add(TallyOf(old(events)), body)
      ensures Calm() ==> Bodies(events) == Bodies(old(events)) + [body]
      ensures old(lifecycle.closed) ==> lifecycle.closed
      ensures stopCalled ==> old(stopCalled) || lifecycle.closed
      ensures old(stopCalled) ==> stopCalled
      ensures Calm() ==> lifecycle.closed == old(lifecycle.closed) && stopCalled == old(stopCalled)
      decreases if stopCalled then 0 else 1, 1
    {
      var n := sequence;
      TallyAppend(events, Event(activeRun.runId, tokenId, n, body));
      BodiesAppend(events, Event(activeRun.runId, tokenId, n, body));
      events := events + [Event(activeRun.runId, tokenId, n, body)];
      sequence := n + 1;
      if stopsAt(n) {
        var ok := Stop(lifecycle, "operator_stop");
      }
    }

    /** `stop`: once per run. It needs an active run and a reason. */
    method Stop(lifecycle: WorkerLifecycle, reason: string) returns (ok: bool)
      requires active == lifecycle && lifecycle.Valid() && Logged()
      modifies this`stopCalled, this`sequence, this`events, lifecycle
      ensures ok == (reason != "") && lifecycle.Valid() && Logged() && TallyOf(events) == TallyOf(old(events))
      ensures Calm() ==>
                Bodies(events) == Bodies(old(events)) + if ok && !old(stopCalled) then Closing(reason) else []
      ensures ok ==> stopCalled && (old(stopCalled) || lifecycle.closed)
      ensures !ok ==> events == old(events) && stopCalled == old(stopCalled)
      ensures old(lifecycle.closed) ==> lifecycle.closed
      ensures old(stopCalled) ==> stopCalled
      decreases if stopCalled then 0 else 1, 0
    {
      if reason == "" {
        return false;
      }
      ok := true;
      if stopCalled {
        return;
      }
      stopCalled := true;
      Emit(lifecycle, lifecycle.token.id, Supervisor(reason));
      lifecycle.Stop(reason);
      Emit(lifecycle, lifecycle.token.id, Revoked(reason));
      Emit(lifecycle, lifecycle.token.id, Wiped(reason));
    }

    method StopAfterFailure(lifecycle: WorkerLifecycle, tokenId: string)
      requires active == lifecycle && lifecycle.Valid() && Logged() && (stopCalled ==> lifecycle.closed)
      modifies this`stopCalled, this`sequence, this`events, lifecycle
      ensures lifecycle.Valid() && lifecycle.closed && Logged() && TallyOf(events) == TallyOf(old(events))
      ensures Calm() ==>
                Bodies(events) == Bodies(old(events)) + if old(stopCalled) then [] else Closing("controller_failure")
    {
      if stopCalled {
        return;
      }
      stopCalled := true;
      Emit(lifecycle, tokenId, Supervisor("controller_failure"));
      lifecycle.Stop("controller_failure");
      Emit(lifecycle, tokenId, Revoked("controller_failure"));
      Emit(lifecycle, tokenId, Wiped("controller_failure"));
    }

    /** One frame: a text chunk is counted, kept and reported, unless it overflows. */
    method TakeFrame(w: Worker, lifecycle: WorkerLifecycle, tokenId: string, n: nat, captured: Captured,
        receipt: Option<Payload>)
        returns (turn: Turn)
      requires active == lifecycle && lifecycle.Valid() && Logged() && (stopCalled ==> lifecycle.closed)
      requires n < |w.arrivals| && w.arrivals[n].message.Some?
      requires TallyOf(events) == Tally(captured.stdout, captured.stderr, [])
      modifies this`stopCalled, this`sequence, this`events, lifecycle
      ensures lifecycle.Valid() && Logged() && (stopCalled ==> lifecycle.closed) && TallyOf(events).receipts == []
      ensures Calm() ==> lifecycle.closed == old(lifecycle.closed)
      ensures turn == TurnOf(captured, receipt, w.arrivals[n].message.value)
      ensures Calm() && !turn.Failed? ==> Bodies(events) == Bodies(old(events)) + ChunkEvents(w.arrivals[n])
      ensures Calm() ==> stopCalled == old(stopCalled)
      ensures turn.Finished? ==> TallyOf(events) == TallyOf(old(events))
      ensures turn.Continue? ==> TallyOf(events) == Tally(turn.captured.stdout, turn.captured.stderr, [])
    {
      var m := w.arrivals[n].message.value;
      turn := Failed;
      if m.kind.OnStdout? || m.kind.OnStderr? {
        var chunk := Get(m.payload, "chunk");
        if chunk.None? || !chunk.value.Text? {
          return;
        }
        var text := chunk.value.text;
        var size := |EncodeString(text)|;
        if m.kind.OnStderr? {
          if captured.stderrBytes + size > OUTPUT_LIMIT {
            return;
          }
          turn := Continue(captured.(stderr := captured.stderr + text, stderrBytes := captured.stderrBytes + size),
              receipt);
        } else {
          if captured.stdoutBytes + size > OUTPUT_LIMIT {
            return;
          }
          turn := Continue(captured.(stdout := captured.stdout + text, stdoutBytes := captured.stdoutBytes + size),
              receipt);
        }
        Emit(lifecycle, tokenId, Chunk(m.kind.OnStderr?, text, m.sequence));
      } else if m.kind.OnReceipt? {
        if receipt.None? {
          turn := Continue(captured, Some(m.payload));
        }
      } else if m.kind.OnResult? {
        turn := Finished;
      } else if !m.kind.OnError? {
        turn := Continue(captured, receipt);
      }
    }

    /** The receive loop, up to the guest's result. */
    method Receive(w: Worker, lifecycle: WorkerLifecycle, tokenId: string)
        returns (got: Option<(Captured, Option<Payload>, nat)>)
      requires active == lifecycle && lifecycle.Valid() && Logged() && lifecycle.token == w.token
      requires TallyOf(events) == Tally("", "", []) && (stopCalled ==> lifecycle.closed)
      modifies this`stopCalled, this`sequence, this`events, lifecycle
      ensures lifecycle.Valid() && Logged() && (stopCalled ==> lifecycle.closed) && TallyOf(events).receipts == []
      ensures got == Received(w.token, w.arrivals, 0, NOTHING, None)
      ensures got.Some? ==> TallyOf(events) == Tally(got.value.0.stdout, got.value.0.stderr, [])
      ensures Undisturbed(w) && got.Some? ==> lifecycle.closed == old(lifecycle.closed)
      ensures Undisturbed(w) ==> stopCalled == old(stopCalled)
      ensures Undisturbed(w) && got.Some? ==>
                Bodies(events) == Bodies(old(events)) + Chunks(w.arrivals[..got.value.2])
    {
      var captured, receipt := NOTHING, None;
      var n := 0;
      ghost var calm := Undisturbed(w);
      got := None;
      while n < |w.arrivals|
        invariant n <= |w.arrivals| && lifecycle.Valid() && Logged() && (stopCalled ==> lifecycle.closed)
        invariant Received(w.token, w.arrivals, 0, NOTHING, None) == Received(w.token, w.arrivals, n, captured, receipt)
        invariant TallyOf(events) == Tally(captured.stdout, captured.stderr, [])
        invariant calm ==> lifecycle.closed == old(lifecycle.closed) && stopCalled == old(stopCalled)
        invariant calm ==> Bodies(events) == Bodies(old(events)) + Chunks(w.arrivals[..n])
      {
        ChunksGrow(w.arrivals, n);
        assert calm ==> Calm() && !w.arrivals[n].stopped;
        var turn := ReceiveOne(w, lifecycle, tokenId, n, captured, receipt);
        if turn.Failed? {
          return;
        }
        if turn.Finished? {
          return Some((captured, receipt, n));
        }
        captured, receipt, n := turn.captured, turn.receipt, n + 1;
      }
    }

    /** One pass: an operator may stop, the token must hold, and a frame must come in time. */
    method ReceiveOne(w: Worker, lifecycle: WorkerLifecycle, tokenId: string, n: nat, captured: Captured,
        receipt: Option<Payload>)
        returns (turn: Turn)
      requires active == lifecycle && lifecycle.Valid() && Logged() && (stopCalled ==> lifecycle.closed)
          && lifecycle.token == w.token
      requires n < |w.arrivals| && TallyOf(events) == Tally(captured.stdout, captured.stderr, [])
      modifies this`stopCalled, this`sequence, this`events, lifecycle
      ensures lifecycle.Valid() && Logged() && (stopCalled ==> lifecycle.closed) && TallyOf(events).receipts == []
      ensures turn == PassOf(w.token, w.arrivals[n], captured, receipt)
      ensures Calm() && !w.arrivals[n].stopped ==> stopCalled == old(stopCalled)
      ensures Calm() && !w.arrivals[n].stopped && !turn.Failed? ==>
                Bodies(events) == Bodies(old(events)) + ChunkEvents(w.arrivals[n])
      ensures !turn.Failed? && Calm() && !w.arrivals[n].stopped ==> lifecycle.closed == old(lifecycle.closed)
      ensures turn.Finished? ==> TallyOf(events) == TallyOf(old(events))
      ensures turn.Continue? ==> TallyOf(events) == Tally(turn.captured.stdout, turn.captured.stderr, [])
    {
      var a := w.arrivals[n];
      if a.stopped {
        var done := Stop(lifecycle, "operator_stop");
      }
      var valid := lifecycle.Check(a.now);
      if !valid || a.late || a.message.None? {
        return Failed;
      }
      turn := TakeFrame(w, lifecycle, tokenId, n, captured, receipt);
    }

    /** The bootstrap, and the start of the work. */
    method Open(id: Identity, w: Worker, lifecycle: WorkerLifecycle) returns (ok: bool)
      requires active == lifecycle && lifecycle.Valid() && Logged() && events == [] && !stopCalled
      modifies this`stopCalled, this`sequence, this`events, lifecycle
      ensures lifecycle.Valid() && Logged() && (stopCalled ==> lifecycle.closed)
      ensures ok == (w.bootstraps && w.starts) && TallyOf(events) == Tally("", "", [])
      ensures Calm() ==> !stopCalled && lifecycle.closed == old(lifecycle.closed)
      ensures Calm() ==> Bodies(events) ==
                         OPENING[..if w.bootstraps then if w.starts then 3 else 2 else 1]
    {
      assert Bodies([]) == [];
      Emit(lifecycle, id.tokenId, Transport("bootstrap"));
      if !w.bootstraps {
        return false;
      }
      Emit(lifecycle, id.tokenId, Transport("ready"));
      if !w.starts {
        return false;
      }
      Emit(lifecycle, id.tokenId, Transport("run"));
      ok := true;
    }

    /** Everything between launch and return. */
    method Drive(id: Identity, contract: Payload, w: Worker, lifecycle: WorkerLifecycle)
        returns (result: Option<RunResult>, ghost n: nat)
      requires active == lifecycle && lifecycle.Valid() && Logged() && lifecycle.token == w.token
      requires events == [] && !stopCalled && !lifecycle.closed
      modifies this`stopCalled, this`sequence, this`events, lifecycle
      ensures lifecycle.Valid() && Logged() && (stopCalled ==> lifecycle.closed)
      ensures result.None? ==> TallyOf(events).receipts == []
      ensures result.Some? ==> lifecycle.closed && Issued(env, id, contract, w, n, TallyOf(events), result.value)
      ensures Undisturbed(w) && w.closes ==> (result.Some? <==> Sound(env, id, contract, w))
      ensures Undisturbed(w) ==> !stopCalled
      ensures Undisturbed(w) && result.Some? ==> Reported(OPENING + Chunks(w.arrivals[..n]))
    {
      result, n := None, 0;
      var got := Collect(id, w, lifecycle);
      if got.None? {
        return;
      }
      n := got.value.2;
      result := Settle(id, contract, w, lifecycle, got.value.0, got.value.1, got.value.2);
    }

    /** The opening, and the frames up to the result. */
    method Collect(id: Identity, w: Worker, lifecycle: WorkerLifecycle)
        returns (got: Option<(Captured, Option<Payload>, nat)>)
      requires active == lifecycle && lifecycle.Valid() && Logged() && lifecycle.token == w.token
      requires events == [] && !stopCalled && !lifecycle.closed
      modifies this`stopCalled, this`sequence, this`events, lifecycle
      ensures lifecycle.Valid() && Logged() && (stopCalled ==> lifecycle.closed) && TallyOf(events).receipts == []
      ensures got == if w.bootstraps && w.starts then Received(w.token, w.arrivals, 0, NOTHING, None) else None
      ensures got.Some? ==>
                && TallyOf(events) == Tally(got.value.0.stdout, got.value.0.stderr, [])
                && ResultAt(w.token, w.arrivals, got.value.2)
                && Carried(w.arrivals[..got.value.2], got.value.0, got.value.1)
      ensures Undisturbed(w) ==> !stopCalled
      ensures Undisturbed(w) && got.Some? ==>
                !lifecycle.closed && Bodies(events) == OPENING + Chunks(w.arrivals[..got.value.2])
    {
      got := None;
      var begun := Open(id, w, lifecycle);
      if begun {
        got := Receive(w, lifecycle, id.tokenId);
        if got.Some? {
          ReceivedIsCarried(w.token, w.arrivals, 0, NOTHING, None);
        }
      }
    }

    /** A receipt was issued, after these reports. */
    ghost predicate Reported(before: seq<Body>)
      reads this
    {
      |TallyOf(events).receipts| == 1 && Bodies(events) == before + Issuing(TallyOf(events).receipts[0])
    }

    /** The opening, the chunks of the frames before a result, and the receipt. */
    ghost predicate ReportedAll(w: Worker)
      reads this
    {
      exists n :: 0 <= n <= |w.arrivals| && Reported(OPENING + Chunks(w.arrivals[..n]))
    }

    /** The last reports are about the failure. */
    ghost predicate ReportedFailure()
      reads this
    {
      |events| >= 3 && Bodies(events)[|events| - 3..] == Closing("controller_failure")
    }

    /** The token must still be in force when the result is looked at. */
    method Settle(
        id: Identity, contract: Payload, w: Worker, lifecycle: WorkerLifecycle, captured: Captured,
        receipt: Option<Payload>, n: nat)
        returns (result: Option<RunResult>)
      requires active == lifecycle && lifecycle.Valid() && Logged() && lifecycle.token == w.token
      requires stopCalled ==> lifecycle.closed
      requires ResultAt(w.token, w.arrivals, n) && Carried(w.arrivals[..n], captured, receipt)
      requires TallyOf(events) == Tally(captured.stdout, captured.stderr, [])
      modifies this`stopCalled, this`sequence, this`events, lifecycle
      ensures lifecycle.Valid() && Logged() && (stopCalled ==> lifecycle.closed)
      ensures result.None? ==> TallyOf(events).receipts == []
      ensures result.Some? ==> lifecycle.closed && Issued(env, id, contract, w, n, TallyOf(events), result.value)
      ensures var agreed := AgreedOn(env, id, contract, w.arrivals[n].message.value.payload, receipt);
              !w.stoppedBeforeWait && !old(lifecycle.closed) ==>
                (result.Some? <==>
                   && InForce(w.token, w.checkedAt) && w.collected.Some? && agreed.Some?
                   && Confirmed(env, w, ReceiptFor(env, id, agreed.value, receipt.value)))
      ensures w.collected.None? || !InForce(w.token, w.checkedAt) ==> result.None?
      ensures Calm() && !w.stoppedBeforeWait ==> stopCalled == old(stopCalled)
      ensures Calm() && !w.stoppedBeforeWait && result.Some? ==> Reported(Bodies(old(events)))
    {
      result := None;
      var valid := lifecycle.Check(w.checkedAt);
      if valid {
        result := Conclude(id, contract, w, lifecycle, captured, receipt, n);
      }
    }

    /** The checks on the guest's result and receipt. */
    method Conclude(
        id: Identity, contract: Payload, w: Worker, lifecycle: WorkerLifecycle, captured: Captured,
        receipt: Option<Payload>, n: nat)
        returns (result: Option<RunResult>)
      requires active == lifecycle && lifecycle.Valid() && Logged() && lifecycle.token == w.token
      requires stopCalled ==> lifecycle.closed
      requires ResultAt(w.token, w.arrivals, n) && Carried(w.arrivals[..n], captured, receipt)
      requires TallyOf(events) == Tally(captured.stdout, captured.stderr, [])
      modifies this`stopCalled, this`sequence, this`events, lifecycle
      ensures lifecycle.Valid() && Logged() && (stopCalled ==> lifecycle.closed)
      ensures result.None? ==> TallyOf(events).receipts == []
      ensures result.Some? ==> lifecycle.closed && Issued(env, id, contract, w, n, TallyOf(events), result.value)
      ensures var agreed := AgreedOn(env, id, contract, w.arrivals[n].message.value.payload, receipt);
              !w.stoppedBeforeWait && !old(lifecycle.closed) ==>
                (result.Some? <==>
                   && w.collected.Some? && agreed.Some?
                   && Confirmed(env, w, ReceiptFor(env, id, agreed.value, receipt.value)))
      ensures w.collected.None? ==> result.None?
      ensures Calm() && !w.stoppedBeforeWait ==> stopCalled == old(stopCalled)
      ensures Calm() && !w.stoppedBeforeWait && result.Some? ==> Reported(Bodies(old(events)))
    {
      result := None;
      var agreed := CheckResult(id, contract, w.arrivals[n].message.value.payload, receipt);
      if agreed.Some? {
        VouchedFor(env, id, contract, w, n, captured, receipt);
        var hostReceipt := ReceiptFor(env, id, agreed.value, receipt.value);
        result := AwaitAndIssue(id, contract, w, lifecycle, captured, hostReceipt, n);
      }
    }

    /** The operator may stop once more; then the worker must exit as reported. */
    method AwaitAndIssue(
        id: Identity, contract: Payload, w: Worker, lifecycle: WorkerLifecycle, captured: Captured,
        receipt: HostReceipt, ghost n: nat)
        returns (result: Option<RunResult>)
      requires active == lifecycle && lifecycle.Valid() && Logged() && lifecycle.token == w.token
      requires stopCalled ==> lifecycle.closed
      requires Vouched(env, id, contract, w, n, receipt) && Carried(w.arrivals[..n], captured, Some(receipt.guest))
      requires TallyOf(events) == Tally(captured.stdout, captured.stderr, [])
      modifies this`stopCalled, this`sequence, this`events, lifecycle
      ensures lifecycle.Valid() && Logged() && (stopCalled ==> lifecycle.closed)
      ensures result.None? ==> TallyOf(events).receipts == []
      ensures result.Some? ==> lifecycle.closed && Issued(env, id, contract, w, n, TallyOf(events), result.value)
      ensures !w.stoppedBeforeWait && !old(lifecycle.closed) ==>
                (result.Some? <==> w.collected.Some? && Confirmed(env, w, receipt))
      ensures w.collected.None? ==> result.None?
      ensures Calm() && !w.stoppedBeforeWait ==> stopCalled == old(stopCalled)
      ensures Calm() && !w.stoppedBeforeWait && result.Some? ==> Reported(Bodies(old(events)))
    {
      TakeLastStop(w, lifecycle);
      result := Finalise(id, contract, w, lifecycle, captured, receipt, n);
    }


    /** The closing events of a run whose evidence agrees. */
    method Issue(lifecycle: WorkerLifecycle, receipt: HostReceipt) returns (ok: bool)
      requires active == lifecycle && lifecycle.Valid() && lifecycle.closed && Logged()
          && TallyOf(events).receipts == []
      modifies this`stopCalled, this`sequence, this`events, lifecycle
      ensures lifecycle.Valid() && lifecycle.closed && Logged()
      ensures ok == Issuable(env, receipt)
      ensures TallyOf(events) == TallyOf(old(events)).(receipts := if ok then [receipt] else [])
      ensures Calm() ==> stopCalled == old(stopCalled)
      ensures Calm() && ok ==> Bodies(events) == Bodies(old(events)) + Issuing(receipt)
    {
      var tokenId := receipt.id.tokenId;
      Emit(lifecycle, tokenId, Summary(receipt.exitStatus));
      ok := Issuable(env, receipt);
      if !ok {
        return;
      }
      Emit(lifecycle, tokenId, Receipt(receipt));
      Close(lifecycle, tokenId);
    }

    /** The last reports about a worker that exited. */
    method Close(lifecycle: WorkerLifecycle, tokenId: string)
      requires active == lifecycle && lifecycle.Valid() && lifecycle.closed && Logged()
      modifies this`stopCalled, this`sequence, this`events, lifecycle
      ensures lifecycle.Valid() && lifecycle.closed && Logged() && TallyOf(events) == TallyOf(old(events))
      ensures Calm() ==> stopCalled == old(stopCalled) && Bodies(events) == Bodies(old(events)) + Closing("worker_exit")
    {
      Emit(lifecycle, tokenId, Supervisor("worker_exit"));
      Emit(lifecycle, tokenId, Revoked("worker_exit"));
      Emit(lifecycle, tokenId, Wiped("worker_exit"));
    }

    /** The worker must exit with the status the guest reported. */
    method AwaitExit(w: Worker, lifecycle: WorkerLifecycle, status: int) returns (ok: bool)
      requires lifecycle.Valid() && lifecycle.token == w.token
      modifies lifecycle
      ensures lifecycle.Valid() && (old(lifecycle.closed) ==> lifecycle.closed)
      ensures ok <==> !old(lifecycle.closed) && EndingOf(w.token, w.polls) == Exited(status)
      ensures ok ==> lifecycle.closed && Observed(w, status)
    {
      var ending := lifecycle.Wait(w.polls);
      ok := ending == Exited(status);
      if ok {
        ExitIsObserved(w.token, w.polls);
      }
    }

    /** The operator's last chance to stop before the wait. */
    method TakeLastStop(w: Worker, lifecycle: WorkerLifecycle)
      requires active == lifecycle && lifecycle.Valid() && Logged() && (stopCalled ==> lifecycle.closed)
      modifies this`stopCalled, this`sequence, this`events, lifecycle
      ensures lifecycle.Valid() && Logged() && (stopCalled ==> lifecycle.closed)
          && TallyOf(events) == TallyOf(old(events))
      ensures !w.stoppedBeforeWait ==>
                lifecycle.closed == old(lifecycle.closed) && events == old(events) && stopCalled == old(stopCalled)
    {
      if w.stoppedBeforeWait {
        var done := Stop(lifecycle, "operator_stop");
      }
    }

    method CheckResult(id: Identity, contract: Payload, payload: Payload,
        receipt: Option<Payload>)
        returns (agreed: Option<(string, int)>)
      ensures agreed == AgreedOn(env, id, contract, payload, receipt)
    {
      agreed := None;
      var expected := Hash(env, payload - {"result_sha256"});
      if expected.None? || Get(payload, "result_sha256") != Some(Text(expected.value)) {
        return;
      }
      var exitStatus := Get(payload, "exit_status");
      if exitStatus.None? || !exitStatus.value.Int? || receipt.None? {
        return;
      }
      if !GuestReceiptAgrees(env, receipt.value, id, expected.value, contract) {
        return;
      }
      agreed := Some((expected.value, exitStatus.value.number));
    }

    /** Wait for the worker, then issue the receipt. */
    method Finalise(id: Identity, contract: Payload, w: Worker, lifecycle: WorkerLifecycle, captured: Captured,
        receipt: HostReceipt, ghost n: nat)
        returns (result: Option<RunResult>)
      requires active == lifecycle && lifecycle.Valid() && Logged() && lifecycle.token == w.token
          && (stopCalled ==> lifecycle.closed)
      requires Vouched(env, id, contract, w, n, receipt) && Carried(w.arrivals[..n], captured, Some(receipt.guest))
      requires TallyOf(events) == Tally(captured.stdout, captured.stderr, [])
      modifies this`stopCalled, this`sequence, this`events, lifecycle
      ensures lifecycle.Valid() && Logged() && (stopCalled ==> lifecycle.closed)
      ensures result.None? ==> TallyOf(events).receipts == []
      ensures result.Some? ==> lifecycle.closed && Issued(env, id, contract, w, n, TallyOf(events), result.value)
      ensures result.Some? <==>
                && !old(lifecycle.closed) && EndingOf(w.token, w.polls) == Exited(receipt.exitStatus)
                && w.collected.Some? && Issuable(env, receipt)
      ensures Calm() ==> stopCalled == old(stopCalled)
      ensures Calm() && result.Some? ==> Reported(Bodies(old(events)))
    {
      result := None;
      var exited := AwaitExit(w, lifecycle, receipt.exitStatus);
      if !exited || w.collected.None? {
        return;
      }
      var host := w.collected.value;
      var stdout := if captured.stdout != "" then captured.stdout else host.stdout;
      var stderr := if captured.stderr != "" then captured.stderr else host.stderr;
      var ok := Issue(lifecycle, receipt);
      if ok {
        result := Some(RunResult(receipt.exitStatus, stdout, stderr));
        IssuedFrom(env, id, contract, w, n, captured, receipt, result.value);
      }
    }

    /** `run`; `worker` is `None` when the launcher raises. Events are numbered without gaps.
        A launched worker is left closed, with its token revoked once and its state wiped once,
        in that order. A returned run has issued exactly one receipt, and everything it vouches
        for agrees; a raised one has issued none, unless only the final close raised. A run the
        operator leaves alone returns exactly when its worker is sound. */
    method Run(id: Identity, contract: Payload, worker: Option<Worker>)
        returns (outcome: Outcome, lifecycle: WorkerLifecycle?)
      requires Logged()
      modifies this
      ensures Logged() && active == old(active)
      ensures outcome.Refused? <==> !Admissible(id, contract) || old(active) != null
      ensures outcome.Refused? ==> events == old(events) && lifecycle == null
      ensures lifecycle == null <==> outcome.Refused? || worker.None?
      ensures lifecycle != null ==>
                && fresh(lifecycle) && lifecycle.Valid() && lifecycle.closed && lifecycle.token == worker.value.token
                && Count(lifecycle.effects, Revoke(lifecycle.token.id)) == 1 && Count(lifecycle.effects, Wipe) == 1
                && RevokedBeforeWiped(lifecycle.effects, lifecycle.token.id)
      ensures outcome.Returned? ==>
                && worker.Some? && worker.value.closes
                && exists n :: Issued(env, id, contract, worker.value, n, TallyOf(events), outcome.result)
      ensures outcome.Raised? && (worker.Some? ==> worker.value.closes) ==> TallyOf(events).receipts == []
      ensures !outcome.Refused? ==> |TallyOf(events).receipts| <= 1
      ensures !outcome.Refused? && worker.Some? && Undisturbed(worker.value) ==>
                (outcome.Returned? <==> Sound(env, id, contract, worker.value))
      ensures outcome.Returned? && worker.Some? && Undisturbed(worker.value) ==> ReportedAll(worker.value)
      ensures outcome.Raised? && worker.Some? && worker.value.closes && Undisturbed(worker.value) ==>
                ReportedFailure()
    {
      outcome, lifecycle := Outcome.Refused, null;
      if !Admissible(id, contract) || active != null {
        return;
      }
      sequence, stopCalled, events := 0, false, [];
      if worker.None? {
        return Raised, null;
      }
      var w := worker.value;
      var launched := new WorkerLifecycle(w.token);
      active, activeRun := launched, id;
      var result, n := Drive(id, contract, w, launched);
      if result.None? {
        StopAfterFailure(launched, id.tokenId);
      }
      active := null;
      lifecycle := launched;
      outcome := if result.Some? && w.closes then Returned(result.value) else Raised;
    }
  }

  /** The run's output is what the guest's frames carried, or the host's capture where they
      carried none, and its one receipt agrees with everything. */
  ghost predicate Issued(env: Env, id: Identity, contract: Payload, w: Worker, n: nat, t: Tally, result: RunResult)
  {
    && |t.receipts| == 1 && Agreement(env, id, contract, w, n, t.receipts[0])
    && t.receipts[0].exitStatus == result.exitStatus
    && t.stdout == Texts(w.arrivals[..n], OnStdout) && t.stderr == Texts(w.arrivals[..n], OnStderr)
    && w.collected.Some?
    && result.stdout == (if t.stdout != "" then t.stdout else w.collected.value.stdout)
    && result.stderr == (if t.stderr != "" then t.stderr else w.collected.value.stderr)
  }

  lemma VouchedFor(
      env: Env, id: Identity, contract: Payload, w: Worker, n: nat, captured: Captured, receipt: Option<Payload>)
    requires ResultAt(w.token, w.arrivals, n) && Carried(w.arrivals[..n], captured, receipt)
    requires AgreedOn(env, id, contract, w.arrivals[n].message.value.payload, receipt).Some?
    ensures var agreed := AgreedOn(env, id, contract, w.arrivals[n].message.value.payload, receipt).value;
            Vouched(env, id, contract, w, n, ReceiptFor(env, id, agreed, receipt.value))
  {
  }

  lemma IssuedFrom(env: Env, id: Identity, contract: Payload, w: Worker, n: nat, captured: Captured,
      receipt: HostReceipt, result: RunResult)
    requires Vouched(env, id, contract, w, n, receipt) && Carried(w.arrivals[..n], captured, Some(receipt.guest))
    requires Observed(w, receipt.exitStatus) && Issuable(env, receipt)
    requires w.collected.Some? && result.exitStatus == receipt.exitStatus
    requires result.stdout == (if captured.stdout != "" then captured.stdout else w.collected.value.stdout)
    requires result.stderr == (if captured.stderr != "" then captured.stderr else w.collected.value.stderr)
    ensures Issued(env, id, contract, w, n, Tally(captured.stdout, captured.stderr, [receipt]), result)
  {
  }
}
