/** What the host controller's checks come to: which frames it takes, which evidence agrees, and
    when a run left alone returns. */
module HostEvidence {
  import opened Options
  import opened Utf8
  import opened Cbor
  import opened Supervision
  import opened HostControl

  // ----- frames -----

  predicate IsOutput(a: Arrival)
  {
    a.message.Some? && (a.message.value.kind.OnStdout? || a.message.value.kind.OnStderr?)
  }

  predicate CarriesText(a: Arrival)
  {
    && IsOutput(a) && "chunk" in a.message.value.payload && a.message.value.payload["chunk"].Text?
  }

  /** Output frames carry text, at most 4 MiB of it on each stream, and there is at most one
      receipt. */
  ghost predicate Acceptable(arrivals: seq<Arrival>)
  {
    && (forall i | 0 <= i < |arrivals| && IsOutput(arrivals[i]) :: CarriesText(arrivals[i]))
    && |EncodeString(Texts(arrivals, OnStdout))| <= 4_194_304
    && |EncodeString(Texts(arrivals, OnStderr))| <= 4_194_304
    && |GuestReceipts(arrivals)| <= 1
  }

  lemma AcceptablePrefix(arrivals: seq<Arrival>, n: nat)
    requires n < |arrivals| && Acceptable(arrivals[..n + 1])
    ensures Acceptable(arrivals[..n])
  {
    var now, next := arrivals[..n], arrivals[..n + 1];
    TextsGrow(arrivals, n);
    EncodeAppend(Texts(now, OnStdout), ChunkOf(arrivals[n], OnStdout));
    EncodeAppend(Texts(now, OnStderr), ChunkOf(arrivals[n], OnStderr));
    forall i | 0 <= i < n && IsOutput(now[i]) ensures CarriesText(now[i]) {
      assert next[i] == now[i];
    }
  }

  lemma {:induction false} AcceptableUpTo(arrivals: seq<Arrival>, n: nat, m: nat)
    requires n <= m <= |arrivals| && Acceptable(arrivals[..m])
    ensures Acceptable(arrivals[..n])
    decreases m - n
  {
    if n < m {
      AcceptablePrefix(arrivals, m - 1);
      AcceptableUpTo(arrivals, n, m - 1);
    }
  }

  /** A frame that comes in time and is acceptable with those before it is kept. */
  lemma OneMoreIsKept(token: Token, arrivals: seq<Arrival>, n: nat, c: Captured, receipt: Option<Payload>)
    requires n < |arrivals| && Ordinary(token, arrivals[n]) && Carried(arrivals[..n], c, receipt)
    requires Acceptable(arrivals[..n + 1])
    ensures PassOf(token, arrivals[n], c, receipt).Continue?
  {
    TextsGrow(arrivals, n);
    var a := arrivals[n];
    assert arrivals[..n + 1][n] == a;
    if IsOutput(a) {
      assert CarriesText(a);
      EncodeAppend(c.stdout, ChunkText(a.message.value));
      EncodeAppend(c.stderr, ChunkText(a.message.value));
    }
  }

  lemma {:induction false} AcceptableIsReceived(
      token: Token, arrivals: seq<Arrival>, n: nat, at: nat, c: Captured, receipt: Option<Payload>)
    requires n <= at && ResultAt(token, arrivals, at) && Acceptable(arrivals[..at])
    requires Carried(arrivals[..n], c, receipt)
    ensures var r := Received(token, arrivals, n, c, receipt); r.Some? && r.value.2 == at
    decreases at - n
  {
    if n < at {
      NextIsKept(token, arrivals, n, at, c, receipt);
      var turn := PassOf(token, arrivals[n], c, receipt);
      AcceptableIsReceived(token, arrivals, n + 1, at, turn.captured, turn.receipt);
    }
  }

  lemma NextIsKept(token: Token, arrivals: seq<Arrival>, n: nat, at: nat, c: Captured, receipt: Option<Payload>)
    requires n < at && ResultAt(token, arrivals, at) && Acceptable(arrivals[..at])
    requires Carried(arrivals[..n], c, receipt)
    ensures var turn := PassOf(token, arrivals[n], c, receipt);
            && turn.Continue? && Carried(arrivals[..n + 1], turn.captured, turn.receipt)
            && Received(token, arrivals, n, c, receipt)
               == Received(token, arrivals, n + 1, turn.captured, turn.receipt)
  {
    assert Ordinary(token, arrivals[..at][n]);
    AcceptableUpTo(arrivals, n + 1, at);
    OneMoreIsKept(token, arrivals, n, c, receipt);
    TurnCarries(arrivals, n, c, receipt);
  }

  lemma {:induction false} ReceivedIsAcceptable(
      token: Token, arrivals: seq<Arrival>, n: nat, c: Captured, receipt: Option<Payload>)
    requires n <= |arrivals| && AllOrdinary(token, arrivals[..n]) && Carried(arrivals[..n], c, receipt)
    requires Acceptable(arrivals[..n]) && Received(token, arrivals, n, c, receipt).Some?
    ensures Acceptable(arrivals[..Received(token, arrivals, n, c, receipt).value.2])
    decreases |arrivals| - n
  {
    var turn := PassOf(token, arrivals[n], c, receipt);
    if turn.Continue? {
      TurnCarries(arrivals, n, c, receipt);
      OrdinaryGrows(token, arrivals, n);
      KeptIsAcceptable(token, arrivals, n, c, receipt);
      ReceivedIsAcceptable(token, arrivals, n + 1, turn.captured, turn.receipt);
    }
  }

  lemma KeptIsAcceptable(token: Token, arrivals: seq<Arrival>, n: nat, c: Captured, receipt: Option<Payload>)
    requires n < |arrivals| && Carried(arrivals[..n], c, receipt) && Acceptable(arrivals[..n])
    requires PassOf(token, arrivals[n], c, receipt).Continue?
    ensures Acceptable(arrivals[..n + 1])
  {
    TurnCarries(arrivals, n, c, receipt);
    var now, next := arrivals[..n], arrivals[..n + 1];
    forall i | 0 <= i < n + 1 && IsOutput(next[i]) ensures CarriesText(next[i]) {
      assert i < n ==> next[i] == now[i];
    }
  }

  /** The loop ends with a result exactly when one comes in time after acceptable frames, and
      keeps what those carried. */
  lemma ReceivedExactly(
      token: Token, arrivals: seq<Arrival>, c: Captured, receipt: Option<Payload>, at: nat)
    ensures Received(token, arrivals, 0, NOTHING, None) == Some((c, receipt, at)) <==>
              && ResultAt(token, arrivals, at) && Acceptable(arrivals[..at]) && Carried(arrivals[..at], c, receipt)
  {
    assert arrivals[..0] == [];
    var r := Received(token, arrivals, 0, NOTHING, None);
    if r.Some? {
      ReceivedIsCarried(token, arrivals, 0, NOTHING, None);
      ReceivedIsAcceptable(token, arrivals, 0, NOTHING, None);
    }
    if ResultAt(token, arrivals, at) && Acceptable(arrivals[..at]) && Carried(arrivals[..at], c, receipt) {
      AcceptableIsReceived(token, arrivals, 0, at, NOTHING, None);
    }
  }

  // ----- evidence -----

  predicate Holds(p: Payload, key: string, text: string) { key in p && p[key] == Text(text) }

  /** By its ASCII code, a hexadecimal digit. */
  predicate HexCode(n: int) { 48 <= n <= 57 || 65 <= n <= 70 || 97 <= n <= 102 }

  predicate IsHash(s: string) { |s| == 64 && forall i | 0 <= i < |s| :: HexCode(s[i] as int) }

  /** A guest's receipt agrees exactly when it names the schema, this run and this result, gives
      back the containment asked for, and has an artifact digest. */
  lemma GuestReceiptMeans(env: Env, receipt: Payload, id: Identity, resultHash: string, contract: Payload)
    ensures GuestReceiptAgrees(env, receipt, id, resultHash, contract) <==>
              && Holds(receipt, "schema", "testudo.guest.receipt.v1") && Holds(receipt, "run_id", id.runId)
              && Holds(receipt, "token_id", id.tokenId) && Holds(receipt, "nonce", id.nonce)
              && Holds(receipt, "result_sha256", resultHash) && ContainmentMatches(env, receipt, contract)
              && "artifact_digest" in receipt && receipt["artifact_digest"].Text?
              && IsHash(receipt["artifact_digest"].text)
  {
  }

  /** Asked for nothing, it says nothing; asked for something, it says that with the monitor
      active, as Python compares. */
  predicate ContainmentMatches(env: Env, receipt: Payload, contract: Payload)
  {
    if "containment" !in contract || contract["containment"] == Null then "containment" !in receipt
    else
      && "containment" in receipt && contract["containment"].Map?
      && Equal(env, receipt["containment"], Map(contract["containment"].entries["monitor_active" := Bool(true)]))
  }

  /** A result agrees on a hash and a status exactly when it carries both, and the hash is that of
      everything else in it. */
  lemma ResultMeans(env: Env, result: Payload, resultHash: string, status: int)
    ensures ResultAgrees(env, result, resultHash, status) <==>
              && Holds(result, "result_sha256", resultHash)
              && "exit_status" in result && result["exit_status"] == Int(status)
              && Writable(Map(result - {"result_sha256"})) && env.digest(result - {"result_sha256"}) == resultHash
  {
  }

  /** A contract is admitted exactly when it names this run, and the run has a name. */
  lemma AdmissibleMeans(id: Identity, contract: Payload)
    ensures HostControl.Admissible(id, contract) <==>
              && id.runId != "" && id.tokenId != "" && id.nonce != "" && Holds(contract, "run_id", id.runId)
              && Holds(contract, "token_id", id.tokenId) && Holds(contract, "nonce", id.nonce)
  {
  }

  /** Numbers compare by value whatever their kind, and no other kinds compare equal. */
  lemma NumbersCompareByValue(env: Env, n: int, x: Double, y: Double, s: string)
    ensures Equal(env, Int(1), Bool(true)) && Equal(env, Bool(false), Int(0)) && !Equal(env, Bool(true), Int(2))
    ensures env.floats(x) == Whole(n) ==> Equal(env, Float(x), Int(n)) && Equal(env, Int(n), Float(x))
    ensures env.floats(x) == Whole(n) && env.floats(y) == Whole(n) ==> Equal(env, Float(x), Float(y))
    ensures env.floats(x) == NotANumber ==> !Equal(env, Float(x), Float(x))
    ensures env.floats(x) == Fractional ==>
              (Equal(env, Float(x), Float(y)) <==> x == y) && !Equal(env, Float(x), Int(n))
    ensures !Equal(env, Text(s), Int(n)) && !Equal(env, Null, Int(n)) && Equal(env, Text(s), Text(s))
  {
  }

  // ----- runs -----

  /** The worker's evidence agrees: a result in time, one guest receipt, a status the process
      exits with, and a receipt that can be issued on them. */
  ghost predicate Agrees(
      env: Env, id: Identity, contract: Payload, w: Worker, at: nat, guest: Payload, hash: string, status: int)
  {
    && ResultAt(w.token, w.arrivals, at) && Acceptable(w.arrivals[..at]) && GuestReceipts(w.arrivals[..at]) == [guest]
    && ResultAgrees(env, w.arrivals[at].message.value.payload, hash, status)
    && GuestReceiptAgrees(env, guest, id, hash, contract)
    && IsHash(hash) && Writable(Map(guest))
    && exists k | 0 <= k < |w.polls| :: ExitsAt(w.token, w.polls, k, status)
  }

  /** A worker is sound exactly when it does each thing a run needs and its evidence agrees. */
  lemma SoundExactly(env: Env, id: Identity, contract: Payload, w: Worker)
    ensures Sound(env, id, contract, w) <==>
              && w.bootstraps && w.starts && w.closes && w.collected.Some?
              && w.token.genuine && w.token.issuedAt <= w.checkedAt < w.token.expiresAt
              && exists at, guest, hash, status :: Agrees(env, id, contract, w, at, guest, hash, status)
  {
    if Sound(env, id, contract, w) {
      SoundAgrees(env, id, contract, w);
    }
    if at, guest, hash, status :| Agrees(env, id, contract, w, at, guest, hash, status) {
      AgreesIsFound(env, id, contract, w, at, guest, hash, status);
    }
  }

  lemma HashesAre(s: string)
    ensures IsSha256(s) <==> IsHash(s)
  {
  }

  lemma SoundAgrees(env: Env, id: Identity, contract: Payload, w: Worker)
    requires Sound(env, id, contract, w)
    ensures exists at, guest, hash, status :: Agrees(env, id, contract, w, at, guest, hash, status)
  {
    var (c, receipt, at) := Received(w.token, w.arrivals, 0, NOTHING, None).value;
    ReceivedExactly(w.token, w.arrivals, c, receipt, at);
    var agreed := AgreedOn(env, id, contract, w.arrivals[at].message.value.payload, receipt).value;
    IssuableWhenWritable(env, id, agreed, receipt.value);
    HashesAre(agreed.0);
    EndingMeans(w.token, w.polls);
    assert Agrees(env, id, contract, w, at, receipt.value, agreed.0, agreed.1);
  }

  /** What the loop kept when the result came. */
  ghost function KeptOf(arrivals: seq<Arrival>): (c: Captured)
  {
    var out, err := Texts(arrivals, OnStdout), Texts(arrivals, OnStderr);
    Captured(out, err, |EncodeString(out)|, |EncodeString(err)|)
  }

  lemma KeptIsReceived(token: Token, arrivals: seq<Arrival>, at: nat, guest: Payload)
    requires ResultAt(token, arrivals, at) && Acceptable(arrivals[..at]) && GuestReceipts(arrivals[..at]) == [guest]
    ensures Received(token, arrivals, 0, NOTHING, None) == Some((KeptOf(arrivals[..at]), Some(guest), at))
  {
    ReceivedExactly(token, arrivals, KeptOf(arrivals[..at]), Some(guest), at);
  }

  lemma AgreesIsFound(
      env: Env, id: Identity, contract: Payload, w: Worker, at: nat, guest: Payload, hash: string, status: int)
    requires Agrees(env, id, contract, w, at, guest, hash, status)
    ensures var got := Received(w.token, w.arrivals, 0, NOTHING, None);
            && got.Some? && got.value.2 == at && got.value.1 == Some(guest)
            && AgreedOn(env, id, contract, w.arrivals[at].message.value.payload, Some(guest)) == Some((hash, status))
            && Confirmed(env, w, ReceiptFor(env, id, (hash, status), guest))
  {
    KeptIsReceived(w.token, w.arrivals, at, guest);
    AgreementIsFound(env, id, contract, w.arrivals[at].message.value.payload, guest, hash, status);
    IssuableWhenWritable(env, id, (hash, status), guest);
    HashesAre(hash);
    EndingMeans(w.token, w.polls);
  }
}
