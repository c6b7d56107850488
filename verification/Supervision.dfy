/** One worker's lifecycle: token expiry, tripwires, and the terminal effects. */
module Supervision {
  import opened Options

  /** `genuine` is the outcome of the signature and schema checks. */
  datatype Token = Token(id: string, capabilities: set<string>, issuedAt: real, expiresAt: real, genuine: bool)

  predicate InForce(t: Token, now: real) { t.genuine && t.issuedAt <= now < t.expiresAt }

  /** What the callbacks and the process handle were asked to do, in order. */
  datatype Effect =
    | Notice(event: string, reason: string) | Revoke(id: string) | Terminate | Cleanup | Wipe | Exit(status: int)

  datatype Reply = Granted | Refused | Terminated

  /** One pass of the supervision loop: the clock, the process, and the deadline. */
  datatype Poll = Poll(now: real, status: Option<int>, late: bool)

  datatype Ending = Exited(status: int) | Ended(reason: string) | Interrupted

  /** How a supervision loop over these passes ends. */
  function EndingOf(token: Token, polls: seq<Poll>): (ending: Ending)
  {
    if polls == [] then Interrupted
    else if !InForce(token, polls[0].now) then Ended("token_invalid_or_expired")
    else if polls[0].status.Some? then Exited(polls[0].status.value)
    else if polls[0].late then Ended("worker_timeout")
    else EndingOf(token, polls[1..])
  }

  /** An exit status is one the host observed while the token was in force. */
  lemma {:induction false} ExitIsObserved(token: Token, polls: seq<Poll>)
    requires EndingOf(token, polls).Exited?
    ensures exists i | 0 <= i < |polls| ::
              polls[i].status == Some(EndingOf(token, polls).status) && InForce(token, polls[i].now)
  {
    if polls[0].status.None? {
      ExitIsObserved(token, polls[1..]);
      var i :| && 0 <= i < |polls[1..]| && polls[1..][i].status == Some(EndingOf(token, polls).status)
               && InForce(token, polls[1..][i].now);
      assert polls[i + 1] == polls[1..][i];
    }
  }

  /** The loop goes on after this pass. */
  predicate Quiet(token: Token, p: Poll)
  {
    token.genuine && token.issuedAt <= p.now < token.expiresAt && p.status.None? && !p.late
  }

  predicate AllQuiet(token: Token, polls: seq<Poll>) { forall i | 0 <= i < |polls| :: Quiet(token, polls[i]) }

  /** What the first pass that is not quiet decides: an exit if the token is in force and the
      process has a status, even a late one, and else the worker's end. */
  lemma {:induction false} EndingMeans(token: Token, polls: seq<Poll>)
    ensures EndingOf(token, polls).Interrupted? <==> AllQuiet(token, polls)
    ensures forall status :: EndingOf(token, polls) == Exited(status) <==>
              exists k | 0 <= k < |polls| :: ExitsAt(token, polls, k, status)
  {
    if polls != [] {
      var rest := polls[1..];
      EndingMeans(token, rest);
      if Quiet(token, polls[0]) {
        assert AllQuiet(token, polls) <==> AllQuiet(token, rest);
        forall k, status | 0 <= k < |rest|
          ensures ExitsAt(token, rest, k, status) <==> ExitsAt(token, polls, k + 1, status)
        {
          QuietShifts(token, polls, k);
        }
        forall status, k | 0 <= k < |polls| && ExitsAt(token, polls, k, status)
          ensures k > 0 && ExitsAt(token, rest, k - 1, status)
        {
          assert k > 0;
          QuietShifts(token, polls, k - 1);
        }
      } else {
        forall status, k | 0 <= k < |polls| && ExitsAt(token, polls, k, status) ensures k == 0 {
          NotAllQuiet(token, polls, k);
        }
        assert polls[..0] == [];
        assert forall status :: ExitsAt(token, polls, 0, status) <==>
            polls[0].status == Some(status) && InForce(token, polls[0].now);
      }
    }
  }

  lemma QuietShifts(token: Token, polls: seq<Poll>, k: nat)
    requires polls != [] && Quiet(token, polls[0]) && k < |polls|
    ensures AllQuiet(token, polls[..k + 1]) <==> AllQuiet(token, polls[1..][..k])
  {
    var long, short := polls[..k + 1], polls[1..][..k];
    assert long == [polls[0]] + short;
    assert forall i | 0 <= i < |short| :: long[i + 1] == short[i];
  }

  lemma NotAllQuiet(token: Token, polls: seq<Poll>, k: nat)
    requires polls != [] && !Quiet(token, polls[0]) && k <= |polls|
    ensures k > 0 ==> !AllQuiet(token, polls[..k])
  {
    if k > 0 {
      assert polls[..k][0] == polls[0];
    }
  }

  /** Every earlier pass was quiet, and here the process has exited. */
  predicate ExitsAt(token: Token, polls: seq<Poll>, k: nat, status: int)
    requires k < |polls|
  {
    && AllQuiet(token, polls[..k]) && polls[k].status == Some(status)
    && token.genuine && token.issuedAt <= polls[k].now < token.expiresAt
  }

  function Count(es: seq<Effect>, e: Effect): (n: nat)
  {
    if es == [] then 0 else Count(es[..|es| - 1], e) + if es[|es| - 1] == e then 1 else 0
  }

  /** Nothing is wiped while the token is still in force. */
  ghost predicate RevokedBeforeWiped(es: seq<Effect>, id: string)
  {
    forall j | 0 <= j < |es| && es[j] == Wipe :: exists i | 0 <= i < j :: es[i] == Revoke(id)
  }

  lemma {:induction false} CountAppend(es: seq<Effect>, last: Effect, e: Effect)
    ensures Count(es + [last], e) == Count(es, e) + if last == e then 1 else 0
  {
    assert (es + [last])[..|es|] == es;
  }

  lemma {:induction false} CountedIsPresent(es: seq<Effect>, e: Effect)
    ensures Count(es, e) > 0 <==> e in es
  {
    if es != [] {
      var n := |es| - 1;
      CountedIsPresent(es[..n], e);
      assert es == es[..n] + [es[n]];
    }
  }

  lemma RevokedBeforeAppend(es: seq<Effect>, last: Effect, id: string)
    requires RevokedBeforeWiped(es, id) && (last == Wipe ==> Revoke(id) in es)
    ensures RevokedBeforeWiped(es + [last], id)
  {
    var after := es + [last];
    forall j | 0 <= j < |after| && after[j] == Wipe ensures exists i | 0 <= i < j :: after[i] == Revoke(id) {
      if j < |es| {
        var i :| 0 <= i < j && es[i] == Revoke(id);
        assert after[i] == Revoke(id);
      } else {
        var i :| 0 <= i < |es| && es[i] == Revoke(id);
        assert after[i] == Revoke(id);
      }
    }
  }

  class WorkerLifecycle {
    const token: Token
    var closed: bool
    var tripped: bool
    var revoked: bool
    var wiped: bool
    ghost var effects: seq<Effect>

    /** Each terminal effect happens at most once, and in order. */
    ghost predicate Orderly()
      reads this
    {
      && Count(effects, Revoke(token.id)) == (if revoked then 1 else 0)
      && Count(effects, Wipe) == (if wiped then 1 else 0)
      && RevokedBeforeWiped(effects, token.id)
      && (wiped ==> revoked)
    }

    /** Between calls, no terminal state lacks an effect. */
    ghost predicate Valid()
      reads this
    {
      Orderly() && (closed || tripped ==> revoked && wiped)
    }

    constructor (token: Token)
      ensures this.token == token && Valid() && !closed && !tripped && effects == []
    {
      this.token := token;
      closed, tripped, revoked, wiped, effects := false, false, false, false, [];
    }

    ghost method Record(e: Effect)
      requires RevokedBeforeWiped(effects, token.id) && (e == Wipe ==> Revoke(token.id) in effects)
      modifies this`effects
      ensures effects == old(effects) + [e] && RevokedBeforeWiped(effects, token.id)
      ensures forall x :: Count(effects, x) == Count(old(effects), x) + if e == x then 1 else 0
    {
      RevokedBeforeAppend(effects, e, token.id);
      forall x ensures Count(effects + [e], x) == Count(effects, x) + if e == x then 1 else 0 {
        CountAppend(effects, e, x);
      }
      effects := effects + [e];
    }

    method RevokeOnce()
      requires Orderly()
      modifies this`revoked, this`effects
      ensures Orderly() && revoked && effects == old(effects) + if old(revoked) then [] else [Revoke(token.id)]
    {
      if revoked {
        return;
      }
      revoked := true;
      Record(Revoke(token.id));
    }

    method KillVm()
      requires Orderly()
      modifies this`effects
      ensures Orderly() && effects == old(effects) + [Terminate, Cleanup]
    {
      Record(Terminate);
      Record(Cleanup);
    }

    method WipeVm()
      requires Orderly() && revoked
      modifies this`wiped, this`effects
      ensures Orderly() && wiped && effects == old(effects) + if old(wiped) then [] else [Wipe, Cleanup]
    {
      if wiped {
        return;
      }
      wiped := true;
      CountedIsPresent(effects, Revoke(token.id));
      Record(Wipe);
      Record(Cleanup);
    }

    /** The effects after a trip: nothing more when tripped before, and else a notice, the
        revocation, the kill and the wipe, the ones already done left out. */
    ghost function Tripping(reason: string): (es: seq<Effect>)
      reads this
    {
      if tripped then effects
      else
        effects + [Notice("worker_trip", reason)] + (if revoked then [] else [Revoke(token.id)])
        + [Terminate, Cleanup] + (if wiped then [] else [Wipe, Cleanup])
    }

    /** The effects after a normal or failed exit. */
    ghost function Finishing(status: int): (es: seq<Effect>)
      reads this
    {
      effects + [Cleanup] + (if revoked then [] else [Revoke(token.id)])
      + (if wiped then [] else [Wipe, Cleanup]) + [Exit(status)]
    }

    method Trip(reason: string)
      requires Valid()
      modifies this`tripped, this`revoked, this`wiped, this`effects
      ensures Valid() && tripped && revoked && wiped && old(effects) <= effects
      ensures effects == old(Tripping(reason))
    {
      if tripped {
        return;
      }
      ghost var before, gone := effects, revoked;
      tripped := true;
      Record(Notice("worker_trip", reason));
      RevokeOnce();
      ghost var told := before + [Notice("worker_trip", reason)] + (if gone then [] else [Revoke(token.id)]);
      assert effects == told;
      KillVm();
      assert effects == told + [Terminate, Cleanup];
      WipeVm();
    }

    /** `check`: an invalid token ends the worker. */
    method Check(now: real) returns (ok: bool)
      requires Valid()
      modifies this
      ensures Valid() && old(effects) <= effects
      ensures ok <==> token.genuine && token.issuedAt <= now < token.expiresAt
      ensures ok ==> closed == old(closed) && tripped == old(tripped) && effects == old(effects)
      ensures ok ==> revoked == old(revoked) && wiped == old(wiped)
      ensures !ok ==> closed && tripped && effects == old(Tripping("token_invalid_or_expired"))
    {
      ok := InForce(token, now);
      if !ok {
        Trip("token_invalid_or_expired");
        closed := true;
      }
    }

    /** Why a request ends the worker. */
    function Violation(now: real, target: string): (reason: string)
    {
      if !InForce(token, now) then "token_invalid_or_expired"
      else if target != "microvm" then "host_boundary_operation_attempt"
      else "unauthorized_destructive_operation"
    }

    /** `WorkerSupervisor.request`. Only the microVM may be the target, and asking for a
        destructive capability that was not granted ends the worker. */
    method Request(now: real, capability: string, target: string, destructive: bool) returns (reply: Reply)
      requires Valid()
      modifies this
      ensures Valid() && closed == old(closed)
      ensures reply.Granted? <==>
                && token.genuine && token.issuedAt <= now < token.expiresAt
                && target == "microvm" && capability in token.capabilities
      ensures reply.Terminated? <==>
                || !InForce(token, now) || target != "microvm"
                || (capability !in token.capabilities && destructive)
      ensures if reply.Terminated? then tripped else effects == old(effects) && tripped == old(tripped)
      ensures reply.Terminated? ==> effects == old(Tripping(Violation(now, target)))
    {
      if !InForce(token, now) {
        Trip("token_invalid_or_expired");
        return Terminated;
      }
      if target != "microvm" {
        Trip("host_boundary_operation_attempt");
        return Terminated;
      }
      if capability !in token.capabilities {
        if destructive {
          Trip("unauthorized_destructive_operation");
          return Terminated;
        }
        return Refused;
      }
      return Granted;
    }

    method Stop(reason: string)
      requires Valid()
      modifies this
      ensures Valid() && closed && tripped && old(effects) <= effects && effects == old(Tripping(reason))
    {
      Trip(reason);
      closed := true;
    }

    method Finish(status: int)
      requires Valid() && !closed
      modifies this
      ensures Valid() && closed && tripped == old(tripped) && old(effects) <= effects
      ensures effects == old(Finishing(status))
    {
      ghost var before, gone, clean := effects, revoked, wiped;
      Record(Cleanup);
      RevokeOnce();
      ghost var told := before + [Cleanup] + (if gone then [] else [Revoke(token.id)]);
      assert effects == told;
      WipeVm();
      assert effects == told + (if clean then [] else [Wipe, Cleanup]);
      Record(Exit(status));
      closed := true;
    }

    /** `wait`, over the passes its loop makes; when they run out, the wait is interrupted. */
    method Wait(polls: seq<Poll>) returns (ending: Ending)
      requires Valid()
      modifies this
      ensures Valid() && old(effects) <= effects
      ensures ending == if old(closed) then Ended("worker_closed") else EndingOf(token, polls)
      ensures closed == (old(closed) || !ending.Interrupted?)
      ensures effects ==
              if old(closed) then old(effects)
              else
                match ending
                case Exited(status) => old(Finishing(status))
                case Ended(reason) => old(Tripping(reason))
                case Interrupted => old(effects)
    {
      if closed {
        return Ended("worker_closed");
      }
      for i := 0 to |polls|
        invariant Valid() && !closed && effects == old(effects)
        invariant tripped == old(tripped) && revoked == old(revoked) && wiped == old(wiped)
        invariant EndingOf(token, polls) == EndingOf(token, polls[i..])
      {
        var p := polls[i];
        assert polls[i..][1..] == polls[i + 1..];
        var ok := Check(p.now);
        if !ok {
          return Ended("token_invalid_or_expired");
        }
        if p.status.Some? {
          Finish(p.status.value);
          return Exited(p.status.value);
        }
        if p.late {
          Trip("worker_timeout");
          closed := true;
          return Ended("worker_timeout");
        }
      }
      return Interrupted;
    }
  }
}
