/** The scan rate limiter, its eviction, and the limiter that never forgets. */
module RateLimiting {
  const INTERVAL: real := 10.0
  const RESCAN: real := 30.0
  const CAPACITY: nat := 256

  type Candidates = set<string>

  datatype State = State(last: real, sets: map<Candidates, real>)

  datatype Decision = Decision(admitted: bool, time: real)

  datatype Request = Request(keys: Candidates, now: real)

  function Initial(): (s: State) { State(0.0, map[]) }

  function StampOf(s: State, keys: Candidates): (t: real)
  {
    if keys in s.sets then s.sets[keys] else 0.0
  }

  /** The first instant at which this set may be scanned. */
  function NextEligible(s: State, keys: Candidates): (t: real)
    ensures t >= s.last + INTERVAL && t >= StampOf(s, keys) + RESCAN
  {
    var byInterval, bySet := s.last + INTERVAL, StampOf(s, keys) + RESCAN;
    if byInterval < bySet then bySet else byInterval
  }

  function Evict(sets: map<Candidates, real>, now: real): (r: map<Candidates, real>)
  {
    if |sets| > CAPACITY then map k | k in sets && sets[k] >= now - RESCAN :: sets[k] else sets
  }

  function Step(s: State, q: Request, evicting: bool): (r: (State, Decision))
  {
    var next := NextEligible(s, q.keys);
    if q.now < next then (s, Decision(false, next))
    else
      var sets := s.sets[q.keys := q.now];
      (State(q.now, if evicting then Evict(sets, q.now) else sets), Decision(true, q.now))
  }

  function Decisions(s: State, qs: seq<Request>, evicting: bool): (ds: seq<Decision>)
    ensures |ds| == |qs|
    decreases |qs|
  {
    if qs == [] then []
    else
      var (t, d) := Step(s, qs[0], evicting);
      [d] + Decisions(t, qs[1..], evicting)
  }

  class ScanRateLimiter {
    var lastAdmitted: real
    var lastSets: map<Candidates, real>

    constructor ()
      ensures Now() == Initial() && Spaced(Now())
    {
      lastAdmitted, lastSets := 0.0, map[];
    }

    function Now(): (s: State)
      reads this
    {
      State(lastAdmitted, lastSets)
    }

    method Admit(keys: Candidates, now: real) returns (admitted: bool, time: real)
      modifies this
      ensures (Now(), Decision(admitted, time)) == Step(old(Now()), Request(keys, now), true)
      ensures Spaced(old(Now())) ==> Spaced(Now()) && |lastSets| <= 256
    {
      StepKeepsSpaced(Now(), Request(keys, now));
      var byInterval := lastAdmitted + INTERVAL;
      var bySet := (if keys in lastSets then lastSets[keys] else 0.0) + RESCAN;
      var next := if byInterval < bySet then bySet else byInterval;
      if now < next {
        return false, next;
      }
      lastAdmitted := now;
      lastSets := lastSets[keys := now];
      if |lastSets| > CAPACITY {
        var cutoff := now - RESCAN;
        lastSets := map k | k in lastSets && lastSets[k] >= cutoff :: lastSets[k];
      }
      return true, now;
    }
  }

  // ----- eviction is unobservable -----

  predicate NonDecreasing(qs: seq<Request>, from: real)
    decreases |qs|
  {
    qs == [] || (qs[0].now >= from && NonDecreasing(qs[1..], qs[0].now))
  }

  /** What eviction forgets, as seen at time `now` or later: sets no longer held back. */
  ghost predicate Forgets(a: State, b: State, now: real)
  {
    && a.last == b.last
    && (forall k | k in a.sets :: k in b.sets && b.sets[k] == a.sets[k])
    && (forall k | k in b.sets && k !in a.sets :: RESCAN <= b.sets[k] < now - RESCAN)
    && (forall k | k in b.sets :: b.sets[k] >= RESCAN)
  }

  lemma ForgetfulStep(a: State, b: State, q: Request)
    requires Forgets(a, b, q.now)
    ensures Step(a, q, true).1 == Step(b, q, false).1
    ensures Forgets(Step(a, q, true).0, Step(b, q, false).0, q.now)
  {
    if q.keys in b.sets && q.keys !in a.sets {
      assert StampOf(b, q.keys) + RESCAN < q.now;
    }
  }

  lemma {:induction false} Unobservable(a: State, b: State, qs: seq<Request>, now: real)
    requires Forgets(a, b, now) && NonDecreasing(qs, now)
    ensures Decisions(a, qs, true) == Decisions(b, qs, false)
    decreases |qs|
  {
    if qs != [] {
      ForgetfulStep(a, b, qs[0]);
      Unobservable(Step(a, qs[0], true).0, Step(b, qs[0], false).0, qs[1..], qs[0].now);
    }
  }

  /** For times that never go back, the evicting limiter answers as one that never forgets. */
  lemma {:induction false} EvictionIsUnobservable(qs: seq<Request>, start: real)
    requires NonDecreasing(qs, start)
    ensures Decisions(Initial(), qs, true) == Decisions(Initial(), qs, false)
  {
    Unobservable(Initial(), Initial(), qs, start);
  }

  // ----- spacing -----

  /** Whatever is admitted later respects the windows of the present state. */
  lemma {:induction false} AdmittedLater(s: State, qs: seq<Request>, j: nat)
    requires j < |qs| && Decisions(s, qs, false)[j].admitted
    ensures qs[j].now >= s.last + INTERVAL && qs[j].now >= StampOf(s, qs[j].keys) + RESCAN
    decreases |qs|
  {
    if j > 0 {
      var t := Step(s, qs[0], false).0;
      AdmittedLater(t, qs[1..], j - 1);
      assert StampOf(t, qs[j].keys) >= StampOf(s, qs[j].keys);
    }
  }

  lemma {:induction false} Spacing(s: State, qs: seq<Request>, i: nat, j: nat)
    requires i < j < |qs| && Decisions(s, qs, false)[i].admitted && Decisions(s, qs, false)[j].admitted
    ensures qs[j].now - qs[i].now >= INTERVAL
    ensures qs[i].keys == qs[j].keys ==> qs[j].now - qs[i].now >= RESCAN
    decreases |qs|
  {
    var t := Step(s, qs[0], false).0;
    if i == 0 {
      AdmittedLater(t, qs[1..], j - 1);
    } else {
      Spacing(t, qs[1..], i - 1, j - 1);
    }
  }

  /** Admitted scans are at least ten seconds apart, and thirty for the same candidates. */
  lemma {:induction false} AdmittedScansAreSpaced(qs: seq<Request>, start: real, i: nat, j: nat)
    requires NonDecreasing(qs, start) && i < j < |qs|
    requires Decisions(Initial(), qs, true)[i].admitted && Decisions(Initial(), qs, true)[j].admitted
    ensures qs[j].now - qs[i].now >= 10.0
    ensures qs[i].keys == qs[j].keys ==> qs[j].now - qs[i].now >= 30.0
  {
    EvictionIsUnobservable(qs, start);
    Spacing(Initial(), qs, i, j);
  }

  /** The `j`-th request keeps its distance from those admitted before it. */
  ghost predicate KeepsDistance(qs: seq<Request>, ds: seq<Decision>, j: nat)
    requires j < |qs| == |ds|
  {
    forall i | 0 <= i < j && ds[i].admitted ::
      qs[j].now >= qs[i].now + 10.0 && (qs[i].keys == qs[j].keys ==> qs[j].now >= qs[i].now + 30.0)
  }

  lemma {:induction false} AdmittedFrom(s: State, qs: seq<Request>, j: nat)
    requires j < |qs|
    ensures Decisions(s, qs, false)[j].admitted <==>
              && qs[j].now >= s.last + 10.0 && qs[j].now >= StampOf(s, qs[j].keys) + 30.0
              && KeepsDistance(qs, Decisions(s, qs, false), j)
    decreases |qs|
  {
    if j > 0 {
      var t, ds := Step(s, qs[0], false).0, Decisions(s, qs, false);
      AdmittedFrom(t, qs[1..], j - 1);
      assert ds[1..] == Decisions(t, qs[1..], false);
      assert KeepsDistance(qs, ds, j) <==>
          KeepsDistance(qs[1..], ds[1..], j - 1)
          && (ds[0].admitted ==>
                qs[j].now >= qs[0].now + 10.0 && (qs[0].keys == qs[j].keys ==> qs[j].now >= qs[0].now + 30.0)) by {
        assert forall i | 0 < i < j :: qs[i] == qs[1..][i - 1] && ds[i] == ds[1..][i - 1];
        assert forall i | 0 <= i < j - 1 :: qs[1..][i] == qs[i + 1] && ds[1..][i] == ds[i + 1];
      }
    }
  }

  /** For times that never go back, a scan is admitted exactly when it comes 30 seconds after the
      clock's origin or later, 10 after every admitted one, and 30 after those of the same
      candidates. */
  lemma AdmittedExactlyWhen(qs: seq<Request>, start: real, j: nat)
    requires NonDecreasing(qs, start) && j < |qs|
    ensures Decisions(Initial(), qs, true)[j].admitted <==>
              qs[j].now >= 30.0 && KeepsDistance(qs, Decisions(Initial(), qs, true), j)
  {
    EvictionIsUnobservable(qs, start);
    AdmittedFrom(Initial(), qs, j);
  }

  /** A refusal names the first instant at which the same request would be admitted. */
  lemma RefusalNamesFirstInstant(s: State, q: Request, later: real)
    requires !Step(s, q, true).1.admitted
    ensures q.now < Step(s, q, true).1.time
    ensures Step(Step(s, q, true).0, Request(q.keys, later), true).1.admitted <==> later >= Step(s, q, true).1.time
  {
  }

  // ----- memory stays bounded -----

  /** Stamps are spaced, no later than the last admission, and few. */
  ghost predicate Spaced(s: State)
  {
    && (forall k | k in s.sets :: s.sets[k] <= s.last)
    && (forall a, b | a in s.sets && b in s.sets && a != b ::
          s.sets[a] - s.sets[b] >= INTERVAL || s.sets[b] - s.sets[a] >= INTERVAL)
    && |s.sets| <= CAPACITY
  }

  function Bucket(age: real): (b: nat)
  {
    if age < INTERVAL then 0 else if age < 2.0 * INTERVAL then 1 else if age < 3.0 * INTERVAL then 2 else 3
  }

  /** Sets whose buckets differ are at most four. */
  lemma {:induction false} DistinctBuckets(keys: set<Candidates>, bucket: Candidates -> nat, used: set<nat>)
    requires forall a, b | a in keys && b in keys && a != b :: bucket(a) != bucket(b)
    requires forall a | a in keys :: bucket(a) in used
    ensures |keys| <= |used|
    decreases |keys|
  {
    if keys != {} {
      var k :| k in keys;
      DistinctBuckets(keys - {k}, bucket, used - {bucket(k)});
    }
  }

  lemma FewRecent(sets: map<Candidates, real>, now: real)
    requires forall k | k in sets :: now - RESCAN <= sets[k] <= now
    requires forall a, b | a in sets && b in sets && a != b ::
               sets[a] - sets[b] >= INTERVAL || sets[b] - sets[a] >= INTERVAL
    ensures |sets| <= 4
  {
    DistinctBuckets(sets.Keys, k => if k in sets then Bucket(now - sets[k]) else 4, {0, 1, 2, 3});
    assert |sets| == |sets.Keys|;
  }

  lemma StepKeepsSpaced(s: State, q: Request)
    ensures Spaced(s) ==> Spaced(Step(s, q, true).0)
  {
    var (t, d) := Step(s, q, true);
    if Spaced(s) && d.admitted {
      var sets := s.sets[q.keys := q.now];
      if |sets| > CAPACITY {
        FewRecent(t.sets, q.now);
      }
    }
  }
}
