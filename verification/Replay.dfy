/** The in-memory nonce cache (replay.go) and the log it stands for. */
module Replay {
  import opened Wrappers
  import opened Tokens

  type Nonces = map<string, Instant>

  /** The entries still valid at an instant. */
  function Prune(m: Nonces, now: Instant): Nonces {
    map k | k in m && m[k] > now :: m[k]
  }

  /** The answer of SeenBefore, and the map it leaves. */
  function SeenStep(m: Nonces, nonce: string, expiry: Instant, now: Instant): (bool, Nonces) {
    var kept := Prune(m, now);
    if nonce in kept then (true, kept) else (false, kept[nonce := expiry])
  }

  class MemoryReplayCache {
    var m: Nonces

    constructor ()
      ensures m == map[]
    {
      m := map[];
    }

    method SeenBefore(nonce: string, expiry: Instant, now: Instant) returns (seen: bool)
      modifies this
      ensures (seen, m) == SeenStep(old(m), nonce, expiry, now)
    {
      var rest := m.Keys;
      while rest != {}
        invariant rest <= old(m).Keys
        invariant m == map k | k in old(m) && (k in rest || old(m)[k] > now) :: old(m)[k]
        decreases |rest|
      {
        var k :| k in rest;
        if m[k] <= now {
          m := m - {k};
        }
        rest := rest - {k};
      }
      assert m == Prune(old(m), now);
      if nonce in m && m[nonce] > now {
        return true;
      }
      m := m[nonce := expiry];
      return false;
    }
  }

  // ------------------------------------------------------------------
  // The reference: a log of recordings that forgets nothing.
  // ------------------------------------------------------------------

  datatype Recording = Recording(nonce: string, expiry: Instant)
  datatype Call = Call(nonce: string, expiry: Instant, now: Instant)

  /** The expiry last recorded for a nonce. */
  function LastExpiry(log: seq<Recording>, nonce: string): Option<Instant> {
    if log == [] then None
    else if log[|log| - 1].nonce == nonce then Some(log[|log| - 1].expiry)
    else LastExpiry(log[..|log| - 1], nonce)
  }

  predicate Seen(log: seq<Recording>, nonce: string, now: Instant) {
    LastExpiry(log, nonce).Some? && LastExpiry(log, nonce).value > now
  }

  function LogStep(log: seq<Recording>, c: Call): seq<Recording> {
    if Seen(log, c.nonce, c.now) then log else log + [Recording(c.nonce, c.expiry)]
  }

  /** The cache and the log after the first n calls, and their answers to call n. */
  function CacheAfter(calls: seq<Call>, n: nat): Nonces
    requires n <= |calls|
  {
    if n == 0 then map[]
    else SeenStep(CacheAfter(calls, n - 1), calls[n - 1].nonce, calls[n - 1].expiry, calls[n - 1].now).1
  }

  predicate CacheAnswer(calls: seq<Call>, n: nat)
    requires n < |calls|
  {
    SeenStep(CacheAfter(calls, n), calls[n].nonce, calls[n].expiry, calls[n].now).0
  }

  function LogAfter(calls: seq<Call>, n: nat): seq<Recording>
    requires n <= |calls|
  {
    if n == 0 then [] else LogStep(LogAfter(calls, n - 1), calls[n - 1])
  }

  predicate LogAnswer(calls: seq<Call>, n: nat)
    requires n < |calls|
  {
    Seen(LogAfter(calls, n), calls[n].nonce, calls[n].now)
  }

  lemma LastOfAppend(log: seq<Recording>, r: Recording, nonce: string)
    ensures LastExpiry(log + [r], nonce) == if r.nonce == nonce then Some(r.expiry) else LastExpiry(log, nonce)
  {
    assert (log + [r])[..|log|] == log;
  }

  /** The cache holds only last recordings, and all of those valid after an instant. */
  ghost predicate Mirrors(m: Nonces, log: seq<Recording>, since: Instant) {
    && (forall k :: k in m ==> LastExpiry(log, k) == Some(m[k]))
    && (forall k :: Seen(log, k, since) ==> k in m)
  }

  lemma MirrorStep(m: Nonces, log: seq<Recording>, since: Instant, c: Call)
    requires Mirrors(m, log, since) && since <= c.now
    ensures SeenStep(m, c.nonce, c.expiry, c.now).0 <==> Seen(log, c.nonce, c.now)
    ensures Mirrors(SeenStep(m, c.nonce, c.expiry, c.now).1, LogStep(log, c), c.now)
  {
    assert Seen(log, c.nonce, c.now) ==> Seen(log, c.nonce, since);
    forall k
      ensures LastExpiry(log + [Recording(c.nonce, c.expiry)], k) ==
              if k == c.nonce then Some(c.expiry) else LastExpiry(log, k)
    {
      LastOfAppend(log, Recording(c.nonce, c.expiry), k);
    }
    assert forall k :: Seen(log, k, c.now) ==> Seen(log, k, since);
  }

  /** The readings of the clock, from the second call on, never go back. */
  predicate ClockForward(times: seq<Instant>) {
    forall i, j :: 1 <= i < j < |times| ==> times[i] <= times[j]
  }

  function Times(calls: seq<Call>): (ts: seq<Instant>)
    ensures |ts| == |calls| && forall i :: 0 <= i < |calls| ==> ts[i] == calls[i].now
  {
    seq(|calls|, i requires 0 <= i < |calls| => calls[i].now)
  }

  /** The instant the n-th call's answer may rely on. */
  lemma {:induction false} CacheMirrorsLog(calls: seq<Call>, n: nat)
    requires n <= |calls| && ClockForward(Times(calls))
    ensures n >= 2 ==> Mirrors(CacheAfter(calls, n), LogAfter(calls, n), calls[n - 1].now)
    ensures n < 2 ==> forall t :: Mirrors(CacheAfter(calls, n), LogAfter(calls, n), t)
  {
    if n == 0 {
    } else if n == 1 {
      FirstCall(calls);
    } else {
      CacheMirrorsLog(calls, n - 1);
      var since := if n == 2 then calls[1].now else calls[n - 2].now;
      assert Times(calls)[n - 2] == calls[n - 2].now && Times(calls)[n - 1] == calls[n - 1].now;
      MirrorStep(CacheAfter(calls, n - 1), LogAfter(calls, n - 1), since, calls[n - 1]);
    }
  }

  lemma FirstCall(calls: seq<Call>)
    requires calls != []
    ensures CacheAfter(calls, 1) == map[calls[0].nonce := calls[0].expiry]
    ensures LogAfter(calls, 1) == [Recording(calls[0].nonce, calls[0].expiry)]
    ensures forall t :: Mirrors(CacheAfter(calls, 1), LogAfter(calls, 1), t)
  {
    assert CacheAfter(calls, 0) == map[] && LogAfter(calls, 0) == [];
    assert Prune(map[], calls[0].now) == map[];
    forall k
      ensures LastExpiry([Recording(calls[0].nonce, calls[0].expiry)], k) ==
              if k == calls[0].nonce then Some(calls[0].expiry) else None
    {
      LastOfAppend([], Recording(calls[0].nonce, calls[0].expiry), k);
      assert [] + [Recording(calls[0].nonce, calls[0].expiry)] == [Recording(calls[0].nonce, calls[0].expiry)];
    }
  }

  /** Under such a clock the pruned map answers every call exactly as the log does. */
  lemma PruningIsUnobservable(calls: seq<Call>, n: nat)
    requires n < |calls| && ClockForward(Times(calls))
    ensures CacheAnswer(calls, n) <==> LogAnswer(calls, n)
  {
    CacheMirrorsLog(calls, n);
    if n < 2 {
      MirrorStep(CacheAfter(calls, n), LogAfter(calls, n), calls[n].now, calls[n]);
    } else {
      assert Times(calls)[n - 1] == calls[n - 1].now && Times(calls)[n] == calls[n].now;
      MirrorStep(CacheAfter(calls, n), LogAfter(calls, n), calls[n - 1].now, calls[n]);
    }
  }

  /** Calls that expose a clock going back between reading i and reading j: the nonce of the first
      call expires at reading i, and only call j asks for it again. */
  function Probe(times: seq<Instant>, i: nat, j: nat): (calls: seq<Call>)
    requires 1 <= i < j < |times|
    ensures |calls| == |times| && Times(calls) == times
  {
    var calls := seq(|times|, k requires 0 <= k < |times| =>
                       Call(if k == 0 || k == j then "a" else "b", times[i], times[k]));
    assert forall k :: 0 <= k < |times| ==> Times(calls)[k] == times[k];
    calls
  }

  lemma OtherNonceStep(m: Nonces, log: seq<Recording>, c: Call, nonce: string)
    requires c.nonce != nonce
    ensures LastExpiry(LogStep(log, c), nonce) == LastExpiry(log, nonce)
    ensures var after := SeenStep(m, c.nonce, c.expiry, c.now).1;
            nonce in after ==> nonce in m && after[nonce] == m[nonce] && m[nonce] > c.now
  {
    LastOfAppend(log, Recording(c.nonce, c.expiry), nonce);
  }

  /** After n calls of the probe the log holds the first nonce, and the cache at most until call i. */
  ghost predicate Probed(m: Nonces, log: seq<Recording>, expiry: Instant, i: nat, n: nat) {
    LastExpiry(log, "a") == Some(expiry) && ("a" in m ==> n <= i && m["a"] == expiry)
  }

  lemma ProbeFirst(calls: seq<Call>, expiry: Instant, i: nat)
    requires i >= 1 && calls != [] && calls[0].nonce == "a" && calls[0].expiry == expiry
    ensures Probed(CacheAfter(calls, 1), LogAfter(calls, 1), expiry, i, 1)
  {
    FirstCall(calls);
  }

  lemma {:induction false} ProbeState(times: seq<Instant>, i: nat, j: nat, n: nat)
    requires 1 <= i < j < |times| && 1 <= n <= j
    ensures var calls := Probe(times, i, j);
            Probed(CacheAfter(calls, n), LogAfter(calls, n), times[i], i, n)
  {
    var calls := Probe(times, i, j);
    if n == 1 {
      ProbeFirst(calls, times[i], i);
    } else {
      ProbeState(times, i, j, n - 1);
      assert calls[n - 1] == Call("b", times[i], times[n - 1]);
      OtherNonceStep(CacheAfter(calls, n - 1), LogAfter(calls, n - 1), calls[n - 1], "a");
    }
  }

  /** Forward readings are exactly what it takes: the map and the log agree on every choice of nonces
      and expiries at given clock readings if and only if, from the second on, they never go back. */
  lemma AgreeExactlyUnderForwardClock(times: seq<Instant>)
    ensures ClockForward(times) <==>
            forall calls: seq<Call> :: Times(calls) == times ==>
              forall n :: 0 <= n < |calls| ==> (CacheAnswer(calls, n) <==> LogAnswer(calls, n))
  {
    if ClockForward(times) {
      forall calls: seq<Call>, n | Times(calls) == times && 0 <= n < |calls|
        ensures CacheAnswer(calls, n) <==> LogAnswer(calls, n)
      {
        PruningIsUnobservable(calls, n);
      }
    } else {
      var i, j :| 1 <= i < j < |times| && times[i] > times[j];
      ProbeState(times, i, j, j);
      var calls := Probe(times, i, j);
      assert calls[j] == Call("a", times[i], times[j]);
      assert LogAnswer(calls, j) && !CacheAnswer(calls, j);
    }
  }
}
