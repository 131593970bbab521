/** How long a captured request is refused (verifier.go, sign.go, replay.go): the skew window
    against the retention of nonces. */
module ReplayBound {
  import opened Wrappers
  import opened Tokens
  import opened Allowlists
  import opened Replay
  import opened Requests

  /** One request at a verifier with a replay cache: the signatures and lists at that moment, the
      verifier's clock reading, and the cache's. */
  datatype Visit = Visit(view: View, lists: Lists, req: Request, now: Instant, cacheNow: Instant)

  function Serve(cfg: Config, m: Nonces, visit: Visit): (Option<Identity>, Nonces) {
    var (id, after) := Authenticate(visit.view, cfg, visit.lists, Some(m), visit.req, visit.now, visit.cacheNow);
    (id, if after.Some? then after.value else m)
  }

  function NoncesAfter(cfg: Config, visits: seq<Visit>, n: nat): Nonces
    requires n <= |visits|
  {
    if n == 0 then map[] else Serve(cfg, NoncesAfter(cfg, visits, n - 1), visits[n - 1]).1
  }

  predicate AcceptedAt(cfg: Config, visits: seq<Visit>, n: nat)
    requires n < |visits|
  {
    Serve(cfg, NoncesAfter(cfg, visits, n), visits[n]).0.Some?
  }

  /** The cache's clock never goes back, and a verifier reads its clock before the cache does. */
  ghost predicate ClockInOrder(visits: seq<Visit>) {
    && (forall i :: 0 <= i < |visits| ==> visits[i].now <= visits[i].cacheNow)
    && (forall i, j :: 0 <= i < j < |visits| ==> visits[i].cacheNow <= visits[j].cacheNow)
  }

  /** The nonce is still held until the given instant, unless that instant has passed. */
  ghost predicate HeldUntil(m: Nonces, nonce: string, until: Instant, now: Instant) {
    now >= until || (nonce in m && m[nonce] >= until)
  }

  /** The cache is left alone, or takes one SeenBefore step at the cache's reading. */
  ghost predicate CacheStep(m: Nonces, visit: Visit, skew: int, after: Nonces) {
    after == m || after == SeenStep(m, visit.req.nonce, visit.now + 2 * skew, visit.cacheNow).1
  }

  lemma ServeSteps(cfg: Config, m: Nonces, visit: Visit)
    ensures CacheStep(m, visit, cfg.skew, Serve(cfg, m, visit).1)
  {
  }

  /** An accepted signed request had a nonce the cache did not hold, and leaves it held for twice the
      skew past the verifier's reading. */
  lemma AcceptanceRecords(cfg: Config, m: Nonces, visit: Visit)
    requires Serve(cfg, m, visit).0.Some? && visit.req.Signs()
    ensures visit.req.nonce in m ==> m[visit.req.nonce] <= visit.cacheNow
    ensures HeldUntil(Serve(cfg, m, visit).1, visit.req.nonce, visit.now + 2 * cfg.skew, visit.cacheNow)
  {
  }

  lemma HeldFirst(cfg: Config, visits: seq<Visit>, i: nat)
    requires i < |visits| && AcceptedAt(cfg, visits, i) && visits[i].req.Signs()
    ensures HeldUntil(NoncesAfter(cfg, visits, i + 1), visits[i].req.nonce, visits[i].now + 2 * cfg.skew, visits[i].cacheNow)
  {
    AcceptanceRecords(cfg, NoncesAfter(cfg, visits, i), visits[i]);
  }

  /** What the cache holds before and after each visit. */
  function StatesOf(cfg: Config, visits: seq<Visit>): (states: seq<Nonces>)
    ensures |states| == |visits| + 1
    ensures forall k :: 0 <= k <= |visits| ==> states[k] == NoncesAfter(cfg, visits, k)
  {
    seq(|visits| + 1, k requires 0 <= k <= |visits| => NoncesAfter(cfg, visits, k))
  }

  ghost predicate CacheRun(states: seq<Nonces>, visits: seq<Visit>, skew: int) {
    && |states| == |visits| + 1
    && forall k :: 0 <= k < |visits| ==> CacheStep(states[k], visits[k], skew, states[k + 1])
  }

  lemma VisitSteps(cfg: Config, visits: seq<Visit>, k: nat)
    requires k < |visits|
    ensures CacheStep(NoncesAfter(cfg, visits, k), visits[k], cfg.skew, NoncesAfter(cfg, visits, k + 1))
  {
    ServeSteps(cfg, NoncesAfter(cfg, visits, k), visits[k]);
  }

  lemma VisitsRunTheCache(cfg: Config, visits: seq<Visit>)
    ensures CacheRun(StatesOf(cfg, visits), visits, cfg.skew)
  {
    var states := StatesOf(cfg, visits);
    forall k | 0 <= k < |visits|
      ensures CacheStep(states[k], visits[k], cfg.skew, states[k + 1])
    {
      VisitSteps(cfg, visits, k);
    }
  }

  lemma StepHolds(m: Nonces, visit: Visit, skew: int, after: Nonces, nonce: string, until: Instant, since: Instant)
    requires CacheStep(m, visit, skew, after) && HeldUntil(m, nonce, until, since) && since <= visit.cacheNow
    ensures HeldUntil(after, nonce, until, visit.cacheNow)
  {
  }

  /** A nonce held after one visit is held through the later ones. */
  lemma {:induction false} HeldOnwards(states: seq<Nonces>, visits: seq<Visit>, skew: int, i: nat, n: nat,
                                       nonce: string, until: Instant)
    requires i < n <= |visits| && ClockInOrder(visits) && CacheRun(states, visits, skew)
    requires HeldUntil(states[i + 1], nonce, until, visits[i].cacheNow)
    ensures HeldUntil(states[n], nonce, until, visits[n - 1].cacheNow)
  {
    if n > i + 1 {
      HeldOnwards(states, visits, skew, i, n - 1, nonce, until);
      StepHolds(states[n - 1], visits[n - 1], skew, states[n], nonce, until, visits[n - 2].cacheNow);
    }
  }

  /** An accepted signed request is inside the window around its timestamp. */
  lemma AcceptedInWindow(cfg: Config, m: Nonces, visit: Visit)
    requires Serve(cfg, m, visit).0.Some? && visit.req.Signs()
    ensures var ts := visit.view.lib.parseTime(visit.req.timestamp);
            ts.Some? && ts.value - cfg.skew <= visit.now <= ts.value + cfg.skew
  {
  }

  /** In every run, two accepted signed requests with one nonce are at least twice the skew apart. If
      they also carry one timestamp, as a replay does, the second is read by the verifier no later
      than that and by the cache no earlier; with a single reading for both, it comes at exactly twice
      the skew after the first, whose timestamp lay exactly the skew ahead. */
  lemma ReplayOnlyAtTheEdge(cfg: Config, visits: seq<Visit>, i: nat, j: nat)
    requires i < j < |visits| && ClockInOrder(visits)
    requires AcceptedAt(cfg, visits, i) && AcceptedAt(cfg, visits, j)
    requires visits[i].req.Signs() && visits[j].req.Signs() && visits[i].req.nonce == visits[j].req.nonce
    ensures visits[i].now + 2 * cfg.skew <= visits[j].cacheNow
    ensures visits[i].view.lib.parseTime(visits[i].req.timestamp) == visits[j].view.lib.parseTime(visits[j].req.timestamp) ==>
              var ts := visits[i].view.lib.parseTime(visits[i].req.timestamp).value;
              && visits[j].now <= ts + cfg.skew <= visits[i].now + 2 * cfg.skew <= visits[j].cacheNow
              && (visits[j].now == visits[j].cacheNow ==>
                    visits[j].now == visits[i].now + 2 * cfg.skew && ts == visits[i].now + cfg.skew)
  {
    HeldFirst(cfg, visits, i);
    VisitsRunTheCache(cfg, visits);
    HeldOnwards(StatesOf(cfg, visits), visits, cfg.skew, i, j, visits[i].req.nonce, visits[i].now + 2 * cfg.skew);
    AcceptanceRecords(cfg, NoncesAfter(cfg, visits, j), visits[j]);
    AcceptedInWindow(cfg, NoncesAfter(cfg, visits, i), visits[i]);
    AcceptedInWindow(cfg, NoncesAfter(cfg, visits, j), visits[j]);
  }

  /** Everything but the nonce step lets the request through. */
  predicate OtherwisePasses(cfg: Config, visit: Visit) {
    Authenticate(visit.view, cfg, visit.lists, None, visit.req, visit.now, visit.cacheNow).0.Some?
  }

  /** The bound is exact: presented again right after, to a verifier it otherwise still passes, an
      accepted request is accepted a second time if and only if it comes twice the skew later and its
      timestamp lay the skew ahead of the first reading. */
  lemma EdgeIsExact(cfg: Config, m: Nonces, visit: Visit, again: Visit, ts: Instant)
    requires Serve(cfg, m, visit).0.Some? && visit.req.Signs() && again.req == visit.req
    requires visit.now == visit.cacheNow <= again.now == again.cacheNow
    requires visit.view.lib.parseTime(visit.req.timestamp) == Some(ts) == again.view.lib.parseTime(again.req.timestamp)
    requires OtherwisePasses(cfg, again)
    ensures Serve(cfg, Serve(cfg, m, visit).1, again).0.Some? <==>
            again.now == visit.now + 2 * cfg.skew && ts == visit.now + cfg.skew
  {
    AcceptanceRecords(cfg, m, visit);
    AcceptedInWindow(cfg, m, visit);
    var after := Serve(cfg, m, visit).1;
    RecordedExactly(cfg, m, visit);
    PassesIffUnseen(cfg, after, again);
  }

  lemma RecordedExactly(cfg: Config, m: Nonces, visit: Visit)
    requires Serve(cfg, m, visit).0.Some? && visit.req.Signs()
    ensures Serve(cfg, m, visit).1 == Prune(m, visit.cacheNow)[visit.req.nonce := visit.now + 2 * cfg.skew]
    ensures visit.req.nonce != ""
  {
  }

  lemma PassesIffUnseen(cfg: Config, m: Nonces, visit: Visit)
    requires OtherwisePasses(cfg, visit) && visit.req.Signs() && visit.req.nonce != ""
    ensures Serve(cfg, m, visit).0.Some? <==> !(visit.req.nonce in m && m[visit.req.nonce] > visit.cacheNow)
    ensures var ts := visit.view.lib.parseTime(visit.req.timestamp);
            ts.Some? && ts.value - cfg.skew <= visit.now <= ts.value + cfg.skew
  {
  }
}
