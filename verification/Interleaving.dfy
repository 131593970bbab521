/** Any number of requests verified at once over one shared chain cache. The cache's Get, Put
    and Del are single steps under its lock; everything else a request does is private to it. */
module Interleaving {
  import opened Wrappers
  import opened Tokens
  import opened Messages
  import opened Negotiation

  datatype Phase =
    | Arrived
    | Looked(hit: Option<Chain>)
    | Decided(outcome: Outcome, effect: Effect)
    | Done(outcome: Outcome)

  datatype Thread = Thread(request: Incoming, phase: Phase)

  /** A message that fully verified: the attempt that accepted it. */
  datatype Acceptance = Acceptance(request: Incoming, chain: Option<Chain>, at: Instant, claims: MessageClaims)

  /** `accepted` lists the acceptances so far; nothing is ever removed from it. */
  datatype System = System(view: View, cache: map<string, Chain>, threads: map<nat, Thread>, accepted: seq<Acceptance>)

  datatype Step =
    | Arrive(id: nat, request: Incoming)
    | Look(id: nat)
    | Decide(id: nat, first: Instant, second: Instant)
    | Commit(id: nat)
    | Sign

  /** The attempt behind a verified outcome. */
  function Accepting(v: View, s: Settings, r: Incoming, hit: Option<Chain>, first: Instant, second: Instant): Acceptance
    requires Handle(v, s, r, hit, first, second).0.Verified?
  {
    var claims := Handle(v, s, r, hit, first, second).0.claims;
    if r.Detached() then Acceptance(r, Some(r.Headers()), first, claims)
    else if Consults(v, s, r).None? || hit.None? then Acceptance(r, None, first, claims)
    else if Attempt(v, s, r, hit, first).Accepted? then Acceptance(r, hit, first, claims)
    else Acceptance(r, None, second, claims)
  }

  ghost predicate Next(s: Settings, a: System, step: Step, b: System) {
    match step
    case Arrive(id, r) =>
      id !in a.threads && b.view == a.view && b.cache == a.cache && b.accepted == a.accepted
      && b.threads == a.threads[id := Thread(r, Arrived)]
    case Look(id) =>
      && id in a.threads && a.threads[id].phase.Arrived?
      && b.view == a.view && b.cache == a.cache && b.accepted == a.accepted
      && b.threads == a.threads[id := Thread(a.threads[id].request, Looked(Lookup(a.view, s, a.threads[id].request, a.cache)))]
    case Decide(id, first, second) =>
      && id in a.threads && a.threads[id].phase.Looked?
      && var Thread(r, Looked(hit)) := a.threads[id];
         var (outcome, effect) := Handle(a.view, s, r, hit, first, second);
         && b.view == a.view && b.cache == a.cache
         && b.accepted == (if outcome.Verified? then a.accepted + [Accepting(a.view, s, r, hit, first, second)] else a.accepted)
         && b.threads == a.threads[id := Thread(r, Decided(outcome, effect))]
    case Commit(id) =>
      && id in a.threads && a.threads[id].phase.Decided?
      && b.view == a.view && b.accepted == a.accepted
      && Applied(a.threads[id].phase.effect, a.cache, b.cache)
      && b.threads == a.threads[id := Thread(a.threads[id].request, Done(a.threads[id].phase.outcome))]
    case Sign =>
      b.view.Extends(a.view) && b.cache == a.cache && b.threads == a.threads && b.accepted == a.accepted
  }

  ghost predicate Initial(a: System) {
    a.cache == map[] && a.threads == map[] && a.accepted == []
  }

  ghost predicate Run(s: Settings, states: seq<System>, steps: seq<Step>) {
    && |states| == |steps| + 1
    && Initial(states[0])
    && forall i :: 0 <= i < |steps| ==> Next(s, states[i], steps[i], states[i + 1])
  }

  /** The acceptance of a message of this user key, fully verified under exactly this chain. */
  ghost predicate Proves(v: View, s: Settings, e: Acceptance, key: string, chain: Chain) {
    && e.chain == Some(chain) && e.claims.claims.subject == key
    && e.request.token != "" && e.request.body.Some?
    && Attempt(v, s, e.request, e.chain, e.at) == Accepted(e.claims)
  }

  ghost predicate Backed(a: System, s: Settings, key: string, chain: Chain) {
    s.caching && exists e :: e in a.accepted && Proves(a.view, s, e, key, chain)
  }

  ghost predicate Sound(s: Settings, a: System) {
    && (forall k :: k in a.cache ==> Backed(a, s, k, a.cache[k]))
    && (forall id :: PendingStore(a, id) ==>
          Backed(a, s, a.threads[id].phase.effect.key, a.threads[id].phase.effect.chain))
  }

  lemma ProvesStays(s: Settings, v: View, later: View, e: Acceptance, key: string, chain: Chain)
    requires Proves(v, s, e, key, chain) && later.Extends(v)
    ensures Proves(later, s, e, key, chain)
  {
    var opts := AttemptOptions(s.opts, e.chain, e.request.audience, e.request.body.value);
    AcceptedMonotone(v, later, s.anchor, e.request.token, ConfigOf(opts), e.at);
  }

  lemma BackedStays(s: Settings, a: System, b: System, key: string, chain: Chain)
    requires Backed(a, s, key, chain) && b.view.Extends(a.view) && a.accepted <= b.accepted
    ensures Backed(b, s, key, chain)
  {
    var e :| e in a.accepted && Proves(a.view, s, e, key, chain);
    ProvesStays(s, a.view, b.view, e, key, chain);
    var i :| 0 <= i < |a.accepted| && a.accepted[i] == e;
    assert b.accepted[i] == e;
  }

  /** A decision to store a chain follows a full verification under it. */
  lemma StoreIsProved(v: View, s: Settings, r: Incoming, hit: Option<Chain>, first: Instant, second: Instant)
    requires Handle(v, s, r, hit, first, second).1.Store?
    ensures var (outcome, effect) := Handle(v, s, r, hit, first, second);
            s.caching && outcome.Verified? && Proves(v, s, Accepting(v, s, r, hit, first, second), effect.key, effect.chain)
  {
  }

  ghost predicate PendingStore(a: System, id: nat) {
    id in a.threads && a.threads[id].phase.Decided? && a.threads[id].phase.effect.Store?
  }

  lemma StepGrows(s: Settings, a: System, step: Step, b: System)
    requires Next(s, a, step, b)
    ensures b.view.Extends(a.view) && a.accepted <= b.accepted
  {
  }

  /** A step puts an entry in the cache only by committing a pending store. */
  lemma NewEntryWasPending(s: Settings, a: System, step: Step, b: System, k: string)
    requires Next(s, a, step, b) && k in b.cache && !(k in a.cache && b.cache[k] == a.cache[k])
    ensures step.Commit? && PendingStore(a, step.id) && a.threads[step.id].phase.effect == Store(k, b.cache[k])
  {
  }

  /** A store becomes pending only when its thread decides, with its proof recorded. */
  lemma NewPendingIsProved(s: Settings, a: System, step: Step, b: System, id: nat)
    requires Next(s, a, step, b) && PendingStore(b, id) && !(id in a.threads && a.threads[id] == b.threads[id])
    ensures Backed(b, s, b.threads[id].phase.effect.key, b.threads[id].phase.effect.chain)
  {
    var Thread(r, Looked(hit)) := a.threads[id];
    StoreIsProved(a.view, s, r, hit, step.first, step.second);
    assert Accepting(a.view, s, r, hit, step.first, step.second) in b.accepted;
  }

  lemma StepKeepsSound(s: Settings, a: System, step: Step, b: System)
    requires Sound(s, a) && Next(s, a, step, b)
    ensures Sound(s, b)
  {
    StepGrows(s, a, step, b);
    forall k | k in b.cache
      ensures Backed(b, s, k, b.cache[k])
    {
      if !(k in a.cache && b.cache[k] == a.cache[k]) {
        NewEntryWasPending(s, a, step, b, k);
      }
      BackedStays(s, a, b, k, b.cache[k]);
    }
    forall id | PendingStore(b, id)
      ensures Backed(b, s, b.threads[id].phase.effect.key, b.threads[id].phase.effect.chain)
    {
      if id in a.threads && a.threads[id] == b.threads[id] {
        assert PendingStore(a, id);
        BackedStays(s, a, b, b.threads[id].phase.effect.key, b.threads[id].phase.effect.chain);
      } else {
        NewPendingIsProved(s, a, step, b, id);
      }
    }
  }

  lemma {:induction false} RunIsSound(s: Settings, states: seq<System>, steps: seq<Step>, n: nat)
    requires Run(s, states, steps) && n < |states|
    ensures Sound(s, states[n])
  {
    if n > 0 {
      RunIsSound(s, states, steps, n - 1);
      StepKeepsSound(s, states[n - 1], steps[n - 1], states[n]);
    }
  }

  /** The acceptance read the chain's user token as one for this key. */
  ghost predicate NamesKey(v: View, e: Acceptance, key: string, chain: Chain) {
    && VerifyUser(v, chain.user, e.claims.account.claims.subject) == Some(e.claims.user)
    && e.claims.user.claims.subject == key
  }

  lemma UserTokenNamesKey(v: View, s: Settings, e: Acceptance, key: string, chain: Chain)
    requires Proves(v, s, e, key, chain) && !PinsChain(s.opts)
    ensures NamesKey(v, e, key, chain)
  {
    AttemptConfig(s.opts, e.chain, e.request.audience, e.request.body.value);
  }

  /** Every cached entry is a chain under which an earlier message of its key fully verified, and whose
      user token is for that key. */
  ghost predicate OnlyVerified(s: Settings, a: System) {
    forall key :: key in a.cache ==>
      exists e :: e in a.accepted && Proves(a.view, s, e, key, a.cache[key]) && NamesKey(a.view, e, key, a.cache[key])
  }

  /** In every interleaving, with no chain pinned, only such chains are cached. */
  lemma CachedChainsAreVerified(s: Settings, states: seq<System>, steps: seq<Step>, n: nat)
    requires Run(s, states, steps) && n < |states| && !PinsChain(s.opts)
    ensures OnlyVerified(s, states[n])
  {
    RunIsSound(s, states, steps, n);
    var v := states[n].view;
    forall key | key in states[n].cache
      ensures exists e :: e in states[n].accepted && Proves(v, s, e, key, states[n].cache[key])
                          && NamesKey(v, e, key, states[n].cache[key])
    {
      assert Backed(states[n], s, key, states[n].cache[key]);
      var e :| e in states[n].accepted && Proves(v, s, e, key, states[n].cache[key]);
      UserTokenNamesKey(v, s, e, key, states[n].cache[key]);
    }
  }

  // ------------------------------------------------------------------
  // Exactly when that holds of a receiver.
  // ------------------------------------------------------------------

  /** Some message would be accepted at some instant: the receiver is of use to someone. */
  ghost predicate Accepts(s: Settings, v: View, r: Incoming, now: Instant) {
    r.token != "" && r.body.Some? && Attempt(v, s, r, None, now).Accepted?
  }

  ghost predicate AcceptsSome(s: Settings) {
    exists v, r, now :: Accepts(s, v, r, now)
  }

  ghost predicate OnlyVerifiedInEveryRun(s: Settings) {
    forall states, steps, n :: Run(s, states, steps) && 0 <= n < |states| ==> OnlyVerified(s, states[n])
  }

  /** The run of one request, alone, from the empty cache. */
  function StatesOf(v: View, s: Settings, r: Incoming, now: Instant, chain: Chain): (states: seq<System>)
    requires Handle(v, s, r, None, now, now).0.Verified?
    ensures |states| == 5
  {
    var outcome := Handle(v, s, r, None, now, now).0;
    var effect := Store(outcome.claims.claims.subject, chain);
    var accepted := [Accepting(v, s, r, None, now, now)];
    [System(v, map[], map[], []),
     System(v, map[], map[0 := Thread(r, Arrived)], []),
     System(v, map[], map[0 := Thread(r, Looked(None))], []),
     System(v, map[], map[0 := Thread(r, Decided(outcome, effect))], accepted),
     System(v, map[effect.key := chain], map[0 := Thread(r, Done(outcome))], accepted)]
  }

  /** With a chain pinned, a message that is accepted carries any two nonempty strings into the cache:
      there is a run that ends with them stored under its key. */
  lemma PinnedRunCachesAnything(s: Settings, v: View, r: Incoming, now: Instant, account: string, user: string)
    returns (states: seq<System>, steps: seq<Step>, key: string)
    requires s.caching && PinsChain(s.opts) && Accepts(s, v, r, now) && account != "" && user != ""
    ensures Run(s, states, steps) && |states| == 5
    ensures states[4].view == v && key in states[4].cache && states[4].cache[key] == Chain(account, user)
  {
    PinnedChainStoresAnything(v, s, r, account, user, now, now);
    var q := r.(chainAccount := account, chainUser := user);
    var (outcome, effect) := Handle(v, s, q, None, now, now);
    states := StatesOf(v, s, q, now, Chain(account, user));
    steps := [Arrive(0, q), Look(0), Decide(0, now, now), Commit(0)];
    key := effect.key;
    OneRequestRuns(s, v, q, now);
  }

  lemma OneRequestRuns(s: Settings, v: View, q: Incoming, now: Instant)
    requires q.Detached() && Handle(v, s, q, None, now, now).0.Verified?
    requires Handle(v, s, q, None, now, now).1 == Store(Handle(v, s, q, None, now, now).0.claims.claims.subject, q.Headers())
    ensures Run(s, StatesOf(v, s, q, now, q.Headers()), [Arrive(0, q), Look(0), Decide(0, now, now), Commit(0)])
  {
    var states := StatesOf(v, s, q, now, q.Headers());
    var steps := [Arrive(0, q), Look(0), Decide(0, now, now), Commit(0)];
    assert Next(s, states[0], steps[0], states[1]);
    assert Next(s, states[1], steps[1], states[2]);
    OneRequestStores(s, v, q, now);
  }

  lemma OneRequestStores(s: Settings, v: View, q: Incoming, now: Instant)
    requires q.Detached() && Handle(v, s, q, None, now, now).0.Verified?
    requires Handle(v, s, q, None, now, now).1 == Store(Handle(v, s, q, None, now, now).0.claims.claims.subject, q.Headers())
    ensures var states := StatesOf(v, s, q, now, q.Headers());
            Next(s, states[2], Decide(0, now, now), states[3]) && Next(s, states[3], Commit(0), states[4])
  {
  }

  /** A message token is no user token, so as one it names nobody. */
  lemma MessageNamesNobody(v: View, token: string, account: string)
    requires IsMessage(v, token)
    ensures VerifyUser(v, token, account).None?
  {
  }

  /** A receiver caches only verified chains, in every run, if and only if it pins no chain, or has no
      cache, or can accept no message at all. */
  lemma OnlyVerifiedExactly(s: Settings)
    ensures OnlyVerifiedInEveryRun(s) <==> !PinsChain(s.opts) || !s.caching || !AcceptsSome(s)
  {
    if !PinsChain(s.opts) {
      forall states, steps, n | Run(s, states, steps) && 0 <= n < |states|
        ensures OnlyVerified(s, states[n])
      {
        CachedChainsAreVerified(s, states, steps, n);
      }
    } else if s.caching && AcceptsSome(s) {
      PinnedRunBreaks(s);
    } else {
      forall states, steps, n | Run(s, states, steps) && 0 <= n < |states|
        ensures OnlyVerified(s, states[n])
      {
        NothingToCache(s, states, steps, n);
      }
    }
  }

  lemma PinnedRunBreaks(s: Settings)
    requires s.caching && PinsChain(s.opts) && AcceptsSome(s)
    ensures !OnlyVerifiedInEveryRun(s)
  {
    var v, r, now :| Accepts(s, v, r, now);
    var states, steps, key := PinnedRunCachesAnything(s, v, r, now, "any", r.token);
    forall account
      ensures VerifyUser(v, r.token, account).None?
    {
      MessageNamesNobody(v, r.token, account);
    }
    assert forall e :: !NamesKey(v, e, key, Chain("any", r.token));
    assert !OnlyVerified(s, states[4]);
  }

  lemma NothingToCache(s: Settings, states: seq<System>, steps: seq<Step>, n: nat)
    requires Run(s, states, steps) && n < |states| && PinsChain(s.opts) && !(s.caching && AcceptsSome(s))
    ensures states[n].cache == map[]
  {
    RunIsSound(s, states, steps, n);
    forall key
      ensures key !in states[n].cache
    {
      if key in states[n].cache {
        assert Backed(states[n], s, key, states[n].cache[key]);
        var e :| e in states[n].accepted && Proves(states[n].view, s, e, key, states[n].cache[key]);
        AttemptConfig(s.opts, e.chain, e.request.audience, e.request.body.value);
        AttemptConfig(s.opts, None, e.request.audience, e.request.body.value);
        assert Accepts(s, states[n].view, e.request, e.at);
      }
    }
  }

  /** Undisturbed, a thread's three steps are what Receiver.Verify does in one call. */
  lemma AloneIsVerify(s: Settings, a: System, b: System, c: System, d: System, id: nat, first: Instant, second: Instant)
    requires id in a.threads && Next(s, a, Look(id), b) && Next(s, b, Decide(id, first, second), c) && Next(s, c, Commit(id), d)
    ensures var r := a.threads[id].request;
            var (outcome, effect) := Handle(a.view, s, r, Lookup(a.view, s, r, a.cache), first, second);
            d.threads[id] == Thread(r, Done(outcome)) && Applied(effect, a.cache, d.cache)
  {
  }
}
