/** Chain negotiation: the chain cache (chain.go), the receiving step shared by
    contrib/httpsig/middleware.go and contrib/grpcsig/server.go, and the emitting exchange of
    contrib/httpsig/transport.go and contrib/grpcsig/client.go. */
module Negotiation {
  import opened Wrappers
  import opened Tokens
  import opened Messages

  // ------------------------------------------------------------------
  // The cache.
  // ------------------------------------------------------------------

  const CAPACITY := 1024

  /** Put on a map: the entry is there, nothing is altered, and at most one other entry is gone,
      only when the map was full and the key new. */
  ghost predicate PutResult(before: map<string, Chain>, key: string, chain: Chain, after: map<string, Chain>) {
    if key in before || |before| < 1024 then after == before[key := chain]
    else exists victim :: victim in before && after == (before - {victim})[key := chain]
  }

  class ChainCache {
    var entries: map<string, Chain>

    constructor ()
      ensures entries == map[]
    {
      entries := map[];
    }

    ghost predicate Bounded()
      reads this
    {
      |entries| <= CAPACITY
    }

    method Get(key: string) returns (hit: Option<Chain>)
      ensures hit == if key in entries then Some(entries[key]) else None
    {
      if key in entries {
        return Some(entries[key]);
      }
      return None;
    }

    method Put(key: string, account: string, user: string)
      requires Bounded()
      modifies this
      ensures Bounded() && PutResult(old(entries), key, Chain(account, user), entries)
    {
      if key !in entries && |entries| >= CAPACITY {
        assert entries.Keys != {};
        var victim :| victim in entries;
        entries := entries - {victim};
        assert old(entries).Keys == entries.Keys + {victim};
      }
      entries := entries[key := Chain(account, user)];
    }

    method Del(key: string)
      modifies this
      ensures entries == old(entries) - {key}
      ensures old(Bounded()) ==> Bounded()
    {
      SmallerDomain(entries, key);
      entries := entries - {key};
    }
  }

  lemma SmallerDomain(m: map<string, Chain>, key: string)
    ensures |m - {key}| <= |m|
  {
    if key in m {
      assert m.Keys == (m - {key}).Keys + {key};
    } else {
      assert m - {key} == m;
    }
  }

  // ------------------------------------------------------------------
  // One request at the receiver.
  // ------------------------------------------------------------------

  /** What a transport extracts from one incoming request; body is None when it cannot be read. */
  datatype Incoming = Incoming(token: string, chainAccount: string, chainUser: string,
                               audience: string, body: Option<string>)
  {
    predicate Detached() {
      chainAccount != "" && chainUser != ""
    }

    function Headers(): Chain {
      Chain(chainAccount, chainUser)
    }
  }

  datatype Settings = Settings(anchor: Anchor, opts: seq<VerifyOption>, caching: bool)

  datatype Outcome = Verified(claims: MessageClaims) | ChainMissing | Unauthorized | Unreadable

  /** What a request leaves to do on the cache. */
  datatype Effect = Keep | Drop(key: string) | Store(key: string, chain: Chain)

  ghost predicate Applied(e: Effect, before: map<string, Chain>, after: map<string, Chain>) {
    match e
    case Keep => after == before
    case Drop(key) => after == before - {key}
    case Store(key, chain) => PutResult(before, key, chain, after)
  }

  /** The verification options of one attempt: negotiated chain first, bindings last. */
  function AttemptOptions(opts: seq<VerifyOption>, chain: Option<Chain>, audience: string, body: string): seq<VerifyOption> {
    (if chain.Some? then [WithChainTokens(chain.value.account, chain.value.user)] else [])
    + opts + Bindings(audience, body)
  }

  function Attempt(v: View, s: Settings, r: Incoming, chain: Option<Chain>, now: Instant): Verdict
    requires r.body.Some?
  {
    MessageVerdict(v, s.anchor, r.token, ConfigOf(AttemptOptions(s.opts, chain, r.audience, r.body.value)), now)
  }

  /** The key whose cache entry the request consults, if it consults the cache at all. */
  function Consults(v: View, s: Settings, r: Incoming): Option<string> {
    if r.token == "" || r.body.None? || r.Detached() || !s.caching || v.decode(r.token).None? then None
    else Some(v.decode(r.token).value.issuer)
  }

  function Plain(verdict: Verdict): Outcome {
    match verdict
    case Accepted(m) => Verified(m)
    case NoChain => ChainMissing
    case Rejected => Unauthorized
  }

  /** The outcome of a request and its effect on the cache, given what the cache returned for the
      key it consulted and the clock readings of the one or two attempts. */
  function Handle(v: View, s: Settings, r: Incoming, hit: Option<Chain>, first: Instant, second: Instant)
    : (Outcome, Effect)
  {
    if r.token == "" then (Unauthorized, Keep)
    else if r.body.None? then (Unreadable, Keep)
    else if r.Detached() then
      var verdict := Attempt(v, s, r, Some(r.Headers()), first);
      (Plain(verdict),
       if verdict.Accepted? && s.caching then Store(verdict.claims.claims.subject, r.Headers()) else Keep)
    else if Consults(v, s, r).None? || hit.None? then
      (Plain(Attempt(v, s, r, None, first)), Keep)
    else
      var cached := Attempt(v, s, r, hit, first);
      if cached.Accepted? then (Plain(cached), Keep)
      else
        var bare := Attempt(v, s, r, None, second);
        (Plain(bare), if bare.Rejected? then Keep else Drop(Consults(v, s, r).value))
  }

  /** What the cache answers to a request's lookup. */
  function Lookup(v: View, s: Settings, r: Incoming, entries: map<string, Chain>): Option<Chain> {
    match Consults(v, s, r)
    case None => None
    case Some(key) => if key in entries then Some(entries[key]) else None
  }

  class Receiver {
    const anchor: Anchor
    const opts: seq<VerifyOption>
    const cache: ChainCache?

    constructor (anchor: Anchor, opts: seq<VerifyOption>, cache: ChainCache?)
      ensures this.anchor == anchor && this.opts == opts && this.cache == cache
    {
      this.anchor, this.opts, this.cache := anchor, opts, cache;
    }

    function Config(): Settings {
      Settings(anchor, opts, cache != null)
    }

    method VerifyOnce(v: View, r: Incoming, chain: Option<Chain>, now: Instant) returns (verdict: Verdict)
      requires r.body.Some?
      ensures verdict == Attempt(v, Config(), r, chain, now)
    {
      var all: seq<VerifyOption> := [];
      if chain.Some? {
        all := all + [WithChainTokens(chain.value.account, chain.value.user)];
      }
      all := all + opts;
      all := all + [ExpectAudience(r.audience), WithPayload(r.body.value)];
      assert all == AttemptOptions(opts, chain, r.audience, r.body.value);
      verdict := VerifyUnder(v, anchor, r.token, all, now);
    }

    /** The cached chain, when no complete one came with the request and the token names a key. */
    method Fetch(v: View, r: Incoming) returns (key: string, hit: Option<Chain>)
      requires r.token != "" && r.body.Some?
      ensures hit == if cache == null then None else Lookup(v, Config(), r, cache.entries)
      ensures hit.Some? ==> Consults(v, Config(), r) == Some(key)
    {
      key, hit := "", None;
      if !r.Detached() && cache != null {
        var c := v.decode(r.token);
        if c.Some? {
          key := c.value.issuer;
          hit := cache.Get(key);
        }
      }
    }

    method Verify(v: View, r: Incoming, first: Instant, second: Instant) returns (outcome: Outcome)
      requires cache != null ==> cache.Bounded()
      modifies cache
      ensures cache == null ==> outcome == Handle(v, Config(), r, None, first, second).0
      ensures cache != null ==> cache.Bounded()
      ensures cache != null ==>
                var hit := Lookup(v, Config(), r, old(cache.entries));
                && outcome == Handle(v, Config(), r, hit, first, second).0
                && Applied(Handle(v, Config(), r, hit, first, second).1, old(cache.entries), cache.entries)
    {
      if r.token == "" {
        return Unauthorized;
      }
      if r.body.None? {
        return Unreadable;
      }
      var detached := r.Detached();
      var cacheKey, hit := Fetch(v, r);
      var verdict := VerifyOnce(v, r, if detached then Some(r.Headers()) else hit, first);
      if !verdict.Accepted? && hit.Some? {
        verdict := VerifyOnce(v, r, None, second);
        if verdict.Accepted? || verdict.NoChain? {
          cache.Del(cacheKey);
        }
      }
      if !verdict.Accepted? {
        return Plain(verdict);
      }
      if detached && cache != null {
        cache.Put(verdict.claims.claims.subject, r.chainAccount, r.chainUser);
      }
      return Verified(verdict.claims);
    }
  }

  // ------------------------------------------------------------------
  // What the receiver's decisions mean.
  // ------------------------------------------------------------------

  /** The configuration of one attempt, field by field. */
  lemma AttemptConfig(opts: seq<VerifyOption>, chain: Option<Chain>, audience: string, body: string)
    ensures ConfigOf(AttemptOptions(opts, chain, audience, body)) ==
            ConfigOf(opts).(audience := audience, payload := Some(body),
                            chain := if PinsChain(opts) then ConfigOf(opts).chain else chain)
  {
    var given := if chain.Some? then [WithChainTokens(chain.value.account, chain.value.user)] else [];
    if chain.Some? {
      ChainPrepended(opts, chain.value.account, chain.value.user);
    } else {
      assert given + opts == opts;
    }
    BindingsFoldLast(given + opts, audience, body);
  }

  /** An attempt lacks a chain exactly when the message is genuine and nobody supplies one. */
  lemma AttemptNoChain(v: View, s: Settings, r: Incoming, chain: Option<Chain>, now: Instant)
    requires r.body.Some?
    ensures Attempt(v, s, r, chain, now).NoChain? <==>
            IsMessage(v, r.token) && v.decode(r.token).value.body.chain.None? && !PinsChain(s.opts) && chain.None?
  {
    AttemptConfig(s.opts, chain, r.audience, r.body.value);
  }

  /** The configuration a request is verified under, with a negotiated chain or without: the receiver's own
      options, then the request's bindings; a pinned chain outranks the negotiated one. */
  function RequestConfig(s: Settings, r: Incoming, chain: Option<Chain>): VerifyConfig
    requires r.body.Some?
  {
    var own := ConfigOf(s.opts);
    own.(audience := r.audience, payload := r.body, chain := if own.chain.Some? then own.chain else chain)
  }

  function VerdictWith(v: View, s: Settings, r: Incoming, chain: Option<Chain>, at: Instant): Verdict
    requires r.body.Some?
  {
    MessageVerdict(v, s.anchor, r.token, RequestConfig(s, r, chain), at)
  }

  lemma AttemptIsVerdict(v: View, s: Settings, r: Incoming, chain: Option<Chain>, at: Instant)
    requires r.body.Some?
    ensures Attempt(v, s, r, chain, at) == VerdictWith(v, s, r, chain, at)
  {
    AttemptConfig(s.opts, chain, r.audience, r.body.value);
  }

  /** The chain the cache contributes: only without a complete detached pair, under the issuer of a token
      that decodes. */
  function CachedFor(v: View, s: Settings, r: Incoming, entries: map<string, Chain>): Option<Chain> {
    if r.chainAccount != "" && r.chainUser != "" then None
    else if !s.caching || v.decode(r.token).None? then None
    else if v.decode(r.token).value.issuer in entries then Some(entries[v.decode(r.token).value.issuer])
    else None
  }

  /** What the cache is asked and answers. */
  lemma LookupExactly(v: View, s: Settings, r: Incoming, entries: map<string, Chain>)
    requires r.token != "" && r.body.Some?
    ensures Lookup(v, s, r, entries) == CachedFor(v, s, r, entries)
  {
  }

  /** A request with a complete detached pair is verified under it, and only that; when it is, the pair is
      stored under the message's key if there is a cache. */
  lemma DetachedExactly(v: View, s: Settings, r: Incoming, entries: map<string, Chain>, first: Instant, second: Instant)
    requires r.token != "" && r.body.Some? && r.chainAccount != "" && r.chainUser != ""
    ensures var (outcome, effect) := Handle(v, s, r, Lookup(v, s, r, entries), first, second);
            var verdict := VerdictWith(v, s, r, Some(Chain(r.chainAccount, r.chainUser)), first);
            && (forall m :: outcome == Verified(m) <==> verdict == Accepted(m))
            && (outcome.ChainMissing? <==> verdict.NoChain?) && !outcome.Unreadable?
            && effect == (if verdict.Accepted? && s.caching
                          then Store(v.decode(r.token).value.issuer, Chain(r.chainAccount, r.chainUser)) else Keep)
  {
    AttemptIsVerdict(v, s, r, Some(r.Headers()), first);
    VerifiedNamesItsKey(v, s, r, Lookup(v, s, r, entries), first, second);
  }

  /** With nothing from the cache, cache or no cache, the message stands or falls on its own. */
  lemma UncachedExactly(v: View, s: Settings, r: Incoming, entries: map<string, Chain>, first: Instant, second: Instant)
    requires r.token != "" && r.body.Some? && !(r.chainAccount != "" && r.chainUser != "")
    requires CachedFor(v, s, r, entries).None?
    ensures var (outcome, effect) := Handle(v, s, r, Lookup(v, s, r, entries), first, second);
            var verdict := VerdictWith(v, s, r, None, first);
            && (forall m :: outcome == Verified(m) <==> verdict == Accepted(m))
            && (outcome.ChainMissing? <==> verdict.NoChain?) && !outcome.Unreadable? && effect == Keep
  {
    AttemptIsVerdict(v, s, r, None, first);
  }

  /** With a cached chain: verified under it, and then nothing changes; else on its own, and then the cached
      entry goes whenever it is the suspect, the message having passed without it or lacking a chain. */
  lemma CachedExactly(v: View, s: Settings, r: Incoming, entries: map<string, Chain>, first: Instant, second: Instant)
    requires r.token != "" && r.body.Some? && CachedFor(v, s, r, entries).Some?
    ensures var (outcome, effect) := Handle(v, s, r, Lookup(v, s, r, entries), first, second);
            var cached, bare := VerdictWith(v, s, r, CachedFor(v, s, r, entries), first), VerdictWith(v, s, r, None, second);
            && (forall m :: outcome == Verified(m) <==> cached == Accepted(m) || (!cached.Accepted? && bare == Accepted(m)))
            && (outcome.ChainMissing? <==> !cached.Accepted? && bare.NoChain?) && !outcome.Unreadable?
            && effect == (if cached.Accepted? || bare.Rejected? then Keep else Drop(v.decode(r.token).value.issuer))
  {
    AttemptIsVerdict(v, s, r, CachedFor(v, s, r, entries), first);
    AttemptIsVerdict(v, s, r, None, second);
  }

  /** A request without a token, or with a body that cannot be read, goes no further. */
  lemma RefusedUnseen(v: View, s: Settings, r: Incoming, hit: Option<Chain>, first: Instant, second: Instant)
    requires r.token == "" || r.body.None?
    ensures Handle(v, s, r, hit, first, second) == (if r.token == "" then Unauthorized else Unreadable, Keep)
  {
  }

  /** A verified request is bound to its own destination and body, whatever options were added. */
  lemma VerifiedIsBound(v: View, s: Settings, r: Incoming, hit: Option<Chain>, first: Instant, second: Instant)
    ensures var outcome := Handle(v, s, r, hit, first, second).0;
            outcome.Verified? ==>
              && r.body.Some?
              && (r.audience != "" ==> outcome.claims.audience == r.audience)
              && outcome.claims.checksum == v.lib.hexSum(r.body.value)
  {
    if r.body.Some? {
      forall chain: Option<Chain>, now
        ensures Attempt(v, s, r, chain, now).Accepted? ==>
                  var m := Attempt(v, s, r, chain, now).claims;
                  && (r.audience != "" ==> m.audience == r.audience)
                  && m.checksum == v.lib.hexSum(r.body.value)
      {
        AttemptConfig(s.opts, chain, r.audience, r.body.value);
      }
    }
  }

  /** A verified request's token is a message of the key its claims name. */
  lemma VerifiedNamesItsKey(v: View, s: Settings, r: Incoming, hit: Option<Chain>, first: Instant, second: Instant)
    ensures var outcome := Handle(v, s, r, hit, first, second).0;
            outcome.Verified? ==>
              IsMessage(v, r.token) && outcome.claims.claims.subject == v.decode(r.token).value.issuer
  {
  }

  /** The chain-required answer goes out exactly when the token is a genuine chainless message, the
      request brought no complete chain, none is pinned, and the cached chain, if any, failed. */
  lemma ChainMissingExactly(v: View, s: Settings, r: Incoming, hit: Option<Chain>, first: Instant, second: Instant)
    requires r.token != "" && r.body.Some?
    ensures Handle(v, s, r, hit, first, second).0.ChainMissing? <==>
            && IsMessage(v, r.token) && v.decode(r.token).value.body.chain.None?
            && !r.Detached() && !PinsChain(s.opts)
            && (Consults(v, s, r).Some? && hit.Some? ==> !Attempt(v, s, r, hit, first).Accepted?)
  {
    AttemptNoChain(v, s, r, Some(r.Headers()), first);
    AttemptNoChain(v, s, r, None, first);
    AttemptNoChain(v, s, r, None, second);
  }

  /** A receiver that asks for the chain, with no other request in between, holds no entry for the
      emitter afterwards. */
  lemma ChainMissingLeavesNoEntry(v: View, s: Settings, r: Incoming, before: map<string, Chain>,
                                  after: map<string, Chain>, first: Instant, second: Instant)
    requires s.caching && v.decode(r.token).Some?
    requires var (outcome, effect) := Handle(v, s, r, Lookup(v, s, r, before), first, second);
             outcome.ChainMissing? && Applied(effect, before, after)
    ensures v.decode(r.token).value.issuer !in after
  {
    if r.Detached() {
      AttemptNoChain(v, s, r, Some(r.Headers()), first);
    }
  }

  /** For a self-contained token without a complete detached chain the cache changes nothing: the
      outcome is that of an empty cache, and a rejection leaves every entry in place. */
  lemma SelfContainedIgnoresCache(v: View, s: Settings, r: Incoming, hit: Option<Chain>, now: Instant)
    requires v.decode(r.token).Some? && v.decode(r.token).value.body.chain.Some? && !r.Detached()
    ensures Handle(v, s, r, hit, now, now).0 == Handle(v, s, r, None, now, now).0
    ensures !Handle(v, s, r, hit, now, now).0.Verified? ==> Handle(v, s, r, hit, now, now).1 == Keep
  {
    if r.body.Some? && hit.Some? {
      AttemptConfig(s.opts, hit, r.audience, r.body.value);
      AttemptConfig(s.opts, None, r.audience, r.body.value);
    }
  }

  /** A verified request with a detached chain has that chain stored, and was checked under the chain
      the options pin if they pin one, else under the detached one. */
  lemma StoredAndChecked(v: View, s: Settings, r: Incoming, first: Instant, second: Instant)
    requires s.caching && r.Detached() && Handle(v, s, r, None, first, second).0.Verified?
    ensures var m := Handle(v, s, r, None, first, second).0.claims;
            var checked := if PinsChain(s.opts) then ConfigOf(s.opts).chain.value else r.Headers();
            && Handle(v, s, r, None, first, second).1 == Store(m.claims.subject, r.Headers())
            && Linked(v, s.anchor, ConfigOf(s.opts).policy, v.decode(r.token).value, checked) == Some(m)
  {
    AttemptConfig(s.opts, Some(r.Headers()), r.audience, r.body.value);
  }

  /** With a pinned chain the receiver stores detached headers nobody verified: any two nonempty
      strings ride along with a message that verifies under the pinned chain, and are cached. */
  lemma PinnedChainStoresAnything(v: View, s: Settings, r: Incoming, account: string, user: string,
                                  first: Instant, second: Instant)
    requires s.caching && PinsChain(s.opts) && r.token != "" && r.body.Some? && account != "" && user != ""
    requires Attempt(v, s, r, None, first).Accepted?
    ensures var (outcome, effect) := Handle(v, s, r.(chainAccount := account, chainUser := user), None, first, second);
            outcome.Verified? && effect == Store(outcome.claims.claims.subject, Chain(account, user))
  {
    var q := r.(chainAccount := account, chainUser := user);
    AttemptConfig(s.opts, None, r.audience, r.body.value);
    AttemptConfig(s.opts, Some(q.Headers()), r.audience, r.body.value);
  }

  // ------------------------------------------------------------------
  // The exchange.
  // ------------------------------------------------------------------

  /** What the emitter sees of an answer: accepted, or refused with or without the chain signal. */
  datatype Response = Served(claims: MessageClaims) | Refused(unauthorized: bool, chainRequired: bool)

  datatype Transport = Http | Grpc

  /** ServeHTTP answers 401 with the signal, 401, or 400 for an unreadable body; the gRPC interceptor
      answers every refusal with Unauthenticated, with or without the signal. */
  function Answer(t: Transport, o: Outcome): Response {
    match o
    case Verified(m) => Served(m)
    case ChainMissing => Refused(true, true)
    case Unauthorized => Refused(true, false)
    case Unreadable => Refused(t.Grpc?, false)
  }

  /** Over either transport the emitter sees service, and the chain signal, on the same outcomes; they differ
      only in that HTTP does not call an unreadable body unauthorized. */
  lemma RetriesAlike(t: Transport, o: Outcome)
    ensures forall m :: Answer(t, o) == Served(m) <==> o == Verified(m)
    ensures Answer(t, o).Refused? ==>
              && (Answer(t, o).unauthorized <==> !(t.Http? && o.Unreadable?))
              && (Answer(t, o).chainRequired <==> o.ChainMissing?)
    ensures Answer(t, o) == Refused(true, true) <==> o.ChainMissing?
  {
  }

  /** The first send of a negotiating emitter, and its retransmit. */
  function Bare(token: string, audience: string, body: string): Incoming {
    Incoming(token, "", "", audience, Some(body))
  }

  function WithChain(r: Incoming, chain: Chain): Incoming {
    r.(chainAccount := chain.account, chainUser := chain.user)
  }

  /** The emitter's chainless token verifies with the emitter's own chain at both sends, and the
      receiver pins no other chain. */
  ghost predicate CanServe(v1: View, v2: View, s: Settings, chain: Chain, token: string, audience: string, body: string,
                           t1: Instant, t3: Instant)
  {
    && token != "" && chain.account != "" && chain.user != "" && !PinsChain(s.opts)
    && v1.decode(token).Some? && v1.decode(token).value.body.chain.None?
    && Attempt(v1, s, Bare(token, audience, body), Some(chain), t1).Accepted?
    && Attempt(v2, s, Bare(token, audience, body), Some(chain), t3).Accepted?
  }

  /** Whatever the cache answers at each send, a negotiating emitter is served at the first send, or
      asked for its chain and served at the second, which leaves that chain to store. */
  lemma ServedInTwoSends(v1: View, v2: View, s: Settings, chain: Chain, token: string, audience: string, body: string,
                         hit: Option<Chain>, t1: Instant, t2: Instant, t3: Instant, t4: Instant)
    requires CanServe(v1, v2, s, chain, token, audience, body, t1, t3)
    ensures var r := Bare(token, audience, body);
            var first := Handle(v1, s, r, hit, t1, t2).0;
            first.Verified? || first.ChainMissing?
    ensures var r := Bare(token, audience, body);
            forall hit2 ::
              var (outcome, effect) := Handle(v2, s, WithChain(r, chain), hit2, t3, t4);
              && outcome.Verified?
              && effect == (if s.caching then Store(outcome.claims.claims.subject, chain) else Keep)
  {
    var r := Bare(token, audience, body);
    AttemptNoChain(v1, s, r, None, t1);
    AttemptNoChain(v1, s, r, None, t2);
    AttemptConfig(s.opts, Some(chain), audience, body);
    assert WithChain(r, chain).Headers() == chain;
  }

  /** Once a chain is stored, a later message that verifies under it is served at its first send. */
  lemma WarmCacheServesAtOnce(v: View, s: Settings, r: Incoming, entries: map<string, Chain>, first: Instant, second: Instant)
    requires r.token != "" && r.body.Some? && !r.Detached() && s.caching
    requires v.decode(r.token).Some? && v.decode(r.token).value.issuer in entries
    requires Attempt(v, s, r, Some(entries[v.decode(r.token).value.issuer]), first).Accepted?
    ensures var (outcome, effect) := Handle(v, s, r, Lookup(v, s, r, entries), first, second);
            outcome.Verified? && effect == Keep
  {
  }

  class Emitter {
    const transport: Transport
    const chain: Chain
    const negotiate: bool

    constructor (transport: Transport, chain: Chain, negotiate: bool)
      ensures this.transport == transport && this.chain == chain && this.negotiate == negotiate
    {
      this.transport, this.chain, this.negotiate := transport, chain, negotiate;
    }

    /** RoundTrip, or the interceptor's call, after minting: one send, and at most one retransmit of the same token and body
        with the chain detached. The receiver's clock readings and the signatures it sees at each
        send are parameters; nothing else uses the receiver in between. */
    method Exchange(rc: Receiver, token: string, audience: string, body: string,
                    v1: View, v2: View, t1: Instant, t2: Instant, t3: Instant, t4: Instant)
      returns (response: Response, sends: nat)
      requires rc.cache != null ==> rc.cache.Bounded()
      modifies rc.cache
      ensures rc.cache != null ==> rc.cache.Bounded()
      ensures var hit := if rc.cache == null then None
                         else Lookup(v1, rc.Config(), Bare(token, audience, body), old(rc.cache.entries));
              var first := Answer(transport, Handle(v1, rc.Config(), Bare(token, audience, body), hit, t1, t2).0);
              && sends == (if negotiate && first == Refused(true, true) then 2 else 1)
              && (sends == 1 ==> response == first)
      ensures sends == 2 && chain.account != "" && chain.user != "" ==>
                var (outcome, effect) := Handle(v2, rc.Config(), WithChain(Bare(token, audience, body), chain), None, t3, t4);
                && response == Answer(transport, outcome)
                && (effect.Store? ==> effect.key in rc.cache.entries && rc.cache.entries[effect.key] == effect.chain)
    {
      var request := Bare(token, audience, body);
      var outcome := rc.Verify(v1, request, t1, t2);
      response, sends := Answer(transport, outcome), 1;
      if !negotiate {
        return;
      }
      if response != Refused(true, true) {
        return;
      }
      var retry := WithChain(request, chain);
      outcome := rc.Verify(v2, retry, t3, t4);
      response, sends := Answer(transport, outcome), 2;
    }
  }

  /** A negotiating exchange that can be served is served, and when it took two sends the cache holds
      the emitter's chain under its key. */
  method NegotiateAlone(e: Emitter, rc: Receiver, token: string, audience: string, body: string,
                        v1: View, v2: View, t1: Instant, t2: Instant, t3: Instant, t4: Instant)
    returns (response: Response, sends: nat)
    requires rc.cache != null ==> rc.cache.Bounded()
    requires e.negotiate && CanServe(v1, v2, rc.Config(), e.chain, token, audience, body, t1, t3)
    modifies rc.cache
    ensures response.Served? && sends <= 2
    ensures sends == 2 && rc.cache != null ==>
              && v2.decode(token).Some?
              && var key := v2.decode(token).value.issuer;
                 key in rc.cache.entries && rc.cache.entries[key] == e.chain
  {
    ghost var hit := if rc.cache == null then None
                     else Lookup(v1, rc.Config(), Bare(token, audience, body), rc.cache.entries);
    ServedInTwoSends(v1, v2, rc.Config(), e.chain, token, audience, body, hit, t1, t2, t3, t4);
    VerifiedNamesItsKey(v2, rc.Config(), WithChain(Bare(token, audience, body), e.chain), None, t3, t4);
    response, sends := e.Exchange(rc, token, audience, body, v1, v2, t1, t2, t3, t4);
  }

  /** Where that exchange leaves the cache, with the emitter's chain under its key, the next message
      that verifies under the chain is served at its first send. */
  method NextMessage(e: Emitter, rc: Receiver, token: string, audience: string, body: string,
                     v: View, t1: Instant, t2: Instant) returns (response: Response, sends: nat)
    requires rc.cache != null && rc.cache.Bounded()
    requires token != "" && v.decode(token).Some? && v.decode(token).value.issuer in rc.cache.entries
    requires rc.cache.entries[v.decode(token).value.issuer] == e.chain
    requires Attempt(v, rc.Config(), Bare(token, audience, body), Some(e.chain), t1).Accepted?
    modifies rc.cache
    ensures response.Served? && sends == 1
  {
    WarmCacheServesAtOnce(v, rc.Config(), Bare(token, audience, body), rc.cache.entries, t1, t2);
    response, sends := e.Exchange(rc, token, audience, body, v, v, t1, t2, t1, t2);
  }
}
