/** From the emitter's mint to the receiver's answer (contrib/httpsig/transport.go and middleware.go, and their
    gRPC counterparts): when a minted message is served. */
module Delivery {
  import opened Wrappers
  import opened Tokens
  import opened CredsFile
  import Issuing
  import Minting
  import Messages
  import Emission
  import opened Negotiation

  /** A receiver for one operator, with or without a cache, that pins neither policy, chain nor instant. */
  predicate ServesPlainly(s: Settings, issuer: string) {
    var own := Messages.ConfigOf(s.opts);
    s.anchor == Messages.Pinned(issuer) && own.policy.None? && own.chain.None? && own.at == ZERO_TIME
  }

  /** What the emitter mints in embedding mode is served at its first send, whatever the receiver's cache holds
      and with no cache at all, at exactly the instants inside the account's, the user's and the message's
      windows widened by the receiver's skew. */
  lemma EmbeddedIsServedExactly(before: World, after: World, later: World, b: Creds, key: string, epoch: nat, ttl: int,
                                audience: string, body: string, minted: Instant, token: string, issuer: string,
                                s: Settings, entries: map<string, Chain>, now: Instant)
    requires Lawful(before.lib) && later.Extends(after)
    requires Emission.Minter(Seen(before), b) == Some((key, epoch))
    requires IssuerOf(Seen(before), b.accountToken) == Some(issuer)
    requires var mint := Issuing.ConfigOf(Emission.MintOptions(before.lib, b, epoch, ttl, false, audience, body), minted);
             Issuing.Mints(before, after, key, Issuing.MessageDocument(Seen(before), key, mint), minted, Some(token))
    requires ServesPlainly(s, issuer)
    ensures var v, r := Seen(later), Bare(token, audience, body);
            var a, u := DecodeToken(before, b.accountToken).value, DecodeToken(before, b.userToken).value;
            var skew := Messages.ConfigOf(s.opts).skew;
            Handle(v, s, r, Lookup(v, s, r, entries), now, now).0.Verified? <==>
              InWindow(a, now, skew) && InWindow(u, now, skew) && Minting.NotAfter(Some(minted + ttl), now, skew)
  {
    var v, r := Seen(later), Bare(token, audience, body);
    Emission.MintOptionsFold(before.lib, b, epoch, ttl, false, audience, body, minted);
    var c, chain := Emission.MintedMessage(before, after, later, b, key, epoch, ttl, false, audience, body, minted, token);
    SelfContainedIgnoresCache(v, s, r, Lookup(v, s, r, entries), now);
    Emission.MintedMessageWindow(before, after, later, b, key, epoch, ttl, false, audience, body, minted, token, issuer,
                                 RequestConfig(s, r, None), now);
    BareOutcome(v, s, r, now);
  }

  lemma BareOutcome(v: View, s: Settings, r: Incoming, now: Instant)
    requires r.token != "" && r.body.Some? && !r.Detached()
    ensures Handle(v, s, r, None, now, now).0.Verified? <==> VerdictWith(v, s, r, None, now).Accepted?
  {
    AttemptIsVerdict(v, s, r, None, now);
  }

  /** What it mints in negotiation mode is served, once sent with its chain, at exactly such instants, provided the
      seed is that of the user token's key. */
  lemma NegotiatedIsServedExactly(before: World, after: World, later: World, b: Creds, key: string, epoch: nat, ttl: int,
                                  audience: string, body: string, minted: Instant, token: string, issuer: string,
                                  s: Settings, entries: map<string, Chain>, now: Instant)
    requires Lawful(before.lib) && later.Extends(after)
    requires Emission.Minter(Seen(before), b) == Some((key, epoch))
    requires IssuerOf(Seen(before), b.accountToken) == Some(issuer)
    requires var mint := Issuing.ConfigOf(Emission.MintOptions(before.lib, b, epoch, ttl, true, audience, body), minted);
             Issuing.Mints(before, after, key, Issuing.MessageDocument(Seen(before), key, mint), minted, Some(token))
    requires ServesPlainly(s, issuer)
    ensures var v, r := Seen(later), WithChain(Bare(token, audience, body), Chain(b.accountToken, b.userToken));
            var a, u := DecodeToken(before, b.accountToken).value, DecodeToken(before, b.userToken).value;
            var skew := Messages.ConfigOf(s.opts).skew;
            Handle(v, s, r, Lookup(v, s, r, entries), now, now).0.Verified? <==>
              && u.subject == key
              && InWindow(a, now, skew) && InWindow(u, now, skew) && Minting.NotAfter(Some(minted + ttl), now, skew)
  {
    var chain := Chain(b.accountToken, b.userToken);
    var v, r := Seen(later), WithChain(Bare(token, audience, body), chain);
    Emission.MinterExactly(Seen(before), b);
    Emission.MintedMessageWindow(before, after, later, b, key, epoch, ttl, true, audience, body, minted, token, issuer,
                                 RequestConfig(s, r, Some(chain)), now);
    DetachedExactly(v, s, r, entries, now, now);
  }
}
