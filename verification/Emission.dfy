/** The emitting side of message signing: mint parameters from creds
    (contrib/httpsig/httpsig.go, contrib/grpcsig/grpcsig.go) and the options a transport
    mints with (contrib/httpsig/transport.go, contrib/grpcsig/client.go). */
module Emission {
  import opened Wrappers
  import opened Tokens
  import opened CredsFile
  import Issuing
  import Minting
  import Messages

  /** The signing key and the epoch both chain tokens agree on. The seed's key is not compared with
      the user token's subject here. */
  function Minter(v: View, b: Creds): Option<(string, nat)> {
    if b.accountToken == "" || b.userToken == "" || b.seed == "" then None
    else match v.lib.fromSeed(b.seed)
      case None => None
      case Some(key) =>
        match IssuerOf(v, b.accountToken)
        case None => None
        case Some(issuer) =>
          match VerifyAccount(v, b.accountToken, issuer)
          case None => None
          case Some(account) =>
            match VerifyUser(v, b.userToken, account.claims.subject)
            case None => None
            case Some(user) => if account.epoch != user.epoch then None else Some((key, user.epoch))
  }

  /** The documents of a bundle: an account token of any operator, a user token of that account, one epoch. */
  predicate IsBundle(v: View, b: Creds) {
    && b.accountToken != "" && b.userToken != "" && b.seed != ""
    && v.decode(b.accountToken).Some? && v.decode(b.userToken).Some?
    && var a, u := v.decode(b.accountToken).value, v.decode(b.userToken).value;
       && a.body.typ == "account" && v.lib.role(a.subject) == AccountRole
       && u.body.typ == "user" && v.lib.role(u.subject) == UserRole
       && u.issuer == a.subject && a.body.epoch == u.body.epoch
  }

  /** Creds are taken exactly when they are such a bundle with a readable seed; what comes out is the seed's key
      and the bundle's epoch. */
  lemma MinterExactly(v: View, b: Creds)
    ensures Minter(v, b).Some? <==> IsBundle(v, b) && v.lib.fromSeed(b.seed).Some?
    ensures Minter(v, b).Some? ==>
              Minter(v, b).value == (v.lib.fromSeed(b.seed).value, v.decode(b.userToken).value.body.epoch)
  {
  }

  function MintOptions(lib: Lib, b: Creds, epoch: nat, ttl: int, negotiate: bool, audience: string, body: string)
    : seq<Issuing.IssueOption>
  {
    [Issuing.WithAudience(audience), Issuing.WithChecksum(lib.hexSum(body)), Issuing.WithTTL(ttl),
     Issuing.WithEpoch(epoch)]
    + if negotiate then [] else [Issuing.WithChain(b.accountToken, b.userToken)]
  }

  /** The configuration those options fold to. */
  function MintConfig(lib: Lib, b: Creds, epoch: nat, ttl: int, negotiate: bool, audience: string, body: string,
                      minted: Instant): Issuing.IssueConfig
  {
    var sum := lib.hexSum(body);
    var hex := Issuing.IsHexSHA256(sum);
    Issuing.IssueConfig("", Issuing.Unix(minted + ttl), 0, epoch, false, audience, if hex then sum else "",
                        if negotiate then None else Some(Chain(b.accountToken, b.userToken)), map[], !hex)
  }

  lemma ConfigSteps(opts: seq<Issuing.IssueOption>, o: Issuing.IssueOption, now: Instant)
    ensures Issuing.ConfigOf(opts + [o], now) == Issuing.Apply(Issuing.ConfigOf(opts, now), o, now)
  {
    assert (opts + [o])[..|opts|] == opts;
  }

  /** The bindings alone, and then lifetime and epoch: without a chain option. */
  lemma BindingsFold(sum: string, audience: string, minted: Instant)
    ensures var hex := Issuing.IsHexSHA256(sum);
            Issuing.ConfigOf([Issuing.WithAudience(audience), Issuing.WithChecksum(sum)], minted) ==
            Issuing.NO_OPTIONS.(audience := audience, checksum := if hex then sum else "", failed := !hex)
  {
    var a, c := Issuing.WithAudience(audience), Issuing.WithChecksum(sum);
    ConfigSteps([], a, minted);
    ConfigSteps([a], c, minted);
    assert [] + [a] == [a] && [a] + [c] == [a, c];
  }

  lemma ChainlessFold(lib: Lib, b: Creds, epoch: nat, ttl: int, audience: string, body: string, minted: Instant)
    ensures Issuing.ConfigOf(MintOptions(lib, b, epoch, ttl, true, audience, body), minted) ==
            MintConfig(lib, b, epoch, ttl, true, audience, body, minted)
  {
    var bindings := [Issuing.WithAudience(audience), Issuing.WithChecksum(lib.hexSum(body))];
    var t, e := Issuing.WithTTL(ttl), Issuing.WithEpoch(epoch);
    BindingsFold(lib.hexSum(body), audience, minted);
    ConfigSteps(bindings, t, minted);
    ConfigSteps(bindings + [t], e, minted);
    assert MintOptions(lib, b, epoch, ttl, true, audience, body) == bindings + [t] + [e];
  }

  lemma MintOptionsFold(lib: Lib, b: Creds, epoch: nat, ttl: int, negotiate: bool, audience: string, body: string,
                        minted: Instant)
    ensures Issuing.ConfigOf(MintOptions(lib, b, epoch, ttl, negotiate, audience, body), minted) ==
            MintConfig(lib, b, epoch, ttl, negotiate, audience, body, minted)
  {
    ChainlessFold(lib, b, epoch, ttl, audience, body, minted);
    if !negotiate {
      var base, last := MintOptions(lib, b, epoch, ttl, true, audience, body), Issuing.WithChain(b.accountToken, b.userToken);
      ConfigSteps(base, last, minted);
      assert MintOptions(lib, b, epoch, ttl, false, audience, body) == base + [last];
    }
  }

  /** What such a mint puts on the wire, and that its chain still reads the same later. */
  lemma MintedMessage(before: World, after: World, later: World, b: Creds, key: string, epoch: nat, ttl: int,
                      negotiate: bool, audience: string, body: string, minted: Instant, token: string)
    returns (c: Wire, chain: Chain)
    requires Lawful(before.lib) && later.Extends(after)
    requires Minter(Seen(before), b) == Some((key, epoch))
    requires var cfg := MintConfig(before.lib, b, epoch, ttl, negotiate, audience, body, minted);
             Issuing.Mints(before, after, key, Issuing.MessageDocument(Seen(before), key, cfg), minted, Some(token))
    ensures chain == Chain(b.accountToken, b.userToken)
    ensures c.body.chain == (if negotiate then None else Some(chain))
    ensures Seen(later).decode(token) == Some(c) && Messages.IsMessage(Seen(later), token)
    ensures c.issuer == key && c.audience == audience && c.body.epoch == epoch
    ensures c.body.checksum == before.lib.hexSum(body) && c.body.checksum != ""
    ensures c.expires == Issuing.Unix(minted + ttl) != 0 && c.notBefore == 0
    ensures !negotiate ==> Issuing.CheckChain(Seen(before), chain, key)
    ensures Seen(later).decode(b.accountToken) == Seen(before).decode(b.accountToken)
    ensures Seen(later).decode(b.userToken) == Seen(before).decode(b.userToken)
    ensures later.lib == before.lib
  {
    var cfg := MintConfig(before.lib, b, epoch, ttl, negotiate, audience, body, minted);
    var doc := Issuing.MessageDocument(Seen(before), key, cfg).value;
    Issuing.MintedDecodes(before, after, later, key, doc, minted, token);
    SeenMonotone(before, later);
    c, chain := Issuing.Stamp(before.lib, key, doc, minted), Chain(b.accountToken, b.userToken);
  }

  lemma SeenAlike(v: View, later: View, b: Creds, issuer: string)
    requires later.lib == v.lib
    requires later.decode(b.accountToken) == v.decode(b.accountToken)
    requires later.decode(b.userToken) == v.decode(b.userToken)
    ensures VerifyAccount(later, b.accountToken, issuer) == VerifyAccount(v, b.accountToken, issuer)
    ensures forall k :: VerifyUser(later, b.userToken, k) == VerifyUser(v, b.userToken, k)
  {
  }

  /** What the creds check says about the chain, and what the mint check adds in embedding mode. */
  lemma CheckedChain(v: View, b: Creds, key: string, epoch: nat, issuer: string)
    requires Minter(v, b) == Some((key, epoch)) && IssuerOf(v, b.accountToken) == Some(issuer)
    ensures var account := VerifyAccount(v, b.accountToken, issuer);
            && account.Some? && account.value.epoch == epoch
            && var user := VerifyUser(v, b.userToken, account.value.claims.subject);
               && user.Some? && user.value.epoch == epoch
               && (Issuing.CheckChain(v, Chain(b.accountToken, b.userToken), key) ==> user.value.claims.subject == key)
  {
  }

  /** When such a mint succeeds: for a user key, a proper checksum and an expiry, and, in embedding mode
      only, when the seed is that of the user token's key. Negotiation mode mints with a seed of any
      user key. */
  lemma MintSucceeds(v: View, b: Creds, key: string, epoch: nat, ttl: int, negotiate: bool, audience: string,
                     body: string, minted: Instant)
    requires Minter(v, b) == Some((key, epoch))
    ensures var cfg := Issuing.ConfigOf(MintOptions(v.lib, b, epoch, ttl, negotiate, audience, body), minted);
            Issuing.MessageDocument(v, key, cfg).Some? <==>
              && v.lib.role(key) == UserRole && Minting.HexDigest(v.lib.hexSum(body))
              && !(0 <= minted + ttl < 1_000_000_000)
              && (negotiate || v.decode(b.userToken).value.subject == key)
  {
    MinterExactly(v, b);
    MintOptionsFold(v.lib, b, epoch, ttl, negotiate, audience, body, minted);
    Minting.HexDigests(v.lib.hexSum(body));
    Minting.EndsAtExactly(v, Chain(b.accountToken, b.userToken), key);
    Minting.ExpiryWritten(Some(minted + ttl));
  }

  /** When a receiver that sees the chain as the emitter did accepts a message bound to its request: what
      decides is the emitter's key and the three windows. */
  lemma DeliveredWindow(before: View, v: View, b: Creds, key: string, epoch: nat, negotiate: bool,
                        token: string, c: Wire, issuer: string, cfg: Messages.VerifyConfig, now: Instant)
    requires Minter(before, b) == Some((key, epoch)) && IssuerOf(before, b.accountToken) == Some(issuer)
    requires v.lib == before.lib && v.decode(b.accountToken) == before.decode(b.accountToken)
    requires v.decode(b.userToken) == before.decode(b.userToken)
    requires v.decode(token) == Some(c) && Messages.IsMessage(v, token) && c.issuer == key && c.body.epoch == epoch
    requires c.body.chain == (if negotiate then None else Some(Chain(b.accountToken, b.userToken)))
    requires cfg.chain == (if negotiate then Some(Chain(b.accountToken, b.userToken)) else None)
    requires cfg.policy.None? && cfg.at == ZERO_TIME && c.body.checksum != ""
    requires c.audience == cfg.audience && cfg.payload.Some? && c.body.checksum == v.lib.hexSum(cfg.payload.value)
    ensures var a, u := before.decode(b.accountToken).value, before.decode(b.userToken).value;
            Messages.MessageVerdict(v, Messages.Pinned(issuer), token, cfg, now).Accepted? <==>
              u.subject == key && InWindow(a, now, cfg.skew) && InWindow(u, now, cfg.skew) && InWindow(c, now, cfg.skew)
  {
    MinterExactly(before, b);
    CheckedChain(before, b, key, epoch, issuer);
    SeenAlike(before, v, b, issuer);
    Messages.ChainedVerdict(v, token, c, Chain(b.accountToken, b.userToken), issuer, cfg, now);
    WindowInSeconds(before.decode(b.accountToken).value, now, cfg.skew);
    WindowInSeconds(before.decode(b.userToken).value, now, cfg.skew);
    WindowInSeconds(c, now, cfg.skew);
  }

  /** The configuration of a receiver of one request: nothing but its skew, its bindings and, in negotiation
      mode, the chain it was handed. */
  predicate ReceivesPlainly(cfg: Messages.VerifyConfig, b: Creds, negotiate: bool, audience: string, body: string) {
    && cfg.policy.None? && cfg.at == ZERO_TIME && cfg.audience == audience && cfg.payload == Some(body)
    && cfg.chain == (if negotiate then Some(Chain(b.accountToken, b.userToken)) else None)
  }

  /** The options of a receiver that is handed the emitter's chain in negotiation mode. */
  function ReceiverOptions(b: Creds, negotiate: bool, skew: int, audience: string, body: string): seq<Messages.VerifyOption> {
    (if negotiate then [Messages.WithChainTokens(b.accountToken, b.userToken)] else [])
    + [Messages.WithMessageSkew(skew)] + Messages.Bindings(audience, body)
  }

  lemma ReceiverConfig(b: Creds, negotiate: bool, skew: int, audience: string, body: string)
    ensures ReceivesPlainly(Messages.ConfigOf(ReceiverOptions(b, negotiate, skew, audience, body)), b, negotiate, audience, body)
    ensures Messages.ConfigOf(ReceiverOptions(b, negotiate, skew, audience, body)) ==
            Messages.NO_OPTIONS.(skew := skew, audience := audience, payload := Some(body),
                                 chain := if negotiate then Some(Chain(b.accountToken, b.userToken)) else None)
  {
    var o := Messages.WithMessageSkew(skew);
    Messages.ConfigAppend([], o);
    assert [] + [o] == [o];
    if negotiate {
      Messages.ChainPrepended([o], b.accountToken, b.userToken);
      Messages.BindingsFoldLast([Messages.WithChainTokens(b.accountToken, b.userToken)] + [o], audience, body);
    } else {
      Messages.BindingsFoldLast([o], audience, body);
    }
  }

  /** A message minted from checked creds is accepted, by a receiver pinning the account token's
      issuer and given the same audience and body (and the chain, in negotiation mode), at exactly
      the instants inside all three validity windows widened by its skew, if the seed belongs to the
      user token's key, and never if it does not; the message's own window ends with the start of the
      second that its lifetime ends in. Embedding mode refuses a mint with another key. */
  lemma MintedMessageWindow(before: World, after: World, later: World, b: Creds, key: string, epoch: nat,
                            ttl: int, negotiate: bool, audience: string, body: string, minted: Instant, token: string,
                            issuer: string, cfg: Messages.VerifyConfig, now: Instant)
    requires Lawful(before.lib) && later.Extends(after)
    requires Minter(Seen(before), b) == Some((key, epoch)) && IssuerOf(Seen(before), b.accountToken) == Some(issuer)
    requires var mint := Issuing.ConfigOf(MintOptions(before.lib, b, epoch, ttl, negotiate, audience, body), minted);
             Issuing.Mints(before, after, key, Issuing.MessageDocument(Seen(before), key, mint), minted, Some(token))
    requires ReceivesPlainly(cfg, b, negotiate, audience, body)
    ensures var a, u := DecodeToken(before, b.accountToken).value, DecodeToken(before, b.userToken).value;
            && (Messages.MessageVerdict(Seen(later), Messages.Pinned(issuer), token, cfg, now).Accepted? <==>
                  && u.subject == key && InWindow(a, now, cfg.skew) && InWindow(u, now, cfg.skew)
                  && Minting.NotAfter(Some(minted + ttl), now, cfg.skew))
            && (!negotiate ==> u.subject == key)
  {
    MintOptionsFold(before.lib, b, epoch, ttl, negotiate, audience, body, minted);
    MinterExactly(Seen(before), b);
    var c, chain := MintedMessage(before, after, later, b, key, epoch, ttl, negotiate, audience, body, minted, token);
    DeliveredWindow(Seen(before), Seen(later), b, key, epoch, negotiate, token, c, issuer, cfg, now);
    MessageWindowEnds(c, minted + ttl, now, cfg.skew);
    if !negotiate {
      Minting.EndsAtExactly(Seen(before), chain, key);
    }
  }

  lemma MessageWindowEnds(c: Wire, end: Instant, now: Instant, skew: int)
    requires c.expires == Issuing.Unix(end) != 0 && c.notBefore == 0
    ensures InWindow(c, now, skew) <==> Minting.NotAfter(Some(end), now, skew)
  {
    Minting.SecondsReadBack(end);
  }
}
