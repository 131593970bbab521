/** Verifying per-message proofs of origin (message.go). */
module Messages {
  import opened Wrappers
  import opened Tokens
  import opened Keyrings
  import Signing

  datatype VerifyOption =
    | At(instant: Instant)
    | WithMessageSkew(skew: int)
    | ExpectAudience(audience: string)
    | RequireChecksum
    | WithPayload(payload: string)
    | WithOperatorPolicy(token: string)
    | WithChainTokens(account: string, user: string)

  datatype VerifyConfig = VerifyConfig(at: Instant, skew: int, audience: string, requireSum: bool,
                                       payload: Option<string>, policy: Option<string>, chain: Option<Chain>)

  const NO_OPTIONS := VerifyConfig(ZERO_TIME, Signing.DEFAULT_SKEW, "", false, None, None, None)

  function Apply(c: VerifyConfig, o: VerifyOption): VerifyConfig {
    match o
    case At(t) => c.(at := t)
    case WithMessageSkew(d) => c.(skew := d)
    case ExpectAudience(a) => c.(audience := a)
    case RequireChecksum => c.(requireSum := true)
    case WithPayload(p) => c.(payload := Some(p))
    case WithOperatorPolicy(t) => c.(policy := Some(t))
    case WithChainTokens(a, u) => c.(chain := Some(Chain(a, u)))
  }

  function ConfigOf(opts: seq<VerifyOption>): VerifyConfig {
    if opts == [] then NO_OPTIONS
    else Apply(ConfigOf(opts[..|opts| - 1]), opts[|opts| - 1])
  }

  datatype MessageClaims = MessageClaims(claims: Claims, audience: string, checksum: string, epoch: nat,
                                         ext: Extensions, account: AccountClaims, user: UserClaims,
                                         operator: Option<OperatorClaims>)

  /** NoChain is ErrNoChain, the one failure a retransmit with the chain can cure. */
  datatype Verdict = Accepted(claims: MessageClaims) | NoChain | Rejected

  /** What roots the chain: one pinned operator key, or a keyring. */
  datatype Anchor = Pinned(operatorKey: string) | Ring(entries: Entries)

  // ------------------------------------------------------------------
  // What a verdict means: the conditions, sorted by what they depend on.
  // ------------------------------------------------------------------

  /** A validly signed message token of a user key, by type and self-signature. */
  predicate IsMessage(v: View, token: string) {
    match v.decode(token)
    case None => false
    case Some(c) => c.body.typ == MESSAGE_TYPE && c.issuer == c.subject && v.lib.role(c.subject) == UserRole
  }

  /** The embedded and the supplied chain disagree. */
  predicate Conflicting(own: Option<Chain>, supplied: Option<Chain>) {
    own.Some? && supplied.Some? && own != supplied
  }

  /** The account level and the operator policy, for an account token under an anchor. */
  function Resolve(v: View, anchor: Anchor, policy: Option<string>, accountToken: string)
    : Option<(AccountClaims, Option<OperatorClaims>)>
  {
    match anchor
    case Pinned(key) => (
      match VerifyAccount(v, accountToken, key)
      case None => None
      case Some(account) =>
        if policy.None? then Some((account, None))
        else match VerifyOperator(v, policy.value, key)
          case None => None
          case Some(operator) => Some((account, Some(operator))))
    case Ring(entries) =>
      if policy.Some? then None
      else match IssuerOf(v, accountToken)
        case None => None
        case Some(issuer) =>
          match VerifyAccount(v, accountToken, issuer)
          case None => None
          case Some(account) =>
            var k := RingKey(issuer, account.epoch);
            if k in entries then Some((account, Some(entries[k]))) else None
  }

  /** The chain holds together: every level signed by the one above, all in one epoch. The result is
      the verified content, whatever the time. */
  function Linked(v: View, anchor: Anchor, policy: Option<string>, c: Wire, chain: Chain): Option<MessageClaims> {
    match Resolve(v, anchor, policy, chain.account)
    case None => None
    case Some((account, operator)) =>
      match VerifyUser(v, chain.user, account.claims.subject)
      case None => None
      case Some(user) =>
        if user.claims.subject == c.issuer
           && c.body.epoch == account.epoch == user.epoch
           && (operator.Some? ==> operator.value.epoch == c.body.epoch)
        then Some(MessageClaims(ClaimsOf(c), c.audience, c.body.checksum, c.body.epoch, c.body.ext,
                                account, user, operator))
        else None
  }

  /** Every level is inside its validity window, widened by the skew. */
  predicate Timely(m: MessageClaims, at: Instant, skew: int) {
    && (m.operator.Some? ==> m.operator.value.claims.Current(at, skew))
    && m.account.claims.Current(at, skew)
    && m.user.claims.Current(at, skew)
    && m.claims.Current(at, skew)
  }

  /** The destination and payload bindings the options ask for. */
  predicate Bound(lib: Lib, m: MessageClaims, cfg: VerifyConfig) {
    && (cfg.audience != "" ==> m.audience == cfg.audience)
    && (cfg.payload.Some? ==> m.checksum != "" && m.checksum == lib.hexSum(cfg.payload.value))
    && (cfg.requireSum ==> m.checksum != "")
  }

  function AsOf(cfg: VerifyConfig, now: Instant): Instant {
    if cfg.at == ZERO_TIME then now else cfg.at
  }

  function MessageVerdict(v: View, anchor: Anchor, token: string, cfg: VerifyConfig, now: Instant): Verdict {
    if !IsMessage(v, token) then Rejected
    else
      var c := v.decode(token).value;
      if c.body.chain.None? && cfg.chain.None? then NoChain
      else if Conflicting(c.body.chain, cfg.chain) then Rejected
      else
        var chain := if c.body.chain.Some? then c.body.chain.value else cfg.chain.value;
        ChainVerdict(v, anchor, c, chain, cfg, AsOf(cfg, now))
  }

  function ChainVerdict(v: View, anchor: Anchor, c: Wire, chain: Chain, cfg: VerifyConfig, at: Instant): Verdict {
    match Linked(v, anchor, cfg.policy, c, chain)
    case None => Rejected
    case Some(m) => if Timely(m, at, cfg.skew) && Bound(v.lib, m, cfg) then Accepted(m) else Rejected
  }

  // ------------------------------------------------------------------
  // The code, in its own order, against that meaning.
  // ------------------------------------------------------------------

  method FoldOptions(opts: seq<VerifyOption>) returns (cfg: VerifyConfig)
    ensures cfg == ConfigOf(opts)
  {
    cfg := NO_OPTIONS;
    for i := 0 to |opts|
      invariant cfg == ConfigOf(opts[..i])
    {
      assert opts[..i + 1][..i] == opts[..i];
      cfg := Apply(cfg, opts[i]);
    }
    assert opts[..|opts|] == opts;
  }

  /** The checks once the chain and the instant are known. */
  method VerifyChain(v: View, anchor: Anchor, c: Wire, chain: Chain, cfg: VerifyConfig, at: Instant) returns (r: Verdict)
    ensures r == ChainVerdict(v, anchor, c, chain, cfg, at)
  {
    var resolved := Resolve(v, anchor, cfg.policy, chain.account);
    if resolved.None? {
      return Rejected;
    }
    var (account, operator) := resolved.value;
    var userRead := VerifyUser(v, chain.user, account.claims.subject);
    if userRead.None? {
      return Rejected;
    }
    var user := userRead.value;
    if user.claims.subject != c.issuer {
      return Rejected;
    }
    if operator.Some? {
      var op := operator.value;
      if op.claims.Expired(at, cfg.skew) || op.claims.NotYetValid(at, cfg.skew) || c.body.epoch != op.epoch {
        return Rejected;
      }
    }
    if c.body.epoch != account.epoch || c.body.epoch != user.epoch {
      return Rejected;
    }
    var m := MessageClaims(ClaimsOf(c), c.audience, c.body.checksum, c.body.epoch, c.body.ext, account, user, operator);
    if account.claims.Expired(at, cfg.skew) || account.claims.NotYetValid(at, cfg.skew) {
      return Rejected;
    }
    if user.claims.Expired(at, cfg.skew) || user.claims.NotYetValid(at, cfg.skew) {
      return Rejected;
    }
    if m.claims.Expired(at, cfg.skew) || m.claims.NotYetValid(at, cfg.skew) {
      return Rejected;
    }
    if cfg.audience != "" && m.audience != cfg.audience {
      return Rejected;
    }
    if cfg.payload.Some? {
      if m.checksum == "" || m.checksum != v.lib.hexSum(cfg.payload.value) {
        return Rejected;
      }
    } else if cfg.requireSum && m.checksum == "" {
      return Rejected;
    }
    return Accepted(m);
  }

  /** The shared verification core, check by check. */
  method VerifyUnder(v: View, anchor: Anchor, token: string, opts: seq<VerifyOption>, now: Instant)
    returns (r: Verdict)
    ensures r == MessageVerdict(v, anchor, token, ConfigOf(opts), now)
  {
    var cfg := FoldOptions(opts);
    var decoded := v.decode(token);
    if decoded.None? {
      return Rejected;
    }
    var c := decoded.value;
    if c.body.typ != MESSAGE_TYPE || c.issuer != c.subject || v.lib.role(c.subject) != UserRole {
      return Rejected;
    }
    var chain := c.body.chain;
    if chain.None? && cfg.chain.None? {
      return NoChain;
    } else if chain.None? {
      chain := cfg.chain;
    } else if cfg.chain.Some? && (cfg.chain.value.account != chain.value.account || cfg.chain.value.user != chain.value.user) {
      return Rejected;
    }
    var at := cfg.at;
    if at == ZERO_TIME {
      at := now;
    }
    r := VerifyChain(v, anchor, c, chain.value, cfg, at);
  }

  method VerifyMessage(v: View, token: string, operatorKey: string, opts: seq<VerifyOption>, now: Instant)
    returns (r: Verdict)
    ensures r == MessageVerdict(v, Pinned(operatorKey), token, ConfigOf(opts), now)
  {
    r := VerifyUnder(v, Pinned(operatorKey), token, opts, now);
  }

  method VerifyMessageKeyring(v: View, token: string, keyring: Keyring, opts: seq<VerifyOption>, now: Instant)
    returns (r: Verdict)
    ensures r == MessageVerdict(v, Ring(keyring.entries), token, ConfigOf(opts), now)
  {
    r := VerifyUnder(v, Ring(keyring.entries), token, opts, now);
  }

  // ------------------------------------------------------------------
  // Consequences.
  // ------------------------------------------------------------------

  lemma ConfigAppend(opts: seq<VerifyOption>, o: VerifyOption)
    ensures ConfigOf(opts + [o]) == Apply(ConfigOf(opts), o)
  {
    assert (opts + [o])[..|opts|] == opts;
  }

  predicate PinsChain(opts: seq<VerifyOption>) {
    ConfigOf(opts).chain.Some?
  }

  /** A chain put before the caller's options counts exactly when they pin none. */
  lemma {:induction false} ChainPrepended(opts: seq<VerifyOption>, account: string, user: string)
    ensures ConfigOf([WithChainTokens(account, user)] + opts) ==
            if PinsChain(opts) then ConfigOf(opts) else ConfigOf(opts).(chain := Some(Chain(account, user)))
  {
    var first := [WithChainTokens(account, user)];
    if opts == [] {
      ConfigAppend([], first[0]);
      assert first + opts == [] + [first[0]];
    } else {
      var init, last := opts[..|opts| - 1], opts[|opts| - 1];
      ChainPrepended(init, account, user);
      ConfigAppend(first + init, last);
      assert first + opts == first + init + [last];
    }
  }

  /** The receiver's own bindings. */
  function Bindings(audience: string, body: string): seq<VerifyOption> {
    [ExpectAudience(audience), WithPayload(body)]
  }

  lemma BindingsFoldLast(opts: seq<VerifyOption>, audience: string, body: string)
    ensures ConfigOf(opts + Bindings(audience, body)) ==
            ConfigOf(opts).(audience := audience, payload := Some(body))
  {
    ConfigAppend(opts, ExpectAudience(audience));
    ConfigAppend(opts + [ExpectAudience(audience)], WithPayload(body));
    assert opts + Bindings(audience, body) == opts + [ExpectAudience(audience)] + [WithPayload(body)];
  }

  /** No option a caller passes weakens the audience and payload bindings folded after it. */
  lemma BindingsCannotBeWeakened(v: View, anchor: Anchor, token: string, opts: seq<VerifyOption>,
                                 audience: string, body: string, now: Instant)
    ensures var r := MessageVerdict(v, anchor, token, ConfigOf(opts + Bindings(audience, body)), now);
            r.Accepted? ==>
              && (audience != "" ==> r.claims.audience == audience)
              && r.claims.checksum == v.lib.hexSum(body)
              && r.claims.checksum != ""
  {
    BindingsFoldLast(opts, audience, body);
  }

  predicate SetsPolicy(opts: seq<VerifyOption>) {
    exists i :: 0 <= i < |opts| && opts[i].WithOperatorPolicy?
  }

  lemma {:induction false} NoPolicy(opts: seq<VerifyOption>)
    requires !SetsPolicy(opts)
    ensures ConfigOf(opts).policy == None
  {
    if opts != [] {
      NoPolicy(opts[..|opts| - 1]);
    }
  }

  /** Verification of a message under one keyring entry alone: its key pinned, its token as policy. */
  function Trial(v: View, k: RingKey, source: string, token: string, opts: seq<VerifyOption>, now: Instant): Verdict {
    MessageVerdict(v, Pinned(k.operator), token, ConfigOf(opts + [WithOperatorPolicy(source)]), now)
  }

  function NamedEntry(m: MessageClaims): RingKey {
    RingKey(m.account.claims.issuer, m.account.epoch)
  }

  /** An entry and the token it was registered from. */
  ghost predicate IsEntry(v: View, entries: Entries, k: RingKey, source: string) {
    k in entries && KeyOf(entries[k]) == k && VerifyOperator(v, source, k.operator) == Some(entries[k])
  }

  /** A chain holds together under one entry exactly when it does under the keyring and names that
      entry, with the same content. */
  lemma EntryLinked(v: View, entries: Entries, k: RingKey, source: string, c: Wire, chain: Chain)
    requires IsEntry(v, entries, k, source)
    ensures var ring := Linked(v, Ring(entries), None, c, chain);
            Linked(v, Pinned(k.operator), Some(source), c, chain) ==
            if ring.Some? && NamedEntry(ring.value) == k then ring else None
  {
  }

  lemma EntryChain(v: View, entries: Entries, k: RingKey, source: string, c: Wire, chain: Chain,
                   cfg: VerifyConfig, at: Instant)
    requires IsEntry(v, entries, k, source) && cfg.policy.None?
    ensures var ring := ChainVerdict(v, Ring(entries), c, chain, cfg, at);
            ChainVerdict(v, Pinned(k.operator), c, chain, cfg.(policy := Some(source)), at) ==
            if ring.Accepted? && NamedEntry(ring.claims) == k then ring else Rejected
  {
    EntryLinked(v, entries, k, source, c, chain);
  }

  /** One entry accepts exactly when the keyring accepts under that entry. */
  lemma EntryVerdict(v: View, entries: Entries, k: RingKey, source: string, token: string, cfg: VerifyConfig, now: Instant)
    requires IsEntry(v, entries, k, source) && cfg.policy.None?
    ensures var ring := MessageVerdict(v, Ring(entries), token, cfg, now);
            MessageVerdict(v, Pinned(k.operator), token, cfg.(policy := Some(source)), now) ==
            if ring.Accepted? && NamedEntry(ring.claims) != k then Rejected else ring
  {
    if IsMessage(v, token) {
      var c := v.decode(token).value;
      if c.body.chain.Some? {
        EntryChain(v, entries, k, source, c, c.body.chain.value, cfg, AsOf(cfg, now));
      } else if cfg.chain.Some? {
        EntryChain(v, entries, k, source, c, cfg.chain.value, cfg, AsOf(cfg, now));
      }
    }
  }

  lemma EntryTrial(v: View, entries: Entries, sources: map<RingKey, string>, k: RingKey,
                   token: string, opts: seq<VerifyOption>, now: Instant)
    requires Sourced(v, entries, sources) && k in entries && !SetsPolicy(opts)
    ensures var ring := MessageVerdict(v, Ring(entries), token, ConfigOf(opts), now);
            Trial(v, k, sources[k], token, opts, now) ==
            if ring.Accepted? && NamedEntry(ring.claims) != k then Rejected else ring
  {
    NoPolicy(opts);
    ConfigAppend(opts, WithOperatorPolicy(sources[k]));
    EntryVerdict(v, entries, k, sources[k], token, ConfigOf(opts), now);
  }

  /** Lookup by (issuer, epoch) is trial over the entries: the keyring accepts a message, with given
      claims, exactly when some entry does, at most one does, and a missing chain shows in all. */
  lemma KeyringEqualsTrial(v: View, entries: Entries, sources: map<RingKey, string>,
                           token: string, opts: seq<VerifyOption>, now: Instant)
    requires Sourced(v, entries, sources) && !SetsPolicy(opts)
    ensures var ring := MessageVerdict(v, Ring(entries), token, ConfigOf(opts), now);
            && (forall m :: ring == Accepted(m) <==>
                  exists k :: k in entries && Trial(v, k, sources[k], token, opts, now) == Accepted(m))
            && (forall k, l | k in entries && l in entries ::
                  (Trial(v, k, sources[k], token, opts, now).Accepted?
                   && Trial(v, l, sources[l], token, opts, now).Accepted?) ==> k == l)
            && (forall k :: k in entries ==>
                  (Trial(v, k, sources[k], token, opts, now) == NoChain <==> ring == NoChain))
  {
    var cfg := ConfigOf(opts);
    var ring := MessageVerdict(v, Ring(entries), token, cfg, now);
    NoPolicy(opts);
    forall k | k in entries
      ensures Trial(v, k, sources[k], token, opts, now) ==
              if ring.Accepted? && NamedEntry(ring.claims) != k then Rejected else ring
    {
      EntryTrial(v, entries, sources, k, token, opts, now);
    }
    AcceptingEntryExists(v, entries, token, cfg, now);
  }

  lemma AcceptingEntryExists(v: View, entries: Entries, token: string, cfg: VerifyConfig, now: Instant)
    requires cfg.policy == None
    ensures var r := MessageVerdict(v, Ring(entries), token, cfg, now);
            r.Accepted? ==> NamedEntry(r.claims) in entries
  {
  }

  /** The accepted instants form one interval, and the claims do not depend on the instant. */
  lemma AcceptanceIsAnInterval(v: View, anchor: Anchor, token: string, cfg: VerifyConfig,
                               from: Instant, mid: Instant, to: Instant)
    requires from <= mid <= to
    requires MessageVerdict(v, anchor, token, cfg, from).Accepted?
    requires MessageVerdict(v, anchor, token, cfg, to).Accepted?
    ensures MessageVerdict(v, anchor, token, cfg, mid) == MessageVerdict(v, anchor, token, cfg, from)
  {
  }

  /** A message and its chain, embedded or supplied, under a pinned key: with the chain's tokens
      genuine, what decides is the emitter's key, the epochs, the windows and the bindings. */
  lemma ChainedVerdict(v: View, token: string, c: Wire, chain: Chain, issuer: string, cfg: VerifyConfig, now: Instant)
    requires v.decode(token) == Some(c) && IsMessage(v, token)
    requires (c.body.chain == Some(chain) && cfg.chain == None) || (c.body.chain == None && cfg.chain == Some(chain))
    requires VerifyAccount(v, chain.account, issuer).Some?
    requires VerifyUser(v, chain.user, VerifyAccount(v, chain.account, issuer).value.claims.subject).Some?
    requires cfg.policy.None? && cfg.at == ZERO_TIME
    ensures var account := VerifyAccount(v, chain.account, issuer).value;
            var user := VerifyUser(v, chain.user, account.claims.subject).value;
            MessageVerdict(v, Pinned(issuer), token, cfg, now).Accepted? <==>
              && user.claims.subject == c.issuer
              && c.body.epoch == account.epoch == user.epoch
              && account.claims.Current(now, cfg.skew) && user.claims.Current(now, cfg.skew)
              && ClaimsOf(c).Current(now, cfg.skew)
              && (cfg.audience != "" ==> c.audience == cfg.audience)
              && (cfg.payload.Some? ==> c.body.checksum != "" && c.body.checksum == v.lib.hexSum(cfg.payload.value))
              && (cfg.requireSum ==> c.body.checksum != "")
  {
  }

  lemma LinkedMonotone(v: View, later: View, anchor: Anchor, policy: Option<string>, c: Wire, chain: Chain)
    requires later.Extends(v)
    ensures Linked(v, anchor, policy, c, chain).Some? ==>
              Linked(later, anchor, policy, c, chain) == Linked(v, anchor, policy, c, chain)
  {
    assert v.decode(chain.account).Some? ==> later.decode(chain.account) == v.decode(chain.account);
    assert v.decode(chain.user).Some? ==> later.decode(chain.user) == v.decode(chain.user);
    if policy.Some? {
      assert v.decode(policy.value).Some? ==> later.decode(policy.value) == v.decode(policy.value);
    }
  }

  /** An accepted message stays accepted as more signatures come into existence. */
  lemma AcceptedMonotone(v: View, later: View, anchor: Anchor, token: string, cfg: VerifyConfig, now: Instant)
    requires later.Extends(v)
    ensures MessageVerdict(v, anchor, token, cfg, now).Accepted? ==>
              MessageVerdict(later, anchor, token, cfg, now) == MessageVerdict(v, anchor, token, cfg, now)
  {
    assert v.decode(token).Some? ==> later.decode(token) == v.decode(token);
    if v.decode(token).Some? {
      var c := v.decode(token).value;
      if c.body.chain.Some? {
        LinkedMonotone(v, later, anchor, cfg.policy, c, c.body.chain.value);
      } else if cfg.chain.Some? {
        LinkedMonotone(v, later, anchor, cfg.policy, c, cfg.chain.value);
      }
    }
  }
}
