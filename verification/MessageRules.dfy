/** Exactly which messages are accepted (message.go), said of the decoded documents and of the list of
    verify options. */
module MessageRules {
  import opened Wrappers
  import opened Tokens
  import opened Keyrings
  import opened Messages
  import opened OptionLists

  datatype Setting = Moment | Skew | Audience | ChecksumRequired | Payload | Policy | Chaining

  function SettingOf(o: VerifyOption): Setting {
    match o
    case At(_) => Moment
    case WithMessageSkew(_) => Skew
    case ExpectAudience(_) => Audience
    case RequireChecksum => ChecksumRequired
    case WithPayload(_) => Payload
    case WithOperatorPolicy(_) => Policy
    case WithChainTokens(_, _) => Chaining
  }

  /** The instant of verification: that of the last At, unless it is the zero time, else the clock's. */
  function MomentGiven(opts: seq<VerifyOption>, now: Instant): Instant {
    match Last(opts, SettingOf, Moment)
    case None => now
    case Some(o) => if o.instant == -62_135_596_800_000_000_000 then now else o.instant
  }

  /** Two minutes, unless set. */
  function SkewGiven(opts: seq<VerifyOption>): int {
    match Last(opts, SettingOf, Skew) case None => 120_000_000_000 case Some(o) => o.skew
  }

  function AudienceGiven(opts: seq<VerifyOption>): string {
    match Last(opts, SettingOf, Audience) case None => "" case Some(o) => o.audience
  }

  function PayloadGiven(opts: seq<VerifyOption>): Option<string> {
    match Last(opts, SettingOf, Payload) case None => None case Some(o) => Some(o.payload)
  }

  function PolicyGiven(opts: seq<VerifyOption>): Option<string> {
    match Last(opts, SettingOf, Policy) case None => None case Some(o) => Some(o.token)
  }

  function ChainGiven(opts: seq<VerifyOption>): Option<Chain> {
    match Last(opts, SettingOf, Chaining) case None => None case Some(o) => Some(Chain(o.account, o.user))
  }

  lemma {:induction false} FoldMoment(opts: seq<VerifyOption>, now: Instant)
    ensures AsOf(ConfigOf(opts), now) == MomentGiven(opts, now)
  {
    if opts != [] {
      FoldMoment(opts[..|opts| - 1], now);
    }
  }

  lemma {:induction false} FoldSkew(opts: seq<VerifyOption>)
    ensures ConfigOf(opts).skew == SkewGiven(opts)
  {
    if opts != [] {
      FoldSkew(opts[..|opts| - 1]);
    }
  }

  lemma {:induction false} FoldAudience(opts: seq<VerifyOption>)
    ensures ConfigOf(opts).audience == AudienceGiven(opts)
  {
    if opts != [] {
      FoldAudience(opts[..|opts| - 1]);
    }
  }

  lemma {:induction false} FoldPayload(opts: seq<VerifyOption>)
    ensures ConfigOf(opts).payload == PayloadGiven(opts)
  {
    if opts != [] {
      FoldPayload(opts[..|opts| - 1]);
    }
  }

  lemma {:induction false} FoldPolicy(opts: seq<VerifyOption>)
    ensures ConfigOf(opts).policy == PolicyGiven(opts)
  {
    if opts != [] {
      FoldPolicy(opts[..|opts| - 1]);
    }
  }

  lemma {:induction false} FoldChain(opts: seq<VerifyOption>)
    ensures ConfigOf(opts).chain == ChainGiven(opts)
  {
    if opts != [] {
      FoldChain(opts[..|opts| - 1]);
    }
  }

  lemma {:induction false} FoldChecksum(opts: seq<VerifyOption>)
    ensures ConfigOf(opts).requireSum <==> Gives(opts, SettingOf, ChecksumRequired)
  {
    LastIfAny(opts, SettingOf, ChecksumRequired);
    if opts != [] {
      FoldChecksum(opts[..|opts| - 1]);
      LastIfAny(opts[..|opts| - 1], SettingOf, ChecksumRequired);
    }
  }

  /** What the options put into the configuration: the last of each setting, or its default. */
  lemma OptionsGive(opts: seq<VerifyOption>, now: Instant)
    ensures var c := ConfigOf(opts);
            && AsOf(c, now) == MomentGiven(opts, now) && c.skew == SkewGiven(opts)
            && c.audience == AudienceGiven(opts) && c.payload == PayloadGiven(opts)
            && c.policy == PolicyGiven(opts) && c.chain == ChainGiven(opts)
            && (c.requireSum <==> Gives(opts, SettingOf, ChecksumRequired))
  {
    FoldMoment(opts, now);
    FoldSkew(opts);
    FoldAudience(opts);
    FoldPayload(opts);
    FoldPolicy(opts);
    FoldChain(opts);
    FoldChecksum(opts);
  }

  // ------------------------------------------------------------------
  // The documents of a chain.
  // ------------------------------------------------------------------

  /** The document of a token, if it is one of this type for a subject of this role. */
  predicate IsDocument(v: View, token: string, typ: string, role: Role) {
    v.decode(token).Some? && v.decode(token).value.body.typ == typ && v.lib.role(v.decode(token).value.subject) == role
  }

  function DocOf(v: View, token: string): Wire
    requires v.decode(token).Some?
  {
    v.decode(token).value
  }

  predicate IsSelfSigned(c: Wire) {
    c.issuer == c.subject
  }

  /** The account token is rooted in the anchor, and the policy that applies stands at the instant. */
  predicate Rooted(v: View, anchor: Anchor, policy: Option<string>, account: Wire, at: Instant, skew: int) {
    match anchor
    case Pinned(key) =>
      && account.issuer == key
      && (policy.Some? ==>
            && IsDocument(v, policy.value, "operator", OperatorRole)
            && var o := DocOf(v, policy.value);
               o.issuer == key && o.subject == key && o.body.epoch == account.body.epoch && InWindow(o, at, skew))
    case Ring(entries) =>
      && policy.None?
      && var k := RingKey(account.issuer, account.body.epoch);
         k in entries && entries[k].epoch == account.body.epoch && entries[k].claims.Window(at, skew)
  }

  /** A message, an account and a user document that belong together. */
  predicate BelongTogether(c: Wire, account: Wire, user: Wire) {
    && user.issuer == account.subject && c.issuer == user.subject
    && c.body.epoch == account.body.epoch && c.body.epoch == user.body.epoch
  }

  predicate ChainStands(v: View, anchor: Anchor, policy: Option<string>, c: Wire, chain: Chain, at: Instant, skew: int) {
    && IsDocument(v, chain.account, "account", AccountRole) && IsDocument(v, chain.user, "user", UserRole)
    && var a, u := DocOf(v, chain.account), DocOf(v, chain.user);
       && BelongTogether(c, a, u) && Rooted(v, anchor, policy, a, at, skew)
       && InWindow(a, at, skew) && InWindow(u, at, skew) && InWindow(c, at, skew)
  }

  predicate MeetsBindings(lib: Lib, c: Wire, opts: seq<VerifyOption>) {
    && (AudienceGiven(opts) != "" ==> c.audience == AudienceGiven(opts))
    && (PayloadGiven(opts).Some? ==> c.body.checksum != "" && c.body.checksum == lib.hexSum(PayloadGiven(opts).value))
    && (Gives(opts, SettingOf, ChecksumRequired) ==> c.body.checksum != "")
  }

  /** The message's own chain, or the one supplied; both only if they are one. */
  predicate HasChain(c: Wire, supplied: Option<Chain>) {
    && (c.body.chain.Some? || supplied.Some?)
    && (c.body.chain.Some? && supplied.Some? ==> c.body.chain == supplied)
  }

  function ChainFor(c: Wire, supplied: Option<Chain>): Chain
    requires HasChain(c, supplied)
  {
    if supplied.Some? then supplied.value else c.body.chain.value
  }

  predicate Acceptable(v: View, anchor: Anchor, token: string, opts: seq<VerifyOption>, now: Instant) {
    && IsDocument(v, token, "message", UserRole) && IsSelfSigned(DocOf(v, token))
    && var c := DocOf(v, token);
       && HasChain(c, ChainGiven(opts))
       && ChainStands(v, anchor, PolicyGiven(opts), c, ChainFor(c, ChainGiven(opts)), MomentGiven(opts, now), SkewGiven(opts))
       && MeetsBindings(v.lib, c, opts)
  }

  // ------------------------------------------------------------------
  // The verdict is that.
  // ------------------------------------------------------------------

  lemma ResolvesExactly(v: View, anchor: Anchor, policy: Option<string>, token: string, at: Instant, skew: int)
    ensures var r := Resolve(v, anchor, policy, token);
            && (r.Some? ==> IsDocument(v, token, "account", AccountRole) && r.value.0 == AccountOf(DocOf(v, token)))
            && ((r.Some? && (r.value.1.Some? ==> r.value.1.value.epoch == r.value.0.epoch && r.value.1.value.claims.Current(at, skew)))
                <==> IsDocument(v, token, "account", AccountRole) && Rooted(v, anchor, policy, DocOf(v, token), at, skew))
  {
    if anchor.Pinned? && policy.Some? && v.decode(policy.value).Some? {
      WindowInSeconds(DocOf(v, policy.value), at, skew);
    }
  }

  lemma ChainVerdictExactly(v: View, anchor: Anchor, c: Wire, chain: Chain, opts: seq<VerifyOption>, now: Instant)
    ensures ChainVerdict(v, anchor, c, chain, ConfigOf(opts), AsOf(ConfigOf(opts), now)).Accepted? <==>
            && ChainStands(v, anchor, PolicyGiven(opts), c, chain, MomentGiven(opts, now), SkewGiven(opts))
            && MeetsBindings(v.lib, c, opts)
  {
    OptionsGive(opts, now);
    var at, skew := MomentGiven(opts, now), SkewGiven(opts);
    ResolvesExactly(v, anchor, PolicyGiven(opts), chain.account, at, skew);
    WindowInSeconds(c, at, skew);
    if v.decode(chain.account).Some? {
      WindowInSeconds(DocOf(v, chain.account), at, skew);
    }
    if v.decode(chain.user).Some? {
      WindowInSeconds(DocOf(v, chain.user), at, skew);
    }
  }

  /** A message is accepted exactly when its documents and the options say so, and lacks a chain exactly when
      it is a genuine message and neither brings one. */
  lemma AcceptedExactly(v: View, anchor: Anchor, token: string, opts: seq<VerifyOption>, now: Instant)
    ensures var r := MessageVerdict(v, anchor, token, ConfigOf(opts), now);
            && (r.Accepted? <==> Acceptable(v, anchor, token, opts, now))
            && (r.NoChain? <==>
                  && IsDocument(v, token, "message", UserRole) && IsSelfSigned(DocOf(v, token))
                  && DocOf(v, token).body.chain.None? && !Gives(opts, SettingOf, Chaining))
  {
    FoldChain(opts);
    LastIfAny(opts, SettingOf, Chaining);
    if IsMessage(v, token) {
      var c := DocOf(v, token);
      if HasChain(c, ChainGiven(opts)) {
        ChainVerdictExactly(v, anchor, c, ChainFor(c, ChainGiven(opts)), opts, now);
      }
    }
  }

  /** What the receiver is told of an accepted message: the message's own bindings, and the chain's two
      documents as read. */
  lemma AcceptedClaims(v: View, anchor: Anchor, token: string, opts: seq<VerifyOption>, now: Instant)
    requires Acceptable(v, anchor, token, opts, now)
    ensures var r := MessageVerdict(v, anchor, token, ConfigOf(opts), now);
            var c := DocOf(v, token);
            var chain := ChainFor(c, ChainGiven(opts));
            && r.Accepted?
            && r.claims.claims == ClaimsOf(c) && r.claims.audience == c.audience && r.claims.checksum == c.body.checksum
            && r.claims.epoch == c.body.epoch && r.claims.ext == c.body.ext
            && r.claims.account == AccountOf(DocOf(v, chain.account)) && r.claims.user == UserOf(DocOf(v, chain.user))
            && (anchor.Pinned? && PolicyGiven(opts).None? ==> r.claims.operator.None?)
            && (anchor.Pinned? && PolicyGiven(opts).Some? ==>
                  r.claims.operator == Some(OperatorOf(DocOf(v, PolicyGiven(opts).value))))
            && (anchor.Ring? ==>
                  var k := RingKey(DocOf(v, chain.account).issuer, DocOf(v, chain.account).body.epoch);
                  r.claims.operator == Some(anchor.entries[k]))
  {
    AcceptedExactly(v, anchor, token, opts, now);
    FoldChain(opts);
    FoldPolicy(opts);
  }
}
