/** Exactly which requests are authenticated (verifier.go), said of the decoded documents, the lists and the
    nonces; and what each verifier option puts into the configuration. */
module RequestRules {
  import opened Wrappers
  import opened Tokens
  import opened Keyrings
  import opened Allowlists
  import opened Replay
  import opened Requests
  import opened OptionLists
  import opened MessageRules
  import Signing

  // ------------------------------------------------------------------
  // Options.
  // ------------------------------------------------------------------

  datatype Aspect = Slack | Validation | ExtensionType | Resolution | Floors | DomainPolicy

  function AspectOf(o: VerifierOption): Aspect {
    match o
    case WithSkew(_) => Slack
    case WithClaimsValidator(_) => Validation
    case WithExtensionType(_) => ExtensionType
    case WithAccountTokenResolver(_) => Resolution
    case WithGenerationFloors => Floors
    case WithOperatorToken(_) => DomainPolicy
  }

  /** Two minutes, unless set. */
  function SkewSet(opts: seq<VerifierOption>): int {
    match Last(opts, AspectOf, Slack) case None => 120_000_000_000 case Some(o) => o.skew
  }

  function ResolverSet(opts: seq<VerifierOption>): Option<Resolver> {
    match Last(opts, AspectOf, Resolution) case None => None case Some(o) => Some(o.resolver)
  }

  /** The hooks of the list, all of them, in its order. */
  function ValidatorsIn(opts: seq<VerifierOption>): seq<Validator> {
    if opts == [] then []
    else (if opts[0].WithClaimsValidator? then [opts[0].validator] else []) + ValidatorsIn(opts[1..])
  }

  function ChecksIn(opts: seq<VerifierOption>): seq<ExtCheck> {
    if opts == [] then []
    else (if opts[0].WithExtensionType? then [opts[0].check] else []) + ChecksIn(opts[1..])
  }

  lemma {:induction false} ValidatorsAppend(opts: seq<VerifierOption>, o: VerifierOption)
    ensures ValidatorsIn(opts + [o]) == ValidatorsIn(opts) + (if o.WithClaimsValidator? then [o.validator] else [])
  {
    if opts == [] {
      assert opts + [o] == [o] && [o][1..] == [];
    } else {
      ValidatorsAppend(opts[1..], o);
      assert (opts + [o])[1..] == opts[1..] + [o];
    }
  }

  lemma {:induction false} ChecksAppend(opts: seq<VerifierOption>, o: VerifierOption)
    ensures ChecksIn(opts + [o]) == ChecksIn(opts) + (if o.WithExtensionType? then [o.check] else [])
  {
    if opts == [] {
      assert opts + [o] == [o] && [o][1..] == [];
    } else {
      ChecksAppend(opts[1..], o);
      assert (opts + [o])[1..] == opts[1..] + [o];
    }
  }

  lemma {:induction false} FoldHooks(v: View, start: Config, opts: seq<VerifierOption>)
    ensures Fold(v, start, opts).validators == start.validators + ValidatorsIn(opts)
    ensures Fold(v, start, opts).extChecks == start.extChecks + ChecksIn(opts)
  {
    if opts != [] {
      var init, o := opts[..|opts| - 1], opts[|opts| - 1];
      FoldHooks(v, start, init);
      ValidatorsAppend(init, o);
      ChecksAppend(init, o);
      assert init + [o] == opts;
    }
  }

  lemma {:induction false} FoldSkewAndResolver(v: View, start: Config, opts: seq<VerifierOption>)
    ensures var r := Fold(v, start, opts);
            && r.skew == (match Last(opts, AspectOf, Slack) case None => start.skew case Some(o) => o.skew)
            && r.resolver == (match Last(opts, AspectOf, Resolution) case None => start.resolver case Some(o) => Some(o.resolver))
  {
    if opts != [] {
      FoldSkewAndResolver(v, start, opts[..|opts| - 1]);
    }
  }

  lemma {:induction false} FoldFloors(v: View, start: Config, opts: seq<VerifierOption>)
    ensures Fold(v, start, opts).enforceFloors <==> start.enforceFloors || Gives(opts, AspectOf, Floors)
  {
    LastIfAny(opts, AspectOf, Floors);
    if opts != [] {
      FoldFloors(v, start, opts[..|opts| - 1]);
      LastIfAny(opts[..|opts| - 1], AspectOf, Floors);
    }
  }

  /** What the options put into a verifier. */
  lemma OptionsConfigure(v: View, operatorKey: string, ring: Option<Entries>, opts: seq<VerifierOption>)
    ensures var c := Configured(v, operatorKey, ring, opts);
            && c.operatorKey == operatorKey && c.ring == ring
            && c.skew == SkewSet(opts) && c.resolver == ResolverSet(opts)
            && c.validators == ValidatorsIn(opts) && c.extChecks == ChecksIn(opts)
            && (c.enforceFloors <==> Gives(opts, AspectOf, Floors))
            && (ring.None? ==>
                  c.operator == (match LastOperatorToken(opts)
                                 case None => None
                                 case Some(t) => VerifyOperator(v, t, operatorKey)))
  {
    var start := Fresh(operatorKey, ring);
    OptionsKeepAnchor(v, start, opts);
    FoldHooks(v, start, opts);
    FoldSkewAndResolver(v, start, opts);
    FoldFloors(v, start, opts);
    OperatorTokenFold(v, start, opts);
  }

  // ------------------------------------------------------------------
  // The rule.
  // ------------------------------------------------------------------

  /** The policy an account stands under: the operator token given to a single-anchor verifier, or the entry of
      the keyring. */
  function PolicyFor(cfg: Config, account: Wire): Option<OperatorClaims> {
    if cfg.ring.None? then cfg.operator
    else
      var k := RingKey(account.issuer, account.body.epoch);
      if k in cfg.ring.value then Some(cfg.ring.value[k]) else None
  }

  predicate Trusted(cfg: Config, account: Wire, now: Instant) {
    && (if cfg.ring.None? then account.issuer == cfg.operatorKey
        else RingKey(account.issuer, account.body.epoch) in cfg.ring.value)
    && (PolicyFor(cfg, account).Some? ==>
          var policy := PolicyFor(cfg, account).value;
          policy.epoch == account.body.epoch && policy.claims.Window(now, cfg.skew))
  }

  /** A token's stamp, if floors are enforced and it has one, is a number at or above its issuer's floor. */
  predicate FloorMet(v: View, cfg: Config, lists: Lists, c: Wire) {
    cfg.enforceFloors && "gen" in c.body.ext ==>
      var gen := v.lib.generation(c.body.ext["gen"]);
      gen.Some? && (c.issuer in lists.floors ==> gen.value >= lists.floors[c.issuer])
  }

  predicate AccountLevel(v: View, cfg: Config, lists: Lists, token: string, now: Instant) {
    && IsDocument(v, token, "account", AccountRole)
    && var a := DocOf(v, token);
       Trusted(cfg, a, now) && InWindow(a, now, cfg.skew) && a.id in lists.ids && FloorMet(v, cfg, lists, a)
  }

  predicate UserLevel(v: View, cfg: Config, lists: Lists, account: Wire, token: string, now: Instant) {
    && IsDocument(v, token, "user", UserRole)
    && var u := DocOf(v, token);
       && u.issuer == account.subject && InWindow(u, now, cfg.skew) && FloorMet(v, cfg, lists, u)
       && (PolicyFor(cfg, account).Some? ==> u.body.epoch == account.body.epoch)
  }

  /** The credential stands at every level it has. */
  predicate Stands(v: View, cfg: Config, lists: Lists, req: Request, now: Instant) {
    && AccountLevel(v, cfg, lists, req.accountToken, now)
    && (req.userToken != "" ==> UserLevel(v, cfg, lists, DocOf(v, req.accountToken), req.userToken, now))
  }

  function IdentityOf(v: View, cfg: Config, req: Request): Identity
    requires v.decode(req.accountToken).Some? && (req.userToken != "" ==> v.decode(req.userToken).Some?)
  {
    Identity(AccountOf(DocOf(v, req.accountToken)),
             if req.userToken != "" then Some(UserOf(DocOf(v, req.userToken))) else None,
             PolicyFor(cfg, DocOf(v, req.accountToken)))
  }

  predicate Unsigned(req: Request) {
    req.timestamp == "" && req.signature == ""
  }

  /** The last token of the credential: the user's, or the account's. */
  function Leaf(req: Request): string {
    if req.userToken != "" then req.userToken else req.accountToken
  }

  /** The subject of the last token signed the request within the skew of its timestamp; or nobody did, and the
      user token carries the bearer mark. */
  predicate Held(v: View, cfg: Config, req: Request, now: Instant)
    requires v.decode(Leaf(req)).Some?
  {
    var subject := DocOf(v, Leaf(req)).subject;
    if Unsigned(req) then req.userToken != "" && DocOf(v, req.userToken).body.bearer
    else
      var ts, sig := v.lib.parseTime(req.timestamp), v.lib.unb64std(req.signature);
      && ts.Some? && ts.value - cfg.skew <= now <= ts.value + cfg.skew
      && sig.Some? && v.lib.role(subject) != NoKey
      && v.verifies(subject, Signing.SignedPayload(v.lib, ts.value, req.context), sig.value)
  }

  /** The sender is who the credential says, whatever becomes of nonce and hooks. */
  predicate Vouched(v: View, cfg: Config, lists: Lists, req: Request, now: Instant) {
    Stands(v, cfg, lists, req, now) && Held(v, cfg, req, now)
  }

  predicate NonceNew(req: Request, nonces: Option<Nonces>, cacheNow: Instant) {
    Unsigned(req) || nonces.None? ||
    (req.nonce != "" && (req.nonce in nonces.value ==> nonces.value[req.nonce] <= cacheNow))
  }

  predicate HooksHold(v: View, cfg: Config, req: Request)
    requires v.decode(req.accountToken).Some? && (req.userToken != "" ==> v.decode(req.userToken).Some?)
  {
    && (forall i :: 0 <= i < |cfg.extChecks| ==>
          && cfg.extChecks[i](DocOf(v, req.accountToken).body.ext)
          && (req.userToken != "" ==> cfg.extChecks[i](DocOf(v, req.userToken).body.ext)))
    && (forall i :: 0 <= i < |cfg.validators| ==> cfg.validators[i](req, IdentityOf(v, cfg, req)))
  }

  /** What the nonce cache holds after a request: untouched unless the sender is vouched for, signed, and brought a
      nonce; then without the entries that have lapsed, and with the nonce for twice the skew if it is new. */
  function NoncesLeft(v: View, cfg: Config, lists: Lists, nonces: Option<Nonces>, req: Request, now: Instant,
                      cacheNow: Instant): Option<Nonces>
  {
    if nonces.None? || !Vouched(v, cfg, lists, req, now) || Unsigned(req) || req.nonce == "" then nonces
    else
      var kept := map k | k in nonces.value && nonces.value[k] > cacheNow :: nonces.value[k];
      Some(if req.nonce in kept then kept else kept[req.nonce := now + 2 * cfg.skew])
  }

  /** The account token of a request: its own, or what the server's resolver has for the issuer of its user token. */
  function AccountTokenFor(v: View, cfg: Config, req: Request): Option<string> {
    if req.accountToken != "" then Some(req.accountToken)
    else if req.userToken == "" || cfg.resolver.None? || v.decode(req.userToken).None? then None
    else cfg.resolver.value(DocOf(v, req.userToken).issuer)
  }

  // ------------------------------------------------------------------
  // The pipeline is that.
  // ------------------------------------------------------------------

  lemma FloorExactly(v: View, cfg: Config, lists: Lists, c: Wire)
    ensures CheckGenerationFloor(v.lib, c.body.ext, c.issuer, EnforcedFloors(cfg, lists)) <==> FloorMet(v, cfg, lists, c)
  {
  }

  lemma AccountExactly(v: View, cfg: Config, lists: Lists, token: string, now: Instant)
    ensures var r := Anchored(v, cfg, token);
            && (r.Some? && AccountStands(v, cfg, lists, r.value.0, r.value.1, now) <==> AccountLevel(v, cfg, lists, token, now))
            && (r.Some? ==> IsDocument(v, token, "account", AccountRole) && r.value.0 == AccountOf(DocOf(v, token))
                            && r.value.1 == PolicyFor(cfg, DocOf(v, token)))
  {
    if v.decode(token).Some? {
      WindowInSeconds(DocOf(v, token), now, cfg.skew);
      FloorExactly(v, cfg, lists, DocOf(v, token));
    }
  }

  lemma UserExactly(v: View, cfg: Config, lists: Lists, account: Wire, token: string, now: Instant)
    requires PolicyFor(cfg, account).Some? ==> PolicyFor(cfg, account).value.epoch == account.body.epoch
    ensures var r := VerifyUser(v, token, account.subject);
            && (r.Some? && UserStands(v, cfg, lists, r.value, PolicyFor(cfg, account), now)
                <==> UserLevel(v, cfg, lists, account, token, now))
            && (r.Some? ==> r.value == UserOf(DocOf(v, token)))
  {
    if v.decode(token).Some? {
      WindowInSeconds(DocOf(v, token), now, cfg.skew);
      FloorExactly(v, cfg, lists, DocOf(v, token));
    }
  }

  lemma PrincipalExactly(v: View, cfg: Config, lists: Lists, req: Request, now: Instant)
    ensures Principal(v, cfg, lists, req, now).Some? <==> Stands(v, cfg, lists, req, now)
    ensures Stands(v, cfg, lists, req, now) ==> Principal(v, cfg, lists, req, now) == Some(IdentityOf(v, cfg, req))
  {
    AccountExactly(v, cfg, lists, req.accountToken, now);
    if AccountLevel(v, cfg, lists, req.accountToken, now) {
      UserExactly(v, cfg, lists, DocOf(v, req.accountToken), req.userToken, now);
    }
  }

  lemma PossessionExactly(v: View, cfg: Config, lists: Lists, req: Request, now: Instant)
    requires Stands(v, cfg, lists, req, now)
    ensures Possession(v, cfg, req, IdentityOf(v, cfg, req), now) <==> Held(v, cfg, req, now)
    ensures HooksPass(cfg, req, IdentityOf(v, cfg, req)) <==> HooksHold(v, cfg, req)
  {
  }

  lemma NonceExactly(cfg: Config, req: Request, nonces: Option<Nonces>, now: Instant, cacheNow: Instant)
    ensures NonceStep(cfg, req, nonces, now, cacheNow).0 <==> NonceNew(req, nonces, cacheNow)
  {
  }

  /** With its account token in hand, a request is accepted exactly when the credential stands, the sender holds
      it, the nonce is new and every hook agrees; the identity is read off the documents. */
  lemma ResolvedExactly(v: View, cfg: Config, lists: Lists, nonces: Option<Nonces>, req: Request, now: Instant,
                        cacheNow: Instant)
    ensures var (id, after) := AuthenticateResolved(v, cfg, lists, nonces, req, now, cacheNow);
            && (id.Some? <==> Vouched(v, cfg, lists, req, now) && NonceNew(req, nonces, cacheNow) && HooksHold(v, cfg, req))
            && (id.Some? ==> id.value == IdentityOf(v, cfg, req))
            && after == NoncesLeft(v, cfg, lists, nonces, req, now, cacheNow)
  {
    PrincipalExactly(v, cfg, lists, req, now);
    if Stands(v, cfg, lists, req, now) {
      PossessionExactly(v, cfg, lists, req, now);
      NonceExactly(cfg, req, nonces, now, cacheNow);
    }
  }

  /** The whole rule. A request is accepted exactly when the verifier is not poisoned, an account token is sent or
      resolved, and, with that token, the request meets every condition. */
  lemma AuthenticatedExactly(v: View, cfg: Config, lists: Lists, nonces: Option<Nonces>, req: Request, now: Instant,
                             cacheNow: Instant)
    ensures var (id, after) := Authenticate(v, cfg, lists, nonces, req, now, cacheNow);
            var token := AccountTokenFor(v, cfg, req);
            if cfg.poisoned || token.None? then id.None? && after == nonces
            else
              var full := req.(accountToken := token.value);
              && (id.Some? <==>
                    Vouched(v, cfg, lists, full, now) && NonceNew(full, nonces, cacheNow) && HooksHold(v, cfg, full))
              && (id.Some? ==> id.value == IdentityOf(v, cfg, full))
              && after == NoncesLeft(v, cfg, lists, nonces, full, now, cacheNow)
  {
    var token := AccountTokenFor(v, cfg, req);
    assert token.None? <==> Resolved(v, cfg, req).None?;
    if token.Some? {
      var full := req.(accountToken := token.value);
      assert Resolved(v, cfg, req) == Some(full);
      ResolvedExactly(v, cfg, lists, nonces, full, now, cacheNow);
    }
  }

  // ------------------------------------------------------------------
  // Requests that bring only a user token.
  // ------------------------------------------------------------------

  /** The resolver StaticAccountTokens returns. */
  function ResolverOf(table: map<string, string>): Resolver {
    account => if account in table then Some(table[account]) else None
  }

  /** With a static table, a request that brings only a user token fares as if it had brought the last token listed
      for that token's issuer, and is refused if none is listed. */
  lemma ResolvedByTable(v: View, cfg: Config, tokens: seq<string>, lists: Lists, nonces: Option<Nonces>, req: Request,
                        now: Instant, cacheNow: Instant, i: nat)
    requires TableOf(v, tokens).Some? && cfg.resolver == Some(ResolverOf(TableOf(v, tokens).value))
    requires req.accountToken == "" && req.userToken != "" && v.decode(req.userToken).Some?
    ensures var account := DocOf(v, req.userToken).issuer;
            && (i < |tokens| && AccountNamed(v, tokens[i]) == Some(account)
                && (forall j :: i < j < |tokens| ==> AccountNamed(v, tokens[j]) != Some(account)) ==>
                  Authenticate(v, cfg, lists, nonces, req, now, cacheNow) ==
                  Authenticate(v, cfg, lists, nonces, req.(accountToken := tokens[i]), now, cacheNow))
            && ((forall j :: 0 <= j < |tokens| ==> AccountNamed(v, tokens[j]) != Some(account)) ==>
                  Authenticate(v, cfg, lists, nonces, req, now, cacheNow) == (None, nonces))
  {
    var account := DocOf(v, req.userToken).issuer;
    var table := TableOf(v, tokens).value;
    if account in table {
      TableAnswersAreGenuine(v, tokens, account);
      var k :| 0 <= k < |tokens| && tokens[k] == table[account];
      assert AccountNamed(v, tokens[k]) == Some(account);
    }
    if i < |tokens| && AccountNamed(v, tokens[i]) == Some(account) {
      LastTokenWins(v, tokens, i);
    }
  }
}
