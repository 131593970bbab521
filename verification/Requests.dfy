/** Authenticating requests (verifier.go): the decision pipeline with its nonce step. */
module Requests {
  import opened Wrappers
  import opened Tokens
  import opened Keyrings
  import opened Allowlists
  import opened Replay
  import Signing

  datatype Request = Request(accountToken: string, userToken: string, timestamp: string, signature: string,
                             context: string, nonce: string)
  {
    /** Anything but a bearer request, which carries neither timestamp nor signature. */
    predicate Signs() {
      timestamp != "" || signature != ""
    }
  }

  datatype Identity = Identity(account: AccountClaims, user: Option<UserClaims>, operator: Option<OperatorClaims>) {
    function Subject(): string {
      if user.Some? then user.value.claims.subject else account.claims.subject
    }
  }

  type Validator = (Request, Identity) -> bool
  type ExtCheck = Extensions -> bool
  type Resolver = string -> Option<string>

  // ------------------------------------------------------------------
  // Configuration.
  // ------------------------------------------------------------------

  /** What a verifier is built from; `ring` is None for a single-anchor verifier. */
  datatype Config = Config(operatorKey: string, ring: Option<Entries>, skew: int, validators: seq<Validator>,
                           extChecks: seq<ExtCheck>, resolver: Option<Resolver>, operator: Option<OperatorClaims>,
                           poisoned: bool, enforceFloors: bool)

  datatype VerifierOption =
    | WithSkew(skew: int)
    | WithClaimsValidator(validator: Validator)
    | WithExtensionType(check: ExtCheck)
    | WithAccountTokenResolver(resolver: Resolver)
    | WithGenerationFloors
    | WithOperatorToken(token: string)

  function Fresh(operatorKey: string, ring: Option<Entries>): Config {
    Config(operatorKey, ring, Signing.DEFAULT_SKEW, [], [], None, None, false, false)
  }

  function Apply(v: View, c: Config, o: VerifierOption): Config {
    match o
    case WithSkew(d) => c.(skew := d)
    case WithClaimsValidator(f) => c.(validators := c.validators + [f])
    case WithExtensionType(f) => c.(extChecks := c.extChecks + [f])
    case WithAccountTokenResolver(f) => c.(resolver := Some(f))
    case WithGenerationFloors => c.(enforceFloors := true)
    case WithOperatorToken(t) =>
      var operator := VerifyOperator(v, t, c.operatorKey);
      c.(operator := operator, poisoned := operator.None?)
  }

  function Fold(v: View, start: Config, opts: seq<VerifierOption>): Config {
    if opts == [] then start
    else Apply(v, Fold(v, start, opts[..|opts| - 1]), opts[|opts| - 1])
  }

  /** NewKeyringVerifier's last word: an operator token does not combine with a keyring. */
  function Seal(c: Config): Config {
    if c.ring.Some? && (c.operator.Some? || c.poisoned) then c.(operator := None, poisoned := true) else c
  }

  function Configured(v: View, operatorKey: string, ring: Option<Entries>, opts: seq<VerifierOption>): Config {
    Seal(Fold(v, Fresh(operatorKey, ring), opts))
  }

  /** The operator token of the options that counts: the last. */
  function LastOperatorToken(opts: seq<VerifierOption>): Option<string> {
    if opts == [] then None
    else if opts[|opts| - 1].WithOperatorToken? then Some(opts[|opts| - 1].token)
    else LastOperatorToken(opts[..|opts| - 1])
  }

  lemma {:induction false} OperatorTokenFold(v: View, start: Config, opts: seq<VerifierOption>)
    ensures var r := Fold(v, start, opts);
            match LastOperatorToken(opts)
            case None => r.operator == start.operator && r.poisoned == start.poisoned
            case Some(t) => r.operator == VerifyOperator(v, t, start.operatorKey) && r.poisoned == r.operator.None?
  {
    if opts != [] {
      OperatorTokenFold(v, start, opts[..|opts| - 1]);
      OptionsKeepAnchor(v, start, opts[..|opts| - 1]);
    }
  }

  /** A verifier is poisoned, and then refuses every request, exactly when its options hold an operator
      token and it has a keyring, or the last such token is not self-signed by the pinned key. */
  lemma PoisonedExactly(v: View, operatorKey: string, ring: Option<Entries>, opts: seq<VerifierOption>,
                        lists: Lists, nonces: Option<Nonces>, req: Request, now: Instant, cacheNow: Instant)
    ensures var cfg, last := Configured(v, operatorKey, ring, opts), LastOperatorToken(opts);
            && (cfg.poisoned <==> last.Some? && (ring.Some? || VerifyOperator(v, last.value, operatorKey).None?))
            && (cfg.poisoned ==> Authenticate(v, cfg, lists, nonces, req, now, cacheNow) == (None, nonces))
  {
    OperatorTokenFold(v, Fresh(operatorKey, ring), opts);
    OptionsKeepAnchor(v, Fresh(operatorKey, ring), opts);
  }

  /** StaticAccountTokens: the resolver's table, the last token of each account. */
  function TableOf(v: View, tokens: seq<string>): Option<map<string, string>> {
    if tokens == [] then Some(map[])
    else match TableOf(v, tokens[..|tokens| - 1])
      case None => None
      case Some(table) =>
        var token := tokens[|tokens| - 1];
        match IssuerOf(v, token)
        case None => None
        case Some(issuer) =>
          match VerifyAccount(v, token, issuer)
          case None => None
          case Some(claims) => Some(table[claims.claims.subject := token])
  }

  /** The table's answers are tokens of the list, each a self-consistent account token for the
      account it is filed under. */
  lemma {:induction false} TableAnswersAreGenuine(v: View, tokens: seq<string>, account: string)
    requires TableOf(v, tokens).Some? && account in TableOf(v, tokens).value
    ensures var token := TableOf(v, tokens).value[account];
            && token in tokens
            && IssuerOf(v, token).Some?
            && VerifyAccount(v, token, IssuerOf(v, token).value).Some?
            && VerifyAccount(v, token, IssuerOf(v, token).value).value.claims.subject == account
  {
    if account in TableOf(v, tokens[..|tokens| - 1]).value {
      TableAnswersAreGenuine(v, tokens[..|tokens| - 1], account);
    }
  }

  /** The account a self-consistent account token is for. */
  function AccountNamed(v: View, token: string): Option<string> {
    match IssuerOf(v, token)
    case None => None
    case Some(issuer) =>
      match VerifyAccount(v, token, issuer)
      case None => None
      case Some(claims) => Some(claims.claims.subject)
  }

  /** The list is refused exactly when some token is no self-consistent account token. */
  lemma {:induction false} TableRefusesExactly(v: View, tokens: seq<string>)
    ensures TableOf(v, tokens).Some? <==> forall i :: 0 <= i < |tokens| ==> AccountNamed(v, tokens[i]).Some?
  {
    if tokens != [] {
      var init := tokens[..|tokens| - 1];
      TableRefusesExactly(v, init);
      assert forall i :: 0 <= i < |init| ==> init[i] == tokens[i];
      assert TableOf(v, tokens).Some? <==> TableOf(v, init).Some? && AccountNamed(v, tokens[|tokens| - 1]).Some?;
    }
  }

  /** Every account in the list is answered, and its last token wins. */
  lemma {:induction false} LastTokenWins(v: View, tokens: seq<string>, i: nat)
    requires TableOf(v, tokens).Some? && i < |tokens|
    ensures var account := AccountNamed(v, tokens[i]);
            && account.Some? && account.value in TableOf(v, tokens).value
            && ((forall j :: i < j < |tokens| ==> AccountNamed(v, tokens[j]) != account) ==>
                  TableOf(v, tokens).value[account.value] == tokens[i])
  {
    var init, last := tokens[..|tokens| - 1], tokens[|tokens| - 1];
    assert AccountNamed(v, last).Some?;
    assert TableOf(v, tokens).value == TableOf(v, init).value[AccountNamed(v, last).value := last];
    if i < |init| {
      LastTokenWins(v, init, i);
      assert init[i] == tokens[i];
      assert forall j :: i < j < |init| ==> init[j] == tokens[j];
    }
  }

  method StaticAccountTokens(v: View, tokens: seq<string>) returns (table: Option<map<string, string>>)
    ensures table == TableOf(v, tokens)
  {
    var byKey: map<string, string> := map[];
    for i := 0 to |tokens|
      invariant TableOf(v, tokens[..i]) == Some(byKey)
    {
      assert tokens[..i + 1][..i] == tokens[..i];
      var issuer := IssuerOf(v, tokens[i]);
      if issuer.None? {
        NoTableBeyond(v, tokens, i + 1);
        return None;
      }
      var claims := VerifyAccount(v, tokens[i], issuer.value);
      if claims.None? {
        NoTableBeyond(v, tokens, i + 1);
        return None;
      }
      byKey := byKey[claims.value.claims.subject := tokens[i]];
    }
    assert tokens[..|tokens|] == tokens;
    return Some(byKey);
  }

  lemma {:induction false} NoTableBeyond(v: View, tokens: seq<string>, n: nat)
    requires n <= |tokens| && TableOf(v, tokens[..n]).None?
    ensures TableOf(v, tokens).None?
  {
    if n < |tokens| {
      assert tokens[..|tokens| - 1][..n] == tokens[..n];
      NoTableBeyond(v, tokens[..|tokens| - 1], n);
    } else {
      assert tokens[..n] == tokens;
    }
  }

  // ------------------------------------------------------------------
  // What a verdict means.
  // ------------------------------------------------------------------

  /** The request with its account token resolved, when it came without one. */
  function Resolved(v: View, cfg: Config, req: Request): Option<Request> {
    if req.accountToken != "" then Some(req)
    else if req.userToken == "" || cfg.resolver.None? then None
    else match IssuerOf(v, req.userToken)
      case None => None
      case Some(account) =>
        match cfg.resolver.value(account)
        case None => None
        case Some(token) => Some(req.(accountToken := token))
  }

  /** The account and the operator policy the credential is read under. */
  function Anchored(v: View, cfg: Config, accountToken: string): Option<(AccountClaims, Option<OperatorClaims>)> {
    if cfg.ring.Some? then
      match IssuerOf(v, accountToken)
      case None => None
      case Some(issuer) =>
        match VerifyAccount(v, accountToken, issuer)
        case None => None
        case Some(account) =>
          var k := RingKey(issuer, account.epoch);
          if k in cfg.ring.value then Some((account, Some(cfg.ring.value[k]))) else None
    else
      match VerifyAccount(v, accountToken, cfg.operatorKey)
      case None => None
      case Some(account) => Some((account, cfg.operator))
  }

  /** The account level stands: windows, epoch, allowlist and floor. */
  predicate AccountStands(v: View, cfg: Config, lists: Lists, account: AccountClaims,
                          operator: Option<OperatorClaims>, now: Instant)
  {
    && (operator.Some? ==>
          operator.value.claims.Current(now, cfg.skew) && account.epoch == operator.value.epoch)
    && account.claims.Current(now, cfg.skew)
    && account.claims.id in lists.ids
    && CheckGenerationFloor(v.lib, account.ext, account.claims.issuer, EnforcedFloors(cfg, lists))
  }

  function EnforcedFloors(cfg: Config, lists: Lists): Option<map<string, nat>> {
    if cfg.enforceFloors then Some(lists.floors) else None
  }

  predicate UserStands(v: View, cfg: Config, lists: Lists, user: UserClaims,
                       operator: Option<OperatorClaims>, now: Instant)
  {
    && (operator.Some? ==> user.epoch == operator.value.epoch)
    && user.claims.Current(now, cfg.skew)
    && CheckGenerationFloor(v.lib, user.ext, user.claims.issuer, EnforcedFloors(cfg, lists))
  }

  /** The identity the (resolved) credential names, all levels verified and standing. */
  function Principal(v: View, cfg: Config, lists: Lists, req: Request, now: Instant): Option<Identity> {
    match Anchored(v, cfg, req.accountToken)
    case None => None
    case Some((account, operator)) =>
      if !AccountStands(v, cfg, lists, account, operator, now) then None
      else if req.userToken == "" then Some(Identity(account, None, operator))
      else match VerifyUser(v, req.userToken, account.claims.subject)
        case None => None
        case Some(user) =>
          if UserStands(v, cfg, lists, user, operator, now) then Some(Identity(account, Some(user), operator)) else None
  }

  /** The sender holds the subject's key, or the token is a bearer user token. */
  predicate Possession(v: View, cfg: Config, req: Request, id: Identity, now: Instant) {
    if req.Signs() then
      Signing.VerifySignature(v, id.Subject(), req.timestamp, req.signature, req.context, now, cfg.skew)
    else id.user.Some? && id.user.value.bearer
  }

  predicate HooksPass(cfg: Config, req: Request, id: Identity) {
    && (forall i :: 0 <= i < |cfg.extChecks| ==>
          cfg.extChecks[i](id.account.ext) && (id.user.Some? ==> cfg.extChecks[i](id.user.value.ext)))
    && (forall i :: 0 <= i < |cfg.validators| ==> cfg.validators[i](req, id))
  }

  /** The nonce step: with a replay cache, a signed request needs a nonce not seen before. */
  function NonceStep(cfg: Config, req: Request, nonces: Option<Nonces>, now: Instant, cacheNow: Instant)
    : (bool, Option<Nonces>)
  {
    if !req.Signs() || nonces.None? then (true, nonces)
    else if req.nonce == "" then (false, nonces)
    else
      var (seen, after) := SeenStep(nonces.value, req.nonce, now + 2 * cfg.skew, cacheNow);
      (!seen, Some(after))
  }

  /** The whole pipeline: the identity, if any, and what the replay cache holds afterwards. `now` is
      the verifier's clock reading and `cacheNow` the cache's own. */
  function Authenticate(v: View, cfg: Config, lists: Lists, nonces: Option<Nonces>, req: Request,
                        now: Instant, cacheNow: Instant): (Option<Identity>, Option<Nonces>)
  {
    if cfg.poisoned then (None, nonces)
    else match Resolved(v, cfg, req)
      case None => (None, nonces)
      case Some(full) => AuthenticateResolved(v, cfg, lists, nonces, full, now, cacheNow)
  }

  function AuthenticateResolved(v: View, cfg: Config, lists: Lists, nonces: Option<Nonces>, req: Request,
                                now: Instant, cacheNow: Instant): (Option<Identity>, Option<Nonces>)
  {
    match Principal(v, cfg, lists, req, now)
    case None => (None, nonces)
    case Some(id) =>
      if !Possession(v, cfg, req, id, now) then (None, nonces)
      else
        var (fresh_, after) := NonceStep(cfg, req, nonces, now, cacheNow);
        (if fresh_ && HooksPass(cfg, req, id) then Some(id) else None, after)
  }

  // ------------------------------------------------------------------
  // The code, in its own order, against that meaning.
  // ------------------------------------------------------------------

  class Verifier {
    var config: Config
    const allowlist: StaticAllowlist
    const replay: MemoryReplayCache?

    /** NewVerifier. */
    constructor Pinned(v: View, operatorKey: string, allowlist: StaticAllowlist, opts: seq<VerifierOption>,
                       replay: MemoryReplayCache?)
      ensures config == Configured(v, operatorKey, None, opts)
      ensures this.allowlist == allowlist && this.replay == replay
    {
      this.allowlist, this.replay := allowlist, replay;
      config := Fresh(operatorKey, None);
      new;
      ApplyAll(v, opts);
      OptionsKeepAnchor(v, Fresh(operatorKey, None), opts);
    }

    /** NewKeyringVerifier. */
    constructor Keyed(v: View, keyring: Keyring, allowlist: StaticAllowlist, opts: seq<VerifierOption>,
                      replay: MemoryReplayCache?)
      ensures config == Configured(v, "", Some(keyring.entries), opts)
      ensures config.poisoned <==> LastOperatorToken(opts).Some?
      ensures this.allowlist == allowlist && this.replay == replay
    {
      this.allowlist, this.replay := allowlist, replay;
      config := Fresh("", Some(keyring.entries));
      new;
      ApplyAll(v, opts);
      OptionsKeepAnchor(v, Fresh("", Some(keyring.entries)), opts);
      OperatorTokenFold(v, Fresh("", Some(keyring.entries)), opts);
      if config.operator.Some? || config.poisoned {
        config := config.(operator := None, poisoned := true);
      }
    }

    method ApplyAll(v: View, opts: seq<VerifierOption>)
      modifies this
      ensures config == Fold(v, old(config), opts)
    {
      for i := 0 to |opts|
        invariant config == Fold(v, old(config), opts[..i])
      {
        assert opts[..i + 1][..i] == opts[..i];
        config := Apply(v, config, opts[i]);
      }
      assert opts[..|opts|] == opts;
    }

    function Nonces(): Option<Nonces>
      reads this, replay
    {
      if replay == null then None else Some(replay.m)
    }

    /** The account token to verify: the request's own, or the server's for the user token's account. */
    method ResolveAccount(v: View, req: Request) returns (full: Option<Request>)
      ensures full == Resolved(v, config, req)
    {
      if req.accountToken != "" {
        return Some(req);
      }
      if req.userToken == "" || config.resolver.None? {
        return None;
      }
      var account := IssuerOf(v, req.userToken);
      if account.None? {
        return None;
      }
      var token := config.resolver.value(account.value);
      if token.None? {
        return None;
      }
      return Some(req.(accountToken := token.value));
    }

    /** Everything about the account level, down to the allowlist and the floor. */
    method CheckAccount(v: View, accountToken: string, now: Instant)
      returns (r: Option<(AccountClaims, Option<OperatorClaims>)>)
      ensures var anchored := Anchored(v, config, accountToken);
              r == if anchored.Some? && AccountStands(v, config, allowlist.Now(), anchored.value.0, anchored.value.1, now)
                   then anchored else None
    {
      var anchored := Anchored(v, config, accountToken);
      if anchored.None? {
        return None;
      }
      var (account, operator) := anchored.value;
      if operator.Some? {
        var op := operator.value;
        if op.claims.Expired(now, config.skew) || op.claims.NotYetValid(now, config.skew) {
          return None;
        }
        if account.epoch != op.epoch {
          return None;
        }
      }
      if account.claims.Expired(now, config.skew) || account.claims.NotYetValid(now, config.skew) {
        return None;
      }
      if !allowlist.Allowed(account.claims.id) {
        return None;
      }
      if !CheckGenerationFloor(v.lib, account.ext, account.claims.issuer, EnforcedFloors(config, allowlist.Now())) {
        return None;
      }
      return anchored;
    }

    method Identify(v: View, req: Request, now: Instant) returns (id: Option<Identity>)
      ensures id == Principal(v, config, allowlist.Now(), req, now)
    {
      var checked := CheckAccount(v, req.accountToken, now);
      if checked.None? {
        return None;
      }
      var (account, operator) := checked.value;
      if req.userToken == "" {
        return Some(Identity(account, None, operator));
      }
      var read := VerifyUser(v, req.userToken, account.claims.subject);
      if read.None? {
        return None;
      }
      var user := read.value;
      if operator.Some? && user.epoch != operator.value.epoch {
        return None;
      }
      if user.claims.Expired(now, config.skew) || user.claims.NotYetValid(now, config.skew) {
        return None;
      }
      if !CheckGenerationFloor(v.lib, user.ext, user.claims.issuer, EnforcedFloors(config, allowlist.Now())) {
        return None;
      }
      return Some(Identity(account, Some(user), operator));
    }

    method RunHooks(req: Request, id: Identity) returns (ok: bool)
      ensures ok <==> HooksPass(config, req, id)
    {
      for i := 0 to |config.extChecks|
        invariant forall j :: 0 <= j < i ==>
                    config.extChecks[j](id.account.ext) && (id.user.Some? ==> config.extChecks[j](id.user.value.ext))
      {
        if !config.extChecks[i](id.account.ext) {
          return false;
        }
        if id.user.Some? && !config.extChecks[i](id.user.value.ext) {
          return false;
        }
      }
      for i := 0 to |config.validators|
        invariant forall j :: 0 <= j < i ==> config.validators[j](req, id)
      {
        if !config.validators[i](req, id) {
          return false;
        }
      }
      return true;
    }

    method CheckNonce(req: Request, now: Instant, cacheNow: Instant) returns (ok: bool)
      modifies replay
      ensures (ok, Nonces()) == NonceStep(config, req, old(Nonces()), now, cacheNow)
    {
      if !req.Signs() || replay == null {
        return true;
      }
      if req.nonce == "" {
        return false;
      }
      var seen := replay.SeenBefore(req.nonce, now + 2 * config.skew, cacheNow);
      return !seen;
    }

    method VerifyRequest(v: View, req: Request, now: Instant, cacheNow: Instant) returns (id: Option<Identity>)
      modifies replay
      ensures (id, Nonces()) == Authenticate(v, config, allowlist.Now(), old(Nonces()), req, now, cacheNow)
    {
      if config.poisoned {
        return None;
      }
      var resolved := ResolveAccount(v, req);
      if resolved.None? {
        return None;
      }
      var full := resolved.value;
      var named := Identify(v, full, now);
      if named.None? {
        return None;
      }
      if full.timestamp == "" && full.signature == "" {
        if named.value.user.None? || !named.value.user.value.bearer {
          return None;
        }
      } else if !Signing.VerifySignature(v, named.value.Subject(), full.timestamp, full.signature, full.context,
                                         now, config.skew) {
        return None;
      }
      var unseen := CheckNonce(full, now, cacheNow);
      if !unseen {
        return None;
      }
      var ok := RunHooks(full, named.value);
      return if ok then named else None;
    }
  }

  /** Options never change which anchor a verifier has. */
  lemma {:induction false} OptionsKeepAnchor(v: View, start: Config, opts: seq<VerifierOption>)
    ensures Fold(v, start, opts).ring == start.ring && Fold(v, start, opts).operatorKey == start.operatorKey
  {
    if opts != [] {
      OptionsKeepAnchor(v, start, opts[..|opts| - 1]);
    }
  }

  // ------------------------------------------------------------------
  // What acceptance implies.
  // ------------------------------------------------------------------

  /** The anchor an identity stands on: the pinned key with the configured policy, or the one keyring
      entry its account names. */
  predicate StandsOn(cfg: Config, id: Identity) {
    if cfg.ring.None? then id.account.claims.issuer == cfg.operatorKey && id.operator == cfg.operator
    else
      var k := RingKey(id.account.claims.issuer, id.account.epoch);
      k in cfg.ring.value && id.operator == Some(cfg.ring.value[k])
  }

  /** An accepted identity: one chain under its anchor, in one epoch where a policy applies, every level
      in its window, and unsigned only with a bearer user token. */
  lemma AcceptedRequestIsSound(v: View, cfg: Config, lists: Lists, nonces: Option<Nonces>, req: Request,
                               now: Instant, cacheNow: Instant)
    requires Authenticate(v, cfg, lists, nonces, req, now, cacheNow).0.Some?
    ensures var id := Authenticate(v, cfg, lists, nonces, req, now, cacheNow).0.value;
            && !cfg.poisoned && StandsOn(cfg, id)
            && (id.user.Some? <==> req.userToken != "")
            && (id.user.Some? ==> id.user.value.claims.issuer == id.account.claims.subject)
            && (id.operator.Some? ==>
                  && id.account.epoch == id.operator.value.epoch
                  && (id.user.Some? ==> id.user.value.epoch == id.operator.value.epoch)
                  && id.operator.value.claims.Window(now, cfg.skew))
            && id.account.claims.Window(now, cfg.skew)
            && (id.user.Some? ==> id.user.value.claims.Window(now, cfg.skew))
            && (!req.Signs() ==> id.user.Some? && id.user.value.bearer)
  {
  }

  /** Leaving nonces aside, the instants at which a request is accepted form one interval, with one
      identity. */
  lemma RequestAcceptanceIsAnInterval(v: View, cfg: Config, lists: Lists, req: Request,
                                      from: Instant, mid: Instant, to: Instant, cacheNow: Instant)
    requires from <= mid <= to
    requires Authenticate(v, cfg, lists, None, req, from, cacheNow).0.Some?
    requires Authenticate(v, cfg, lists, None, req, to, cacheNow).0.Some?
    ensures Authenticate(v, cfg, lists, None, req, mid, cacheNow) == Authenticate(v, cfg, lists, None, req, from, cacheNow)
  {
  }
}
