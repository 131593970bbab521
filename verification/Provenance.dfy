/** Who signed what: over every run in which honest keys sign only through the Issue
    functions and SignRequest, while any other key signs anything, verification traces every accepted
    message and request back to the honest keys it names (token.go, message.go, sign.go). */
module Provenance {
  import opened Wrappers
  import opened Tokens
  import Signing
  import Issuing
  import Keyrings
  import Messages
  import Requests
  import Allowlists
  import Replay

  /** What honest keys did: a token's stamped claims, or a signed request. */
  datatype Event =
    | Issued(key: string, claims: Wire)
    | Requested(key: string, ts: Instant, context: string)

  datatype State = State(world: World, events: set<Event>)

  datatype Act =
    | IssueOperator(key: string, opts: seq<Issuing.IssueOption>, now: Instant)
    | IssueAccount(key: string, tenant: string, opts: seq<Issuing.IssueOption>, now: Instant)
    | IssueUser(key: string, user: string, opts: seq<Issuing.IssueOption>, now: Instant)
    | IssueMessage(key: string, opts: seq<Issuing.IssueOption>, now: Instant)
    | SignRequest(key: string, now: Instant, context: string)
    | SignAnything(key: string, bytes: string)

  /** The document an Issue call signs, if it signs one. */
  function DocumentOf(w: World, act: Act): Option<Wire>
    requires !act.SignRequest? && !act.SignAnything?
  {
    match act
    case IssueOperator(key, opts, now) => Issuing.OperatorDocument(w.lib, key, Issuing.ConfigOf(opts, now))
    case IssueAccount(key, tenant, opts, now) => Issuing.AccountDocument(w.lib, key, tenant, Issuing.ConfigOf(opts, now))
    case IssueUser(key, user, opts, now) => Issuing.UserDocument(w.lib, key, user, Issuing.ConfigOf(opts, now))
    case IssueMessage(key, opts, now) => Issuing.MessageDocument(Seen(w), key, Issuing.ConfigOf(opts, now))
  }

  ghost predicate Next(honest: set<string>, a: State, act: Act, b: State) {
    match act
    case SignAnything(key, bytes) =>
      && key !in honest
      && b.world.lib == a.world.lib && b.world.signed == a.world.signed + {(key, bytes)}
      && b.events == a.events
    case SignRequest(key, now, context) =>
      && b.world.lib == a.world.lib
      && b.world.signed == a.world.signed + {(key, Signing.SignedPayload(a.world.lib, now, context))}
      && b.events == a.events + {Requested(key, now, context)}
    case _ =>
      var doc := DocumentOf(a.world, act);
      && (exists token :: Issuing.Mints(a.world, b.world, act.key, doc, act.now, token))
      && b.events == (if doc.None? then a.events
                      else a.events + {Issued(act.key, Issuing.Stamp(a.world.lib, act.key, doc.value, act.now))})
  }

  ghost predicate Run(honest: set<string>, states: seq<State>, acts: seq<Act>) {
    && |states| == |acts| + 1
    && states[0].world.signed == {} && states[0].events == {}
    && forall i :: 0 <= i < |acts| ==> Next(honest, states[i], acts[i], states[i + 1])
  }

  /** The claims a key of each role may sign: an operator its own operator token or an account token
      for an account key, an account a user token for a user key, a user its own expiring message. */
  predicate WellIssued(lib: Lib, key: string, c: Wire) {
    && c.issuer == key
    && match lib.role(key)
       case OperatorRole =>
         || (c.body.typ == OPERATOR_TYPE && c.subject == key)
         || (c.body.typ == ACCOUNT_TYPE && lib.role(c.subject) == AccountRole)
       case AccountRole => c.body.typ == USER_TYPE && lib.role(c.subject) == UserRole
       case UserRole => c.body.typ == MESSAGE_TYPE && c.subject == key && c.expires != 0
       case _ => false
  }

  predicate Explains(lib: Lib, e: Event, key: string, bytes: string) {
    && e.key == key
    && match e
       case Issued(_, c) => bytes == SigningInput(lib, c) && WellIssued(lib, key, c)
       case Requested(_, ts, context) => bytes == Signing.SignedPayload(lib, ts, context)
  }

  ghost predicate Explained(s: State, key: string, bytes: string) {
    exists e :: e in s.events && Explains(s.world.lib, e, key, bytes)
  }

  /** Every signature of an honest key is accounted for by something its level may do. */
  ghost predicate Accounted(honest: set<string>, s: State) {
    forall key, bytes :: (key, bytes) in s.world.signed && key in honest ==> Explained(s, key, bytes)
  }

  /** What an Issue call signs is right for the key's level. */
  lemma IssuedIsWellIssued(w: World, act: Act)
    requires !act.SignRequest? && !act.SignAnything? && DocumentOf(w, act).Some?
    ensures WellIssued(w.lib, act.key, Issuing.Stamp(w.lib, act.key, DocumentOf(w, act).value, act.now))
  {
  }

  lemma NextGrows(honest: set<string>, a: State, act: Act, b: State)
    requires Next(honest, a, act, b)
    ensures b.world.lib == a.world.lib && a.events <= b.events
  {
  }

  lemma NewSignatureIsExplained(honest: set<string>, a: State, act: Act, b: State, key: string, bytes: string)
    requires Next(honest, a, act, b)
    requires (key, bytes) in b.world.signed && (key, bytes) !in a.world.signed && key in honest
    ensures Explained(b, key, bytes)
  {
    match act
    case SignAnything(_, _) => assert false;
    case SignRequest(k, now, context) => assert Requested(k, now, context) in b.events;
    case _ =>
      var doc := DocumentOf(a.world, act);
      IssuedIsWellIssued(a.world, act);
      assert Issued(act.key, Issuing.Stamp(a.world.lib, act.key, doc.value, act.now)) in b.events;
  }

  lemma StepKeepsAccounted(honest: set<string>, a: State, act: Act, b: State)
    requires Accounted(honest, a) && Next(honest, a, act, b)
    ensures Accounted(honest, b)
  {
    NextGrows(honest, a, act, b);
    forall key, bytes | (key, bytes) in b.world.signed && key in honest
      ensures Explained(b, key, bytes)
    {
      if (key, bytes) in a.world.signed {
        var e :| e in a.events && Explains(a.world.lib, e, key, bytes);
        assert e in b.events;
      } else {
        NewSignatureIsExplained(honest, a, act, b, key, bytes);
      }
    }
  }

  lemma {:induction false} RunIsAccounted(honest: set<string>, states: seq<State>, acts: seq<Act>, n: nat)
    requires Run(honest, states, acts) && n < |states|
    ensures Accounted(honest, states[n])
  {
    if n > 0 {
      RunIsAccounted(honest, states, acts, n - 1);
      StepKeepsAccounted(honest, states[n - 1], acts[n - 1], states[n]);
    }
  }

  /** A token naming an honest issuer was issued by that key, with exactly the claims it decodes to,
      and as its level allows. */
  lemma HonestTokenWasIssued(honest: set<string>, s: State, token: string)
    requires Lawful(s.world.lib) && Accounted(honest, s)
    requires DecodeToken(s.world, token).Some? && DecodeToken(s.world, token).value.issuer in honest
    ensures var c := DecodeToken(s.world, token).value;
            Issued(c.issuer, c) in s.events && WellIssued(s.world.lib, c.issuer, c)
  {
    var c := DecodeToken(s.world, token).value;
    DecodedWasSigned(s.world, token);
    assert Explained(s, c.issuer, InputOf(token));
    var e :| e in s.events && Explains(s.world.lib, e, c.issuer, InputOf(token));
    match e
    case Issued(_, issued) => SignedInputDetermines(s.world, token, issued);
    case Requested(_, ts, context) => Signing.PayloadIsNoToken(s.world, token, ts, context);
  }

  /** The key issued, as its level allows, a token that reads as exactly these claims: name, epoch,
      window and extensions included, and for a user token the bearer mark. */
  ghost predicate IssuedAccount(s: State, key: string, a: AccountClaims) {
    exists c :: Issued(key, c) in s.events && WellIssued(s.world.lib, key, c) && c.body.typ == ACCOUNT_TYPE
                && a == AccountOf(c)
  }

  ghost predicate IssuedUser(s: State, key: string, u: UserClaims) {
    exists c :: Issued(key, c) in s.events && WellIssued(s.world.lib, key, c) && c.body.typ == USER_TYPE
                && u == UserOf(c)
  }

  ghost predicate IssuedMessage(s: State, key: string, m: Messages.MessageClaims) {
    exists c :: Issued(key, c) in s.events && WellIssued(s.world.lib, key, c) && c.body.typ == MESSAGE_TYPE
                && ClaimsOf(c) == m.claims && c.audience == m.audience && c.body.checksum == m.checksum
                && c.body.epoch == m.epoch && c.body.ext == m.ext && c.expires != 0
  }

  /** The chain of an accepted message, token by token. */
  lemma AcceptedChain(v: View, anchor: Messages.Anchor, token: string, cfg: Messages.VerifyConfig, now: Instant)
    returns (message: Wire, account: Wire, user: Wire, accountToken: string, userToken: string)
    requires Messages.MessageVerdict(v, anchor, token, cfg, now).Accepted?
    ensures var m := Messages.MessageVerdict(v, anchor, token, cfg, now).claims;
            && v.decode(token) == Some(message) && ClaimsOf(message) == m.claims
            && message.audience == m.audience && message.body.checksum == m.checksum && message.body.epoch == m.epoch
            && message.body.ext == m.ext
            && v.decode(accountToken) == Some(account) && AccountOf(account) == m.account
            && account.body.typ == ACCOUNT_TYPE
            && v.decode(userToken) == Some(user) && UserOf(user) == m.user
            && user.body.typ == USER_TYPE && user.issuer == account.subject
            && message.body.typ == MESSAGE_TYPE && message.issuer == user.subject
  {
    message := v.decode(token).value;
    var chain := if message.body.chain.Some? then message.body.chain.value else cfg.chain.value;
    accountToken, userToken := chain.account, chain.user;
    account, user := v.decode(accountToken).value, v.decode(userToken).value;
  }

  /** The anchor a message is accepted under: the pinned key, or the keyring entry its chain names. */
  predicate RootedIn(anchor: Messages.Anchor, m: Messages.MessageClaims) {
    match anchor
    case Pinned(key) => m.account.claims.issuer == key
    case Ring(entries) =>
      Messages.NamedEntry(m) in entries && m.operator == Some(entries[Messages.NamedEntry(m)])
  }

  lemma AcceptedIsRooted(v: View, anchor: Messages.Anchor, token: string, cfg: Messages.VerifyConfig, now: Instant)
    requires Messages.MessageVerdict(v, anchor, token, cfg, now).Accepted?
    ensures RootedIn(anchor, Messages.MessageVerdict(v, anchor, token, cfg, now).claims)
  {
  }

  /** In every run and under either kind of anchor, an accepted message goes back along its chain as far
      as its keys are honest: the operator it is rooted in issued the account token, the account it
      names issued the user token, and the user that one names issued the message, for that audience
      and checksum and with an expiry; everything the receiver is handed is what they issued. */
  lemma AcceptedMessageProvenance(honest: set<string>, states: seq<State>, acts: seq<Act>, n: nat,
                                  anchor: Messages.Anchor, token: string, cfg: Messages.VerifyConfig, now: Instant)
    requires Run(honest, states, acts) && n < |states| && Lawful(states[n].world.lib)
    requires Messages.MessageVerdict(Seen(states[n].world), anchor, token, cfg, now).Accepted?
    ensures var m := Messages.MessageVerdict(Seen(states[n].world), anchor, token, cfg, now).claims;
            && RootedIn(anchor, m)
            && (m.account.claims.issuer in honest ==> IssuedAccount(states[n], m.account.claims.issuer, m.account))
            && (m.account.claims.subject in honest ==> IssuedUser(states[n], m.account.claims.subject, m.user))
            && (m.user.claims.subject in honest ==> IssuedMessage(states[n], m.user.claims.subject, m))
  {
    var s := states[n];
    RunIsAccounted(honest, states, acts, n);
    AcceptedIsRooted(Seen(s.world), anchor, token, cfg, now);
    var message, account, user, accountToken, userToken := AcceptedChain(Seen(s.world), anchor, token, cfg, now);
    if account.issuer in honest {
      HonestTokenWasIssued(honest, s, accountToken);
    }
    if user.issuer in honest {
      HonestTokenWasIssued(honest, s, userToken);
    }
    if message.issuer in honest {
      HonestTokenWasIssued(honest, s, token);
    }
  }

  ghost predicate IssuedOperator(s: State, key: string, o: OperatorClaims) {
    exists c :: Issued(key, c) in s.events && WellIssued(s.world.lib, key, c) && c.body.typ == OPERATOR_TYPE
                && o == OperatorOf(c)
  }

  /** In every run, an operator token that verifies under an honest key was issued by it: a policy, the
      token of a keyring entry, or the one a verifier is built with. */
  lemma OperatorTokenProvenance(honest: set<string>, states: seq<State>, acts: seq<Act>, n: nat, token: string, key: string)
    requires Run(honest, states, acts) && n < |states| && Lawful(states[n].world.lib) && key in honest
    requires VerifyOperator(Seen(states[n].world), token, key).Some?
    ensures IssuedOperator(states[n], key, VerifyOperator(Seen(states[n].world), token, key).value)
  {
    RunIsAccounted(honest, states, acts, n);
    HonestTokenWasIssued(honest, states[n], token);
  }

  /** In every run, the operator policy a message was accepted under, from the options or from the entry
      of a keyring built from operator tokens, was issued by the honest operator it is rooted in. */
  lemma AcceptedPolicyProvenance(honest: set<string>, states: seq<State>, acts: seq<Act>, n: nat,
                                 anchor: Messages.Anchor, sources: map<Keyrings.RingKey, string>, token: string,
                                 cfg: Messages.VerifyConfig, now: Instant)
    requires Run(honest, states, acts) && n < |states| && Lawful(states[n].world.lib)
    requires anchor.Ring? ==> Keyrings.Sourced(Seen(states[n].world), anchor.entries, sources)
    requires Messages.MessageVerdict(Seen(states[n].world), anchor, token, cfg, now).Accepted?
    ensures var m := Messages.MessageVerdict(Seen(states[n].world), anchor, token, cfg, now).claims;
            m.operator.Some? && m.account.claims.issuer in honest ==>
              IssuedOperator(states[n], m.account.claims.issuer, m.operator.value)
  {
    var v := Seen(states[n].world);
    var m := Messages.MessageVerdict(v, anchor, token, cfg, now).claims;
    var source := PolicyToken(v, anchor, sources, token, cfg, now);
    if m.operator.Some? && m.account.claims.issuer in honest {
      OperatorTokenProvenance(honest, states, acts, n, source, m.account.claims.issuer);
    }
  }

  /** The operator token a message's policy was read from. */
  lemma PolicyToken(v: View, anchor: Messages.Anchor, sources: map<Keyrings.RingKey, string>, token: string,
                    cfg: Messages.VerifyConfig, now: Instant) returns (source: string)
    requires anchor.Ring? ==> Keyrings.Sourced(v, anchor.entries, sources)
    requires Messages.MessageVerdict(v, anchor, token, cfg, now).Accepted?
    ensures var m := Messages.MessageVerdict(v, anchor, token, cfg, now).claims;
            m.operator.Some? ==> VerifyOperator(v, source, m.account.claims.issuer) == m.operator
  {
    AcceptedIsRooted(v, anchor, token, cfg, now);
    var m := Messages.MessageVerdict(v, anchor, token, cfg, now).claims;
    match anchor
    case Pinned(_) => source := if cfg.policy.Some? then cfg.policy.value else "";
    case Ring(_) => source := sources[Messages.NamedEntry(m)];
  }

  /** In every run, a request signature accepted for an honest subject was made by that subject with
      SignRequest, at the instant of its timestamp and over a context with the same hash. */
  lemma AcceptedSignatureProvenance(honest: set<string>, states: seq<State>, acts: seq<Act>, n: nat, subject: string,
                                    timestamp: string, signature: string, context: string, now: Instant, skew: int)
    requires Run(honest, states, acts) && n < |states| && Lawful(states[n].world.lib) && subject in honest
    requires Signing.VerifySignature(Seen(states[n].world), subject, timestamp, signature, context, now, skew)
    ensures exists ts, signed :: Requested(subject, ts, signed) in states[n].events
              && states[n].world.lib.parseTime(timestamp) == Some(ts)
              && states[n].world.lib.hexSum(signed) == states[n].world.lib.hexSum(context)
  {
    var s := states[n];
    RunIsAccounted(honest, states, acts, n);
    var ts := s.world.lib.parseTime(timestamp).value;
    var payload := Signing.SignedPayload(s.world.lib, ts, context);
    assert Explained(s, subject, payload);
    var e :| e in s.events && Explains(s.world.lib, e, subject, payload);
    match e
    case Issued(_, c) => Signing.PayloadIsNotMinted(s.world.lib, ts, context, c);
    case Requested(_, t, signed) =>
      Signing.PayloadUnambiguous(s.world.lib, t, signed, ts, context);
  }

  /** The subject made this request's signature itself: same instant, a context of the same hash. */
  ghost predicate SignedBy(s: State, subject: string, req: Requests.Request) {
    exists ts, signed :: Requested(subject, ts, signed) in s.events
      && s.world.lib.parseTime(req.timestamp) == Some(ts)
      && s.world.lib.hexSum(signed) == s.world.lib.hexSum(req.context)
  }

  /** In every run and for every kind of verifier and request, an authenticated identity stands on tokens
      issued by its honest operator and account keys, exactly as the verifier hands them on; a signed
      request also on its honest subject's own signature, and a bearer request on the bearer mark its
      account issued. */
  lemma AuthenticatedRequestProvenance(honest: set<string>, states: seq<State>, acts: seq<Act>, n: nat,
                                       cfg: Requests.Config, lists: Allowlists.Lists, nonces: Option<Replay.Nonces>,
                                       req: Requests.Request, now: Instant, cacheNow: Instant)
    requires Run(honest, states, acts) && n < |states| && Lawful(states[n].world.lib)
    requires Requests.Authenticate(Seen(states[n].world), cfg, lists, nonces, req, now, cacheNow).0.Some?
    ensures var id := Requests.Authenticate(Seen(states[n].world), cfg, lists, nonces, req, now, cacheNow).0.value;
            && Requests.StandsOn(cfg, id)
            && (id.account.claims.issuer in honest ==>
                  IssuedAccount(states[n], id.account.claims.issuer, id.account))
            && (id.user.Some? && id.account.claims.subject in honest ==>
                  IssuedUser(states[n], id.account.claims.subject, id.user.value))
            && (req.Signs() && id.Subject() in honest ==> SignedBy(states[n], id.Subject(), req))
            && (!req.Signs() ==> id.user.Some? && id.user.value.bearer)
  {
    var s, v := states[n], Seen(states[n].world);
    RunIsAccounted(honest, states, acts, n);
    Requests.AcceptedRequestIsSound(v, cfg, lists, nonces, req, now, cacheNow);
    var id, full := AuthenticatedParts(v, cfg, lists, nonces, req, now, cacheNow);
    if id.account.claims.issuer in honest {
      HonestTokenWasIssued(honest, s, full.accountToken);
    }
    if id.user.Some? && id.account.claims.subject in honest {
      HonestTokenWasIssued(honest, s, full.userToken);
    }
    if req.Signs() && id.Subject() in honest {
      AcceptedSignatureProvenance(honest, states, acts, n, id.Subject(), req.timestamp, req.signature, req.context,
                                  now, cfg.skew);
    }
  }

  /** The tokens and the signature behind an accepted request, its account token resolved. */
  lemma AuthenticatedParts(v: View, cfg: Requests.Config, lists: Allowlists.Lists, nonces: Option<Replay.Nonces>,
                           req: Requests.Request, now: Instant, cacheNow: Instant)
    returns (id: Requests.Identity, full: Requests.Request)
    requires Requests.Authenticate(v, cfg, lists, nonces, req, now, cacheNow).0.Some?
    ensures id == Requests.Authenticate(v, cfg, lists, nonces, req, now, cacheNow).0.value
    ensures Requests.Resolved(v, cfg, req) == Some(full)
    ensures v.decode(full.accountToken).Some? && v.decode(full.accountToken).value.body.typ == ACCOUNT_TYPE
    ensures AccountOf(v.decode(full.accountToken).value) == id.account
    ensures id.user.Some? ==>
              && v.decode(full.userToken).Some? && v.decode(full.userToken).value.issuer == id.account.claims.subject
              && v.decode(full.userToken).value.body.typ == USER_TYPE
              && UserOf(v.decode(full.userToken).value) == id.user.value
    ensures req.Signs() ==>
              Signing.VerifySignature(v, id.Subject(), req.timestamp, req.signature, req.context, now, cfg.skew)
  {
    id := Requests.Authenticate(v, cfg, lists, nonces, req, now, cacheNow).0.value;
    full := Requests.Resolved(v, cfg, req).value;
  }
}
