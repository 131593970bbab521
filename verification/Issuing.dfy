/** Minting tokens (token.go, claims.go, message.go): option folding, the level rules
    of the four Issue functions, and the stamp-hash-sign encoding. */
module Issuing {
  import opened Wrappers
  import opened Tokens

  datatype IssueOption =
    | WithName(name: string)
    | WithTTL(ttl: int)
    | WithExpiry(expiry: Instant)
    | WithNotBefore(start: Instant)
    | WithBearer
    | WithAudience(audience: string)
    | WithChecksum(sum: string)
    | WithChain(account: string, user: string)
    | WithEpoch(epoch: nat)
    | WithExtension(extension: string, raw: Option<string>)  // raw is None when encoding the value fails

  datatype IssueConfig = IssueConfig(name: string, expires: int, notBefore: int, epoch: nat, bearer: bool,
                                     audience: string, checksum: string, chain: Option<Chain>,
                                     ext: Extensions, failed: bool)
  {
    predicate MessageOnly() {
      audience != "" || checksum != "" || chain.Some?
    }
  }

  const NO_OPTIONS := IssueConfig("", 0, 0, 0, false, "", "", None, map[], false)

  /** Time.Unix: whole seconds, rounded down. */
  function Unix(t: Instant): int {
    t / SECOND
  }

  predicate IsHexSHA256(s: string) {
    |s| == 64 && forall i :: 0 <= i < |s| ==> '0' <= s[i] <= '9' || 'a' <= s[i] <= 'f'
  }

  function Apply(c: IssueConfig, o: IssueOption, now: Instant): IssueConfig {
    match o
    case WithName(n) => c.(name := n)
    case WithTTL(ttl) => c.(expires := Unix(now + ttl))
    case WithExpiry(t) => c.(expires := Unix(t))
    case WithNotBefore(t) => c.(notBefore := Unix(t))
    case WithBearer => c.(bearer := true)
    case WithAudience(a) => c.(audience := a)
    case WithChecksum(s) => if IsHexSHA256(s) then c.(checksum := s) else c.(failed := true)
    case WithChain(a, u) => c.(chain := Some(Chain(a, u)))
    case WithEpoch(e) => c.(epoch := e)
    case WithExtension(n, raw) =>
      if n == "" || n in c.ext || raw.None? then c.(failed := true) else c.(ext := c.ext[n := raw.value])
  }

  function ConfigOf(opts: seq<IssueOption>, now: Instant): IssueConfig {
    if opts == [] then NO_OPTIONS
    else Apply(ConfigOf(opts[..|opts| - 1], now), opts[|opts| - 1], now)
  }

  function Document(name: string, subject: string, typ: string, cfg: IssueConfig): Wire {
    Wire("", 0, "", name, subject, cfg.audience, cfg.expires, cfg.notBefore,
         Body(typ, cfg.epoch, cfg.bearer, cfg.checksum, cfg.chain, cfg.ext))
  }

  function OperatorDocument(lib: Lib, key: string, cfg: IssueConfig): Option<Wire> {
    if lib.role(key) != OperatorRole || cfg.failed || cfg.bearer || cfg.MessageOnly() then None
    else Some(Document(cfg.name, key, OPERATOR_TYPE, cfg))
  }

  function AccountDocument(lib: Lib, key: string, tenant: string, cfg: IssueConfig): Option<Wire> {
    if lib.role(key) != OperatorRole || lib.role(tenant) != AccountRole then None
    else if cfg.failed || cfg.bearer || cfg.MessageOnly() then None
    else Some(Document(cfg.name, tenant, ACCOUNT_TYPE, cfg))
  }

  function UserDocument(lib: Lib, key: string, user: string, cfg: IssueConfig): Option<Wire> {
    if lib.role(key) != AccountRole || lib.role(user) != UserRole then None
    else if cfg.failed || cfg.MessageOnly() then None
    else Some(Document(cfg.name, user, USER_TYPE, cfg))
  }

  /** checkChain: the embedded chain is self-consistent and ends at the minting key. */
  predicate CheckChain(v: View, chain: Chain, emitter: string) {
    match IssuerOf(v, chain.account)
    case None => false
    case Some(issuer) =>
      match VerifyAccount(v, chain.account, issuer)
      case None => false
      case Some(account) =>
        match VerifyUser(v, chain.user, account.claims.subject)
        case None => false
        case Some(user) => user.claims.subject == emitter
  }

  function MessageDocument(v: View, key: string, cfg: IssueConfig): Option<Wire> {
    if v.lib.role(key) != UserRole || cfg.failed || cfg.bearer || cfg.name != "" || cfg.expires == 0 then None
    else if cfg.chain.Some? && !CheckChain(v, cfg.chain.value, key) then None
    else Some(Document("", key, MESSAGE_TYPE, cfg))
  }

  /** encodeV1 up to signing: issuer and mint time, then the hash of the document without a jti. */
  function Stamp(lib: Lib, key: string, doc: Wire, now: Instant): Wire {
    var unhashed := doc.(issuer := key, issuedAt := Unix(now), id := "");
    unhashed.(id := lib.jti(lib.marshal(unhashed)))
  }

  /** What minting `doc` under `key` does: nothing for a refused document, else one new signature. */
  ghost predicate Mints(before: World, after: World, key: string, doc: Option<Wire>, now: Instant,
                        token: Option<string>)
  {
    && after.lib == before.lib
    && match doc
       case None => token == None && after.signed == before.signed
       case Some(d) =>
         var c := Stamp(before.lib, key, d, now);
         && token == Some(Assemble(before.lib, c))
         && after.signed == before.signed + {(key, SigningInput(before.lib, c))}
  }

  /** The private keys at work: signing adds to the set of signatures in existence. */
  class Signers {
    const lib: Lib
    var signed: set<(string, string)>

    constructor (lib: Lib)
      ensures this.lib == lib && signed == {}
    {
      this.lib := lib;
      signed := {};
    }

    function Now(): World
      reads this
    {
      World(lib, signed)
    }

    method Sign(key: string, bytes: string) returns (sig: string)
      modifies this
      ensures signed == old(signed) + {(key, bytes)} && Now().Verifies(key, bytes, sig)
      ensures sig == lib.sign(key, bytes)
    {
      signed := signed + {(key, bytes)};
      sig := lib.sign(key, bytes);
    }

    method EncodeV1(key: string, doc: Wire, now: Instant) returns (token: string)
      modifies this
      ensures Mints(old(Now()), Now(), key, Some(doc), now, Some(token))
    {
      var c := doc.(issuer := key, issuedAt := Unix(now), id := "");
      var digest := lib.jti(lib.marshal(c));
      c := c.(id := digest);
      var input := lib.b64(TOKEN_HEADER) + "." + lib.b64(lib.marshal(c));
      var sig := Sign(key, input);
      token := input + "." + lib.b64(sig);
    }

    method FoldOptions(opts: seq<IssueOption>, now: Instant) returns (cfg: IssueConfig)
      ensures cfg == ConfigOf(opts, now)
    {
      cfg := NO_OPTIONS;
      for i := 0 to |opts|
        invariant cfg == ConfigOf(opts[..i], now)
      {
        assert opts[..i + 1][..i] == opts[..i];
        cfg := Apply(cfg, opts[i], now);
      }
      assert opts[..|opts|] == opts;
    }

    method IssueOperator(key: string, opts: seq<IssueOption>, now: Instant) returns (token: Option<string>)
      modifies this
      ensures Mints(old(Now()), Now(), key, OperatorDocument(lib, key, ConfigOf(opts, now)), now, token)
    {
      if lib.role(key) != OperatorRole {
        return None;
      }
      var cfg := FoldOptions(opts, now);
      if cfg.failed || cfg.bearer || cfg.MessageOnly() {
        return None;
      }
      var t := EncodeV1(key, Document(cfg.name, key, OPERATOR_TYPE, cfg), now);
      return Some(t);
    }

    method IssueAccount(key: string, tenant: string, opts: seq<IssueOption>, now: Instant)
      returns (token: Option<string>)
      modifies this
      ensures Mints(old(Now()), Now(), key, AccountDocument(lib, key, tenant, ConfigOf(opts, now)), now, token)
    {
      if lib.role(key) != OperatorRole || lib.role(tenant) != AccountRole {
        return None;
      }
      var cfg := FoldOptions(opts, now);
      if cfg.failed || cfg.bearer || cfg.MessageOnly() {
        return None;
      }
      var t := EncodeV1(key, Document(cfg.name, tenant, ACCOUNT_TYPE, cfg), now);
      return Some(t);
    }

    method IssueUser(key: string, user: string, opts: seq<IssueOption>, now: Instant)
      returns (token: Option<string>)
      modifies this
      ensures Mints(old(Now()), Now(), key, UserDocument(lib, key, user, ConfigOf(opts, now)), now, token)
    {
      if lib.role(key) != AccountRole || lib.role(user) != UserRole {
        return None;
      }
      var cfg := FoldOptions(opts, now);
      if cfg.failed || cfg.MessageOnly() {
        return None;
      }
      var t := EncodeV1(key, Document(cfg.name, user, USER_TYPE, cfg), now);
      return Some(t);
    }

    method IssueMessage(key: string, opts: seq<IssueOption>, now: Instant) returns (token: Option<string>)
      modifies this
      ensures Mints(old(Now()), Now(), key, MessageDocument(Seen(old(Now())), key, ConfigOf(opts, now)), now, token)
    {
      if lib.role(key) != UserRole {
        return None;
      }
      var cfg := FoldOptions(opts, now);
      if cfg.failed || cfg.bearer || cfg.name != "" || cfg.expires == 0 {
        return None;
      }
      if cfg.chain.Some? && !CheckChain(Seen(Now()), cfg.chain.value, key) {
        return None;
      }
      var t := EncodeV1(key, Document("", key, MESSAGE_TYPE, cfg), now);
      return Some(t);
    }
  }

  /** A minted token decodes, from then on, to exactly the document its issuer stamped. */
  lemma MintedDecodes(before: World, after: World, later: World, key: string, doc: Wire, now: Instant, token: string)
    requires Lawful(before.lib) && Mints(before, after, key, Some(doc), now, Some(token)) && later.Extends(after)
    requires before.lib.role(key) != NoKey
    ensures DecodeToken(later, token) == Some(Stamp(before.lib, key, doc, now))
  {
    DecodeAssembled(later, Stamp(before.lib, key, doc, now));
  }

  /** An account token verifies under the operator that minted it and under no other key, names the
      tenant it was minted for, and never passes as an operator or user token. */
  lemma MintedAccountVerifies(before: World, after: World, later: World, key: string, tenant: string,
                              cfg: IssueConfig, now: Instant, token: string, pinned: string)
    requires Lawful(before.lib) && later.Extends(after)
    requires Mints(before, after, key, AccountDocument(before.lib, key, tenant, cfg), now, Some(token))
    ensures VerifyAccount(Seen(later), token, pinned).Some? <==> pinned == key
    ensures forall k :: VerifyOperator(Seen(later), token, k).None? && VerifyUser(Seen(later), token, k).None?
    ensures pinned == key ==>
              var a := VerifyAccount(Seen(later), token, key).value;
              && a.claims.issuer == key && a.claims.subject == tenant
              && a.claims.expiresAt == TimeOf(cfg.expires) && a.claims.notBefore == TimeOf(cfg.notBefore)
              && a.name == (if cfg.name == "" then tenant else cfg.name)
              && a.epoch == cfg.epoch && a.ext == cfg.ext
  {
    var doc := AccountDocument(before.lib, key, tenant, cfg).value;
    MintedDecodes(before, after, later, key, doc, now, token);
  }

  /** The same for user tokens, one level down. */
  lemma MintedUserVerifies(before: World, after: World, later: World, key: string, user: string,
                           cfg: IssueConfig, now: Instant, token: string, account: string)
    requires Lawful(before.lib) && later.Extends(after)
    requires Mints(before, after, key, UserDocument(before.lib, key, user, cfg), now, Some(token))
    ensures VerifyUser(Seen(later), token, account).Some? <==> account == key
    ensures forall k :: VerifyOperator(Seen(later), token, k).None? && VerifyAccount(Seen(later), token, k).None?
    ensures account == key ==>
              var u := VerifyUser(Seen(later), token, key).value;
              && u.claims.issuer == key && u.claims.subject == user
              && u.claims.expiresAt == TimeOf(cfg.expires) && u.claims.notBefore == TimeOf(cfg.notBefore)
              && u.name == (if cfg.name == "" then user else cfg.name)
              && u.epoch == cfg.epoch && u.bearer == cfg.bearer && u.ext == cfg.ext
  {
    var doc := UserDocument(before.lib, key, user, cfg).value;
    MintedDecodes(before, after, later, key, doc, now, token);
  }

  /** And for the self-signed operator tokens a keyring is built from. */
  lemma MintedOperatorVerifies(before: World, after: World, later: World, key: string,
                               cfg: IssueConfig, now: Instant, token: string, pinned: string)
    requires Lawful(before.lib) && later.Extends(after)
    requires Mints(before, after, key, OperatorDocument(before.lib, key, cfg), now, Some(token))
    ensures VerifyOperator(Seen(later), token, pinned).Some? <==> pinned == key
    ensures forall k :: VerifyAccount(Seen(later), token, k).None? && VerifyUser(Seen(later), token, k).None?
    ensures pinned == key ==>
              var o := VerifyOperator(Seen(later), token, key).value;
              && o.claims.issuer == key && o.claims.subject == key
              && o.claims.expiresAt == TimeOf(cfg.expires) && o.claims.notBefore == TimeOf(cfg.notBefore)
              && o.name == (if cfg.name == "" then key else cfg.name)
              && o.epoch == cfg.epoch && o.ext == cfg.ext
  {
    var doc := OperatorDocument(before.lib, key, cfg).value;
    MintedDecodes(before, after, later, key, doc, now, token);
  }
}
