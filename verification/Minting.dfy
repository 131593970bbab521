/** What a list of issue options makes of a token (token.go, message.go): said of the list itself, the
    last option of each setting counting, and followed from the mint to what verification reads. */
module Minting {
  import opened Wrappers
  import opened Tokens
  import opened Issuing
  import opened OptionLists

  // ------------------------------------------------------------------
  // The options, setting by setting.
  // ------------------------------------------------------------------

  datatype Setting = Name | Expiry | Start | Bearer | Audience | Checksum | Chaining | Epoch | Ext

  function SettingOf(o: IssueOption): Setting {
    match o
    case WithName(_) => Name
    case WithTTL(_) => Expiry
    case WithExpiry(_) => Expiry
    case WithNotBefore(_) => Start
    case WithBearer => Bearer
    case WithAudience(_) => Audience
    case WithChecksum(_) => Checksum
    case WithChain(_, _) => Chaining
    case WithEpoch(_) => Epoch
    case WithExtension(_, _) => Ext
  }

  function NameGiven(opts: seq<IssueOption>): string {
    match Last(opts, SettingOf, Name) case None => "" case Some(o) => o.name
  }

  function AudienceGiven(opts: seq<IssueOption>): string {
    match Last(opts, SettingOf, Audience) case None => "" case Some(o) => o.audience
  }

  function ChecksumGiven(opts: seq<IssueOption>): string {
    match Last(opts, SettingOf, Checksum) case None => "" case Some(o) => o.sum
  }

  function EpochGiven(opts: seq<IssueOption>): nat {
    match Last(opts, SettingOf, Epoch) case None => 0 case Some(o) => o.epoch
  }

  function ChainGiven(opts: seq<IssueOption>): Option<Chain> {
    match Last(opts, SettingOf, Chaining) case None => None case Some(o) => Some(Chain(o.account, o.user))
  }

  /** The instants asked for; a lifetime counts from the mint. */
  function ExpiryGiven(opts: seq<IssueOption>, now: Instant): Option<Instant> {
    match Last(opts, SettingOf, Expiry)
    case None => None
    case Some(o) => Some(if o.WithTTL? then now + o.ttl else o.expiry)
  }

  function StartGiven(opts: seq<IssueOption>): Option<Instant> {
    match Last(opts, SettingOf, Start) case None => None case Some(o) => Some(o.start)
  }

  predicate HexDigest(s: string) {
    |s| == 64 && forall i :: 0 <= i < |s| ==> s[i] in "0123456789abcdef"
  }

  /** An option that no token can be minted with, whatever the level. */
  predicate FaultAt(opts: seq<IssueOption>, i: nat)
    requires i < |opts|
  {
    match opts[i]
    case WithChecksum(s) => !HexDigest(s)
    case WithExtension(n, raw) =>
      n == "" || raw.None? || exists j :: 0 <= j < i && opts[j].WithExtension? && opts[j].extension == n
    case _ => false
  }

  predicate Faulty(opts: seq<IssueOption>) {
    exists i :: 0 <= i < |opts| && FaultAt(opts, i)
  }

  predicate Lists(opts: seq<IssueOption>, n: string) {
    exists i :: 0 <= i < |opts| && opts[i].WithExtension? && opts[i].extension == n
  }

  /** The extensions are exactly those listed, each with its value. */
  ghost predicate ExtensionsGiven(opts: seq<IssueOption>, ext: Extensions) {
    && (forall n :: n in ext <==> Lists(opts, n))
    && (forall i :: 0 <= i < |opts| && opts[i].WithExtension? ==>
          opts[i].extension in ext && opts[i].raw == Some(ext[opts[i].extension]))
  }

  // ------------------------------------------------------------------
  // The fold gathers them.
  // ------------------------------------------------------------------

  function SecondsOf(t: Option<Instant>): int {
    match t case None => 0 case Some(i) => Unix(i)
  }

  lemma {:induction false} FoldName(opts: seq<IssueOption>, now: Instant)
    ensures ConfigOf(opts, now).name == NameGiven(opts)
  {
    if opts != [] {
      FoldName(opts[..|opts| - 1], now);
    }
  }

  lemma {:induction false} FoldAudience(opts: seq<IssueOption>, now: Instant)
    ensures ConfigOf(opts, now).audience == AudienceGiven(opts)
  {
    if opts != [] {
      FoldAudience(opts[..|opts| - 1], now);
    }
  }

  lemma {:induction false} FoldChain(opts: seq<IssueOption>, now: Instant)
    ensures ConfigOf(opts, now).chain == ChainGiven(opts)
  {
    if opts != [] {
      FoldChain(opts[..|opts| - 1], now);
    }
  }

  lemma {:induction false} FoldExpiry(opts: seq<IssueOption>, now: Instant)
    ensures ConfigOf(opts, now).expires == SecondsOf(ExpiryGiven(opts, now))
  {
    if opts != [] {
      FoldExpiry(opts[..|opts| - 1], now);
    }
  }

  lemma {:induction false} FoldStart(opts: seq<IssueOption>, now: Instant)
    ensures ConfigOf(opts, now).notBefore == SecondsOf(StartGiven(opts))
  {
    if opts != [] {
      FoldStart(opts[..|opts| - 1], now);
    }
  }

  lemma {:induction false} FoldEpoch(opts: seq<IssueOption>, now: Instant)
    ensures ConfigOf(opts, now).epoch == EpochGiven(opts)
  {
    if opts != [] {
      FoldEpoch(opts[..|opts| - 1], now);
    }
  }

  lemma {:induction false} FoldBearer(opts: seq<IssueOption>, now: Instant)
    ensures ConfigOf(opts, now).bearer <==> Last(opts, SettingOf, Bearer).Some?
  {
    if opts != [] {
      FoldBearer(opts[..|opts| - 1], now);
    }
  }

  lemma FoldGathers(opts: seq<IssueOption>, now: Instant)
    ensures var c := ConfigOf(opts, now);
            && c.name == NameGiven(opts) && c.audience == AudienceGiven(opts) && c.epoch == EpochGiven(opts)
            && c.chain == ChainGiven(opts) && c.expires == SecondsOf(ExpiryGiven(opts, now))
            && c.notBefore == SecondsOf(StartGiven(opts)) && (c.bearer <==> Gives(opts, SettingOf, Bearer))
  {
    FoldName(opts, now);
    FoldAudience(opts, now);
    FoldChain(opts, now);
    FoldExpiry(opts, now);
    FoldStart(opts, now);
    FoldEpoch(opts, now);
    FoldBearer(opts, now);
    LastIfAny(opts, SettingOf, Bearer);
  }

  lemma FaultAtLast(opts: seq<IssueOption>)
    requires opts != []
    ensures Faulty(opts) <==> Faulty(opts[..|opts| - 1]) || FaultAt(opts, |opts| - 1)
  {
    var init := opts[..|opts| - 1];
    forall i | 0 <= i < |init|
      ensures FaultAt(init, i) <==> FaultAt(opts, i)
    {
      assert forall j :: 0 <= j <= i ==> init[j] == opts[j];
    }
  }

  lemma ListsAtLast(opts: seq<IssueOption>, n: string)
    requires opts != []
    ensures var o := opts[|opts| - 1];
            Lists(opts, n) <==> Lists(opts[..|opts| - 1], n) || (o.WithExtension? && o.extension == n)
  {
    var init := opts[..|opts| - 1];
    assert forall i :: 0 <= i < |init| ==> init[i] == opts[i];
  }

  lemma HexDigests(s: string)
    ensures IsHexSHA256(s) <==> HexDigest(s)
  {
    forall i | 0 <= i < |s|
      ensures s[i] in "0123456789abcdef" <==> '0' <= s[i] <= '9' || 'a' <= s[i] <= 'f'
    {
      HexDigit(s[i]);
    }
  }

  lemma HexDigit(c: char)
    ensures c in "0123456789abcdef" <==> '0' <= c <= '9' || 'a' <= c <= 'f'
  {
    var digits := "0123456789abcdef";
    assert forall k :: 0 <= k < 10 ==> digits[k] as int == '0' as int + k;
    assert forall k :: 10 <= k < 16 ==> digits[k] as int == 'a' as int + k - 10;
    if '0' <= c <= '9' {
      assert digits[c as int - '0' as int] == c;
    } else if 'a' <= c <= 'f' {
      assert digits[c as int - 'a' as int + 10] == c;
    }
  }

  lemma {:induction false} FoldChecksum(opts: seq<IssueOption>, now: Instant)
    ensures !Faulty(opts) ==> ConfigOf(opts, now).checksum == ChecksumGiven(opts)
  {
    if opts != [] {
      FoldChecksum(opts[..|opts| - 1], now);
      FaultAtLast(opts);
      if opts[|opts| - 1].WithChecksum? {
        HexDigests(opts[|opts| - 1].sum);
      }
    }
  }

  lemma {:induction false} FoldExtensions(opts: seq<IssueOption>, now: Instant)
    ensures ConfigOf(opts, now).failed <==> Faulty(opts)
    ensures !Faulty(opts) ==> ExtensionsGiven(opts, ConfigOf(opts, now).ext)
  {
    if opts != [] {
      var init, o := opts[..|opts| - 1], opts[|opts| - 1];
      FoldExtensions(init, now);
      FaultAtLast(opts);
      forall n
        ensures Lists(opts, n) <==> Lists(init, n) || (o.WithExtension? && o.extension == n)
      {
        ListsAtLast(opts, n);
      }
      if o.WithChecksum? {
        HexDigests(o.sum);
      } else if o.WithExtension? {
        RepeatIsListed(opts);
      }
      assert forall i :: 0 <= i < |init| ==> init[i] == opts[i];
    }
  }

  /** The checks made while folding fail exactly on a faulty list, and otherwise gather the rest. */
  lemma FoldFaults(opts: seq<IssueOption>, now: Instant)
    ensures var c := ConfigOf(opts, now);
            && (c.failed <==> Faulty(opts))
            && (!Faulty(opts) ==> c.checksum == ChecksumGiven(opts) && ExtensionsGiven(opts, c.ext))
  {
    FoldChecksum(opts, now);
    FoldExtensions(opts, now);
  }

  lemma RepeatIsListed(opts: seq<IssueOption>)
    requires opts != [] && opts[|opts| - 1].WithExtension?
    ensures var o := opts[|opts| - 1];
            FaultAt(opts, |opts| - 1) <==> o.extension == "" || o.raw.None? || Lists(opts[..|opts| - 1], o.extension)
  {
    var init := opts[..|opts| - 1];
    assert forall i :: 0 <= i < |init| ==> init[i] == opts[i];
  }

  // ------------------------------------------------------------------
  // Instants and seconds.
  // ------------------------------------------------------------------

  /** The instants whose second is written as absent: that of the Unix epoch, and that of the zero time. */
  predicate Unwritable(t: Instant) {
    || 0 <= t < 1_000_000_000
    || -62_135_596_800_000_000_000 <= t < -62_135_596_799_000_000_000
  }

  /** Up to the start of the second that t is in, plus the skew. */
  predicate NotAfter(t: Option<Instant>, at: Instant, skew: int) {
    t.None? || Unwritable(t.value) || at <= t.value - t.value % 1_000_000_000 + skew
  }

  predicate NotBefore(t: Option<Instant>, at: Instant, skew: int) {
    t.None? || Unwritable(t.value) || t.value - t.value % 1_000_000_000 - skew <= at
  }

  /** A written instant is read back as the start of its second. */
  lemma SecondsReadBack(t: Instant)
    ensures Unix(t) * 1_000_000_000 == t - t % 1_000_000_000
    ensures Unix(t) != 0 ==> TimeOf(Unix(t)) <= t < TimeOf(Unix(t)) + 1_000_000_000
    ensures Unix(t) == 0 || Unix(t) == -62_135_596_800 <==> Unwritable(t)
  {
  }

  /** The window a list of options asks for. */
  predicate WindowGiven(opts: seq<IssueOption>, now: Instant, at: Instant, skew: int) {
    NotAfter(ExpiryGiven(opts, now), at, skew) && NotBefore(StartGiven(opts), at, skew)
  }

  lemma WindowIsGiven(c: Wire, opts: seq<IssueOption>, now: Instant, at: Instant, skew: int)
    requires c.expires == SecondsOf(ExpiryGiven(opts, now)) && c.notBefore == SecondsOf(StartGiven(opts))
    ensures InWindow(c, at, skew) <==> WindowGiven(opts, now, at, skew)
    ensures ClaimsOf(c).Current(at, skew) <==> WindowGiven(opts, now, at, skew)
  {
    WindowInSeconds(c, at, skew);
    if ExpiryGiven(opts, now).Some? {
      SecondsReadBack(ExpiryGiven(opts, now).value);
    }
    if StartGiven(opts).Some? {
      SecondsReadBack(StartGiven(opts).value);
    }
  }

  // ------------------------------------------------------------------
  // From the options to the token.
  // ------------------------------------------------------------------

  /** A document is what the options ask for, under this key and mint time, with its hash as jti. */
  ghost predicate AsAsked(lib: Lib, c: Wire, key: string, subject: string, typ: string, opts: seq<IssueOption>, now: Instant) {
    && c.issuer == key && c.subject == subject && c.body.typ == typ
    && c.issuedAt * 1_000_000_000 <= now < c.issuedAt * 1_000_000_000 + 1_000_000_000
    && c.id == lib.jti(lib.marshal(c.(id := "")))
    && c.name == NameGiven(opts) && c.audience == AudienceGiven(opts)
    && c.expires == SecondsOf(ExpiryGiven(opts, now)) && c.notBefore == SecondsOf(StartGiven(opts))
    && c.body.epoch == EpochGiven(opts) && (c.body.bearer <==> Gives(opts, SettingOf, Bearer))
    && c.body.checksum == ChecksumGiven(opts) && c.body.chain == ChainGiven(opts)
    && ExtensionsGiven(opts, c.body.ext)
  }

  lemma StampedAsAsked(lib: Lib, key: string, subject: string, typ: string, opts: seq<IssueOption>, now: Instant)
    requires !Faulty(opts)
    ensures var cfg := ConfigOf(opts, now);
            AsAsked(lib, Stamp(lib, key, Document(cfg.name, subject, typ, cfg), now), key, subject, typ, opts, now)
  {
    FoldGathers(opts, now);
    FoldFaults(opts, now);
    SecondsReadBack(now);
    var cfg := ConfigOf(opts, now);
    var c := Stamp(lib, key, Document(cfg.name, subject, typ, cfg), now);
    assert c.(id := "") == Document(cfg.name, subject, typ, cfg).(issuer := key, issuedAt := Unix(now), id := "");
  }

  /** What verification reads of such a document: the claims, the window and the extensions asked for. */
  ghost predicate ReadAsAsked(claims: Claims, name: string, epoch: nat, ext: Extensions, key: string, subject: string,
                              opts: seq<IssueOption>, now: Instant)
  {
    && claims.issuer == key && claims.subject == subject
    && (claims.issuedAt <= now < claims.issuedAt + 1_000_000_000 || 0 <= now < 1_000_000_000)
    && name == (if NameGiven(opts) == "" then subject else NameGiven(opts))
    && epoch == EpochGiven(opts) && ExtensionsGiven(opts, ext)
    && (forall at, skew :: claims.Current(at, skew) <==> WindowGiven(opts, now, at, skew))
  }

  lemma AskedIsRead(lib: Lib, c: Wire, key: string, subject: string, typ: string, opts: seq<IssueOption>, now: Instant)
    requires AsAsked(lib, c, key, subject, typ, opts, now)
    ensures ReadAsAsked(ClaimsOf(c), NameOf(c.name, c.subject), c.body.epoch, c.body.ext, key, subject, opts, now)
  {
    ClaimsAreRead(c);
    forall at, skew
      ensures ClaimsOf(c).Current(at, skew) <==> WindowGiven(opts, now, at, skew)
    {
      WindowIsGiven(c, opts, now, at, skew);
    }
  }

  /** Options that only messages may carry. */
  predicate ForMessages(opts: seq<IssueOption>) {
    AudienceGiven(opts) != "" || Gives(opts, SettingOf, Checksum) || Gives(opts, SettingOf, Chaining)
  }

  /** The option checks of the three identity levels. */
  lemma IdentityOptions(opts: seq<IssueOption>, now: Instant)
    ensures var cfg := ConfigOf(opts, now);
            && (cfg.failed || cfg.MessageOnly() <==> Faulty(opts) || ForMessages(opts))
            && (cfg.bearer <==> Gives(opts, SettingOf, Bearer))
  {
    FoldGathers(opts, now);
    FoldFaults(opts, now);
    LastIfAny(opts, SettingOf, Checksum);
    LastIfAny(opts, SettingOf, Chaining);
    if !Faulty(opts) && Last(opts, SettingOf, Checksum).Some? {
      LastChecksumIsHex(opts);
    }
  }

  lemma {:induction false} LastChecksumIsHex(opts: seq<IssueOption>)
    requires !Faulty(opts) && Last(opts, SettingOf, Checksum).Some?
    ensures HexDigest(ChecksumGiven(opts))
  {
    FaultAtLast(opts);
    if SettingOf(opts[|opts| - 1]) != Checksum {
      LastChecksumIsHex(opts[..|opts| - 1]);
    }
  }

  /** IssueOperator, from the options to what verifies: minted exactly for an operator key with a sound list
      that holds nothing of another level, and then read as asked under that key alone. */
  lemma OperatorMint(before: World, after: World, later: World, key: string, opts: seq<IssueOption>, now: Instant,
                     token: Option<string>, pinned: string)
    requires Lawful(before.lib) && later.Extends(after)
    requires Mints(before, after, key, OperatorDocument(before.lib, key, ConfigOf(opts, now)), now, token)
    ensures token.Some? <==>
              before.lib.role(key) == OperatorRole && !Faulty(opts) && !Gives(opts, SettingOf, Bearer) && !ForMessages(opts)
    ensures token.Some? ==>
              var r := VerifyOperator(Seen(later), token.value, pinned);
              && (r.Some? <==> pinned == key)
              && (r.Some? ==> var o := r.value; ReadAsAsked(o.claims, o.name, o.epoch, o.ext, key, key, opts, now))
  {
    IdentityOptions(opts, now);
    FoldFaults(opts, now);
    if token.Some? {
      StampedAsAsked(before.lib, key, key, OPERATOR_TYPE, opts, now);
      var doc := OperatorDocument(before.lib, key, ConfigOf(opts, now)).value;
      MintedDecodes(before, after, later, key, doc, now, token.value);
      AskedIsRead(before.lib, Stamp(before.lib, key, doc, now), key, key, OPERATOR_TYPE, opts, now);
    }
  }

  /** IssueAccount: the same, for an operator key and an account subject. */
  lemma AccountMint(before: World, after: World, later: World, key: string, tenant: string, opts: seq<IssueOption>,
                    now: Instant, token: Option<string>, pinned: string)
    requires Lawful(before.lib) && later.Extends(after)
    requires Mints(before, after, key, AccountDocument(before.lib, key, tenant, ConfigOf(opts, now)), now, token)
    ensures token.Some? <==>
              && before.lib.role(key) == OperatorRole && before.lib.role(tenant) == AccountRole
              && !Faulty(opts) && !Gives(opts, SettingOf, Bearer) && !ForMessages(opts)
    ensures token.Some? ==>
              var r := VerifyAccount(Seen(later), token.value, pinned);
              && (r.Some? <==> pinned == key)
              && (r.Some? ==> var a := r.value; ReadAsAsked(a.claims, a.name, a.epoch, a.ext, key, tenant, opts, now))
  {
    IdentityOptions(opts, now);
    FoldFaults(opts, now);
    if token.Some? {
      StampedAsAsked(before.lib, key, tenant, ACCOUNT_TYPE, opts, now);
      var doc := AccountDocument(before.lib, key, tenant, ConfigOf(opts, now)).value;
      MintedDecodes(before, after, later, key, doc, now, token.value);
      AskedIsRead(before.lib, Stamp(before.lib, key, doc, now), key, tenant, ACCOUNT_TYPE, opts, now);
    }
  }

  /** IssueUser: for an account key and a user subject; the bearer mark is there exactly when listed. */
  lemma UserMint(before: World, after: World, later: World, key: string, user: string, opts: seq<IssueOption>,
                 now: Instant, token: Option<string>, account: string)
    requires Lawful(before.lib) && later.Extends(after)
    requires Mints(before, after, key, UserDocument(before.lib, key, user, ConfigOf(opts, now)), now, token)
    ensures token.Some? <==>
              && before.lib.role(key) == AccountRole && before.lib.role(user) == UserRole
              && !Faulty(opts) && !ForMessages(opts)
    ensures token.Some? ==>
              var r := VerifyUser(Seen(later), token.value, account);
              && (r.Some? <==> account == key)
              && (r.Some? ==>
                    var u := r.value;
                    ReadAsAsked(u.claims, u.name, u.epoch, u.ext, key, user, opts, now) && (u.bearer <==> Gives(opts, SettingOf, Bearer)))
  {
    IdentityOptions(opts, now);
    FoldFaults(opts, now);
    if token.Some? {
      StampedAsAsked(before.lib, key, user, USER_TYPE, opts, now);
      var doc := UserDocument(before.lib, key, user, ConfigOf(opts, now)).value;
      MintedDecodes(before, after, later, key, doc, now, token.value);
      AskedIsRead(before.lib, Stamp(before.lib, key, doc, now), key, user, USER_TYPE, opts, now);
    }
  }

  /** The chain a message may embed: an account token of any operator, a user token of that account, for the
      minting key. */
  predicate EndsAt(v: View, chain: Chain, emitter: string) {
    && v.decode(chain.account).Some? && v.decode(chain.user).Some?
    && var a, u := v.decode(chain.account).value, v.decode(chain.user).value;
       && a.body.typ == ACCOUNT_TYPE && v.lib.role(a.subject) == AccountRole
       && u.body.typ == USER_TYPE && v.lib.role(u.subject) == UserRole
       && u.issuer == a.subject && u.subject == emitter
  }

  /** IssueMessage: for a user key over itself, with an expiry, no name, no bearer mark, and an embedded chain
      that ends at the key if any; the message decodes to what was asked. */
  lemma MessageMint(before: World, after: World, later: World, key: string, opts: seq<IssueOption>, now: Instant,
                    token: Option<string>)
    requires Lawful(before.lib) && later.Extends(after)
    requires Mints(before, after, key, MessageDocument(Seen(before), key, ConfigOf(opts, now)), now, token)
    ensures token.Some? <==>
              && before.lib.role(key) == UserRole && !Faulty(opts) && !Gives(opts, SettingOf, Bearer) && NameGiven(opts) == ""
              && ExpiryGiven(opts, now).Some? && !(0 <= ExpiryGiven(opts, now).value < 1_000_000_000)
              && (ChainGiven(opts).Some? ==> EndsAt(Seen(before), ChainGiven(opts).value, key))
    ensures token.Some? ==>
              var d := DecodeToken(later, token.value);
              && d.Some? && AsAsked(before.lib, d.value, key, key, MESSAGE_TYPE, opts, now)
              && (forall at, skew :: ClaimsOf(d.value).Current(at, skew) <==> WindowGiven(opts, now, at, skew))
  {
    MessageAllowed(Seen(before), key, opts, now);
    if token.Some? {
      StampedAsAsked(before.lib, key, key, MESSAGE_TYPE, opts, now);
      MessageIsNameless(Seen(before), key, opts, now);
      var doc := MessageDocument(Seen(before), key, ConfigOf(opts, now)).value;
      MintedDecodes(before, after, later, key, doc, now, token.value);
      AskedIsRead(before.lib, Stamp(before.lib, key, doc, now), key, key, MESSAGE_TYPE, opts, now);
    }
  }

  lemma EndsAtExactly(v: View, chain: Chain, emitter: string)
    ensures CheckChain(v, chain, emitter) <==> EndsAt(v, chain, emitter)
  {
  }

  lemma MessageAllowed(v: View, key: string, opts: seq<IssueOption>, now: Instant)
    ensures MessageDocument(v, key, ConfigOf(opts, now)).Some? <==>
              && v.lib.role(key) == UserRole && !Faulty(opts) && !Gives(opts, SettingOf, Bearer) && NameGiven(opts) == ""
              && ExpiryGiven(opts, now).Some? && !(0 <= ExpiryGiven(opts, now).value < 1_000_000_000)
              && (ChainGiven(opts).Some? ==> EndsAt(v, ChainGiven(opts).value, key))
  {
    FoldGathers(opts, now);
    FoldFaults(opts, now);
    ExpiryWritten(ExpiryGiven(opts, now));
    if ChainGiven(opts).Some? {
      EndsAtExactly(v, ChainGiven(opts).value, key);
    }
  }

  lemma ExpiryWritten(t: Option<Instant>)
    ensures SecondsOf(t) != 0 <==> t.Some? && !(0 <= t.value < 1_000_000_000)
  {
  }

  lemma MessageIsNameless(v: View, key: string, opts: seq<IssueOption>, now: Instant)
    requires MessageDocument(v, key, ConfigOf(opts, now)).Some?
    ensures var cfg := ConfigOf(opts, now);
            !Faulty(opts) && MessageDocument(v, key, cfg) == Some(Document(cfg.name, key, MESSAGE_TYPE, cfg))
  {
    FoldFaults(opts, now);
  }
}
