/** A keyring verifier is trial over its entries (verifier.go): selecting the operator by the
    credential's issuer and epoch, and trying single-anchor verifiers one after the other, give the
    same verdict and leave the replay cache in the same state. */
module RequestTrials {
  import opened Wrappers
  import opened Tokens
  import opened Keyrings
  import opened Allowlists
  import opened Replay
  import opened Requests

  /** The single-anchor counterpart of a keyring verifier for one entry: its key, its policy. */
  function EntryConfig(cfg: Config, k: RingKey): Config
    requires cfg.ring.Some? && k in cfg.ring.value
  {
    cfg.(ring := None, operatorKey := k.operator, operator := Some(cfg.ring.value[k]))
  }

  lemma {:induction false} FoldMovesAnchor(v: View, start: Config, operatorKey: string, ring: Option<Entries>,
                                           opts: seq<VerifierOption>)
    requires LastOperatorToken(opts).None?
    ensures Fold(v, start.(operatorKey := operatorKey, ring := ring), opts) ==
            Fold(v, start, opts).(operatorKey := operatorKey, ring := ring)
    ensures Fold(v, start, opts).operator == start.operator && Fold(v, start, opts).poisoned == start.poisoned
  {
    if opts != [] {
      var init := opts[..|opts| - 1];
      FoldMovesAnchor(v, start, operatorKey, ring, init);
    }
  }

  /** The counterpart is what NewVerifier builds from the entry's key and token and the same options. */
  lemma EntryConfigIsBuilt(v: View, entries: Entries, sources: map<RingKey, string>, k: RingKey, opts: seq<VerifierOption>)
    requires Sourced(v, entries, sources) && k in entries && LastOperatorToken(opts).None?
    ensures var cfg := Configured(v, "", Some(entries), opts);
            && cfg.ring == Some(entries) && !cfg.poisoned
            && Configured(v, k.operator, None, opts + [WithOperatorToken(sources[k])]) == EntryConfig(cfg, k)
  {
    var all := opts + [WithOperatorToken(sources[k])];
    assert all[..|all| - 1] == opts;
    FoldMovesAnchor(v, Fresh("", Some(entries)), k.operator, None, opts);
    OptionsKeepAnchor(v, Fresh("", Some(entries)), opts);
    assert Fresh("", Some(entries)).(operatorKey := k.operator, ring := None) == Fresh(k.operator, None);
  }

  /** The (issuer, epoch) the request's account token names. */
  function NamedBy(v: View, cfg: Config, req: Request): Option<RingKey> {
    match Resolved(v, cfg, req)
    case None => None
    case Some(full) =>
      match IssuerOf(v, full.accountToken)
      case None => None
      case Some(issuer) =>
        match VerifyAccount(v, full.accountToken, issuer)
        case None => None
        case Some(account) => Some(RingKey(issuer, account.epoch))
  }

  lemma EntryAnchors(v: View, cfg: Config, k: RingKey, accountToken: string)
    requires cfg.ring.Some? && k in cfg.ring.value
    ensures var ring := Anchored(v, cfg, accountToken);
            var entry := Anchored(v, EntryConfig(cfg, k), accountToken);
            if ring.Some? && ring.value.0.claims.issuer == k.operator && ring.value.0.epoch == k.epoch then entry == ring
            else entry.None? || entry.value.0.epoch != k.epoch
  {
  }

  /** An entry the credential does not name refuses it before the nonce is looked at; the one it names
      answers as the keyring does. */
  lemma EntryAuthenticates(v: View, cfg: Config, k: RingKey, lists: Lists, nonces: Option<Nonces>, req: Request,
                           now: Instant, cacheNow: Instant)
    requires cfg.ring.Some? && k in cfg.ring.value && KeyOf(cfg.ring.value[k]) == k && !cfg.poisoned
    ensures Authenticate(v, EntryConfig(cfg, k), lists, nonces, req, now, cacheNow) ==
            if NamedBy(v, cfg, req) == Some(k) then Authenticate(v, cfg, lists, nonces, req, now, cacheNow)
            else (None, nonces)
  {
    var one := EntryConfig(cfg, k);
    assert Resolved(v, one, req) == Resolved(v, cfg, req);
    if Resolved(v, cfg, req).Some? {
      var full := Resolved(v, cfg, req).value;
      EntryAnchors(v, cfg, k, full.accountToken);
      EntryPrincipal(v, cfg, k, lists, full, now);
      if NamedBy(v, cfg, req) == Some(k) {
        forall id: Identity
          ensures Possession(v, one, full, id, now) == Possession(v, cfg, full, id, now)
          ensures HooksPass(one, full, id) == HooksPass(cfg, full, id)
        {
        }
      }
    }
  }

  lemma EntryPrincipal(v: View, cfg: Config, k: RingKey, lists: Lists, full: Request, now: Instant)
    requires cfg.ring.Some? && k in cfg.ring.value && KeyOf(cfg.ring.value[k]) == k
    ensures var ring := Anchored(v, cfg, full.accountToken);
            Principal(v, EntryConfig(cfg, k), lists, full, now) ==
            if ring.Some? && ring.value.0.claims.issuer == k.operator && ring.value.0.epoch == k.epoch
            then Principal(v, cfg, lists, full, now) else None
  {
    EntryAnchors(v, cfg, k, full.accountToken);
  }

  lemma UnnamedIsRefused(v: View, cfg: Config, lists: Lists, nonces: Option<Nonces>, req: Request,
                         now: Instant, cacheNow: Instant)
    requires cfg.ring.Some? && (NamedBy(v, cfg, req).None? || NamedBy(v, cfg, req).value !in cfg.ring.value)
    ensures Authenticate(v, cfg, lists, nonces, req, now, cacheNow) == (None, nonces)
  {
  }

  /** One verifier per entry, in some order, until one accepts; they share the replay cache. */
  function Trials(v: View, cfg: Config, order: seq<RingKey>, lists: Lists, nonces: Option<Nonces>, req: Request,
                  now: Instant, cacheNow: Instant): (Option<Identity>, Option<Nonces>)
    requires cfg.ring.Some? && forall i :: 0 <= i < |order| ==> order[i] in cfg.ring.value
  {
    if order == [] then (None, nonces)
    else
      var (id, after) := Authenticate(v, EntryConfig(cfg, order[0]), lists, nonces, req, now, cacheNow);
      if id.Some? then (id, after) else Trials(v, cfg, order[1..], lists, after, req, now, cacheNow)
  }

  predicate Distinct(order: seq<RingKey>) {
    forall i, j :: 0 <= i < j < |order| ==> order[i] != order[j]
  }

  lemma {:induction false} TrialsFindTheNamedEntry(v: View, cfg: Config, order: seq<RingKey>, lists: Lists,
                                                   nonces: Option<Nonces>, req: Request, now: Instant, cacheNow: Instant)
    requires cfg.ring.Some? && !cfg.poisoned && Distinct(order)
    requires forall i :: 0 <= i < |order| ==> order[i] in cfg.ring.value && KeyOf(cfg.ring.value[order[i]]) == order[i]
    ensures var named := NamedBy(v, cfg, req);
            Trials(v, cfg, order, lists, nonces, req, now, cacheNow) ==
            if named.Some? && named.value in order then Authenticate(v, cfg, lists, nonces, req, now, cacheNow)
            else (None, nonces)
  {
    if order != [] {
      EntryAuthenticates(v, cfg, order[0], lists, nonces, req, now, cacheNow);
      var (id, after) := Authenticate(v, EntryConfig(cfg, order[0]), lists, nonces, req, now, cacheNow);
      TrialsFindTheNamedEntry(v, cfg, order[1..], lists, after, req, now, cacheNow);
      assert order == [order[0]] + order[1..];
    }
  }

  /** The keyring verifier and trial over all its entries, in any order, agree on every request:
      the identity or the refusal, and the nonces recorded. */
  lemma KeyringVerifierEqualsTrials(v: View, entries: Entries, sources: map<RingKey, string>, opts: seq<VerifierOption>,
                                    order: seq<RingKey>, lists: Lists, nonces: Option<Nonces>, req: Request,
                                    now: Instant, cacheNow: Instant)
    requires Sourced(v, entries, sources) && LastOperatorToken(opts).None?
    requires Distinct(order) && forall k :: k in order <==> k in entries
    ensures var cfg := Configured(v, "", Some(entries), opts);
            && cfg.ring == Some(entries)
            && Trials(v, cfg, order, lists, nonces, req, now, cacheNow) ==
               Authenticate(v, cfg, lists, nonces, req, now, cacheNow)
  {
    var cfg := Configured(v, "", Some(entries), opts);
    FoldMovesAnchor(v, Fresh("", Some(entries)), "", Some(entries), opts);
    OptionsKeepAnchor(v, Fresh("", Some(entries)), opts);
    assert forall i :: 0 <= i < |order| ==> order[i] in order && KeyOf(entries[order[i]]) == order[i];
    TrialsFindTheNamedEntry(v, cfg, order, lists, nonces, req, now, cacheNow);
    if NamedBy(v, cfg, req).None? || NamedBy(v, cfg, req).value !in entries {
      UnnamedIsRefused(v, cfg, lists, nonces, req, now, cacheNow);
    }
  }
}
