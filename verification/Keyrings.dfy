/** The set of trusted operators a receiver verifies against (keyring.go). */
module Keyrings {
  import opened Wrappers
  import opened Tokens

  datatype RingKey = RingKey(operator: string, epoch: nat)
  type Entries = map<RingKey, OperatorClaims>

  function KeyOf(c: OperatorClaims): RingKey {
    RingKey(c.claims.subject, c.epoch)
  }

  /** An operator token read under the issuer it names. */
  function ReadOperator(v: View, token: string): Option<OperatorClaims> {
    match IssuerOf(v, token)
    case None => None
    case Some(issuer) => VerifyOperator(v, token, issuer)
  }

  predicate Readable(v: View, tokens: seq<string>, n: nat)
    requires n <= |tokens|
  {
    forall i :: 0 <= i < n ==> ReadOperator(v, tokens[i]).Some?
  }

  /** The operator claims of a readable list, in order. */
  function Operators(v: View, tokens: seq<string>, n: nat): (cs: seq<OperatorClaims>)
    requires n <= |tokens| && Readable(v, tokens, n)
    ensures |cs| == n && forall i :: 0 <= i < n ==> ReadOperator(v, tokens[i]) == Some(cs[i])
  {
    seq(n, i requires 0 <= i < n => ReadOperator(v, tokens[i]).value)
  }

  predicate HasJti(kept: seq<OperatorClaims>, id: string) {
    exists k :: 0 <= k < |kept| && kept[k].claims.id == id
  }

  /** The operators registered from the first n of a list: the first of each jti. */
  function Kept(cs: seq<OperatorClaims>, n: nat): seq<OperatorClaims>
    requires n <= |cs|
  {
    if n == 0 then []
    else
      var before := Kept(cs, n - 1);
      Keeping(before, cs[n - 1])
  }

  /** Two registrations that may stand side by side: different (operator, epoch), and one name
      exactly when one operator. */
  predicate Compatible(a: OperatorClaims, b: OperatorClaims) {
    KeyOf(a) != KeyOf(b) && (a.name == b.name <==> a.claims.subject == b.claims.subject)
  }

  predicate PairwiseCompatible(kept: seq<OperatorClaims>) {
    forall i, j :: 0 <= i < j < |kept| ==> Compatible(kept[i], kept[j])
  }

  predicate FiledIn(entries: Entries, c: OperatorClaims) {
    KeyOf(c) in entries && entries[KeyOf(c)] == c
  }

  /** The entries are exactly the registered operators, each under its own key. */
  ghost predicate Files(entries: Entries, kept: seq<OperatorClaims>) {
    && (forall i :: 0 <= i < |kept| ==> FiledIn(entries, kept[i]))
    && (forall k :: k in entries ==> KeyOf(entries[k]) == k && exists i :: 0 <= i < |kept| && kept[i] == entries[k])
  }

  predicate NamedIn(names: map<string, string>, c: OperatorClaims) {
    c.name in names && names[c.name] == c.claims.subject
  }

  ghost predicate Names(names: map<string, string>, kept: seq<OperatorClaims>) {
    && (forall i :: 0 <= i < |kept| ==> NamedIn(names, kept[i]))
    && (forall n :: n in names ==> exists i :: 0 <= i < |kept| && kept[i].name == n)
  }

  /** Every entry is the verified content of a token self-signed by the key it is filed under. */
  ghost predicate Sourced(v: View, entries: Entries, sources: map<RingKey, string>) {
    && sources.Keys == entries.Keys
    && forall k :: k in entries ==>
         KeyOf(entries[k]) == k && VerifyOperator(v, sources[k], k.operator) == Some(entries[k])
  }

  lemma OneNamePerOperator(kept: seq<OperatorClaims>, i: nat, j: nat)
    requires PairwiseCompatible(kept) && i < |kept| && j < |kept|
    requires kept[i].claims.subject == kept[j].claims.subject
    ensures kept[i].name == kept[j].name
  {
    if i < j {
      assert Compatible(kept[i], kept[j]);
    } else if j < i {
      assert Compatible(kept[j], kept[i]);
    }
  }

  /** In a keyring, names and operators correspond one to one. */
  lemma NamesAreOneToOne(names: map<string, string>, kept: seq<OperatorClaims>)
    requires PairwiseCompatible(kept) && Names(names, kept)
    ensures forall m, n :: m in names && n in names && names[m] == names[n] ==> m == n
    ensures forall i :: 0 <= i < |kept| ==> kept[i].claims.subject in names.Values
  {
    forall i | 0 <= i < |kept|
      ensures kept[i].claims.subject in names.Values
    {
      assert NamedIn(names, kept[i]);
    }
    forall m, n | m in names && n in names && names[m] == names[n]
      ensures m == n
    {
      var i :| 0 <= i < |kept| && kept[i].name == m;
      var j :| 0 <= j < |kept| && kept[j].name == n;
      assert NamedIn(names, kept[i]) && NamedIn(names, kept[j]);
      OneNamePerOperator(kept, i, j);
    }
  }

  /** The three conflict checks of the registration loop. */
  ghost predicate Free(entries: Entries, names: map<string, string>, c: OperatorClaims) {
    && KeyOf(c) !in entries
    && (c.name in names ==> names[c.name] == c.claims.subject)
    && (forall k :: k in entries && k.operator == c.claims.subject ==> entries[k].name == c.name)
  }

  ghost predicate CompatibleWithAll(kept: seq<OperatorClaims>, c: OperatorClaims) {
    forall i :: 0 <= i < |kept| ==> Compatible(kept[i], c)
  }

  /** Together they say "compatible with everything registered". */
  lemma ConflictChecks(kept: seq<OperatorClaims>, entries: Entries, names: map<string, string>, c: OperatorClaims)
    requires Files(entries, kept) && Names(names, kept)
    ensures CompatibleWithAll(kept, c) <==> Free(entries, names, c)
  {
    if CompatibleWithAll(kept, c) {
      CompatibleIsFree(kept, entries, names, c);
    }
    if Free(entries, names, c) {
      forall i | 0 <= i < |kept|
        ensures Compatible(kept[i], c)
      {
        var k := kept[i];
        assert FiledIn(entries, k) && NamedIn(names, k);
      }
    }
  }

  lemma CompatibleIsFree(kept: seq<OperatorClaims>, entries: Entries, names: map<string, string>, c: OperatorClaims)
    requires Files(entries, kept) && Names(names, kept) && CompatibleWithAll(kept, c)
    ensures Free(entries, names, c)
  {
    forall k | k in entries
      ensures k != KeyOf(c) && (k.operator == c.claims.subject ==> entries[k].name == c.name)
    {
      var i :| 0 <= i < |kept| && kept[i] == entries[k];
      assert Compatible(kept[i], c);
    }
    if c.name in names {
      var i :| 0 <= i < |kept| && kept[i].name == c.name;
      assert NamedIn(names, kept[i]) && Compatible(kept[i], c);
    }
  }

  lemma PairwiseAppend(kept: seq<OperatorClaims>, c: OperatorClaims)
    requires PairwiseCompatible(kept) && CompatibleWithAll(kept, c)
    ensures PairwiseCompatible(kept + [c])
  {
  }

  lemma FilesAppend(kept: seq<OperatorClaims>, entries: Entries, c: OperatorClaims)
    requires Files(entries, kept) && CompatibleWithAll(kept, c)
    ensures Files(entries[KeyOf(c) := c], kept + [c])
  {
    var more, e := kept + [c], entries[KeyOf(c) := c];
    forall i | 0 <= i < |more|
      ensures FiledIn(e, more[i])
    {
      if i < |kept| {
        assert FiledIn(entries, kept[i]) && Compatible(kept[i], c);
      }
    }
    forall k | k in e
      ensures KeyOf(e[k]) == k && exists i :: 0 <= i < |more| && more[i] == e[k]
    {
      if k == KeyOf(c) {
        assert more[|kept|] == e[k];
      } else {
        var i :| 0 <= i < |kept| && kept[i] == entries[k];
        assert more[i] == e[k];
      }
    }
  }

  lemma NamesAppend(kept: seq<OperatorClaims>, names: map<string, string>, c: OperatorClaims)
    requires Names(names, kept) && CompatibleWithAll(kept, c)
    ensures Names(names[c.name := c.claims.subject], kept + [c])
  {
    var more, m := kept + [c], names[c.name := c.claims.subject];
    forall i | 0 <= i < |more|
      ensures NamedIn(m, more[i])
    {
      if i < |kept| {
        assert NamedIn(names, kept[i]) && Compatible(kept[i], c);
      }
    }
    forall n | n in m
      ensures exists i :: 0 <= i < |more| && more[i].name == n
    {
      if n == c.name {
        assert more[|kept|].name == n;
      } else {
        var i :| 0 <= i < |kept| && kept[i].name == n;
        assert more[i].name == n;
      }
    }
  }

  ghost predicate Jtis(jtis: set<string>, kept: seq<OperatorClaims>) {
    forall id :: id in jtis <==> HasJti(kept, id)
  }

  lemma JtisAppend(jtis: set<string>, kept: seq<OperatorClaims>, c: OperatorClaims)
    requires Jtis(jtis, kept)
    ensures Jtis(jtis + {c.claims.id}, kept + [c])
  {
    JtiAppend(kept, c);
  }

  /** The three maps of a keyring hold exactly the operators kept so far. */
  ghost predicate Consistent(v: View, entries: Entries, names: map<string, string>, jtis: set<string>,
                             sources: map<RingKey, string>, kept: seq<OperatorClaims>)
  {
    && PairwiseCompatible(kept)
    && Files(entries, kept)
    && Names(names, kept)
    && Jtis(jtis, kept)
    && Sourced(v, entries, sources)
  }

  lemma SourcedAppend(v: View, entries: Entries, sources: map<RingKey, string>, token: string, c: OperatorClaims)
    requires Sourced(v, entries, sources) && ReadOperator(v, token) == Some(c)
    ensures Sourced(v, entries[KeyOf(c) := c], sources[KeyOf(c) := token])
  {
  }

  /** The maps after one more operator, the primed ones being the maps before. */
  lemma ConsistentAppend(v: View, entries': Entries, names': map<string, string>, jtis': set<string>,
                         sources': map<RingKey, string>, kept: seq<OperatorClaims>, token: string, c: OperatorClaims,
                         entries: Entries, names: map<string, string>, jtis: set<string>, sources: map<RingKey, string>)
    requires Consistent(v, entries', names', jtis', sources', kept)
    requires ReadOperator(v, token) == Some(c) && CompatibleWithAll(kept, c)
    requires entries == entries'[KeyOf(c) := c] && names == names'[c.name := c.claims.subject]
    requires jtis == jtis' + {c.claims.id} && sources == sources'[KeyOf(c) := token]
    ensures Consistent(v, entries, names, jtis, sources, kept + [c]) && entries != map[]
  {
    assert KeyOf(c) in entries;
    PairwiseAppend(kept, c);
    FilesAppend(kept, entries', c);
    NamesAppend(kept, names', c);
    JtisAppend(jtis', kept, c);
    SourcedAppend(v, entries', sources', token, c);
  }

  /** What one more token of the list leaves kept. */
  function Keeping(kept: seq<OperatorClaims>, c: OperatorClaims): seq<OperatorClaims> {
    if HasJti(kept, c.claims.id) then kept else kept + [c]
  }

  lemma JtiAppend(kept: seq<OperatorClaims>, c: OperatorClaims)
    ensures forall id :: HasJti(kept + [c], id) <==> HasJti(kept, id) || id == c.claims.id
  {
    var more := kept + [c];
    forall id
      ensures HasJti(more, id) <==> HasJti(kept, id) || id == c.claims.id
    {
      if HasJti(kept, id) {
        var k :| 0 <= k < |kept| && kept[k].claims.id == id;
        assert more[k].claims.id == id;
      }
      if id == c.claims.id {
        assert more[|kept|].claims.id == id;
      }
    }
  }

  class Keyring {
    var entries: Entries
    var names: map<string, string>
    var jtis: set<string>
    ghost var sources: map<RingKey, string>

    constructor ()
      ensures entries == map[] && names == map[] && jtis == {} && sources == map[]
    {
      entries, names, jtis, sources := map[], map[], {}, map[];
    }

    ghost predicate Holds(v: View, kept: seq<OperatorClaims>)
      reads this
    {
      Consistent(v, entries, names, jtis, sources, kept)
    }

    /** The check on entries of the same operator: all agree on its name. */
    method AgreesOnName(claims: OperatorClaims) returns (ok: bool)
      ensures ok <==> forall k :: k in entries && k.operator == claims.claims.subject ==> entries[k].name == claims.name
    {
      var rest := entries.Keys;
      while rest != {}
        invariant rest <= entries.Keys
        invariant forall k :: k in entries && k !in rest && k.operator == claims.claims.subject ==>
                    entries[k].name == claims.name
        decreases |rest|
      {
        var k :| k in rest;
        if k.operator == claims.claims.subject && entries[k].name != claims.name {
          return false;
        }
        rest := rest - {k};
      }
      return true;
    }

    /** Registers an operator that conflicts with nothing registered so far. */
    method Register(v: View, token: string, claims: OperatorClaims, ghost kept: seq<OperatorClaims>)
      requires Holds(v, kept) && ReadOperator(v, token) == Some(claims) && CompatibleWithAll(kept, claims)
      modifies this
      ensures Holds(v, kept + [claims]) && entries != map[]
    {
      ghost var before := (entries, names, jtis, sources);
      entries := entries[KeyOf(claims) := claims];
      names := names[claims.name := claims.claims.subject];
      jtis := jtis + {claims.claims.id};
      sources := sources[KeyOf(claims) := token];
      ConsistentAppend(v, before.0, before.1, before.2, before.3, kept, token, claims, entries, names, jtis, sources);
    }

    /** One turn of the registration loop. */
    method Add(v: View, token: string, ghost kept: seq<OperatorClaims>) returns (ok: bool)
      requires Holds(v, kept)
      modifies this
      ensures ok <==> Addable(v, token, kept)
      ensures ok ==> Holds(v, Keeping(kept, ReadOperator(v, token).value)) && entries != map[]
    {
      var read := ReadOperator(v, token);
      if read.None? {
        return false;
      }
      var claims := read.value;
      if claims.claims.id in jtis {
        SomeEntry(kept, entries, claims.claims.id);
        return true;
      }
      if KeyOf(claims) in entries {
        ConflictChecks(kept, entries, names, claims);
        return false;
      }
      if claims.name in names && names[claims.name] != claims.claims.subject {
        ConflictChecks(kept, entries, names, claims);
        return false;
      }
      var agrees := AgreesOnName(claims);
      ConflictChecks(kept, entries, names, claims);
      if !agrees {
        return false;
      }
      Register(v, token, claims, kept);
      return true;
    }
  }

  /** A token joins the kept operators: readable, and a repeat or compatible with all of them. */
  ghost predicate Addable(v: View, token: string, kept: seq<OperatorClaims>) {
    match ReadOperator(v, token)
    case None => false
    case Some(c) => HasJti(kept, c.claims.id) || CompatibleWithAll(kept, c)
  }

  lemma SomeEntry(kept: seq<OperatorClaims>, entries: Entries, id: string)
    requires Files(entries, kept) && HasJti(kept, id)
    ensures entries != map[]
  {
    assert FiledIn(entries, kept[0]);
  }

  /** The entries filed for the operators kept. */
  function EntriesOf(kept: seq<OperatorClaims>): Entries {
    if kept == [] then map[]
    else
      var last := kept[|kept| - 1];
      EntriesOf(kept[..|kept| - 1])[KeyOf(last) := last]
  }

  lemma {:induction false} EntriesAreFiled(kept: seq<OperatorClaims>)
    requires PairwiseCompatible(kept)
    ensures Files(EntriesOf(kept), kept)
  {
    if kept != [] {
      var before, last := kept[..|kept| - 1], kept[|kept| - 1];
      EntriesAreFiled(before);
      forall i | 0 <= i < |before|
        ensures Compatible(before[i], last)
      {
        assert Compatible(kept[i], kept[|kept| - 1]);
      }
      FilesAppend(before, EntriesOf(before), last);
      assert before + [last] == kept;
    }
  }

  lemma FiledAlike(e: Entries, f: Entries, kept: seq<OperatorClaims>)
    requires Files(e, kept) && Files(f, kept)
    ensures e == f
  {
    forall k | k in e
      ensures k in f && f[k] == e[k]
    {
      var i :| 0 <= i < |kept| && kept[i] == e[k];
      assert FiledIn(f, kept[i]);
    }
    forall k | k in f
      ensures k in e
    {
      var i :| 0 <= i < |kept| && kept[i] == f[k];
      assert FiledIn(e, kept[i]);
    }
  }

  /** The entries of the keyring built from a list. */
  function RingOf(v: View, tokens: seq<string>): Entries
    requires Readable(v, tokens, |tokens|)
  {
    EntriesOf(Kept(Operators(v, tokens, |tokens|), |tokens|))
  }

  lemma RingIsFiled(v: View, tokens: seq<string>)
    requires Admissible(v, tokens)
    ensures Files(RingOf(v, tokens), Kept(Operators(v, tokens, |tokens|), |tokens|))
  {
    EntriesAreFiled(Kept(Operators(v, tokens, |tokens|), |tokens|));
  }

  /** What NewKeyring asks of its list. */
  ghost predicate Admissible(v: View, tokens: seq<string>) {
    && tokens != []
    && Readable(v, tokens, |tokens|)
    && PairwiseCompatible(Kept(Operators(v, tokens, |tokens|), |tokens|))
  }

  /** NewKeyring succeeds exactly when the list is nonempty, every token is a self-signed operator
      token, and the operators kept (the first of each jti) are pairwise compatible; the keyring
      then holds exactly those operators. */
  method NewKeyring(v: View, tokens: seq<string>) returns (r: Option<Keyring>)
    ensures r.Some? <==> Admissible(v, tokens)
    ensures r.Some? ==> fresh(r.value) && r.value.Holds(v, Kept(Operators(v, tokens, |tokens|), |tokens|))
    ensures r.Some? ==> r.value.entries == RingOf(v, tokens)
  {
    var k := new Keyring();
    ghost var kept: seq<OperatorClaims> := [];
    for i := 0 to |tokens|
      invariant fresh(k) && k.Holds(v, kept) && KeptFrom(v, tokens, i, kept)
      invariant i > 0 ==> k.entries != map[]
    {
      var ok := k.Add(v, tokens[i], kept);
      if !ok {
        Refused(v, tokens, i, kept);
        return None;
      }
      KeptStep(v, tokens, i, kept);
      kept := Keeping(kept, ReadOperator(v, tokens[i]).value);
    }
    if |k.entries| == 0 {
      return None;
    }
    RingIsFiled(v, tokens);
    FiledAlike(k.entries, RingOf(v, tokens), kept);
    return Some(k);
  }

  /** The claims kept from the first n tokens, all of them readable. */
  ghost predicate KeptFrom(v: View, tokens: seq<string>, n: nat, kept: seq<OperatorClaims>)
    requires n <= |tokens|
  {
    Readable(v, tokens, n) && kept == Kept(Operators(v, tokens, n), n)
  }

  lemma {:induction false} KeptOfPrefix(cs: seq<OperatorClaims>, ds: seq<OperatorClaims>, n: nat)
    requires n <= |cs| && n <= |ds| && cs[..n] == ds[..n]
    ensures Kept(cs, n) == Kept(ds, n)
  {
    if n > 0 {
      assert cs[..n - 1] == cs[..n][..n - 1] == ds[..n - 1];
      KeptOfPrefix(cs, ds, n - 1);
      assert cs[n - 1] == cs[..n][n - 1] == ds[n - 1];
    }
  }

  lemma KeptStep(v: View, tokens: seq<string>, i: nat, kept: seq<OperatorClaims>)
    requires i < |tokens| && KeptFrom(v, tokens, i, kept) && ReadOperator(v, tokens[i]).Some?
    ensures KeptFrom(v, tokens, i + 1, Keeping(kept, ReadOperator(v, tokens[i]).value))
  {
    KeptOfPrefix(Operators(v, tokens, i), Operators(v, tokens, i + 1), i);
  }

  /** Operators kept from a prefix of the list stay kept, in the same places. */
  lemma {:induction false} KeptGrows(cs: seq<OperatorClaims>, n: nat, m: nat)
    requires n <= m <= |cs|
    ensures Kept(cs, n) <= Kept(cs, m)
  {
    if n < m {
      KeptGrows(cs, n, m - 1);
    }
  }

  lemma ConflictInPrefix(kept: seq<OperatorClaims>, c: OperatorClaims, all: seq<OperatorClaims>)
    requires kept + [c] <= all && !CompatibleWithAll(kept, c)
    ensures !PairwiseCompatible(all)
  {
    var j :| 0 <= j < |kept| && !Compatible(kept[j], c);
    assert (kept + [c])[j] == all[j] && (kept + [c])[|kept|] == all[|kept|];
    assert !Compatible(all[j], all[|kept|]);
  }

  lemma ConflictStays(cs: seq<OperatorClaims>, i: nat)
    requires i < |cs| && !HasJti(Kept(cs, i), cs[i].claims.id) && !CompatibleWithAll(Kept(cs, i), cs[i])
    ensures !PairwiseCompatible(Kept(cs, |cs|))
  {
    KeptGrows(cs, i + 1, |cs|);
    ConflictInPrefix(Kept(cs, i), cs[i], Kept(cs, |cs|));
  }

  /** A token that cannot be added makes the whole list inadmissible, whatever follows it. */
  lemma Refused(v: View, tokens: seq<string>, i: nat, kept: seq<OperatorClaims>)
    requires i < |tokens| && KeptFrom(v, tokens, i, kept) && !Addable(v, tokens[i], kept)
    ensures !Admissible(v, tokens)
  {
    if Readable(v, tokens, |tokens|) {
      var cs := Operators(v, tokens, |tokens|);
      assert ReadOperator(v, tokens[i]) == Some(cs[i]);
      KeptOfPrefix(cs, Operators(v, tokens, i), i);
      ConflictStays(cs, i);
    }
  }

  /** The jti is copied from the token, not recomputed; that it identifies the claims is an
      assumption about the list. */
  ghost predicate JtiIdentifies(cs: seq<OperatorClaims>) {
    forall i, j :: 0 <= i < |cs| && 0 <= j < |cs| && cs[i].claims.id == cs[j].claims.id ==> cs[i] == cs[j]
  }

  /** The registration rule with no order in it. */
  ghost predicate Registrable(cs: seq<OperatorClaims>) {
    forall i, j :: 0 <= i < |cs| && 0 <= j < |cs| && cs[i].claims.id != cs[j].claims.id ==> Compatible(cs[i], cs[j])
  }

  /** The entries are all the operators of a list. */
  ghost predicate FilesAll(entries: Entries, cs: seq<OperatorClaims>) {
    && (forall i :: 0 <= i < |cs| ==> FiledIn(entries, cs[i]))
    && (forall k :: k in entries ==> entries[k] in cs && KeyOf(entries[k]) == k)
  }

  lemma {:induction false} KeptFacts(cs: seq<OperatorClaims>, n: nat)
    requires n <= |cs|
    ensures forall i, j :: 0 <= i < j < |Kept(cs, n)| ==> Kept(cs, n)[i].claims.id != Kept(cs, n)[j].claims.id
    ensures forall i :: 0 <= i < |Kept(cs, n)| ==> Kept(cs, n)[i] in cs
    ensures forall i :: 0 <= i < n ==> HasJti(Kept(cs, n), cs[i].claims.id)
  {
    if n > 0 {
      KeptFacts(cs, n - 1);
      var before, last := Kept(cs, n - 1), cs[n - 1];
      if !HasJti(before, last.claims.id) {
        JtiAppend(before, last);
      }
    }
  }

  /** When a jti identifies its claims, acceptance is the order-free rule and the entries are all
      the operators listed. */
  lemma RegistrationIsOrderFree(cs: seq<OperatorClaims>, entries: Entries)
    requires JtiIdentifies(cs)
    ensures PairwiseCompatible(Kept(cs, |cs|)) <==> Registrable(cs)
    ensures Registrable(cs) && Files(entries, Kept(cs, |cs|)) ==> FilesAll(entries, cs)
  {
    var kept := Kept(cs, |cs|);
    KeptFacts(cs, |cs|);
    forall i | 0 <= i < |cs|
      ensures cs[i] in kept
    {
      var k :| 0 <= k < |kept| && kept[k].claims.id == cs[i].claims.id;
      assert kept[k] in cs;
    }
    OrderFree(cs, kept);
  }

  lemma OrderFree(cs: seq<OperatorClaims>, kept: seq<OperatorClaims>)
    requires forall i :: 0 <= i < |cs| ==> cs[i] in kept
    requires forall i :: 0 <= i < |kept| ==> kept[i] in cs
    requires forall i, j :: 0 <= i < j < |kept| ==> kept[i].claims.id != kept[j].claims.id
    ensures PairwiseCompatible(kept) <==> Registrable(cs)
  {
    if PairwiseCompatible(kept) {
      forall a, b | 0 <= a < |cs| && 0 <= b < |cs| && cs[a].claims.id != cs[b].claims.id
        ensures Compatible(cs[a], cs[b])
      {
        var i :| 0 <= i < |kept| && kept[i] == cs[a];
        var j :| 0 <= j < |kept| && kept[j] == cs[b];
        assert if i < j then Compatible(kept[i], kept[j]) else Compatible(kept[j], kept[i]);
      }
    }
    if Registrable(cs) {
      forall i, j | 0 <= i < j < |kept|
        ensures Compatible(kept[i], kept[j])
      {
        var a :| 0 <= a < |cs| && cs[a] == kept[i];
        var b :| 0 <= b < |cs| && cs[b] == kept[j];
        assert Compatible(cs[a], cs[b]);
      }
    }
  }

  /** With nothing shared by accident, a list is admissible exactly when it is nonempty, all
      operator tokens, and no two of its operators conflict. */
  lemma AdmissibleIffRegistrable(v: View, tokens: seq<string>)
    requires Readable(v, tokens, |tokens|) ==> JtiIdentifies(Operators(v, tokens, |tokens|))
    ensures Admissible(v, tokens) <==>
            tokens != [] && Readable(v, tokens, |tokens|) && Registrable(Operators(v, tokens, |tokens|))
  {
    if Readable(v, tokens, |tokens|) {
      RegistrationIsOrderFree(Operators(v, tokens, |tokens|), map[]);
    }
  }

  /** A permuted list is readable alike, and reads the same operators. */
  lemma SameTokensSameOperators(v: View, tokens: seq<string>, other: seq<string>)
    requires multiset(tokens) == multiset(other) && Readable(v, tokens, |tokens|)
    ensures Readable(v, other, |other|)
    ensures forall i :: 0 <= i < |other| ==> Operators(v, other, |other|)[i] in Operators(v, tokens, |tokens|)
  {
    forall i | 0 <= i < |other|
      ensures exists j :: 0 <= j < |tokens| && tokens[j] == other[i]
    {
      assert other[i] in multiset(other);
      assert other[i] in multiset(tokens);
    }
    forall i | 0 <= i < |other|
      ensures ReadOperator(v, other[i]).Some?
      ensures ReadOperator(v, other[i]).value in Operators(v, tokens, |tokens|)
    {
      var j :| 0 <= j < |tokens| && tokens[j] == other[i];
      assert Operators(v, tokens, |tokens|)[j] == ReadOperator(v, other[i]).value;
    }
  }

  /** Two lists of the same operators: the rule and the assumption carry over. */
  lemma RegistrableOfSame(cs: seq<OperatorClaims>, ds: seq<OperatorClaims>)
    requires forall i :: 0 <= i < |ds| ==> ds[i] in cs
    ensures Registrable(cs) ==> Registrable(ds)
    ensures JtiIdentifies(cs) ==> JtiIdentifies(ds)
  {
    if Registrable(cs) {
      forall a, b | 0 <= a < |ds| && 0 <= b < |ds| && ds[a].claims.id != ds[b].claims.id
        ensures Compatible(ds[a], ds[b])
      {
        var i :| 0 <= i < |cs| && cs[i] == ds[a];
        var j :| 0 <= j < |cs| && cs[j] == ds[b];
        assert Compatible(cs[i], cs[j]);
      }
    }
  }

  /** Any permutation of the tokens is accepted or refused alike, and yields the same entries. */
  lemma PermutationInvariant(v: View, tokens: seq<string>, other: seq<string>)
    requires multiset(tokens) == multiset(other) && Readable(v, tokens, |tokens|)
    requires JtiIdentifies(Operators(v, tokens, |tokens|))
    ensures Readable(v, other, |other|) && (Admissible(v, tokens) <==> Admissible(v, other))
    ensures Admissible(v, tokens) ==> RingOf(v, tokens) == RingOf(v, other)
  {
    SameTokensSameOperators(v, tokens, other);
    SameTokensSameOperators(v, other, tokens);
    SameLength(tokens, other);
    var cs, ds := Operators(v, tokens, |tokens|), Operators(v, other, |other|);
    SameRegistrations(cs, ds, RingOf(v, tokens), RingOf(v, other));
    if Admissible(v, tokens) {
      RingIsFiled(v, tokens);
      RingIsFiled(v, other);
    }
  }

  lemma SameRegistrations(cs: seq<OperatorClaims>, ds: seq<OperatorClaims>, e: Entries, f: Entries)
    requires JtiIdentifies(cs)
    requires forall i :: 0 <= i < |ds| ==> ds[i] in cs
    requires forall i :: 0 <= i < |cs| ==> cs[i] in ds
    ensures PairwiseCompatible(Kept(cs, |cs|)) <==> PairwiseCompatible(Kept(ds, |ds|))
    ensures PairwiseCompatible(Kept(cs, |cs|)) && Files(e, Kept(cs, |cs|)) && Files(f, Kept(ds, |ds|)) ==> e == f
  {
    RegistrableOfSame(cs, ds);
    RegistrableOfSame(ds, cs);
    RegistrationIsOrderFree(cs, e);
    RegistrationIsOrderFree(ds, f);
    if Registrable(cs) && Files(e, Kept(cs, |cs|)) && Files(f, Kept(ds, |ds|)) {
      SameContents(cs, ds, e, f);
    }
  }

  lemma SameLength(tokens: seq<string>, other: seq<string>)
    requires multiset(tokens) == multiset(other)
    ensures |tokens| == |other|
  {
    assert |tokens| == |multiset(tokens)| && |other| == |multiset(other)|;
  }

  lemma SameContents(cs: seq<OperatorClaims>, ds: seq<OperatorClaims>, e: Entries, f: Entries)
    requires forall i :: 0 <= i < |ds| ==> ds[i] in cs
    requires forall i :: 0 <= i < |cs| ==> cs[i] in ds
    requires FilesAll(e, cs) && FilesAll(f, ds)
    ensures e == f
  {
    forall k | k in e
      ensures k in f && f[k] == e[k]
    {
      var i :| 0 <= i < |ds| && ds[i] == e[k];
      assert FiledIn(f, ds[i]);
    }
    forall k | k in f
      ensures k in e
    {
      var i :| 0 <= i < |cs| && cs[i] == f[k];
      assert FiledIn(e, cs[i]);
    }
  }

  // ------------------------------------------------------------------
  // Exactly when the order of the tokens does not matter.
  // ------------------------------------------------------------------

  function MovedToFront(tokens: seq<string>, i: nat): (other: seq<string>)
    requires i < |tokens|
    ensures |other| == |tokens| && other[0] == tokens[i] && multiset(other) == multiset(tokens)
  {
    assert tokens == tokens[..i] + [tokens[i]] + tokens[i + 1..];
    [tokens[i]] + tokens[..i] + tokens[i + 1..]
  }

  /** The operator of the first token is always filed. */
  lemma FirstIsFiled(v: View, tokens: seq<string>)
    requires Admissible(v, tokens)
    ensures FiledIn(RingOf(v, tokens), ReadOperator(v, tokens[0]).value)
  {
    var cs := Operators(v, tokens, |tokens|);
    assert Kept(cs, 1) == [cs[0]];
    KeptGrows(cs, 1, |cs|);
    RingIsFiled(v, tokens);
    assert Kept(cs, |cs|)[0] == cs[0];
  }

  /** Two filed operators with one jti are one operator. */
  lemma FiledJtiIdentifies(v: View, tokens: seq<string>, a: OperatorClaims, b: OperatorClaims)
    requires Admissible(v, tokens) && FiledIn(RingOf(v, tokens), a) && FiledIn(RingOf(v, tokens), b)
    requires a.claims.id == b.claims.id
    ensures a == b
  {
    var cs := Operators(v, tokens, |tokens|);
    RingIsFiled(v, tokens);
    KeptFacts(cs, |cs|);
    FiledOnce(RingOf(v, tokens), Kept(cs, |cs|), a, b);
  }

  lemma FiledOnce(entries: Entries, kept: seq<OperatorClaims>, a: OperatorClaims, b: OperatorClaims)
    requires Files(entries, kept) && FiledIn(entries, a) && FiledIn(entries, b) && a.claims.id == b.claims.id
    requires forall i, j :: 0 <= i < j < |kept| ==> kept[i].claims.id != kept[j].claims.id
    ensures a == b
  {
    var i :| 0 <= i < |kept| && kept[i] == entries[KeyOf(a)];
    var j :| 0 <= j < |kept| && kept[j] == entries[KeyOf(b)];
    assert i == j;
  }

  ghost predicate SameInAnyOrder(v: View, tokens: seq<string>) {
    forall other :: multiset(other) == multiset(tokens) ==>
      Admissible(v, other) && Admissible(v, tokens) && RingOf(v, other) == RingOf(v, tokens)
  }

  /** A list that makes a keyring makes the same one in every order if and only if no two of its
      operator tokens share a jti without being alike. */
  lemma OrderIsImmaterialExactly(v: View, tokens: seq<string>)
    requires Admissible(v, tokens)
    ensures SameInAnyOrder(v, tokens) <==> JtiIdentifies(Operators(v, tokens, |tokens|))
  {
    var cs := Operators(v, tokens, |tokens|);
    if JtiIdentifies(cs) {
      forall other | multiset(other) == multiset(tokens)
        ensures Admissible(v, other) && RingOf(v, other) == RingOf(v, tokens)
      {
        PermutationInvariant(v, tokens, other);
      }
    }
    if SameInAnyOrder(v, tokens) {
      forall i, j | 0 <= i < |cs| && 0 <= j < |cs| && cs[i].claims.id == cs[j].claims.id
        ensures cs[i] == cs[j]
      {
        FirstIsFiled(v, MovedToFront(tokens, i));
        FirstIsFiled(v, MovedToFront(tokens, j));
        FiledJtiIdentifies(v, tokens, cs[i], cs[j]);
      }
    }
  }

  /** For example: of two operator tokens sharing a jti, the keyring holds whichever came first. */
  lemma SharedJtiKeepsTheFirst(v: View, first: string, second: string)
    requires ReadOperator(v, first).Some? && ReadOperator(v, second).Some?
    requires ReadOperator(v, first).value.claims.id == ReadOperator(v, second).value.claims.id
    ensures var c := ReadOperator(v, first).value;
            Admissible(v, [first, second]) && RingOf(v, [first, second]) == map[KeyOf(c) := c]
  {
    assert Readable(v, [first, second], 2);
    KeptOfTwo(Operators(v, [first, second], 2));
  }

  lemma KeptOfTwo(cs: seq<OperatorClaims>)
    requires |cs| == 2 && cs[0].claims.id == cs[1].claims.id
    ensures Kept(cs, 2) == [cs[0]] && PairwiseCompatible(Kept(cs, 2))
    ensures EntriesOf(Kept(cs, 2)) == map[KeyOf(cs[0]) := cs[0]]
  {
    assert Kept(cs, 1) == [cs[0]];
    KeepingOne(cs[0], cs[1]);
  }

  lemma KeepingOne(a: OperatorClaims, b: OperatorClaims)
    requires a.claims.id == b.claims.id
    ensures Keeping([a], b) == [a] && PairwiseCompatible([a]) && EntriesOf([a]) == map[KeyOf(a) := a]
  {
    assert [a][0].claims.id == b.claims.id;
    assert [a][..0] == [] && EntriesOf([]) == map[];
  }
}
