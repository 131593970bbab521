/** Exactly which lists of tokens make a keyring, and which one (keyring.go), said of the decoded documents. */
module KeyringRules {
  import opened Wrappers
  import opened Tokens
  import opened Keyrings
  import opened MessageRules

  /** An operator token signed by the operator it names. */
  predicate IsOperatorToken(v: View, token: string) {
    IsDocument(v, token, "operator", OperatorRole) && IsSelfSigned(DocOf(v, token))
  }

  /** The name an operator goes by: its own, or its key. */
  function DisplayName(c: Wire): string {
    if c.name == "" then c.subject else c.name
  }

  /** Two operator tokens that may stand side by side: not for one epoch of one operator, and of one name exactly
      when of one operator. */
  predicate Agree(a: Wire, b: Wire) {
    && !(a.subject == b.subject && a.body.epoch == b.body.epoch)
    && (DisplayName(a) == DisplayName(b) <==> a.subject == b.subject)
  }

  lemma ReadsExactly(v: View, token: string)
    ensures ReadOperator(v, token).Some? <==> IsOperatorToken(v, token)
    ensures IsOperatorToken(v, token) ==> ReadOperator(v, token) == Some(OperatorOf(DocOf(v, token)))
  {
  }

  lemma AgreesExactly(a: Wire, b: Wire)
    ensures Compatible(OperatorOf(a), OperatorOf(b)) <==> Agree(a, b)
  {
  }

  /** Two operator tokens under one jti, or that agree. */
  predicate MayJoin(v: View, s: string, t: string) {
    && IsOperatorToken(v, s) && IsOperatorToken(v, t)
    && (DocOf(v, s).id != DocOf(v, t).id ==> Agree(DocOf(v, s), DocOf(v, t)))
  }

  predicate AllJoin(v: View, tokens: seq<string>) {
    forall i, j :: 0 <= i < |tokens| && 0 <= j < |tokens| ==> MayJoin(v, tokens[i], tokens[j])
  }

  lemma OperatorsAreRead(v: View, tokens: seq<string>)
    ensures Readable(v, tokens, |tokens|) <==> forall i :: 0 <= i < |tokens| ==> IsOperatorToken(v, tokens[i])
    ensures Readable(v, tokens, |tokens|) ==>
              forall i :: 0 <= i < |tokens| ==> Operators(v, tokens, |tokens|)[i] == OperatorOf(DocOf(v, tokens[i]))
  {
    forall i | 0 <= i < |tokens|
      ensures ReadOperator(v, tokens[i]).Some? <==> IsOperatorToken(v, tokens[i])
      ensures IsOperatorToken(v, tokens[i]) ==> ReadOperator(v, tokens[i]) == Some(OperatorOf(DocOf(v, tokens[i])))
    {
      ReadsExactly(v, tokens[i]);
    }
  }

  lemma RegistrableExactly(v: View, tokens: seq<string>)
    requires Readable(v, tokens, |tokens|) && forall i :: 0 <= i < |tokens| ==> IsOperatorToken(v, tokens[i])
    ensures Registrable(Operators(v, tokens, |tokens|)) <==> AllJoin(v, tokens)
  {
    var cs := Operators(v, tokens, |tokens|);
    OperatorsAreRead(v, tokens);
    forall i, j | 0 <= i < |cs| && 0 <= j < |cs|
      ensures Compatible(cs[i], cs[j]) <==> Agree(DocOf(v, tokens[i]), DocOf(v, tokens[j]))
      ensures cs[i].claims.id == DocOf(v, tokens[i]).id
    {
      AgreesExactly(DocOf(v, tokens[i]), DocOf(v, tokens[j]));
    }
  }

  /** When a jti identifies its claims, a list makes a keyring exactly when it is not empty, holds operator tokens
      only, and any two of different jti agree; the keyring then has an entry for every token, under its operator
      and epoch, and no other. */
  lemma KeyringExactly(v: View, tokens: seq<string>)
    requires Readable(v, tokens, |tokens|) ==> JtiIdentifies(Operators(v, tokens, |tokens|))
    ensures Admissible(v, tokens) <==> tokens != [] && AllJoin(v, tokens)
    ensures Admissible(v, tokens) ==>
              && (forall i :: 0 <= i < |tokens| ==> HasEntry(v, RingOf(v, tokens), tokens[i]))
              && (forall k :: k in RingOf(v, tokens) ==> exists i :: 0 <= i < |tokens| && IsFor(v, tokens[i], k))
  {
    OperatorsAreRead(v, tokens);
    AdmissibleIffRegistrable(v, tokens);
    if Readable(v, tokens, |tokens|) {
      RegistrableExactly(v, tokens);
      if Admissible(v, tokens) {
        EntriesExactly(v, tokens);
      }
    }
  }

  /** The keyring holds what the document says, under the operator and epoch it names. */
  predicate HasEntry(v: View, entries: Entries, token: string) {
    && v.decode(token).Some?
    && var k := RingKey(DocOf(v, token).subject, DocOf(v, token).body.epoch);
       k in entries && entries[k] == OperatorOf(DocOf(v, token))
  }

  predicate IsFor(v: View, token: string, k: RingKey) {
    v.decode(token).Some? && DocOf(v, token).subject == k.operator && DocOf(v, token).body.epoch == k.epoch
  }

  lemma EntriesExactly(v: View, tokens: seq<string>)
    requires Admissible(v, tokens) && JtiIdentifies(Operators(v, tokens, |tokens|))
    ensures forall i :: 0 <= i < |tokens| ==> HasEntry(v, RingOf(v, tokens), tokens[i])
    ensures forall k :: k in RingOf(v, tokens) ==> exists i :: 0 <= i < |tokens| && IsFor(v, tokens[i], k)
  {
    var cs, ring := Operators(v, tokens, |tokens|), RingOf(v, tokens);
    RingIsFiled(v, tokens);
    RegistrationIsOrderFree(cs, ring);
    OperatorsAreRead(v, tokens);
    forall i | 0 <= i < |tokens|
      ensures HasEntry(v, ring, tokens[i])
    {
      assert FiledIn(ring, cs[i]);
    }
    forall k | k in ring
      ensures exists i :: 0 <= i < |tokens| && IsFor(v, tokens[i], k)
    {
      var i :| 0 <= i < |cs| && cs[i] == ring[k];
      assert IsFor(v, tokens[i], k);
    }
  }
}
