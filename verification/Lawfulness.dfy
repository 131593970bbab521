/** The laws asked of the codecs can hold together: a record of functions that meets them all,
    so that the results resting on `Lawful` speak of something. */
module Lawfulness {
  import opened Wrappers
  import opened Tokens

  ghost predicate Injective<T(!new)>(f: T -> string) {
    forall x, y :: f(x) == f(y) ==> x == y
  }

  ghost predicate Encodes<T(!new)>(f: T -> string, x: T, s: string) {
    f(x) == s
  }

  /** Decoding by search: the value that encodes to a text, if there is one. */
  ghost function Undo<T(!new)>(f: T -> string, s: string): Option<T> {
    if exists x :: Encodes(f, x, s) then
      var x :| Encodes(f, x, s);
      Some(x)
    else None
  }

  function Ones(n: nat): (s: string)
    ensures |s| == n && forall i :: 0 <= i < n ==> s[i] == '1'
  {
    seq(n, i => '1')
  }

  function Number(n: int): string {
    if n >= 0 then Ones(n) else "0" + Ones(-n)
  }

  lemma NumberShape(n: int)
    ensures n < 0 <==> Number(n) != "" && Number(n)[0] == '0'
    ensures |Number(n)| == if n < 0 then 1 - n else n
  {
  }

  lemma NumberIsInjective(m: int, n: int)
    requires Number(m) == Number(n)
    ensures m == n
  {
    NumberShape(m);
    NumberShape(n);
  }

  /** Text in two characters: each character's code in ones, ended by a zero. */
  function Text(s: string): (t: string)
    ensures forall i :: 0 <= i < |t| ==> t[i] == '0' || t[i] == '1'
  {
    if s == "" then "" else Ones(s[0] as int) + "0" + Text(s[1..])
  }

  lemma {:induction false} TextIsInjective(x: string, y: string)
    requires Text(x) == Text(y)
    ensures x == y
  {
    if x != "" && y != "" {
      Cut(Ones(x[0] as int), Text(x[1..]), Ones(y[0] as int), Text(y[1..]), '0');
      assert x[0] as int == |Ones(x[0] as int)| == y[0] as int;
      TextIsInjective(x[1..], y[1..]);
      assert x == [x[0]] + x[1..] && y == [y[0]] + y[1..];
    }
  }

  /** A list of texts. */
  function Pack(ss: seq<string>): string {
    if ss == [] then "" else Text(ss[0]) + "2" + Pack(ss[1..])
  }

  lemma {:induction false} PackIsInjective(xs: seq<string>, ys: seq<string>)
    requires Pack(xs) == Pack(ys)
    ensures xs == ys
  {
    if xs != [] && ys != [] {
      Cut(Text(xs[0]), Pack(xs[1..]), Text(ys[0]), Pack(ys[1..]), '2');
      TextIsInjective(xs[0], ys[0]);
      PackIsInjective(xs[1..], ys[1..]);
      assert xs == [xs[0]] + xs[1..] && ys == [ys[0]] + ys[1..];
    }
  }

  /** Extensions as a list of names and values, in some order. */
  function MapOf(ss: seq<string>): Extensions {
    if |ss| < 2 then map[] else MapOf(ss[2..])[ss[0] := ss[1]]
  }

  lemma {:induction false} SomeListing(m: Extensions)
    ensures exists ss :: MapOf(ss) == m
    decreases |m|
  {
    if m == map[] {
      assert MapOf([]) == m;
    } else {
      var k :| k in m;
      SomeListing(m - {k});
      var ss :| MapOf(ss) == m - {k};
      assert ([k, m[k]] + ss)[2..] == ss;
      assert MapOf([k, m[k]] + ss) == m;
    }
  }

  ghost function Listing(m: Extensions): (ss: seq<string>)
    ensures MapOf(ss) == m
  {
    SomeListing(m);
    var ss :| MapOf(ss) == m;
    ss
  }

  function ChainFields(c: Option<Chain>): seq<string> {
    match c
    case None => ["", "", ""]
    case Some(Chain(a, u)) => ["1", a, u]
  }

  function HeadFields(c: Wire): seq<string> {
    [c.id, Number(c.issuedAt), c.issuer, c.name, c.subject, c.audience, Number(c.expires), Number(c.notBefore)]
  }

  function BodyFields(b: Body): seq<string> {
    [b.typ, Number(b.epoch), if b.bearer then "1" else "", b.checksum]
  }

  ghost function Marshal(c: Wire): string {
    Pack(HeadFields(c) + BodyFields(c.body) + ChainFields(c.body.chain) + Listing(c.body.ext))
  }

  lemma HeadFieldsAreInjective(x: Wire, y: Wire)
    requires HeadFields(x) == HeadFields(y)
    ensures x == y.(body := x.body)
  {
    var a, b := HeadFields(x), HeadFields(y);
    assert a[0] == b[0] && a[2] == b[2] && a[3] == b[3] && a[4] == b[4] && a[5] == b[5];
    assert a[1] == b[1] && a[6] == b[6] && a[7] == b[7];
    NumberIsInjective(x.issuedAt, y.issuedAt);
    NumberIsInjective(x.expires, y.expires);
    NumberIsInjective(x.notBefore, y.notBefore);
  }

  lemma BodyIsInjective(p: Body, q: Body)
    requires BodyFields(p) == BodyFields(q) && ChainFields(p.chain) == ChainFields(q.chain)
    requires Listing(p.ext) == Listing(q.ext)
    ensures p == q
  {
    var a, b := BodyFields(p), BodyFields(q);
    assert a[0] == b[0] && a[1] == b[1] && a[2] == b[2] && a[3] == b[3];
    NumberIsInjective(p.epoch, q.epoch);
    var c, d := ChainFields(p.chain), ChainFields(q.chain);
    assert c[0] == d[0] && c[1] == d[1] && c[2] == d[2];
    assert p.ext == MapOf(Listing(p.ext)) == q.ext;
  }

  lemma MarshalIsInjective(x: Wire, y: Wire)
    requires Marshal(x) == Marshal(y)
    ensures x == y
  {
    var p, q := x.body, y.body;
    PackIsInjective(HeadFields(x) + BodyFields(p) + ChainFields(p.chain) + Listing(p.ext),
                    HeadFields(y) + BodyFields(q) + ChainFields(q.chain) + Listing(q.ext));
    Split4(HeadFields(x), BodyFields(p), ChainFields(p.chain), Listing(p.ext),
           HeadFields(y), BodyFields(q), ChainFields(q.chain), Listing(q.ext));
    HeadFieldsAreInjective(x, y);
    BodyIsInjective(p, q);
  }

  lemma Split4(a: seq<string>, b: seq<string>, c: seq<string>, d: seq<string>,
               e: seq<string>, f: seq<string>, g: seq<string>, h: seq<string>)
    requires |a| == |e| && |b| == |f| && |c| == |g| && a + b + c + d == e + f + g + h
    ensures a == e && b == f && c == g && d == h
  {
    var s := a + b + c + d;
    assert a == s[..|a|] == e;
    assert b == s[|a|..|a| + |b|] == f;
    assert c == s[|a| + |b|..|a| + |b| + |c|] == g;
    assert d == s[|a| + |b| + |c|..] == h;
  }

  function Stamp(t: Instant): string {
    ":" + Number(t)
  }

  lemma StampIsInjective(t: Instant, u: Instant)
    requires Stamp(t) == Stamp(u)
    ensures t == u
  {
    assert Stamp(t)[1..] == Number(t) && Stamp(u)[1..] == Number(u);
    NumberIsInjective(t, u);
  }

  function Readable(t: Option<Instant>): Option<Instant> {
    if t.Some? && Renderable(t.value) then t else None
  }

  lemma UndoWorks<T(!new)>(f: T -> string)
    requires Injective(f)
    ensures forall x :: Undo(f, f(x)) == Some(x)
  {
    forall x
      ensures Undo(f, f(x)) == Some(x)
    {
      assert Encodes(f, x, f(x));
    }
  }

  ghost function Witness(): Lib {
    Lib(Text, s => Undo(Text, s), Text, s => Undo(Text, s),
        s => Some(Header("JWT", "ed25519-nkey", WIRE_VERSION)),
        Marshal, s => Undo(Marshal, s), s => "", s => "", s => OtherRole, s => None, (k, b) => "",
        Stamp, s => Readable(Undo(Stamp, s)), s => None)
  }

  lemma CodecsAreInjective()
    ensures Injective(Text) && Injective(Marshal) && Injective(Stamp)
  {
    forall x, y | Text(x) == Text(y)
      ensures x == y
    {
      TextIsInjective(x, y);
    }
    forall x, y | Marshal(x) == Marshal(y)
      ensures x == y
    {
      MarshalIsInjective(x, y);
    }
    forall x, y | Stamp(x) == Stamp(y)
      ensures x == y
    {
      StampIsInjective(x, y);
    }
  }

  lemma LawsCanHold()
    ensures exists lib :: Lawful(lib)
  {
    CodecsAreInjective();
    UndoWorks(Text);
    UndoWorks(Marshal);
    UndoWorks(Stamp);
    forall t
      ensures '\n' !in Stamp(t) && ColonFirst(Stamp(t))
    {
      assert Stamp(t)[0] == ':' && '.' !in Stamp(t)[..0];
    }
    assert Lawful(Witness());
  }
}
