/** Signed tokens (claims.go, token.go): the wire document, decoding with the
    self-signature check, and the level-specific verifications.

    What the Go code takes from libraries (base64, JSON, nkeys, SHA-256, RFC 3339
    times) is a record of functions, `Lib`. The verification side works for every
    such record; the results about minted tokens ask for the laws in `Lawful`. */
module Tokens {
  import opened Wrappers

  /** Nanoseconds since the Unix epoch. */
  type Instant = int

  const SECOND: int := 1_000_000_000

  /** Go's zero time.Time, 1 January of year 1: the value that means "absent". */
  const ZERO_TIME: Instant := -62_135_596_800 * SECOND

  const TOKEN_HEADER := "{\"typ\":\"JWT\",\"alg\":\"ed25519-nkey\",\"ver\":1}"
  const WIRE_VERSION := 1

  /** The role an nkey prefix gives a public key; `NoKey` for text that is not a key. */
  datatype Role = OperatorRole | AccountRole | UserRole | OtherRole | NoKey

  datatype Header = Header(typ: string, alg: string, ver: int)
  datatype Chain = Chain(account: string, user: string)
  type Extensions = map<string, string>

  /** The valiss section, as the union of the four levels' fields. */
  datatype Body = Body(typ: string, epoch: nat, bearer: bool, checksum: string,
                       chain: Option<Chain>, ext: Extensions)

  /** The claims document; absent fields hold their zero value. */
  datatype Wire = Wire(id: string, issuedAt: int, issuer: string, name: string, subject: string,
                       audience: string, expires: int, notBefore: int, body: Body)

  const OPERATOR_TYPE := "operator"
  const ACCOUNT_TYPE := "account"
  const USER_TYPE := "user"
  const MESSAGE_TYPE := "message"

  datatype Lib = Lib(
    b64: string -> string,
    unb64: string -> Option<string>,
    b64std: string -> string,
    unb64std: string -> Option<string>,
    readHeader: string -> Option<Header>,
    marshal: Wire -> string,
    unmarshal: string -> Option<Wire>,
    jti: string -> string,
    hexSum: string -> string,
    role: string -> Role,
    fromSeed: string -> Option<string>,
    sign: (string, string) -> string,
    formatTime: Instant -> string,
    parseTime: string -> Option<Instant>,
    generation: string -> Option<nat>)

  /** In every rendered timestamp a colon comes before any dot. */
  predicate ColonFirst(s: string) {
    exists i :: 0 <= i < |s| && s[i] == ':' && '.' !in s[..i]
  }

  /** The years 0 to 9999, which RFC 3339 can write with four digits. */
  predicate Renderable(t: Instant) {
    -62_167_219_200 * SECOND <= t < 253_402_300_800 * SECOND
  }

  /** What the codecs promise. Hashes promise nothing: results name the hashes they compare. */
  ghost predicate Lawful(lib: Lib) {
    && (forall s :: lib.unb64(lib.b64(s)) == Some(s))
    && (forall s :: '.' !in lib.b64(s) && '\n' !in lib.b64(s))
    && (forall s :: lib.unb64(s).Some? ==> ':' !in s)
    && (forall s :: lib.unb64std(lib.b64std(s)) == Some(s))
    && lib.readHeader(TOKEN_HEADER) == Some(Header("JWT", "ed25519-nkey", WIRE_VERSION))
    && (forall c :: lib.unmarshal(lib.marshal(c)) == Some(c))
    && (forall t :: lib.parseTime(lib.formatTime(t)) == if Renderable(t) then Some(t) else None)
    && (forall t, u :: lib.formatTime(t) == lib.formatTime(u) ==> t == u)
    && (forall t :: '\n' !in lib.formatTime(t) && ColonFirst(lib.formatTime(t)))
  }

  /** Ideal signatures: `signed` holds every (public key, bytes) pair signed so far, and a key
      verifies exactly those bytes under exactly the signature it made. */
  datatype World = World(lib: Lib, signed: set<(string, string)>) {
    predicate Verifies(key: string, bytes: string, sig: string) {
      (key, bytes) in signed && sig == lib.sign(key, bytes)
    }

    ghost predicate Extends(earlier: World) {
      lib == earlier.lib && earlier.signed <= signed
    }
  }

  /** Cutting at the first separator is unambiguous. */
  lemma Cut(a: string, x: string, b: string, y: string, sep: char)
    requires sep !in a && sep !in b && a + [sep] + x == b + [sep] + y
    ensures a == b && x == y
  {
    var s := a + [sep] + x;
    assert s[|a|] == sep && s[|b|] == sep;
    assert forall k :: 0 <= k < |a| ==> s[k] == a[k];
    assert forall k :: 0 <= k < |b| ==> s[k] == b[k];
    assert |a| == |b|;
    assert a == s[..|a|] && b == s[..|b|];
    assert x == s[|a| + 1..] && y == s[|b| + 1..];
  }

  /** strings.Split(s, "."). */
  function Split(s: string): (parts: seq<string>)
    ensures |parts| >= 1
  {
    if s == "" then [""]
    else
      var rest := Split(s[1..]);
      if s[0] == '.' then [""] + rest else [[s[0]] + rest[0]] + rest[1..]
  }

  lemma {:induction false} SplitHead(a: string, rest: string)
    requires '.' !in a
    ensures Split(a) == [a]
    ensures Split(a + "." + rest) == [a] + Split(rest)
  {
    if a == "" {
      assert a + "." + rest == "." + rest;
    } else {
      SplitHead(a[1..], rest);
      assert [a[0]] + a[1..] == a;
      assert (a + "." + rest)[1..] == a[1..] + "." + rest;
    }
  }

  /** The version and the three JWS segments of a token with the expected envelope. */
  function PeekVersion(lib: Lib, token: string): Option<(int, seq<string>)> {
    var parts := Split(token);
    if |parts| != 3 then None
    else match lib.unb64(parts[0])
      case None => None
      case Some(raw) =>
        match lib.readHeader(raw)
        case None => None
        case Some(h) =>
          if h.typ != "JWT" || h.alg != "ed25519-nkey" then None else Some((h.ver, parts))
  }

  function DecodeV1(w: World, header: string, payload: string, signature: string): Option<Wire> {
    match w.lib.unb64(payload)
    case None => None
    case Some(raw) =>
      match w.lib.unmarshal(raw)
      case None => None
      case Some(c) =>
        if w.lib.role(c.issuer) == NoKey then None
        else match w.lib.unb64(signature)
          case None => None
          case Some(sig) =>
            if w.Verifies(c.issuer, header + "." + payload, sig) then Some(c) else None
  }

  function DecodeToken(w: World, token: string): Option<Wire> {
    match PeekVersion(w.lib, token)
    case None => None
    case Some((ver, parts)) =>
      if ver == WIRE_VERSION && |parts| == 3 then DecodeV1(w, parts[0], parts[1], parts[2]) else None
  }

  /** The bytes an issuer signs for a claims document, and the token they become. */
  function SigningInput(lib: Lib, c: Wire): string {
    lib.b64(TOKEN_HEADER) + "." + lib.b64(lib.marshal(c))
  }

  function Assemble(lib: Lib, c: Wire): string {
    SigningInput(lib, c) + "." + lib.b64(lib.sign(c.issuer, SigningInput(lib, c)))
  }

  lemma SplitThree(h: string, p: string, s: string)
    requires '.' !in h && '.' !in p && '.' !in s
    ensures Split(h + "." + p + "." + s) == [h, p, s]
  {
    assert h + "." + p + "." + s == h + "." + (p + "." + s);
    SplitHead(h, p + "." + s);
    SplitHead(p, s);
    SplitHead(s, "");
  }

  lemma SplitAssembled(lib: Lib, c: Wire)
    requires Lawful(lib)
    ensures Split(Assemble(lib, c)) ==
            [lib.b64(TOKEN_HEADER), lib.b64(lib.marshal(c)), lib.b64(lib.sign(c.issuer, SigningInput(lib, c)))]
  {
    SplitThree(lib.b64(TOKEN_HEADER), lib.b64(lib.marshal(c)), lib.b64(lib.sign(c.issuer, SigningInput(lib, c))));
  }

  /** A token decodes to the claims it was assembled from exactly when its issuer is a key that
      signed them: nothing is lost or altered on the wire. */
  lemma DecodeAssembled(w: World, c: Wire)
    requires Lawful(w.lib)
    ensures DecodeToken(w, Assemble(w.lib, c)) ==
            if w.lib.role(c.issuer) != NoKey && (c.issuer, SigningInput(w.lib, c)) in w.signed
            then Some(c) else None
  {
    SplitAssembled(w.lib, c);
    var h, p := w.lib.b64(TOKEN_HEADER), w.lib.b64(w.lib.marshal(c));
    assert w.lib.unb64(h) == Some(TOKEN_HEADER) && w.lib.unb64(p) == Some(w.lib.marshal(c));
    assert PeekVersion(w.lib, Assemble(w.lib, c)).Some?;
    assert h + "." + p == SigningInput(w.lib, c);
  }

  /** Joining the segments of a token gives it back. */
  lemma {:induction false} SplitJoins(s: string)
    ensures |Split(s)| == 1 ==> s == Split(s)[0]
    ensures |Split(s)| == 2 ==> s == Split(s)[0] + "." + Split(s)[1]
    ensures |Split(s)| == 3 ==> s == Split(s)[0] + "." + Split(s)[1] + "." + Split(s)[2]
    ensures forall k :: 0 <= k < |Split(s)| ==> '.' !in Split(s)[k]
  {
    if s != "" {
      SplitJoins(s[1..]);
    }
  }

  /** The signing input a decoded token was checked against. */
  function InputOf(token: string): string {
    var parts := Split(token);
    if |parts| == 3 then parts[0] + "." + parts[1] else ""
  }

  /** A token that decodes was signed by the issuer it names, over its own first two segments. */
  lemma DecodedWasSigned(w: World, token: string)
    requires DecodeToken(w, token).Some?
    ensures (DecodeToken(w, token).value.issuer, InputOf(token)) in w.signed
    ensures w.lib.role(DecodeToken(w, token).value.issuer) != NoKey
  {
  }

  /** If those bytes are the signing input of a document, the token decodes to that document. */
  lemma SignedInputDetermines(w: World, token: string, c: Wire)
    requires Lawful(w.lib) && DecodeToken(w, token).Some?
    requires InputOf(token) == SigningInput(w.lib, c)
    ensures DecodeToken(w, token) == Some(c)
  {
    SplitJoins(token);
    var parts := Split(token);
    var h, p := w.lib.b64(TOKEN_HEADER), w.lib.b64(w.lib.marshal(c));
    SplitHead(parts[0], parts[1]);
    SplitHead(parts[1], "");
    SplitHead(h, p);
    SplitHead(p, "");
    assert [parts[0]] + [parts[1]] == Split(h + "." + p) == [h] + [p];
    assert parts[0] == ([parts[0]] + [parts[1]])[0] && parts[1] == ([parts[0]] + [parts[1]])[1];
  }

  /** A token is three segments without dots: a header that reads as version 1, a document, and the
      signature of the document's issuer over the first two. */
  ghost predicate IsTokenFor(w: World, token: string, c: Wire) {
    exists h, p, s :: SegmentsFor(w, token, c, h, p, s)
  }

  ghost predicate SegmentsFor(w: World, token: string, c: Wire, h: string, p: string, s: string) {
    && token == h + "." + p + "." + s && '.' !in h && '.' !in p && '.' !in s
    && w.lib.unb64(h).Some? && w.lib.readHeader(w.lib.unb64(h).value) == Some(Header("JWT", "ed25519-nkey", 1))
    && w.lib.unb64(p).Some? && w.lib.unmarshal(w.lib.unb64(p).value) == Some(c)
    && w.lib.role(c.issuer) != NoKey
    && w.lib.unb64(s).Some? && w.Verifies(c.issuer, h + "." + p, w.lib.unb64(s).value)
  }

  /** Decoding accepts exactly such tokens, with exactly that document. */
  lemma DecodesExactly(w: World, token: string, c: Wire)
    ensures DecodeToken(w, token) == Some(c) <==> IsTokenFor(w, token, c)
  {
    if DecodeToken(w, token) == Some(c) {
      SplitJoins(token);
      var parts := Split(token);
      assert SegmentsFor(w, token, c, parts[0], parts[1], parts[2]);
    }
    if IsTokenFor(w, token, c) {
      var h, p, s :| SegmentsFor(w, token, c, h, p, s);
      SplitThree(h, p, s);
    }
  }

  /** More signatures never invalidate a token. */
  lemma DecodeMonotone(w: World, later: World, token: string)
    requires later.Extends(w)
    ensures DecodeToken(w, token).Some? ==> DecodeToken(later, token) == DecodeToken(w, token)
  {
  }

  /** What a verifying party can do with the signatures in existence: decode tokens and check
      request signatures. The verification functions ask for nothing else, so what is proved of
      them holds for every decoder, not only for the one above. */
  datatype View = View(lib: Lib, decode: string -> Option<Wire>, verifies: (string, string, string) -> bool) {
    /** Everything seen earlier is still seen. */
    ghost predicate Extends(earlier: View) {
      && lib == earlier.lib
      && (forall t :: earlier.decode(t).Some? ==> decode(t) == earlier.decode(t))
      && (forall k, b, s :: earlier.verifies(k, b, s) ==> verifies(k, b, s))
    }
  }

  function Seen(w: World): View {
    View(w.lib, t => DecodeToken(w, t), (k, b, s) => w.Verifies(k, b, s))
  }

  /** As signatures are added, what was verifiable stays so. */
  lemma SeenMonotone(w: World, later: World)
    requires later.Extends(w)
    ensures Seen(later).Extends(Seen(w))
  {
    forall t
      ensures DecodeToken(w, t).Some? ==> DecodeToken(later, t) == DecodeToken(w, t)
    {
      DecodeMonotone(w, later, t);
    }
  }

  /** The registered claims of a verified token; an absent time is the zero time. */
  datatype Claims = Claims(id: string, issuer: string, subject: string,
                           issuedAt: Instant, expiresAt: Instant, notBefore: Instant) {
    predicate Expired(now: Instant, skew: int) {
      expiresAt != ZERO_TIME && now > expiresAt + skew
    }

    predicate NotYetValid(now: Instant, skew: int) {
      notBefore != ZERO_TIME && now + skew < notBefore
    }

    predicate Current(now: Instant, skew: int) {
      !Expired(now, skew) && !NotYetValid(now, skew)
    }

    /** The validity window, widened by the skew on both sides. */
    predicate Window(now: Instant, skew: int) {
      && (notBefore != ZERO_TIME ==> notBefore - skew <= now)
      && (expiresAt != ZERO_TIME ==> now <= expiresAt + skew)
    }
  }

  function TimeOf(seconds: int): Instant {
    if seconds != 0 then seconds * SECOND else ZERO_TIME
  }

  function ClaimsOf(c: Wire): Claims {
    Claims(c.id, c.issuer, c.subject, TimeOf(c.issuedAt), TimeOf(c.expires), TimeOf(c.notBefore))
  }

  function NameOf(name: string, subject: string): string {
    if name != "" then name else subject
  }

  datatype OperatorClaims = OperatorClaims(claims: Claims, name: string, epoch: nat, ext: Extensions)
  datatype AccountClaims = AccountClaims(claims: Claims, name: string, epoch: nat, ext: Extensions)
  datatype UserClaims = UserClaims(claims: Claims, name: string, epoch: nat, bearer: bool, ext: Extensions)

  /** exp and nbf as whole seconds on the clock: the token may be used up to the end of the former and from
      the start of the latter, each widened by the skew. Zero, and the second of Go's zero time, mean
      absent. */
  predicate InWindow(c: Wire, at: Instant, skew: int) {
    && (c.expires == 0 || c.expires == -62_135_596_800 || at <= c.expires * 1_000_000_000 + skew)
    && (c.notBefore == 0 || c.notBefore == -62_135_596_800 || c.notBefore * 1_000_000_000 - skew <= at)
  }

  /** A time claim as an instant: absent is the zero time. */
  predicate IsTime(seconds: int, t: Instant) {
    if seconds == 0 then t == -62_135_596_800_000_000_000 else t == seconds * 1_000_000_000
  }

  /** The registered claims are read off the document one by one. */
  lemma ClaimsAreRead(c: Wire)
    ensures var r := ClaimsOf(c);
            && r.id == c.id && r.issuer == c.issuer && r.subject == c.subject
            && IsTime(c.issuedAt, r.issuedAt) && IsTime(c.expires, r.expiresAt) && IsTime(c.notBefore, r.notBefore)
  {
  }

  /** The checks on the claims are that window. */
  lemma WindowInSeconds(c: Wire, at: Instant, skew: int)
    ensures ClaimsOf(c).Current(at, skew) <==> InWindow(c, at, skew)
    ensures ClaimsOf(c).Window(at, skew) <==> InWindow(c, at, skew)
  {
  }

  /** What each level's verification reads off a document it accepts. */
  function OperatorOf(c: Wire): OperatorClaims {
    OperatorClaims(ClaimsOf(c), NameOf(c.name, c.subject), c.body.epoch, c.body.ext)
  }

  function AccountOf(c: Wire): AccountClaims {
    AccountClaims(ClaimsOf(c), NameOf(c.name, c.subject), c.body.epoch, c.body.ext)
  }

  function UserOf(c: Wire): UserClaims {
    UserClaims(ClaimsOf(c), NameOf(c.name, c.subject), c.body.epoch, c.body.bearer, c.body.ext)
  }

  function VerifyOperator(v: View, token: string, operatorKey: string): Option<OperatorClaims> {
    match v.decode(token)
    case None => None
    case Some(c) =>
      if c.body.typ != OPERATOR_TYPE then None
      else if c.issuer != operatorKey || c.subject != operatorKey then None
      else if v.lib.role(c.subject) != OperatorRole then None
      else Some(OperatorOf(c))
  }

  function VerifyAccount(v: View, token: string, operatorKey: string): Option<AccountClaims> {
    match v.decode(token)
    case None => None
    case Some(c) =>
      if c.body.typ != ACCOUNT_TYPE then None
      else if c.issuer != operatorKey then None
      else if v.lib.role(c.subject) != AccountRole then None
      else Some(AccountOf(c))
  }

  function VerifyUser(v: View, token: string, accountKey: string): Option<UserClaims> {
    match v.decode(token)
    case None => None
    case Some(c) =>
      if c.body.typ != USER_TYPE then None
      else if c.issuer != accountKey then None
      else if v.lib.role(c.subject) != UserRole then None
      else Some(UserOf(c))
  }

  function IssuerOf(v: View, token: string): Option<string> {
    match v.decode(token)
    case None => None
    case Some(c) => Some(c.issuer)
  }
}
