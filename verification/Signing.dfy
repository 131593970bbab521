/** Request signatures (sign.go) and the canonical request contexts the transports
    sign (contrib/httpauth/transport.go, contrib/grpcauth/credentials.go). */
module Signing {
  import opened Wrappers
  import opened Tokens

  const REQUEST_PREFIX := "valiss-req-v1\n"
  const DEFAULT_SKEW: int := 120 * SECOND

  function SignedPayload(lib: Lib, ts: Instant, context: string): string {
    REQUEST_PREFIX + lib.formatTime(ts) + "\n" + lib.hexSum(context)
  }

  /** The timestamp and signature a subject attaches to a request. */
  function SignRequest(lib: Lib, subject: string, now: Instant, context: string): (string, string) {
    (lib.formatTime(now), lib.b64std(lib.sign(subject, SignedPayload(lib, now, context))))
  }

  predicate VerifySignature(v: View, subject: string, timestamp: string, signature: string,
                            context: string, now: Instant, skew: int) {
    match v.lib.parseTime(timestamp)
    case None => false
    case Some(ts) =>
      if now - ts > skew || now - ts < -skew then false
      else match v.lib.unb64std(signature)
        case None => false
        case Some(sig) =>
          v.lib.role(subject) != NoKey && v.verifies(subject, SignedPayload(v.lib, ts, context), sig)
  }

  function RequestContext(method_: string, host: string, path: string, nonce: string): string {
    "http\n" + method_ + "\n" + host + "\n" + path + "\n" + nonce
  }

  function MethodContext(fullMethod: string, nonce: string): string {
    "grpc\n" + fullMethod + "\n" + nonce
  }

  /** A signed request is accepted exactly inside the symmetric window around its timestamp, which
      must be one that RFC 3339 can write. */
  lemma SignedRequestVerifies(w: World, subject: string, ts: Instant, context: string, now: Instant, skew: int)
    requires Lawful(w.lib) && w.lib.role(subject) != NoKey
    requires (subject, SignedPayload(w.lib, ts, context)) in w.signed
    ensures var (timestamp, signature) := SignRequest(w.lib, subject, ts, context);
            VerifySignature(Seen(w), subject, timestamp, signature, context, now, skew)
            <==> Renderable(ts) && ts - skew <= now <= ts + skew
  {
    assert w.lib.parseTime(w.lib.formatTime(ts)) == if Renderable(ts) then Some(ts) else None;
  }

  /** Exactly which request signatures are accepted: a timestamp that reads, no further than the skew from the
      clock, and a key's signature over that instant and the context. */
  lemma SignatureVerifiesExactly(v: View, subject: string, timestamp: string, signature: string, context: string,
                                 now: Instant, skew: int)
    ensures VerifySignature(v, subject, timestamp, signature, context, now, skew) <==>
            var ts, sig := v.lib.parseTime(timestamp), v.lib.unb64std(signature);
            && ts.Some? && ts.value - skew <= now <= ts.value + skew
            && sig.Some? && v.lib.role(subject) != NoKey
            && v.verifies(subject,
                          "valiss-req-v1\n" + v.lib.formatTime(ts.value) + "\n" + v.lib.hexSum(context), sig.value)
  {
  }

  /** Equal signed bytes mean an equal instant and an equal context hash. */
  lemma PayloadUnambiguous(lib: Lib, t1: Instant, c1: string, t2: Instant, c2: string)
    requires Lawful(lib) && SignedPayload(lib, t1, c1) == SignedPayload(lib, t2, c2)
    ensures t1 == t2 && lib.hexSum(c1) == lib.hexSum(c2)
  {
    var a, b := lib.formatTime(t1), lib.formatTime(t2);
    var p, q := SignedPayload(lib, t1, c1), SignedPayload(lib, t2, c2);
    assert p[|REQUEST_PREFIX|..] == a + "\n" + lib.hexSum(c1);
    assert q[|REQUEST_PREFIX|..] == b + "\n" + lib.hexSum(c2);
    Cut(a, lib.hexSum(c1), b, lib.hexSum(c2), '\n');
    assert lib.formatTime(t1) == lib.formatTime(t2);
  }

  lemma RequestContextUnambiguous(m1: string, h1: string, p1: string, n1: string,
                                  m2: string, h2: string, p2: string, n2: string)
    requires '\n' !in m1 && '\n' !in h1 && '\n' !in p1
    requires '\n' !in m2 && '\n' !in h2 && '\n' !in p2
    requires RequestContext(m1, h1, p1, n1) == RequestContext(m2, h2, p2, n2)
    ensures m1 == m2 && h1 == h2 && p1 == p2 && n1 == n2
  {
    var r1, r2 := p1 + "\n" + n1, p2 + "\n" + n2;
    var s1, s2 := h1 + "\n" + r1, h2 + "\n" + r2;
    assert RequestContext(m1, h1, p1, n1) == "http" + "\n" + (m1 + "\n" + s1);
    assert RequestContext(m2, h2, p2, n2) == "http" + "\n" + (m2 + "\n" + s2);
    Cut("http", m1 + "\n" + s1, "http", m2 + "\n" + s2, '\n');
    Cut(m1, s1, m2, s2, '\n');
    Cut(h1, r1, h2, r2, '\n');
    Cut(p1, n1, p2, n2, '\n');
  }

  lemma MethodContextUnambiguous(f1: string, n1: string, f2: string, n2: string)
    requires '\n' !in f1 && '\n' !in f2
    requires MethodContext(f1, n1) == MethodContext(f2, n2)
    ensures f1 == f2 && n1 == n2
  {
    assert MethodContext(f1, n1) == "grpc" + "\n" + (f1 + "\n" + n1);
    assert MethodContext(f2, n2) == "grpc" + "\n" + (f2 + "\n" + n2);
    Cut("grpc", f1 + "\n" + n1, "grpc", f2 + "\n" + n2, '\n');
    Cut(f1, n1, f2, n2, '\n');
  }

  /** No HTTP context is a gRPC context, whatever the fields hold. */
  lemma ContextsDisjoint(m: string, h: string, p: string, n: string, f: string, k: string)
    ensures RequestContext(m, h, p, n) != MethodContext(f, k)
  {
    assert RequestContext(m, h, p, n)[0] == 'h' && MethodContext(f, k)[0] == 'g';
  }

  /** The destination and nonce a signature is bound to. */
  datatype Operation = Http(verb: string, host: string, path: string, nonce: string)
                     | Grpc(fullMethod: string, nonce: string)
  {
    function Context(): string {
      match this
      case Http(m, h, p, n) => RequestContext(m, h, p, n)
      case Grpc(f, n) => MethodContext(f, n)
    }

    predicate SingleLine() {
      match this
      case Http(m, h, p, _) => '\n' !in m && '\n' !in h && '\n' !in p
      case Grpc(f, _) => '\n' !in f
    }
  }

  /** Signed request bytes pin the instant and the whole operation, nonce included; two operations
      can share them only through two different contexts with one SHA-256. */
  lemma SignedBytesPinTheRequest(lib: Lib, t1: Instant, o1: Operation, t2: Instant, o2: Operation)
    requires Lawful(lib) && o1.SingleLine() && o2.SingleLine()
    requires SignedPayload(lib, t1, o1.Context()) == SignedPayload(lib, t2, o2.Context())
    ensures t1 == t2
    ensures o1 == o2 || (o1.Context() != o2.Context() && lib.hexSum(o1.Context()) == lib.hexSum(o2.Context()))
  {
    PayloadUnambiguous(lib, t1, o1.Context(), t2, o2.Context());
    if o1.Context() == o2.Context() {
      match (o1, o2)
      case (Http(m1, h1, p1, n1), Http(m2, h2, p2, n2)) =>
        RequestContextUnambiguous(m1, h1, p1, n1, m2, h2, p2, n2);
      case (Grpc(f1, n1), Grpc(f2, n2)) =>
        MethodContextUnambiguous(f1, n1, f2, n2);
      case (Http(m, h, p, n), Grpc(f, k)) =>
        ContextsDisjoint(m, h, p, n, f, k);
      case (Grpc(f, k), Http(m, h, p, n)) =>
        ContextsDisjoint(m, h, p, n, f, k);
    }
  }

  /** Request signatures and minted tokens never cover the same bytes. */
  lemma PayloadIsNotMinted(lib: Lib, ts: Instant, context: string, c: Wire)
    requires Lawful(lib)
    ensures SignedPayload(lib, ts, context) != SigningInput(lib, c)
  {
    assert SignedPayload(lib, ts, context)[|REQUEST_PREFIX| - 1] == '\n';
    var h, p := lib.b64(TOKEN_HEADER), lib.b64(lib.marshal(c));
    assert '\n' !in h && '\n' !in p;
    assert '\n' !in SigningInput(lib, c);
  }

  /** In the payload as in the timestamp, a colon comes before any dot. */
  lemma PayloadIsColonFirst(lib: Lib, ts: Instant, context: string)
    requires Lawful(lib)
    ensures ColonFirst(SignedPayload(lib, ts, context))
  {
    var payload, time := SignedPayload(lib, ts, context), lib.formatTime(ts);
    assert ColonFirst(time);
    var i :| 0 <= i < |time| && time[i] == ':' && '.' !in time[..i];
    var at := |REQUEST_PREFIX| + i;
    assert payload[at] == ':';
    assert payload[..at] == REQUEST_PREFIX + time[..i];
    assert '.' !in REQUEST_PREFIX;
  }

  /** Base64 text holds no colon, so a token's signed bytes have none before their dot. */
  lemma ColonFirstIsNoToken(w: World, token: string)
    requires Lawful(w.lib) && ColonFirst(InputOf(token))
    ensures DecodeToken(w, token).None?
  {
    var parts, input := Split(token), InputOf(token);
    if |parts| == 3 {
      var i :| 0 <= i < |input| && input[i] == ':' && '.' !in input[..i];
      assert input[|parts[0]|] == '.';
      assert forall k :: 0 <= k < i ==> input[..i][k] == input[k];
      assert i < |parts[0]|;
      assert parts[0][i] == ':';
    }
  }

  /** No token at all, minted or forged, decodes on the strength of a request signature. */
  lemma PayloadIsNoToken(w: World, token: string, ts: Instant, context: string)
    requires Lawful(w.lib)
    requires InputOf(token) == SignedPayload(w.lib, ts, context)
    ensures DecodeToken(w, token).None?
  {
    PayloadIsColonFirst(w.lib, ts, context);
    ColonFirstIsNoToken(w, token);
  }
}
