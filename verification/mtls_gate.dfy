/** The client-certificate middleware of index.js: a per-request decision
    that looks first for the verification result forwarded by a
    TLS-terminating proxy, then at the certificate the peer presented on
    this process's own TLS socket, and otherwise lets the request through
    without an identity. */
module MtlsGate {
  import opened Options
  import opened DistinguishedName

  newtype Byte = x: int | 0 <= x < 256

  /** The DER bytes of a certificate (`cert.raw`, a Buffer). */
  type Bytes = seq<Byte>

  /** The value the proxy puts in `x-ssl-client-verify` when it accepted the
      client's certificate. */
  const VerifySuccess: string := "SUCCESS"

  /** The three headers a TLS-terminating proxy forwards: `x-ssl-client-cert`,
      `x-ssl-client-verify` and `x-ssl-client-dn`. `None` is a header that is
      not sent. */
  datatype Headers = Headers(clientCert: Option<string>, clientVerify: Option<string>, clientDn: Option<string>)

  /** The object `tlsSocket.getPeerCertificate()` returns. The properties the
      middleware reads are modelled one by one (`None` when the property is
      missing); `otherKeys` counts the remaining own properties (validity
      dates, public key, ...), which matter only to `Object.keys(cert).length`. */
  datatype PeerCertificate = PeerCertificate(
    subject: Option<Dn>,
    issuer: Option<Dn>,
    serialNumber: Option<string>,
    fingerprint: Option<string>,
    raw: Option<Bytes>,
    otherKeys: nat)
  {
    /** `Object.keys(cert).length === 0`: the `{}` returned when the peer sent
        no certificate. */
    predicate IsEmptyObject() {
      && subject.None? && issuer.None? && serialNumber.None? && fingerprint.None?
      && raw.None? && otherKeys == 0
    }
  }

  /** The connection a request arrived on. On the plaintext listener the
      socket has no `getPeerCertificate`; on the TLS listener it returns a
      certificate object, or `null` (`None`) once the socket is destroyed. */
  datatype Transport = Plain | Tls(peer: Option<PeerCertificate>)

  /** The outcome of the certificate-decoding call the middleware makes on
      `cert.raw`: it returns, or throws an error carrying `message`. */
  datatype DecodeResult = Decoded | DecodeFailed(message: string)

  datatype Source = Proxy | Direct

  /** `req.clientCert` as the middleware attaches it. */
  datatype ClientIdentity = ClientIdentity(
    subject: Option<Dn>,
    issuer: Option<Dn>,
    serialNumber: Option<string>,
    fingerprint: Option<string>,
    verified: bool,
    source: Source)

  /** Why the middleware answered 401. */
  datatype Rejection =
    | ProxyVerificationFailed
    | NoClientCertificate
    | InvalidCertificate(details: string)

  datatype Outcome =
    | Authenticated(identity: ClientIdentity)
    | Rejected(reason: Rejection)
    | Unauthenticated

  /** The message of the TypeError thrown when the logging line reads
      `cert.subject.CN` of a certificate without a subject. */
  const SubjectReadError: string := "Cannot read properties of undefined (reading 'CN')"

  /** The `details` text of the two "authentication required" answers. */
  const AccessDenied: string := "Acesso negado - autenticação mTLS necessária"

  /** The `{error, details}` body of a 401 from the middleware. */
  function RejectionBody(r: Rejection): (string, string) {
    match r
    case ProxyVerificationFailed => ("Certificado do cliente não fornecido ou inválido", AccessDenied)
    case NoClientCertificate => ("Certificado do cliente não fornecido", AccessDenied)
    case InvalidCertificate(details) => ("Certificado do cliente inválido", details)
  }

  /** A client can tell the three rejections apart from the body alone, and
      only a decoding failure puts the thrown error's message in `details`;
      the other two carry the fixed "access denied" text. */
  lemma RejectionBodyIdentifiesReason(r1: Rejection, r2: Rejection)
    ensures RejectionBody(r1) == RejectionBody(r2) <==> r1 == r2
    ensures RejectionBody(r1).1 == (if r1.InvalidCertificate? then r1.details else AccessDenied)
  {
  }

  /** Both proxy headers are truthy: the request is judged on the proxy's
      verdict alone. */
  predicate HasProxyEvidence(h: Headers) {
    Truthy(h.clientCert) && Truthy(h.clientVerify)
  }

  /** The direct path: a certificate counts as presented only when the
      object is non-null, non-empty and has `raw`. It is then handed to the
      decoder; a thrown error, including the one from the logging line,
      becomes a 401 carrying the error's message. */
  function CheckPeerCertificate(peer: Option<PeerCertificate>, decode: Bytes -> DecodeResult): (r: Outcome)
    ensures !r.Unauthenticated?
    ensures r.Authenticated? ==> r.identity.source == Direct && r.identity.verified
  {
    if peer.None? || peer.value.IsEmptyObject() || peer.value.raw.None? then
      Rejected(NoClientCertificate)
    else
      var cert := peer.value;
      match decode(cert.raw.value)
      case DecodeFailed(message) => Rejected(InvalidCertificate(message))
      case Decoded =>
        if cert.subject.None? then
          Rejected(InvalidCertificate(SubjectReadError))
        else
          Authenticated(ClientIdentity(cert.subject, cert.issuer, cert.serialNumber,
                                       cert.fingerprint, true, Direct))
  }

  /** The middleware. Proxy headers are consulted first, then the TLS socket;
      with neither the request continues unauthenticated. */
  function Authenticate(h: Headers, t: Transport, decode: Bytes -> DecodeResult): (r: Outcome)
    ensures r.Authenticated? ==> r.identity.verified
    ensures r.Unauthenticated? <==> !HasProxyEvidence(h) && t.Plain?
    ensures r.Authenticated? ==> (r.identity.source == Proxy <==> HasProxyEvidence(h))
  {
    if HasProxyEvidence(h) then
      if h.clientVerify.value != VerifySuccess then
        Rejected(ProxyVerificationFailed)
      else
        Authenticated(ClientIdentity(Some(ParseDN(h.clientDn)), None, None, None, true, Proxy))
    else
      match t
      case Plain => Unauthenticated
      case Tls(peer) => CheckPeerCertificate(peer, decode)
  }

  /** The evidence a request offers, in the order the middleware looks for
      it: the proxy's verdict and DN header, else the certificate object of
      a TLS socket, else nothing. The value of `x-ssl-client-cert` is not part
      of it: the middleware only tests that the header is there. */
  datatype Evidence =
    | ProxyVerdict(verdict: string, dn: Option<string>)
    | PeerOnSocket(peer: Option<PeerCertificate>)
    | NoEvidence

  function EvidenceOf(h: Headers, t: Transport): (e: Evidence)
    ensures e.ProxyVerdict? <==> HasProxyEvidence(h)
    ensures e.NoEvidence? <==> !HasProxyEvidence(h) && t.Plain?
  {
    if HasProxyEvidence(h) then ProxyVerdict(h.clientVerify.value, h.clientDn)
    else match t
      case Plain => NoEvidence
      case Tls(peer) => PeerOnSocket(peer)
  }

  /** Two requests offering the same evidence get the same decision: nothing
      else about the headers or the connection is consulted, in particular
      not the content of the certificate header, nor the socket once the
      proxy headers are there. */
  lemma DecisionDependsOnlyOnEvidence(h1: Headers, t1: Transport, h2: Headers, t2: Transport,
                                      decode: Bytes -> DecodeResult)
    requires EvidenceOf(h1, t1) == EvidenceOf(h2, t2)
    ensures Authenticate(h1, t1, decode) == Authenticate(h2, t2, decode)
  {
  }

  /** A proxy verdict other than `SUCCESS` is a 401, whatever the DN header,
      the connection and its certificate say. */
  lemma ProxyRejection(h: Headers, t: Transport, decode: Bytes -> DecodeResult)
    requires HasProxyEvidence(h) && h.clientVerify.value != VerifySuccess
    ensures Authenticate(h, t, decode) == Rejected(ProxyVerificationFailed)
  {
  }

  /** A `SUCCESS` verdict authenticates with the parsed DN as subject and no
      issuer, serial number or fingerprint, on either listener and in
      preference to any certificate on the socket. */
  lemma ProxyAcceptance(h: Headers, t: Transport, decode: Bytes -> DecodeResult)
    requires HasProxyEvidence(h) && h.clientVerify.value == VerifySuccess
    ensures Authenticate(h, t, decode) ==
      Authenticated(ClientIdentity(Some(ParseDN(h.clientDn)), None, None, None, true, Proxy))
  {
  }

  /** A single proxy header (or one that is empty) is no evidence at all: the
      decision is the one taken with no proxy headers. */
  lemma OneHeaderIsNoEvidence(h: Headers, t: Transport, decode: Bytes -> DecodeResult)
    requires !HasProxyEvidence(h)
    ensures Authenticate(h, t, decode) == Authenticate(Headers(None, None, None), t, decode)
  {
  }

  /** Direct path, missing certificate: a 401 "not provided" exactly when the
      socket returns `null`, `{}` or an object without `raw`. */
  lemma DirectMissingCertificate(h: Headers, peer: Option<PeerCertificate>, decode: Bytes -> DecodeResult)
    requires !HasProxyEvidence(h)
    ensures Authenticate(h, Tls(peer), decode) == Rejected(NoClientCertificate) <==>
      peer.None? || peer.value.IsEmptyObject() || peer.value.raw.None?
  {
  }

  /** Direct path, decoder failure: a 401 carrying the decoder's message. */
  lemma DirectDecodeFailure(h: Headers, cert: PeerCertificate, decode: Bytes -> DecodeResult)
    requires !HasProxyEvidence(h)
    requires cert.raw.Some? && decode(cert.raw.value).DecodeFailed?
    ensures Authenticate(h, Tls(Some(cert)), decode) ==
      Rejected(InvalidCertificate(decode(cert.raw.value).message))
  {
  }

  /** Direct path, acceptance: the request is authenticated exactly when the
      certificate has `raw`, decodes and has a subject, and the identity then
      copies subject, issuer, serial number and fingerprint from it. */
  lemma DirectAcceptance(h: Headers, cert: PeerCertificate, decode: Bytes -> DecodeResult)
    requires !HasProxyEvidence(h)
    ensures Authenticate(h, Tls(Some(cert)), decode).Authenticated? <==>
      cert.raw.Some? && decode(cert.raw.value) == Decoded && cert.subject.Some?
    ensures Authenticate(h, Tls(Some(cert)), decode).Authenticated? ==>
      Authenticate(h, Tls(Some(cert)), decode).identity ==
        ClientIdentity(cert.subject, cert.issuer, cert.serialNumber, cert.fingerprint, true, Direct)
  {
  }

  /** If the decoding call throws for every input, no request is ever
      authenticated on the direct path. */
  lemma DirectPathNeedsDecoder(h: Headers, peer: Option<PeerCertificate>, decode: Bytes -> DecodeResult)
    requires !HasProxyEvidence(h)
    requires forall b :: decode(b).DecodeFailed?
    ensures Authenticate(h, Tls(peer), decode).Rejected?
  {
  }
}
