/** The stricter middleware of mtls-example.js, written for a server whose
    only listener is TLS with client certificates required: every request
    must carry a certificate object with `raw`, and there is no
    unauthenticated pass-through and no proxy path. */
module ExampleGate {
  import opened Options
  import opened DistinguishedName
  import opened MtlsGate

  /** `req.clientCert` as this middleware attaches it: the four certificate
      properties, without `verified` or `source`. */
  datatype ExampleIdentity = ExampleIdentity(
    subject: Option<Dn>,
    issuer: Option<Dn>,
    serialNumber: Option<string>,
    fingerprint: Option<string>)

  /** The two 401 answers: "não fornecido" and "inválido". */
  datatype ExampleRejection = CertificateNotProvided | CertificateInvalid

  datatype ExampleOutcome =
    | Admitted(identity: ExampleIdentity)
    | Refused(reason: ExampleRejection)
      // the logging line reads `subject.CN` outside any try block; the
      // TypeError escapes the middleware and Express answers 500
    | UncaughtError

  /** The middleware, on the certificate object of the request's socket. */
  function Check(peer: Option<PeerCertificate>): (r: ExampleOutcome)
    ensures r.Admitted? ==> r.identity.subject.Some?
    ensures r.Refused? <==> peer.None? || peer.value.IsEmptyObject() || peer.value.raw.None?
  {
    if peer.None? || peer.value.IsEmptyObject() then
      Refused(CertificateNotProvided)
    else if peer.value.raw.None? then
      Refused(CertificateInvalid)
    else if peer.value.subject.None? then
      UncaughtError
    else
      var cert := peer.value;
      Admitted(ExampleIdentity(cert.subject, cert.issuer, cert.serialNumber, cert.fingerprint))
  }

  /** HTTP status of a request the middleware stops; `None` when the request
      proceeds to its handler. */
  function StoppedWith(r: ExampleOutcome): (status: Option<int>)
    ensures status.None? <==> r.Admitted?
  {
    match r
    case Admitted(_) => None
    case Refused(_) => Some(401)
    case UncaughtError => Some(500)
  }

  /** An absent or empty certificate object is refused as "não fornecido". */
  lemma NotProvidedIff(peer: Option<PeerCertificate>)
    ensures Check(peer) == Refused(CertificateNotProvided) <==>
      peer.None? || peer.value.IsEmptyObject()
  {
  }

  /** A non-empty object without `raw` is refused as "inválido"; the
      emptiness test runs first, so an empty object is never "inválido". */
  lemma InvalidIff(peer: Option<PeerCertificate>)
    ensures Check(peer) == Refused(CertificateInvalid) <==>
      peer.Some? && !peer.value.IsEmptyObject() && peer.value.raw.None?
  {
  }

  /** An admitted request carries exactly the certificate's subject, issuer,
      serial number and fingerprint. */
  lemma AdmittedIdentity(cert: PeerCertificate)
    ensures Check(Some(cert)).Admitted? <==> cert.raw.Some? && cert.subject.Some?
    ensures Check(Some(cert)).Admitted? ==>
      Check(Some(cert)).identity ==
        ExampleIdentity(cert.subject, cert.issuer, cert.serialNumber, cert.fingerprint)
  {
  }

  /** No request reaches a handler without an identity whose subject is
      present, so the webhook's `req.clientCert.subject.CN` cannot throw. */
  lemma NoUnauthenticatedPassThrough(peer: Option<PeerCertificate>)
    ensures StoppedWith(Check(peer)).None? ==>
      Check(peer).Admitted? && Check(peer).identity.subject.Some?
  {
  }

  /** The certificate properties both middlewares copy. */
  function Summary(id: ClientIdentity): ExampleIdentity {
    ExampleIdentity(id.subject, id.issuer, id.serialNumber, id.fingerprint)
  }

  /** Whenever index.js authenticates a request on the direct path, this
      middleware admits the same certificate with the same four properties. */
  lemma DirectAcceptanceImpliesAdmitted(h: Headers, peer: Option<PeerCertificate>, decode: Bytes -> DecodeResult)
    requires Authenticate(h, Tls(peer), decode).Authenticated?
    requires Authenticate(h, Tls(peer), decode).identity.source == Direct
    ensures Check(peer).Admitted?
    ensures Check(peer).identity == Summary(Authenticate(h, Tls(peer), decode).identity)
  {
  }

  /** Without proxy headers the two middlewares differ only in the decoding
      call: this one admits exactly the certificates index.js authenticates
      plus those whose decoding throws. */
  lemma AdmittedIffDirectOrDecodeFailure(h: Headers, peer: Option<PeerCertificate>, decode: Bytes -> DecodeResult)
    requires !HasProxyEvidence(h)
    ensures Check(peer).Admitted? <==>
      Authenticate(h, Tls(peer), decode).Authenticated?
      || (peer.Some? && peer.value.raw.Some? && peer.value.subject.Some?
          && decode(peer.value.raw.value).DecodeFailed?)
  {
  }
}
