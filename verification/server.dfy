/** The request pipeline of index.js: the client-certificate middleware runs
    before every route, and a request it rejects never reaches a handler.
    The routes modelled are `POST /webhook`, `GET /api/pagamentos/:data`,
    `GET /api/pagamentos` and `GET /api/client-info`. */
module Server {
  import opened Options
  import opened MtlsGate
  import opened Ledger

  datatype Route =
    | PostWebhook(pix: PixField)
    | GetPaymentsOn(date: DateKey)
    | GetPaymentsToday
    | GetClientInfo

  datatype Request = Request(headers: Headers, transport: Transport, route: Route)

  datatype Response =
    | AuthenticationFailed(reason: Rejection)   // 401 from the middleware
    | WebhookAnswer(reply: WebhookReply)
    | PaymentsAnswer(listing: Listing)
    | ClientInfo(identity: ClientIdentity)     // 200, `authenticated: true`
    | ClientNotAuthenticated                   // 401, `authenticated: false`

  function Status(r: Response): int {
    match r
    case AuthenticationFailed(_) => 401
    case WebhookAnswer(reply) => WebhookStatus(reply)
    case PaymentsAnswer(_) => 200
    case ClientInfo(_) => 200
    case ClientNotAuthenticated => 401
  }

  /** `GET /api/client-info`: the attached identity, or 401 without one. */
  function ClientInfoHandler(client: Option<ClientIdentity>): (r: Response)
    ensures Status(r) == 401 <==> client.None?
    ensures client.Some? ==> r == ClientInfo(client.value)
  {
    match client
    case Some(id) => ClientInfo(id)
    case None => ClientNotAuthenticated
  }

  /** The route handler, given what the middleware attached (if anything). */
  function Dispatch(ledger: Ledger, today: DateKey, amount: Field -> real,
                    route: Route, client: Option<ClientIdentity>): (r: (Ledger, Response))
    ensures !route.PostWebhook? ==> r.0 == ledger
    ensures ledger.Keys <= r.0.Keys <= ledger.Keys + {today}
    ensures forall d :: d in ledger ==> ledger[d] <= r.0[d]
    ensures route.GetClientInfo? ==> (r.1.ClientNotAuthenticated? <==> client.None?)
  {
    match route
    case PostWebhook(pix) =>
      var (after, reply) := ReceiveWebhook(ledger, today, pix, client);
      (after, WebhookAnswer(reply))
    case GetPaymentsOn(date) => (ledger, PaymentsAnswer(PaymentsOn(ledger, date, amount)))
    case GetPaymentsToday => (ledger, PaymentsAnswer(PaymentsToday(ledger, today, amount)))
    case GetClientInfo => (ledger, ClientInfoHandler(client))
  }

  /** One request through the middleware and then its route. */
  function Serve(ledger: Ledger, today: DateKey, decode: Bytes -> DecodeResult,
                 amount: Field -> real, req: Request): (r: (Ledger, Response))
    ensures Authenticate(req.headers, req.transport, decode).Rejected? ==>
      r == (ledger, AuthenticationFailed(Authenticate(req.headers, req.transport, decode).reason))
    ensures !req.route.PostWebhook? ==> r.0 == ledger
  {
    match Authenticate(req.headers, req.transport, decode)
    case Rejected(reason) => (ledger, AuthenticationFailed(reason))
    case Authenticated(id) => Dispatch(ledger, today, amount, req.route, Some(id))
    case Unauthenticated => Dispatch(ledger, today, amount, req.route, None)
  }

  /** `GET /api/client-info` answers 401 from its own handler exactly when the
      middleware let the request through unauthenticated: no proxy evidence
      and a plaintext connection. */
  lemma ClientInfoDeniedIff(ledger: Ledger, today: DateKey, decode: Bytes -> DecodeResult,
                            amount: Field -> real, h: Headers, t: Transport)
    ensures Serve(ledger, today, decode, amount, Request(h, t, GetClientInfo)).1 == ClientNotAuthenticated
      <==> !HasProxyEvidence(h) && t.Plain?
  {
  }

  /** Every request to `GET /api/client-info` that is not answered 401 shows
      a verified identity. */
  lemma ClientInfoShowsVerifiedIdentity(ledger: Ledger, today: DateKey, decode: Bytes -> DecodeResult,
                                        amount: Field -> real, h: Headers, t: Transport)
    ensures var resp := Serve(ledger, today, decode, amount, Request(h, t, GetClientInfo)).1;
      Status(resp) != 401 ==> resp.ClientInfo? && resp.identity.verified
  {
  }

  /** On the plaintext listener with no proxy headers the webhook still
      stores the batch; its reply names the client `unauthenticated`. */
  lemma PlainWebhookIsStoredAnonymously(ledger: Ledger, today: DateKey, decode: Bytes -> DecodeResult,
                                        amount: Field -> real, h: Headers, es: seq<PixElement>)
    requires !HasProxyEvidence(h) && AllConvert(es)
    ensures Serve(ledger, today, decode, amount, Request(h, Plain, PostWebhook(PixArray(es)))) ==
      (ReceiveWebhook(ledger, today, PixArray(es), None).0,
       WebhookAnswer(Processed(|es|, today, AnonymousClient)))
  {
  }
}
