# bb-pix webhook receiver: a Dafny model of its mTLS gate and payment ledger

The system receives PIX payment notifications from a bank over mutually
authenticated TLS. It keeps the notifications in memory per processing date
and serves them back over HTTP. This project models its decision logic as
pure functions and proves properties of them:

- **DN parser** (`parseDN`, module `DistinguishedName`). A Distinguished-Name
  string is cut at commas. Each trimmed piece is cut at `=`, and pieces with a
  non-empty key and value are kept. A later piece overwrites an earlier one
  with the same key. The JavaScript primitives it uses (`split`, `trim`) are
  modelled in `JsString`.
- **Client-certificate middleware of `index.js`** (module `MtlsGate`). A
  proxy's forwarded verdict (`x-ssl-client-cert` plus `x-ssl-client-verify`)
  is consulted first. Next comes the peer certificate of this process's own
  TLS socket. Otherwise the request passes through unauthenticated. The
  certificate-decoding call is a parameter `decode`.
- **Stricter middleware of `mtls-example.js`** (module `ExampleGate`). It
  never passes a request through without an identity. It is compared with the
  direct path of `index.js`.
- **Payment ledger** (module `Ledger`). `pagamentos` is a
  `map<DateKey, seq<Payment>>` with the `/webhook` ingest (a function and a
  method that mirrors the source's `forEach`/`push` loop) and the two
  `/api/pagamentos` reads. The current date is a parameter.
- **Request pipeline** (module `Server`). The middleware runs before every
  route, and `/api/client-info` reports the attached identity.

`DnExamples` holds worked examples of `parseDN` on concrete DN strings.

Behaviour worth knowing, as the code has it:

- Only the whole DN piece is trimmed, not the key and value around `=`, so
  `" CN = Alice "` yields the key `"CN "` and the value `" Alice"`
  (`DnExamples.ParseDNKeepsInnerSpaces`). The value stops at a second `=`
  (`DnExamples.ParseDNDropsAfterSecondEquals`).
- Each `pix` element is pushed as soon as it is mapped, so an element that
  throws leaves the earlier ones stored and answers 500
  (`Ledger.WebhookPartialFailure`).
- On the direct path the code answers "não fornecido" also for a certificate
  object without `raw`. The logging line after the identity is built reads
  `cert.subject.CN` inside the `try`, so a certificate without a subject is
  rejected with that TypeError's message (`MtlsGate.CheckPeerCertificate`).
  In `mtls-example.js` the same read is outside any `try`, which gives
  Express's default 500 (`ExampleGate.Check`, outcome `UncaughtError`).
- The `verified: true` of an attached identity is a constant the middleware
  writes, not evidence of validation against a CA. The HTTPS listener of
  `index.js` sets `rejectUnauthorized: false` (index.js:114), so a client
  certificate that fails chain validation still completes the handshake and
  reaches the middleware, which never reads `socket.authorized`. Only
  `mtls-example.js` (line 21) rejects such certificates during the handshake.

On the decoding call: `index.js` calls `crypto.createCertificate`, and
Node.js's documented `crypto` API has no such function. If the runtime lacks
it, the call always throws and the direct path never authenticates anyone.
`MtlsGate.DirectPathNeedsDecoder` states that consequence. The runtime is not
part of this model, so `decode` stays a parameter.

Trusting the proxy headers is sound only if the proxy strips client-supplied
copies. That is an operational requirement, and the code does not check it.

## Model

| member | source | states |
|---|---|---|
| JsString.SplitAfterPiece | index.js:93 | a separator-free first piece followed by the separator comes out as the first part of `split` |
| JsString.Split | index.js:93 | `split` on one character yields at least one piece, and no piece contains the separator |
| JsString.JoinSplit | index.js:93 | putting the separator back between the pieces of `split` gives the original string |
| JsString.SplitJoin | index.js:93 | `split` recovers any non-empty list of separator-free pieces from their join, so split and join are inverse |
| JsString.TrimStartSpec | index.js:96 | removing leading white space drops exactly the leading JavaScript white space and line terminators |
| JsString.TrimEndSpec | index.js:96 | removing trailing white space drops exactly the trailing white space |
| JsString.TrimIsTrimmedCore | index.js:96 | every infix outside which there is only white space and which neither starts nor ends with white space is what `trim` returns (uniqueness) |
| JsString.TrimHasTrimmedCore | index.js:96 | what `trim` returns is such an infix, starting after the leading white space (existence) |
| JsString.TrimIdempotent | index.js:96 | trimming twice is trimming once |
| JsString.Trim | index.js:96 | `part.trim()` never lengthens its input; what it keeps is characterised by `TrimStartSpec`, `TrimEndSpec`, `TrimIsTrimmedCore` and `TrimIdempotent` |
| DistinguishedName.ParseSegment | index.js:96-97 | an accepted piece has a non-empty key and value, neither containing `=` |
| DistinguishedName.KeyValueShapeSound | index.js:96-97 | if `[key, value] = t.split('=')` are both truthy, `t` reads `key=value`, optionally followed by `=`… |
| DistinguishedName.KeyValueShapeComplete | index.js:96-97 | conversely, every `t` that reads `key=value`, optionally followed by `=`…, destructures to that key and value |
| DistinguishedName.ParseSegmentSpec | index.js:96-99 | a piece is accepted as `(k, v)` exactly when its trimmed text is `k=v`, optionally followed by `=`…, with `k` and `v` non-empty; otherwise it is skipped |
| DistinguishedName.ParseSegmentOfPair | index.js:96-98 | a plain `k=v` piece with no white space at its ends parses to `(k, v)` |
| DistinguishedName.Collect | index.js:95-100 | the overwriting `forEach` keeps every earlier key and stores only well-formed keys and values |
| DistinguishedName.ParseDN | index.js:90-102 | an absent or empty DN gives the empty map, and every entry has a non-empty, `=`-free key and value |
| DistinguishedName.LastValueFront | index.js:95-100 | the last entry with a key is found in the rest of the list if it is there, else in the first entry |
| DistinguishedName.CollectLastWins | index.js:95-100 | the left-to-right overwriting fold agrees with a right-to-left "last occurrence" search, for keys and values |
| DistinguishedName.LastValueSpec | index.js:95-100 | the last-occurrence value of a key is `v` exactly when some entry is `(key, v)` and no later entry has that key |
| DistinguishedName.ParseDNLastValue | index.js:90-102 | `parseDN` maps a key exactly when some piece has it, to the value of the last such piece |
| DistinguishedName.ParseDNLastWins | index.js:90-102 | `parseDN(dn)[key] == v` exactly when some piece parses to `(key, v)` and no later piece parses with the same key |
| DnExamples.ParseDNExample | index.js:90-102 | `parseDN("CN=Alice,O=Bank")` is `{CN: Alice, O: Bank}` |
| DnExamples.ParseDNSkipsMalformed | index.js:96-99 | a piece without `=` is skipped: `CN=Alice,BAD,O=Bank` gives `{CN: Alice, O: Bank}` |
| DnExamples.ParseDNDuplicateKey | index.js:98 | a repeated key keeps the later value: `CN=Alice,CN=Bob` gives `{CN: Bob}` |
| DnExamples.ParseDNKeepsInnerSpaces | index.js:96 | only the whole piece is trimmed: `" CN = Alice "` gives `{"CN ": " Alice"}` |
| DnExamples.ParseDNDropsAfterSecondEquals | index.js:96 | text after a second `=` is dropped: `CN=a=b` gives `{CN: a}` |
| MtlsGate.CheckPeerCertificate | index.js:51-84 | the direct path never passes a request through, and what it authenticates carries source `direct` and the constant `verified` flag the code writes (the certificate's chain is not checked, since the listener sets `rejectUnauthorized: false`) |
| MtlsGate.Authenticate | index.js:21-87 | every attached identity carries the constant `verified: true` the code writes, which is not evidence of CA validation; the request passes unauthenticated exactly when there is no proxy evidence and the socket is plaintext; an identity comes from the proxy exactly when both proxy headers are present |
| MtlsGate.EvidenceOf | index.js:23-51 | the proxy verdict is the evidence exactly when both proxy headers are truthy, and there is no evidence exactly when they are not and the socket is plaintext |
| MtlsGate.DecisionDependsOnlyOnEvidence | index.js:21-86 | two requests with the same evidence (proxy verdict and DN header, else the socket's certificate, else none) get the same decision, so the certificate header's content is never consulted |
| MtlsGate.RejectionBodyIdentifiesReason | index.js:29-82 | the three 401 bodies of the middleware (index.js:31-33, 56-59, 79-82) are pairwise distinct, and only a decoding failure carries the thrown message as `details` |
| MtlsGate.ProxyRejection | index.js:28-35 | both headers present with a verdict other than `SUCCESS` gives 401 on any transport, whatever the DN header |
| MtlsGate.ProxyAcceptance | index.js:28-47 | a `SUCCESS` verdict gives the identity `{subject = parseDN(dn header), verified, source proxy}` on either transport, ahead of any peer certificate |
| MtlsGate.OneHeaderIsNoEvidence | index.js:28 | one proxy header alone (or an empty one) leads to the decision taken with no proxy headers |
| MtlsGate.DirectMissingCertificate | index.js:54-60 | on TLS without proxy evidence, a 401 "não fornecido" happens exactly for a null certificate, an empty object or one without `raw` |
| MtlsGate.DirectDecodeFailure | index.js:63-83 | a decoding error gives a 401 whose details are the error's message |
| MtlsGate.DirectAcceptance | index.js:63-76 | the direct path authenticates exactly when the certificate has `raw`, decodes and has a subject, and it then copies subject, issuer, serial number and fingerprint |
| MtlsGate.DirectPathNeedsDecoder | index.js:65 | if the decoding call always throws, the direct path only ever rejects |
| ExampleGate.Check | mtls-example.js:30-57 | an admitted request has a subject, and the middleware answers 401 exactly when the certificate is null, empty or lacks `raw` |
| ExampleGate.StoppedWith | mtls-example.js:30-57 | a request proceeds to its handler exactly when it was admitted |
| ExampleGate.NotProvidedIff | mtls-example.js:34-38 | "não fornecido" happens exactly for a null or empty certificate object |
| ExampleGate.InvalidIff | mtls-example.js:41-45 | "inválido" happens exactly for a non-empty object without `raw`, because the emptiness test comes first |
| ExampleGate.AdmittedIdentity | mtls-example.js:48-56 | admission happens exactly with `raw` and a subject, and the identity holds the four certificate properties unchanged and nothing else |
| ExampleGate.NoUnauthenticatedPassThrough | mtls-example.js:30-57 | every request that reaches a handler carries an identity with a subject, so reading `subject.CN` is safe |
| ExampleGate.DirectAcceptanceImpliesAdmitted | index.js:54-76 | whenever index.js authenticates on the direct path, the example middleware admits the same certificate with the same four properties |
| ExampleGate.AdmittedIffDirectOrDecodeFailure | mtls-example.js:34-56 | without proxy headers, the example admits exactly what index.js authenticates, plus the certificates whose decoding throws |
| Ledger.ToPayment | index.js:155-170 | mapping an element throws exactly when it is not an object or has no `pagador` |
| Ledger.ConvertUntilFailure | index.js:199-204 | the pushed payments are the mapped elements of the longest prefix that does not throw, in order, and they stop at the first throwing element |
| Ledger.ReceiveWebhook | index.js:185-221 | the reply is 400 exactly for a falsy or non-array `pix`, which leaves the store unchanged; it is 200 exactly when no element throws, and then carries the batch size, today's date and the client summary; no date disappears and only today's can appear. The per-date effect is in `WebhookAppends`, `WebhookPartialFailure` and `WebhookAppendOnly` |
| Ledger.Summarize | index.js:176-180 | the reply's `client` is `{source: 'unauthenticated'}` exactly when no identity is attached, and otherwise carries the identity's subject, source and `verified` flag |
| Ledger.PushUntilFailure | index.js:199-204 | the `forEach` of pushes onto today's array leaves the old list followed by the mapped elements of the longest non-throwing prefix, and reports success exactly when no element throws |
| Ledger.ProcessWebhook | index.js:185-221 | the handler's sequence of steps (validate, create today's array, push, answer) gives the same store and reply as the functional ingest `ReceiveWebhook` |
| Ledger.ConvertPrefixGrows | index.js:199-202 | one more successful element appends exactly its payment |
| Ledger.ConvertPrefixStops | index.js:199-204 | a throwing element ends the batch: nothing after it is pushed |
| Ledger.ConvertAllOf | index.js:199-204 | a batch in which no element throws pushes one payment per element |
| Ledger.WebhookRejectsBadPayload | index.js:187-189 | a missing, falsy or non-array `pix` gives 400 and leaves the store unchanged |
| Ledger.WebhookAppends | index.js:191-217 | a valid batch creates today's list if absent, appends one payment per element in order after the old ones, leaves other dates alone and answers 200 with the batch size and today's date |
| Ledger.WebhookPartialFailure | index.js:194-221 | if element `k` throws, elements `0..k-1` stay appended, nothing later is, today's key is present, every other date is unchanged, and the answer is 500 |
| Ledger.WebhookAppendOnly | index.js:185-221 | for any `pix` value the webhook only appends: no date disappears, every old list is a prefix of the new one, and only today's list can change or appear |
| Ledger.WebhookNoDeduplication | index.js:199-202 | posting the same batch twice stores it twice |
| Ledger.SumAmounts | index.js:234 | the `reduce` of an empty list is 0, and a list of non-negative amounts sums to a non-negative total |
| Ledger.SumAmountsAppend | index.js:234 | in exact real arithmetic, the total of a concatenation is the sum of the two totals (the program's double sums can differ, see ## Left out) |
| Ledger.PaymentsOn | index.js:226-236 | the listing is the stored list, `total` is its length, a date never ingested gives `[]` and 0, and an empty list has `valorTotal` 0 |
| Ledger.PaymentsToday | index.js:239-249 | the today listing is the date listing for the server's current date |
| Ledger.ListingAfterWebhook | index.js:239-249 | after a valid batch, today's listing is the old list followed by the batch, `total` grows by the batch size, and in exact real arithmetic `valorTotal` grows by the batch's amounts (the program's double sums can differ, see ## Left out) |
| Server.ClientInfoHandler | index.js:315-335 | `/api/client-info` answers 401 exactly when no identity is attached, and otherwise shows that identity |
| Server.Dispatch | index.js:173-336 | only the webhook route can change the store, and then only by appending: no date disappears, only today's can appear, every old list is a prefix of the new one; `/api/client-info` answers 401 exactly without an identity |
| Server.Serve | index.js:21-87 | a request the middleware rejects reaches no handler and leaves the store unchanged, and no read route changes the store |
| Server.ClientInfoDeniedIff | index.js:315-335 | `/api/client-info`'s own 401 happens exactly with no proxy evidence on a plaintext connection |
| Server.ClientInfoShowsVerifiedIdentity | index.js:316-328 | a non-401 answer from `/api/client-info` always shows an identity with the `verified` flag set; the flag is the constant the middleware writes, not a result of chain validation |
| Server.PlainWebhookIsStoredAnonymously | index.js:176-180 | an unauthenticated plaintext webhook is still stored, and its reply names the client `unauthenticated` |

## Left out

- Certificate loading and the TLS listener configuration (index.js:13-18, 104-131; mtls-example.js:10-27). These are filesystem and transport setup. The handshake itself is not modelled: in `mtls-example.js` (`rejectUnauthorized: true`) a certificate that fails chain validation never produces a request, while in `index.js` (`rejectUnauthorized: false`) it reaches the middleware as an ordinary peer certificate, which the model receives as `Transport.Tls(peer)` without a validity bit.
- Body parsing by `express.json()` (index.js:142). `Server.Route.PostWebhook` starts from an already-parsed body. Malformed JSON or an oversized body is answered by Express itself (400 or 413), and the `/webhook` handler never runs.
- The `tlsClientError` handlers (index.js:122-125; mtls-example.js:109-112): they log and drop a connection and have no HTTP outcome.
- The certificate-decoding call (index.js:65) is foreign code. It is the parameter `decode`.
- `parseFloat` of `valor`, `new Date` of `horario` and the floating-point sum. Payments keep the raw text, and the sum takes an `amount` function that stands for `parseFloat`. Reals are not IEEE doubles, so NaN and rounding are not modelled.
- Ledger.PaymentsOn: states `valorTotal` only for an empty list (it is 0). The value of a non-empty floating-point sum is not stated, since reals are not IEEE doubles.
- Ledger.SumAmountsAppend: holds for exact reals, not for the program's doubles. JavaScript adds left to right and double addition is not associative: with a stored list of amounts `[0.1]` and a batch `[0.2, 0.3]`, the listing's `(0.1 + 0.2) + 0.3` is `0.6000000000000001` in IEEE doubles, while the old total plus the batch's own sum, `0.1 + (0.2 + 0.3)`, is `0.6`.
- Ledger.ListingAfterWebhook: its `valorTotal` clause is the exact-real statement of `SumAmountsAppend` and fails for the program's doubles on the same input; the clauses on the list and on `total` are exact.
- `getDataAtual` (index.js:149-152) reads the wall clock. The date is the parameter `today`.
- Socket.IO broadcasts and the on-connect snapshot, CORS, static files, the `/` route and the listeners (index.js:133-143, 206-210, 340-385). These are event and I/O plumbing.
- `/simular-webhook` (index.js:252-302) issues an HTTP request to the server itself. `/health` (index.js:305-312) reports process metrics.
- keep-alive.js is a timer-driven network pinger with no decision logic.
- Console logging, and the rendering of reply bodies to JSON. The webhook's `message` text is represented by the batch size it prints.
- JavaScript plain-object quirks: `__proto__` as a DN key, or `constructor` as a date in `/api/pagamentos/:data`. DNs and the ledger are ordinary finite maps.
- Node.js header folding (repeated headers joined with `, `). Header values are single strings.
- Multi-valued certificate attributes (Node gives an array). A certificate's subject and issuer are `map<string, string>`.
- Non-string JSON values in `pix` fields. Fields are strings or absent, and are copied through unchanged either way.
- The route handlers of mtls-example.js (72-98). Only their reliance on `req.clientCert.subject` is stated (`ExampleGate.NoUnauthenticatedPassThrough`).
