/** The in-memory payment store of index.js (`pagamentos`) and the three
    operations on it: the `/webhook` ingest and the two `/api/pagamentos`
    reads. The store is passed in and returned explicitly, and the server's
    current date (`getDataAtual()`) is a parameter. */
module Ledger {
  import opened Options
  import opened DistinguishedName
  import opened MtlsGate

  /** A `YYYY-MM-DD` date, or whatever string a client puts in the URL. */
  type DateKey = string

  /** A JSON field copied through unchanged; `None` when it is missing. */
  type Field = Option<string>

  /** `pixData.pagador` when it is an object (a primitive reads as an object
      whose properties are all missing). */
  datatype Payer = Payer(nome: Field, cpf: Field)

  /** One element of the `pix` array. `NotAnObject` is `null`, `undefined` or
      a primitive: reading `pagador.nome` from it throws, as it does for an
      object whose `pagador` is missing or `null`. */
  datatype PixElement =
    | PixObject(txid: Field, valor: Field, horario: Field, infoPagador: Field,
                pagador: Option<Payer>, endToEndId: Field, chave: Field)
    | NotAnObject

  /** The `pix` property of the request body. */
  datatype PixField =
    | PixFalsy                          // missing, null, false, 0 or ""
    | PixNotArray                       // any other value that is not an array
    | PixArray(elements: seq<PixElement>)

  /** A stored payment (`processarPagamentoPix`). `valor` and `horario` keep
      the text that `parseFloat` and `new Date` are applied to. */
  datatype Payment = Payment(
    txid: Field, valor: Field, horario: Field, infoPagador: Field,
    pagador: Payer, endToEndId: Field, chave: Field)

  /** Payments per processing date, each list in arrival order. */
  type Ledger = map<DateKey, seq<Payment>>

  /** `pagamentos[date] || []`. */
  function PaymentsFor(ledger: Ledger, date: DateKey): seq<Payment> {
    if date in ledger then ledger[date] else []
  }

  /** `processarPagamentoPix(pixData)`: `None` when it throws, which it does
      exactly when `pixData.pagador` cannot be read from. */
  function ToPayment(e: PixElement): (r: Option<Payment>)
    ensures r.None? <==> e.NotAnObject? || e.pagador.None?
  {
    match e
    case NotAnObject => None
    case PixObject(txid, valor, horario, info, pagador, e2e, chave) =>
      if pagador.None? then None
      else Some(Payment(txid, valor, horario, info, pagador.value, e2e, chave))
  }

  /** Every element of the batch is mapped without throwing. */
  predicate AllConvert(es: seq<PixElement>) {
    forall i :: 0 <= i < |es| ==> ToPayment(es[i]).Some?
  }

  /** What the `forEach` pushes before it stops: the payments of the longest
      prefix of the batch that maps without throwing. */
  function ConvertUntilFailure(es: seq<PixElement>): (ps: seq<Payment>)
    ensures |ps| <= |es|
    ensures forall i :: 0 <= i < |ps| ==> ToPayment(es[i]) == Some(ps[i])
    ensures |ps| < |es| ==> ToPayment(es[|ps|]).None?
    decreases |es|
  {
    if |es| == 0 then []
    else match ToPayment(es[0])
      case None => []
      case Some(p) => [p] + ConvertUntilFailure(es[1..])
  }

  /** The `client` part of the webhook reply. */
  datatype ClientSummary =
    | KnownClient(subject: Option<Dn>, source: Source, verified: bool)
    | AnonymousClient

  function Summarize(client: Option<ClientIdentity>): (r: ClientSummary)
    ensures r.AnonymousClient? <==> client.None?
    ensures client.Some? ==>
      r.subject == client.value.subject && r.source == client.value.source && r.verified == client.value.verified
  {
    match client
    case Some(id) => KnownClient(id.subject, id.source, id.verified)
    case None => AnonymousClient
  }

  /** The webhook's answers: 200 with the batch size, the date and the
      client summary; 400 for a bad `pix`; 500 when an element throws. */
  datatype WebhookReply =
    | Processed(count: nat, date: DateKey, client: ClientSummary)
    | InvalidPayload
    | InternalError

  function WebhookStatus(r: WebhookReply): int {
    match r
    case Processed(_, _, _) => 200
    case InvalidPayload => 400
    case InternalError => 500
  }

  /** The `/webhook` handler as a function of the store: validate `pix`,
      create today's list if absent, append the mapped payments in order
      until one throws, and answer 200 or 500. */
  function ReceiveWebhook(ledger: Ledger, today: DateKey, pix: PixField, client: Option<ClientIdentity>)
    : (r: (Ledger, WebhookReply))
    ensures r.1.InvalidPayload? <==> !pix.PixArray?
    ensures !pix.PixArray? ==> r.0 == ledger
    ensures r.1.Processed? <==> pix.PixArray? && AllConvert(pix.elements)
    ensures r.1.Processed? ==> r.1.count == |pix.elements| && r.1.date == today && r.1.client == Summarize(client)
    ensures ledger.Keys <= r.0.Keys <= ledger.Keys + {today}
  {
    match pix
    case PixArray(es) =>
      var stored := PaymentsFor(ledger, today) + ConvertUntilFailure(es);
      var reply := if AllConvert(es) then Processed(|es|, today, Summarize(client)) else InternalError;
      (ledger[today := stored], reply)
    case _ => (ledger, InvalidPayload)
  }

  /** The `forEach` of the handler on today's array: push each mapped element
      in turn, stopping at the first that throws. The pushes already made
      stay in the array, which the store shares. */
  method PushUntilFailure(before: seq<Payment>, es: seq<PixElement>) returns (stored: seq<Payment>, ok: bool)
    ensures stored == before + ConvertUntilFailure(es)
    ensures ok <==> AllConvert(es)
  {
    stored := before;
    assert es[..0] == [];
    var i := 0;
    while i < |es|
      invariant 0 <= i <= |es|
      invariant forall j :: 0 <= j < i ==> ToPayment(es[j]).Some?
      invariant stored == before + ConvertUntilFailure(es[..i])
    {
      var p := ToPayment(es[i]);
      if p.None? {
        ConvertPrefixStops(es, i);
        return stored, false;
      }
      ConvertPrefixGrows(es, i);
      stored := stored + [p.value];
      i := i + 1;
    }
    assert es[..i] == es;
    ok := true;
  }

  /** The handler as the source runs it: validate `pix`, make sure today's
      array exists, run the pushes, and answer by whether one threw. */
  method ProcessWebhook(ledger: Ledger, today: DateKey, pix: PixField, client: Option<ClientIdentity>)
    returns (updated: Ledger, reply: WebhookReply)
    ensures (updated, reply) == ReceiveWebhook(ledger, today, pix, client)
  {
    if !pix.PixArray? {
      return ledger, InvalidPayload;
    }
    var stored, ok := PushUntilFailure(PaymentsFor(ledger, today), pix.elements);
    updated := ledger[today := stored];
    reply := if ok then Processed(|pix.elements|, today, Summarize(client)) else InternalError;
  }

  /** Extending an all-convertible prefix by a convertible element. */
  lemma {:induction false} ConvertPrefixGrows(es: seq<PixElement>, i: nat)
    requires i < |es|
    requires forall j :: 0 <= j <= i ==> ToPayment(es[j]).Some?
    ensures ConvertUntilFailure(es[..i + 1]) == ConvertUntilFailure(es[..i]) + [ToPayment(es[i]).value]
    decreases i
  {
    if i > 0 {
      ConvertPrefixGrows(es[1..], i - 1);
      assert es[1..][..i] == es[..i + 1][1..];
      assert es[1..][..i - 1] == es[..i][1..];
    }
  }

  /** A failing element ends the conversion: converting up to it is
      converting the whole batch. */
  lemma {:induction false} ConvertPrefixStops(es: seq<PixElement>, i: nat)
    requires i < |es|
    requires forall j :: 0 <= j < i ==> ToPayment(es[j]).Some?
    requires ToPayment(es[i]).None?
    ensures ConvertUntilFailure(es) == ConvertUntilFailure(es[..i])
    decreases i
  {
    if i > 0 {
      ConvertPrefixStops(es[1..], i - 1);
      assert es[1..][..i - 1] == es[..i][1..];
    }
  }

  /** A missing or non-array `pix` is a 400 and the store is untouched. */
  lemma WebhookRejectsBadPayload(ledger: Ledger, today: DateKey, pix: PixField, client: Option<ClientIdentity>)
    requires !pix.PixArray?
    ensures ReceiveWebhook(ledger, today, pix, client) == (ledger, InvalidPayload)
  {
  }

  /** A valid batch: today's list exists afterwards (even for an empty
      array), receives the mapped payments at its end in batch order with no
      de-duplication, and every other date is untouched. */
  lemma WebhookAppends(ledger: Ledger, today: DateKey, es: seq<PixElement>, client: Option<ClientIdentity>)
    requires AllConvert(es)
    ensures var (after, reply) := ReceiveWebhook(ledger, today, PixArray(es), client);
      && after.Keys == ledger.Keys + {today}
      && |after[today]| == |PaymentsFor(ledger, today)| + |es|
      && after[today][..|PaymentsFor(ledger, today)|] == PaymentsFor(ledger, today)
      && (forall i :: 0 <= i < |es| ==>
            Some(after[today][|PaymentsFor(ledger, today)| + i]) == ToPayment(es[i]))
      && (forall d :: d in ledger && d != today ==> after[d] == ledger[d])
      && reply == Processed(|es|, today, Summarize(client))
  {
  }

  /** A batch whose element `k` throws (missing `pagador`): elements before
      `k` stay stored, nothing from `k` on is stored, and the answer is 500. */
  lemma WebhookPartialFailure(ledger: Ledger, today: DateKey, es: seq<PixElement>, k: nat,
                              client: Option<ClientIdentity>)
    requires k < |es| && ToPayment(es[k]).None?
    requires forall j :: 0 <= j < k ==> ToPayment(es[j]).Some?
    ensures var (after, reply) := ReceiveWebhook(ledger, today, PixArray(es), client);
      && after.Keys == ledger.Keys + {today}
      && after[today] == PaymentsFor(ledger, today) + ConvertUntilFailure(es[..k])
      && |after[today]| == |PaymentsFor(ledger, today)| + k
      && (forall d :: d in ledger && d != today ==> after[d] == ledger[d])
      && reply == InternalError
  {
    ConvertPrefixStops(es, k);
    ConvertAllOf(es[..k]);
  }

  /** Whatever `pix` holds, the webhook only appends: no date disappears,
      every stored list keeps its old payments as a prefix, and only today's
      list can change or appear. */
  lemma WebhookAppendOnly(ledger: Ledger, today: DateKey, pix: PixField, client: Option<ClientIdentity>)
    ensures var after := ReceiveWebhook(ledger, today, pix, client).0;
      && ledger.Keys <= after.Keys <= ledger.Keys + {today}
      && (forall d :: d in ledger ==> ledger[d] <= after[d])
      && (forall d :: d in ledger && d != today ==> after[d] == ledger[d])
  {
  }

  /** Converting a batch in which every element converts keeps its length. */
  lemma ConvertAllOf(es: seq<PixElement>)
    requires AllConvert(es)
    ensures |ConvertUntilFailure(es)| == |es|
  {
  }

  /** Sending the same valid batch twice stores it twice: the list grows by
      two copies, nothing is de-duplicated by `txid`. */
  lemma WebhookNoDeduplication(ledger: Ledger, today: DateKey, es: seq<PixElement>,
                               c1: Option<ClientIdentity>, c2: Option<ClientIdentity>)
    requires AllConvert(es)
    ensures var once := ReceiveWebhook(ledger, today, PixArray(es), c1).0;
      var twice := ReceiveWebhook(once, today, PixArray(es), c2).0;
      twice[today] == PaymentsFor(ledger, today) + ConvertUntilFailure(es) + ConvertUntilFailure(es)
  {
  }

  /** The body of both `/api/pagamentos` reads. */
  datatype Listing = Listing(date: DateKey, payments: seq<Payment>, total: nat, valorTotal: real)

  /** `payments.reduce((sum, p) => sum + p.valor, 0)`, with `amount` standing
      for `parseFloat` of the stored `valor` text. */
  function SumAmounts(ps: seq<Payment>, amount: Field -> real): (r: real)
    ensures |ps| == 0 ==> r == 0.0
    ensures (forall i :: 0 <= i < |ps| ==> amount(ps[i].valor) >= 0.0) ==> r >= 0.0
    decreases |ps|
  {
    if |ps| == 0 then 0.0
    else SumAmounts(ps[..|ps| - 1], amount) + amount(ps[|ps| - 1].valor)
  }

  /** The running sum splits over concatenation: the total of a list that
      grew by a batch is the old total plus the batch's total. */
  lemma {:induction false} SumAmountsAppend(a: seq<Payment>, b: seq<Payment>, amount: Field -> real)
    ensures SumAmounts(a + b, amount) == SumAmounts(a, amount) + SumAmounts(b, amount)
    decreases |b|
  {
    if |b| > 0 {
      var b' := b[..|b| - 1];
      assert (a + b)[..|a + b| - 1] == a + b';
      SumAmountsAppend(a, b', amount);
    } else {
      assert a + b == a;
    }
  }

  /** `GET /api/pagamentos/:data`: the stored list (empty for a date never
      ingested), its length and its amount total. */
  function PaymentsOn(ledger: Ledger, date: DateKey, amount: Field -> real): (r: Listing)
    ensures r.date == date && r.total == |r.payments|
    ensures date in ledger ==> r.payments == ledger[date]
    ensures date !in ledger ==> r.payments == [] && r.total == 0
    ensures r.payments == [] ==> r.valorTotal == 0.0
  {
    var ps := PaymentsFor(ledger, date);
    Listing(date, ps, |ps|, SumAmounts(ps, amount))
  }

  /** `GET /api/pagamentos`: the same listing for the server's current date. */
  function PaymentsToday(ledger: Ledger, today: DateKey, amount: Field -> real): (r: Listing)
    ensures r == PaymentsOn(ledger, today, amount)
  {
    var ps := PaymentsFor(ledger, today);
    Listing(today, ps, |ps|, SumAmounts(ps, amount))
  }

  /** After a valid batch, today's listing shows the earlier payments followed
      by the batch, and its total grows by the batch size. */
  lemma ListingAfterWebhook(ledger: Ledger, today: DateKey, es: seq<PixElement>,
                            client: Option<ClientIdentity>, amount: Field -> real)
    requires AllConvert(es)
    ensures var after := ReceiveWebhook(ledger, today, PixArray(es), client).0;
      && PaymentsToday(after, today, amount).payments == PaymentsFor(ledger, today) + ConvertUntilFailure(es)
      && PaymentsToday(after, today, amount).total == PaymentsToday(ledger, today, amount).total + |es|
      && PaymentsToday(after, today, amount).valorTotal
         == PaymentsToday(ledger, today, amount).valorTotal + SumAmounts(ConvertUntilFailure(es), amount)
  {
    ConvertAllOf(es);
    SumAmountsAppend(PaymentsFor(ledger, today), ConvertUntilFailure(es), amount);
  }
}
