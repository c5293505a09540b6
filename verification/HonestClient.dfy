/** What an honest client can rely on, from the bytes of an invoice to an admitted PUT. */
module HonestClient {
  import opened Prelude
  import opened Utf8
  import opened Script
  import opened Bip70
  import opened Wallet
  import opened Payments
  import opened PaymentRuns
  import Handlers

  // ---- Both sides speak the same language ----

  /** How a client reads and writes payment messages. */
  datatype Client = Client(
    readInvoice: Bytes -> Option<PaymentDetails>,
    encodePayment: Payment -> Bytes,
    readAck: Bytes -> Option<PaymentAck>)

  const BIP70_CLIENT: Client := Client(ReadInvoice, EncodePayment, DecodeAck)

  /** Each side reads what the other writes, as far as it fits in memory. */
  ghost predicate Understand(codec: PaymentCodec, client: Client) {
    && (forall r: PaymentRequest, d: PaymentDetails ::
          r.serializedPaymentDetails == codec.encodeDetails(d) && |codec.encodeRequest(r)| < U64_LIMIT
          ==> client.readInvoice(codec.encodeRequest(r)) == Some(d))
    && (forall p: Payment ::
          |client.encodePayment(p)| < U64_LIMIT ==> codec.decodePayment(client.encodePayment(p)) == Some(p))
    && (forall a: PaymentAck ::
          |codec.encodeAck(a)| < U64_LIMIT ==> client.readAck(codec.encodeAck(a)) == Some(a))
  }

  lemma Bip70IsUnderstood()
    ensures Understand(BIP70, BIP70_CLIENT)
  {
    forall r: PaymentRequest, d: PaymentDetails
      | r.serializedPaymentDetails == BIP70.encodeDetails(d) && |BIP70.encodeRequest(r)| < U64_LIMIT
      ensures BIP70_CLIENT.readInvoice(BIP70.encodeRequest(r)) == Some(d)
    {
      InvoiceIsReadable(r, d);
    }
    forall p: Payment | |BIP70_CLIENT.encodePayment(p)| < U64_LIMIT
      ensures BIP70.decodePayment(BIP70_CLIENT.encodePayment(p)) == Some(p)
    {
      PaymentRoundTrip(p);
    }
    forall a: PaymentAck | |BIP70.encodeAck(a)| < U64_LIMIT
      ensures BIP70_CLIENT.readAck(BIP70.encodeAck(a)) == Some(a)
    {
      AckRoundTrip(a);
    }
  }

  // ---- The protocol ----

  /** A request for an invoice that the server can answer with one. */
  predicate Invoiced(cfg: Config, req: Request, putBody: Bytes) {
    req.isPut && req.authorization.None? && cfg.decodeAddress(req.addr) == Some(putBody)
  }

  lemma InvoiceIsSent(cfg: Config, req: Request, hash: Bytes, putBody: Bytes, time: Seconds)
    requires Invoiced(cfg, req, putBody)
    ensures Respond(cfg, req, NewAddr(hash), time) == PaymentRequired(InvoiceBytes(cfg, req, hash, putBody, time))
  {
  }

  function InvoiceBytes(cfg: Config, req: Request, hash: Bytes, putBody: Bytes, time: Seconds): Bytes {
    cfg.codec.encodeRequest(Invoice(cfg, req, hash, putBody, time))
  }

  lemma InvoiceIsRead(cfg: Config, client: Client, req: Request, hash: Bytes, putBody: Bytes, time: Seconds)
    requires Understand(cfg.codec, client) && |InvoiceBytes(cfg, req, hash, putBody, time)| < U64_LIMIT
    ensures client.readInvoice(InvoiceBytes(cfg, req, hash, putBody, time))
            == Some(InvoiceDetails(cfg, req, hash, putBody, time))
  {
    var request := Invoice(cfg, req, hash, putBody, time);
    assert request.serializedPaymentDetails == cfg.codec.encodeDetails(InvoiceDetails(cfg, req, hash, putBody, time));
  }

  /** Around the details, the bytes of an invoice declare version 1 and no public key infrastructure. */
  lemma InvoiceDeclares(cfg: Config, req: Request, hash: Bytes, putBody: Bytes, time: Seconds)
    requires cfg.codec == BIP70 && |InvoiceBytes(cfg, req, hash, putBody, time)| < U64_LIMIT
    ensures var r := DecodeRequest(InvoiceBytes(cfg, req, hash, putBody, time));
            && r.Some? && r.value.paymentDetailsVersion == Some(1) && r.value.pkiType == Some(Ascii("none"))
            && r.value.pkiData == None && r.value.signature == None
  {
    RequestRoundTrip(Invoice(cfg, req, hash, putBody, time));
  }

  /** Details that say where to write, where to pay, until when, on which network, and which two outputs to pay. */
  predicate Says(d: PaymentDetails, cfg: Config, req: Request, hash: Bytes, putBody: Bytes, time: Seconds) {
    var base := req.scheme + Ascii("://") + req.host;
    && d.merchantData == Some(base + Ascii("/keys/") + req.addr)
    && d.paymentUrl == Some(base + Ascii("/payments"))
    && d.time == time && d.expires == Some(time + 30) && d.network == Some(cfg.network)
    && d.memo == None
    && d.outputs == [Output(Some(5), P2pkhScript(hash)), Output(Some(0), OpReturnScript(base, putBody))]
  }

  lemma BuiltDetailsSay(cfg: Config, req: Request, hash: Bytes, putBody: Bytes, time: Seconds)
    ensures Says(InvoiceDetails(cfg, req, hash, putBody, time), cfg, req, hash, putBody, time)
  {
    var base := req.scheme + Ascii("://") + req.host;
    assert base + (Ascii("/keys/") + req.addr) == base + Ascii("/keys/") + req.addr;
  }

  /** From the bytes of a 402 the client reads what the server built, and so the price and where to pay and write. */
  lemma InvoiceHoldsDetails(cfg: Config, client: Client, req: Request, hash: Bytes, putBody: Bytes, time: Seconds)
    requires Understand(cfg.codec, client) && Invoiced(cfg, req, putBody)
    requires |InvoiceBytes(cfg, req, hash, putBody, time)| < U64_LIMIT
    ensures var resp := Respond(cfg, req, NewAddr(hash), time);
            && resp.PaymentRequired?
            && client.readInvoice(resp.invoice).Some?
            && Says(client.readInvoice(resp.invoice).value, cfg, req, hash, putBody, time)
  {
    InvoiceIsSent(cfg, req, hash, putBody, time);
    InvoiceIsRead(cfg, client, req, hash, putBody, time);
    BuiltDetailsSay(cfg, req, hash, putBody, time);
  }

  /** A POST whose body, in whatever chunks it arrives, is the payment, under the headers the endpoint demands. */
  predicate Carries(client: Client, post: Post, payment: Payment) {
    && post.contentType == Some(PAYMENT_TYPE)
    && post.accept == Some(ACK_TYPE)
    && Handlers.Joined(post.chunks) == Some(client.encodePayment(payment))
    && |client.encodePayment(payment)| < U64_LIMIT
  }

  lemma PaymentPassesScreening(cfg: Config, client: Client, post: Post, payment: Payment, outs: seq<TxOut>)
    requires Understand(cfg.codec, client) && Carries(client, post, payment)
    requires payment.transactions != [] && cfg.decodeTx(payment.transactions[0]) == Some(outs)
    ensures ScreenPayment(cfg, post) == Ok((payment, outs))
  {
  }

  lemma InvoiceOutputPays(wallet: set<Bytes>, hash: Bytes, outs: seq<TxOut>, i: nat)
    requires |hash| == 20 && hash in wallet
    requires i < |outs| && outs[i] == TxOut(PRICE, P2pkhScript(hash))
    ensures Consumes(wallet, outs).Some?
  {
    PubkeyHashRecoveredIff(hash, [], []);
    ConsumesSome(wallet, outs, i);
  }

  /** Between the two actions on a payment, only others are dealt with. */
  predicate Pays(acts: seq<Action>, k: nat, m: nat, id: nat, post: Post) {
    && k < m < |acts| && acts[k] == Pay(id, post) && acts[m] == Sent(id, true)
    && forall n :: k < n < m && !acts[n].Visit? ==> acts[n].id != id
  }

  lemma OthersLeavePending(cfg: Config, s: State, a: Action, id: nat)
    requires id in s.pending && (a.Visit? || a.id != id)
    ensures id in Do(cfg, s, a).pending && Do(cfg, s, a).pending[id] == s.pending[id]
  {
  }

  lemma {:induction false} PendingPersists(cfg: Config, acts: seq<Action>, k: nat, m: nat, id: nat, p: Pending)
    requires k <= m <= |acts| && id in Run(cfg, acts[..k]).pending && Run(cfg, acts[..k]).pending[id] == p
    requires forall n :: k <= n < m && !acts[n].Visit? ==> acts[n].id != id
    ensures id in Run(cfg, acts[..m]).pending && Run(cfg, acts[..m]).pending[id] == p
    decreases m
  {
    if k < m {
      PendingPersists(cfg, acts, k, m - 1, id, p);
      NextRun(cfg, acts, m - 1);
      OthersLeavePending(cfg, Run(cfg, acts[..m - 1]), acts[m - 1], id);
    }
  }

  lemma PaymentConsumes(cfg: Config, s: State, id: nat, post: Post, payment: Payment, outs: seq<TxOut>)
    requires ScreenPayment(cfg, post) == Ok((payment, outs)) && id !in s.pending && Consumes(s.wallet, outs).Some?
    ensures var hash, s' := Consumes(s.wallet, outs).value, Do(cfg, s, Pay(id, post));
            && s'.ledger == s.ledger + [Consumed(hash, outs)]
            && id in s'.pending && s'.pending[id] == Pending(hash, payment.transactions[0], payment)
  {
  }

  lemma AcceptedIsAcked(cfg: Config, s: State, id: nat, hash: Bytes, tx: Bytes, payment: Payment, url: Str)
    requires id in s.pending && s.pending[id] == Pending(hash, tx, payment)
    requires payment.merchantData == Some(url) && cfg.parseUrl(url).Some?
    ensures var resp, header := Settle(cfg, payment, true), TokenHeader(cfg.hmac(cfg.secret, url));
            && resp.Accepted? && resp.authorization == header && Some(resp.location) == cfg.parseUrl(url)
            && Do(cfg, s, Sent(id, true)).ledger == s.ledger + [Relayed(hash, tx), Acked(hash, url, header)]
  {
  }

  /** The payment of action `k`, once the node has accepted it at action `m`, is answered with a 202 for the URL. */
  ghost predicate Served(
    cfg: Config, acts: seq<Action>, k: nat, m: nat, payment: Payment, tx: Bytes, outs: seq<TxOut>, url: Str)
    requires k < m < |acts|
  {
    var resp, consumed := Settle(cfg, payment, true), Consumes(Run(cfg, acts[..k]).wallet, outs);
    && resp.Accepted? && consumed.Some?
    && Run(cfg, acts[..k + 1]).ledger == Run(cfg, acts[..k]).ledger + [Consumed(consumed.value, outs)]
    && Run(cfg, acts[..m + 1]).ledger == Run(cfg, acts[..m]).ledger
         + [Relayed(consumed.value, tx), Acked(consumed.value, url, resp.authorization)]
    && Some(resp.location) == cfg.parseUrl(url)
  }

  /** A screened payment that consumes an address and carries a URL is acknowledged with that URL's token. */
  lemma PaymentIsAcknowledged(
    cfg: Config, acts: seq<Action>, k: nat, m: nat, id: nat, post: Post, payment: Payment, outs: seq<TxOut>, url: Str)
    requires Pays(acts, k, m, id, post) && id !in Run(cfg, acts[..k]).pending
    requires ScreenPayment(cfg, post) == Ok((payment, outs))
    requires Consumes(Run(cfg, acts[..k]).wallet, outs).Some?
    requires payment.merchantData == Some(url) && cfg.parseUrl(url).Some?
    ensures payment.transactions != [] && Served(cfg, acts, k, m, payment, payment.transactions[0], outs, url)
    ensures Settle(cfg, payment, true).authorization == TokenHeader(cfg.hmac(cfg.secret, url))
  {
    var hash := Consumes(Run(cfg, acts[..k]).wallet, outs).value;
    NextRun(cfg, acts, k);
    PaymentConsumes(cfg, Run(cfg, acts[..k]), id, post, payment, outs);
    PendingPersists(cfg, acts, k + 1, m, id, Pending(hash, payment.transactions[0], payment));
    NextRun(cfg, acts, m);
    AcceptedIsAcked(cfg, Run(cfg, acts[..m]), id, hash, payment.transactions[0], payment, url);
  }

  /** The header of an acknowledgement admits a PUT to the acknowledged URL, whatever has happened since. */
  lemma HeaderAdmits(cfg: Config, req: Request, later: State, node: NodeReply, time: Seconds)
    requires req.isPut && req.authorization == Some(TokenHeader(cfg.hmac(cfg.secret, MerchantUrl(req))))
    ensures Respond(cfg, req, node, time) == Forward
    ensures Do(cfg, later, Visit(req, node, time)) == Logged(later, Admitted(MerchantUrl(req)))
  {
    TokenSurvivesHeader(cfg.hmac(cfg.secret, MerchantUrl(req)));
  }

  /** The client has read `details` from its invoice and posts a payment that pays their first output. */
  predicate Honours(
    cfg: Config, client: Client, details: PaymentDetails, post: Post, payment: Payment, outs: seq<TxOut>, i: nat)
  {
    && payment.merchantData == details.merchantData
    && details.outputs != [] && details.outputs[0].amount.Some?
    && i < |outs| && outs[i] == TxOut(details.outputs[0].amount.value, details.outputs[0].script)
    && Carries(client, post, payment)
    && payment.transactions != [] && cfg.decodeTx(payment.transactions[0]) == Some(outs)
  }

  /** The client asked for an invoice, the server answered, and what the client reads in it is `details`. */
  predicate Obtains(
    cfg: Config, client: Client, req: Request, hash: Bytes, putBody: Bytes, time: Seconds, details: PaymentDetails)
  {
    && Invoiced(cfg, req, putBody)
    && |InvoiceBytes(cfg, req, hash, putBody, time)| < U64_LIMIT
    && var resp := Respond(cfg, req, NewAddr(hash), time);
       resp.PaymentRequired? && client.readInvoice(resp.invoice) == Some(details)
  }

  lemma InvoiceAsks(
    cfg: Config, client: Client, req: Request, hash: Bytes, putBody: Bytes, time: Seconds, details: PaymentDetails)
    requires Understand(cfg.codec, client) && Obtains(cfg, client, req, hash, putBody, time, details)
    ensures details.merchantData == Some(MerchantUrl(req))
    ensures details.outputs != [] && details.outputs[0] == Output(Some(PRICE), P2pkhScript(hash))
  {
    InvoiceIsSent(cfg, req, hash, putBody, time);
    InvoiceIsRead(cfg, client, req, hash, putBody, time);
  }

  lemma HonestPaymentPasses(
    cfg: Config, client: Client, url: Str, hash: Bytes, details: PaymentDetails,
    wallet: set<Bytes>, post: Post, payment: Payment, outs: seq<TxOut>, i: nat)
    requires Understand(cfg.codec, client) && |hash| == 20 && hash in wallet
    requires details.merchantData == Some(url)
    requires details.outputs != [] && details.outputs[0] == Output(Some(PRICE), P2pkhScript(hash))
    requires Honours(cfg, client, details, post, payment, outs, i)
    ensures ScreenPayment(cfg, post) == Ok((payment, outs)) && Consumes(wallet, outs).Some?
    ensures payment.merchantData == Some(url)
  {
    PaymentPassesScreening(cfg, client, post, payment, outs);
    InvoiceOutputPays(wallet, hash, outs, i);
  }

  /**
   Completeness. A client that asks for an invoice, decodes the 402, pays its first output in a transaction the node
   accepts, and returns its merchant data, before anyone else pays that address, receives a 202, whatever others do
   meanwhile; and every later PUT to the same URL with the header of that response is admitted.
   */
  lemma HonestClientIsServed(
    cfg: Config, client: Client, req: Request, hash: Bytes, putBody: Bytes, time: Seconds, details: PaymentDetails,
    acts: seq<Action>, v: nat, k: nat, m: nat, id: nat, post: Post, payment: Payment, outs: seq<TxOut>, i: nat,
    later: State, node: NodeReply, time': Seconds)
    requires Understand(cfg.codec, client) && Obtains(cfg, client, req, hash, putBody, time, details)
    requires Honours(cfg, client, details, post, payment, outs, i) && cfg.parseUrl(MerchantUrl(req)).Some?
    requires |hash| == 20 && Pays(acts, k, m, id, post) && id !in Run(cfg, acts[..k]).pending
    requires v < k && acts[v] == Visit(req, NewAddr(hash), time)
    requires forall n :: v < n < k ==> !Spends(cfg, Run(cfg, acts[..n]), acts[n], hash)
    ensures Served(cfg, acts, k, m, payment, payment.transactions[0], outs, MerchantUrl(req))
    ensures var again := req.(authorization := Some(Settle(cfg, payment, true).authorization));
            && Respond(cfg, again, node, time') == Forward
            && Do(cfg, later, Visit(again, node, time')) == Logged(later, Admitted(MerchantUrl(req)))
  {
    var wallet := Run(cfg, acts[..k]).wallet;
    OutstandingUntilSpent(cfg, acts, v, k, hash);
    InvoiceAsks(cfg, client, req, hash, putBody, time, details);
    HonestPaymentPasses(cfg, client, MerchantUrl(req), hash, details, wallet, post, payment, outs, i);
    PaymentIsAcknowledged(cfg, acts, k, m, id, post, payment, outs, MerchantUrl(req));
    var again := req.(authorization := Some(TokenHeader(cfg.hmac(cfg.secret, MerchantUrl(req)))));
    assert MerchantUrl(again) == MerchantUrl(req);
    HeaderAdmits(cfg, again, later, node, time');
  }

  /** The acknowledgement a client decodes holds the payment it sent. */
  lemma AckReturnsPayment(cfg: Config, client: Client, payment: Payment)
    requires Understand(cfg.codec, client) && Settle(cfg, payment, true).Accepted?
    requires |Settle(cfg, payment, true).ack| < U64_LIMIT
    ensures client.readAck(Settle(cfg, payment, true).ack) == Some(PaymentAck(payment, Some(Thanks())))
  {
  }
}
