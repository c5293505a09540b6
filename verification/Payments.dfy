/** Charging for writes: invoices, payments, and the token that admits a paid PUT. */
module Payments {
  import opened Prelude
  import opened Utf8
  import opened Script
  import opened Bip70
  import opened Wallet
  import Base64Url
  import Handlers

  const VALID_DURATION := 30

  /** Seconds since the epoch, as a signed 64-bit clock counts them. */
  type Seconds = t: int | 0 <= t < 0x8000_0000_0000_0000 - 30

  datatype PaymentCodec = PaymentCodec(
    encodeDetails: PaymentDetails -> Bytes,
    encodeRequest: PaymentRequest -> Bytes,
    encodeAck: PaymentAck -> Bytes,
    decodePayment: Bytes -> Option<Payment>)

  const BIP70: PaymentCodec := PaymentCodec(EncodeDetails, EncodeRequest, EncodeAck, DecodePayment)

  /** Settings and surroundings. Nothing is assumed about the HMAC here. */
  datatype Config = Config(
    network: Str,
    secret: Bytes,
    hmac: (Bytes, Bytes) -> Bytes,
    decodeAddress: Bytes -> Option<Bytes>,
    decodeTx: Bytes -> Option<seq<TxOut>>,
    parseUrl: Bytes -> Option<Bytes>,
    codec: PaymentCodec)

  datatype PaymentError =
    | Content | Accept | PayloadDecode | Decode | NoMerchantDat | InvalidMerchantDat | InvalidAuth
    | NoTx | TxDeserialize | InvalidOutputs | InvalidTx | MismatchedNetwork | AddrFetchFailed | Address

  datatype Response =
    | Forward
    | PaymentRequired(invoice: Bytes)
    | Accepted(location: Bytes, authorization: Bytes, ack: Bytes)
    | Failure(error: PaymentError)

  // ---- Tokens ----

  function GenerateToken(cfg: Config, msg: Bytes): Bytes {
    cfg.hmac(cfg.secret, msg)
  }

  predicate ValidateToken(cfg: Config, msg: Bytes, expected: Bytes) {
    GenerateToken(cfg, msg) == expected
  }

  /** "POP " */
  const POP: Bytes := [80, 79, 80, 32]

  function TokenHeader(token: Bytes): Bytes {
    POP + Base64Url.Encode(token)
  }

  /** Header values can be read as text when they are visible ASCII. */
  predicate VisibleAscii(b: Bytes) {
    forall i :: 0 <= i < |b| ==> 32 <= b[i] < 127 || b[i] == 9
  }

  /** The token bytes an Authorization header carries. */
  function TokenIn(header: Bytes): Option<Bytes> {
    if !VisibleAscii(header) then None
    else if |header| >= 4 && header[0..4] == POP then Base64Url.Decode(header[4..])
    else None
  }

  /** The header of a 202 carries the token back unchanged, for every token. */
  lemma TokenSurvivesHeader(token: Bytes)
    ensures TokenIn(TokenHeader(token)) == Some(token)
  {
    var header := TokenHeader(token);
    Base64Url.EncodedIsVisible(token);
    assert header[0..4] == POP && header[4..] == Base64Url.Encode(token);
    Base64Url.DecodeEncode(token);
  }

  // ---- URLs ----

  function Join(a: Str, b: Str): Str {
    ConcatIsUtf8(a, b);
    a + b
  }

  function Text(b: Bytes): Str
    requires forall i :: 0 <= i < |b| ==> b[i] < 128
  {
    AsciiIsUtf8(b);
    b
  }

  /** A request under the resource "/keys/{addr}". */
  datatype Request = Request(isPut: bool, scheme: Str, host: Str, addr: Str, authorization: Option<Bytes>)

  function BaseUrl(req: Request): Str {
    Join(Join(req.scheme, Text(Ascii("://"))), req.host)
  }

  function Path(req: Request): Str {
    Join(Text(Ascii("/keys/")), req.addr)
  }

  function MerchantUrl(req: Request): Str {
    Join(BaseUrl(req), Path(req))
  }

  lemma PathSuffix(req: Request)
    ensures |Path(req)| >= 6 && Path(req)[6..] == req.addr
  {
  }

  // ---- Invoices ----

  /** What the Bitcoin node, and the decoder of its address string, make of a request for a new address. */
  datatype NodeReply = Unreachable | Undecodable | WrongKind | NewAddr(body: Bytes)

  function InvoiceDetails(cfg: Config, req: Request, addr: Bytes, putBody: Bytes, time: Seconds): PaymentDetails {
    PaymentDetails(
      Some(cfg.network),
      GenerateOutputs(addr, BaseUrl(req), putBody),
      time,
      Some(time + VALID_DURATION),
      None,
      Some(Join(BaseUrl(req), Text(Ascii("/payments")))),
      Some(MerchantUrl(req)))
  }

  function Invoice(cfg: Config, req: Request, addr: Bytes, putBody: Bytes, time: Seconds): PaymentRequest {
    PaymentRequest(
      Some(1), Some(Text(Ascii("none"))), None,
      cfg.codec.encodeDetails(InvoiceDetails(cfg, req, addr, putBody, time)), None)
  }

  /** The address that handling a request adds to the wallet. */
  function Issues(cfg: Config, req: Request, node: NodeReply): Option<Bytes> {
    if req.isPut && req.authorization.None? && cfg.decodeAddress(req.addr).Some? && node.NewAddr?
    then Some(node.body) else None
  }

  predicate Admits(cfg: Config, req: Request) {
    && req.isPut
    && req.authorization.Some?
    && TokenIn(req.authorization.value).Some?
    && ValidateToken(cfg, MerchantUrl(req), TokenIn(req.authorization.value).value)
  }

  function Respond(cfg: Config, req: Request, node: NodeReply, time: Seconds): Response {
    if !req.isPut then Forward
    else if req.authorization.Some? then
      if Admits(cfg, req) then Forward else Failure(InvalidAuth)
    else
      match cfg.decodeAddress(req.addr)
      case None => Failure(Address)
      case Some(putBody) =>
        match node
        case Unreachable => Failure(AddrFetchFailed)
        case Undecodable => Failure(Address)
        case WrongKind => Failure(MismatchedNetwork)
        case NewAddr(addr) => PaymentRequired(cfg.codec.encodeRequest(Invoice(cfg, req, addr, putBody, time)))
  }

  class CheckPaymentMiddleware {
    const cfg: Config
    const wallet: WalletState

    constructor (cfg: Config, wallet: WalletState)
      ensures this.cfg == cfg && this.wallet == wallet
    {
      this.cfg := cfg;
      this.wallet := wallet;
    }

    /** Asks the node for an address; only an address of the right kind reaches the wallet. */
    method FetchAddress(node: NodeReply) returns (r: Result<Bytes, PaymentError>)
      modifies wallet
      ensures match node
              case Unreachable => r == Err(AddrFetchFailed)
              case Undecodable => r == Err(Address)
              case WrongKind => r == Err(MismatchedNetwork)
              case NewAddr(body) => r == Ok(body)
      ensures wallet.outstanding == old(wallet.outstanding) + (if node.NewAddr? then {node.body} else {})
    {
      match node {
        case Unreachable => return Err(AddrFetchFailed);
        case Undecodable => return Err(Address);
        case WrongKind => return Err(MismatchedNetwork);
        case NewAddr(body) =>
          wallet.Add(body);
          return Ok(body);
      }
    }

    method Call(req: Request, node: NodeReply, time: Seconds) returns (resp: Response)
      modifies wallet
      ensures resp == Respond(cfg, req, node, time)
      ensures wallet.outstanding == old(wallet.outstanding) +
                match Issues(cfg, req, node) case None => {} case Some(hash) => {hash}
    {
      if !req.isPut {
        return Forward;
      }
      if req.authorization.None? {
        var path := Path(req);
        PathSuffix(req);
        var putAddr := cfg.decodeAddress(path[6..]);
        if putAddr.None? {
          return Failure(Address);
        }
        var fetched := FetchAddress(node);
        if fetched.Err? {
          return Failure(fetched.error);
        }
        var invoice := Invoice(cfg, req, fetched.value, putAddr.value, time);
        return PaymentRequired(cfg.codec.encodeRequest(invoice));
      }
      var header := req.authorization.value;
      if !VisibleAscii(header) || |header| < 4 || header[0..4] != POP {
        return Failure(InvalidAuth);
      }
      var token := Base64Url.Decode(header[4..]);
      if token.None? {
        return Failure(InvalidAuth);
      }
      var merchantUrl := Join(BaseUrl(req), Path(req));
      if !ValidateToken(cfg, merchantUrl, token.value) {
        return Failure(InvalidAuth);
      }
      return Forward;
    }
  }

  // ---- Payments ----

  datatype Post = Post(contentType: Option<Bytes>, accept: Option<Bytes>, chunks: seq<Option<Bytes>>)

  const PAYMENT_TYPE: Bytes := Ascii("application/bitcoincash-payment")
  const ACK_TYPE: Bytes := Ascii("application/bitcoincash-paymentack")

  /** The payment a POST carries and the outputs of its first transaction. */
  function ScreenPayment(cfg: Config, post: Post): (r: Result<(Payment, seq<TxOut>), PaymentError>)
    ensures r.Ok? ==> r.value.0.transactions != [] && cfg.decodeTx(r.value.0.transactions[0]) == Some(r.value.1)
  {
    if post.contentType != Some(PAYMENT_TYPE) then Err(Accept)
    else if post.accept != Some(ACK_TYPE) then Err(Content)
    else
      match Handlers.Joined(post.chunks)
      case None => Err(PayloadDecode)
      case Some(raw) =>
        match cfg.codec.decodePayment(raw)
        case None => Err(Decode)
        case Some(payment) =>
          if payment.transactions == [] then Err(NoTx)
          else
            match cfg.decodeTx(payment.transactions[0])
            case None => Err(TxDeserialize)
            case Some(outs) => Ok((payment, outs))
  }

  /** "Thanks for your custom!" */
  function Thanks(): Str { Text(Ascii("Thanks for your custom!")) }

  /** What follows the wallet check: the node's verdict on the transaction, then the merchant data. */
  function Settle(cfg: Config, payment: Payment, sent: bool): Response {
    if !sent then Failure(InvalidTx)
    else
      match payment.merchantData
      case None => Failure(NoMerchantDat)
      case Some(merchantData) =>
        if !ValidUtf8(merchantData) then Failure(InvalidMerchantDat)
        else
          match cfg.parseUrl(merchantData)
          case None => Failure(InvalidMerchantDat)
          case Some(location) =>
            Accepted(location, TokenHeader(GenerateToken(cfg, merchantData)),
                     cfg.codec.encodeAck(PaymentAck(payment, Some(Thanks()))))
  }

  function PaymentAnswer(cfg: Config, wallet: set<Bytes>, post: Post, sent: bool): Response {
    match ScreenPayment(cfg, post)
    case Err(e) => Failure(e)
    case Ok((payment, outs)) =>
      if Consumes(wallet, outs).Some? then Settle(cfg, payment, sent) else Failure(InvalidOutputs)
  }

  function WalletAfterPayment(cfg: Config, wallet: set<Bytes>, post: Post): set<Bytes> {
    match ScreenPayment(cfg, post)
    case Err(_) => wallet
    case Ok((_, outs)) => AfterCheck(wallet, outs)
  }

  method PaymentHandler(cfg: Config, wallet: WalletState, post: Post, sent: bool) returns (resp: Response)
    modifies wallet
    ensures resp == PaymentAnswer(cfg, old(wallet.outstanding), post, sent)
    ensures wallet.outstanding == WalletAfterPayment(cfg, old(wallet.outstanding), post)
  {
    if post.contentType != Some(PAYMENT_TYPE) {
      return Failure(Accept);
    }
    if post.accept != Some(ACK_TYPE) {
      return Failure(Content);
    }
    var raw := Handlers.ReadBody(post.chunks);
    if raw.None? {
      return Failure(PayloadDecode);
    }
    var decoded := cfg.codec.decodePayment(raw.value);
    if decoded.None? {
      return Failure(Decode);
    }
    var payment := decoded.value;
    if payment.transactions == [] {
      return Failure(NoTx);
    }
    var outs := cfg.decodeTx(payment.transactions[0]);
    if outs.None? {
      return Failure(TxDeserialize);
    }
    var paid := wallet.CheckOutputs(outs.value);
    if !paid {
      return Failure(InvalidOutputs);
    }
    if !sent {
      return Failure(InvalidTx);
    }
    var rawAck := cfg.codec.encodeAck(PaymentAck(payment, Some(Thanks())));
    if payment.merchantData.None? {
      return Failure(NoMerchantDat);
    }
    var merchantData := payment.merchantData.value;
    var token := Base64Url.Encode(GenerateToken(cfg, merchantData));
    if !ValidUtf8(merchantData) {
      return Failure(InvalidMerchantDat);
    }
    var location := cfg.parseUrl(merchantData);
    if location.None? {
      return Failure(InvalidMerchantDat);
    }
    return Accepted(location.value, POP + token, rawAck);
  }
}
