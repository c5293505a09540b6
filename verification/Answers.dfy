/** What each answer of the server tells: the first check that failed, or that the request took effect. */
module Answers {
  import opened Prelude
  import opened Utf8
  import opened Script
  import opened Bip70
  import opened Messages
  import opened Codecs
  import opened Authentication
  import opened KeyDb
  import opened Handlers
  import opened Wallet
  import Payments
  import Base64Url

  // ---- A PUT ----

  /** The metadata a request body holds, if it arrives and decodes. */
  function Sent(env: Env, chunks: seq<Option<Bytes>>): Option<AddressMetadata> {
    match Joined(chunks)
    case None => None
    case Some(raw) => env.codec.decode(raw)
  }

  /** Body and address are readable, and the record claims scheme number 1. */
  predicate Readable(env: Env, addr: Bytes, chunks: seq<Option<Bytes>>) {
    Sent(env, chunks).Some? && env.decodeAddress(addr).Some? && Sent(env, chunks).value.scheme == 1
  }

  /** Exactly the readable, signed records whose payload decodes pass the checks made before the store is asked. */
  lemma ScreenedIff(env: Env, addr: Bytes, chunks: seq<Option<Bytes>>, cand: Candidate)
    ensures ScreenPut(env, addr, chunks) == Ok(cand)
            <==> && Readable(env, addr, chunks)
                 && Sent(env, chunks) == Some(cand.metadata) && env.decodeAddress(addr) == Some(cand.body)
                 && SignedFor(env.sig, cand.body, cand.metadata)
                 && env.codec.decodePayload(cand.metadata.serializedPayload) == Some(cand.payload)
  {
    ValidIffSigned(env.sig, cand.body, cand.metadata);
  }

  /** Each refusal names the first check that failed: body, address, scheme, key, signature, payload. */
  lemma ScreeningRefusesIff(env: Env, addr: Bytes, chunks: seq<Option<Bytes>>)
    ensures var r := ScreenPut(env, addr, chunks);
            && (r == Err(MetadataDecode) <==> Sent(env, chunks).None?)
            && (r == Err(Address) <==> Sent(env, chunks).Some? && env.decodeAddress(addr).None?)
            && (r == Err(UnsupportedSigScheme) <==>
                  Sent(env, chunks).Some? && env.decodeAddress(addr).Some? && Sent(env, chunks).value.scheme != 1)
            && (r == Err(PayloadDecode) <==>
                  && Readable(env, addr, chunks)
                  && SignedFor(env.sig, env.decodeAddress(addr).value, Sent(env, chunks).value)
                  && env.codec.decodePayload(Sent(env, chunks).value.serializedPayload).None?)
  {
    if Readable(env, addr, chunks) {
      ValidIffSigned(env.sig, env.decodeAddress(addr).value, Sent(env, chunks).value);
    }
  }

  /** A validation error names the first part of the signature check that failed. */
  lemma SignatureRefusedIff(env: Env, addr: Bytes, chunks: seq<Option<Bytes>>)
    requires Readable(env, addr, chunks)
    ensures var r, m, s := ScreenPut(env, addr, chunks), Sent(env, chunks).value, env.sig;
            var key, signature := s.parseKey(m.pubKey), s.parseSignature(m.signature);
            var owned := key.Some? && s.hash160(key.value) == env.decodeAddress(addr).value;
            && (r == Err(Validation(Crypto(PubkeyDeserialization))) <==> key.None?)
            && (r == Err(Validation(Preimage)) <==> key.Some? && !owned)
            && (r == Err(Validation(Crypto(SigDeserialization))) <==> owned && signature.None?)
            && (r == Err(Validation(Crypto(Verification))) <==>
                  owned && signature.Some? && !s.verify(s.sha256(m.serializedPayload), key.value, signature.value))
  {
  }

  /** The store can be read, and an expired entry in the way can be deleted. */
  predicate Reachable(c: Codec, t: Table, body: Bytes, now: int, disk: Disk) {
    disk.readOk && (Look(c, t, body, now).Stale? ==> disk.deleteOk)
  }

  /** Each answer of the check-and-put, and exactly when it is given. */
  lemma OfferAnswerIff(c: Codec, t: Table, cand: Candidate, t0: int, t1: int, disk: Disk)
    ensures var r, entry := OfferAnswer(c, t, cand, t0, t1, disk), Look(c, t, cand.body, t0);
            var reached := Reachable(c, t, cand.body, t0, disk);
            var older := entry.Live? && cand.payload.timestamp < entry.payload.timestamp;
            var late := entry.Live? && !older && Expired(cand.payload, t1);
            && (r == Panicked <==> reached && entry.Unreadable?)
            && (r == Done(Err(Validation(Outdated))) <==> reached && older)
            && (r == Done(Err(Validation(ExpiredTTL))) <==> reached && late)
            && (r == Done(Ok(())) <==> reached && !entry.Unreadable? && !older && !late && disk.writeOk)
            && (r == IoError <==> !reached || (!entry.Unreadable? && !older && !late && !disk.writeOk))
  {
  }

  /** A 200 means that the record is what reads return while it is live; any other answer, that reads are as before. */
  lemma PutAnswerIsTrue(c: Codec, t: Table, cand: Candidate, t0: int, t1: int, disk: Disk, body: Bytes, now: int)
    requires Lawful(c) && Fits(cand.metadata) && t0 <= now
    requires c.decodePayload(cand.metadata.serializedPayload) == Some(cand.payload)
    ensures var t' := Offer(c, t, cand, t0, t1, disk);
            GetAnswer(c, t', body, now) ==
            if OfferAnswer(c, t, cand, t0, t1, disk) == Done(Ok(())) && body == cand.body
            then Done(if Expired(cand.payload, now) then None else Some(cand.metadata))
            else GetAnswer(c, t, body, now)
  {
    assert c.decode(c.encode(cand.metadata)) == Some(cand.metadata);
  }

  // ---- The middleware ----

  /** The code of the request's own URL. */
  function OwnToken(cfg: Payments.Config, req: Payments.Request): Bytes {
    cfg.hmac(cfg.secret, req.scheme + Ascii("://") + req.host + Ascii("/keys/") + req.addr)
  }

  /** The prefix, then the token's characters, then some padding. */
  function Spelling(token: Bytes, k: nat): Bytes {
    Ascii("POP ") + Base64Url.Encode(token) + Base64Url.Padding(k)
  }

  /** The header spells the token of the request's own URL, with none, some or all of its padding. */
  ghost predicate CarriesOwnToken(cfg: Payments.Config, req: Payments.Request) {
    var token := OwnToken(cfg, req);
    exists k: nat :: k <= Base64Url.Room(|Base64Url.Encode(token)|) && req.authorization == Some(Spelling(token, k))
  }

  lemma UrlParts(req: Payments.Request)
    ensures Payments.MerchantUrl(req) == req.scheme + Ascii("://") + req.host + Ascii("/keys/") + req.addr
  {
    var base := req.scheme + Ascii("://") + req.host;
    assert base + (Ascii("/keys/") + req.addr) == base + Ascii("/keys/") + req.addr;
  }

  lemma PopIsText()
    ensures Payments.POP == Ascii("POP ")
  {
  }

  lemma PaddedTokenIsVisible(b: Bytes, k: nat)
    ensures Payments.VisibleAscii(Payments.POP + Base64Url.Encode(b) + Base64Url.Padding(k))
  {
    Base64Url.EncodedIsVisible(b);
  }

  lemma SpellingCarriesToken(token: Bytes, k: nat)
    requires k <= Base64Url.Room(|Base64Url.Encode(token)|)
    ensures Payments.TokenIn(Spelling(token, k)) == Some(token)
  {
    var text, header := Base64Url.Encode(token), Spelling(token, k);
    PopIsText();
    PaddedTokenIsVisible(token, k);
    assert header[0..4] == Payments.POP && header[4..] == text + Base64Url.Padding(k);
    Base64Url.DecodesFromIff(header[4..], token);
  }

  lemma TokenIsSpelled(header: Bytes, token: Bytes) returns (k: nat)
    requires Payments.TokenIn(header) == Some(token)
    ensures k <= Base64Url.Room(|Base64Url.Encode(token)|) && header == Spelling(token, k)
  {
    var text := Base64Url.Encode(token);
    PopIsText();
    Base64Url.DecodesFromIff(header[4..], token);
    k :| k <= Base64Url.Room(|text|) && header[4..] == text + Base64Url.Padding(k);
    assert header == header[0..4] + header[4..];
    assert Payments.POP + text + Base64Url.Padding(k) == Payments.POP + (text + Base64Url.Padding(k));
  }

  /** A header carries a token just when it is the prefix followed by one of the token's spellings. */
  lemma TokenInIff(header: Bytes, token: Bytes)
    ensures Payments.TokenIn(header) == Some(token)
            <==> exists k: nat :: k <= Base64Url.Room(|Base64Url.Encode(token)|) && header == Spelling(token, k)
  {
    if Payments.TokenIn(header) == Some(token) {
      var k := TokenIsSpelled(header, token);
    }
    forall k: nat | k <= Base64Url.Room(|Base64Url.Encode(token)|) && header == Spelling(token, k)
      ensures Payments.TokenIn(header) == Some(token)
    {
      SpellingCarriesToken(token, k);
    }
  }

  lemma AdmitsIff(cfg: Payments.Config, req: Payments.Request)
    requires req.isPut
    ensures Payments.Admits(cfg, req) <==> CarriesOwnToken(cfg, req)
  {
    UrlParts(req);
    if req.authorization.Some? {
      TokenInIff(req.authorization.value, OwnToken(cfg, req));
    }
  }

  /** The middleware forwards whatever is not a PUT, and exactly those PUTs that carry the token of their own URL. */
  lemma ForwardsIff(cfg: Payments.Config, req: Payments.Request, node: Payments.NodeReply, time: Payments.Seconds)
    ensures Payments.Respond(cfg, req, node, time) == Payments.Forward <==> !req.isPut || CarriesOwnToken(cfg, req)
    ensures Payments.Respond(cfg, req, node, time) == Payments.Failure(Payments.InvalidAuth)
            <==> req.isPut && req.authorization.Some? && !CarriesOwnToken(cfg, req)
  {
    if req.isPut {
      AdmitsIff(cfg, req);
    }
  }

  /** A PUT without a token is sent an invoice for a fresh address, which becomes outstanding, or told what failed. */
  lemma TokenlessAnswerIff(
    cfg: Payments.Config, req: Payments.Request, node: Payments.NodeReply, time: Payments.Seconds)
    requires req.isPut && req.authorization.None?
    ensures var r, put := Payments.Respond(cfg, req, node, time), cfg.decodeAddress(req.addr);
            && (r == Payments.Failure(Payments.Address) <==> put.None? || node.Undecodable?)
            && (r == Payments.Failure(Payments.AddrFetchFailed) <==> put.Some? && node.Unreachable?)
            && (r == Payments.Failure(Payments.MismatchedNetwork) <==> put.Some? && node.WrongKind?)
            && (r.PaymentRequired? <==> put.Some? && node.NewAddr?)
            && (Payments.Issues(cfg, req, node) == if r.PaymentRequired? then Some(node.body) else None)
  {
  }

  // ---- A payment ----

  /** What a payment must be to be looked at: the declared types, a decodable message, a first transaction. */
  function Message(cfg: Payments.Config, post: Payments.Post): Option<Payment> {
    match Joined(post.chunks)
    case None => None
    case Some(raw) => cfg.codec.decodePayment(raw)
  }

  predicate Typed(post: Payments.Post) {
    && post.contentType == Some(Ascii("application/bitcoincash-payment"))
    && post.accept == Some(Ascii("application/bitcoincash-paymentack"))
  }

  /** Some output pays exactly 5 satoshi to an outstanding address. */
  predicate PaysInvoice(wallet: set<Bytes>, outs: seq<TxOut>) {
    exists i :: 0 <= i < |outs| && outs[i].value == 5
                && ExtractPubkeyHash(outs[i].scriptPubkey).Some? && ExtractPubkeyHash(outs[i].scriptPubkey).value in wallet
  }

  lemma {:induction false} ConsumesIff(wallet: set<Bytes>, outs: seq<TxOut>)
    ensures Consumes(wallet, outs).Some? <==> PaysInvoice(wallet, outs)
  {
    ConsumesFirst(wallet, outs);
    if PaysInvoice(wallet, outs) {
      var i :| 0 <= i < |outs| && outs[i].value == 5
               && ExtractPubkeyHash(outs[i].scriptPubkey).Some?
               && ExtractPubkeyHash(outs[i].scriptPubkey).value in wallet;
      assert PaysOutstanding(wallet, outs[i]);
    }
  }

  /** Before the wallet is asked, each refusal names the first check that failed. */
  lemma PaymentUnreadableIff(cfg: Payments.Config, post: Payments.Post)
    ensures var r, p := Payments.ScreenPayment(cfg, post), Message(cfg, post);
            && (r == Err(Payments.Accept) <==> post.contentType != Some(Ascii("application/bitcoincash-payment")))
            && (r == Err(Payments.Content) <==>
                  && post.contentType == Some(Ascii("application/bitcoincash-payment"))
                  && post.accept != Some(Ascii("application/bitcoincash-paymentack")))
            && (r == Err(Payments.PayloadDecode) <==> Typed(post) && Joined(post.chunks).None?)
            && (r == Err(Payments.Decode) <==> Typed(post) && Joined(post.chunks).Some? && p.None?)
            && (r == Err(Payments.NoTx) <==> Typed(post) && p.Some? && p.value.transactions == [])
            && (r == Err(Payments.TxDeserialize) <==>
                  Typed(post) && p.Some? && p.value.transactions != [] && cfg.decodeTx(p.value.transactions[0]).None?)
            && (r.Ok? <==>
                  Typed(post) && p.Some? && p.value.transactions != [] && cfg.decodeTx(p.value.transactions[0]).Some?)
            && (r.Ok? ==> r == Ok((p.value, cfg.decodeTx(p.value.transactions[0]).value)))
  {
  }

  /** A readable payment is answered 202 exactly when it pays an invoice, the node takes it, and its URL is one. */
  lemma PaymentAnswerIff(
    cfg: Payments.Config, wallet: set<Bytes>, post: Payments.Post, sent: bool, payment: Payment, outs: seq<TxOut>)
    requires Payments.ScreenPayment(cfg, post) == Ok((payment, outs))
    ensures var r, url := Payments.PaymentAnswer(cfg, wallet, post, sent), payment.merchantData;
            var paid := PaysInvoice(wallet, outs);
            var parsed := url.Some? && ValidUtf8(url.value) && cfg.parseUrl(url.value).Some?;
            && (r == Payments.Failure(Payments.InvalidOutputs) <==> !paid)
            && (r == Payments.Failure(Payments.InvalidTx) <==> paid && !sent)
            && (r == Payments.Failure(Payments.NoMerchantDat) <==> paid && sent && url.None?)
            && (r == Payments.Failure(Payments.InvalidMerchantDat) <==> paid && sent && url.Some? && !parsed)
            && (r.Accepted? <==> paid && sent && parsed)
  {
    ConsumesIff(wallet, outs);
  }

  /** A 202 sends the client to the URL in its merchant data, with that URL's token and an acknowledgement. */
  lemma AcceptedSendsToken(cfg: Payments.Config, payment: Payment, sent: bool)
    requires Payments.Settle(cfg, payment, sent).Accepted?
    ensures var r := Payments.Settle(cfg, payment, sent);
            && sent && payment.merchantData.Some?
            && var url := payment.merchantData.value;
               && Some(r.location) == cfg.parseUrl(url)
               && r.authorization == Payments.POP + Base64Url.Encode(cfg.hmac(cfg.secret, url))
               && r.ack == cfg.codec.encodeAck(PaymentAck(payment, Some(Payments.Text(Ascii("Thanks for your custom!")))))
  {
  }
}
