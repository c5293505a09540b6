/** From a paid invoice to the other servers. */
module Replication {
  import opened Prelude
  import opened Utf8
  import opened Messages
  import opened Codecs
  import opened Script
  import opened Authentication
  import opened KeyDb
  import opened Handlers
  import opened Wallet
  import Payments
  import Registers
  import HonestClient

  /** The transaction holds both outputs of the invoice, among outputs that are not keyserver OP_RETURNs. */
  ghost predicate PaysInvoice(own: Str, invoice: seq<Output>, outs: seq<TxOut>, i: nat, j: nat)
    requires |invoice| == 2 && invoice[0].amount.Some? && invoice[1].amount.Some?
  {
    && i < |outs| && outs[i] == TxOut(invoice[0].amount.value, invoice[0].script)
    && j < |outs| && outs[j] == TxOut(invoice[1].amount.value, invoice[1].script)
    && forall k :: 0 <= k < |outs| && k != i && k != j ==> ExtractOpReturn(own, outs[k].scriptPubkey).None?
  }

  /**
   Wherever its outputs stand, a transaction that pays an invoice passes the wallet's check while the invoice's
   address is outstanding; and the server bound at `own` learns the invoice's URL and address from it just when
   the address body has 20 bytes, the URL has 1 to 226 bytes, and the URL is not its own.
   */
  lemma InvoiceIsAnnouncedIff(
    own: Str, wallet: set<Bytes>, hash: Bytes, baseUrl: Str, putBody: Bytes, outs: seq<TxOut>, i: nat, j: nat)
    requires |hash| == 20
    requires PaysInvoice(own, GenerateOutputs(hash, baseUrl, putBody), outs, i, j)
    ensures hash in wallet ==> Consumes(wallet, outs).Some?
    ensures ExtractDetails(own, outs) == Some((baseUrl, putBody))
            <==> |putBody| == 20 && 1 <= |baseUrl| <= 226 && baseUrl != own
  {
    if hash in wallet {
      HonestClient.InvoiceOutputPays(wallet, hash, outs, i);
    }
    PubkeyHashRecoveredIff(hash, baseUrl, putBody);
    ParsersAreInjectiveAndDisjoint(own, outs[i].scriptPubkey, []);
    OpReturnRecoveredIff(own, hash, baseUrl, putBody);
    if ExtractOpReturn(own, outs[j].scriptPubkey).Some? {
      ExtractDetailsIsFirst(own, outs, j);
    } else {
      assert j != i ==> ExtractOpReturn(own, outs[j].scriptPubkey).None?;
      NoDetails(own, outs);
    }
  }

  /**
   A paid PUT reaches the peers: once a server has stored a record for which an invoice was paid, a peer that sees
   the transaction and polls the server holds, for that address, a record at least as new.
   */
  lemma PaidPutReachesPeer(
    env: Env, own: Str, hash: Bytes, req: Payments.Request, outs: seq<TxOut>, i: nat, j: nat,
    a: Table, chunks: seq<Option<Bytes>>, t0: int, t1: int, nowA: int, b: Table, item: PollItem)
    requires Lawful(env.codec)
    requires ScreenPut(env, req.addr, chunks).Ok?
    requires var cand := ScreenPut(env, req.addr, chunks).value;
             && OfferAnswer(env.codec, a, cand, t0, t1, HEALTHY) == Done(Ok(()))
             && !Expired(cand.payload, nowA) && !Expired(cand.payload, item.t1)
             && |hash| == 20 && |cand.body| == 20
             && 1 <= |Payments.BaseUrl(req)| <= 226 && Payments.BaseUrl(req) != own
             && PaysInvoice(own, GenerateOutputs(hash, Payments.BaseUrl(req), cand.body), outs, i, j)
             && item.details == ExtractDetails(own, outs) && item.encodable && item.disk == HEALTHY
             && item.response == GetBody(env.codec, PutTable(env, a, req.addr, chunks, t0, t1, HEALTHY), cand.body, nowA)
             && !Look(env.codec, b, cand.body, item.t0).Unreadable?
    ensures var cand := ScreenPut(env, req.addr, chunks).value;
            var b' := PollTable(env, b, item);
            && item.details == Some((Payments.BaseUrl(req), cand.body))
            && cand.body in b' && env.codec.decode(b'[cand.body]).Some?
            && Registers.StoredTimestamp(env.codec, b', cand.body) >= cand.payload.timestamp
  {
    var cand := ScreenPut(env, req.addr, chunks).value;
    InvoiceIsAnnouncedIff(own, {}, hash, Payments.BaseUrl(req), cand.body, outs, i, j);
    var a' := PutTable(env, a, req.addr, chunks, t0, t1, HEALTHY);
    assert env.codec.decode(env.codec.encode(cand.metadata)) == Some(cand.metadata);
    assert Look(env.codec, a', cand.body, nowA) == Live(cand.metadata, cand.payload);
    ValidIffSigned(env.sig, cand.body, cand.metadata);
    Registers.PullIsJoin(env, a', b, nowA, item);
  }
}
