/** The payment messages exchanged with a client, and their Protocol Buffers encoding. */
module Bip70 {
  import opened Prelude
  import opened Utf8
  import opened Wire
  import opened Script

  datatype PaymentDetails = PaymentDetails(
    network: Option<Str>,
    outputs: seq<Output>,
    time: u64,
    expires: Option<u64>,
    memo: Option<Str>,
    paymentUrl: Option<Str>,
    merchantData: Option<Bytes>)

  datatype PaymentRequest = PaymentRequest(
    paymentDetailsVersion: Option<u32>,
    pkiType: Option<Str>,
    pkiData: Option<Bytes>,
    serializedPaymentDetails: Bytes,
    signature: Option<Bytes>)

  datatype Payment = Payment(
    merchantData: Option<Bytes>,
    transactions: seq<Bytes>,
    refundTo: seq<Output>,
    memo: Option<Str>)

  datatype PaymentAck = PaymentAck(payment: Payment, memo: Option<Str>)

  // ---- Output ----

  const EMPTY_OUTPUT := Output(None, [])

  function OutputPieces(o: Output): seq<seq<Field>> {
    [OptionalIntField(1, o.amount), [Delimited(2, o.script)]]
  }

  function OutputStep(o: Output, f: Field): Option<Output> {
    if f.tag == 1 then
      if f.Varint? then Some(o.(amount := Some(f.value))) else None
    else if f.tag == 2 then
      if f.Delimited? then Some(o.(script := f.bytes)) else None
    else Some(o)
  }

  function EncodeOutput(o: Output): Bytes { PrintFields(Flatten(OutputPieces(o))) }
  function DecodeOutput(s: Bytes): Option<Output> { Decode(OutputStep, EMPTY_OUTPUT, s) }

  lemma OutputRoundTrip(o: Output)
    requires |EncodeOutput(o)| < U64_LIMIT
    ensures DecodeOutput(EncodeOutput(o)) == Some(o)
  {
    SmallMessageRoundTrip(OutputStep, OutputPieces(o), [EMPTY_OUTPUT, Output(o.amount, []), o]);
  }

  function EncodeOutputs(os: seq<Output>): (r: seq<Bytes>)
    ensures |r| == |os|
    ensures forall i :: 0 <= i < |os| ==> r[i] == EncodeOutput(os[i])
  {
    seq(|os|, i requires 0 <= i < |os| => EncodeOutput(os[i]))
  }

  // ---- PaymentDetails ----

  const EMPTY_DETAILS := PaymentDetails(None, [], 0, None, None, None, None)

  function DetailsPieces(d: PaymentDetails): seq<seq<Field>> {
    [OptionalBytesField(1, d.network),
     RepeatedField(2, EncodeOutputs(d.outputs)),
     [Varint(3, d.time)],
     OptionalIntField(4, d.expires),
     OptionalBytesField(5, d.memo),
     OptionalBytesField(6, d.paymentUrl),
     OptionalBytesField(7, d.merchantData)]
  }

  function DetailsStep(d: PaymentDetails, f: Field): Option<PaymentDetails> {
    if f.tag == 1 then
      if f.Delimited? && ValidUtf8(f.bytes) then Some(d.(network := Some(f.bytes))) else None
    else if f.tag == 2 then
      if f.Delimited? then
        match DecodeOutput(f.bytes)
        case None => None
        case Some(o) => Some(d.(outputs := d.outputs + [o]))
      else None
    else if f.tag == 3 then
      if f.Varint? then Some(d.(time := f.value)) else None
    else if f.tag == 4 then
      if f.Varint? then Some(d.(expires := Some(f.value))) else None
    else if f.tag == 5 then
      if f.Delimited? && ValidUtf8(f.bytes) then Some(d.(memo := Some(f.bytes))) else None
    else if f.tag == 6 then
      if f.Delimited? && ValidUtf8(f.bytes) then Some(d.(paymentUrl := Some(f.bytes))) else None
    else if f.tag == 7 then
      if f.Delimited? then Some(d.(merchantData := Some(f.bytes))) else None
    else Some(d)
  }

  function EncodeDetails(d: PaymentDetails): Bytes { PrintFields(Flatten(DetailsPieces(d))) }
  function DecodeDetails(s: Bytes): Option<PaymentDetails> { Decode(DetailsStep, EMPTY_DETAILS, s) }

  lemma OutputIsAppended(d: PaymentDetails, o: Output)
    requires |EncodeOutput(o)| < U64_LIMIT
    ensures DetailsStep(d, Delimited(2, EncodeOutput(o))) == Some(d.(outputs := d.outputs + [o]))
  {
    OutputRoundTrip(o);
  }

  lemma OutputIsMerged(d: PaymentDetails, os: seq<Output>, i: nat)
    requires i < |os| && |EncodeOutput(os[i])| < U64_LIMIT
    ensures DetailsStep(d.(outputs := d.outputs + os[..i]), Delimited(2, EncodeOutput(os[i])))
            == Some(d.(outputs := d.outputs + os[..i + 1]))
  {
    OutputIsAppended(d.(outputs := d.outputs + os[..i]), os[i]);
    assert d.outputs + os[..i] + [os[i]] == d.outputs + os[..i + 1];
  }

  lemma MergeOutputs(d: PaymentDetails, os: seq<Output>)
    requires forall i :: 0 <= i < |os| ==> |EncodeOutput(os[i])| < U64_LIMIT
    ensures Merge(DetailsStep, RepeatedField(2, EncodeOutputs(os)), d) == Some(d.(outputs := d.outputs + os))
  {
    var states := seq(|os| + 1, i requires 0 <= i <= |os| => d.(outputs := d.outputs + os[..i]));
    forall i | 0 <= i < |os|
      ensures DetailsStep(states[i], Delimited(2, EncodeOutputs(os)[i])) == Some(states[i + 1])
    {
      OutputIsMerged(d, os, i);
    }
    MergeRepeated(DetailsStep, 2, EncodeOutputs(os), states);
    assert d.outputs + os[..0] == d.outputs && os[..|os|] == os;
  }

  lemma MergeScalars(d: PaymentDetails)
    ensures Merge(DetailsStep, OptionalBytesField(1, d.network), EMPTY_DETAILS)
            == Some(EMPTY_DETAILS.(network := d.network))
    ensures Merge(DetailsStep, [Varint(3, d.time)], PaymentDetails(d.network, d.outputs, 0, None, None, None, None))
            == Some(PaymentDetails(d.network, d.outputs, d.time, None, None, None, None))
    ensures Merge(DetailsStep, OptionalIntField(4, d.expires), PaymentDetails(d.network, d.outputs, d.time, None, None, None, None))
            == Some(PaymentDetails(d.network, d.outputs, d.time, d.expires, None, None, None))
    ensures Merge(DetailsStep, OptionalBytesField(5, d.memo), PaymentDetails(d.network, d.outputs, d.time, d.expires, None, None, None))
            == Some(PaymentDetails(d.network, d.outputs, d.time, d.expires, d.memo, None, None))
    ensures Merge(DetailsStep, OptionalBytesField(6, d.paymentUrl), d.(paymentUrl := None, merchantData := None))
            == Some(d.(merchantData := None))
    ensures Merge(DetailsStep, OptionalBytesField(7, d.merchantData), d.(merchantData := None)) == Some(d)
  {
  }

  lemma DetailsBuild(d: PaymentDetails) returns (states: seq<PaymentDetails>)
    requires forall i :: 0 <= i < |d.outputs| ==> |EncodeOutput(d.outputs[i])| < U64_LIMIT
    ensures Builds(DetailsStep, DetailsPieces(d), states) && states[0] == EMPTY_DETAILS && states[7] == d
  {
    var d1 := EMPTY_DETAILS.(network := d.network);
    var d2 := d1.(outputs := d.outputs);
    var d3 := d2.(time := d.time);
    var d4 := d3.(expires := d.expires);
    var d5 := d4.(memo := d.memo);
    var d6 := d5.(paymentUrl := d.paymentUrl);
    states := [EMPTY_DETAILS, d1, d2, d3, d4, d5, d6, d];
    forall i | 0 <= i < 7
      ensures Merge(DetailsStep, DetailsPieces(d)[i], states[i]) == Some(states[i + 1])
    {
      if i == 1 {
        MergeOutputs(d1, d.outputs);
        assert [] + d.outputs == d.outputs;
      } else {
        MergeScalars(d);
      }
    }
  }

  lemma DetailsShaped(d: PaymentDetails)
    ensures ShapedPieces(DetailsPieces(d))
  {
  }

  /** A client decodes exactly the details the server wrote. */
  lemma DetailsRoundTrip(d: PaymentDetails)
    requires |EncodeDetails(d)| < U64_LIMIT
    ensures DecodeDetails(EncodeDetails(d)) == Some(d)
  {
    var pieces := DetailsPieces(d);
    ItemsFit(pieces, 1, 2, EncodeOutputs(d.outputs));
    var states := DetailsBuild(d);
    DetailsShaped(d);
    SmallMessageRoundTrip(DetailsStep, pieces, states);
  }

  // ---- PaymentRequest ----

  const EMPTY_REQUEST := PaymentRequest(None, None, None, [], None)

  function RequestPieces(r: PaymentRequest): seq<seq<Field>> {
    [if r.paymentDetailsVersion.None? then [] else [Varint(1, r.paymentDetailsVersion.value)],
     OptionalBytesField(2, r.pkiType),
     OptionalBytesField(3, r.pkiData),
     [Delimited(4, r.serializedPaymentDetails)],
     OptionalBytesField(5, r.signature)]
  }

  function RequestStep(r: PaymentRequest, f: Field): Option<PaymentRequest> {
    if f.tag == 1 then
      if f.Varint? then Some(r.(paymentDetailsVersion := Some(f.value % U32_LIMIT))) else None
    else if f.tag == 2 then
      if f.Delimited? && ValidUtf8(f.bytes) then Some(r.(pkiType := Some(f.bytes))) else None
    else if f.tag == 3 then
      if f.Delimited? then Some(r.(pkiData := Some(f.bytes))) else None
    else if f.tag == 4 then
      if f.Delimited? then Some(r.(serializedPaymentDetails := f.bytes)) else None
    else if f.tag == 5 then
      if f.Delimited? then Some(r.(signature := Some(f.bytes))) else None
    else Some(r)
  }

  function EncodeRequest(r: PaymentRequest): Bytes { PrintFields(Flatten(RequestPieces(r))) }
  function DecodeRequest(s: Bytes): Option<PaymentRequest> { Decode(RequestStep, EMPTY_REQUEST, s) }

  lemma RequestBuild(r: PaymentRequest) returns (states: seq<PaymentRequest>)
    ensures Builds(RequestStep, RequestPieces(r), states) && states[0] == EMPTY_REQUEST && states[5] == r
  {
    var r1 := EMPTY_REQUEST.(paymentDetailsVersion := r.paymentDetailsVersion);
    var r2 := r1.(pkiType := r.pkiType);
    var r3 := r2.(pkiData := r.pkiData);
    var r4 := r3.(serializedPaymentDetails := r.serializedPaymentDetails);
    states := [EMPTY_REQUEST, r1, r2, r3, r4, r];
    forall i | 0 <= i < 5
      ensures Merge(RequestStep, RequestPieces(r)[i], states[i]) == Some(states[i + 1])
    {
    }
  }

  lemma RequestRoundTrip(r: PaymentRequest)
    requires |EncodeRequest(r)| < U64_LIMIT
    ensures DecodeRequest(EncodeRequest(r)) == Some(r)
  {
    var states := RequestBuild(r);
    SmallMessageRoundTrip(RequestStep, RequestPieces(r), states);
  }

  lemma DetailsInRequestFit(r: PaymentRequest)
    requires |EncodeRequest(r)| < U64_LIMIT
    ensures |r.serializedPaymentDetails| < U64_LIMIT
  {
    var pieces := RequestPieces(r);
    PartsFit(Flatten(pieces));
    FlattenMembers(pieces, pieces[3][0]);
  }

  /** The details inside an invoice's bytes. */
  function ReadInvoice(invoice: Bytes): Option<PaymentDetails> {
    match DecodeRequest(invoice)
    case None => None
    case Some(request) => DecodeDetails(request.serializedPaymentDetails)
  }

  lemma InvoiceIsReadable(r: PaymentRequest, d: PaymentDetails)
    requires r.serializedPaymentDetails == EncodeDetails(d) && |EncodeRequest(r)| < U64_LIMIT
    ensures ReadInvoice(EncodeRequest(r)) == Some(d)
  {
    RequestRoundTrip(r);
    DetailsInRequestFit(r);
    DetailsRoundTrip(d);
  }

  // ---- Payment ----

  const EMPTY_PAYMENT := Payment(None, [], [], None)

  function PaymentPieces(p: Payment): seq<seq<Field>> {
    [OptionalBytesField(1, p.merchantData),
     RepeatedField(2, p.transactions),
     RepeatedField(3, EncodeOutputs(p.refundTo)),
     OptionalBytesField(4, p.memo)]
  }

  function PaymentStep(p: Payment, f: Field): Option<Payment> {
    if f.tag == 1 then
      if f.Delimited? then Some(p.(merchantData := Some(f.bytes))) else None
    else if f.tag == 2 then
      if f.Delimited? then Some(p.(transactions := p.transactions + [f.bytes])) else None
    else if f.tag == 3 then
      if f.Delimited? then
        match DecodeOutput(f.bytes)
        case None => None
        case Some(o) => Some(p.(refundTo := p.refundTo + [o]))
      else None
    else if f.tag == 4 then
      if f.Delimited? && ValidUtf8(f.bytes) then Some(p.(memo := Some(f.bytes))) else None
    else Some(p)
  }

  function EncodePayment(p: Payment): Bytes { PrintFields(Flatten(PaymentPieces(p))) }
  function DecodePayment(s: Bytes): Option<Payment> { Decode(PaymentStep, EMPTY_PAYMENT, s) }

  lemma MergeTransactions(p: Payment, txs: seq<Bytes>)
    ensures Merge(PaymentStep, RepeatedField(2, txs), p) == Some(p.(transactions := p.transactions + txs))
  {
    var states := seq(|txs| + 1, i requires 0 <= i <= |txs| => p.(transactions := p.transactions + txs[..i]));
    forall i | 0 <= i < |txs|
      ensures PaymentStep(states[i], Delimited(2, txs[i])) == Some(states[i + 1])
    {
      assert p.transactions + txs[..i] + [txs[i]] == p.transactions + txs[..i + 1];
    }
    MergeRepeated(PaymentStep, 2, txs, states);
    assert p.transactions + txs[..0] == p.transactions && txs[..|txs|] == txs;
  }

  lemma RefundIsAppended(p: Payment, o: Output)
    requires |EncodeOutput(o)| < U64_LIMIT
    ensures PaymentStep(p, Delimited(3, EncodeOutput(o))) == Some(p.(refundTo := p.refundTo + [o]))
  {
    OutputRoundTrip(o);
  }

  lemma RefundIsMerged(p: Payment, os: seq<Output>, i: nat)
    requires i < |os| && |EncodeOutput(os[i])| < U64_LIMIT
    ensures PaymentStep(p.(refundTo := p.refundTo + os[..i]), Delimited(3, EncodeOutput(os[i])))
            == Some(p.(refundTo := p.refundTo + os[..i + 1]))
  {
    RefundIsAppended(p.(refundTo := p.refundTo + os[..i]), os[i]);
    assert p.refundTo + os[..i] + [os[i]] == p.refundTo + os[..i + 1];
  }

  lemma MergeRefunds(p: Payment, os: seq<Output>)
    requires forall i :: 0 <= i < |os| ==> |EncodeOutput(os[i])| < U64_LIMIT
    ensures Merge(PaymentStep, RepeatedField(3, EncodeOutputs(os)), p) == Some(p.(refundTo := p.refundTo + os))
  {
    var states := seq(|os| + 1, i requires 0 <= i <= |os| => p.(refundTo := p.refundTo + os[..i]));
    forall i | 0 <= i < |os|
      ensures PaymentStep(states[i], Delimited(3, EncodeOutputs(os)[i])) == Some(states[i + 1])
    {
      RefundIsMerged(p, os, i);
    }
    MergeRepeated(PaymentStep, 3, EncodeOutputs(os), states);
    assert p.refundTo + os[..0] == p.refundTo && os[..|os|] == os;
  }

  lemma MergePaymentEnds(p: Payment)
    ensures Merge(PaymentStep, OptionalBytesField(1, p.merchantData), EMPTY_PAYMENT)
            == Some(EMPTY_PAYMENT.(merchantData := p.merchantData))
    ensures Merge(PaymentStep, OptionalBytesField(4, p.memo), p.(memo := None)) == Some(p)
  {
  }

  lemma PaymentBuild(p: Payment) returns (states: seq<Payment>)
    requires forall i :: 0 <= i < |p.refundTo| ==> |EncodeOutput(p.refundTo[i])| < U64_LIMIT
    ensures Builds(PaymentStep, PaymentPieces(p), states) && states[0] == EMPTY_PAYMENT && states[4] == p
    ensures ShapedPieces(PaymentPieces(p))
  {
    var p1 := EMPTY_PAYMENT.(merchantData := p.merchantData);
    var p2 := p1.(transactions := p.transactions);
    var p3 := p2.(refundTo := p.refundTo);
    states := [EMPTY_PAYMENT, p1, p2, p3, p];
    forall i | 0 <= i < 4
      ensures Merge(PaymentStep, PaymentPieces(p)[i], states[i]) == Some(states[i + 1])
    {
      if i == 1 {
        MergeTransactions(p1, p.transactions);
        assert [] + p.transactions == p.transactions;
      } else if i == 2 {
        MergeRefunds(p2, p.refundTo);
        assert [] + p.refundTo == p.refundTo;
      } else {
        MergePaymentEnds(p);
      }
    }
  }

  /** The server decodes exactly the payment a client wrote. */
  lemma PaymentRoundTrip(p: Payment)
    requires |EncodePayment(p)| < U64_LIMIT
    ensures DecodePayment(EncodePayment(p)) == Some(p)
  {
    var pieces := PaymentPieces(p);
    ItemsFit(pieces, 2, 3, EncodeOutputs(p.refundTo));
    var states := PaymentBuild(p);
    SmallMessageRoundTrip(PaymentStep, pieces, states);
  }

  // ---- PaymentAck ----

  const EMPTY_ACK := PaymentAck(EMPTY_PAYMENT, None)

  function AckPieces(a: PaymentAck): seq<seq<Field>> {
    [[Delimited(1, EncodePayment(a.payment))], OptionalBytesField(2, a.memo)]
  }

  /** A repeated occurrence of a nested message is merged into the earlier one. */
  function AckStep(a: PaymentAck, f: Field): Option<PaymentAck> {
    if f.tag == 1 then
      if f.Delimited? then
        match Decode(PaymentStep, a.payment, f.bytes)
        case None => None
        case Some(p) => Some(a.(payment := p))
      else None
    else if f.tag == 2 then
      if f.Delimited? && ValidUtf8(f.bytes) then Some(a.(memo := Some(f.bytes))) else None
    else Some(a)
  }

  function EncodeAck(a: PaymentAck): Bytes { PrintFields(Flatten(AckPieces(a))) }
  function DecodeAck(s: Bytes): Option<PaymentAck> { Decode(AckStep, EMPTY_ACK, s) }

  lemma MergeAck(a: PaymentAck)
    requires |EncodePayment(a.payment)| < U64_LIMIT
    ensures Merge(AckStep, [Delimited(1, EncodePayment(a.payment))], EMPTY_ACK) == Some(PaymentAck(a.payment, None))
    ensures Merge(AckStep, OptionalBytesField(2, a.memo), PaymentAck(a.payment, None)) == Some(a)
  {
    PaymentRoundTrip(a.payment);
  }

  /** The payment a client finds in the acknowledgement is the payment it sent. */
  lemma AckRoundTrip(a: PaymentAck)
    requires |EncodeAck(a)| < U64_LIMIT
    ensures DecodeAck(EncodeAck(a)) == Some(a)
  {
    var pieces := AckPieces(a);
    PartsFit(Flatten(pieces));
    assert pieces[0] == [Delimited(1, EncodePayment(a.payment))];
    FlattenMembers(pieces, pieces[0][0]);
    MergeAck(a);
    SmallMessageRoundTrip(AckStep, pieces, [EMPTY_ACK, PaymentAck(a.payment, None), a]);
  }
}
