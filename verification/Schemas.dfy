/**
 How a reader of the two schemas takes any list of records: in any order, with repetitions and with records it does
 not know. Field numbers and types are those the schemas declare.
 */
module Schemas {
  import opened Prelude
  import opened Utf8
  import opened Wire
  import opened Script
  import opened Messages
  import opened Bip70

  predicate IsText(f: Field) { f.Delimited? && ValidUtf8(f.bytes) }

  /** The content of the last record with the number, or the default. */
  function LastBytes(fs: seq<Field>, tag: nat, default: Bytes): Bytes
    decreases |fs|
  {
    if fs == [] then default
    else
      LastBytes(fs[1..], tag, if fs[0].tag == tag && fs[0].Delimited? then fs[0].bytes else default)
  }

  function LastText(fs: seq<Field>, tag: nat, default: Str): Str
    decreases |fs|
  {
    if fs == [] then default
    else
      LastText(fs[1..], tag, if fs[0].tag == tag && IsText(fs[0]) then fs[0].bytes else default)
  }

  function LastInt(fs: seq<Field>, tag: nat, default: u64): u64
    decreases |fs|
  {
    if fs == [] then default
    else
      LastInt(fs[1..], tag, if fs[0].tag == tag && fs[0].Varint? then fs[0].value else default)
  }

  function LastMaybeBytes(fs: seq<Field>, tag: nat, default: Option<Bytes>): Option<Bytes>
    decreases |fs|
  {
    if fs == [] then default
    else
      LastMaybeBytes(fs[1..], tag, if fs[0].tag == tag && fs[0].Delimited? then Some(fs[0].bytes) else default)
  }

  function LastMaybeText(fs: seq<Field>, tag: nat, default: Option<Str>): Option<Str>
    decreases |fs|
  {
    if fs == [] then default
    else
      LastMaybeText(fs[1..], tag, if fs[0].tag == tag && IsText(fs[0]) then Some(fs[0].bytes) else default)
  }

  function LastMaybeInt(fs: seq<Field>, tag: nat, default: Option<u64>): Option<u64>
    decreases |fs|
  {
    if fs == [] then default
    else
      LastMaybeInt(fs[1..], tag, if fs[0].tag == tag && fs[0].Varint? then Some(fs[0].value) else default)
  }

  function LastSigned(fs: seq<Field>, tag: nat, default: i64): i64
    decreases |fs|
  {
    if fs == [] then default
    else
      LastSigned(fs[1..], tag, if fs[0].tag == tag && fs[0].Varint? then Signed(fs[0].value) else default)
  }

  function LastEnum(fs: seq<Field>, tag: nat, default: i32): i32
    decreases |fs|
  {
    if fs == [] then default
    else
      LastEnum(fs[1..], tag, if fs[0].tag == tag && fs[0].Varint? then ToI32(fs[0].value) else default)
  }

  /** A 64-bit two's complement integer. */
  function Signed(v: u64): i64 { if v < 0x8000_0000_0000_0000 then v else v - 0x1_0000_0000_0000_0000 }

  predicate IsItem<M>(decode: Bytes -> Option<M>, f: Field) { f.Delimited? && decode(f.bytes).Some? }

  /** What the records with the number hold, in order, after what came before. */
  function Items<M>(decode: Bytes -> Option<M>, fs: seq<Field>, tag: nat, before: seq<M>): seq<M>
    decreases |fs|
  {
    if fs == [] then before
    else
      Items(decode, fs[1..], tag,
            if fs[0].tag == tag && IsItem(decode, fs[0]) then before + [decode(fs[0].bytes).value] else before)
  }

  lemma {:induction false} MergeBy<M>(
    step: (M, Field) -> Option<M>, ok: Field -> bool, sum: (seq<Field>, M) -> M, fs: seq<Field>, m: M)
    requires forall m, f :: step(m, f).Some? <==> ok(f)
    requires forall m :: sum([], m) == m
    requires forall fs, m :: fs != [] && ok(fs[0]) ==> sum(fs, m) == sum(fs[1..], step(m, fs[0]).value)
    ensures Merge(step, fs, m) == if forall f :: f in fs ==> ok(f) then Some(sum(fs, m)) else None
    decreases |fs|
  {
    if fs != [] {
      assert forall f :: f in fs <==> f == fs[0] || f in fs[1..];
      if ok(fs[0]) {
        MergeBy(step, ok, sum, fs[1..], step(m, fs[0]).value);
      }
    }
  }

  // ---- The metadata schema ----

  predicate HeaderField(f: Field) {
    f.tag == 1 || f.tag == 2 ==> IsText(f)
  }

  function HeaderOf(fs: seq<Field>, h: Header): Header {
    Header(LastText(fs, 1, h.name), LastText(fs, 2, h.value))
  }

  lemma HeaderUnfolds(fs: seq<Field>, h: Header)
    requires fs != []
    ensures HeaderStep(h, fs[0]).Some? <==> HeaderField(fs[0])
    ensures HeaderField(fs[0]) ==> HeaderOf(fs, h) == HeaderOf(fs[1..], HeaderStep(h, fs[0]).value)
  {
  }

  /** Two strings, numbered 1 and 2; the last of each counts, and unknown records are skipped. */
  lemma HeaderIsRead(fs: seq<Field>)
    requires forall f :: f in fs ==> ValidField(f)
    ensures DecodeHeader(PrintFields(fs)) ==
            if forall f :: f in fs ==> HeaderField(f)
            then Some(HeaderOf(fs, Header([], [])))
            else None
  {
    FieldsRoundTrip(fs);
    forall h: Header, f ensures HeaderStep(h, f).Some? <==> HeaderField(f) {
      HeaderUnfolds([f], h);
    }
    forall fs, h: Header | fs != [] && HeaderField(fs[0])
      ensures HeaderOf(fs, h) == HeaderOf(fs[1..], HeaderStep(h, fs[0]).value)
    {
      HeaderUnfolds(fs, h);
    }
    MergeBy(HeaderStep, HeaderField, HeaderOf, fs, Header([], []));
  }

  predicate EntryField(f: Field) {
    && (f.tag == 1 ==> IsText(f))
    && (f.tag == 2 ==> IsItem(DecodeHeader, f))
    && (f.tag == 3 ==> f.Delimited?)
  }

  function EntryOf(fs: seq<Field>, e: Entry): Entry {
    Entry(LastText(fs, 1, e.kind), Items(DecodeHeader, fs, 2, e.headers), LastBytes(fs, 3, e.entryData))
  }

  lemma EntryUnfolds(fs: seq<Field>, e: Entry)
    requires fs != []
    ensures EntryStep(e, fs[0]).Some? <==> EntryField(fs[0])
    ensures EntryField(fs[0]) ==> EntryOf(fs, e) == EntryOf(fs[1..], EntryStep(e, fs[0]).value)
  {
  }

  /** A string, headers and bytes, numbered 1 to 3; every header counts, wherever it stands. */
  lemma EntryIsRead(fs: seq<Field>)
    requires forall f :: f in fs ==> ValidField(f)
    ensures DecodeEntry(PrintFields(fs)) ==
            if forall f :: f in fs ==> EntryField(f)
            then Some(EntryOf(fs, Entry([], [], [])))
            else None
  {
    FieldsRoundTrip(fs);
    forall e: Entry, f ensures EntryStep(e, f).Some? <==> EntryField(f) {
      EntryUnfolds([f], e);
    }
    forall fs, e: Entry | fs != [] && EntryField(fs[0])
      ensures EntryOf(fs, e) == EntryOf(fs[1..], EntryStep(e, fs[0]).value)
    {
      EntryUnfolds(fs, e);
    }
    MergeBy(EntryStep, EntryField, EntryOf, fs, Entry([], [], []));
  }

  predicate PayloadField(f: Field) {
    && (f.tag == 1 || f.tag == 2 ==> f.Varint?)
    && (f.tag == 3 ==> IsItem(DecodeEntry, f))
  }

  function PayloadOf(fs: seq<Field>, p: Payload): Payload {
    Payload(
      LastSigned(fs, 1, p.timestamp), LastSigned(fs, 2, p.ttl),
      Items(DecodeEntry, fs, 3, p.entries))
  }

  lemma PayloadUnfolds(fs: seq<Field>, p: Payload)
    requires fs != []
    ensures PayloadStep(p, fs[0]).Some? <==> PayloadField(fs[0])
    ensures PayloadField(fs[0]) ==> PayloadOf(fs, p) == PayloadOf(fs[1..], PayloadStep(p, fs[0]).value)
  {
  }

  /** Timestamp, time to live and entries, numbered 1 to 3; what is missing is zero. */
  lemma PayloadIsRead(fs: seq<Field>)
    requires forall f :: f in fs ==> ValidField(f)
    ensures DecodePayload(PrintFields(fs)) ==
            if forall f :: f in fs ==> PayloadField(f)
            then Some(PayloadOf(fs, Payload(0, 0, [])))
            else None
  {
    FieldsRoundTrip(fs);
    forall p: Payload, f ensures PayloadStep(p, f).Some? <==> PayloadField(f) {
      PayloadUnfolds([f], p);
    }
    forall fs, p: Payload | fs != [] && PayloadField(fs[0])
      ensures PayloadOf(fs, p) == PayloadOf(fs[1..], PayloadStep(p, fs[0]).value)
    {
      PayloadUnfolds(fs, p);
    }
    MergeBy(PayloadStep, PayloadField, PayloadOf, fs, Payload(0, 0, []));
  }

  predicate MetadataField(f: Field) {
    && (f.tag == 1 || f.tag == 2 || f.tag == 4 ==> f.Delimited?)
    && (f.tag == 3 ==> f.Varint?)
  }

  function MetadataOf(fs: seq<Field>, m: AddressMetadata): AddressMetadata {
    AddressMetadata(
      LastBytes(fs, 1, m.pubKey), LastBytes(fs, 2, m.signature), LastEnum(fs, 3, m.scheme),
      LastBytes(fs, 4, m.serializedPayload))
  }

  lemma MetadataUnfolds(fs: seq<Field>, m: AddressMetadata)
    requires fs != []
    ensures MetadataStep(m, fs[0]).Some? <==> MetadataField(fs[0])
    ensures MetadataField(fs[0]) ==> MetadataOf(fs, m) == MetadataOf(fs[1..], MetadataStep(m, fs[0]).value)
  {
  }

  /** Public key, signature, scheme and signed payload, numbered 1 to 4. */
  lemma MetadataIsRead(fs: seq<Field>)
    requires forall f :: f in fs ==> ValidField(f)
    ensures DecodeMetadata(PrintFields(fs)) ==
            if forall f :: f in fs ==> MetadataField(f)
            then Some(MetadataOf(fs, AddressMetadata([], [], 0, [])))
            else None
  {
    FieldsRoundTrip(fs);
    forall m: AddressMetadata, f ensures MetadataStep(m, f).Some? <==> MetadataField(f) {
      MetadataUnfolds([f], m);
    }
    forall fs, m: AddressMetadata | fs != [] && MetadataField(fs[0])
      ensures MetadataOf(fs, m) == MetadataOf(fs[1..], MetadataStep(m, fs[0]).value)
    {
      MetadataUnfolds(fs, m);
    }
    MergeBy(MetadataStep, MetadataField, MetadataOf, fs, AddressMetadata([], [], 0, []));
  }

  // ---- The payment schema ----

  predicate OutputField(f: Field) {
    && (f.tag == 1 ==> f.Varint?)
    && (f.tag == 2 ==> f.Delimited?)
  }

  function OutputOf(fs: seq<Field>, o: Output): Output {
    Output(LastMaybeInt(fs, 1, o.amount), LastBytes(fs, 2, o.script))
  }

  lemma OutputUnfolds(fs: seq<Field>, o: Output)
    requires fs != []
    ensures OutputStep(o, fs[0]).Some? <==> OutputField(fs[0])
    ensures OutputField(fs[0]) ==> OutputOf(fs, o) == OutputOf(fs[1..], OutputStep(o, fs[0]).value)
  {
  }

  /** Amount and script, numbered 1 and 2. */
  lemma OutputIsRead(fs: seq<Field>)
    requires forall f :: f in fs ==> ValidField(f)
    ensures DecodeOutput(PrintFields(fs)) ==
            if forall f :: f in fs ==> OutputField(f)
            then Some(OutputOf(fs, Output(None, [])))
            else None
  {
    FieldsRoundTrip(fs);
    forall o: Output, f ensures OutputStep(o, f).Some? <==> OutputField(f) {
      OutputUnfolds([f], o);
    }
    forall fs, o: Output | fs != [] && OutputField(fs[0])
      ensures OutputOf(fs, o) == OutputOf(fs[1..], OutputStep(o, fs[0]).value)
    {
      OutputUnfolds(fs, o);
    }
    MergeBy(OutputStep, OutputField, OutputOf, fs, Output(None, []));
  }

  predicate PaymentField(f: Field) {
    && (f.tag == 1 || f.tag == 2 ==> f.Delimited?)
    && (f.tag == 3 ==> IsItem(DecodeOutput, f))
    && (f.tag == 4 ==> IsText(f))
  }

  function PaymentOf(fs: seq<Field>, p: Payment): Payment {
    Payment(
      LastMaybeBytes(fs, 1, p.merchantData), Items(b => Some(b), fs, 2, p.transactions),
      Items(DecodeOutput, fs, 3, p.refundTo), LastMaybeText(fs, 4, p.memo))
  }

  lemma PaymentUnfolds(fs: seq<Field>, p: Payment)
    requires fs != []
    ensures PaymentStep(p, fs[0]).Some? <==> PaymentField(fs[0])
    ensures PaymentField(fs[0]) ==> PaymentOf(fs, p) == PaymentOf(fs[1..], PaymentStep(p, fs[0]).value)
  {
  }

  /** Merchant data, transactions, refund outputs and memo, numbered 1 to 4; transactions keep their order. */
  lemma PaymentIsRead(fs: seq<Field>)
    requires forall f :: f in fs ==> ValidField(f)
    ensures DecodePayment(PrintFields(fs)) ==
            if forall f :: f in fs ==> PaymentField(f)
            then Some(PaymentOf(fs, Payment(None, [], [], None)))
            else None
  {
    FieldsRoundTrip(fs);
    forall p: Payment, f ensures PaymentStep(p, f).Some? <==> PaymentField(f) {
      PaymentUnfolds([f], p);
    }
    forall fs, p: Payment | fs != [] && PaymentField(fs[0])
      ensures PaymentOf(fs, p) == PaymentOf(fs[1..], PaymentStep(p, fs[0]).value)
    {
      PaymentUnfolds(fs, p);
    }
    MergeBy(PaymentStep, PaymentField, PaymentOf, fs, Payment(None, [], [], None));
  }

  predicate DetailsField(f: Field) {
    && (f.tag == 1 || f.tag == 5 || f.tag == 6 ==> IsText(f))
    && (f.tag == 2 ==> IsItem(DecodeOutput, f))
    && (f.tag == 3 || f.tag == 4 ==> f.Varint?)
    && (f.tag == 7 ==> f.Delimited?)
  }

  function DetailsOf(fs: seq<Field>, d: PaymentDetails): PaymentDetails {
    PaymentDetails(
      LastMaybeText(fs, 1, d.network), Items(DecodeOutput, fs, 2, d.outputs), LastInt(fs, 3, d.time),
      LastMaybeInt(fs, 4, d.expires), LastMaybeText(fs, 5, d.memo), LastMaybeText(fs, 6, d.paymentUrl),
      LastMaybeBytes(fs, 7, d.merchantData))
  }

  lemma DetailsUnfolds(fs: seq<Field>, d: PaymentDetails)
    requires fs != []
    ensures DetailsStep(d, fs[0]).Some? <==> DetailsField(fs[0])
    ensures DetailsField(fs[0]) ==> DetailsOf(fs, d) == DetailsOf(fs[1..], DetailsStep(d, fs[0]).value)
  {
  }

  /** Network, outputs, time, expiry, memo, payment URL and merchant data, numbered 1 to 7. */
  lemma DetailsIsRead(fs: seq<Field>)
    requires forall f :: f in fs ==> ValidField(f)
    ensures DecodeDetails(PrintFields(fs)) ==
            if forall f :: f in fs ==> DetailsField(f)
            then Some(DetailsOf(fs, PaymentDetails(None, [], 0, None, None, None, None)))
            else None
  {
    FieldsRoundTrip(fs);
    forall d: PaymentDetails, f ensures DetailsStep(d, f).Some? <==> DetailsField(f) {
      DetailsUnfolds([f], d);
    }
    forall fs, d: PaymentDetails | fs != [] && DetailsField(fs[0])
      ensures DetailsOf(fs, d) == DetailsOf(fs[1..], DetailsStep(d, fs[0]).value)
    {
      DetailsUnfolds(fs, d);
    }
    MergeBy(DetailsStep, DetailsField, DetailsOf, fs, PaymentDetails(None, [], 0, None, None, None, None));
  }

  function LastMaybeSmall(fs: seq<Field>, tag: nat, default: Option<u32>): Option<u32>
    decreases |fs|
  {
    if fs == [] then default
    else
      LastMaybeSmall(fs[1..], tag, if fs[0].tag == tag && fs[0].Varint? then Some(fs[0].value % 0x1_0000_0000) else default)
  }

  predicate RequestField(f: Field) {
    && (f.tag == 1 ==> f.Varint?)
    && (f.tag == 2 ==> IsText(f))
    && (f.tag == 3 || f.tag == 4 || f.tag == 5 ==> f.Delimited?)
  }

  function RequestOf(fs: seq<Field>, r: PaymentRequest): PaymentRequest {
    PaymentRequest(
      LastMaybeSmall(fs, 1, r.paymentDetailsVersion), LastMaybeText(fs, 2, r.pkiType), LastMaybeBytes(fs, 3, r.pkiData),
      LastBytes(fs, 4, r.serializedPaymentDetails), LastMaybeBytes(fs, 5, r.signature))
  }

  lemma RequestUnfolds(fs: seq<Field>, r: PaymentRequest)
    requires fs != []
    ensures RequestStep(r, fs[0]).Some? <==> RequestField(fs[0])
    ensures RequestField(fs[0]) ==> RequestOf(fs, r) == RequestOf(fs[1..], RequestStep(r, fs[0]).value)
  {
  }

  /** Version, kind and data of the key infrastructure, details and signature, numbered 1 to 5. */
  lemma RequestIsRead(fs: seq<Field>)
    requires forall f :: f in fs ==> ValidField(f)
    ensures DecodeRequest(PrintFields(fs)) ==
            if forall f :: f in fs ==> RequestField(f)
            then Some(RequestOf(fs, PaymentRequest(None, None, None, [], None)))
            else None
  {
    FieldsRoundTrip(fs);
    forall r: PaymentRequest, f ensures RequestStep(r, f).Some? <==> RequestField(f) {
      RequestUnfolds([f], r);
    }
    forall fs, r: PaymentRequest | fs != [] && RequestField(fs[0])
      ensures RequestOf(fs, r) == RequestOf(fs[1..], RequestStep(r, fs[0]).value)
    {
      RequestUnfolds(fs, r);
    }
    MergeBy(RequestStep, RequestField, RequestOf, fs, PaymentRequest(None, None, None, [], None));
  }

  lemma AckPaymentIsRead(payment: Bytes)
    ensures AckStep(EMPTY_ACK, Delimited(1, payment)) ==
            if DecodePayment(payment).Some? then Some(PaymentAck(DecodePayment(payment).value, None)) else None
  {
  }

  lemma AckMemoIsRead(p: Payment, memo: Bytes)
    ensures AckStep(PaymentAck(p, None), Delimited(2, memo)) ==
            if ValidUtf8(memo) then Some(PaymentAck(p, Some(memo))) else None
  {
  }

  lemma MergeTwo<M>(step: (M, Field) -> Option<M>, f: Field, g: Field, m: M)
    ensures Merge(step, [f, g], m) == match step(m, f) case None => None case Some(next) => step(next, g)
  {
    assert [f, g][1..] == [g] && [g][1..] == [];
    match step(m, f)
    case None =>
    case Some(next) => assert Merge(step, [g], next) == step(next, g);
  }

  /** The payment and a memo, numbered 1 and 2. */
  lemma AckIsRead(payment: Bytes, memo: Bytes)
    requires |payment| < U64_LIMIT && |memo| < U64_LIMIT
    ensures DecodeAck(PrintFields([Delimited(1, payment), Delimited(2, memo)])) ==
            if DecodePayment(payment).Some? && ValidUtf8(memo)
            then Some(PaymentAck(DecodePayment(payment).value, Some(memo))) else None
  {
    FieldsRoundTrip([Delimited(1, payment), Delimited(2, memo)]);
    AckPaymentIsRead(payment);
    match DecodePayment(payment) {
      case None => MergeTwo(AckStep, Delimited(1, payment), Delimited(2, memo), EMPTY_ACK);
      case Some(p) =>
        AckMemoIsRead(p, memo);
        MergeTwo(AckStep, Delimited(1, payment), Delimited(2, memo), EMPTY_ACK);
    }
  }
}
