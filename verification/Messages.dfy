/** The signed metadata a keyserver stores, and its Protocol Buffers encoding. */
module Messages {
  import opened Prelude
  import opened Utf8
  import opened Wire

  datatype Header = Header(name: Str, value: Str)

  datatype Entry = Entry(kind: Str, headers: seq<Header>, entryData: Bytes)

  datatype Payload = Payload(timestamp: i64, ttl: i64, entries: seq<Entry>)

  datatype AddressMetadata = AddressMetadata(
    pubKey: Bytes,
    signature: Bytes,
    scheme: i32,
    serializedPayload: Bytes)

  const ECDSA: i32 := 1

  // ---- Header ----

  const EMPTY_HEADER := Header([], [])

  function HeaderPieces(h: Header): seq<seq<Field>> {
    [BytesField(1, h.name), BytesField(2, h.value)]
  }

  function HeaderStep(h: Header, f: Field): Option<Header> {
    if f.tag == 1 then
      if f.Delimited? && ValidUtf8(f.bytes) then Some(h.(name := f.bytes)) else None
    else if f.tag == 2 then
      if f.Delimited? && ValidUtf8(f.bytes) then Some(h.(value := f.bytes)) else None
    else Some(h)
  }

  function EncodeHeader(h: Header): Bytes { PrintFields(Flatten(HeaderPieces(h))) }
  function DecodeHeader(s: Bytes): Option<Header> { Decode(HeaderStep, EMPTY_HEADER, s) }

  lemma HeaderRoundTrip(h: Header)
    requires |EncodeHeader(h)| < U64_LIMIT
    ensures DecodeHeader(EncodeHeader(h)) == Some(h)
  {
    SmallMessageRoundTrip(HeaderStep, HeaderPieces(h), [EMPTY_HEADER, Header(h.name, []), h]);
  }

  // ---- Entry ----

  const EMPTY_ENTRY := Entry([], [], [])

  function EncodeHeaders(hs: seq<Header>): (r: seq<Bytes>)
    ensures |r| == |hs|
    ensures forall i :: 0 <= i < |hs| ==> r[i] == EncodeHeader(hs[i])
  {
    seq(|hs|, i requires 0 <= i < |hs| => EncodeHeader(hs[i]))
  }

  function EntryPieces(e: Entry): seq<seq<Field>> {
    [BytesField(1, e.kind), RepeatedField(2, EncodeHeaders(e.headers)), BytesField(3, e.entryData)]
  }

  function EntryStep(e: Entry, f: Field): Option<Entry> {
    if f.tag == 1 then
      if f.Delimited? && ValidUtf8(f.bytes) then Some(e.(kind := f.bytes)) else None
    else if f.tag == 2 then
      if f.Delimited? then
        match DecodeHeader(f.bytes)
        case None => None
        case Some(h) => Some(e.(headers := e.headers + [h]))
      else None
    else if f.tag == 3 then
      if f.Delimited? then Some(e.(entryData := f.bytes)) else None
    else Some(e)
  }

  function EncodeEntry(e: Entry): Bytes { PrintFields(Flatten(EntryPieces(e))) }
  function DecodeEntry(s: Bytes): Option<Entry> { Decode(EntryStep, EMPTY_ENTRY, s) }

  lemma HeaderIsAppended(e: Entry, h: Header)
    requires |EncodeHeader(h)| < U64_LIMIT
    ensures EntryStep(e, Delimited(2, EncodeHeader(h))) == Some(e.(headers := e.headers + [h]))
  {
    HeaderRoundTrip(h);
  }

  lemma HeaderIsMerged(e: Entry, hs: seq<Header>, i: nat)
    requires i < |hs| && |EncodeHeader(hs[i])| < U64_LIMIT
    ensures EntryStep(e.(headers := e.headers + hs[..i]), Delimited(2, EncodeHeader(hs[i])))
            == Some(e.(headers := e.headers + hs[..i + 1]))
  {
    HeaderIsAppended(e.(headers := e.headers + hs[..i]), hs[i]);
    assert e.headers + hs[..i] + [hs[i]] == e.headers + hs[..i + 1];
  }

  lemma MergeHeaders(e: Entry, hs: seq<Header>)
    requires forall i :: 0 <= i < |hs| ==> |EncodeHeader(hs[i])| < U64_LIMIT
    ensures Merge(EntryStep, RepeatedField(2, EncodeHeaders(hs)), e) == Some(e.(headers := e.headers + hs))
  {
    var states := seq(|hs| + 1, i requires 0 <= i <= |hs| => e.(headers := e.headers + hs[..i]));
    forall i | 0 <= i < |hs|
      ensures EntryStep(states[i], Delimited(2, EncodeHeaders(hs)[i])) == Some(states[i + 1])
    {
      HeaderIsMerged(e, hs, i);
    }
    MergeRepeated(EntryStep, 2, EncodeHeaders(hs), states);
    assert e.headers + hs[..0] == e.headers && hs[..|hs|] == hs;
  }

  lemma MergeEntryBytes(e: Entry)
    ensures Merge(EntryStep, BytesField(1, e.kind), EMPTY_ENTRY) == Some(Entry(e.kind, [], []))
    ensures Merge(EntryStep, BytesField(3, e.entryData), Entry(e.kind, e.headers, [])) == Some(e)
  {
  }

  lemma EntryRoundTrip(e: Entry)
    requires |EncodeEntry(e)| < U64_LIMIT
    ensures DecodeEntry(EncodeEntry(e)) == Some(e)
  {
    var pieces := EntryPieces(e);
    ItemsFit(pieces, 1, 2, EncodeHeaders(e.headers));
    var named := Entry(e.kind, [], []);
    MergeEntryBytes(e);
    MergeHeaders(named, e.headers);
    assert [] + e.headers == e.headers;
    SmallMessageRoundTrip(EntryStep, pieces, [EMPTY_ENTRY, named, Entry(e.kind, e.headers, []), e]);
  }

  // ---- Payload ----

  const EMPTY_PAYLOAD := Payload(0, 0, [])

  function EncodeEntries(es: seq<Entry>): (r: seq<Bytes>)
    ensures |r| == |es|
    ensures forall i :: 0 <= i < |es| ==> r[i] == EncodeEntry(es[i])
  {
    seq(|es|, i requires 0 <= i < |es| => EncodeEntry(es[i]))
  }

  function PayloadPieces(p: Payload): seq<seq<Field>> {
    [IntField(1, FromI64(p.timestamp)), IntField(2, FromI64(p.ttl)), RepeatedField(3, EncodeEntries(p.entries))]
  }

  function PayloadStep(p: Payload, f: Field): Option<Payload> {
    if f.tag == 1 then
      if f.Varint? then Some(p.(timestamp := ToI64(f.value))) else None
    else if f.tag == 2 then
      if f.Varint? then Some(p.(ttl := ToI64(f.value))) else None
    else if f.tag == 3 then
      if f.Delimited? then
        match DecodeEntry(f.bytes)
        case None => None
        case Some(e) => Some(p.(entries := p.entries + [e]))
      else None
    else Some(p)
  }

  function EncodePayload(p: Payload): Bytes { PrintFields(Flatten(PayloadPieces(p))) }
  function DecodePayload(s: Bytes): Option<Payload> { Decode(PayloadStep, EMPTY_PAYLOAD, s) }

  lemma EntryIsAppended(p: Payload, e: Entry)
    requires |EncodeEntry(e)| < U64_LIMIT
    ensures PayloadStep(p, Delimited(3, EncodeEntry(e))) == Some(p.(entries := p.entries + [e]))
  {
    EntryRoundTrip(e);
  }

  lemma EntryIsMerged(p: Payload, es: seq<Entry>, i: nat)
    requires i < |es| && |EncodeEntry(es[i])| < U64_LIMIT
    ensures PayloadStep(p.(entries := p.entries + es[..i]), Delimited(3, EncodeEntry(es[i])))
            == Some(p.(entries := p.entries + es[..i + 1]))
  {
    EntryIsAppended(p.(entries := p.entries + es[..i]), es[i]);
    assert p.entries + es[..i] + [es[i]] == p.entries + es[..i + 1];
  }

  lemma MergeEntries(p: Payload, es: seq<Entry>)
    requires forall i :: 0 <= i < |es| ==> |EncodeEntry(es[i])| < U64_LIMIT
    ensures Merge(PayloadStep, RepeatedField(3, EncodeEntries(es)), p) == Some(p.(entries := p.entries + es))
  {
    var states := seq(|es| + 1, i requires 0 <= i <= |es| => p.(entries := p.entries + es[..i]));
    forall i | 0 <= i < |es|
      ensures PayloadStep(states[i], Delimited(3, EncodeEntries(es)[i])) == Some(states[i + 1])
    {
      EntryIsMerged(p, es, i);
    }
    MergeRepeated(PayloadStep, 3, EncodeEntries(es), states);
    assert p.entries + es[..0] == p.entries && es[..|es|] == es;
  }

  lemma MergeTimes(p: Payload)
    ensures Merge(PayloadStep, IntField(1, FromI64(p.timestamp)), EMPTY_PAYLOAD) == Some(Payload(p.timestamp, 0, []))
    ensures Merge(PayloadStep, IntField(2, FromI64(p.ttl)), Payload(p.timestamp, 0, []))
            == Some(Payload(p.timestamp, p.ttl, []))
  {
    IntegersRoundTrip(p.timestamp, 0);
    IntegersRoundTrip(p.ttl, 0);
  }

  /** A payload read back from its own encoding is the same payload. */
  lemma PayloadRoundTrip(p: Payload)
    requires |EncodePayload(p)| < U64_LIMIT
    ensures DecodePayload(EncodePayload(p)) == Some(p)
  {
    var pieces := PayloadPieces(p);
    ItemsFit(pieces, 2, 3, EncodeEntries(p.entries));
    MergeTimes(p);
    var timed := Payload(p.timestamp, p.ttl, []);
    MergeEntries(timed, p.entries);
    assert [] + p.entries == p.entries;
    SmallMessageRoundTrip(PayloadStep, pieces, [EMPTY_PAYLOAD, Payload(p.timestamp, 0, []), timed, p]);
  }

  // ---- AddressMetadata ----

  const EMPTY_METADATA := AddressMetadata([], [], 0, [])

  function MetadataPieces(m: AddressMetadata): seq<seq<Field>> {
    [BytesField(1, m.pubKey), BytesField(2, m.signature), IntField(3, FromI32(m.scheme)), BytesField(4, m.serializedPayload)]
  }

  function MetadataStep(m: AddressMetadata, f: Field): Option<AddressMetadata> {
    if f.tag == 1 then
      if f.Delimited? then Some(m.(pubKey := f.bytes)) else None
    else if f.tag == 2 then
      if f.Delimited? then Some(m.(signature := f.bytes)) else None
    else if f.tag == 3 then
      if f.Varint? then Some(m.(scheme := ToI32(f.value))) else None
    else if f.tag == 4 then
      if f.Delimited? then Some(m.(serializedPayload := f.bytes)) else None
    else Some(m)
  }

  function EncodeMetadata(m: AddressMetadata): Bytes { PrintFields(Flatten(MetadataPieces(m))) }
  function DecodeMetadata(s: Bytes): Option<AddressMetadata> { Decode(MetadataStep, EMPTY_METADATA, s) }

  /** Every buffer of the message is short enough for its length to be a 64-bit integer. */
  predicate Fits(m: AddressMetadata) {
    |m.pubKey| < U64_LIMIT && |m.signature| < U64_LIMIT && |m.serializedPayload| < U64_LIMIT
  }

  type Metadata = m: AddressMetadata | Fits(m) witness EMPTY_METADATA

  /** A stored message read back is the same message. */
  lemma MetadataRoundTrip(m: Metadata)
    ensures DecodeMetadata(EncodeMetadata(m)) == Some(m)
  {
    IntegersRoundTrip(0, m.scheme);
    var pieces := MetadataPieces(m);
    forall f | f in Flatten(pieces) && f.Delimited? ensures |f.bytes| < U64_LIMIT {
      FlattenMembers(pieces, f);
    }
    var m1 := EMPTY_METADATA.(pubKey := m.pubKey);
    var m2 := m1.(signature := m.signature);
    MessageRoundTrip(MetadataStep, pieces, [EMPTY_METADATA, m1, m2, m2.(scheme := m.scheme), m]);
  }

  lemma {:induction false} MergedMetadataFits(fs: seq<Field>, m: Metadata)
    requires forall f :: f in fs ==> ValidField(f)
    ensures var r := Merge(MetadataStep, fs, m); r.Some? ==> Fits(r.value)
    decreases |fs|
  {
    if fs != [] {
      assert ValidField(fs[0]);
      match MetadataStep(m, fs[0])
      case None =>
      case Some(next) => MergedMetadataFits(fs[1..], next);
    }
  }

  /** Whatever bytes arrive, the message read from them can be stored and read back. */
  lemma DecodedMetadataFits(s: Bytes)
    ensures var r := DecodeMetadata(s); r.Some? ==> Fits(r.value)
  {
    match ParseFields(s)
    case None =>
    case Some(fs) => MergedMetadataFits(fs, EMPTY_METADATA);
  }
}
