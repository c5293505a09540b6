/** What the store needs of its encoding, and the proof that the Protocol Buffers encoding provides it. */
module Codecs {
  import opened Prelude
  import opened Wire
  import opened Messages

  datatype Codec = Codec(
    encode: AddressMetadata -> Bytes,
    decode: Bytes -> Option<AddressMetadata>,
    decodePayload: Bytes -> Option<Payload>)

  const PROTOBUF: Codec := Codec(EncodeMetadata, DecodeMetadata, DecodePayload)

  /** The bodies of a keyserver's own error responses to a GET. */
  const NOT_FOUND: Bytes := Ascii("not found")
  const DB_ERROR: Bytes := Ascii("internal db error")

  /**
   What is written can be read back, what is read can be written,
   and neither error body can be mistaken for a record.
   */
  ghost predicate Lawful(c: Codec) {
    && (forall m: Metadata :: c.decode(c.encode(m)) == Some(m))
    && (forall raw :: c.decode(raw).Some? ==> Fits(c.decode(raw).value))
    && c.decode(NOT_FOUND).None?
    && c.decode(DB_ERROR).None?
  }

  /** A byte below 128 is a varint by itself. */
  lemma SmallVarint(s: Bytes)
    requires s != [] && s[0] < 128
    ensures ParseVarint(s) == Some((s[0] as u64, s[1..]))
  {
  }

  /** 'n' announces a field of wire type 6, which does not exist. */
  lemma NotFoundIsNoRecord()
    ensures DecodeMetadata(NOT_FOUND).None?
  {
    assert NOT_FOUND[0] == 110;
    SmallVarint(NOT_FOUND);
    assert ParseField(NOT_FOUND).None?;
  }

  /** 'i' announces eight bytes to skip; the 'd' after them announces the end of a group that never began. */
  lemma DbErrorIsNoRecord()
    ensures DecodeMetadata(DB_ERROR).None?
  {
    assert DB_ERROR[0] == 105 && DB_ERROR[9] == 100;
    SmallVarint(DB_ERROR);
    var rest := DB_ERROR[9..];
    assert DB_ERROR[1..][8..] == rest;
    assert ParseField(DB_ERROR) == Some((Fixed64(13, DB_ERROR[1..9]), rest)) by {
      assert DB_ERROR[1..][..8] == DB_ERROR[1..9];
    }
    SmallVarint(rest);
    assert ParseField(rest).None?;
    assert ParseFields(rest).None?;
  }

  lemma ProtobufIsLawful()
    ensures Lawful(PROTOBUF)
  {
    forall m: Metadata ensures PROTOBUF.decode(PROTOBUF.encode(m)) == Some(m) {
      MetadataRoundTrip(m);
    }
    forall raw | PROTOBUF.decode(raw).Some? ensures Fits(PROTOBUF.decode(raw).value) {
      DecodedMetadataFits(raw);
    }
    NotFoundIsNoRecord();
    DbErrorIsNoRecord();
  }
}
