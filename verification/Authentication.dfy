/** Who may write under an address: the check every stored record has passed. */
module Authentication {
  import opened Prelude
  import opened Messages

  datatype CryptoError = PubkeyDeserialization | SigDeserialization | Verification

  datatype ValidationError = Preimage | Outdated | ExpiredTTL | Crypto(error: CryptoError)

  /**
   The primitives, about which nothing is assumed. A key is represented by its own serialization,
   so `parseKey` maps the bytes a client sends (in any accepted form) to the canonical ones.
   */
  datatype SigScheme = SigScheme(
    parseKey: Bytes -> Option<Bytes>,
    parseSignature: Bytes -> Option<Bytes>,
    hash160: Bytes -> Bytes,
    sha256: Bytes -> Bytes,
    verify: (Bytes, Bytes, Bytes) -> bool)

  function Validate(s: SigScheme, body: Bytes, metadata: AddressMetadata): Result<(), ValidationError> {
    match s.parseKey(metadata.pubKey)
    case None => Err(Crypto(PubkeyDeserialization))
    case Some(key) =>
      if s.hash160(key) != body then Err(Preimage)
      else
        match s.parseSignature(metadata.signature)
        case None => Err(Crypto(SigDeserialization))
        case Some(signature) =>
          if s.verify(s.sha256(metadata.serializedPayload), key, signature) then Ok(())
          else Err(Crypto(Verification))
  }

  /** The record's key hashes to the address, and its signature verifies over its payload. */
  ghost predicate SignedFor(s: SigScheme, body: Bytes, metadata: AddressMetadata) {
    exists key, signature ::
      && s.parseKey(metadata.pubKey) == Some(key)
      && s.hash160(key) == body
      && s.parseSignature(metadata.signature) == Some(signature)
      && s.verify(s.sha256(metadata.serializedPayload), key, signature)
  }

  lemma ValidIffSigned(s: SigScheme, body: Bytes, metadata: AddressMetadata)
    ensures Validate(s, body, metadata).Ok? <==> SignedFor(s, body, metadata)
  {
    if Validate(s, body, metadata).Ok? {
      var key := s.parseKey(metadata.pubKey).value;
      var signature := s.parseSignature(metadata.signature).value;
      assert s.verify(s.sha256(metadata.serializedPayload), key, signature);
    }
  }
}
