/** The main results for the encoding the program uses, and records that show their limits. */
module Deployment {
  import opened Prelude
  import opened Wire
  import opened Messages
  import opened Codecs
  import opened Authentication
  import opened KeyDb
  import opened Handlers
  import TtlRefinement
  import Registers
  import Cluster

  ghost predicate Deployed(env: Env) {
    env.codec == PROTOBUF
  }

  lemma ServersHoldSignedRecords(env: Env, clock: int, acts: seq<Cluster.Action>, server: nat, body: Bytes)
    requires Deployed(env)
    requires body in Cluster.Store(Cluster.Run(env, clock, acts), server)
    ensures var decoded := DecodeMetadata(Cluster.Store(Cluster.Run(env, clock, acts), server)[body]);
            && decoded.Some?
            && SignedFor(env.sig, body, decoded.value)
            && DecodePayload(decoded.value.serializedPayload).Some?
  {
    ProtobufIsLawful();
    Cluster.StoredRecordsAreSigned(env, clock, acts, server, body);
  }

  lemma DeletionIsInvisible(ops: seq<TtlRefinement.Op>, now: int)
    requires TtlRefinement.Ordered(ops, now)
    ensures TtlRefinement.Answers(PROTOBUF, map[], ops) == TtlRefinement.PlainAnswers(PROTOBUF, map[], ops)
  {
    ProtobufIsLawful();
    TtlRefinement.StoreRefinesPlainMap(PROTOBUF, ops, now);
  }

  // ---- A store in which time has gone back ----

  const FIRST := Payload(100, 5, [])
  const LATER := Payload(50, 1, [])

  lemma SmallPayloadFits(p: Payload)
    requires 0 < p.timestamp < 128 && 0 < p.ttl < 128 && p.entries == []
    ensures EncodePayload(p) == [8, p.timestamp, 16, p.ttl]
    ensures DecodePayload(EncodePayload(p)) == Some(p)
  {
    assert PayloadPieces(p) == [[Varint(1, p.timestamp)], [Varint(2, p.ttl)], []];
    TwoSmallIntegers(p.timestamp, p.ttl);
    PayloadRoundTrip(p);
  }

  /** An owner's PUT of a signed payload passes screening. */
  lemma SignedPutPasses(env: Env, addr: Bytes, body: Bytes, m: Metadata, p: Payload)
    requires Lawful(env.codec) && env.decodeAddress(addr) == Some(body)
    requires m.scheme == ECDSA && Validate(env.sig, body, m).Ok?
    requires env.codec.decodePayload(m.serializedPayload) == Some(p)
    ensures ScreenPut(env, addr, [Some(env.codec.encode(m))]) == Ok(Candidate(body, m, p))
  {
    var raw := env.codec.encode(m);
    assert Joined([Some(raw)]) == Some(raw) by {
      assert [Some(raw)][1..] == [];
      assert raw + [] == raw;
    }
    assert env.codec.decode(raw) == Some(m);
  }

  ghost predicate SignedRecord(env: Env, body: Bytes, m: AddressMetadata, p: Payload) {
    && Fits(m) && m.scheme == ECDSA && SignedFor(env.sig, body, m)
    && env.codec.decodePayload(m.serializedPayload) == Some(p)
  }

  /** The record of second 100 is stored, and at second 200 the record of second 50 in its place. */
  ghost predicate TimeGoesBack(env: Env, addr: Bytes, body: Bytes, first: Metadata, later: Metadata) {
    var t := PutTable(env, map[], addr, [Some(env.codec.encode(first))], 100, 100, HEALTHY);
    var t' := PutTable(env, t, addr, [Some(env.codec.encode(later))], 200, 200, HEALTHY);
    && t == map[body := env.codec.encode(first)] && t' == map[body := env.codec.encode(later)]
    && env.codec.decode(t[body]) == Some(first) && env.codec.decodePayload(first.serializedPayload) == Some(FIRST)
    && env.codec.decode(t'[body]) == Some(later) && env.codec.decodePayload(later.serializedPayload) == Some(LATER)
  }

  lemma OwnersTimeGoesBack(env: Env, addr: Bytes, body: Bytes, first: Metadata, later: Metadata)
    requires Lawful(env.codec) && env.decodeAddress(addr) == Some(body)
    requires SignedRecord(env, body, first, FIRST) && SignedRecord(env, body, later, LATER)
    ensures TimeGoesBack(env, addr, body, first, later)
  {
    ValidIffSigned(env.sig, body, first);
    ValidIffSigned(env.sig, body, later);
    SignedPutPasses(env, addr, body, first, FIRST);
    SignedPutPasses(env, addr, body, later, LATER);
    Registers.ExpiredGivesWay(
      env, addr, [Some(env.codec.encode(first))], [Some(env.codec.encode(later))], 100, 100, 200, 200);
  }

  /**
   Whoever owns an address can see its timestamp fall: PUT the record of second 100, which expires after 105; at
   second 200 PUT the record of second 50, which expired long before. Both are stored.
   */
  lemma TimestampsCanFallAcrossExpiry(env: Env, addr: Bytes, body: Bytes, first: Metadata, later: Metadata)
    requires Deployed(env) && env.decodeAddress(addr) == Some(body)
    requires first.scheme == ECDSA && first.serializedPayload == EncodePayload(FIRST) && SignedFor(env.sig, body, first)
    requires later.scheme == ECDSA && later.serializedPayload == EncodePayload(LATER) && SignedFor(env.sig, body, later)
    ensures TimeGoesBack(env, addr, body, first, later)
  {
    ProtobufIsLawful();
    SmallPayloadFits(FIRST);
    SmallPayloadFits(LATER);
    OwnersTimeGoesBack(env, addr, body, first, later);
  }
}
