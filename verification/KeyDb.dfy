/** The store: a map from address bodies to encoded metadata whose entries expire. */
module KeyDb {
  import opened Prelude
  import opened Messages
  import opened Authentication
  import opened Codecs

  type Table = map<Bytes, Bytes>

  // ---- Time to live ----

  /** The last second at which a payload is live; the sum is `i64` arithmetic. */
  function Deadline(p: Payload): i64 {
    WrapI64(p.timestamp + p.ttl)
  }

  predicate Expired(p: Payload, now: int) {
    Deadline(p) < now
  }

  /**
   The check means "timestamp + ttl is past" just when the sum fits the type, or wraps from below to a moment
   that is past as well. In particular a sum that wraps from above makes a record expire at once.
   */
  lemma ExpiredMeansPastIff(p: Payload, now: int)
    requires 0 <= now < I64_LIMIT
    ensures var sum := p.timestamp + p.ttl;
            (Expired(p, now) <==> sum < now)
            <==> -I64_LIMIT <= sum < I64_LIMIT || (sum < -I64_LIMIT && sum + U64_LIMIT < now)
    ensures p.timestamp + p.ttl >= I64_LIMIT ==> Expired(p, now)
  {
    var sum := p.timestamp + p.ttl;
    if sum >= I64_LIMIT {
      assert Deadline(p) == sum - U64_LIMIT;
    } else if sum < -I64_LIMIT {
      assert Deadline(p) == sum + U64_LIMIT;
    }
  }

  datatype CompactionDecision = Remove | Keep | FilterPanic

  function TtlFilter(c: Codec, value: Bytes, now: int): CompactionDecision {
    match c.decode(value)
    case None => FilterPanic
    case Some(metadata) =>
      match c.decodePayload(metadata.serializedPayload)
      case None => FilterPanic
      case Some(payload) => if Expired(payload, now) then Remove else Keep
  }

  /** What a compaction that visits the given keys leaves behind. */
  function Compacted(c: Codec, t: Table, visited: set<Bytes>, now: int): (r: Table)
    ensures r.Keys <= t.Keys
    ensures forall k :: k in r ==> r[k] == t[k]
    ensures forall k :: k in t && k !in r ==> k in visited && TtlFilter(c, t[k], now) == Remove
    ensures forall k :: k in t && k in visited && TtlFilter(c, t[k], now) == Remove ==> k !in r
  {
    map k | k in t && !(k in visited && TtlFilter(c, t[k], now) == Remove) :: t[k]
  }

  // ---- Reading ----

  /** What the bytes under a key mean at a given time. */
  datatype Entry = Absent | Unreadable | Stale | Live(metadata: AddressMetadata, payload: Payload)

  function Look(c: Codec, t: Table, body: Bytes, now: int): Entry {
    if body !in t then Absent
    else
      match c.decode(t[body])
      case None => Unreadable
      case Some(metadata) =>
        match c.decodePayload(metadata.serializedPayload)
        case None => Unreadable
        case Some(payload) => if Expired(payload, now) then Stale else Live(metadata, payload)
  }

  /** Reading deletes an entry that has expired. */
  function AfterGet(c: Codec, t: Table, body: Bytes, now: int): (r: Table)
    ensures !Look(c, r, body, now).Stale?
    ensures Look(c, t, body, now).Stale? <==> body in t && body !in r
    ensures forall k :: k != body ==> (k in t <==> k in r)
    ensures forall k :: k in r ==> k in t && r[k] == t[k]
  {
    if Look(c, t, body, now).Stale? then t - {body} else t
  }

  /** The outcome of a database call: an answer, a storage error, or a failed `unwrap`. */
  datatype Db<+T> = Done(value: T) | IoError | Panicked

  function GetAnswer(c: Codec, t: Table, body: Bytes, now: int): Db<Option<AddressMetadata>> {
    match Look(c, t, body, now)
    case Absent => Done(None)
    case Unreadable => Panicked
    case Stale => Done(None)
    case Live(metadata, _) => Done(Some(metadata))
  }

  /** A read returns the record that was put, while it is live, whatever the store held before. */
  lemma GetReturnsPut(c: Codec, t: Table, body: Bytes, m: Metadata, p: Payload, now: int)
    requires Lawful(c) && c.decodePayload(m.serializedPayload) == Some(p)
    ensures var t' := t[body := c.encode(m)];
            GetAnswer(c, t', body, now) == Done(if Expired(p, now) then None else Some(m))
  {
    assert c.decode(c.encode(m)) == Some(m);
  }

  /** A handler fails on stored bytes exactly when it meets bytes, or a payload inside them, that do not decode. */
  lemma PanicsIff(c: Codec, t: Table, body: Bytes, now: int)
    ensures GetAnswer(c, t, body, now).Panicked?
            <==> body in t && (c.decode(t[body]).None?
                               || c.decodePayload(c.decode(t[body]).value.serializedPayload).None?)
    ensures body in t ==> (TtlFilter(c, t[body], now).FilterPanic? <==> GetAnswer(c, t, body, now).Panicked?)
  {
  }

  // ---- What compaction forgets ----

  /** The second after which `timestamp + ttl` is past, as the sum wraps around the range of `i64`. */
  function LastSecond(p: Payload): int {
    var sum := p.timestamp + p.ttl;
    if sum >= I64_LIMIT then sum - U64_LIMIT else if sum < -I64_LIMIT then sum + U64_LIMIT else sum
  }

  /** The filter removes a record exactly when its last second is past, and keeps it otherwise. */
  lemma FilterRemovesIff(c: Codec, m: Metadata, p: Payload, now: int)
    requires Lawful(c) && c.decodePayload(m.serializedPayload) == Some(p)
    ensures TtlFilter(c, c.encode(m), now) == if LastSecond(p) < now then Remove else Keep
  {
    assert c.decode(c.encode(m)) == Some(m);
  }

  /** A record a compaction visits is gone afterwards when its last second is past, and untouched otherwise. */
  lemma CompactionForgetsExpired(c: Codec, t: Table, body: Bytes, m: Metadata, p: Payload, visited: set<Bytes>, now: int)
    requires Lawful(c) && c.decodePayload(m.serializedPayload) == Some(p)
    ensures var t' := Compacted(c, t[body := c.encode(m)], visited, now);
            && (LastSecond(p) < now && body in visited ==> body !in t')
            && (now <= LastSecond(p) || body !in visited ==> body in t' && t'[body] == c.encode(m))
            && (forall k :: k in t && k != body && k !in visited ==> k in t' && t'[k] == t[k])
            && t'.Keys <= t.Keys + {body}
  {
    FilterRemovesIff(c, m, p, now);
  }

  // ---- Accepting a newer record ----

  /** The clock is read twice: when the stored record is fetched, and when the new one is examined. */
  function CheckAnswer(c: Codec, t: Table, body: Bytes, p: Payload, t0: int, t1: int): Db<Result<(), ValidationError>> {
    match Look(c, t, body, t0)
    case Absent => Done(Ok(()))
    case Unreadable => Panicked
    case Stale => Done(Ok(()))
    case Live(_, old_) =>
      if p.timestamp < old_.timestamp then Done(Err(Outdated))
      else if Expired(p, t1) then Done(Err(ExpiredTTL))
      else Done(Ok(()))
  }

  // ---- Storage errors ----

  /** Which RocksDB operations succeed during one call. */
  datatype Disk = Disk(readOk: bool, deleteOk: bool, writeOk: bool)

  const HEALTHY := Disk(true, true, true)

  predicate GetFails(c: Codec, t: Table, body: Bytes, now: int, disk: Disk) {
    !disk.readOk || (Look(c, t, body, now).Stale? && !disk.deleteOk)
  }

  // ---- The store as the program holds it ----

  class KeyDB {
    const codec: Codec
    var table: Table

    constructor (codec: Codec)
      ensures this.codec == codec && table == map[]
    {
      this.codec := codec;
      table := map[];
    }

    method Put(body: Bytes, metadata: AddressMetadata, disk: Disk) returns (r: Db<()>)
      modifies this
      ensures r == if disk.writeOk then Done(()) else IoError
      ensures table == if disk.writeOk then old(table)[body := codec.encode(metadata)] else old(table)
    {
      var raw := codec.encode(metadata);
      if !disk.writeOk {
        return IoError;
      }
      table := table[body := raw];
      return Done(());
    }

    method Get(body: Bytes, now: int, disk: Disk) returns (r: Db<Option<AddressMetadata>>)
      modifies this
      ensures GetFails(codec, old(table), body, now, disk) ==> r == IoError && table == old(table)
      ensures !GetFails(codec, old(table), body, now, disk) ==>
                r == GetAnswer(codec, old(table), body, now) && table == AfterGet(codec, old(table), body, now)
    {
      if !disk.readOk {
        return IoError;
      }
      if body !in table {
        return Done(None);
      }
      var decoded := codec.decode(table[body]);
      if decoded.None? {
        return Panicked;
      }
      var metadata := decoded.value;
      var payload := codec.decodePayload(metadata.serializedPayload);
      if payload.None? {
        return Panicked;
      }
      if Expired(payload.value, now) {
        if !disk.deleteOk {
          return IoError;
        }
        table := table - {body};
        return Done(None);
      }
      return Done(Some(metadata));
    }

    method CheckTimestamp(body: Bytes, newPayload: Payload, t0: int, t1: int, disk: Disk)
      returns (r: Db<Result<(), ValidationError>>)
      modifies this
      ensures GetFails(codec, old(table), body, t0, disk) ==> r == IoError && table == old(table)
      ensures !GetFails(codec, old(table), body, t0, disk) ==>
                && r == CheckAnswer(codec, old(table), body, newPayload, t0, t1)
                && table == AfterGet(codec, old(table), body, t0)
    {
      var got := Get(body, t0, disk);
      match got {
        case IoError => return IoError;
        case Panicked => return Panicked;
        case Done(None) => return Done(Ok(()));
        case Done(Some(oldMetadata)) =>
          var oldPayload := codec.decodePayload(oldMetadata.serializedPayload);
          if oldPayload.None? {
            return Panicked;
          }
          if newPayload.timestamp < oldPayload.value.timestamp {
            return Done(Err(Outdated));
          }
          if Expired(newPayload, t1) {
            return Done(Err(ExpiredTTL));
          }
          return Done(Ok(()));
      }
    }
  }
}
