/**
 One server's store under whole requests, each check-and-put taken as one step:
 a last-writer-wins register for every address.
 */
module Registers {
  import opened Prelude
  import opened Messages
  import opened Codecs
  import opened Authentication
  import opened KeyDb
  import opened Handlers

  datatype Event =
    | ClientPut(addr: Bytes, chunks: seq<Option<Bytes>>, t0: int, t1: int, disk: Disk)
    | Pull(item: PollItem)
    | ClientGet(body: Bytes, now: int, disk: Disk)
    | Compaction(visited: set<Bytes>, now: int)

  function Apply(env: Env, t: Table, ev: Event): Table {
    match ev
    case ClientPut(addr, chunks, t0, t1, disk) => PutTable(env, t, addr, chunks, t0, t1, disk)
    case Pull(item) => PollTable(env, t, item)
    case ClientGet(body, now, disk) => if GetFails(env.codec, t, body, now, disk) then t else AfterGet(env.codec, t, body, now)
    case Compaction(visited, now) => Compacted(env.codec, t, visited, now)
  }

  function Run(env: Env, t: Table, evs: seq<Event>): Table {
    if evs == [] then t
    else Apply(env, Run(env, t, evs[..|evs| - 1]), evs[|evs| - 1])
  }

  /** The record an event offers to the store, when it passes screening. */
  function Offered(env: Env, ev: Event): Option<Candidate> {
    match ev
    case ClientPut(addr, chunks, _, _, _) =>
      (match ScreenPut(env, addr, chunks)
       case Err(_) => None
       case Ok(cand) => Some(cand))
    case Pull(item) =>
      if item.details.None? || !item.encodable then None
      else ScreenPull(env, item.details.value.1, item.response)
    case _ => None
  }

  /** The first and the last clock reading of an event. */
  function FirstReading(ev: Event): int {
    match ev
    case ClientPut(_, _, t0, _, _) => t0
    case Pull(item) => item.t0
    case ClientGet(_, now, _) => now
    case Compaction(_, now) => now
  }

  function LastReading(ev: Event): int {
    match ev
    case ClientPut(_, _, _, t1, _) => t1
    case Pull(item) => item.t1
    case _ => FirstReading(ev)
  }

  function DiskOf(ev: Event): Disk {
    match ev
    case ClientPut(_, _, _, _, disk) => disk
    case Pull(item) => item.disk
    case ClientGet(_, _, disk) => disk
    case Compaction(_, _) => HEALTHY
  }

  lemma ApplyOffers(env: Env, t: Table, ev: Event)
    requires Offered(env, ev).Some?
    ensures Apply(env, t, ev)
            == Offer(env.codec, t, Offered(env, ev).value, FirstReading(ev), LastReading(ev), DiskOf(ev))
  {
  }

  lemma OfferedIsScreened(env: Env, ev: Event)
    requires Offered(env, ev).Some?
    ensures var cand := Offered(env, ev).value;
            && Validate(env.sig, cand.body, cand.metadata).Ok?
            && env.codec.decodePayload(cand.metadata.serializedPayload) == Some(cand.payload)
            && (Lawful(env.codec) ==> Fits(cand.metadata))
  {
  }

  // ---- Order does not matter ----

  /** The timestamp of a record; screened records always have one. */
  function TimestampOf(c: Codec, m: AddressMetadata): i64 {
    match c.decodePayload(m.serializedPayload)
    case None => 0
    case Some(p) => p.timestamp
  }

  predicate LiveUntil(c: Codec, m: AddressMetadata, end: int) {
    var p := c.decodePayload(m.serializedPayload);
    p.Some? && !Expired(p.value, end)
  }

  /** All the screened records a run offers for one address. */
  function AllOffered(env: Env, evs: seq<Event>, body: Bytes): set<AddressMetadata> {
    if evs == [] then {}
    else
      var rest := AllOffered(env, evs[..|evs| - 1], body);
      var cand := Offered(env, evs[|evs| - 1]);
      if cand.Some? && cand.value.body == body then rest + {cand.value.metadata} else rest
  }

  /** No event reads the clock past `end`, and none meets a storage error. */
  predicate Undisturbed(evs: seq<Event>, end: int) {
    forall i :: 0 <= i < |evs| ==>
      FirstReading(evs[i]) <= end && LastReading(evs[i]) <= end && DiskOf(evs[i]) == HEALTHY
  }

  /** The store holds the greatest of the offered records. */
  ghost predicate HoldsGreatest(c: Codec, t: Table, body: Bytes, offered: set<AddressMetadata>) {
    if offered == {} then body !in t
    else
      && body in t
      && c.decode(t[body]).Some?
      && var stored := c.decode(t[body]).value;
         && stored in offered
         && t[body] == c.encode(stored)
         && forall m :: m in offered ==> TimestampOf(c, m) <= TimestampOf(c, stored)
  }

  lemma OfferKeepsGreatest(
    c: Codec, t: Table, cand: Candidate, t0: int, t1: int, offered: set<AddressMetadata>, end: int)
    requires Lawful(c) && Fits(cand.metadata)
    requires c.decodePayload(cand.metadata.serializedPayload) == Some(cand.payload)
    requires t0 <= end && t1 <= end
    requires forall m :: m in offered + {cand.metadata} ==> LiveUntil(c, m, end)
    requires HoldsGreatest(c, t, cand.body, offered)
    ensures HoldsGreatest(c, Offer(c, t, cand, t0, t1, HEALTHY), cand.body, offered + {cand.metadata})
  {
    assert LiveUntil(c, cand.metadata, end);
    assert c.decode(c.encode(cand.metadata)) == Some(cand.metadata);
    if offered != {} {
      var stored := c.decode(t[cand.body]).value;
      assert LiveUntil(c, stored, end);
      assert Look(c, t, cand.body, t0).Live?;
    }
  }

  lemma OtherEventsKeepGreatest(env: Env, t: Table, ev: Event, body: Bytes, offered: set<AddressMetadata>, end: int)
    requires FirstReading(ev) <= end
    requires Offered(env, ev).Some? ==> Offered(env, ev).value.body != body
    requires forall m :: m in offered ==> LiveUntil(env.codec, m, end)
    requires HoldsGreatest(env.codec, t, body, offered)
    ensures HoldsGreatest(env.codec, Apply(env, t, ev), body, offered)
  {
    var c := env.codec;
    if offered != {} {
      assert LiveUntil(c, c.decode(t[body]).value, end);
    }
    if Offered(env, ev).Some? {
      ApplyOffers(env, t, ev);
    }
  }

  lemma {:induction false} RunHoldsGreatest(env: Env, evs: seq<Event>, body: Bytes, end: int)
    requires Lawful(env.codec) && Undisturbed(evs, end)
    requires forall m :: m in AllOffered(env, evs, body) ==> LiveUntil(env.codec, m, end)
    ensures HoldsGreatest(env.codec, Run(env, map[], evs), body, AllOffered(env, evs, body))
    decreases |evs|
  {
    if evs != [] {
      var before, ev := evs[..|evs| - 1], evs[|evs| - 1];
      RunHoldsGreatest(env, before, body, end);
      var t, offered := Run(env, map[], before), AllOffered(env, before, body);
      var cand := Offered(env, ev);
      if cand.Some? && cand.value.body == body {
        OfferedIsScreened(env, ev);
        ApplyOffers(env, t, ev);
        OfferKeepsGreatest(env.codec, t, cand.value, FirstReading(ev), LastReading(ev), offered, end);
      } else {
        OtherEventsKeepGreatest(env, t, ev, body, offered, end);
      }
    }
  }

  /**
   Convergence: two servers that start empty and are offered the same records for an address, in any order,
   any number of times, by clients or peers, among any other requests, reads and compactions,
   agree on whether the address is present and on its timestamp, which is the greatest offered;
   when no two offered records share a timestamp they hold the same bytes.
   */
  lemma Converge(env: Env, evs: seq<Event>, evs': seq<Event>, body: Bytes, end: int, end': int)
    requires Lawful(env.codec) && Undisturbed(evs, end) && Undisturbed(evs', end')
    requires AllOffered(env, evs, body) == AllOffered(env, evs', body)
    requires forall m :: m in AllOffered(env, evs, body) ==> LiveUntil(env.codec, m, end) && LiveUntil(env.codec, m, end')
    ensures var c, t, t', offered := env.codec, Run(env, map[], evs), Run(env, map[], evs'), AllOffered(env, evs, body);
            && (body in t <==> offered != {}) && (body in t' <==> offered != {})
            && (offered != {} ==>
                  && c.decode(t[body]).Some? && c.decode(t'[body]).Some?
                  && TimestampOf(c, c.decode(t[body]).value) == TimestampOf(c, c.decode(t'[body]).value)
                  && c.decode(t[body]).value in offered
                  && forall m :: m in offered ==> TimestampOf(c, m) <= TimestampOf(c, c.decode(t[body]).value))
            && (offered != {} && (forall m, m' :: m in offered && m' in offered && TimestampOf(c, m) == TimestampOf(c, m') ==> m == m')
                ==> t[body] == t'[body])
  {
    RunHoldsGreatest(env, evs, body, end);
    RunHoldsGreatest(env, evs', body, end');
  }

  // ---- Time only moves forward while a record is live ----

  function StoredTimestamp(c: Codec, t: Table, body: Bytes): i64
    requires body in t && c.decode(t[body]).Some?
  {
    TimestampOf(c, c.decode(t[body]).value)
  }

  /** One step from a table whose record is live: the timestamp cannot fall, and a replacement was itself live. */
  lemma StepIsMonotone(env: Env, t: Table, ev: Event, body: Bytes)
    requires Lawful(env.codec)
    requires Look(env.codec, t, body, FirstReading(ev)).Live?
    ensures var t' := Apply(env, t, ev);
            && body in t'
            && env.codec.decode(t'[body]).Some?
            && StoredTimestamp(env.codec, t, body) <= StoredTimestamp(env.codec, t', body)
            && (t'[body] != t[body] ==>
                  && Offered(env, ev).Some?
                  && Offered(env, ev).value.body == body
                  && t'[body] == env.codec.encode(Offered(env, ev).value.metadata)
                  && !Expired(Offered(env, ev).value.payload, LastReading(ev)))
  {
    var c := env.codec;
    if Offered(env, ev).Some? {
      ApplyOffers(env, t, ev);
      OfferedIsScreened(env, ev);
      var cand := Offered(env, ev).value;
      assert c.decode(c.encode(cand.metadata)) == Some(cand.metadata);
    }
  }

  /** The address is stored and unexpired whenever an event of the run begins. */
  ghost predicate LiveThroughout(env: Env, t: Table, evs: seq<Event>, body: Bytes) {
    forall i :: 0 <= i < |evs| ==> Look(env.codec, Run(env, t, evs[..i]), body, FirstReading(evs[i])).Live?
  }

  /** Along any stretch in which an address's record never expires, its timestamps never decrease. */
  lemma {:induction false} TimestampsNeverFall(env: Env, t: Table, evs: seq<Event>, body: Bytes, i: nat, j: nat)
    requires Lawful(env.codec) && LiveThroughout(env, t, evs, body)
    requires i <= j <= |evs| && body in t && env.codec.decode(t[body]).Some?
    ensures var ti, tj := Run(env, t, evs[..i]), Run(env, t, evs[..j]);
            && body in ti && env.codec.decode(ti[body]).Some?
            && body in tj && env.codec.decode(tj[body]).Some?
            && StoredTimestamp(env.codec, ti, body) <= StoredTimestamp(env.codec, tj, body)
    decreases j
  {
    if j > 0 {
      var last := evs[j - 1];
      assert evs[..j][..j - 1] == evs[..j - 1] && evs[..j][j - 1] == last;
      StepIsMonotone(env, Run(env, t, evs[..j - 1]), last, body);
      TimestampsNeverFall(env, t, evs, body, if i < j then i else j - 1, j - 1);
    }
  }

  /** Every replacement along such a stretch is by a screened record that was unexpired when examined. */
  lemma ReplacementsAreLive(env: Env, t: Table, evs: seq<Event>, body: Bytes, i: nat)
    requires Lawful(env.codec) && LiveThroughout(env, t, evs, body) && i < |evs|
    requires body in t && env.codec.decode(t[body]).Some?
    ensures var before, after := Run(env, t, evs[..i]), Run(env, t, evs[..i + 1]);
            && body in before && body in after
            && (after[body] != before[body] ==>
                  && Offered(env, evs[i]).Some?
                  && after[body] == env.codec.encode(Offered(env, evs[i]).value.metadata)
                  && SignedFor(env.sig, body, Offered(env, evs[i]).value.metadata)
                  && !Expired(Offered(env, evs[i]).value.payload, LastReading(evs[i])))
  {
    assert evs[..i + 1][..i] == evs[..i];
    StepIsMonotone(env, Run(env, t, evs[..i]), evs[i], body);
    if Offered(env, evs[i]).Some? {
      OfferedIsScreened(env, evs[i]);
      ValidIffSigned(env.sig, Offered(env, evs[i]).value.body, Offered(env, evs[i]).value.metadata);
    }
  }

  /**
   Across an expiry they can fall. An accepted write replaces a readable record by an older one
   just when the stored record had expired by the time the check fetched it.
   */
  lemma WriteGoesBackIff(c: Codec, t: Table, cand: Candidate, t0: int, t1: int)
    requires Lawful(c) && Fits(cand.metadata)
    requires c.decodePayload(cand.metadata.serializedPayload) == Some(cand.payload)
    requires cand.body in t && !Look(c, t, cand.body, t0).Unreadable?
    requires cand.payload.timestamp < StoredTimestamp(c, t, cand.body)
    ensures var t' := Offer(c, t, cand, t0, t1, HEALTHY);
            (cand.body in t' && t'[cand.body] == c.encode(cand.metadata)) <==> Look(c, t, cand.body, t0).Stale?
  {
    assert c.decode(c.encode(cand.metadata)) == Some(cand.metadata);
  }

  /**
   Through the handler: for every two PUTs to an address that pass screening, when the first record has expired by the
   time the second is checked, the second replaces it, whatever their timestamps.
   */
  lemma ExpiredGivesWay(env: Env, addr: Bytes, chunks: seq<Option<Bytes>>, chunks': seq<Option<Bytes>>,
                        a0: int, a1: int, b0: int, b1: int)
    requires Lawful(env.codec) && ScreenPut(env, addr, chunks).Ok? && ScreenPut(env, addr, chunks').Ok?
    requires Expired(ScreenPut(env, addr, chunks).value.payload, b0)
    ensures var first, second := ScreenPut(env, addr, chunks).value, ScreenPut(env, addr, chunks').value;
            var t := PutTable(env, map[], addr, chunks, a0, a1, HEALTHY);
            var t' := PutTable(env, t, addr, chunks', b0, b1, HEALTHY);
            && t == map[first.body := env.codec.encode(first.metadata)]
            && t' == map[first.body := env.codec.encode(second.metadata)]
            && StoredTimestamp(env.codec, t, first.body) == first.payload.timestamp
            && StoredTimestamp(env.codec, t', first.body) == second.payload.timestamp
  {
    var first, second := ScreenPut(env, addr, chunks).value, ScreenPut(env, addr, chunks').value;
    assert env.codec.decode(env.codec.encode(first.metadata)) == Some(first.metadata);
    assert env.codec.decode(env.codec.encode(second.metadata)) == Some(second.metadata);
  }

  /** A record that has itself expired is stored just when no live record is in its way. */
  lemma ExpiredIsStoredIff(c: Codec, t: Table, cand: Candidate, t0: int, t1: int)
    requires Lawful(c) && Fits(cand.metadata)
    requires c.decodePayload(cand.metadata.serializedPayload) == Some(cand.payload)
    requires Expired(cand.payload, t1) && !Look(c, t, cand.body, t0).Unreadable?
    ensures OfferAnswer(c, t, cand, t0, t1, HEALTHY) == Done(Ok(())) <==> !Look(c, t, cand.body, t0).Live?
  {
  }

  // ---- A pull against a PUT ----

  /** An item and a request bring the same bytes for the same address. */
  predicate SameBytes(env: Env, item: PollItem, addr: Bytes, chunks: seq<Option<Bytes>>) {
    && item.details.Some? && item.encodable && item.response.Some?
    && env.decodeAddress(addr) == Some(item.details.value.1)
    && Joined(chunks) == item.response
  }

  /** The candidate is refused, cannot be written, or is what the store holds already. */
  predicate MakesNoDifference(c: Codec, t: Table, cand: Candidate, t0: int, t1: int, disk: Disk) {
    || GetFails(c, t, cand.body, t0, disk)
    || match Look(c, t, cand.body, t0)
       case Unreadable => true
       case Absent => !disk.writeOk
       case Stale => disk.writeOk && t[cand.body] == c.encode(cand.metadata)
       case Live(_, old_) =>
         || cand.payload.timestamp < old_.timestamp || Expired(cand.payload, t1)
         || !disk.writeOk || t[cand.body] == c.encode(cand.metadata)
  }

  lemma OfferChangesNothingIff(c: Codec, t: Table, cand: Candidate, t0: int, t1: int, disk: Disk)
    ensures Offer(c, t, cand, t0, t1, disk) == t <==> MakesNoDifference(c, t, cand, t0, t1, disk)
  {
    if cand.body in t && t[cand.body] == c.encode(cand.metadata) {
      assert (t - {cand.body})[cand.body := t[cand.body]] == t;
    }
  }

  /**
   A pull alone accepts schemes other than the supported one. On a given store it differs from a PUT of the same
   bytes just when the record passes the other checks, claims such a scheme, and makes a difference to that store.
   */
  lemma PullIsPutIff(env: Env, t: Table, item: PollItem, addr: Bytes, chunks: seq<Option<Bytes>>)
    requires SameBytes(env, item, addr, chunks)
    ensures PollTable(env, t, item) == PutTable(env, t, addr, chunks, item.t0, item.t1, item.disk)
            <==> (match ScreenPull(env, item.details.value.1, item.response)
                  case None => true
                  case Some(cand) =>
                    || cand.metadata.scheme == ECDSA
                    || MakesNoDifference(env.codec, t, cand, item.t0, item.t1, item.disk))
  {
    match ScreenPull(env, item.details.value.1, item.response)
    case None =>
    case Some(cand) => OfferChangesNothingIff(env.codec, t, cand, item.t0, item.t1, item.disk);
  }

  /** On every store they agree just when the scheme is supported or the record fails the other checks. */
  lemma PullIsPutEverywhereIff(env: Env, item: PollItem, addr: Bytes, chunks: seq<Option<Bytes>>)
    requires SameBytes(env, item, addr, chunks) && item.disk == HEALTHY
    ensures (forall t: Table :: PollTable(env, t, item) == PutTable(env, t, addr, chunks, item.t0, item.t1, HEALTHY))
            <==> (match ScreenPull(env, item.details.value.1, item.response)
                  case None => true
                  case Some(cand) => cand.metadata.scheme == ECDSA)
  {
    PullIsPutIff(env, map[], item, addr, chunks);
    forall t: Table ensures var cand := ScreenPull(env, item.details.value.1, item.response);
                            cand.None? || cand.value.metadata.scheme == ECDSA
                            ==> PollTable(env, t, item) == PutTable(env, t, addr, chunks, item.t0, item.t1, HEALTHY)
    {
      PullIsPutIff(env, t, item, addr, chunks);
    }
  }

  /** The timestamp of the live record under an address, if there is one. */
  function LiveTimestamp(c: Codec, t: Table, body: Bytes, now: int): Option<i64> {
    match Look(c, t, body, now)
    case Live(_, p) => Some(p.timestamp)
    case _ => None
  }

  /** Pulling from an honest peer joins the two registers: the greater timestamp wins. */
  lemma PullIsJoin(env: Env, a: Table, b: Table, nowA: int, item: PollItem)
    requires Lawful(env.codec)
    requires item.details.Some? && item.encodable && item.disk == HEALTHY
    requires var body := item.details.value.1;
             && Look(env.codec, a, body, nowA).Live?
             && item.response == GetBody(env.codec, a, body, nowA)
             && SignedFor(env.sig, body, Look(env.codec, a, body, nowA).metadata)
             && !Expired(Look(env.codec, a, body, nowA).payload, item.t1)
             && !Look(env.codec, b, body, item.t0).Unreadable?
    ensures var body := item.details.value.1;
            var b' := PollTable(env, b, item);
            var theirs := LiveTimestamp(env.codec, a, body, nowA).value;
            && body in b' && env.codec.decode(b'[body]).Some?
            && StoredTimestamp(env.codec, b', body) ==
               match LiveTimestamp(env.codec, b, body, item.t0)
               case None => theirs
               case Some(ours) => if ours > theirs then ours else theirs
  {
    var c, body := env.codec, item.details.value.1;
    var metadata := Look(c, a, body, nowA).metadata;
    ValidIffSigned(env.sig, body, metadata);
    assert Fits(metadata);
    assert c.decode(c.encode(metadata)) == Some(metadata);
  }

  /** The stored bytes are the encoding of a signed record that stays live until `end`. */
  ghost predicate Holds(env: Env, t: Table, body: Bytes, m: Metadata, p: Payload, end: int) {
    && body in t && t[body] == env.codec.encode(m)
    && env.codec.decodePayload(m.serializedPayload) == Some(p)
    && SignedFor(env.sig, body, m)
    && !Expired(p, end)
  }

  /** A peer polls for `body` before `end` and gets the honest answer of a server whose store is `t`. */
  predicate PollsHonestly(env: Env, t: Table, body: Bytes, asked: int, item: PollItem, end: int) {
    && item.details.Some? && item.details.value.1 == body && item.encodable && item.disk == HEALTHY
    && asked <= end && item.t0 <= end && item.t1 <= end
    && item.response == GetBody(env.codec, t, body, asked)
  }

  lemma PullTakesNewer(env: Env, a: Table, b: Table, body: Bytes,
                       ma: Metadata, pa: Payload, mb: Metadata, pb: Payload, asked: int, item: PollItem, end: int)
    requires Lawful(env.codec)
    requires Holds(env, a, body, ma, pa, end) && Holds(env, b, body, mb, pb, end)
    requires PollsHonestly(env, a, body, asked, item, end)
    ensures PollTable(env, b, item) == if pa.timestamp < pb.timestamp then b else b[body := a[body]]
  {
    var c := env.codec;
    assert c.decode(c.encode(ma)) == Some(ma) && c.decode(c.encode(mb)) == Some(mb);
    assert Look(c, a, body, asked) == Live(ma, pa) && Look(c, b, body, item.t0) == Live(mb, pb);
    ValidIffSigned(env.sig, body, ma);
  }

  /**
   Two servers that pull an address from each other, one after the other, hold the same bytes for it afterwards,
   even when their records bear the same timestamp; and those bytes are the newer of the two records.
   */
  lemma MutualPullsAgree(env: Env, a: Table, b: Table, body: Bytes,
                         ma: Metadata, pa: Payload, mb: Metadata, pb: Payload,
                         askedA: int, itemB: PollItem, askedB: int, itemA: PollItem, end: int)
    requires Lawful(env.codec)
    requires Holds(env, a, body, ma, pa, end) && Holds(env, b, body, mb, pb, end)
    requires PollsHonestly(env, a, body, askedA, itemB, end)
    requires PollsHonestly(env, PollTable(env, b, itemB), body, askedB, itemA, end)
    ensures var b' := PollTable(env, b, itemB);
            var a' := PollTable(env, a, itemA);
            && body in a' && body in b' && a'[body] == b'[body]
            && a'[body] == if pa.timestamp < pb.timestamp then b[body] else a[body]
  {
    PullTakesNewer(env, a, b, body, ma, pa, mb, pb, askedA, itemB, end);
    var b' := PollTable(env, b, itemB);
    if pa.timestamp < pb.timestamp {
      PullTakesNewer(env, b', a, body, mb, pb, ma, pa, askedB, itemA, end);
    } else {
      PullTakesNewer(env, b', a, body, ma, pa, ma, pa, askedB, itemA, end);
    }
  }

  // ---- The peer stream ----

  function Pulls(items: seq<PollItem>): seq<Event> {
    seq(|items|, i requires 0 <= i < |items| => Pull(items[i]))
  }

  /** The loop over the stream is a run of pulls, so what is proved of runs holds of it. */
  lemma {:induction false} StreamIsRun(env: Env, t: Table, items: seq<PollItem>)
    ensures PollAll(env, t, items) == Run(env, t, Pulls(items))
    decreases |items|
  {
    if items != [] {
      StreamIsRun(env, t, items[..|items| - 1]);
      assert Pulls(items)[..|items| - 1] == Pulls(items[..|items| - 1]);
    }
  }

  lemma {:induction false} AllOfferedMembers(env: Env, evs: seq<Event>, body: Bytes, m: AddressMetadata)
    ensures m in AllOffered(env, evs, body)
            <==> exists i :: 0 <= i < |evs| && Offered(env, evs[i]).Some?
                             && Offered(env, evs[i]).value.body == body && Offered(env, evs[i]).value.metadata == m
    decreases |evs|
  {
    if evs != [] {
      var init := evs[..|evs| - 1];
      AllOfferedMembers(env, init, body, m);
      assert forall i :: 0 <= i < |init| ==> init[i] == evs[i];
    }
  }

  /** The record that an item brings for an address, when the stream, the peer and the record are in order. */
  function BroughtBy(env: Env, item: PollItem, body: Bytes): Option<Candidate> {
    if item.details.Some? && item.details.value.1 == body && item.encodable then ScreenPull(env, body, item.response)
    else None
  }

  /**
   After the stream an address holds one of the records that its items bring for it, and every item that brings a
   record for it brings one that is no newer; it holds nothing just when no item brings any.
   */
  lemma StreamHoldsNewest(env: Env, items: seq<PollItem>, body: Bytes, end: int)
    requires Lawful(env.codec)
    requires forall i :: 0 <= i < |items| ==> items[i].t0 <= end && items[i].t1 <= end && items[i].disk == HEALTHY
    requires forall i :: 0 <= i < |items| && BroughtBy(env, items[i], body).Some? ==>
               !Expired(BroughtBy(env, items[i], body).value.payload, end)
    ensures var c, t := env.codec, PollAll(env, map[], items);
            && (body in t <==> exists i :: 0 <= i < |items| && BroughtBy(env, items[i], body).Some?)
            && (body in t ==>
                  && c.decode(t[body]).Some?
                  && (exists i :: 0 <= i < |items| && BroughtBy(env, items[i], body).Some?
                                  && t[body] == c.encode(BroughtBy(env, items[i], body).value.metadata))
                  && forall i :: 0 <= i < |items| && BroughtBy(env, items[i], body).Some? ==>
                       BroughtBy(env, items[i], body).value.payload.timestamp <= StoredTimestamp(c, t, body))
  {
    var c, t, evs := env.codec, PollAll(env, map[], items), Pulls(items);
    StreamIsRun(env, map[], items);
    forall i | 0 <= i < |items|
      ensures Offered(env, evs[i]).Some? && Offered(env, evs[i]).value.body == body
              <==> BroughtBy(env, items[i], body).Some?
      ensures BroughtBy(env, items[i], body).Some? ==> Offered(env, evs[i]) == BroughtBy(env, items[i], body)
    {
    }
    forall m ensures m in AllOffered(env, evs, body)
                     <==> exists i :: 0 <= i < |items| && BroughtBy(env, items[i], body).Some?
                                      && BroughtBy(env, items[i], body).value.metadata == m
    {
      AllOfferedMembers(env, evs, body, m);
    }
    StreamIsLive(env, items, body, end);
    RunHoldsGreatest(env, evs, body, end);
    forall i | 0 <= i < |items| && BroughtBy(env, items[i], body).Some?
      ensures BroughtBy(env, items[i], body).value.metadata in AllOffered(env, evs, body)
    {
    }
  }

  lemma StreamIsLive(env: Env, items: seq<PollItem>, body: Bytes, end: int)
    requires Lawful(env.codec)
    requires forall i :: 0 <= i < |items| && BroughtBy(env, items[i], body).Some? ==>
               !Expired(BroughtBy(env, items[i], body).value.payload, end)
    ensures forall m :: m in AllOffered(env, Pulls(items), body) ==> LiveUntil(env.codec, m, end)
  {
    forall m | m in AllOffered(env, Pulls(items), body) ensures LiveUntil(env.codec, m, end) {
      AllOfferedMembers(env, Pulls(items), body, m);
      var i :| 0 <= i < |items| && Offered(env, Pulls(items)[i]).Some?
               && Offered(env, Pulls(items)[i]).value.body == body && Offered(env, Pulls(items)[i]).value.metadata == m;
      assert BroughtBy(env, items[i], body) == Offered(env, Pulls(items)[i]);
    }
  }
}
