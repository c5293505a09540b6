/**
 Any number of keyservers, their handlers interleaved at every access to a store.
 A run is any sequence of actions; nothing is assumed about who acts when.
 */
module Cluster {
  import opened Prelude
  import opened Messages
  import opened Codecs
  import opened Authentication
  import opened KeyDb
  import opened Handlers

  datatype Origin = Client | Peer

  /** A handler in flight, named after what it does next. */
  datatype Thread =
    | Reading(server: nat, cand: Candidate, origin: Origin)
    | Clearing(server: nat, cand: Candidate, origin: Origin)
    | Comparing(server: nat, cand: Candidate, origin: Origin, stored: Payload)
    | Writing(server: nat, cand: Candidate, origin: Origin)
    | Fetching(server: nat, body: Bytes)
    | Received(server: nat, body: Bytes, raw: Bytes)
    | Serving(server: nat, body: Bytes)
    | Evicting(server: nat, body: Bytes)

  /** `accepted` records what clients' PUTs have stored anywhere. */
  datatype State = State(
    clock: int,
    stores: map<nat, Table>,
    threads: map<nat, Thread>,
    accepted: set<(Bytes, AddressMetadata)>)

  datatype Action =
    | Tick(seconds: nat)
    | ArrivePut(tid: nat, server: nat, addr: Bytes, chunks: seq<Option<Bytes>>)
    | ArriveGet(tid: nat, server: nat, body: Bytes)
    | StartPull(tid: nat, server: nat, body: Bytes)
    | HonestAnswer(tid: nat, peer: nat, fault: bool)
    | HostileAnswer(tid: nat, raw: Bytes)
    | Step(tid: nat)
    | Drop(tid: nat)
    | Compact(server: nat, visited: set<Bytes>)

  function Store(s: State, server: nat): Table {
    if server in s.stores then s.stores[server] else map[]
  }

  function WithStore(s: State, server: nat, t: Table): State {
    s.(stores := s.stores[server := t])
  }

  function Spawn(s: State, tid: nat, th: Thread): State {
    if tid in s.threads then s else s.(threads := s.threads[tid := th])
  }

  function Finish(s: State, tid: nat): State {
    s.(threads := s.threads - {tid})
  }

  function Continue(s: State, tid: nat, th: Thread): State {
    s.(threads := s.threads[tid := th])
  }

  function Accepting(s: State, cand: Candidate, origin: Origin): State {
    if origin.Client? then s.(accepted := s.accepted + {(cand.body, cand.metadata)}) else s
  }

  /** One atomic step of a handler: at most one access to a store, or one reading of the clock. */
  function StepThread(env: Env, s: State, tid: nat): State
    requires tid in s.threads
  {
    match s.threads[tid]
    case Reading(server, cand, origin) =>
      (match Look(env.codec, Store(s, server), cand.body, s.clock)
       case Absent => Continue(s, tid, Writing(server, cand, origin))
       case Unreadable => Finish(s, tid)
       case Stale => Continue(s, tid, Clearing(server, cand, origin))
       case Live(_, stored) => Continue(s, tid, Comparing(server, cand, origin, stored)))
    case Clearing(server, cand, origin) =>
      Continue(WithStore(s, server, Store(s, server) - {cand.body}), tid, Writing(server, cand, origin))
    case Comparing(server, cand, origin, stored) =>
      if cand.payload.timestamp < stored.timestamp || Expired(cand.payload, s.clock) then Finish(s, tid)
      else Continue(s, tid, Writing(server, cand, origin))
    case Writing(server, cand, origin) =>
      Finish(WithStore(Accepting(s, cand, origin), server, Store(s, server)[cand.body := env.codec.encode(cand.metadata)]), tid)
    case Fetching(_, _) => s
    case Received(server, body, raw) =>
      (match ScreenPull(env, body, Some(raw))
       case None => Finish(s, tid)
       case Some(cand) => Continue(s, tid, Reading(server, cand, Peer)))
    case Serving(server, body) =>
      if Look(env.codec, Store(s, server), body, s.clock).Stale? then Continue(s, tid, Evicting(server, body))
      else Finish(s, tid)
    case Evicting(server, body) =>
      Finish(WithStore(s, server, Store(s, server) - {body}), tid)
  }

  function Do(env: Env, s: State, a: Action): State {
    match a
    case Tick(seconds) => s.(clock := s.clock + seconds)
    case ArrivePut(tid, server, addr, chunks) =>
      (match ScreenPut(env, addr, chunks)
       case Err(_) => s
       case Ok(cand) => Spawn(s, tid, Reading(server, cand, Client)))
    case ArriveGet(tid, server, body) => Spawn(s, tid, Serving(server, body))
    case StartPull(tid, server, body) => Spawn(s, tid, Fetching(server, body))
    case HonestAnswer(tid, peer, fault) =>
      if tid in s.threads && s.threads[tid].Fetching? then
        var th := s.threads[tid];
        match if fault then Some(DB_ERROR) else GetBody(env.codec, Store(s, peer), th.body, s.clock)
        case None => Finish(s, tid)
        case Some(raw) => Continue(s, tid, Received(th.server, th.body, raw))
      else s
    case HostileAnswer(tid, raw) =>
      if tid in s.threads && s.threads[tid].Fetching? then
        Continue(s, tid, Received(s.threads[tid].server, s.threads[tid].body, raw))
      else s
    case Step(tid) => if tid in s.threads then StepThread(env, s, tid) else s
    case Drop(tid) => Finish(s, tid)
    case Compact(server, visited) =>
      WithStore(s, server, Compacted(env.codec, Store(s, server), visited, s.clock))
  }

  function Start(clock: int): State {
    State(clock, map[], map[], {})
  }

  function Run(env: Env, clock: int, acts: seq<Action>): State {
    if acts == [] then Start(clock)
    else Do(env, Run(env, clock, acts[..|acts| - 1]), acts[|acts| - 1])
  }

  // ---- Authenticity ----

  /** The bytes of a record, under the key its author's public key hashes to, with a payload that decodes. */
  predicate Genuine(env: Env, body: Bytes, raw: Bytes) {
    && env.codec.decode(raw).Some?
    && raw == env.codec.encode(env.codec.decode(raw).value)
    && Validate(env.sig, body, env.codec.decode(raw).value).Ok?
    && env.codec.decodePayload(env.codec.decode(raw).value.serializedPayload).Some?
  }

  predicate GenuineCandidate(env: Env, cand: Candidate) {
    && Fits(cand.metadata)
    && Validate(env.sig, cand.body, cand.metadata).Ok?
    && env.codec.decodePayload(cand.metadata.serializedPayload) == Some(cand.payload)
  }

  predicate CarriesCandidate(th: Thread) {
    th.Reading? || th.Clearing? || th.Comparing? || th.Writing?
  }

  ghost predicate GenuineTable(env: Env, t: Table) {
    forall k :: k in t ==> Genuine(env, k, t[k])
  }

  ghost predicate Authentic(env: Env, s: State) {
    && (forall id :: id in s.stores ==> GenuineTable(env, s.stores[id]))
    && (forall tid :: tid in s.threads && CarriesCandidate(s.threads[tid])
          ==> GenuineCandidate(env, s.threads[tid].cand))
  }

  lemma ScreenedIsGenuine(env: Env, addr: Bytes, chunks: seq<Option<Bytes>>, body: Bytes, response: Option<Bytes>)
    requires Lawful(env.codec)
    ensures ScreenPut(env, addr, chunks).Ok? ==> GenuineCandidate(env, ScreenPut(env, addr, chunks).value)
    ensures ScreenPull(env, body, response).Some? ==> GenuineCandidate(env, ScreenPull(env, body, response).value)
  {
  }

  lemma StoreIsGenuine(env: Env, s: State, server: nat)
    requires Authentic(env, s)
    ensures GenuineTable(env, Store(s, server))
  {
  }

  lemma WithStoreKeepsAuthentic(env: Env, s: State, server: nat, t: Table)
    requires Authentic(env, s) && GenuineTable(env, t)
    ensures Authentic(env, WithStore(s, server, t))
  {
  }

  lemma ThreadsKeepAuthentic(env: Env, s: State, tid: nat, th: Thread)
    requires Authentic(env, s)
    ensures Authentic(env, Finish(s, tid))
    ensures (CarriesCandidate(th) ==> GenuineCandidate(env, th.cand)) ==> Authentic(env, Continue(s, tid, th))
  {
  }

  lemma WrittenTableIsGenuine(env: Env, t: Table, cand: Candidate)
    requires Lawful(env.codec) && GenuineTable(env, t) && GenuineCandidate(env, cand)
    ensures GenuineTable(env, t[cand.body := env.codec.encode(cand.metadata)])
  {
    assert env.codec.decode(env.codec.encode(cand.metadata)) == Some(cand.metadata);
  }

  lemma StepKeepsAuthentic(env: Env, s: State, tid: nat)
    requires Lawful(env.codec) && Authentic(env, s) && tid in s.threads
    ensures Authentic(env, StepThread(env, s, tid))
  {
    var th := s.threads[tid];
    StoreIsGenuine(env, s, th.server);
    ThreadsKeepAuthentic(env, s, tid, th);
    match th {
      case Reading(server, cand, origin) =>
        match Look(env.codec, Store(s, server), cand.body, s.clock) {
          case Absent => ThreadsKeepAuthentic(env, s, tid, Writing(server, cand, origin));
          case Unreadable =>
          case Stale => ThreadsKeepAuthentic(env, s, tid, Clearing(server, cand, origin));
          case Live(_, stored) => ThreadsKeepAuthentic(env, s, tid, Comparing(server, cand, origin, stored));
        }
      case Clearing(server, cand, origin) =>
        var t := Store(s, server) - {cand.body};
        WithStoreKeepsAuthentic(env, s, server, t);
        ThreadsKeepAuthentic(env, WithStore(s, server, t), tid, Writing(server, cand, origin));
      case Comparing(server, cand, origin, _) =>
        ThreadsKeepAuthentic(env, s, tid, Writing(server, cand, origin));
      case Writing(server, cand, origin) =>
        var t := Store(s, server)[cand.body := env.codec.encode(cand.metadata)];
        WrittenTableIsGenuine(env, Store(s, server), cand);
        var s1 := Accepting(s, cand, origin);
        assert Authentic(env, s1);
        WithStoreKeepsAuthentic(env, s1, server, t);
        ThreadsKeepAuthentic(env, WithStore(s1, server, t), tid, th);
      case Fetching(_, _) =>
      case Received(server, body, raw) =>
        var screened := ScreenPull(env, body, Some(raw));
        if screened.Some? {
          ScreenedIsGenuine(env, [], [], body, Some(raw));
          ThreadsKeepAuthentic(env, s, tid, Reading(server, screened.value, Peer));
        }
      case Serving(server, body) =>
        ThreadsKeepAuthentic(env, s, tid, Evicting(server, body));
      case Evicting(server, body) =>
        var t := Store(s, server) - {body};
        WithStoreKeepsAuthentic(env, s, server, t);
        ThreadsKeepAuthentic(env, WithStore(s, server, t), tid, th);
    }
  }

  lemma DoKeepsAuthentic(env: Env, s: State, a: Action)
    requires Lawful(env.codec) && Authentic(env, s)
    ensures Authentic(env, Do(env, s, a))
  {
    match a {
      case Step(tid) => if tid in s.threads { StepKeepsAuthentic(env, s, tid); }
      case ArrivePut(_, _, addr, chunks) => ScreenedIsGenuine(env, addr, chunks, [], None);
      case Compact(server, visited) =>
        StoreIsGenuine(env, s, server);
        WithStoreKeepsAuthentic(env, s, server, Compacted(env.codec, Store(s, server), visited, s.clock));
      case _ =>
    }
  }

  lemma {:induction false} RunIsAuthentic(env: Env, clock: int, acts: seq<Action>)
    requires Lawful(env.codec)
    ensures Authentic(env, Run(env, clock, acts))
    decreases |acts|
  {
    if acts != [] {
      RunIsAuthentic(env, clock, acts[..|acts| - 1]);
      DoKeepsAuthentic(env, Run(env, clock, acts[..|acts| - 1]), acts[|acts| - 1]);
    }
  }

  /**
   No server of any cluster can be made to hold a forged record: whatever peers answer and however handlers
   interleave, every stored record's key hashes to its address, and its signature verifies over its payload.
   */
  lemma StoredRecordsAreSigned(env: Env, clock: int, acts: seq<Action>, server: nat, body: Bytes)
    requires Lawful(env.codec)
    requires body in Store(Run(env, clock, acts), server)
    ensures var stored := Store(Run(env, clock, acts), server)[body];
            var decoded := env.codec.decode(stored);
            && decoded.Some? && stored == env.codec.encode(decoded.value)
            && SignedFor(env.sig, body, decoded.value)
            && env.codec.decodePayload(decoded.value.serializedPayload).Some?
  {
    RunIsAuthentic(env, clock, acts);
    var s := Run(env, clock, acts);
    assert Genuine(env, body, s.stores[server][body]);
    ValidIffSigned(env.sig, body, env.codec.decode(Store(s, server)[body]).value);
  }

  /** No reachable state makes an `unwrap` on stored bytes fail, in a read, a check, or a compaction. */
  lemma StoredBytesNeverPanic(env: Env, clock: int, acts: seq<Action>, server: nat, body: Bytes, p: Payload, t0: int, t1: int)
    requires Lawful(env.codec)
    ensures var t := Store(Run(env, clock, acts), server);
            && !GetAnswer(env.codec, t, body, t0).Panicked?
            && !CheckAnswer(env.codec, t, body, p, t0, t1).Panicked?
            && (body in t ==> !TtlFilter(env.codec, t[body], t0).FilterPanic?)
  {
    var t := Store(Run(env, clock, acts), server);
    if body in t {
      StoredRecordsAreSigned(env, clock, acts, server, body);
    }
  }

  // ---- Provenance ----

  predicate HonestRun(acts: seq<Action>) {
    forall i :: 0 <= i < |acts| ==> !acts[i].HostileAnswer?
  }

  ghost predicate KnownTable(env: Env, t: Table, accepted: set<(Bytes, AddressMetadata)>) {
    forall k :: k in t ==> env.codec.decode(t[k]).Some? && (k, env.codec.decode(t[k]).value) in accepted
  }

  ghost predicate KnownThread(env: Env, th: Thread, accepted: set<(Bytes, AddressMetadata)>) {
    && (CarriesCandidate(th) && th.origin.Peer? ==> (th.cand.body, th.cand.metadata) in accepted)
    && (th.Received? && env.codec.decode(th.raw).Some? ==> (th.body, env.codec.decode(th.raw).value) in accepted)
  }

  /** Everything stored or on its way from a peer was accepted from a client before. */
  ghost predicate Provenance(env: Env, s: State) {
    && (forall id :: id in s.stores ==> KnownTable(env, s.stores[id], s.accepted))
    && (forall tid :: tid in s.threads ==> KnownThread(env, s.threads[tid], s.accepted))
  }

  lemma HonestBodyIsKnown(env: Env, t: Table, body: Bytes, now: int, accepted: set<(Bytes, AddressMetadata)>)
    requires Lawful(env.codec) && KnownTable(env, t, accepted)
    ensures var raw := GetBody(env.codec, t, body, now);
            raw.Some? && env.codec.decode(raw.value).Some? ==> (body, env.codec.decode(raw.value).value) in accepted
  {
    var c := env.codec;
    if Look(c, t, body, now).Live? {
      var metadata := c.decode(t[body]).value;
      assert Fits(metadata);
      assert c.decode(c.encode(metadata)) == Some(metadata);
    }
  }

  lemma StoreIsKnown(env: Env, s: State, server: nat)
    requires Provenance(env, s)
    ensures KnownTable(env, Store(s, server), s.accepted)
  {
  }

  lemma WithStoreKeepsProvenance(env: Env, s: State, server: nat, t: Table)
    requires Provenance(env, s) && KnownTable(env, t, s.accepted)
    ensures Provenance(env, WithStore(s, server, t))
  {
  }

  lemma ThreadsKeepProvenance(env: Env, s: State, tid: nat, th: Thread)
    requires Provenance(env, s)
    ensures Provenance(env, Finish(s, tid))
    ensures KnownThread(env, th, s.accepted) ==> Provenance(env, Continue(s, tid, th))
  {
  }

  lemma AcceptingKeepsProvenance(env: Env, s: State, cand: Candidate, origin: Origin)
    requires Provenance(env, s)
    requires origin.Peer? ==> (cand.body, cand.metadata) in s.accepted
    ensures Provenance(env, Accepting(s, cand, origin))
    ensures (cand.body, cand.metadata) in Accepting(s, cand, origin).accepted
  {
  }

  lemma StepKeepsProvenance(env: Env, s: State, tid: nat)
    requires Lawful(env.codec) && Authentic(env, s) && Provenance(env, s) && tid in s.threads
    ensures Provenance(env, StepThread(env, s, tid))
  {
    var th := s.threads[tid];
    assert KnownThread(env, th, s.accepted);
    StoreIsKnown(env, s, th.server);
    ThreadsKeepProvenance(env, s, tid, th);
    match th {
      case Reading(server, cand, origin) =>
        match Look(env.codec, Store(s, server), cand.body, s.clock) {
          case Absent => ThreadsKeepProvenance(env, s, tid, Writing(server, cand, origin));
          case Unreadable =>
          case Stale => ThreadsKeepProvenance(env, s, tid, Clearing(server, cand, origin));
          case Live(_, stored) => ThreadsKeepProvenance(env, s, tid, Comparing(server, cand, origin, stored));
        }
      case Clearing(server, cand, origin) =>
        var t := Store(s, server) - {cand.body};
        WithStoreKeepsProvenance(env, s, server, t);
        ThreadsKeepProvenance(env, WithStore(s, server, t), tid, Writing(server, cand, origin));
      case Comparing(server, cand, origin, _) =>
        ThreadsKeepProvenance(env, s, tid, Writing(server, cand, origin));
      case Writing(server, cand, origin) =>
        var t := Store(s, server)[cand.body := env.codec.encode(cand.metadata)];
        assert GenuineCandidate(env, cand);
        assert env.codec.decode(env.codec.encode(cand.metadata)) == Some(cand.metadata);
        var s1 := Accepting(s, cand, origin);
        AcceptingKeepsProvenance(env, s, cand, origin);
        WithStoreKeepsProvenance(env, s1, server, t);
        ThreadsKeepProvenance(env, WithStore(s1, server, t), tid, th);
      case Fetching(_, _) =>
      case Received(server, body, raw) =>
        var screened := ScreenPull(env, body, Some(raw));
        if screened.Some? {
          ThreadsKeepProvenance(env, s, tid, Reading(server, screened.value, Peer));
        }
      case Serving(server, body) =>
        ThreadsKeepProvenance(env, s, tid, Evicting(server, body));
      case Evicting(server, body) =>
        var t := Store(s, server) - {body};
        WithStoreKeepsProvenance(env, s, server, t);
        ThreadsKeepProvenance(env, WithStore(s, server, t), tid, th);
    }
  }

  lemma DoKeepsProvenance(env: Env, s: State, a: Action)
    requires Lawful(env.codec) && Authentic(env, s) && Provenance(env, s) && !a.HostileAnswer?
    ensures Provenance(env, Do(env, s, a))
  {
    match a {
      case Step(tid) => if tid in s.threads { StepKeepsProvenance(env, s, tid); }
      case HonestAnswer(tid, peer, _) =>
        if tid in s.threads && s.threads[tid].Fetching? {
          StoreIsKnown(env, s, peer);
          HonestBodyIsKnown(env, Store(s, peer), s.threads[tid].body, s.clock, s.accepted);
        }
      case Compact(server, visited) =>
        StoreIsKnown(env, s, server);
        WithStoreKeepsProvenance(env, s, server, Compacted(env.codec, Store(s, server), visited, s.clock));
      case _ =>
    }
  }

  lemma {:induction false} RunHasProvenance(env: Env, clock: int, acts: seq<Action>)
    requires Lawful(env.codec) && HonestRun(acts)
    ensures Provenance(env, Run(env, clock, acts))
    decreases |acts|
  {
    if acts != [] {
      var before := acts[..|acts| - 1];
      RunHasProvenance(env, clock, before);
      RunIsAuthentic(env, clock, before);
      DoKeepsProvenance(env, Run(env, clock, before), acts[|acts| - 1]);
    }
  }

  /** Action `i` of the run is a client's PUT that passes screening as `cand`. */
  predicate SubmittedAt(env: Env, acts: seq<Action>, i: nat, cand: Candidate)
    requires i < |acts|
  {
    acts[i].ArrivePut? && ScreenPut(env, acts[i].addr, acts[i].chunks) == Ok(cand)
  }

  /** Action `j` of the run is the moment a client's PUT of `cand` is written. */
  predicate WrittenAt(env: Env, clock: int, acts: seq<Action>, j: nat, cand: Candidate)
    requires j < |acts|
  {
    && acts[j].Step?
    && var threads := Run(env, clock, acts[..j]).threads;
       acts[j].tid in threads && threads[acts[j].tid].Writing? && threads[acts[j].tid].origin.Client?
       && threads[acts[j].tid].cand == cand
  }

  predicate CarriesForClient(s: State, tid: nat, cand: Candidate) {
    tid in s.threads && CarriesCandidate(s.threads[tid]) && s.threads[tid].origin.Client? && s.threads[tid].cand == cand
  }

  lemma ClientThreadsBegin(env: Env, s: State, a: Action, tid: nat, cand: Candidate)
    requires CarriesForClient(Do(env, s, a), tid, cand) && !CarriesForClient(s, tid, cand)
    ensures a.ArrivePut? && ScreenPut(env, a.addr, a.chunks) == Ok(cand)
  {
  }

  lemma {:induction false} ClientThreadsWereSubmitted(env: Env, clock: int, acts: seq<Action>, tid: nat, cand: Candidate)
    requires CarriesForClient(Run(env, clock, acts), tid, cand)
    ensures exists i :: 0 <= i < |acts| && SubmittedAt(env, acts, i, cand)
    decreases |acts|
  {
    var before := acts[..|acts| - 1];
    if CarriesForClient(Run(env, clock, before), tid, cand) {
      ClientThreadsWereSubmitted(env, clock, before, tid, cand);
      var i :| 0 <= i < |before| && SubmittedAt(env, before, i, cand);
      assert SubmittedAt(env, acts, i, cand);
    } else {
      ClientThreadsBegin(env, Run(env, clock, before), acts[|acts| - 1], tid, cand);
      assert SubmittedAt(env, acts, |acts| - 1, cand);
    }
  }

  lemma {:induction false} AcceptedWasWritten(env: Env, clock: int, acts: seq<Action>, body: Bytes, metadata: AddressMetadata)
    requires (body, metadata) in Run(env, clock, acts).accepted
    ensures exists j, cand :: 0 <= j < |acts| && WrittenAt(env, clock, acts, j, cand)
                              && cand.body == body && cand.metadata == metadata
    decreases |acts|
  {
    var before, a := acts[..|acts| - 1], acts[|acts| - 1];
    var s := Run(env, clock, before);
    if (body, metadata) in s.accepted {
      AcceptedWasWritten(env, clock, before, body, metadata);
      var j, cand :| 0 <= j < |before| && WrittenAt(env, clock, before, j, cand)
                     && cand.body == body && cand.metadata == metadata;
      assert before[..j] == acts[..j];
      assert WrittenAt(env, clock, acts, j, cand);
    } else {
      assert WrittenAt(env, clock, acts, |acts| - 1, s.threads[a.tid].cand);
    }
  }

  /**
   When peers answer only with what they store, every record stored anywhere was submitted by a client in a PUT
   for the same address, at some server, and written there before.
   */
  lemma StoredRecordsCameFromClients(env: Env, clock: int, acts: seq<Action>, server: nat, body: Bytes)
    requires Lawful(env.codec) && HonestRun(acts)
    requires body in Store(Run(env, clock, acts), server)
    ensures var decoded := env.codec.decode(Store(Run(env, clock, acts), server)[body]);
            && decoded.Some?
            && exists i, j, cand ::
                 && 0 <= i < j < |acts|
                 && SubmittedAt(env, acts, i, cand)
                 && WrittenAt(env, clock, acts, j, cand)
                 && cand.body == body && cand.metadata == decoded.value
  {
    RunHasProvenance(env, clock, acts);
    var s := Run(env, clock, acts);
    assert KnownTable(env, s.stores[server], s.accepted);
    var metadata := env.codec.decode(Store(s, server)[body]).value;
    AcceptedWasWritten(env, clock, acts, body, metadata);
    var j, cand :| 0 <= j < |acts| && WrittenAt(env, clock, acts, j, cand)
                   && cand.body == body && cand.metadata == metadata;
    ClientThreadsWereSubmitted(env, clock, acts[..j], acts[j].tid, cand);
    var i :| 0 <= i < |acts[..j]| && SubmittedAt(env, acts[..j], i, cand);
    assert SubmittedAt(env, acts, i, cand);
  }
}
