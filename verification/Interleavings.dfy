/** What interleaved handlers can do to each other, over whole runs of a cluster. */
module Interleavings {
  import opened Prelude
  import opened Messages
  import opened Codecs
  import opened Authentication
  import opened KeyDb
  import opened Handlers
  import opened Cluster
  import Registers

  // ---- Moments of a run ----

  function At(env: Env, clock: int, acts: seq<Action>, n: nat): State
    requires n <= |acts|
  {
    Run(env, clock, acts[..n])
  }

  lemma NextMoment(env: Env, clock: int, acts: seq<Action>, n: nat)
    requires n < |acts|
    ensures At(env, clock, acts, n + 1) == Do(env, At(env, clock, acts, n), acts[n])
  {
    assert acts[..n + 1][..n] == acts[..n];
  }

  lemma {:induction false} ClockAdvances(env: Env, clock: int, acts: seq<Action>, i: nat, j: nat)
    requires i <= j <= |acts|
    ensures At(env, clock, acts, i).clock <= At(env, clock, acts, j).clock
    decreases j
  {
    if i < j {
      ClockAdvances(env, clock, acts, i, j - 1);
      NextMoment(env, clock, acts, j - 1);
    }
  }

  function Under(t: Table, body: Bytes): Option<Bytes> {
    if body in t then Some(t[body]) else None
  }

  function Seen(env: Env, s: State, server: nat, body: Bytes): KeyDb.Entry {
    Look(env.codec, Store(s, server), body, s.clock)
  }

  // ---- Where a stored entry comes from ----

  /** Action `k` is the moment a handler writes `raw` under the address. */
  predicate WroteAt(env: Env, clock: int, acts: seq<Action>, k: int, server: nat, body: Bytes, raw: Bytes) {
    && 0 <= k < |acts| && acts[k].Step?
    && var threads := At(env, clock, acts, k).threads;
       && acts[k].tid in threads && threads[acts[k].tid].Writing?
       && threads[acts[k].tid].server == server && threads[acts[k].tid].cand.body == body
       && raw == env.codec.encode(threads[acts[k].tid].cand.metadata)
  }

  /** An action leaves an entry as it is, removes it, or is a write of what is stored afterwards. */
  lemma EntryAfter(env: Env, s: State, a: Action, server: nat, body: Bytes)
    ensures var before, after := Under(Store(s, server), body), Under(Store(Do(env, s, a), server), body);
            || after == before
            || after == None
            || (&& a.Step? && a.tid in s.threads && s.threads[a.tid].Writing?
                && s.threads[a.tid].server == server && s.threads[a.tid].cand.body == body
                && after == Some(env.codec.encode(s.threads[a.tid].cand.metadata)))
  {
  }

  lemma {:induction false} EntryOrigin(env: Env, clock: int, acts: seq<Action>, r: nat, n: nat, server: nat, body: Bytes)
    requires r <= n <= |acts|
    ensures var now := Under(Store(At(env, clock, acts, n), server), body);
            || now == None
            || now == Under(Store(At(env, clock, acts, r), server), body)
            || exists k :: r <= k < n && WroteAt(env, clock, acts, k, server, body, now.value)
    decreases n
  {
    if r < n {
      EntryOrigin(env, clock, acts, r, n - 1, server, body);
      NextMoment(env, clock, acts, n - 1);
      EntryAfter(env, At(env, clock, acts, n - 1), acts[n - 1], server, body);
      var now := Under(Store(At(env, clock, acts, n), server), body);
      if now.Some? && now != Under(Store(At(env, clock, acts, n - 1), server), body) {
        assert WroteAt(env, clock, acts, n - 1, server, body, now.value);
      }
    }
  }

  // ---- Handlers that have read and not yet acted ----

  /** The handler has seen the entry under the address and acts on what it saw. */
  predicate Decided(th: Thread, server: nat, body: Bytes) {
    && th.server == server
    && (|| ((th.Clearing? || th.Comparing? || th.Writing?) && th.cand.body == body)
        || (th.Evicting? && th.body == body))
  }

  predicate InFlight(s: State, tid: nat, server: nat, body: Bytes) {
    tid in s.threads && Decided(s.threads[tid], server, body)
  }

  lemma DecidedBegins(env: Env, s: State, a: Action, tid: nat, server: nat, body: Bytes)
    requires InFlight(Do(env, s, a), tid, server, body) && !InFlight(s, tid, server, body)
    ensures a == Step(tid) && tid in s.threads && (s.threads[tid].Reading? || s.threads[tid].Serving?)
  {
  }

  /** What a handler still knows of the entry it read. */
  predicate Remembers(th: Thread, seen: KeyDb.Entry) {
    match th
    case Clearing(_, _, _) => seen.Stale?
    case Evicting(_, _) => seen.Stale?
    case Comparing(_, _, _, stored) => seen.Live? && seen.payload == stored
    case Writing(_, cand, _) => seen.Live? ==> seen.payload.timestamp <= cand.payload.timestamp
    case _ => true
  }

  /** The handler read the entry at action `r` and has been in flight from then up to moment `n`. */
  ghost predicate ReadAt(env: Env, clock: int, acts: seq<Action>, r: int, n: nat, tid: nat, server: nat, body: Bytes) {
    && 0 <= r < n <= |acts| && acts[r] == Step(tid)
    && tid in At(env, clock, acts, r).threads
    && (At(env, clock, acts, r).threads[tid].Reading? || At(env, clock, acts, r).threads[tid].Serving?)
    && forall k :: r < k <= n ==> InFlight(At(env, clock, acts, k), tid, server, body)
  }

  lemma ReadingIsRemembered(env: Env, s: State, tid: nat, server: nat, body: Bytes)
    requires InFlight(Do(env, s, Step(tid)), tid, server, body) && !InFlight(s, tid, server, body)
    ensures Remembers(Do(env, s, Step(tid)).threads[tid], Seen(env, s, server, body))
  {
  }

  lemma ActionsAreRemembered(env: Env, s: State, a: Action, tid: nat, server: nat, body: Bytes, seen: KeyDb.Entry)
    requires InFlight(s, tid, server, body) && InFlight(Do(env, s, a), tid, server, body)
    requires Remembers(s.threads[tid], seen)
    ensures Remembers(Do(env, s, a).threads[tid], seen)
  {
  }

  lemma {:induction false} HandlerHasRead(
    env: Env, clock: int, acts: seq<Action>, n: nat, tid: nat, server: nat, body: Bytes) returns (r: nat)
    requires n <= |acts| && InFlight(At(env, clock, acts, n), tid, server, body)
    ensures ReadAt(env, clock, acts, r, n, tid, server, body)
    ensures Remembers(At(env, clock, acts, n).threads[tid], Seen(env, At(env, clock, acts, r), server, body))
    decreases n
  {
    NextMoment(env, clock, acts, n - 1);
    var s := At(env, clock, acts, n - 1);
    if InFlight(s, tid, server, body) {
      r := HandlerHasRead(env, clock, acts, n - 1, tid, server, body);
      ActionsAreRemembered(env, s, acts[n - 1], tid, server, body, Seen(env, At(env, clock, acts, r), server, body));
    } else {
      DecidedBegins(env, s, acts[n - 1], tid, server, body);
      ReadingIsRemembered(env, s, tid, server, body);
      r := n - 1;
    }
  }

  // ---- When a live record is lost ----

  /** The action removes a live record, or puts an older one in its place. */
  predicate Loses(env: Env, s: State, a: Action, server: nat, body: Bytes) {
    var entry, after := Seen(env, s, server, body), Under(Store(Do(env, s, a), server), body);
    && entry.Live?
    && (after.None?
        || (&& env.codec.decode(after.value).Some?
            && Registers.TimestampOf(env.codec, env.codec.decode(after.value).value) < entry.payload.timestamp))
  }

  /** The step on which a handler removes what is live, or writes what is older. */
  predicate Overrides(th: Thread, entry: KeyDb.Entry) {
    entry.Live? && (th.Clearing? || th.Evicting? || (th.Writing? && th.cand.payload.timestamp < entry.payload.timestamp))
  }

  lemma OnlyStepsLose(env: Env, s: State, a: Action, server: nat, body: Bytes)
    requires !a.Step?
    ensures !Loses(env, s, a, server, body)
  {
    if a.Compact? && a.server == server {
      var t, t' := Store(s, server), Store(Do(env, s, a), server);
      assert t' == Compacted(env.codec, t, a.visited, s.clock);
    } else {
      assert Store(Do(env, s, a), server) == Store(s, server);
    }
  }

  /** What a handler's step does to the entry under one address at one server. */
  lemma StepEffect(env: Env, s: State, tid: nat, server: nat, body: Bytes)
    ensures Under(Store(Do(env, s, Step(tid)), server), body) ==
            if !InFlight(s, tid, server, body) || s.threads[tid].Comparing? then Under(Store(s, server), body)
            else if s.threads[tid].Writing? then Some(env.codec.encode(s.threads[tid].cand.metadata))
            else None
  {
  }

  lemma LosesIffOverrides(env: Env, s: State, tid: nat, server: nat, body: Bytes)
    requires Lawful(env.codec) && Authentic(env, s)
    ensures Loses(env, s, Step(tid), server, body)
            <==> InFlight(s, tid, server, body) && Overrides(s.threads[tid], Seen(env, s, server, body))
  {
    StepEffect(env, s, tid, server, body);
    if InFlight(s, tid, server, body) && s.threads[tid].Writing? {
      var cand := s.threads[tid].cand;
      assert GenuineCandidate(env, cand);
      assert env.codec.decode(env.codec.encode(cand.metadata)) == Some(cand.metadata);
    }
  }

  /** What has expired stays expired, and a timestamp does not change with the time of reading. */
  lemma SameBytesSeenLater(env: Env, s: State, s': State, server: nat, body: Bytes)
    requires s.clock <= s'.clock
    requires Under(Store(s, server), body) == Under(Store(s', server), body)
    requires Seen(env, s', server, body).Live?
    ensures Seen(env, s, server, body) == Seen(env, s', server, body)
  {
  }

  /** Between reading the entry and acting on it, the handler saw another one write what is stored now. */
  ghost predicate Overtaken(env: Env, clock: int, acts: seq<Action>, r: int, k: int, i: nat, server: nat, body: Bytes)
    requires i < |acts|
  {
    && acts[i].Step?
    && ReadAt(env, clock, acts, r, i, acts[i].tid, server, body)
    && r < k < i && acts[k].Step? && acts[k].tid != acts[i].tid
    && var now := Under(Store(At(env, clock, acts, i), server), body);
       now.Some? && WroteAt(env, clock, acts, k, server, body, now.value)
  }

  lemma LossIsOvertaking(env: Env, clock: int, acts: seq<Action>, i: nat, server: nat, body: Bytes)
    requires Lawful(env.codec) && i < |acts| && acts[i].Step?
    requires InFlight(At(env, clock, acts, i), acts[i].tid, server, body)
    requires var s := At(env, clock, acts, i); Overrides(s.threads[acts[i].tid], Seen(env, s, server, body))
    ensures exists r, k :: Overtaken(env, clock, acts, r, k, i, server, body)
  {
    var s := At(env, clock, acts, i);
    var r := HandlerHasRead(env, clock, acts, i, acts[i].tid, server, body);
    ClockAdvances(env, clock, acts, r, i);
    EntryOrigin(env, clock, acts, r, i, server, body);
    var was, now := Under(Store(At(env, clock, acts, r), server), body), Under(Store(s, server), body);
    if now == was {
      SameBytesSeenLater(env, At(env, clock, acts, r), s, server, body);
      assert false;
    } else {
      var k :| r <= k < i && WroteAt(env, clock, acts, k, server, body, now.value);
      NextMoment(env, clock, acts, k);
      assert Overtaken(env, clock, acts, r, k, i, server, body);
    }
  }

  /**
   The lost update, exactly: an action removes a live record or replaces it by an older one just when it is the
   clearing step, or the older write, of a handler that read the address before another handler wrote that record.
   */
  lemma LiveRecordLostIff(env: Env, clock: int, acts: seq<Action>, i: nat, server: nat, body: Bytes)
    requires Lawful(env.codec) && i < |acts|
    ensures var s := At(env, clock, acts, i);
            Loses(env, s, acts[i], server, body)
            <==> && (exists r, k :: Overtaken(env, clock, acts, r, k, i, server, body))
                 && acts[i].tid in s.threads
                 && Overrides(s.threads[acts[i].tid], Seen(env, s, server, body))
  {
    var s := At(env, clock, acts, i);
    RunIsAuthentic(env, clock, acts[..i]);
    if acts[i].Step? {
      LosesIffOverrides(env, s, acts[i].tid, server, body);
      if Loses(env, s, acts[i], server, body) {
        LossIsOvertaking(env, clock, acts, i, server, body);
      }
    } else {
      OnlyStepsLose(env, s, acts[i], server, body);
    }
  }

  // ---- Runs in which nothing is lost ----

  /** No handler is about to write an address at a server while another has read it there and not yet acted. */
  ghost predicate NoOverlap(env: Env, clock: int, acts: seq<Action>, server: nat, body: Bytes) {
    forall n, tid, tid' | 0 <= n <= |acts| && tid != tid'
      && InFlight(At(env, clock, acts, n), tid, server, body) && InFlight(At(env, clock, acts, n), tid', server, body)
      :: !At(env, clock, acts, n).threads[tid].Writing?
  }

  lemma WithoutOverlapNothingIsLost(env: Env, clock: int, acts: seq<Action>, i: nat, server: nat, body: Bytes)
    requires Lawful(env.codec) && i < |acts| && NoOverlap(env, clock, acts, server, body)
    ensures !Loses(env, At(env, clock, acts, i), acts[i], server, body)
  {
    LiveRecordLostIff(env, clock, acts, i, server, body);
    if r: int, k: int :| Overtaken(env, clock, acts, r, k, i, server, body) {
      assert !InFlight(At(env, clock, acts, k), acts[i].tid, server, body);
    }
  }

  /** However handlers interleave, without overlap the timestamps of an address never fall while its record is live. */
  lemma {:induction false} WithoutOverlapTimestampsNeverFall(
    env: Env, clock: int, acts: seq<Action>, i: nat, j: nat, server: nat, body: Bytes)
    requires Lawful(env.codec) && NoOverlap(env, clock, acts, server, body)
    requires i <= j <= |acts|
    requires forall n :: i <= n <= j ==> Seen(env, At(env, clock, acts, n), server, body).Live?
    ensures Seen(env, At(env, clock, acts, i), server, body).payload.timestamp
            <= Seen(env, At(env, clock, acts, j), server, body).payload.timestamp
    decreases j
  {
    if i < j {
      WithoutOverlapTimestampsNeverFall(env, clock, acts, i, j - 1, server, body);
      WithoutOverlapNothingIsLost(env, clock, acts, j - 1, server, body);
      NextMoment(env, clock, acts, j - 1);
    }
  }

  // ---- A handler's whole passage ----

  /** Between the two moments only the handler itself changes the entry. */
  ghost predicate Quiet(env: Env, clock: int, acts: seq<Action>, r: nat, n: nat, tid: nat, server: nat, body: Bytes)
    requires n <= |acts|
  {
    forall k {:trigger acts[k]} :: r < k < n && acts[k] != Step(tid) ==>
      Under(Store(At(env, clock, acts, k + 1), server), body) == Under(Store(At(env, clock, acts, k), server), body)
  }

  /** Where a handler with a candidate stands, relative to the store `t` and the clock `t0` of its reading. */
  predicate Progress(c: Codec, t: Table, t0: int, t1: int, th: Thread, cand: Candidate) {
    match th
    case Clearing(_, cand', _) => cand' == cand && Look(c, t, cand.body, t0).Stale?
    case Comparing(_, cand', _, stored) =>
      cand' == cand && Look(c, t, cand.body, t0).Live? && Look(c, t, cand.body, t0).payload == stored
    case Writing(_, cand', _) => cand' == cand && CheckAnswer(c, t, cand.body, cand.payload, t0, t1) == Done(Ok(()))
    case _ => false
  }

  function Cleared(c: Codec, t: Table, t0: int, th: Thread, body: Bytes): Option<Bytes> {
    if th.Writing? then Under(AfterGet(c, t, body, t0), body) else Under(t, body)
  }

  lemma ProgressBegins(env: Env, s: State, tid: nat, server: nat, cand: Candidate)
    requires tid in s.threads && s.threads[tid].Reading? && s.threads[tid].cand == cand
    requires InFlight(Do(env, s, Step(tid)), tid, server, cand.body)
    ensures var t, s' := Store(s, server), Do(env, s, Step(tid));
            && Progress(env.codec, t, s.clock, s.clock, s'.threads[tid], cand)
            && Under(Store(s', server), cand.body) == Cleared(env.codec, t, s.clock, s'.threads[tid], cand.body)
  {
  }

  lemma ProgressContinues(
    env: Env, s: State, a: Action, tid: nat, server: nat, cand: Candidate, t: Table, t0: int, t1: int)
    requires InFlight(s, tid, server, cand.body) && InFlight(Do(env, s, a), tid, server, cand.body)
    requires Progress(env.codec, t, t0, t1, s.threads[tid], cand)
    ensures var th, th' := s.threads[tid], Do(env, s, a).threads[tid];
            && Progress(env.codec, t, t0, if th.Comparing? && th'.Writing? then s.clock else t1, th', cand)
            && (a != Step(tid) ==> th' == th)
  {
  }

  lemma ActionsClear(env: Env, s: State, a: Action, tid: nat, server: nat, cand: Candidate, t: Table, t0: int, t1: int)
    requires InFlight(s, tid, server, cand.body) && InFlight(Do(env, s, a), tid, server, cand.body)
    requires Progress(env.codec, t, t0, t1, s.threads[tid], cand)
    requires Under(Store(s, server), cand.body) == Cleared(env.codec, t, t0, s.threads[tid], cand.body)
    requires a != Step(tid) ==>
               Under(Store(Do(env, s, a), server), cand.body) == Under(Store(s, server), cand.body)
    ensures var s' := Do(env, s, a);
            Under(Store(s', server), cand.body) == Cleared(env.codec, t, t0, s'.threads[tid], cand.body)
  {
    if a == Step(tid) {
      StepEffect(env, s, tid, server, cand.body);
    } else {
      ProgressContinues(env, s, a, tid, server, cand, t, t0, t1);
    }
  }

  ghost predicate ProgressAt(
    env: Env, clock: int, acts: seq<Action>, r: nat, n: nat, tid: nat, server: nat, cand: Candidate, t1: int)
    requires ReadAt(env, clock, acts, r, n, tid, server, cand.body)
  {
    var s, s' := At(env, clock, acts, r), At(env, clock, acts, n);
    s.clock <= t1 <= s'.clock && Progress(env.codec, Store(s, server), s.clock, t1, s'.threads[tid], cand)
  }

  lemma ProgressAction(
    env: Env, clock: int, acts: seq<Action>, r: nat, n: nat, tid: nat, server: nat, cand: Candidate, t1: int)
    returns (t1': int)
    requires ReadAt(env, clock, acts, r, n, tid, server, cand.body)
    requires ReadAt(env, clock, acts, r, n + 1, tid, server, cand.body)
    requires ProgressAt(env, clock, acts, r, n, tid, server, cand, t1)
    ensures ProgressAt(env, clock, acts, r, n + 1, tid, server, cand, t1')
  {
    NextMoment(env, clock, acts, n);
    ClockAdvances(env, clock, acts, r, n);
    ClockAdvances(env, clock, acts, n, n + 1);
    var s, s' := At(env, clock, acts, n), At(env, clock, acts, n + 1);
    var t, t0 := Store(At(env, clock, acts, r), server), At(env, clock, acts, r).clock;
    ProgressContinues(env, s, acts[n], tid, server, cand, t, t0, t1);
    t1' := if s.threads[tid].Comparing? && s'.threads[tid].Writing? then s.clock else t1;
  }

  lemma {:induction false} HandlerProgresses(
    env: Env, clock: int, acts: seq<Action>, r: nat, n: nat, tid: nat, server: nat, cand: Candidate) returns (t1: int)
    requires ReadAt(env, clock, acts, r, n, tid, server, cand.body)
    requires At(env, clock, acts, r).threads[tid].Reading? && At(env, clock, acts, r).threads[tid].cand == cand
    ensures ProgressAt(env, clock, acts, r, n, tid, server, cand, t1)
    decreases n
  {
    if n == r + 1 {
      NextMoment(env, clock, acts, r);
      ClockAdvances(env, clock, acts, r, n);
      ProgressBegins(env, At(env, clock, acts, r), tid, server, cand);
      t1 := At(env, clock, acts, r).clock;
    } else {
      t1 := HandlerProgresses(env, clock, acts, r, n - 1, tid, server, cand);
      t1 := ProgressAction(env, clock, acts, r, n - 1, tid, server, cand, t1);
    }
  }

  ghost predicate ClearedAt(env: Env, clock: int, acts: seq<Action>, r: nat, n: nat, tid: nat, server: nat, body: Bytes)
    requires ReadAt(env, clock, acts, r, n, tid, server, body)
  {
    var s, s' := At(env, clock, acts, r), At(env, clock, acts, n);
    Under(Store(s', server), body) == Cleared(env.codec, Store(s, server), s.clock, s'.threads[tid], body)
  }

  lemma QuietAction(
    env: Env, clock: int, acts: seq<Action>, r: nat, n: nat, tid: nat, server: nat, cand: Candidate)
    requires ReadAt(env, clock, acts, r, n, tid, server, cand.body)
    requires ReadAt(env, clock, acts, r, n + 1, tid, server, cand.body)
    requires At(env, clock, acts, r).threads[tid].Reading? && At(env, clock, acts, r).threads[tid].cand == cand
    requires acts[n] != Step(tid) ==>
               Under(Store(At(env, clock, acts, n + 1), server), cand.body)
               == Under(Store(At(env, clock, acts, n), server), cand.body)
    requires ClearedAt(env, clock, acts, r, n, tid, server, cand.body)
    ensures ClearedAt(env, clock, acts, r, n + 1, tid, server, cand.body)
  {
    NextMoment(env, clock, acts, n);
    var t1 := HandlerProgresses(env, clock, acts, r, n, tid, server, cand);
    var t, t0 := Store(At(env, clock, acts, r), server), At(env, clock, acts, r).clock;
    ActionsClear(env, At(env, clock, acts, n), acts[n], tid, server, cand, t, t0, t1);
  }

  lemma FirstActionClears(env: Env, clock: int, acts: seq<Action>, r: nat, tid: nat, server: nat, cand: Candidate)
    requires ReadAt(env, clock, acts, r, r + 1, tid, server, cand.body)
    requires At(env, clock, acts, r).threads[tid].Reading? && At(env, clock, acts, r).threads[tid].cand == cand
    ensures ClearedAt(env, clock, acts, r, r + 1, tid, server, cand.body)
  {
    NextMoment(env, clock, acts, r);
    ProgressBegins(env, At(env, clock, acts, r), tid, server, cand);
  }

  lemma {:induction false} QuietHandlerClears(
    env: Env, clock: int, acts: seq<Action>, r: nat, n: nat, tid: nat, server: nat, cand: Candidate)
    requires ReadAt(env, clock, acts, r, n, tid, server, cand.body)
    requires At(env, clock, acts, r).threads[tid].Reading? && At(env, clock, acts, r).threads[tid].cand == cand
    requires Quiet(env, clock, acts, r, n, tid, server, cand.body)
    ensures ClearedAt(env, clock, acts, r, n, tid, server, cand.body)
    decreases n
  {
    if n == r + 1 {
      FirstActionClears(env, clock, acts, r, tid, server, cand);
    } else {
      QuietHandlerClears(env, clock, acts, r, n - 1, tid, server, cand);
      QuietAction(env, clock, acts, r, n - 1, tid, server, cand);
    }
  }

  /**
   A handler that runs to its end decides as one uninterrupted check would have on the store it read; and if
   nothing else touched the entry meanwhile, it leaves there what one uninterrupted check-and-put would have.
   */
  lemma PassageIsOffer(
    env: Env, clock: int, acts: seq<Action>, r: nat, i: nat, tid: nat, server: nat, cand: Candidate) returns (t1: int)
    requires i < |acts| && acts[i] == Step(tid)
    requires ReadAt(env, clock, acts, r, i, tid, server, cand.body)
    requires At(env, clock, acts, r).threads[tid].Reading? && At(env, clock, acts, r).threads[tid].cand == cand
    requires tid !in At(env, clock, acts, i + 1).threads
    ensures At(env, clock, acts, r).clock <= t1 <= At(env, clock, acts, i).clock
    ensures var s, s' := At(env, clock, acts, r), At(env, clock, acts, i + 1);
            var t := Store(s, server);
            && (At(env, clock, acts, i).threads[tid].Writing?
                <==> CheckAnswer(env.codec, t, cand.body, cand.payload, s.clock, t1) == Done(Ok(())))
            && (Quiet(env, clock, acts, r, i, tid, server, cand.body)
                ==> Under(Store(s', server), cand.body)
                    == Under(Offer(env.codec, t, cand, s.clock, t1, HEALTHY), cand.body))
  {
    t1 := HandlerProgresses(env, clock, acts, r, i, tid, server, cand);
    if Quiet(env, clock, acts, r, i, tid, server, cand.body) {
      QuietHandlerClears(env, clock, acts, r, i, tid, server, cand);
    }
    NextMoment(env, clock, acts, i);
    StepEffect(env, At(env, clock, acts, i), tid, server, cand.body);
    if At(env, clock, acts, i).threads[tid].Comparing? {
      t1 := At(env, clock, acts, i).clock;
      ClockAdvances(env, clock, acts, r, i);
    }
  }

  // ---- Updates that are lost ----

  lemma BothReadFirst(env: Env, clock: int, server: nat,
                      addr: Bytes, chunks: seq<Option<Bytes>>, addr': Bytes, chunks': seq<Option<Bytes>>)
    requires ScreenPut(env, addr, chunks).Ok? && ScreenPut(env, addr', chunks').Ok?
    ensures var a, b := ScreenPut(env, addr, chunks).value, ScreenPut(env, addr', chunks').value;
            Run(env, clock, [ArrivePut(0, server, addr, chunks), ArrivePut(1, server, addr', chunks'), Step(0), Step(1)])
            == State(clock, map[], map[0 := Writing(server, a, Client), 1 := Writing(server, b, Client)], {})
  {
    var a, b := ScreenPut(env, addr, chunks).value, ScreenPut(env, addr', chunks').value;
    var acts := [ArrivePut(0, server, addr, chunks), ArrivePut(1, server, addr', chunks'), Step(0), Step(1)];
    assert acts[..0] == [] && acts[..4] == acts;
    NextMoment(env, clock, acts, 0);
    NextMoment(env, clock, acts, 1);
    assert At(env, clock, acts, 2)
        == State(clock, map[], map[0 := Reading(server, a, Client), 1 := Reading(server, b, Client)], {});
    NextMoment(env, clock, acts, 2);
    NextMoment(env, clock, acts, 3);
  }

  /** Two PUTs meet at an empty address: the newer record is stored, and the older one replaces it. */
  lemma TwoPutsLoseOne(env: Env, clock: int, server: nat,
                       addr: Bytes, chunks: seq<Option<Bytes>>, addr': Bytes, chunks': seq<Option<Bytes>>)
    requires Lawful(env.codec) && ScreenPut(env, addr, chunks).Ok? && ScreenPut(env, addr', chunks').Ok?
    requires var newer, older := ScreenPut(env, addr, chunks).value, ScreenPut(env, addr', chunks').value;
             && older.body == newer.body && older.payload.timestamp < newer.payload.timestamp
             && !Expired(newer.payload, clock)
    ensures var acts := [ArrivePut(0, server, addr, chunks), ArrivePut(1, server, addr', chunks'),
                         Step(0), Step(1), Step(0), Step(1)];
            var newer, older := ScreenPut(env, addr, chunks).value, ScreenPut(env, addr', chunks').value;
            && Under(Store(At(env, clock, acts, 5), server), newer.body) == Some(env.codec.encode(newer.metadata))
            && Under(Store(At(env, clock, acts, 6), server), newer.body) == Some(env.codec.encode(older.metadata))
            && Loses(env, At(env, clock, acts, 5), acts[5], server, newer.body)
  {
    var newer, older := ScreenPut(env, addr, chunks).value, ScreenPut(env, addr', chunks').value;
    var acts := [ArrivePut(0, server, addr, chunks), ArrivePut(1, server, addr', chunks'),
                 Step(0), Step(1), Step(0), Step(1)];
    BothReadFirst(env, clock, server, addr, chunks, addr', chunks');
    assert acts[..4] == [ArrivePut(0, server, addr, chunks), ArrivePut(1, server, addr', chunks'), Step(0), Step(1)];
    NextMoment(env, clock, acts, 4);
    NextMoment(env, clock, acts, 5);
    assert env.codec.decode(env.codec.encode(newer.metadata)) == Some(newer.metadata);
    assert env.codec.decode(env.codec.encode(older.metadata)) == Some(older.metadata);
    assert At(env, clock, acts, 5).threads == map[1 := Writing(server, older, Client)];
  }
}
