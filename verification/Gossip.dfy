/** Any number of servers that pull one address from each other, in any order, while clients write and read. */
module Gossip {
  import opened Prelude
  import opened Utf8
  import opened Messages
  import opened Codecs
  import opened Authentication
  import opened KeyDb
  import opened Handlers
  import opened Registers
  import Cluster

  /**
   Server `to` sees a transaction that names server `from`, and polls it; or it deals with any other event by itself:
   a client's PUT or GET, a compaction, a poll of a server outside, with whatever answer.
   */
  datatype Move =
    | Exchange(from: nat, to: nat, url: Str, asked: int, t0: int, t1: int)
    | Local(to: nat, event: Event)

  function Item(env: Env, servers: seq<Table>, body: Bytes, x: Move): PollItem
    requires x.Exchange? && x.from < |servers|
  {
    PollItem(Some((x.url, body)), true, GetBody(env.codec, servers[x.from], body, x.asked), x.t0, x.t1, HEALTHY)
  }

  /** The record a move brings in from outside for the address. */
  function Brought(env: Env, body: Bytes, x: Move): Option<Candidate> {
    if x.Local? && Offered(env, x.event).Some? && Offered(env, x.event).value.body == body
    then Offered(env, x.event) else None
  }

  /** No clock reading is past `end`, and what comes in from outside stays live until then. */
  predicate Within(env: Env, n: nat, body: Bytes, x: Move, end: int) {
    && x.to < n
    && (x.Exchange? ==> x.from < n && x.asked <= end && x.t0 <= end && x.t1 <= end)
    && (x.Local? ==> FirstReading(x.event) <= end && LastReading(x.event) <= end)
    && (Brought(env, body, x).Some? ==> !Expired(Brought(env, body, x).value.payload, end))
  }

  predicate Among(env: Env, n: nat, body: Bytes, xs: seq<Move>, end: int) {
    forall i :: 0 <= i < |xs| ==> Within(env, n, body, xs[i], end)
  }

  function After(env: Env, servers: seq<Table>, body: Bytes, x: Move): Table
    requires x.to < |servers| && (x.Exchange? ==> x.from < |servers|)
  {
    match x
    case Exchange(_, to, _, _, _, _) => PollTable(env, servers[to], Item(env, servers, body, x))
    case Local(to, event) => Apply(env, servers[to], event)
  }

  function Run(env: Env, servers: seq<Table>, body: Bytes, xs: seq<Move>, end: int): (r: seq<Table>)
    requires Among(env, |servers|, body, xs, end)
    ensures |r| == |servers|
  {
    if xs == [] then servers
    else
      var before, x := Run(env, servers, body, xs[..|xs| - 1], end), xs[|xs| - 1];
      before[x.to := After(env, before, body, x)]
  }

  /** The servers that news from `source` has reached: who pulls from a server it has reached is reached in turn. */
  function Reached(source: nat, xs: seq<Move>): set<nat> {
    if xs == [] then {source}
    else
      var before, x := Reached(source, xs[..|xs| - 1]), xs[|xs| - 1];
      if x.Exchange? && x.from in before then before + {x.to} else before
  }

  /** What is stored under the address, if anything, is a signed record that stays live until `end`. */
  ghost predicate Clean(env: Env, t: Table, body: Bytes, end: int) {
    body in t ==>
      var m := env.codec.decode(t[body]);
      && m.Some? && Fits(m.value)
      && env.codec.decodePayload(m.value.serializedPayload).Some?
      && Holds(env, t, body, m.value, env.codec.decodePayload(m.value.serializedPayload).value, end)
  }

  ghost predicate AllClean(env: Env, servers: seq<Table>, body: Bytes, end: int) {
    forall i :: 0 <= i < |servers| ==> Clean(env, servers[i], body, end)
  }

  /** One exchange between clean servers: the puller ends with its own record or the other's, whichever is newer. */
  lemma ExchangeTakesNewer(env: Env, a: Table, b: Table, body: Bytes, asked: int, item: PollItem, end: int)
    requires Lawful(env.codec) && Clean(env, a, body, end) && Clean(env, b, body, end)
    requires PollsHonestly(env, a, body, asked, item, end)
    ensures var b' := PollTable(env, b, item);
            && Clean(env, b', body, end)
            && (body !in a ==> b' == b)
            && (body in a && body !in b ==> b' == b[body := a[body]])
            && (body in a && body in b ==>
                  b' == if StoredTimestamp(env.codec, a, body) < StoredTimestamp(env.codec, b, body)
                        then b else b[body := a[body]])
  {
    var c := env.codec;
    if body in a {
      var ma := c.decode(a[body]).value;
      var pa := c.decodePayload(ma.serializedPayload).value;
      ValidIffSigned(env.sig, body, ma);
      assert Look(c, a, body, asked) == Live(ma, pa);
      if body in b {
        var mb := c.decode(b[body]).value;
        PullTakesNewer(env, a, b, body, ma, pa, mb, c.decodePayload(mb.serializedPayload).value, asked, item, end);
      }
    }
  }

  /** Whatever else a clean server does, it stays clean, and its timestamp does not fall. */
  lemma LocalKeepsClean(env: Env, t: Table, body: Bytes, x: Move, end: int)
    requires Lawful(env.codec) && Clean(env, t, body, end)
    requires x.Local? && FirstReading(x.event) <= end && LastReading(x.event) <= end
    requires Brought(env, body, x).Some? ==> !Expired(Brought(env, body, x).value.payload, end)
    ensures var c, t', cand := env.codec, Apply(env, t, x.event), Brought(env, body, x);
            && Clean(env, t', body, end)
            && (body in t ==> body in t' && StoredTimestamp(c, t, body) <= StoredTimestamp(c, t', body))
            && (body in t' ==>
                  || (body in t && t'[body] == t[body])
                  || (cand.Some? && t'[body] == c.encode(cand.value.metadata)))
  {
    var c, cand := env.codec, Offered(env, x.event);
    if body in t {
      StepIsMonotone(env, t, x.event, body);
    }
    if cand.Some? {
      ApplyOffers(env, t, x.event);
      OfferedIsScreened(env, x.event);
      ValidIffSigned(env.sig, cand.value.body, cand.value.metadata);
      assert c.decode(c.encode(cand.value.metadata)) == Some(cand.value.metadata);
    }
  }

  ghost predicate CleanAmong(env: Env, servers: seq<Table>, body: Bytes, xs: seq<Move>, end: int) {
    Lawful(env.codec) && Among(env, |servers|, body, xs, end) && AllClean(env, servers, body, end)
  }

  /** Each move leaves the mover clean, keeps or raises its timestamp, and gives it nothing from nowhere. */
  lemma OneMove(env: Env, servers: seq<Table>, body: Bytes, x: Move, end: int)
    requires Lawful(env.codec) && Within(env, |servers|, body, x, end) && AllClean(env, servers, body, end)
    ensures var c, b, b' := env.codec, servers[x.to], After(env, servers, body, x);
            && Clean(env, b', body, end)
            && (body in b ==> body in b' && StoredTimestamp(c, b, body) <= StoredTimestamp(c, b', body))
            && (x.Exchange? && body in servers[x.from] ==>
                  body in b' && StoredTimestamp(c, servers[x.from], body) <= StoredTimestamp(c, b', body))
            && (body in b' ==>
                  || (body in b && b'[body] == b[body])
                  || (x.Exchange? && body in servers[x.from] && b'[body] == servers[x.from][body])
                  || (Brought(env, body, x).Some? && b'[body] == c.encode(Brought(env, body, x).value.metadata)))
  {
    if x.Exchange? {
      ExchangeTakesNewer(env, servers[x.from], servers[x.to], body, x.asked, Item(env, servers, body, x), end);
    } else {
      LocalKeepsClean(env, servers[x.to], body, x, end);
    }
  }

  lemma {:induction false} RunStaysClean(env: Env, servers: seq<Table>, body: Bytes, xs: seq<Move>, end: int)
    requires CleanAmong(env, servers, body, xs, end)
    ensures AllClean(env, Run(env, servers, body, xs, end), body, end)
    decreases |xs|
  {
    if xs != [] {
      RunStaysClean(env, servers, body, xs[..|xs| - 1], end);
      OneMove(env, Run(env, servers, body, xs[..|xs| - 1], end), body, xs[|xs| - 1], end);
    }
  }

  /** The bytes were held in the beginning, or brought in by a client or from outside. */
  predicate Known(env: Env, servers: seq<Table>, body: Bytes, xs: seq<Move>, raw: Bytes) {
    || (exists k :: 0 <= k < |servers| && body in servers[k] && servers[k][body] == raw)
    || (exists n :: 0 <= n < |xs| && Brought(env, body, xs[n]).Some?
                    && raw == env.codec.encode(Brought(env, body, xs[n]).value.metadata))
  }

  lemma KnownSooner(env: Env, servers: seq<Table>, body: Bytes, xs: seq<Move>, raw: Bytes)
    requires xs != [] && Known(env, servers, body, xs[..|xs| - 1], raw)
    ensures Known(env, servers, body, xs, raw)
  {
    var init := xs[..|xs| - 1];
    if n :| 0 <= n < |init| && Brought(env, body, init[n]).Some?
            && raw == env.codec.encode(Brought(env, body, init[n]).value.metadata) {
      assert xs[n] == init[n];
    }
  }

  /** Nothing is invented: whatever a server holds in the end was held by some server before or offered to one. */
  lemma {:induction false} NothingIsInvented(
    env: Env, servers: seq<Table>, body: Bytes, xs: seq<Move>, end: int, i: nat)
    requires CleanAmong(env, servers, body, xs, end)
    requires i < |servers| && body in Run(env, servers, body, xs, end)[i]
    ensures Known(env, servers, body, xs, Run(env, servers, body, xs, end)[i][body])
    decreases |xs|
  {
    if xs != [] {
      var init, x := xs[..|xs| - 1], xs[|xs| - 1];
      var before := Run(env, servers, body, init, end);
      RunStaysClean(env, servers, body, init, end);
      OneMove(env, before, body, x, end);
      var raw := Run(env, servers, body, xs, end)[i][body];
      if body in before[i] && before[i][body] == raw {
        NothingIsInvented(env, servers, body, init, end, i);
        KnownSooner(env, servers, body, xs, raw);
      } else if x.Exchange? && body in before[x.from] && before[x.from][body] == raw {
        NothingIsInvented(env, servers, body, init, end, x.from);
        KnownSooner(env, servers, body, xs, raw);
      }
    }
  }

  /** A record spreads: every server that news from its holder has reached holds one at least as new. */
  lemma {:induction false} NewsSpreads(
    env: Env, servers: seq<Table>, body: Bytes, xs: seq<Move>, end: int, source: nat, i: nat)
    requires CleanAmong(env, servers, body, xs, end)
    requires source < |servers| && body in servers[source] && i in Reached(source, xs)
    ensures var after := Run(env, servers, body, xs, end);
            && i < |servers| && body in after[i] && Clean(env, after[i], body, end)
            && StoredTimestamp(env.codec, servers[source], body) <= StoredTimestamp(env.codec, after[i], body)
    decreases |xs|
  {
    RunStaysClean(env, servers, body, xs, end);
    if xs != [] {
      var init, x := xs[..|xs| - 1], xs[|xs| - 1];
      var before := Run(env, servers, body, init, end);
      RunStaysClean(env, servers, body, init, end);
      OneMove(env, before, body, x, end);
      if x.Exchange? && x.from in Reached(source, init) {
        NewsSpreads(env, servers, body, init, end, source, x.from);
      }
      if i in Reached(source, init) {
        NewsSpreads(env, servers, body, init, end, source, i);
      }
    }
  }

  /** A timestamp that no record held in the beginning or brought in later exceeds. */
  ghost predicate Newest(env: Env, servers: seq<Table>, body: Bytes, xs: seq<Move>, end: int, m: AddressMetadata) {
    && (forall k :: 0 <= k < |servers| && body in servers[k] ==>
          Clean(env, servers[k], body, end) &&
          StoredTimestamp(env.codec, servers[k], body) <= TimestampOf(env.codec, m))
    && (forall n :: 0 <= n < |xs| && Brought(env, body, xs[n]).Some? ==>
          Brought(env, body, xs[n]).value.payload.timestamp <= TimestampOf(env.codec, m))
  }

  /** No other record held in the beginning or brought in later bears the timestamp. */
  ghost predicate Unrivalled(env: Env, servers: seq<Table>, body: Bytes, xs: seq<Move>, end: int, m: AddressMetadata)
    requires Newest(env, servers, body, xs, end, m)
  {
    && (forall k :: 0 <= k < |servers| && body in servers[k]
                    && StoredTimestamp(env.codec, servers[k], body) == TimestampOf(env.codec, m)
                    ==> servers[k][body] == env.codec.encode(m))
    && (forall n :: 0 <= n < |xs| && Brought(env, body, xs[n]).Some?
                    && Brought(env, body, xs[n]).value.payload.timestamp == TimestampOf(env.codec, m)
                    ==> Brought(env, body, xs[n]).value.metadata == m)
  }

  lemma KnownIsNoNewer(
    env: Env, servers: seq<Table>, body: Bytes, xs: seq<Move>, end: int, m: AddressMetadata, raw: Bytes)
    requires Lawful(env.codec) && Known(env, servers, body, xs, raw) && Newest(env, servers, body, xs, end, m)
    ensures var stored := env.codec.decode(raw);
            && stored.Some? && TimestampOf(env.codec, stored.value) <= TimestampOf(env.codec, m)
            && (TimestampOf(env.codec, stored.value) == TimestampOf(env.codec, m)
                && Unrivalled(env, servers, body, xs, end, m)
                ==> raw == env.codec.encode(m))
  {
    if k :| 0 <= k < |servers| && body in servers[k] && servers[k][body] == raw {
      assert StoredTimestamp(env.codec, servers[k], body) <= TimestampOf(env.codec, m);
    } else {
      var n :| 0 <= n < |xs| && Brought(env, body, xs[n]).Some?
               && raw == env.codec.encode(Brought(env, body, xs[n]).value.metadata);
      OfferedIsScreened(env, xs[n].event);
      var cand := Brought(env, body, xs[n]).value;
      assert env.codec.decode(env.codec.encode(cand.metadata)) == Some(cand.metadata);
    }
  }

  /**
   Dissemination: when one server holds the newest record of all, every server its news has reached, by pulls in any
   order among any other pulls, writes and reads, holds a record with that timestamp; and that very record, when no
   other shares it.
   */
  lemma NewestPrevails(
    env: Env, servers: seq<Table>, body: Bytes, xs: seq<Move>, end: int, source: nat, i: nat)
    requires CleanAmong(env, servers, body, xs, end)
    requires source < |servers| && body in servers[source] && i in Reached(source, xs)
    requires Clean(env, servers[source], body, end)
    requires Newest(env, servers, body, xs, end, env.codec.decode(servers[source][body]).value)
    ensures var after := Run(env, servers, body, xs, end);
            && i < |servers| && body in after[i] && Clean(env, after[i], body, end)
            && StoredTimestamp(env.codec, after[i], body) == StoredTimestamp(env.codec, servers[source], body)
            && (Unrivalled(env, servers, body, xs, end, env.codec.decode(servers[source][body]).value)
                ==> after[i][body] == servers[source][body])
  {
    NewsSpreads(env, servers, body, xs, end, source, i);
    NothingIsInvented(env, servers, body, xs, end, i);
    var m := env.codec.decode(servers[source][body]).value;
    KnownIsNoNewer(env, servers, body, xs, end, m, Run(env, servers, body, xs, end)[i][body]);
  }

  /** The stores that runs of a cluster reach are such stores, as long as their records stay live. */
  lemma ReachableStoresAreClean(env: Env, clock: int, acts: seq<Cluster.Action>, server: nat, body: Bytes, end: int)
    requires Lawful(env.codec)
    requires var t := Cluster.Store(Cluster.Run(env, clock, acts), server);
             body in t ==> Look(env.codec, t, body, end).Live?
    ensures Clean(env, Cluster.Store(Cluster.Run(env, clock, acts), server), body, end)
  {
    if body in Cluster.Store(Cluster.Run(env, clock, acts), server) {
      Cluster.StoredRecordsAreSigned(env, clock, acts, server, body);
    }
  }
}
