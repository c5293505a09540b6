/** The store that deletes answers every question as a map that never deletes and hides what has expired. */
module TtlRefinement {
  import opened Prelude
  import opened Messages
  import opened Codecs
  import opened Authentication
  import opened KeyDb

  datatype Op =
    | Put(body: Bytes, metadata: Metadata)
    | Get(body: Bytes, now: int)
    | Check(body: Bytes, payload: Payload, t0: int, t1: int)
    | Compact(visited: set<Bytes>, now: int)

  datatype Answer =
    | GetIs(got: Db<Option<AddressMetadata>>)
    | CheckIs(verdict: Db<Result<(), ValidationError>>)
    | NoAnswer

  /** The clock never runs backwards along `ops`, starting from `now`. */
  predicate Ordered(ops: seq<Op>, now: int) {
    ops == [] ||
    match ops[0]
    case Put(_, _) => Ordered(ops[1..], now)
    case Get(_, t) => now <= t && Ordered(ops[1..], t)
    case Check(_, _, t0, t1) => now <= t0 <= t1 && Ordered(ops[1..], t1)
    case Compact(_, t) => now <= t && Ordered(ops[1..], t)
  }

  // ---- The store ----

  function Step(c: Codec, t: Table, op: Op): (Table, Answer) {
    match op
    case Put(body, metadata) => (t[body := c.encode(metadata)], NoAnswer)
    case Get(body, now) => (AfterGet(c, t, body, now), GetIs(GetAnswer(c, t, body, now)))
    case Check(body, p, t0, t1) => (AfterGet(c, t, body, t0), CheckIs(CheckAnswer(c, t, body, p, t0, t1)))
    case Compact(visited, now) => (Compacted(c, t, visited, now), NoAnswer)
  }

  function Answers(c: Codec, t: Table, ops: seq<Op>): seq<Answer>
    decreases |ops|
  {
    if ops == [] then []
    else
      var (t', a) := Step(c, t, ops[0]);
      [a] + Answers(c, t', ops[1..])
  }

  // ---- The plain map ----

  type Plain = map<Bytes, Metadata>

  /** The last record put, together with its payload, unless it is past its deadline. */
  function PlainLook(c: Codec, m: Plain, body: Bytes, now: int): Db<Option<(AddressMetadata, Payload)>> {
    if body !in m then Done(None)
    else
      match c.decodePayload(m[body].serializedPayload)
      case None => Panicked
      case Some(p) => if Expired(p, now) then Done(None) else Done(Some((m[body], p)))
  }

  function PlainStep(c: Codec, m: Plain, op: Op): (Plain, Answer) {
    match op
    case Put(body, metadata) => (m[body := metadata], NoAnswer)
    case Get(body, now) =>
      (m, GetIs(match PlainLook(c, m, body, now)
                case Done(None) => Done(None)
                case Done(Some((metadata, _))) => Done(Some(metadata))
                case _ => Panicked))
    case Check(body, p, t0, t1) =>
      (m, CheckIs(match PlainLook(c, m, body, t0)
                  case Done(None) => Done(Ok(()))
                  case Done(Some((_, stored))) =>
                    if p.timestamp < stored.timestamp then Done(Err(Outdated))
                    else if Expired(p, t1) then Done(Err(ExpiredTTL))
                    else Done(Ok(()))
                  case _ => Panicked))
    case Compact(_, _) => (m, NoAnswer)
  }

  function PlainAnswers(c: Codec, m: Plain, ops: seq<Op>): seq<Answer>
    decreases |ops|
  {
    if ops == [] then []
    else
      var (m', a) := PlainStep(c, m, ops[0]);
      [a] + PlainAnswers(c, m', ops[1..])
  }

  // ---- The refinement ----

  predicate Hidden(c: Codec, metadata: AddressMetadata, now: int) {
    var p := c.decodePayload(metadata.serializedPayload);
    p.Some? && Expired(p.value, now)
  }

  /** The store holds the encoding of what the plain map holds, and misses only what is hidden. */
  ghost predicate Refines(c: Codec, t: Table, m: Plain, now: int) {
    && (forall k :: k in t ==> k in m && t[k] == c.encode(m[k]))
    && (forall k :: k in m && k !in t ==> Hidden(c, m[k], now))
  }

  function ClockAfter(op: Op, now: int): int {
    match op
    case Put(_, _) => now
    case Get(_, t) => t
    case Check(_, _, _, t1) => t1
    case Compact(_, t) => t
  }

  lemma LookAgrees(c: Codec, t: Table, m: Plain, body: Bytes, then_: int, now: int)
    requires Lawful(c) && Refines(c, t, m, then_) && then_ <= now
    ensures PlainLook(c, m, body, now) ==
            match Look(c, t, body, now)
            case Absent => Done(None)
            case Unreadable => Panicked
            case Stale => Done(None)
            case Live(metadata, p) => Done(Some((metadata, p)))
  {
    if body in t {
      assert c.decode(c.encode(m[body])) == Some(m[body]);
    }
  }

  lemma StepRefines(c: Codec, t: Table, m: Plain, op: Op, now: int)
    requires Lawful(c) && Refines(c, t, m, now) && Ordered([op], now)
    ensures Step(c, t, op).1 == PlainStep(c, m, op).1
    ensures Refines(c, Step(c, t, op).0, PlainStep(c, m, op).0, ClockAfter(op, now))
  {
    match op {
      case Put(_, _) =>
      case Get(body, t0) => LookAgrees(c, t, m, body, now, t0);
      case Check(body, _, t0, _) => LookAgrees(c, t, m, body, now, t0);
      case Compact(visited, t0) =>
        forall k | k in m && k !in Step(c, t, op).0 ensures Hidden(c, m[k], t0) {
          if k in t {
            assert c.decode(c.encode(m[k])) == Some(m[k]);
          }
        }
    }
  }

  /** Deleting lazily, or during compaction, is invisible along every run. */
  lemma {:induction false} AnswersRefine(c: Codec, t: Table, m: Plain, ops: seq<Op>, now: int)
    requires Lawful(c) && Refines(c, t, m, now) && Ordered(ops, now)
    ensures Answers(c, t, ops) == PlainAnswers(c, m, ops)
    decreases |ops|
  {
    if ops != [] {
      StepRefines(c, t, m, ops[0], now);
      AnswersRefine(c, Step(c, t, ops[0]).0, PlainStep(c, m, ops[0]).0, ops[1..], ClockAfter(ops[0], now));
    }
  }

  lemma StoreRefinesPlainMap(c: Codec, ops: seq<Op>, now: int)
    requires Lawful(c) && Ordered(ops, now)
    ensures Answers(c, map[], ops) == PlainAnswers(c, map[], ops)
  {
    AnswersRefine(c, map[], map[], ops, now);
  }
}
