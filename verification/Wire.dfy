/** The Protocol Buffers wire format: base 128 varints and the record structure of a message. */
module Wire {
  import opened Prelude

  // ---- Base 128 varints ----

  function PrintVarint(n: nat): (s: Bytes)
    ensures |s| > 0
  {
    if n < 128 then [n] else [128 + n % 128] + PrintVarint(n / 128)
  }

  /** Seven-bit groups, least significant first, at most `budget` of them. */
  function ParseGroups(s: Bytes, budget: nat): (r: Option<(nat, Bytes)>)
    ensures r.Some? ==> |r.value.1| < |s|
  {
    if budget == 0 || s == [] then None
    else if s[0] < 128 then Some((s[0], s[1..]))
    else match ParseGroups(s[1..], budget - 1)
      case None => None
      case Some((high, rest)) => Some((s[0] - 128 + 128 * high, rest))
  }

  /** A varint is at most ten groups, read into 64 bits. */
  function ParseVarint(s: Bytes): (r: Option<(u64, Bytes)>)
    ensures r.Some? ==> |r.value.1| < |s|
  {
    match ParseGroups(s, 10)
    case None => None
    case Some((v, rest)) => Some((v % U64_LIMIT, rest))
  }

  function Pow128(e: nat): (p: nat)
    ensures p > 0
  {
    if e == 0 then 1 else 128 * Pow128(e - 1)
  }

  lemma {:induction false} GroupsRoundTrip(n: nat, tail: Bytes, budget: nat)
    requires 0 < budget && n < Pow128(budget)
    ensures ParseGroups(PrintVarint(n) + tail, budget) == Some((n, tail))
  {
    var s := PrintVarint(n) + tail;
    if n < 128 {
      assert s[0] == n && s[1..] == tail;
    } else {
      assert s[0] == 128 + n % 128 && s[1..] == PrintVarint(n / 128) + tail;
      GroupsRoundTrip(n / 128, tail, budget - 1);
    }
  }

  lemma VarintRoundTrip(n: u64, tail: Bytes)
    ensures ParseVarint(PrintVarint(n) + tail) == Some((n, tail))
  {
    assert n < Pow128(10);
    GroupsRoundTrip(n, tail, 10);
  }

  type u7 = x: int | 0 <= x < 128

  function GroupsValue(gs: seq<u7>): nat {
    if gs == [] then 0 else gs[0] + 128 * GroupsValue(gs[1..])
  }

  /** Every byte but the last has its high bit set. */
  function PrintGroups(gs: seq<u7>): Bytes
    requires gs != []
  {
    var low: int := gs[0];
    if |gs| == 1 then [low] else [128 + low] + PrintGroups(gs[1..])
  }

  lemma {:induction false} GroupsAreRead(gs: seq<u7>, tail: Bytes, budget: nat)
    requires 0 < |gs| <= budget
    ensures ParseGroups(PrintGroups(gs) + tail, budget) == Some((GroupsValue(gs), tail))
  {
    var s := PrintGroups(gs) + tail;
    assert GroupsValue([]) == 0;
    if |gs| == 1 {
      assert s[1..] == tail && gs[1..] == [];
    } else {
      assert s[1..] == PrintGroups(gs[1..]) + tail;
      GroupsAreRead(gs[1..], tail, budget - 1);
    }
  }

  /** Any one to ten groups are read, padded with zero groups or not; only the low 64 bits count. */
  lemma VarintIsRead(gs: seq<u7>, tail: Bytes)
    requires 1 <= |gs| <= 10
    ensures ParseVarint(PrintGroups(gs) + tail) == Some((GroupsValue(gs) % U64_LIMIT, tail))
  {
    GroupsAreRead(gs, tail, 10);
  }

  /** Nothing else is: a varint that does not end within ten bytes, or within the input, is refused. */
  lemma {:induction false} VarintIsRefused(s: Bytes, budget: nat)
    requires forall i :: 0 <= i < |s| && i < budget ==> 128 <= s[i]
    ensures ParseGroups(s, budget).None?
    decreases budget
  {
    if budget > 0 && s != [] {
      VarintIsRefused(s[1..], budget - 1);
    }
  }

  // ---- Records ----

  datatype Field =
    | Varint(tag: nat, value: u64)
    | Fixed64(tag: nat, bytes: Bytes)
    | Delimited(tag: nat, bytes: Bytes)
    | Fixed32(tag: nat, bytes: Bytes)

  predicate ValidField(f: Field) {
    && 1 <= f.tag < 0x2000_0000
    && match f
       case Varint(_, _) => true
       case Fixed64(_, bytes) => |bytes| == 8
       case Delimited(_, bytes) => |bytes| < U64_LIMIT
       case Fixed32(_, bytes) => |bytes| == 4
  }

  function WireType(f: Field): (w: nat)
    ensures w < 8
  {
    match f
    case Varint(_, _) => 0
    case Fixed64(_, _) => 1
    case Delimited(_, _) => 2
    case Fixed32(_, _) => 5
  }

  function PrintContent(f: Field): Bytes {
    match f
    case Varint(_, value) => PrintVarint(value)
    case Fixed64(_, bytes) => bytes
    case Delimited(_, bytes) => PrintVarint(|bytes|) + bytes
    case Fixed32(_, bytes) => bytes
  }

  function PrintField(f: Field): (s: Bytes)
    ensures |s| > 0
  {
    PrintVarint(8 * f.tag + WireType(f)) + PrintContent(f)
  }

  /** The first `n` bytes and what follows them. */
  function Split(s: Bytes, n: nat): (r: Option<(Bytes, Bytes)>)
    ensures r.Some? ==> |r.value.0| == n && |r.value.1| <= |s|
  {
    if |s| < n then None else Some((s[..n], s[n..]))
  }

  function ParseContent(tag: nat, wireType: nat, s: Bytes): (r: Option<(Field, Bytes)>)
    requires 1 <= tag < 0x2000_0000
    ensures r.Some? ==> ValidField(r.value.0) && |r.value.1| <= |s|
  {
    if wireType == 0 then
      match ParseVarint(s)
      case None => None
      case Some((v, rest)) => Some((Varint(tag, v), rest))
    else if wireType == 1 then
      match Split(s, 8)
      case None => None
      case Some((b, rest)) => Some((Fixed64(tag, b), rest))
    else if wireType == 2 then
      match ParseVarint(s)
      case None => None
      case Some((n, s')) =>
        match Split(s', n)
        case None => None
        case Some((b, rest)) => Some((Delimited(tag, b), rest))
    else if wireType == 5 then
      match Split(s, 4)
      case None => None
      case Some((b, rest)) => Some((Fixed32(tag, b), rest))
    else None
  }

  function ParseField(s: Bytes): (r: Option<(Field, Bytes)>)
    ensures r.Some? ==> ValidField(r.value.0) && |r.value.1| < |s|
  {
    match ParseVarint(s)
    case None => None
    case Some((key, rest)) =>
      if key >= U32_LIMIT || key / 8 == 0 then None
      else ParseContent(key / 8, key % 8, rest)
  }

  function PrintFields(fs: seq<Field>): Bytes {
    if fs == [] then [] else PrintField(fs[0]) + PrintFields(fs[1..])
  }

  function ParseFields(s: Bytes): (r: Option<seq<Field>>)
    ensures r.Some? ==> forall f :: f in r.value ==> ValidField(f)
    decreases |s|
  {
    if s == [] then Some([])
    else match ParseField(s)
      case None => None
      case Some((f, rest)) =>
        match ParseFields(rest)
        case None => None
        case Some(fs) => Some([f] + fs)
  }

  lemma KeyRoundTrip(tag: nat, wireType: nat, content: Bytes)
    requires 1 <= tag < 0x2000_0000 && wireType < 8
    ensures ParseField(PrintVarint(8 * tag + wireType) + content) == ParseContent(tag, wireType, content)
  {
    var key := 8 * tag + wireType;
    VarintRoundTrip(key, content);
    assert key / 8 == tag && key % 8 == wireType;
  }

  lemma ContentRoundTrip(f: Field, tail: Bytes)
    requires ValidField(f)
    ensures ParseContent(f.tag, WireType(f), PrintContent(f) + tail) == Some((f, tail))
  {
    match f {
      case Varint(_, value) =>
        VarintRoundTrip(value, tail);
      case Fixed64(_, bytes) =>
        SplitPrefix(bytes, tail);
      case Delimited(_, bytes) =>
        assert PrintContent(f) + tail == PrintVarint(|bytes|) + (bytes + tail);
        VarintRoundTrip(|bytes|, bytes + tail);
        SplitPrefix(bytes, tail);
      case Fixed32(_, bytes) =>
        SplitPrefix(bytes, tail);
    }
  }

  lemma FieldRoundTrip(f: Field, tail: Bytes)
    requires ValidField(f)
    ensures ParseField(PrintField(f) + tail) == Some((f, tail))
  {
    var key := PrintVarint(8 * f.tag + WireType(f));
    assert PrintField(f) + tail == key + (PrintContent(f) + tail);
    KeyRoundTrip(f.tag, WireType(f), PrintContent(f) + tail);
    ContentRoundTrip(f, tail);
  }

  lemma SplitPrefix(a: Bytes, b: Bytes)
    ensures Split(a + b, |a|) == Some((a, b))
  {
    assert (a + b)[..|a|] == a && (a + b)[|a|..] == b;
  }

  /** The record structure survives printing, for every list of records. */
  lemma {:induction false} FieldsRoundTrip(fs: seq<Field>)
    requires forall f :: f in fs ==> ValidField(f)
    ensures ParseFields(PrintFields(fs)) == Some(fs)
  {
    if fs != [] {
      FieldRoundTrip(fs[0], PrintFields(fs[1..]));
      FieldsRoundTrip(fs[1..]);
      assert [fs[0]] + fs[1..] == fs;
    }
  }

  // ---- Merging records into a message ----

  function Merge<M>(step: (M, Field) -> Option<M>, fs: seq<Field>, message: M): Option<M> {
    if fs == [] then Some(message)
    else match step(message, fs[0])
      case None => None
      case Some(next) => Merge(step, fs[1..], next)
  }

  function Decode<M>(step: (M, Field) -> Option<M>, default: M, s: Bytes): Option<M> {
    match ParseFields(s)
    case None => None
    case Some(fs) => Merge(step, fs, default)
  }

  /** The fields of a message, one piece for each of its declared fields. */
  function Flatten(pieces: seq<seq<Field>>): seq<Field> {
    if pieces == [] then [] else pieces[0] + Flatten(pieces[1..])
  }

  lemma {:induction false} MergeConcat<M>(step: (M, Field) -> Option<M>, a: seq<Field>, b: seq<Field>, message: M)
    ensures Merge(step, a + b, message) ==
            match Merge(step, a, message)
            case None => None
            case Some(middle) => Merge(step, b, middle)
  {
    if a == [] {
      assert a + b == b;
    } else {
      assert (a + b)[1..] == a[1..] + b;
      match step(message, a[0])
      case None =>
      case Some(next) => MergeConcat(step, a[1..], b, next);
    }
  }

  /** `states` lists what the message is before and after each piece. */
  ghost predicate Builds<M>(step: (M, Field) -> Option<M>, pieces: seq<seq<Field>>, states: seq<M>) {
    && |states| == |pieces| + 1
    && forall i :: 0 <= i < |pieces| ==> Merge(step, pieces[i], states[i]) == Some(states[i + 1])
  }

  lemma {:induction false} MergePieces<M>(
    step: (M, Field) -> Option<M>, pieces: seq<seq<Field>>, states: seq<M>)
    requires Builds(step, pieces, states)
    ensures Merge(step, Flatten(pieces), states[0]) == Some(states[|pieces|])
    decreases |pieces|
  {
    if pieces != [] {
      forall i | 0 <= i < |pieces[1..]|
        ensures Merge(step, pieces[1..][i], states[1..][i]) == Some(states[1..][i + 1])
      {
        assert Merge(step, pieces[i + 1], states[i + 1]) == Some(states[i + 2]);
      }
      MergePieces(step, pieces[1..], states[1..]);
      MergeConcat(step, pieces[0], Flatten(pieces[1..]), states[0]);
    }
  }

  // ---- How a message lays out its fields ----

  /** A proto3 `bytes` or `string` field: left out when empty. */
  function BytesField(tag: nat, b: Bytes): seq<Field> {
    if b == [] then [] else [Delimited(tag, b)]
  }

  /** A proto3 integer field, already widened to 64 bits: left out when zero. */
  function IntField(tag: nat, v: u64): seq<Field> {
    if v == 0 then [] else [Varint(tag, v)]
  }

  /** A proto2 optional `bytes` or `string` field: left out when absent. */
  function OptionalBytesField(tag: nat, b: Option<Bytes>): seq<Field> {
    if b.None? then [] else [Delimited(tag, b.value)]
  }

  function OptionalIntField(tag: nat, v: Option<u64>): seq<Field> {
    if v.None? then [] else [Varint(tag, v.value)]
  }

  function RepeatedField(tag: nat, items: seq<Bytes>): (fs: seq<Field>)
    ensures |fs| == |items|
    ensures forall i :: 0 <= i < |items| ==> fs[i] == Delimited(tag, items[i])
  {
    seq(|items|, i requires 0 <= i < |items| => Delimited(tag, items[i]))
  }

  /** A signed 64-bit integer as the wire carries it, and back. */
  function FromI64(x: i64): u64 { if x < 0 then x + U64_LIMIT else x }
  function ToI64(v: u64): i64 { if v >= I64_LIMIT then v - U64_LIMIT else v }

  /** A signed 32-bit integer is sign-extended when written and truncated when read. */
  function FromI32(x: i32): u64 { if x < 0 then x + U64_LIMIT else x }
  function ToI32(v: u64): i32 {
    var low := v % U32_LIMIT;
    if low >= 0x8000_0000 then low - U32_LIMIT else low
  }

  lemma IntegersRoundTrip(x: i64, y: i32)
    ensures ToI64(FromI64(x)) == x
    ensures ToI32(FromI32(y)) == y
  {
    if y < 0 {
      assert FromI32(y) == (y + U32_LIMIT) + U32_LIMIT * (U32_LIMIT - 1);
      assert FromI32(y) % U32_LIMIT == y + U32_LIMIT;
    }
  }

  /** Truncation keeps the low 32 bits. */
  lemma TruncationIsCongruent(v: u64)
    ensures (ToI32(v) - v) % U32_LIMIT == 0
  {
    assert v == v / U32_LIMIT * U32_LIMIT + v % U32_LIMIT;
  }

  /** Records with small numbers and contents, byte by byte: the key, then the content. */
  lemma FieldsOnTheWire(tag: nat, v: u64, b: Bytes)
    requires 1 <= tag < 16 && v < 128 && |b| < 128
    ensures PrintField(Varint(tag, v)) == [8 * tag, v]
    ensures PrintField(Fixed64(tag, b)) == [8 * tag + 1] + b
    ensures PrintField(Delimited(tag, b)) == [8 * tag + 2, |b|] + b
    ensures PrintField(Fixed32(tag, b)) == [8 * tag + 5] + b
  {
    assert PrintVarint(8 * tag + 2) == [8 * tag + 2] && PrintVarint(|b|) == [|b|];
    assert [8 * tag + 2] + ([|b|] + b) == [8 * tag + 2, |b|] + b;
  }

  // ---- Messages that fit in memory ----

  /** A field that is valid except, perhaps, for the length of its content. */
  predicate Shaped(f: Field) {
    && 1 <= f.tag < 0x2000_0000
    && (f.Varint? || f.Delimited?)
  }

  lemma {:induction false} PrintedLength(fs: seq<Field>, i: nat)
    requires i < |fs| && fs[i].Delimited?
    ensures |fs[i].bytes| < |PrintFields(fs)|
  {
    if i > 0 {
      PrintedLength(fs[1..], i - 1);
    }
  }

  ghost predicate ShapedPieces(pieces: seq<seq<Field>>) {
    forall i, f :: 0 <= i < |pieces| && f in pieces[i] ==> Shaped(f)
  }

  lemma {:induction false} FlattenMembers(pieces: seq<seq<Field>>, f: Field)
    ensures f in Flatten(pieces) <==> exists i :: 0 <= i < |pieces| && f in pieces[i]
    decreases |pieces|
  {
    if pieces != [] {
      FlattenMembers(pieces[1..], f);
      assert forall i :: 0 <= i < |pieces[1..]| ==> pieces[1..][i] == pieces[i + 1];
      assert forall i :: 1 <= i < |pieces| ==> pieces[i] == pieces[1..][i - 1];
    }
  }

  /** When the pieces build a message and its encoding is addressable, the bytes decode to that message. */
  lemma MessageRoundTrip<M>(step: (M, Field) -> Option<M>, pieces: seq<seq<Field>>, states: seq<M>)
    requires Builds(step, pieces, states) && ShapedPieces(pieces)
    requires forall f :: f in Flatten(pieces) && f.Delimited? ==> |f.bytes| < U64_LIMIT
    ensures Decode(step, states[0], PrintFields(Flatten(pieces))) == Some(states[|pieces|])
  {
    forall f | f in Flatten(pieces) ensures ValidField(f) {
      FlattenMembers(pieces, f);
      var i :| 0 <= i < |pieces| && f in pieces[i];
      assert Shaped(f);
    }
    FieldsRoundTrip(Flatten(pieces));
    MergePieces(step, pieces, states);
  }

  /** Every length-delimited field is shorter than the message around it. */
  lemma PartsFit(fs: seq<Field>)
    requires |PrintFields(fs)| < U64_LIMIT
    ensures forall f :: f in fs && f.Delimited? ==> |f.bytes| < U64_LIMIT
  {
    forall f | f in fs && f.Delimited? ensures |f.bytes| < U64_LIMIT {
      var i :| 0 <= i < |fs| && fs[i] == f;
      PrintedLength(fs, i);
    }
  }

  /** The same for a message whose whole encoding is addressable. */
  lemma SmallMessageRoundTrip<M>(step: (M, Field) -> Option<M>, pieces: seq<seq<Field>>, states: seq<M>)
    requires Builds(step, pieces, states) && ShapedPieces(pieces)
    requires |PrintFields(Flatten(pieces))| < U64_LIMIT
    ensures Decode(step, states[0], PrintFields(Flatten(pieces))) == Some(states[|pieces|])
  {
    PartsFit(Flatten(pieces));
    MessageRoundTrip(step, pieces, states);
  }

  lemma ItemsFit(pieces: seq<seq<Field>>, k: nat, tag: nat, items: seq<Bytes>)
    requires k < |pieces| && pieces[k] == RepeatedField(tag, items)
    requires |PrintFields(Flatten(pieces))| < U64_LIMIT
    ensures forall i :: 0 <= i < |items| ==> |items[i]| < U64_LIMIT
  {
    PartsFit(Flatten(pieces));
    forall i | 0 <= i < |items| ensures |items[i]| < U64_LIMIT {
      assert pieces[k][i] == Delimited(tag, items[i]);
      FlattenMembers(pieces, pieces[k][i]);
    }
  }

  /** Merging a repeated field visits `states` one item at a time. */
  lemma {:induction false} MergeRepeated<M>(
    step: (M, Field) -> Option<M>, tag: nat, items: seq<Bytes>, states: seq<M>)
    requires |states| == |items| + 1
    requires forall i :: 0 <= i < |items| ==> step(states[i], Delimited(tag, items[i])) == Some(states[i + 1])
    ensures Merge(step, RepeatedField(tag, items), states[0]) == Some(states[|items|])
    decreases |items|
  {
    if items != [] {
      assert RepeatedField(tag, items)[1..] == RepeatedField(tag, items[1..]);
      forall i | 0 <= i < |items[1..]|
        ensures step(states[1..][i], Delimited(tag, items[1..][i])) == Some(states[1..][i + 1])
      {
        assert step(states[i + 1], Delimited(tag, items[i + 1])) == Some(states[i + 2]);
      }
      MergeRepeated(step, tag, items[1..], states[1..]);
    }
  }

  lemma FlattenTwo(f: Field, g: Field)
    ensures Flatten([[f], [g], []]) == [f, g]
  {
    var pieces: seq<seq<Field>> := [[f], [g], []];
    assert pieces[1..] == [[g], []] && pieces[1..][1..] == [[]] && pieces[1..][1..][1..] == [];
    assert Flatten(pieces[1..][1..]) == [] + Flatten(pieces[1..][1..][1..]);
    assert Flatten(pieces[1..]) == [g] + [];
  }

  lemma PrintTwo(f: Field, g: Field)
    ensures PrintFields([f, g]) == PrintField(f) + PrintField(g)
  {
    assert [f, g][1..] == [g] && [g][1..] == [];
    assert PrintFields([g]) == PrintField(g) + [];
  }

  /** A message of two small integers takes four bytes. */
  lemma TwoSmallIntegers(x: u64, y: u64)
    requires x < 128 && y < 128
    ensures PrintFields(Flatten([[Varint(1, x)], [Varint(2, y)], []])) == [8, x, 16, y]
  {
    FlattenTwo(Varint(1, x), Varint(2, y));
    PrintTwo(Varint(1, x), Varint(2, y));
    FieldsOnTheWire(1, x, []);
    FieldsOnTheWire(2, y, []);
  }
}
