/** What `std::str::from_utf8` accepts (section 4 of RFC 3629), and the type of the strings it yields. */
module Utf8 {
  import opened Prelude

  predicate Continuation(b: u8) {
    0x80 <= b <= 0xBF
  }

  /** The length of the well-formed scalar value at the front of `s`, or 0 when there is none. */
  function FirstScalar(s: Bytes): (n: nat)
    requires s != []
    ensures n <= 4 && n <= |s|
  {
    if s[0] < 0x80 then 1
    else if 0xC2 <= s[0] <= 0xDF then
      if |s| >= 2 && Continuation(s[1]) then 2 else 0
    else if 0xE0 <= s[0] <= 0xEF then
      if && |s| >= 3
         && Continuation(s[1])
         && (s[0] == 0xE0 ==> 0xA0 <= s[1])
         && (s[0] == 0xED ==> s[1] <= 0x9F)
         && Continuation(s[2])
      then 3 else 0
    else if 0xF0 <= s[0] <= 0xF4 then
      if && |s| >= 4
         && Continuation(s[1])
         && (s[0] == 0xF0 ==> 0x90 <= s[1])
         && (s[0] == 0xF4 ==> s[1] <= 0x8F)
         && Continuation(s[2])
         && Continuation(s[3])
      then 4 else 0
    else 0
  }

  predicate ValidUtf8(s: Bytes)
    decreases |s|
  {
    s == [] || (FirstScalar(s) > 0 && ValidUtf8(s[FirstScalar(s)..]))
  }

  type Str = s: Bytes | ValidUtf8(s) witness []

  /** Joining two strings gives a string. */
  lemma {:induction false} ConcatIsUtf8(a: Bytes, b: Bytes)
    requires ValidUtf8(a) && ValidUtf8(b)
    ensures ValidUtf8(a + b)
    decreases |a|
  {
    if a == [] {
      assert a + b == b;
    } else {
      var n := FirstScalar(a);
      assert FirstScalar(a + b) == n;
      assert (a + b)[n..] == a[n..] + b;
      ConcatIsUtf8(a[n..], b);
    }
  }

  lemma {:induction false} AsciiIsUtf8(s: Bytes)
    requires forall i :: 0 <= i < |s| ==> s[i] < 128
    ensures ValidUtf8(s)
    decreases |s|
  {
    if s != [] {
      AsciiIsUtf8(s[1..]);
    }
  }

  // ---- The well-formed byte strings are those that spell Unicode scalar values ----

  type Scalar = x: int | 0 <= x <= 0xD7FF || 0xE000 <= x <= 0x10FFFF

  /** Section 3 of RFC 3629: the value's bits, six to a continuation byte, in the fewest bytes that hold them. */
  function EncodeScalar(x: Scalar): (b: Bytes)
    ensures |b| > 0
  {
    if x < 0x80 then [x]
    else if x < 0x800 then [0xC0 + x / 64, 0x80 + x % 64]
    else if x < 0x1_0000 then [0xE0 + x / 4096, 0x80 + x / 64 % 64, 0x80 + x % 64]
    else [0xF0 + x / 262144, 0x80 + x / 4096 % 64, 0x80 + x / 64 % 64, 0x80 + x % 64]
  }

  function EncodeText(text: seq<Scalar>): Bytes {
    if text == [] then [] else EncodeScalar(text[0]) + EncodeText(text[1..])
  }

  lemma ScalarIsRead(x: Scalar, rest: Bytes)
    ensures FirstScalar(EncodeScalar(x) + rest) == |EncodeScalar(x)|
  {
    var s := EncodeScalar(x) + rest;
    if 0x80 <= x < 0x800 {
      assert s[0] == 0xC0 + x / 64 && s[1] == 0x80 + x % 64;
    } else if 0x800 <= x < 0x1_0000 {
      assert s[0] == 0xE0 + x / 4096 && s[1] == 0x80 + x / 64 % 64 && s[2] == 0x80 + x % 64;
    } else if 0x1_0000 <= x {
      assert s[0] == 0xF0 + x / 262144 && s[1] == 0x80 + x / 4096 % 64;
      assert s[2] == 0x80 + x / 64 % 64 && s[3] == 0x80 + x % 64;
    }
  }

  /** The value four groups of bits make up, and the groups of a value. */
  function Value(a: nat, b: nat, c: nat, d: nat): nat { ((a * 64 + b) * 64 + c) * 64 + d }

  lemma GroupsOfValue(a: nat, b: nat, c: nat, d: nat)
    requires b < 64 && c < 64 && d < 64
    ensures var x := Value(a, b, c, d);
            x % 64 == d && x / 64 % 64 == c && x / 4096 % 64 == b && x / 262144 == a && x / 64 == (a * 64 + b) * 64 + c
            && x / 4096 == a * 64 + b
  {
    var x := Value(a, b, c, d);
    assert x / 64 == (a * 64 + b) * 64 + c;
    assert x / 4096 == x / 64 / 64 && x / 262144 == x / 64 / 64 / 64;
  }

  function ReadScalar(s: Bytes): Scalar
    requires s != [] && FirstScalar(s) > 0
  {
    match FirstScalar(s)
    case 1 => s[0]
    case 2 => Value(0, 0, s[0] - 0xC0, s[1] - 0x80)
    case 3 => Value(0, s[0] - 0xE0, s[1] - 0x80, s[2] - 0x80)
    case _ => Value(s[0] - 0xF0, s[1] - 0x80, s[2] - 0x80, s[3] - 0x80)
  }

  lemma ReadIsScalar(s: Bytes)
    requires s != [] && FirstScalar(s) > 0
    ensures s[..FirstScalar(s)] == EncodeScalar(ReadScalar(s))
  {
    match FirstScalar(s) {
      case 1 =>
      case 2 => GroupsOfValue(0, 0, s[0] - 0xC0, s[1] - 0x80);
      case 3 => GroupsOfValue(0, s[0] - 0xE0, s[1] - 0x80, s[2] - 0x80);
      case _ => GroupsOfValue(s[0] - 0xF0, s[1] - 0x80, s[2] - 0x80, s[3] - 0x80);
    }
  }

  lemma {:induction false} TextIsValid(text: seq<Scalar>)
    ensures ValidUtf8(EncodeText(text))
  {
    if text != [] {
      TextIsValid(text[1..]);
      ScalarIsRead(text[0], EncodeText(text[1..]));
      assert EncodeText(text)[|EncodeScalar(text[0])|..] == EncodeText(text[1..]);
    }
  }

  lemma {:induction false} ValidIsText(s: Bytes) returns (text: seq<Scalar>)
    requires ValidUtf8(s)
    ensures EncodeText(text) == s
    decreases |s|
  {
    if s == [] {
      text := [];
    } else {
      var n := FirstScalar(s);
      ReadIsScalar(s);
      var rest := ValidIsText(s[n..]);
      text := [ReadScalar(s)] + rest;
      assert text[1..] == rest && s == s[..n] + s[n..];
    }
  }

  /** A byte string is accepted just when it spells some sequence of Unicode scalar values. */
  lemma Utf8Iff(s: Bytes)
    ensures ValidUtf8(s) <==> exists text :: EncodeText(text) == s
  {
    if ValidUtf8(s) {
      var text := ValidIsText(s);
    }
    forall text | EncodeText(text) == s ensures ValidUtf8(s) {
      TextIsValid(text);
    }
  }
}
