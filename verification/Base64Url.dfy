/** The URL-safe alphabet, written without padding and read with or without (sections 3.2 and 5 of RFC 4648). */
module Base64Url {
  import opened Prelude

  type u6 = x: int | 0 <= x < 64

  /** Table 2 of RFC 4648. */
  function Symbol(v: u6): (c: u8) {
    if v < 26 then 65 + v
    else if v < 52 then 97 + (v - 26)
    else if v < 62 then 48 + (v - 52)
    else if v == 62 then 45
    else 95
  }

  function Value(c: u8): Option<u6> {
    if 65 <= c <= 90 then Some(c - 65)
    else if 97 <= c <= 122 then Some(c - 97 + 26)
    else if 48 <= c <= 57 then Some(c - 48 + 52)
    else if c == 45 then Some(62)
    else if c == 95 then Some(63)
    else None
  }

  function Encode(b: Bytes): Bytes {
    if |b| == 0 then []
    else if |b| == 1 then [Symbol(b[0] / 4), Symbol(b[0] % 4 * 16)]
    else if |b| == 2 then [Symbol(b[0] / 4), Symbol(b[0] % 4 * 16 + b[1] / 16), Symbol(b[1] % 16 * 4)]
    else
      [Symbol(b[0] / 4), Symbol(b[0] % 4 * 16 + b[1] / 16), Symbol(b[1] % 16 * 4 + b[2] / 64), Symbol(b[2] % 64)]
      + Encode(b[3..])
  }

  /** The symbols' values, or nothing when a character is outside the alphabet. */
  function Values(s: Bytes): (r: Option<seq<u6>>)
    ensures r.Some? ==> |r.value| == |s|
  {
    if s == [] then Some([])
    else match Value(s[0])
      case None => None
      case Some(v) =>
        match Values(s[1..])
        case None => None
        case Some(vs) => Some([v] + vs)
  }

  /** The bytes that the bits of neighbouring sextets make up. */
  function HighByte(a: u6, b: u6): u8 { a * 4 + b / 16 }
  function MiddleByte(b: u6, c: u6): u8 { b % 16 * 16 + c / 4 }
  function LowByte(c: u6, d: u6): u8 { c % 4 * 64 + d }

  /** A lone last symbol and non-zero trailing bits are refused. */
  function Regroup(v: seq<u6>): Option<Bytes> {
    if |v| == 0 then Some([])
    else if |v| == 1 then None
    else if |v| == 2 then
      if v[1] % 16 != 0 then None else Some([HighByte(v[0], v[1])])
    else if |v| == 3 then
      if v[2] % 4 != 0 then None else Some([HighByte(v[0], v[1]), MiddleByte(v[1], v[2])])
    else match Regroup(v[4..])
      case None => None
      case Some(rest) => Some([HighByte(v[0], v[1]), MiddleByte(v[1], v[2]), LowByte(v[2], v[3])] + rest)
  }

  function DecodeSymbols(s: Bytes): Option<Bytes> {
    match Values(s)
    case None => None
    case Some(vs) => Regroup(vs)
  }

  const PAD: u8 := 61

  function Padding(n: nat): Bytes { seq(n, _ => PAD) }

  /** How many padding characters fill up the last group of that many symbols. */
  function Room(symbols: nat): nat { (4 - symbols % 4) % 4 }

  function Unpadded(s: Bytes): (r: Bytes)
    ensures |r| <= |s| && s == r + Padding(|s| - |r|)
    ensures r != [] ==> r[|r| - 1] != PAD
  {
    if s != [] && s[|s| - 1] == PAD then
      var r := Unpadded(s[..|s| - 1]);
      assert s == s[..|s| - 1] + [PAD] && Padding(|s| - |r|) == Padding(|s| - 1 - |r|) + [PAD];
      r
    else s
  }

  /** Padding is optional; what there is must fit in the last group. */
  function Decode(s: Bytes): Option<Bytes> {
    var symbols := Unpadded(s);
    if |s| - |symbols| > Room(|symbols|) then None else DecodeSymbols(symbols)
  }

  /** The values `Encode` writes down. */
  function Sextets(b: Bytes): seq<u6> {
    if |b| == 0 then []
    else if |b| == 1 then [b[0] / 4, b[0] % 4 * 16]
    else if |b| == 2 then [b[0] / 4, b[0] % 4 * 16 + b[1] / 16, b[1] % 16 * 4]
    else [b[0] / 4, b[0] % 4 * 16 + b[1] / 16, b[1] % 16 * 4 + b[2] / 64, b[2] % 64] + Sextets(b[3..])
  }

  function Symbols(vs: seq<u6>): (s: Bytes)
    ensures |s| == |vs|
  {
    seq(|vs|, i requires 0 <= i < |vs| => Symbol(vs[i]))
  }

  lemma {:induction false} EncodeIsSymbols(b: Bytes)
    ensures Encode(b) == Symbols(Sextets(b))
  {
    if |b| > 2 {
      EncodeIsSymbols(b[3..]);
    }
  }

  lemma {:induction false} ValuesOfSymbols(vs: seq<u6>)
    ensures Values(Symbols(vs)) == Some(vs)
  {
    if vs != [] {
      assert Symbols(vs)[1..] == Symbols(vs[1..]);
      ValuesOfSymbols(vs[1..]);
      assert Value(Symbol(vs[0])) == Some(vs[0]);
      assert [vs[0]] + vs[1..] == vs;
    }
  }

  lemma SplitBytes(x: u8, y: u8, z: u8)
    ensures HighByte(x / 4, x % 4 * 16 + y / 16) == x
    ensures MiddleByte(x % 4 * 16 + y / 16, y % 16 * 4 + z / 64) == y
    ensures LowByte(y % 16 * 4 + z / 64, z % 64) == z
  {
    assert (x % 4 * 16 + y / 16) / 16 == x % 4 && (x % 4 * 16 + y / 16) % 16 == y / 16;
    assert (y % 16 * 4 + z / 64) / 4 == y % 16 && (y % 16 * 4 + z / 64) % 4 == z / 64;
  }

  lemma RegroupOne(x: u8)
    ensures Regroup(Sextets([x])) == Some([x])
  {
    var v: seq<u6> := [x / 4, x % 4 * 16];
    assert Sextets([x]) == v;
    SplitBytes(x, 0, 0);
    assert v[1] % 16 == 0;
  }

  lemma RegroupTwo(x: u8, y: u8)
    ensures Regroup(Sextets([x, y])) == Some([x, y])
  {
    var v: seq<u6> := [x / 4, x % 4 * 16 + y / 16, y % 16 * 4];
    assert Sextets([x, y]) == v;
    SplitBytes(x, y, 0);
    assert v[2] % 4 == 0;
  }

  lemma RegroupTail(b: Bytes)
    requires |b| < 3
    ensures Regroup(Sextets(b)) == Some(b)
  {
    if |b| == 1 {
      assert b == [b[0]];
      RegroupOne(b[0]);
    } else if |b| == 2 {
      assert b == [b[0], b[1]];
      RegroupTwo(b[0], b[1]);
    }
  }

  lemma {:induction false} RegroupSextets(b: Bytes)
    ensures Regroup(Sextets(b)) == Some(b)
  {
    if |b| < 3 {
      RegroupTail(b);
    } else {
      SplitBytes(b[0], b[1], b[2]);
      RegroupSextets(b[3..]);
      assert Sextets(b)[4..] == Sextets(b[3..]);
      assert b == [b[0], b[1], b[2]] + b[3..];
    }
  }

  lemma DecodeEncodedSymbols(b: Bytes)
    ensures DecodeSymbols(Encode(b)) == Some(b)
  {
    EncodeIsSymbols(b);
    ValuesOfSymbols(Sextets(b));
    RegroupSextets(b);
  }

  lemma SymbolOfValue(c: u8)
    requires Value(c).Some?
    ensures Symbol(Value(c).value) == c
  {
  }

  lemma {:induction false} SymbolsOfValues(s: Bytes)
    requires Values(s).Some?
    ensures Symbols(Values(s).value) == s
  {
    if s != [] {
      SymbolsOfValues(s[1..]);
      SymbolOfValue(s[0]);
      var vs := Values(s).value;
      assert vs == [Value(s[0]).value] + Values(s[1..]).value;
      assert Symbols(vs) == [Symbol(vs[0])] + Symbols(Values(s[1..]).value);
      assert s == [s[0]] + s[1..];
    }
  }

  lemma SplitSextets(a: u6, b: u6, c: u6, d: u6)
    ensures (a * 4 + b / 16) / 4 == a
    ensures (a * 4 + b / 16) % 4 * 16 + (b % 16 * 16 + c / 4) / 16 == b
    ensures (b % 16 * 16 + c / 4) % 16 * 4 + (c % 4 * 64 + d) / 64 == c
    ensures (c % 4 * 64 + d) % 64 == d
  {
    assert (a * 4 + b / 16) / 4 == a && (a * 4 + b / 16) % 4 == b / 16;
    assert (b % 16 * 16 + c / 4) / 16 == b % 16 && (b % 16 * 16 + c / 4) % 16 == c / 4;
    assert (c % 4 * 64 + d) / 64 == c % 4 && (c % 4 * 64 + d) % 64 == d;
  }

  lemma {:induction false} SextetsOfRegrouped(v: seq<u6>)
    requires Regroup(v).Some?
    ensures Sextets(Regroup(v).value) == v
  {
    if |v| < 4 {
      SextetsOfTail(v);
    } else {
      SextetsOfRegrouped(v[4..]);
      SextetsOfGroup(v, Regroup(v[4..]).value);
    }
  }

  lemma SplitTail(a: u6, b: u6, c: u6)
    ensures HighByte(a, b) / 4 == a
    ensures b % 16 == 0 ==> HighByte(a, b) % 4 * 16 == b
    ensures HighByte(a, b) % 4 * 16 + MiddleByte(b, c) / 16 == b
    ensures c % 4 == 0 ==> MiddleByte(b, c) % 16 * 4 == c
  {
    SplitSextets(a, b, c, 0);
    assert MiddleByte(b, c) % 16 == c / 4 && HighByte(a, b) % 4 == b / 16;
  }

  lemma SextetsOfTail(v: seq<u6>)
    requires |v| < 4 && Regroup(v).Some?
    ensures Sextets(Regroup(v).value) == v
  {
    if |v| == 2 {
      SplitTail(v[0], v[1], 0);
      assert Sextets([HighByte(v[0], v[1])]) == [v[0], v[1]];
    } else if |v| == 3 {
      SplitTail(v[0], v[1], v[2]);
      assert Sextets([HighByte(v[0], v[1]), MiddleByte(v[1], v[2])]) == [v[0], v[1], v[2]];
    }
  }

  lemma SextetsOfGroup(v: seq<u6>, rest: Bytes)
    requires |v| > 3 && Sextets(rest) == v[4..]
    ensures Sextets([HighByte(v[0], v[1]), MiddleByte(v[1], v[2]), LowByte(v[2], v[3])] + rest) == v
  {
    SplitSextets(v[0], v[1], v[2], v[3]);
    var b := [HighByte(v[0], v[1]), MiddleByte(v[1], v[2]), LowByte(v[2], v[3])] + rest;
    assert b[3..] == rest;
    assert v == v[..4] + v[4..];
  }

  lemma EncodeDecodedSymbols(s: Bytes)
    requires DecodeSymbols(s).Some?
    ensures Encode(DecodeSymbols(s).value) == s
  {
    SymbolsOfValues(s);
    SextetsOfRegrouped(Values(s).value);
    EncodeIsSymbols(DecodeSymbols(s).value);
  }

  lemma {:induction false} UnpaddedPadded(s: Bytes, k: nat)
    requires s != [] ==> s[|s| - 1] != PAD
    ensures Unpadded(s + Padding(k)) == s
  {
    if k > 0 {
      assert (s + Padding(k))[..|s| + k - 1] == s + Padding(k - 1);
      UnpaddedPadded(s, k - 1);
    } else {
      assert s + Padding(0) == s;
    }
  }

  /** The texts a byte string can be read from are its encoding, and that with some or all of its padding. */
  lemma DecodesFromIff(s: Bytes, b: Bytes)
    ensures Decode(s) == Some(b) <==> exists k: nat :: k <= Room(|Encode(b)|) && s == Encode(b) + Padding(k)
  {
    if Decode(s) == Some(b) {
      EncodeDecodedSymbols(Unpadded(s));
      assert s == Encode(b) + Padding(|s| - |Unpadded(s)|);
    }
    forall k: nat | k <= Room(|Encode(b)|) && s == Encode(b) + Padding(k) ensures Decode(s) == Some(b) {
      EncodedIsVisible(b);
      UnpaddedPadded(Encode(b), k);
      DecodeEncodedSymbols(b);
    }
  }

  /** Every byte string survives the trip through the header. */
  lemma DecodeEncode(b: Bytes)
    ensures Decode(Encode(b)) == Some(b)
  {
    DecodesFromIff(Encode(b), b);
    assert Encode(b) == Encode(b) + Padding(0);
  }

  /** The characters in order: capitals, small letters, digits, and the two that are safe in a URL. */
  lemma SymbolsInOrder(v: u6)
    ensures Symbol(v) == if v < 26 then 'A' as int + v
                         else if v < 52 then 'a' as int + v - 26
                         else if v < 62 then '0' as int + v - 52
                         else if v == 62 then '-' as int else '_' as int
  {
  }

  lemma BitsAreKept(x: u8, y: u8, z: u8, a: u6, b: u6, c: u6, d: u6)
    requires a == x / 4 && b == x % 4 * 16 + y / 16 && c == y % 16 * 4 + z / 64 && d == z % 64
    ensures ((a * 64 + b) * 64 + c) * 64 + d == (x * 256 + y) * 256 + z
  {
    assert x == 4 * a + x % 4 && y == y / 16 * 16 + y % 16 && z == z / 64 * 64 + d;
  }

  /** Three bytes become four characters that carry their 24 bits in order, most significant first. */
  lemma GroupsKeepTheirBits(x: u8, y: u8, z: u8, rest: Bytes) returns (a: u6, b: u6, c: u6, d: u6)
    ensures Encode([x, y, z] + rest) == [Symbol(a), Symbol(b), Symbol(c), Symbol(d)] + Encode(rest)
    ensures ((a * 64 + b) * 64 + c) * 64 + d == (x * 256 + y) * 256 + z
  {
    a, b, c, d := x / 4, x % 4 * 16 + y / 16, y % 16 * 4 + z / 64, z % 64;
    BitsAreKept(x, y, z, a, b, c, d);
    var s := [x, y, z] + rest;
    assert s[3..] == rest && s[0] == x && s[1] == y && s[2] == z;
  }

  /** Header values must be visible ASCII; the alphabet is. */
  lemma EncodedIsVisible(b: Bytes)
    ensures forall i :: 0 <= i < |Encode(b)| ==> 45 <= Encode(b)[i] <= 122 && Encode(b)[i] != PAD
  {
    EncodeIsSymbols(b);
  }
}
