/** Bitcoin scripts: the two outputs of an invoice, and the parsers that recognise them. */
module Script {
  import opened Prelude
  import opened Utf8

  const PRICE: u64 := 5

  /** "keyserver" */
  const KEYSERVER_PREFIX: Bytes := [107, 101, 121, 115, 101, 114, 118, 101, 114]

  /** An output as an invoice lists it. */
  datatype Output = Output(amount: Option<u64>, script: Bytes)

  /** An output of a transaction. */
  datatype TxOut = TxOut(value: u64, scriptPubkey: Bytes)

  /** The length byte is computed in `u8` arithmetic: the URL's length is truncated and the sum wraps. */
  function LengthByte(url: Bytes): u8 {
    (9 + 20 + |url| % 256) % 256
  }

  function P2pkhScript(pkHash: Bytes): Bytes {
    [118, 169, 20] + pkHash + [136, 172]
  }

  function OpReturnScript(url: Bytes, putPkHash: Bytes): Bytes {
    [106, LengthByte(url)] + KEYSERVER_PREFIX + putPkHash + url
  }

  function GenerateOutputs(pkHash: Bytes, baseUrl: Str, putPkHash: Bytes): (outputs: seq<Output>)
    ensures |outputs| == 2
  {
    [Output(Some(PRICE), P2pkhScript(pkHash)), Output(Some(0), OpReturnScript(baseUrl, putPkHash))]
  }

  /** `own` is the URL at which this server is bound: it never peers with itself. */
  function ExtractOpReturn(own: Str, script: Bytes): Option<(Str, Bytes)> {
    if |script| <= 2 + 9 + 20 then None
    else if script[0] != 106 then None
    else if script[1] != |script| - 2 then None
    else if script[2..11] != KEYSERVER_PREFIX then None
    else if !ValidUtf8(script[31..]) then None
    else if script[31..] == own then None
    else Some((script[31..], script[11..31]))
  }

  function ExtractPubkeyHash(script: Bytes): Option<Bytes> {
    if |script| != 25 then None
    else if script[0..3] != [118, 169, 20] then None
    else if script[23..25] != [136, 172] then None
    else Some(script[3..23])
  }

  /** The first output of a transaction that carries a keyserver OP_RETURN. */
  function ExtractDetails(own: Str, outs: seq<TxOut>): Option<(Str, Bytes)> {
    if outs == [] then None
    else
      var found := ExtractOpReturn(own, outs[0].scriptPubkey);
      if found.Some? then found else ExtractDetails(own, outs[1..])
  }

  /**
   An invoice's outputs, byte by byte: 5 satoshi to DUP HASH160 <hash> EQUALVERIFY CHECKSIG, and nothing to a RETURN
   of one push that holds the text "keyserver", the address body and the URL.
   */
  lemma OutputsOnTheWire(pkHash: Bytes, baseUrl: Str, putPkHash: Bytes)
    requires |putPkHash| == 20 && |baseUrl| <= 226
    ensures GenerateOutputs(pkHash, baseUrl, putPkHash) == [
      Output(Some(5), [0x76, 0xa9, 0x14] + pkHash + [0x88, 0xac]),
      Output(Some(0), [0x6a, 29 + |baseUrl|] + Ascii("keyserver") + putPkHash + baseUrl)]
  {
    assert KEYSERVER_PREFIX == Ascii("keyserver");
  }

  // ---- The printer against the parsers ----

  lemma OpReturnParts(url: Bytes, hash: Bytes)
    requires |hash| == 20
    ensures var s := OpReturnScript(url, hash);
            && |s| == 31 + |url|
            && s[0] == 106 && s[1] == LengthByte(url)
            && s[2..11] == KEYSERVER_PREFIX && s[11..31] == hash && s[31..] == url
  {
  }

  /**
   The exact bound: a peer recovers the URL and the address body of an invoice
   just when the body has 20 bytes, the URL has 1 to 226 bytes, and the URL is not the peer's own.
   */
  lemma OpReturnRecoveredIff(own: Str, pkHash: Bytes, baseUrl: Str, putPkHash: Bytes)
    ensures ExtractOpReturn(own, GenerateOutputs(pkHash, baseUrl, putPkHash)[1].script) == Some((baseUrl, putPkHash))
            <==> |putPkHash| == 20 && 1 <= |baseUrl| <= 226 && baseUrl != own
  {
    var s := OpReturnScript(baseUrl, putPkHash);
    if |putPkHash| == 20 {
      OpReturnParts(baseUrl, putPkHash);
      if |baseUrl| > 226 {
        assert s[1] < 256 <= |s| - 2;
      }
    }
  }

  /** A payment script gives back its hash just when the hash has 20 bytes. */
  lemma PubkeyHashRecoveredIff(pkHash: Bytes, baseUrl: Str, putPkHash: Bytes)
    ensures ExtractPubkeyHash(GenerateOutputs(pkHash, baseUrl, putPkHash)[0].script) == Some(pkHash)
            <==> |pkHash| == 20
  {
    var s := P2pkhScript(pkHash);
    if |pkHash| == 20 {
      assert s[0..3] == [118, 169, 20] && s[3..23] == pkHash && s[23..25] == [136, 172];
    }
  }

  /** The OP_RETURN parser accepts only what the printer prints, and its result is short enough to print. */
  lemma OpReturnReprints(own: Str, script: Bytes, pkHash: Bytes)
    requires ExtractOpReturn(own, script).Some?
    ensures var (url, hash) := ExtractOpReturn(own, script).value;
            && GenerateOutputs(pkHash, url, hash)[1].script == script
            && |hash| == 20 && 1 <= |url| <= 226 && url != own
  {
    var (url, hash) := ExtractOpReturn(own, script).value;
    assert script == script[0..2] + script[2..11] + script[11..31] + script[31..];
    assert script[0..2] == [106, LengthByte(url)];
  }

  /** The payment-script parser accepts only what the printer prints. */
  lemma PubkeyHashReprints(script: Bytes, baseUrl: Str, putPkHash: Bytes)
    requires ExtractPubkeyHash(script).Some?
    ensures var hash := ExtractPubkeyHash(script).value;
            GenerateOutputs(hash, baseUrl, putPkHash)[0].script == script && |hash| == 20
  {
    assert script == script[0..3] + script[3..23] + script[23..25];
  }

  /** So both parsers are injective on the scripts they accept, and no script is accepted by both. */
  lemma ParsersAreInjectiveAndDisjoint(own: Str, a: Bytes, b: Bytes)
    ensures ExtractOpReturn(own, a).Some? && ExtractOpReturn(own, a) == ExtractOpReturn(own, b) ==> a == b
    ensures ExtractPubkeyHash(a).Some? && ExtractPubkeyHash(a) == ExtractPubkeyHash(b) ==> a == b
    ensures !(ExtractOpReturn(own, a).Some? && ExtractPubkeyHash(a).Some?)
  {
    if ExtractOpReturn(own, a).Some? && ExtractOpReturn(own, a) == ExtractOpReturn(own, b) {
      OpReturnReprints(own, a, []);
      OpReturnReprints(own, b, []);
    }
    if ExtractPubkeyHash(a).Some? && ExtractPubkeyHash(a) == ExtractPubkeyHash(b) {
      PubkeyHashReprints(a, [], []);
      PubkeyHashReprints(b, [], []);
    }
  }

  /** What the stream yields for a transaction is the first keyserver OP_RETURN, or nothing when there is none. */
  lemma {:induction false} ExtractDetailsIsFirst(own: Str, outs: seq<TxOut>, k: nat)
    requires k < |outs| && ExtractOpReturn(own, outs[k].scriptPubkey).Some?
    requires forall i :: 0 <= i < k ==> ExtractOpReturn(own, outs[i].scriptPubkey).None?
    ensures ExtractDetails(own, outs) == ExtractOpReturn(own, outs[k].scriptPubkey)
  {
    if k > 0 {
      forall i | 0 <= i < k - 1 ensures ExtractOpReturn(own, outs[1..][i].scriptPubkey).None? {
        assert outs[1..][i] == outs[i + 1];
      }
      ExtractDetailsIsFirst(own, outs[1..], k - 1);
    }
  }

  lemma {:induction false} NoDetails(own: Str, outs: seq<TxOut>)
    ensures ExtractDetails(own, outs).None?
            <==> forall i :: 0 <= i < |outs| ==> ExtractOpReturn(own, outs[i].scriptPubkey).None?
  {
    if outs != [] {
      NoDetails(own, outs[1..]);
      assert forall i :: 1 <= i < |outs| ==> outs[i] == outs[1..][i - 1];
    }
  }
}
