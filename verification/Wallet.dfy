/** The addresses of unpaid invoices, and the check that a transaction pays one of them. */
module Wallet {
  import opened Prelude
  import opened Script

  /** The hash an output pays the exact price to, when its script is a payment to a key hash. */
  function PaidHash(output: TxOut): Option<Bytes> {
    if output.value != PRICE then None else ExtractPubkeyHash(output.scriptPubkey)
  }

  predicate PaysOutstanding(outstanding: set<Bytes>, output: TxOut) {
    PaidHash(output).Some? && PaidHash(output).value in outstanding
  }

  /** The hash that a transaction's check consumes: that of its first output to pay an outstanding address. */
  function Consumes(outstanding: set<Bytes>, outs: seq<TxOut>): Option<Bytes> {
    if outs == [] then None
    else if PaysOutstanding(outstanding, outs[0]) then PaidHash(outs[0])
    else Consumes(outstanding, outs[1..])
  }

  function AfterCheck(outstanding: set<Bytes>, outs: seq<TxOut>): set<Bytes> {
    match Consumes(outstanding, outs)
    case None => outstanding
    case Some(hash) => outstanding - {hash}
  }

  /** Output `i` is the first of the transaction that pays an outstanding address. */
  predicate FirstToPay(outstanding: set<Bytes>, outs: seq<TxOut>, i: int) {
    && 0 <= i < |outs|
    && PaysOutstanding(outstanding, outs[i])
    && forall j :: 0 <= j < i ==> !PaysOutstanding(outstanding, outs[j])
  }

  /** The check consumes exactly the hash that the first paying output pays, and nothing when no output pays. */
  lemma {:induction false} ConsumesFirst(outstanding: set<Bytes>, outs: seq<TxOut>)
    ensures match Consumes(outstanding, outs)
            case Some(hash) => exists i :: FirstToPay(outstanding, outs, i) && PaidHash(outs[i]) == Some(hash)
            case None => forall i :: 0 <= i < |outs| ==> !PaysOutstanding(outstanding, outs[i])
  {
    if outs != [] {
      if PaysOutstanding(outstanding, outs[0]) {
        assert FirstToPay(outstanding, outs, 0);
      } else {
        ConsumesFirst(outstanding, outs[1..]);
        if Consumes(outstanding, outs).Some? {
          var i :| FirstToPay(outstanding, outs[1..], i) && PaidHash(outs[1..][i]) == Consumes(outstanding, outs);
          forall j | 0 <= j < i + 1 ensures !PaysOutstanding(outstanding, outs[j]) {
            if j > 0 {
              assert outs[1..][j - 1] == outs[j];
            }
          }
          assert outs[i + 1] == outs[1..][i];
          assert FirstToPay(outstanding, outs, i + 1);
        } else {
          assert forall i :: 1 <= i < |outs| ==> outs[i] == outs[1..][i - 1];
        }
      }
    }
  }

  lemma {:induction false} ConsumesSome(outstanding: set<Bytes>, outs: seq<TxOut>, i: nat)
    requires i < |outs| && PaysOutstanding(outstanding, outs[i])
    ensures Consumes(outstanding, outs).Some?
  {
    if i > 0 && !PaysOutstanding(outstanding, outs[0]) {
      assert outs[1..][i - 1] == outs[i];
      ConsumesSome(outstanding, outs[1..], i - 1);
    }
  }

  class WalletState {
    var outstanding: set<Bytes>

    constructor ()
      ensures outstanding == {}
    {
      outstanding := {};
    }

    method Add(addr: Bytes)
      modifies this
      ensures outstanding == old(outstanding) + {addr}
    {
      outstanding := outstanding + {addr};
    }

    method Remove(addr: Bytes)
      modifies this
      ensures outstanding == old(outstanding) - {addr}
    {
      outstanding := outstanding - {addr};
    }

    method CheckP2pkh(output: TxOut) returns (ok: bool)
      modifies this
      ensures ok == PaysOutstanding(old(outstanding), output)
      ensures outstanding == if ok then old(outstanding) - {PaidHash(output).value} else old(outstanding)
    {
      if output.value != PRICE {
        return false;
      }
      var extracted := ExtractPubkeyHash(output.scriptPubkey);
      if extracted.None? {
        return false;
      }
      if extracted.value in outstanding {
        outstanding := outstanding - {extracted.value};
        return true;
      }
      return false;
    }

    /** Stops at the first output that pays. */
    method CheckOutputs(outs: seq<TxOut>) returns (ok: bool)
      modifies this
      ensures ok <==> exists i :: 0 <= i < |outs| && PaysOutstanding(old(outstanding), outs[i])
      ensures ok == Consumes(old(outstanding), outs).Some?
      ensures outstanding == AfterCheck(old(outstanding), outs)
    {
      var i := 0;
      while i < |outs|
        invariant 0 <= i <= |outs|
        invariant outstanding == old(outstanding)
        invariant forall j :: 0 <= j < i ==> !PaysOutstanding(outstanding, outs[j])
        invariant Consumes(outstanding, outs) == Consumes(outstanding, outs[i..])
      {
        ok := CheckP2pkh(outs[i]);
        if ok {
          return;
        }
        assert outs[i..][1..] == outs[i + 1..];
        i := i + 1;
      }
      ok := false;
    }
  }
}
