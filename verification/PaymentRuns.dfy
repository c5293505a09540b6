/** Whole runs of the pay-then-put protocol, recorded in a ledger. */
module PaymentRuns {
  import opened Prelude
  import opened Script
  import opened Bip70
  import opened Wallet
  import opened Payments

  /** What happens that matters, in order. */
  datatype Record =
    | Issued(hash: Bytes)
    | Consumed(hash: Bytes, outs: seq<TxOut>)
    | Relayed(hash: Bytes, tx: Bytes)
    | Acked(hash: Bytes, merchantData: Bytes, authorization: Bytes)
    | Admitted(url: Bytes)

  /** A payment whose outputs have been checked and whose transaction is on its way to the node. */
  datatype Pending = Pending(hash: Bytes, tx: Bytes, payment: Payment)

  datatype State = State(wallet: set<Bytes>, pending: map<nat, Pending>, ledger: seq<Record>)

  datatype Action =
    | Visit(req: Request, node: NodeReply, time: Seconds)
    | Pay(id: nat, post: Post)
    | Sent(id: nat, accepted: bool)

  /** The middleware hands a PUT on to the store. */
  predicate LetsPutPass(cfg: Config, req: Request, node: NodeReply, time: Seconds) {
    req.isPut && Respond(cfg, req, node, time) == Forward
  }

  function Logged(s: State, r: Record): State {
    s.(ledger := s.ledger + [r])
  }

  function Do(cfg: Config, s: State, a: Action): State {
    match a
    case Visit(req, node, time) =>
      (match Issues(cfg, req, node)
       case Some(hash) => Logged(s.(wallet := s.wallet + {hash}), Issued(hash))
       case None => if LetsPutPass(cfg, req, node, time) then Logged(s, Admitted(MerchantUrl(req))) else s)
    case Pay(id, post) =>
      if id in s.pending then s
      else
        (match ScreenPayment(cfg, post)
         case Err(_) => s
         case Ok((payment, outs)) =>
           match Consumes(s.wallet, outs)
           case None => s
           case Some(hash) =>
             var p := Pending(hash, payment.transactions[0], payment);
             Logged(s.(wallet := s.wallet - {hash}, pending := s.pending[id := p]), Consumed(hash, outs)))
    case Sent(id, accepted) =>
      if id !in s.pending then s
      else
        var p := s.pending[id];
        var heard := if accepted then Logged(s, Relayed(p.hash, p.tx)) else s;
        var done := heard.(pending := heard.pending - {id});
        match Settle(cfg, p.payment, accepted)
        case Accepted(_, authorization, _) => Logged(done, Acked(p.hash, p.payment.merchantData.value, authorization))
        case _ => done
  }

  function Run(cfg: Config, acts: seq<Action>): State {
    if acts == [] then State({}, map[], [])
    else Do(cfg, Run(cfg, acts[..|acts| - 1]), acts[|acts| - 1])
  }

  /** The two actions on a payment, one after the other, are what the handler does: same wallet, same answer. */
  lemma PayThenSentIsHandler(cfg: Config, s: State, id: nat, post: Post, accepted: bool)
    requires id !in s.pending
    ensures var s', resp := Do(cfg, Do(cfg, s, Pay(id, post)), Sent(id, accepted)), PaymentAnswer(cfg, s.wallet, post, accepted);
            && s'.wallet == WalletAfterPayment(cfg, s.wallet, post)
            && s'.pending == s.pending
            && (resp.Accepted? <==> |s'.ledger| == |s.ledger| + 3)
            && (resp.Accepted? ==> s'.ledger[|s'.ledger| - 1].Acked?
                                   && s'.ledger[|s'.ledger| - 1].authorization == resp.authorization)
  {
    var s1 := Do(cfg, s, Pay(id, post));
    if ScreenPayment(cfg, post).Ok? && Consumes(s.wallet, ScreenPayment(cfg, post).value.1).Some? {
      assert s1.pending - {id} == s.pending;
    }
  }

  // ---- How long an invoice is outstanding ----

  lemma NextRun(cfg: Config, acts: seq<Action>, n: nat)
    requires n < |acts|
    ensures Run(cfg, acts[..n + 1]) == Do(cfg, Run(cfg, acts[..n]), acts[n])
  {
    assert acts[..n + 1][..n] == acts[..n];
  }

  /** The action is a payment, not yet under way, whose first output to pay an outstanding address pays this one. */
  predicate Spends(cfg: Config, s: State, a: Action, hash: Bytes) {
    && a.Pay? && a.id !in s.pending && ScreenPayment(cfg, a.post).Ok?
    && Consumes(s.wallet, ScreenPayment(cfg, a.post).value.1) == Some(hash)
  }

  lemma StaysUnlessSpent(cfg: Config, s: State, a: Action, hash: Bytes)
    requires hash in s.wallet
    ensures hash in Do(cfg, s, a).wallet <==> !Spends(cfg, s, a, hash)
  {
  }

  /** The address of an invoice is outstanding from the 402 that carries it until a payment spends it, and no longer. */
  lemma {:induction false} OutstandingUntilSpent(cfg: Config, acts: seq<Action>, v: nat, k: nat, hash: Bytes)
    requires v < k <= |acts| && acts[v].Visit? && acts[v].node == NewAddr(hash)
    requires Respond(cfg, acts[v].req, acts[v].node, acts[v].time).PaymentRequired?
    requires forall n :: v < n < k ==> !Spends(cfg, Run(cfg, acts[..n]), acts[n], hash)
    ensures hash in Run(cfg, acts[..k]).wallet
    decreases k
  {
    NextRun(cfg, acts, k - 1);
    if v < k - 1 {
      OutstandingUntilSpent(cfg, acts, v, k - 1, hash);
      StaysUnlessSpent(cfg, Run(cfg, acts[..k - 1]), acts[k - 1], hash);
    }
  }

  // ---- Looking back in the ledger ----

  predicate IssuedBefore(ledger: seq<Record>, n: int, hash: Bytes) {
    exists k :: 0 <= k < n && k < |ledger| && ledger[k] == Issued(hash)
  }

  predicate ConsumedBefore(ledger: seq<Record>, n: int, hash: Bytes) {
    exists k :: 0 <= k < n && k < |ledger| && ledger[k].Consumed? && ledger[k].hash == hash
  }

  predicate AckedBefore(ledger: seq<Record>, n: int, hash: Bytes) {
    exists k :: 0 <= k < n && k < |ledger| && ledger[k].Acked? && ledger[k].hash == hash
  }

  predicate RelayedBefore(ledger: seq<Record>, n: int, hash: Bytes) {
    exists k :: 0 <= k < n && k < |ledger| && ledger[k].Relayed? && ledger[k].hash == hash
  }

  /** The hash was consumed by a transaction with these bytes. */
  predicate ConsumedBy(cfg: Config, ledger: seq<Record>, n: int, hash: Bytes, tx: Bytes) {
    exists k :: 0 <= k < n && k < |ledger| && ledger[k].Consumed? && ledger[k].hash == hash
                && cfg.decodeTx(tx) == Some(ledger[k].outs)
  }

  predicate AckedForBefore(ledger: seq<Record>, n: int, url: Bytes) {
    exists k :: 0 <= k < n && k < |ledger| && ledger[k].Acked? && ledger[k].merchantData == url
  }

  /** Some output pays exactly the price to the hash. */
  predicate PaysPrice(outs: seq<TxOut>, hash: Bytes) {
    exists i :: 0 <= i < |outs| && outs[i].value == PRICE && ExtractPubkeyHash(outs[i].scriptPubkey) == Some(hash)
  }

  // ---- What is assumed of the world ----

  /** The node never hands out an address twice. */
  ghost predicate FreshAddresses(cfg: Config, acts: seq<Action>) {
    forall i :: 0 <= i < |acts| && acts[i].Visit? && Issues(cfg, acts[i].req, acts[i].node).Some? ==>
      var ledger := Run(cfg, acts[..i]).ledger;
      !IssuedBefore(ledger, |ledger|, Issues(cfg, acts[i].req, acts[i].node).value)
  }

  /** Different messages have different authentication codes under the server's key. */
  ghost predicate InjectiveHmac(cfg: Config) {
    forall m, m' :: cfg.hmac(cfg.secret, m) == cfg.hmac(cfg.secret, m') ==> m == m'
  }

  /** The token was handed out in a 202 response. */
  predicate HandedOut(cfg: Config, ledger: seq<Record>, token: Bytes) {
    exists k :: 0 <= k < |ledger| && ledger[k].Acked? && cfg.hmac(cfg.secret, ledger[k].merchantData) == token
  }

  /** Only the server can compute codes: who presents one has received it in a 202 response. */
  ghost predicate Unforged(cfg: Config, acts: seq<Action>) {
    forall i, m ::
      0 <= i < |acts| && acts[i].Visit? && acts[i].req.authorization.Some?
      && TokenIn(acts[i].req.authorization.value) == Some(cfg.hmac(cfg.secret, m))
      ==> HandedOut(cfg, Run(cfg, acts[..i]).ledger, cfg.hmac(cfg.secret, m))
  }

  // ---- The ledger is in order ----

  /** Every invoice's record rests on earlier ones. */
  ghost predicate Justified(cfg: Config, ledger: seq<Record>, i: int)
    requires 0 <= i < |ledger|
  {
    match ledger[i]
    case Issued(hash) => !IssuedBefore(ledger, i, hash)
    case Consumed(hash, outs) =>
      IssuedBefore(ledger, i, hash) && !ConsumedBefore(ledger, i, hash) && PaysPrice(outs, hash)
    case Relayed(hash, tx) => ConsumedBy(cfg, ledger, i, hash, tx)
    case Acked(hash, merchantData, authorization) =>
      RelayedBefore(ledger, i, hash) && !AckedBefore(ledger, i, hash)
      && authorization == TokenHeader(GenerateToken(cfg, merchantData))
    case Admitted(_) => true
  }

  ghost predicate InOrder(cfg: Config, ledger: seq<Record>) {
    forall i :: 0 <= i < |ledger| ==> Justified(cfg, ledger, i)
  }

  /** The wallet holds what has been issued and not consumed; what is pending has been consumed and not acknowledged. */
  ghost predicate Balanced(cfg: Config, s: State) {
    var n := |s.ledger|;
    && (forall h :: h in s.wallet <==> IssuedBefore(s.ledger, n, h) && !ConsumedBefore(s.ledger, n, h))
    && (forall id :: id in s.pending ==>
          ConsumedBy(cfg, s.ledger, n, s.pending[id].hash, s.pending[id].tx) && !AckedBefore(s.ledger, n, s.pending[id].hash))
    && (forall id, id' :: id in s.pending && id' in s.pending && id != id' ==> s.pending[id].hash != s.pending[id'].hash)
  }

  lemma LookupsAppend(cfg: Config, ledger: seq<Record>, r: Record, n: int, h: Bytes, tx: Bytes)
    requires 0 <= n <= |ledger|
    ensures ConsumedBy(cfg, ledger + [r], n, h, tx) == ConsumedBy(cfg, ledger, n, h, tx)
    ensures RelayedBefore(ledger + [r], n, h) == RelayedBefore(ledger, n, h)
    ensures IssuedBefore(ledger + [r], n, h) == IssuedBefore(ledger, n, h)
    ensures ConsumedBefore(ledger + [r], n, h) == ConsumedBefore(ledger, n, h)
    ensures AckedBefore(ledger + [r], n, h) == AckedBefore(ledger, n, h)
  {
    assert forall k :: 0 <= k < n ==> (ledger + [r])[k] == ledger[k];
  }

  /** How a new record changes the totals. */
  lemma TotalsAppend(cfg: Config, ledger: seq<Record>, r: Record)
    ensures var n, l' := |ledger|, ledger + [r];
            && (forall h :: IssuedBefore(l', |l'|, h) == (IssuedBefore(ledger, n, h) || r == Issued(h)))
            && (forall h :: ConsumedBefore(l', |l'|, h) == (ConsumedBefore(ledger, n, h) || (r.Consumed? && r.hash == h)))
            && (forall h :: RelayedBefore(l', |l'|, h) == (RelayedBefore(ledger, n, h) || (r.Relayed? && r.hash == h)))
            && (forall h, tx :: ConsumedBy(cfg, l', |l'|, h, tx) ==
                  (ConsumedBy(cfg, ledger, n, h, tx) || (r.Consumed? && r.hash == h && cfg.decodeTx(tx) == Some(r.outs))))
            && (forall h :: AckedBefore(l', |l'|, h) == (AckedBefore(ledger, n, h) || (r.Acked? && r.hash == h)))
  {
    var n, l' := |ledger|, ledger + [r];
    assert l'[n] == r && forall k :: 0 <= k < n ==> l'[k] == ledger[k];
  }

  lemma AppendInOrder(cfg: Config, ledger: seq<Record>, r: Record)
    requires InOrder(cfg, ledger) && Justified(cfg, ledger + [r], |ledger|)
    ensures InOrder(cfg, ledger + [r])
  {
    forall i | 0 <= i < |ledger| ensures Justified(cfg, ledger + [r], i) {
      assert Justified(cfg, ledger, i);
      LookupsAppend(cfg, ledger, r, i, if ledger[i].Admitted? then [] else ledger[i].hash,
                    if ledger[i].Relayed? then ledger[i].tx else []);
    }
  }

  lemma ConsumedWasIssued(cfg: Config, ledger: seq<Record>, hash: Bytes)
    requires InOrder(cfg, ledger) && ConsumedBefore(ledger, |ledger|, hash)
    ensures IssuedBefore(ledger, |ledger|, hash)
  {
    var k :| 0 <= k < |ledger| && ledger[k].Consumed? && ledger[k].hash == hash;
    assert Justified(cfg, ledger, k);
  }

  lemma AckedWasConsumed(cfg: Config, ledger: seq<Record>, hash: Bytes)
    requires InOrder(cfg, ledger) && AckedBefore(ledger, |ledger|, hash)
    ensures ConsumedBefore(ledger, |ledger|, hash)
  {
    var k :| 0 <= k < |ledger| && ledger[k].Acked? && ledger[k].hash == hash;
    assert Justified(cfg, ledger, k);
    var j :| 0 <= j < k && ledger[j].Relayed? && ledger[j].hash == hash;
    assert Justified(cfg, ledger, j);
  }

  ghost predicate Sound(cfg: Config, s: State) {
    InOrder(cfg, s.ledger) && Balanced(cfg, s)
  }

  lemma IssueKeeps(cfg: Config, s: State, hash: Bytes)
    requires Sound(cfg, s) && !IssuedBefore(s.ledger, |s.ledger|, hash)
    ensures Sound(cfg, Logged(s.(wallet := s.wallet + {hash}), Issued(hash)))
  {
    var r := Issued(hash);
    LookupsAppend(cfg, s.ledger, r, |s.ledger|, hash, []);
    AppendInOrder(cfg, s.ledger, r);
    if ConsumedBefore(s.ledger, |s.ledger|, hash) {
      ConsumedWasIssued(cfg, s.ledger, hash);
    }
    TotalsAppend(cfg, s.ledger, r);
  }

  lemma AdmitKeeps(cfg: Config, s: State, url: Bytes)
    requires Sound(cfg, s)
    ensures Sound(cfg, Logged(s, Admitted(url)))
  {
    var r := Admitted(url);
    AppendInOrder(cfg, s.ledger, r);
    TotalsAppend(cfg, s.ledger, r);
  }

  lemma ConsumedInOrder(cfg: Config, s: State, outs: seq<TxOut>)
    requires Sound(cfg, s) && Consumes(s.wallet, outs).Some?
    ensures InOrder(cfg, s.ledger + [Consumed(Consumes(s.wallet, outs).value, outs)])
    ensures Consumes(s.wallet, outs).value in s.wallet
  {
    var hash := Consumes(s.wallet, outs).value;
    ConsumesFirst(s.wallet, outs);
    var i :| FirstToPay(s.wallet, outs, i) && PaidHash(outs[i]) == Some(hash);
    assert PaysPrice(outs, hash);
    var r := Consumed(hash, outs);
    LookupsAppend(cfg, s.ledger, r, |s.ledger|, hash, []);
    AppendInOrder(cfg, s.ledger, r);
  }

  lemma ConsumeBalances(cfg: Config, s: State, id: nat, p: Pending, outs: seq<TxOut>)
    requires Sound(cfg, s) && id !in s.pending && p.hash in s.wallet && cfg.decodeTx(p.tx) == Some(outs)
    ensures Balanced(cfg, Logged(s.(wallet := s.wallet - {p.hash}, pending := s.pending[id := p]), Consumed(p.hash, outs)))
  {
    if AckedBefore(s.ledger, |s.ledger|, p.hash) {
      AckedWasConsumed(cfg, s.ledger, p.hash);
    }
    TotalsAppend(cfg, s.ledger, Consumed(p.hash, outs));
  }

  lemma ConsumeKeeps(cfg: Config, s: State, id: nat, p: Pending, outs: seq<TxOut>)
    requires Sound(cfg, s) && id !in s.pending && Consumes(s.wallet, outs) == Some(p.hash)
    requires cfg.decodeTx(p.tx) == Some(outs)
    ensures Sound(cfg, Logged(s.(wallet := s.wallet - {p.hash}, pending := s.pending[id := p]), Consumed(p.hash, outs)))
  {
    ConsumedInOrder(cfg, s, outs);
    ConsumeBalances(cfg, s, id, p, outs);
  }

  lemma RelayKeeps(cfg: Config, s: State, id: nat)
    requires Sound(cfg, s) && id in s.pending
    ensures Sound(cfg, Logged(s, Relayed(s.pending[id].hash, s.pending[id].tx)))
    ensures RelayedBefore(s.ledger + [Relayed(s.pending[id].hash, s.pending[id].tx)], |s.ledger| + 1, s.pending[id].hash)
  {
    var r := Relayed(s.pending[id].hash, s.pending[id].tx);
    LookupsAppend(cfg, s.ledger, r, |s.ledger|, r.hash, r.tx);
    AppendInOrder(cfg, s.ledger, r);
    TotalsAppend(cfg, s.ledger, r);
  }

  lemma AckKeeps(cfg: Config, s: State, id: nat, r: Record)
    requires Sound(cfg, s) && id in s.pending && RelayedBefore(s.ledger, |s.ledger|, s.pending[id].hash)
    requires r.Acked? && r.hash == s.pending[id].hash && r.authorization == TokenHeader(GenerateToken(cfg, r.merchantData))
    ensures Sound(cfg, Logged(s.(pending := s.pending - {id}), r))
  {
    LookupsAppend(cfg, s.ledger, r, |s.ledger|, r.hash, []);
    AppendInOrder(cfg, s.ledger, r);
    TotalsAppend(cfg, s.ledger, r);
  }

  lemma DropKeeps(cfg: Config, s: State, id: nat)
    requires Sound(cfg, s)
    ensures Sound(cfg, s.(pending := s.pending - {id}))
  {
  }

  /** An acknowledgement follows only when the node has accepted the transaction. */
  lemma SentKeeps(cfg: Config, s: State, id: nat, accepted: bool)
    requires Sound(cfg, s) && id in s.pending
    ensures Sound(cfg, Do(cfg, s, Sent(id, accepted)))
  {
    var p := s.pending[id];
    var heard := if accepted then Logged(s, Relayed(p.hash, p.tx)) else s;
    if accepted {
      RelayKeeps(cfg, s, id);
    }
    match Settle(cfg, p.payment, accepted)
    case Accepted(_, authorization, _) =>
      AckKeeps(cfg, heard, id, Acked(p.hash, p.payment.merchantData.value, authorization));
    case _ => DropKeeps(cfg, heard, id);
  }

  lemma DoKeeps(cfg: Config, s: State, a: Action)
    requires Sound(cfg, s)
    requires a.Visit? && Issues(cfg, a.req, a.node).Some? ==>
               !IssuedBefore(s.ledger, |s.ledger|, Issues(cfg, a.req, a.node).value)
    ensures Sound(cfg, Do(cfg, s, a))
  {
    match a {
      case Visit(req, node, time) =>
        if Issues(cfg, req, node).Some? {
          IssueKeeps(cfg, s, Issues(cfg, req, node).value);
        } else if LetsPutPass(cfg, req, node, time) {
          AdmitKeeps(cfg, s, MerchantUrl(req));
        }
      case Pay(id, post) =>
        if id !in s.pending && ScreenPayment(cfg, post).Ok? {
          var (payment, outs) := ScreenPayment(cfg, post).value;
          if Consumes(s.wallet, outs).Some? {
            ConsumeKeeps(cfg, s, id, Pending(Consumes(s.wallet, outs).value, payment.transactions[0], payment), outs);
          }
        }
      case Sent(id, accepted) =>
        if id in s.pending {
          SentKeeps(cfg, s, id, accepted);
        }
    }
  }

  lemma {:induction false} RunIsSound(cfg: Config, acts: seq<Action>)
    requires FreshAddresses(cfg, acts)
    ensures Sound(cfg, Run(cfg, acts))
    decreases |acts|
  {
    if acts != [] {
      var n := |acts| - 1;
      PremisesOfPrefix(cfg, acts, n);
      RunIsSound(cfg, acts[..n]);
      DoKeeps(cfg, Run(cfg, acts[..n]), acts[n]);
    }
  }

  lemma PremisesOfPrefix(cfg: Config, acts: seq<Action>, n: nat)
    requires n <= |acts|
    ensures FreshAddresses(cfg, acts) ==> FreshAddresses(cfg, acts[..n])
    ensures Unforged(cfg, acts) ==> Unforged(cfg, acts[..n])
  {
    assert forall i :: 0 <= i < n ==> acts[..n][i] == acts[i] && acts[..n][..i] == acts[..i];
  }

  // ---- Authorised writes ----

  ghost predicate AllPaid(ledger: seq<Record>) {
    forall i :: 0 <= i < |ledger| && ledger[i].Admitted? ==> AckedForBefore(ledger, i, ledger[i].url)
  }

  lemma AppendAllPaid(ledger: seq<Record>, r: Record)
    requires AllPaid(ledger) && (r.Admitted? ==> AckedForBefore(ledger, |ledger|, r.url))
    ensures AllPaid(ledger + [r])
  {
    var l' := ledger + [r];
    forall i | 0 <= i < |l'| && l'[i].Admitted? ensures AckedForBefore(l', i, l'[i].url) {
      assert AckedForBefore(ledger, i, l'[i].url);
      var k :| 0 <= k < i && k < |ledger| && ledger[k].Acked? && ledger[k].merchantData == l'[i].url;
      assert l'[k] == ledger[k];
    }
  }

  lemma AdmittedWasAcked(cfg: Config, ledger: seq<Record>, url: Bytes)
    requires InjectiveHmac(cfg) && HandedOut(cfg, ledger, cfg.hmac(cfg.secret, url))
    ensures AckedForBefore(ledger, |ledger|, url)
  {
    var k :| 0 <= k < |ledger| && ledger[k].Acked?
             && cfg.hmac(cfg.secret, ledger[k].merchantData) == cfg.hmac(cfg.secret, url);
    assert ledger[k].merchantData == url;
  }

  /** The middleware lets a PUT pass only when its header carries the code of its own URL. */
  lemma PassingCarriesToken(cfg: Config, req: Request, node: NodeReply, time: Seconds)
    requires LetsPutPass(cfg, req, node, time)
    ensures req.authorization.Some?
    ensures TokenIn(req.authorization.value) == Some(cfg.hmac(cfg.secret, MerchantUrl(req)))
  {
  }

  lemma DoKeepsPaid(cfg: Config, s: State, a: Action)
    requires AllPaid(s.ledger)
    requires a.Visit? && LetsPutPass(cfg, a.req, a.node, a.time)
             ==> AckedForBefore(s.ledger, |s.ledger|, MerchantUrl(a.req))
    ensures AllPaid(Do(cfg, s, a).ledger)
  {
    match a {
      case Visit(req, node, _) =>
        AppendAllPaid(s.ledger, match Issues(cfg, req, node) case Some(hash) => Issued(hash) case None => Issued([]));
        if LetsPutPass(cfg, req, node, a.time) {
          AppendAllPaid(s.ledger, Admitted(MerchantUrl(req)));
        }
      case Pay(id, post) =>
        if id !in s.pending && ScreenPayment(cfg, post).Ok? && Consumes(s.wallet, ScreenPayment(cfg, post).value.1).Some? {
          var outs := ScreenPayment(cfg, post).value.1;
          AppendAllPaid(s.ledger, Consumed(Consumes(s.wallet, outs).value, outs));
        }
      case Sent(id, accepted) =>
        if id in s.pending {
          var p := s.pending[id];
          AppendAllPaid(s.ledger, Relayed(p.hash, p.tx));
          var heard := if accepted then s.ledger + [Relayed(p.hash, p.tx)] else s.ledger;
          match Settle(cfg, p.payment, accepted)
          case Accepted(_, authorization, _) =>
            AppendAllPaid(heard, Acked(p.hash, p.payment.merchantData.value, authorization));
          case _ =>
        }
    }
  }

  lemma {:induction false} RunIsPaid(cfg: Config, acts: seq<Action>)
    requires InjectiveHmac(cfg) && Unforged(cfg, acts)
    ensures AllPaid(Run(cfg, acts).ledger)
    decreases |acts|
  {
    if acts != [] {
      var n := |acts| - 1;
      var a, s := acts[n], Run(cfg, acts[..n]);
      PremisesOfPrefix(cfg, acts, n);
      RunIsPaid(cfg, acts[..n]);
      if a.Visit? && LetsPutPass(cfg, a.req, a.node, a.time) {
        PassingCarriesToken(cfg, a.req, a.node, a.time);
        AdmittedWasAcked(cfg, s.ledger, MerchantUrl(a.req));
      }
      DoKeepsPaid(cfg, s, a);
    }
  }

  /**
   Record `l` issued an invoice; `k` is a transaction that pays exactly the price to its hash, not consumed before;
   at `j` the node accepted that transaction; and `i` is a 202 with the URL's token that answers the payment, for
   merchant data equal to the URL.
   */
  predicate Chain(cfg: Config, ledger: seq<Record>, i: int, j: int, k: int, l: int, url: Bytes) {
    && 0 <= l < k < j < i < |ledger|
    && ledger[i].Acked? && ledger[i].merchantData == url
    && ledger[i].authorization == TokenHeader(cfg.hmac(cfg.secret, url))
    && ledger[k].Consumed? && ledger[k].hash == ledger[i].hash
    && PaysPrice(ledger[k].outs, ledger[k].hash) && !ConsumedBefore(ledger, k, ledger[k].hash)
    && ledger[j].Relayed? && ledger[j].hash == ledger[i].hash && cfg.decodeTx(ledger[j].tx) == Some(ledger[k].outs)
    && ledger[l] == Issued(ledger[k].hash)
  }

  /** Such a chain of records stands among the first `n`. */
  ghost predicate PaidFor(cfg: Config, ledger: seq<Record>, n: nat, url: Bytes) {
    exists i, j, k, l :: i < n && Chain(cfg, ledger, i, j, k, l, url)
  }

  lemma AckedIsPaid(cfg: Config, ledger: seq<Record>, i: nat)
    requires InOrder(cfg, ledger) && i < |ledger| && ledger[i].Acked?
    ensures PaidFor(cfg, ledger, i + 1, ledger[i].merchantData)
  {
    assert Justified(cfg, ledger, i);
    var j :| 0 <= j < i && ledger[j].Relayed? && ledger[j].hash == ledger[i].hash;
    assert Justified(cfg, ledger, j);
    var k :| 0 <= k < j && ledger[k].Consumed? && ledger[k].hash == ledger[j].hash
             && cfg.decodeTx(ledger[j].tx) == Some(ledger[k].outs);
    assert Justified(cfg, ledger, k);
    var l :| 0 <= l < k && ledger[l] == Issued(ledger[k].hash);
    assert Chain(cfg, ledger, i, j, k, l, ledger[i].merchantData);
  }

  /** Authorised writes: every PUT that reaches the store goes to a URL that had been paid for. */
  lemma AdmittedWritesWerePaid(cfg: Config, acts: seq<Action>, i: nat)
    requires InjectiveHmac(cfg) && FreshAddresses(cfg, acts) && Unforged(cfg, acts)
    requires var ledger := Run(cfg, acts).ledger; i < |ledger| && ledger[i].Admitted?
    ensures var ledger := Run(cfg, acts).ledger; PaidFor(cfg, ledger, i, ledger[i].url)
  {
    RunIsSound(cfg, acts);
    RunIsPaid(cfg, acts);
    var ledger := Run(cfg, acts).ledger;
    var a :| 0 <= a < i && ledger[a].Acked? && ledger[a].merchantData == ledger[i].url;
    AckedIsPaid(cfg, ledger, a);
    var i', j, k, l :| i' < a + 1 && Chain(cfg, ledger, i', j, k, l, ledger[i].url);
    assert i' < i;
  }

  /** A PUT that the middleware answers by forwarding it, at any point of any run, goes to a URL paid for by then. */
  lemma ForwardedPutWasPaid(cfg: Config, acts: seq<Action>, n: nat)
    requires InjectiveHmac(cfg) && FreshAddresses(cfg, acts) && Unforged(cfg, acts)
    requires n < |acts| && acts[n].Visit? && acts[n].req.isPut
    requires Respond(cfg, acts[n].req, acts[n].node, acts[n].time) == Forward
    ensures var ledger := Run(cfg, acts[..n]).ledger;
            PaidFor(cfg, ledger, |ledger|, MerchantUrl(acts[n].req))
  {
    var a, ledger := acts[n], Run(cfg, acts[..n]).ledger;
    PremisesOfPrefix(cfg, acts, n);
    RunIsSound(cfg, acts[..n]);
    PassingCarriesToken(cfg, a.req, a.node, a.time);
    assert HandedOut(cfg, ledger, cfg.hmac(cfg.secret, MerchantUrl(a.req)));
    AdmittedWasAcked(cfg, ledger, MerchantUrl(a.req));
    var i :| 0 <= i < |ledger| && ledger[i].Acked? && ledger[i].merchantData == MerchantUrl(a.req);
    AckedIsPaid(cfg, ledger, i);
    var i', j, k, l :| i' < i + 1 && Chain(cfg, ledger, i', j, k, l, MerchantUrl(a.req));
    assert i' < |ledger|;
  }

  // ---- Conservation ----

  function CountIssued(ledger: seq<Record>): nat {
    if ledger == [] then 0
    else CountIssued(ledger[..|ledger| - 1]) + if ledger[|ledger| - 1].Issued? then 1 else 0
  }

  function CountConsumed(ledger: seq<Record>): nat {
    if ledger == [] then 0
    else CountConsumed(ledger[..|ledger| - 1]) + if ledger[|ledger| - 1].Consumed? then 1 else 0
  }

  function CountAcked(ledger: seq<Record>): nat {
    if ledger == [] then 0
    else CountAcked(ledger[..|ledger| - 1]) + if ledger[|ledger| - 1].Acked? then 1 else 0
  }

  lemma CountsAppend(ledger: seq<Record>, r: Record)
    ensures CountIssued(ledger + [r]) == CountIssued(ledger) + if r.Issued? then 1 else 0
    ensures CountConsumed(ledger + [r]) == CountConsumed(ledger) + if r.Consumed? then 1 else 0
    ensures CountAcked(ledger + [r]) == CountAcked(ledger) + if r.Acked? then 1 else 0
  {
    assert (ledger + [r])[..|ledger|] == ledger;
  }

  predicate Counted(s: State) {
    && CountIssued(s.ledger) == |s.wallet| + CountConsumed(s.ledger)
    && CountAcked(s.ledger) + |s.pending| <= CountConsumed(s.ledger)
  }

  lemma ConsumeCounts(s: State, id: nat, p: Pending, outs: seq<TxOut>)
    requires Counted(s) && id !in s.pending && p.hash in s.wallet
    ensures Counted(Logged(s.(wallet := s.wallet - {p.hash}, pending := s.pending[id := p]), Consumed(p.hash, outs)))
  {
    assert |s.wallet - {p.hash}| == |s.wallet| - 1;
    CountsAppend(s.ledger, Consumed(p.hash, outs));
  }

  lemma SettleCounts(s: State, id: nat, r: Record)
    requires Counted(s) && id in s.pending && r.Acked?
    ensures var s' := s.(pending := s.pending - {id});
            Counted(s') && Counted(Logged(s', r))
  {
    var pending := s.pending - {id};
    assert pending.Keys == s.pending.Keys - {id};
    assert |pending| == |s.pending| - 1;
    CountsAppend(s.ledger, r);
  }

  lemma PayCounts(cfg: Config, s: State, id: nat, post: Post)
    requires Counted(s)
    ensures Counted(Do(cfg, s, Pay(id, post)))
  {
    if id !in s.pending && ScreenPayment(cfg, post).Ok? {
      var (payment, outs) := ScreenPayment(cfg, post).value;
      var hash := Consumes(s.wallet, outs);
      if hash.Some? {
        ConsumesFirst(s.wallet, outs);
        ConsumeCounts(s, id, Pending(hash.value, payment.transactions[0], payment), outs);
      }
    }
  }

  lemma SentCounts(cfg: Config, s: State, id: nat, accepted: bool)
    requires Counted(s)
    ensures Counted(Do(cfg, s, Sent(id, accepted)))
  {
    if id in s.pending {
      var p := s.pending[id];
      var heard := if accepted then Logged(s, Relayed(p.hash, p.tx)) else s;
      CountsAppend(s.ledger, Relayed(p.hash, p.tx));
      SettleCounts(heard, id, Acked([], [], []));
      match Settle(cfg, p.payment, accepted)
      case Accepted(_, authorization, _) =>
        SettleCounts(heard, id, Acked(p.hash, p.payment.merchantData.value, authorization));
      case _ =>
    }
  }

  lemma DoKeepsCounts(cfg: Config, s: State, a: Action)
    requires Counted(s)
    requires a.Visit? && Issues(cfg, a.req, a.node).Some? ==> Issues(cfg, a.req, a.node).value !in s.wallet
    ensures Counted(Do(cfg, s, a))
  {
    match a {
      case Visit(req, node, _) =>
        if Issues(cfg, req, node).Some? {
          CountsAppend(s.ledger, Issued(Issues(cfg, req, node).value));
        } else {
          CountsAppend(s.ledger, Admitted(MerchantUrl(req)));
        }
      case Pay(id, post) => PayCounts(cfg, s, id, post);
      case Sent(id, accepted) => SentCounts(cfg, s, id, accepted);
    }
  }

  /**
   Conservation: after any run the addresses issued are exactly those outstanding and those consumed, none is both,
   none is consumed twice, and acknowledgements never outnumber consumed addresses, whichever payments failed
   after their address was consumed.
   */
  lemma {:induction false} InvoicesAreConserved(cfg: Config, acts: seq<Action>)
    requires FreshAddresses(cfg, acts)
    ensures var s := Run(cfg, acts);
            var n := |s.ledger|;
            && (forall h :: IssuedBefore(s.ledger, n, h) <==> h in s.wallet || ConsumedBefore(s.ledger, n, h))
            && (forall h :: !(h in s.wallet && ConsumedBefore(s.ledger, n, h)))
            && (forall i, j :: 0 <= i < j < n && s.ledger[i].Consumed? && s.ledger[j].Consumed? ==>
                  s.ledger[i].hash != s.ledger[j].hash)
            && CountIssued(s.ledger) == |s.wallet| + CountConsumed(s.ledger)
            && CountAcked(s.ledger) + |s.pending| <= CountConsumed(s.ledger)
    decreases |acts|
  {
    RunIsSound(cfg, acts);
    var s := Run(cfg, acts);
    forall h | ConsumedBefore(s.ledger, |s.ledger|, h) ensures IssuedBefore(s.ledger, |s.ledger|, h) {
      ConsumedWasIssued(cfg, s.ledger, h);
    }
    forall i, j | 0 <= i < j < |s.ledger| && s.ledger[i].Consumed? && s.ledger[j].Consumed?
      ensures s.ledger[i].hash != s.ledger[j].hash
    {
      assert Justified(cfg, s.ledger, j);
    }
    if acts != [] {
      var n := |acts| - 1;
      PremisesOfPrefix(cfg, acts, n);
      RunIsSound(cfg, acts[..n]);
      InvoicesAreConserved(cfg, acts[..n]);
      DoKeepsCounts(cfg, Run(cfg, acts[..n]), acts[n]);
    }
  }
}
