/** Any number of servers that charge for writes, store what was paid for, and pull from each other. */
module WholeSystem {
  import opened Prelude
  import opened Messages
  import opened Codecs
  import opened Handlers
  import Cluster
  import Payments
  import PaymentRuns

  /** A PUT meets the middleware of its server first; the rest concerns the stores or one server's payments alone. */
  datatype Event =
    | Put(server: nat, tid: nat, req: Payments.Request, node: Payments.NodeReply, time: Payments.Seconds,
          chunks: seq<Option<Bytes>>)
    | Shop(server: nat, action: PaymentRuns.Action)
    | Net(step: Cluster.Action)

  type Configs = nat -> Payments.Config

  /** What the stores and the handlers behind the middleware see of an event: of PUTs, only the admitted. */
  function BehindTheTill(cfgs: Configs, ev: Event): (r: seq<Cluster.Action>)
    ensures |r| <= 1
  {
    match ev
    case Put(server, tid, req, node, time, chunks) =>
      if PaymentRuns.LetsPutPass(cfgs(server), req, node, time) then [Cluster.ArrivePut(tid, server, req.addr, chunks)] else []
    case Shop(_, _) => []
    case Net(step) => if step.ArrivePut? then [] else [step]
  }

  /** What one server's payment side sees of an event. */
  function AtTheTill(ev: Event, server: nat): (r: seq<PaymentRuns.Action>)
    ensures |r| <= 1
  {
    match ev
    case Put(server', _, req, node, time, _) => if server' == server then [PaymentRuns.Visit(req, node, time)] else []
    case Shop(server', action) => if server' == server then [action] else []
    case Net(_) => []
  }

  function StoreView(cfgs: Configs, evs: seq<Event>): seq<Cluster.Action> {
    if evs == [] then []
    else StoreView(cfgs, evs[..|evs| - 1]) + BehindTheTill(cfgs, evs[|evs| - 1])
  }

  function TillView(evs: seq<Event>, server: nat): seq<PaymentRuns.Action> {
    if evs == [] then []
    else TillView(evs[..|evs| - 1], server) + AtTheTill(evs[|evs| - 1], server)
  }

  /** Event `n` is an admitted PUT, seen behind the middleware as `a`. */
  predicate AdmittedAs(cfgs: Configs, evs: seq<Event>, n: nat, a: Cluster.Action) {
    n < |evs| && evs[n].Put? && BehindTheTill(cfgs, evs[n]) == [a]
  }

  lemma {:induction false} PutsWereAdmitted(cfgs: Configs, evs: seq<Event>, i: nat) returns (n: nat)
    requires i < |StoreView(cfgs, evs)| && StoreView(cfgs, evs)[i].ArrivePut?
    ensures AdmittedAs(cfgs, evs, n, StoreView(cfgs, evs)[i])
    decreases |evs|
  {
    n := |evs| - 1;
    if i < |StoreView(cfgs, evs[..n])| {
      n := PutsWereAdmitted(cfgs, evs[..n], i);
    }
  }

  lemma {:induction false} TillViewOfPrefix(evs: seq<Event>, server: nat, n: nat)
    requires n <= |evs|
    ensures TillView(evs[..n], server) <= TillView(evs, server)
    decreases |evs|
  {
    if n < |evs| {
      TillViewOfPrefix(evs[..|evs| - 1], server, n);
      assert evs[..|evs| - 1][..n] == evs[..n];
    } else {
      assert evs[..n] == evs;
    }
  }

  /** One server's customers: fresh addresses, distinct codes, and no forged token. */
  ghost predicate Trading(cfg: Payments.Config, acts: seq<PaymentRuns.Action>) {
    PaymentRuns.InjectiveHmac(cfg) && PaymentRuns.FreshAddresses(cfg, acts) && PaymentRuns.Unforged(cfg, acts)
  }

  /** The ledger a server has written by event `n`. */
  function Ledger(cfgs: Configs, evs: seq<Event>, server: nat, n: nat): seq<PaymentRuns.Record>
    requires n <= |evs|
  {
    PaymentRuns.Run(cfgs(server), TillView(evs[..n], server)).ledger
  }

  lemma AdmittedPutWasPaid(cfgs: Configs, evs: seq<Event>, n: nat)
    requires n < |evs| && evs[n].Put?
    requires PaymentRuns.LetsPutPass(cfgs(evs[n].server), evs[n].req, evs[n].node, evs[n].time)
    requires Trading(cfgs(evs[n].server), TillView(evs, evs[n].server))
    ensures var ledger := Ledger(cfgs, evs, evs[n].server, n);
            PaymentRuns.PaidFor(cfgs(evs[n].server), ledger, |ledger|, Payments.MerchantUrl(evs[n].req))
  {
    var server := evs[n].server;
    var acts, k := TillView(evs, server), |TillView(evs[..n], server)|;
    assert evs[..n + 1][..n] == evs[..n];
    TillViewOfPrefix(evs, server, n + 1);
    assert acts[..k] == TillView(evs[..n], server) && acts[k] == PaymentRuns.Visit(evs[n].req, evs[n].node, evs[n].time);
    PaymentRuns.ForwardedPutWasPaid(cfgs(server), acts, k);
  }

  /**
   Nothing is stored for free: when peers answer only with what they store, every record stored at any server, however
   it got there, was brought by a PUT for its address that some server admitted, to a URL for which that server had
   by then issued an invoice, received the price, and answered with the token.
   */
  lemma StoredRecordsWerePaidFor(
    env: Env, clock: int, cfgs: Configs, evs: seq<Event>, server: nat, body: Bytes)
    requires Lawful(env.codec) && Cluster.HonestRun(StoreView(cfgs, evs))
    requires forall id: nat :: Trading(cfgs(id), TillView(evs, id))
    requires body in Cluster.Store(Cluster.Run(env, clock, StoreView(cfgs, evs)), server)
    ensures var stored := env.codec.decode(Cluster.Store(Cluster.Run(env, clock, StoreView(cfgs, evs)), server)[body]);
            exists n, cand ::
              && 0 <= n < |evs| && evs[n].Put?
              && ScreenPut(env, evs[n].req.addr, evs[n].chunks) == Ok(cand)
              && cand.body == body && stored == Some(cand.metadata)
              && var ledger := Ledger(cfgs, evs, evs[n].server, n);
                 PaymentRuns.PaidFor(cfgs(evs[n].server), ledger, |ledger|, Payments.MerchantUrl(evs[n].req))
  {
    var acts := StoreView(cfgs, evs);
    var raw := Cluster.Store(Cluster.Run(env, clock, acts), server)[body];
    Cluster.StoredRecordsCameFromClients(env, clock, acts, server, body);
    var i, j, cand :| && 0 <= i < j < |acts| && Cluster.SubmittedAt(env, acts, i, cand)
                      && Cluster.WrittenAt(env, clock, acts, j, cand) && cand.body == body
                      && cand.metadata == env.codec.decode(raw).value;
    var n := PutsWereAdmitted(cfgs, evs, i);
    AdmittedPutWasPaid(cfgs, evs, n);
  }
}
