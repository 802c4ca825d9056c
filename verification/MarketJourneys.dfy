/** The smooth life of a deal inside a market of other deals: it completes there too, and the chain shows its payout. */
module MarketJourneys {
  import opened DoOnce
  import opened Decimal
  import opened Deals
  import opened DealLife
  import opened DealJourneys
  import opened Market
  import opened SmoothRuns

  /** The moments of deal `id` as inputs of the market. */
  function Lifted(id: int, run: seq<Moment>): seq<Input>
    decreases |run|
  {
    if run == [] then []
    else [match run[0] case Wait(dt) => Input.Wait(dt) case At(e) => On(id, e)] + Lifted(id, run[1..])
  }

  lemma {:induction false} MarketConcat(cfg: Config, m: MarketState, a: seq<Input>, b: seq<Input>)
    ensures Market.Run(cfg, m, a + b) == Market.Run(cfg, Market.Run(cfg, m, a), b)
    ensures Market.RunFaults(cfg, m, a + b) ==
            Market.RunFaults(cfg, m, a) + Market.RunFaults(cfg, Market.Run(cfg, m, a), b)
    decreases |a|
  {
    if a == [] {
      assert a + b == b;
    } else {
      assert (a + b)[0] == a[0] && (a + b)[1..] == a[1..] + b;
      MarketConcat(cfg, Market.Next(cfg, m, a[0]), a[1..], b);
    }
  }

  /** The market has deal `id` as it is at `t`. */
  predicate Holds(m: MarketState, id: int, t: Timed) {
    id in m.cells && m.cells[id] == t.cell && m.now == t.now
  }

  /** What one deal's inputs leave alone. */
  predicate OthersSame(m: MarketState, m': MarketState, id: int) {
    && m'.cells.Keys == m.cells.Keys
    && forall other :: other in m.cells && other != id ==> m'.cells[other] == m.cells[other]
  }

  lemma LiftMoment(cfg: Config, m: MarketState, id: int, t: Timed, moment: Moment, i: Input)
    requires Holds(m, id, t) && Calm(moment) && MomentFaults(cfg, t, moment) == {}
    requires i == match moment case Wait(dt) => Input.Wait(dt) case At(e) => On(id, e)
    ensures var m' := Market.Next(cfg, m, i);
      Holds(m', id, DealLife.Next(cfg, t, moment)) && OthersSame(m, m', id) && m'.owners == m.owners
    ensures InputFaults(cfg, m, i) == {} && SoloInput(0, i)
  {
  }

  lemma {:induction false} LiftRun(cfg: Config, m: MarketState, id: int, t: Timed, run: seq<Moment>)
    requires Holds(m, id, t) && SmoothRun(cfg, t, run)
    ensures var m' := Market.Run(cfg, m, Lifted(id, run));
      && Holds(m', id, DealLife.Run(cfg, t, run)) && OthersSame(m, m', id) && m'.owners == m.owners
    ensures Market.RunFaults(cfg, m, Lifted(id, run)) == {} && Market.SoloRun(0, Lifted(id, run))
    decreases |run|
  {
    if run != [] {
      var i := Lifted(id, run)[0];
      assert Lifted(id, run)[1..] == Lifted(id, run[1..]);
      assert Calm(run[0]);
      assert forall k :: 0 <= k < |run[1..]| ==> run[1..][k] == run[k + 1];
      LiftMoment(cfg, m, id, t, run[0], i);
      LiftRun(cfg, Market.Next(cfg, m, i), id, DealLife.Next(cfg, t, run[0]), run[1..]);
    }
  }

  /** A run of the deployed market without faults. */
  predicate Faultless(cfg: Config, m: MarketState, run: seq<Input>) {
    Market.RunFaults(cfg, m, run) == {} && Market.SoloRun(0, run)
  }

  lemma FaultlessConcat(cfg: Config, m: MarketState, a: seq<Input>, b: seq<Input>)
    requires Faultless(cfg, m, a) && Faultless(cfg, Market.Run(cfg, m, a), b)
    ensures Faultless(cfg, m, a + b) && Market.Run(cfg, m, a + b) == Market.Run(cfg, Market.Run(cfg, m, a), b)
  {
    MarketConcat(cfg, m, a, b);
  }

  lemma LiftSmooth(cfg: Config, m: MarketState, id: int, t: Timed, u: Timed) returns (run: seq<Input>)
    requires Holds(m, id, t) && Smooth(cfg, t, u)
    ensures Faultless(cfg, m, run)
    ensures var m' := Market.Run(cfg, m, run); Holds(m', id, u) && OthersSame(m, m', id) && m'.owners == m.owners
  {
    var r :| SmoothRun(cfg, t, r) && DealLife.Run(cfg, t, r) == u;
    LiftRun(cfg, m, id, t, r);
    run := Lifted(id, r);
  }

  lemma OneInput(cfg: Config, m: MarketState, i: Input)
    ensures Market.Run(cfg, m, [i]) == Market.Next(cfg, m, i) && Market.RunFaults(cfg, m, [i]) == InputFaults(cfg, m, i)
  {
    var rest := [i][1..];
    assert rest == [];
    assert Market.Run(cfg, m, [i]) == Market.Run(cfg, Market.Next(cfg, m, i), rest);
    assert Market.RunFaults(cfg, m, [i]) ==
           InputFaults(cfg, m, i) + Market.RunFaults(cfg, Market.Next(cfg, m, i), rest);
  }

  lemma LiftLife(cfg: Config, m: MarketState, id: int, t: Timed, seed: int, u: Timed) returns (run: seq<Input>)
    requires Holds(m, id, t) && SmoothLife(cfg, t, seed, u) && seed !in m.owners
    ensures Faultless(cfg, m, run)
    ensures Holds(Market.Run(cfg, m, run), id, u) && OthersSame(m, Market.Run(cfg, m, run), id)
  {
    var made := At(OnEscrow(CreatorRead(seed)));
    var v :| Smooth(cfg, t, v) && Smooth(cfg, DealLife.Next(cfg, v, made), u);
    var a := LiftSmooth(cfg, m, id, t, v);
    var m1 := Market.Run(cfg, m, a);
    var i := On(id, OnEscrow(CreatorRead(seed)));
    OneInput(cfg, m1, i);
    var m2 := Market.Next(cfg, m1, i);
    var b := LiftSmooth(cfg, m2, id, DealLife.Next(cfg, v, made), u);
    FaultlessConcat(cfg, m1, [i], b);
    FaultlessConcat(cfg, m, a, [i] + b);
    run := a + ([i] + b);
  }

  lemma ChainIsWallet(cfg: Config, m: MarketState, id: int)
    requires MarketInv(cfg, m) && id in m.cells && m.cells[id].deal.escrowAddress.Some?
    ensures Outgoing(m.chain, m.cells[id].deal.escrowAddress.value) == m.cells[id].wallet
  {
    var w := m.cells[id].deal.escrowAddress.value;
    assert OwnsSeeds(m, id) && DealPayouts.SafeInv(cfg, m.now, m.cells[id]);
    assert Outgoing(m.chain, Wallet(w.seed)) == PayoutsOf(m, w.seed);
  }

  lemma HeldOnChain(cfg: Config, m: MarketState, id: int, u: Timed, seed: int)
    requires MarketInv(cfg, m) && Holds(m, id, u) && Escrowed(u.cell, seed)
    ensures Outgoing(m.chain, Wallet(seed)) == u.cell.wallet
  {
    ChainIsWallet(cfg, m, id);
  }

  /** Every deal that was there is as it was. */
  predicate Untouched(m: MarketState, m': MarketState) {
    forall id :: id in m.cells ==> id in m'.cells && m'.cells[id] == m.cells[id]
  }

  lemma CreatedAndLived(cfg: Config, m: MarketState, id: int, x: Sides, terms: Terms, channel: int, seed: int, u: Timed)
    returns (run: seq<Input>)
    requires id !in m.cells && seed !in m.owners
    requires SmoothLife(cfg, Start(cfg, m.now, x, terms, Some(channel)), seed, u)
    ensures Faultless(cfg, m, run) && Holds(Market.Run(cfg, m, run), id, u)
    ensures Untouched(m, Market.Run(cfg, m, run))
  {
    var create := Create(id, x.lessor, x.lessee, terms, Some(channel));
    OneInput(cfg, m, create);
    var life := LiftLife(cfg, Market.Next(cfg, m, create), id, Start(cfg, m.now, x, terms, Some(channel)), seed, u);
    FaultlessConcat(cfg, m, [create], life);
    run := [create] + life;
  }

  /**
   Whatever a fault-free market has come to, a new deal that can be signed, on a listing with a channel and with payout
   addresses that parse, can still be created and completed in it without a fault, by the workers of the deployment; no
   other deal changes, and the chain shows exactly the agreed transfer out of the new escrow wallet.
   */
  lemma NewDealCompletes(cfg: Config, m: MarketState, id: int, x: Sides, terms: Terms, channel: int, seed: int,
                         live: bool) returns (run: seq<Input>)
    requires MarketInv(cfg, m) && id !in m.cells && seed !in m.owners
    requires CanSign(x, terms) && cfg.parses(if live then x.lessorPayout else x.lesseePayout)
    ensures Faultless(cfg, m, run)
    ensures var m' := Market.Run(cfg, m, run);
      && id in m'.cells && m'.cells[id].deal.status == DealStatus.Completed
      && Outgoing(m'.chain, Wallet(seed)) == [Settlement(cfg, x, terms, seed, live)]
      && Untouched(m, m')
  {
    var u := Completes(cfg, m.now, x, terms, channel, seed, live);
    run := CreatedAndLived(cfg, m, id, x, terms, channel, seed, u);
    MarketRun(cfg, m, run);
    HeldOnChain(cfg, Market.Run(cfg, m, run), id, u, seed);
  }
}
