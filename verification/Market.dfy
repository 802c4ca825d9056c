/**
 All deals together, with one clock and one blockchain.  Deals touch each other only through the chain: this
 module shows that wallets never mix, and states the guarantees on the chain itself, for every run from an
 empty market.
 */
module Market {
  import opened DoOnce
  import opened Decimal
  import opened Deals
  import opened DealLife
  import opened DealInvariant
  import opened DealPayouts
  import opened DealSolo
  import Money

  /** `chain`: every outgoing transfer, oldest first.  `owners`: the deals for which seeds have been generated. */
  datatype MarketState = MarketState(now: int, cells: map<int, Cell>, chain: seq<Effect>, owners: map<int, int>)

  datatype Input =
    | Wait(dt: nat)
    | Create(id: int, lessor: int, lessee: int, terms: Terms, listingChannel: Option<int>)
    | On(id: int, e: CellEvent)

  datatype MarketFault = Protocol(f: Fault) | SeedReused

  /** The transfers that a step has appended to the wallet of a deal. */
  function NewTransfers(c: Cell, c': Cell): seq<Effect> {
    if |c.wallet| <= |c'.wallet| then c'.wallet[|c.wallet|..] else []
  }

  predicate NewSeed(e: CellEvent) {
    e.OnEscrow? && e.x.CreatorRead?
  }

  function Next(cfg: Config, m: MarketState, i: Input): MarketState {
    match i
    case Wait(dt) => m.(now := m.now + dt)
    case Create(id, lessor, lessee, terms, listingChannel) =>
      if id in m.cells then m else m.(cells := m.cells[id := NewCell(cfg, lessor, lessee, terms, listingChannel)])
    case On(id, e) =>
      if id !in m.cells then m
      else
        var c' := CellStep(cfg, m.now, m.cells[id], e);
        m.(cells := m.cells[id := c'],
           chain := m.chain + NewTransfers(m.cells[id], c'),
           owners := if NewSeed(e) && c'.creator != m.cells[id].creator then m.owners[e.x.seed := id] else m.owners)
  }

  /** The cell faults of a step, and a seed phrase that was generated before. */
  function InputFaults(cfg: Config, m: MarketState, i: Input): set<MarketFault> {
    if i.On? && i.id in m.cells then
      (set f | f in CellFaults(cfg, m.now, m.cells[i.id], i.e) :: Protocol(f))
      + (if NewSeed(i.e) && i.e.x.seed in m.owners then {SeedReused} else {})
    else {}
  }

  function Run(cfg: Config, m: MarketState, run: seq<Input>): MarketState
    decreases |run|
  {
    if run == [] then m else Run(cfg, Next(cfg, m, run[0]), run[1..])
  }

  function RunFaults(cfg: Config, m: MarketState, run: seq<Input>): set<MarketFault>
    decreases |run|
  {
    if run == [] then {} else InputFaults(cfg, m, run[0]) + RunFaults(cfg, Next(cfg, m, run[0]), run[1..])
  }

  function Empty(): MarketState {
    MarketState(0, map[], [], map[])
  }

  /** What the chain shows of a wallet. */
  function Outgoing(chain: seq<Effect>, w: Wallet): seq<Effect> {
    if chain == [] then []
    else
      var last := chain[|chain| - 1];
      Outgoing(chain[..|chain| - 1], w) + (if last.Transfer? && last.from == w then [last] else [])
  }

  // ----- invariant -----

  /** Every seed in use was generated for the deal that uses it. */
  predicate OwnsSeeds(m: MarketState, id: int)
    requires id in m.cells
  {
    var c := m.cells[id];
    && (!c.creator.Resting? ==> c.creator.seed in m.owners && m.owners[c.creator.seed] == id)
    && (c.vault.Some? ==> c.vault.value in m.owners && m.owners[c.vault.value] == id)
  }

  /** The payouts of the deal to which a seed belongs, if that seed became its escrow wallet. */
  function PayoutsOf(m: MarketState, seed: int): seq<Effect> {
    if seed in m.owners && m.owners[seed] in m.cells
       && m.cells[m.owners[seed]].deal.escrowAddress == Some(Wallet(seed))
    then m.cells[m.owners[seed]].wallet else []
  }

  /** Every seed belongs to its deal, and the chain shows of each wallet what its deal has paid. */
  ghost predicate Tied(m: MarketState) {
    && (forall id :: id in m.cells ==> OwnsSeeds(m, id))
    && (forall seed :: Outgoing(m.chain, Wallet(seed)) == PayoutsOf(m, seed))
  }

  ghost predicate MarketInv(cfg: Config, m: MarketState) {
    (forall id :: id in m.cells ==> SafeInv(cfg, m.now, m.cells[id])) && Tied(m)
  }

  lemma EmptyInv(cfg: Config)
    ensures MarketInv(cfg, Empty())
  {
  }

  lemma OutgoingAppend(chain: seq<Effect>, t: Effect, w: Wallet)
    ensures Outgoing(chain + [t], w) == Outgoing(chain, w) + (if t.Transfer? && t.from == w then [t] else [])
  {
    assert (chain + [t])[..|chain|] == chain;
  }

  // ----- what a step changes of one deal -----

  /** Where the seeds of a deal come from. */
  predicate SeedsFrom(e: CellEvent, c: Cell, c': Cell) {
    && (c'.creator.Resting? || (!c.creator.Resting? && c'.creator.seed == c.creator.seed)
        || (NewSeed(e) && c'.creator != c.creator && c'.creator.seed == e.x.seed))
    && (c'.vault == c.vault || (!c.creator.Resting? && c'.vault == Some(c.creator.seed)))
    && (NewSeed(e) && c'.creator != c.creator ==>
          c'.deal == c.deal && c.deal.escrowAddress.None? && c'.vault == c.vault)
    && (c'.deal.escrowAddress != c.deal.escrowAddress ==> c.deal.status == Approved)
  }

  /** Either the wallet stays as it is, or it makes its only transfer, out of the address whose seed is in the vault. */
  predicate WalletFrom(e: CellEvent, c: Cell, c': Cell) {
    || c'.wallet == c.wallet
    || (&& c.wallet == [] && |c'.wallet| == 1 && c'.wallet[0].Transfer? && !NewSeed(e)
        && c'.deal.escrowAddress == c.deal.escrowAddress == Some(c'.wallet[0].from)
        && c.vault == Some(c'.wallet[0].from.seed))
  }

  predicate CellMoves(e: CellEvent, c: Cell, c': Cell) {
    SeedsFrom(e, c, c') && WalletFrom(e, c, c') && (c.deal.status == Approved ==> c.wallet == [])
  }

  lemma EscrowSeeds(c: Cell, x: EscrowEvent)
    requires Seeded(c)
    ensures SeedsFrom(OnEscrow(x), c, EscrowStep(c, x))
  {
  }

  lemma SeedsStep(cfg: Config, now: int, c: Cell, e: CellEvent)
    requires Seeded(c)
    ensures SeedsFrom(e, c, CellStep(cfg, now, c, e))
  {
    if e.OnEscrow? {
      EscrowSeeds(c, e.x);
    }
  }

  lemma WalletGrows(cfg: Config, now: int, c: Cell, e: CellEvent)
    ensures |CellStep(cfg, now, c, e).wallet| >= |c.wallet| && c.wallet <= CellStep(cfg, now, c, e).wallet
  {
  }

  /** A step that pays is a step of the payout protocol, and leaves the escrow address and the seeds alone. */
  lemma PayingStep(cfg: Config, now: int, c: Cell, e: CellEvent)
    requires CellStep(cfg, now, c, e).wallet != c.wallet
    ensures e.PayStep? && CellStep(cfg, now, c, e).deal.escrowAddress == c.deal.escrowAddress
    ensures CellStep(cfg, now, c, e).vault == c.vault
  {
  }

  lemma WalletShape(cfg: Config, now: int, c: Cell)
    requires SafeInv(cfg, now, c)
    ensures PaidRight(cfg, c) && (c.deal.status == Approved ==> c.wallet == [])
  {
    InvPaidRight(cfg, now, c);
  }

  /** A sound step adds at most the one agreed transfer to the wallet of its deal. */
  lemma WalletStep(cfg: Config, now: int, c: Cell, e: CellEvent)
    requires SafeInv(cfg, now, c) && Sound(cfg, now, c, ProtocolOf(cfg, now, c, e))
    ensures WalletFrom(e, c, CellStep(cfg, now, c, e))
  {
    var c' := CellStep(cfg, now, c, e);
    SoundStep(cfg, now, c, e);
    WalletShape(cfg, now, c');
    WalletGrows(cfg, now, c, e);
    if c'.wallet != c.wallet {
      PayingStep(cfg, now, c, e);
    }
  }

  lemma CellMovesStep(cfg: Config, now: int, c: Cell, e: CellEvent)
    requires SafeInv(cfg, now, c) && Sound(cfg, now, c, ProtocolOf(cfg, now, c, e))
    ensures CellMoves(e, c, CellStep(cfg, now, c, e))
  {
    SeedsStep(cfg, now, c, e);
    WalletStep(cfg, now, c, e);
    WalletShape(cfg, now, c);
  }

  // ----- what that means for the market -----

  predicate Moves(m: MarketState, m': MarketState, id: int, e: CellEvent) {
    && id in m.cells && id in m'.cells && m'.cells == m.cells[id := m'.cells[id]]
    && m'.chain == m.chain + NewTransfers(m.cells[id], m'.cells[id])
    && m'.owners == (if NewSeed(e) && m'.cells[id].creator != m.cells[id].creator then m.owners[e.x.seed := id]
                     else m.owners)
    && (NewSeed(e) ==> e.x.seed !in m.owners)
    && CellMoves(e, m.cells[id], m'.cells[id])
  }

  lemma OwnsMoved(m: MarketState, m': MarketState, id: int, e: CellEvent, other: int)
    requires Moves(m, m', id, e) && other in m.cells && OwnsSeeds(m, other) && OwnsSeeds(m, id)
    ensures OwnsSeeds(m', other)
  {
  }

  lemma PayoutsFramed(m: MarketState, m': MarketState, id: int, e: CellEvent, seed: int)
    requires Moves(m, m', id, e) && m'.cells[id].wallet == m.cells[id].wallet
    ensures PayoutsOf(m', seed) == PayoutsOf(m, seed) && m'.chain == m.chain
  {
  }

  /** The wallet that a deal has paid out of. */
  lemma PayoutsMoved(m: MarketState, m': MarketState, id: int, e: CellEvent, seed: int)
    requires Moves(m, m', id, e) && OwnsSeeds(m, id) && m'.cells[id].wallet != m.cells[id].wallet
    ensures var t := m'.cells[id].wallet[0];
      PayoutsOf(m', seed) == if t.from == Wallet(seed) then [t] else PayoutsOf(m, seed)
    ensures m'.cells[id].wallet[0].from == Wallet(seed) ==> PayoutsOf(m, seed) == []
  {
  }

  lemma ChainMoved(m: MarketState, m': MarketState, id: int, e: CellEvent)
    requires Moves(m, m', id, e) && m'.cells[id].wallet != m.cells[id].wallet
    ensures m'.chain == m.chain + [m'.cells[id].wallet[0]] && m'.cells[id].wallet[0].Transfer?
  {
  }

  /** A payout shows up under the seed of its deal and under no other. */
  lemma PayoutMoved(m: MarketState, m': MarketState, id: int, e: CellEvent, seed: int)
    requires Moves(m, m', id, e) && OwnsSeeds(m, id) && m'.cells[id].wallet != m.cells[id].wallet
    requires Outgoing(m.chain, Wallet(seed)) == PayoutsOf(m, seed)
    ensures Outgoing(m'.chain, Wallet(seed)) == PayoutsOf(m', seed)
  {
    PayoutsMoved(m, m', id, e, seed);
    ChainMoved(m, m', id, e);
    OutgoingAppend(m.chain, m'.cells[id].wallet[0], Wallet(seed));
  }

  lemma TiedMoved(m: MarketState, m': MarketState, id: int, e: CellEvent)
    requires Tied(m) && Moves(m, m', id, e)
    ensures Tied(m')
  {
    forall other | other in m'.cells
      ensures OwnsSeeds(m', other)
    {
      OwnsMoved(m, m', id, e, other);
    }
    forall seed
      ensures Outgoing(m'.chain, Wallet(seed)) == PayoutsOf(m', seed)
    {
      assert Outgoing(m.chain, Wallet(seed)) == PayoutsOf(m, seed);
      if m'.cells[id].wallet == m.cells[id].wallet {
        PayoutsFramed(m, m', id, e, seed);
      } else {
        PayoutMoved(m, m', id, e, seed);
      }
    }
  }

  /** The step is sound for the protocol of its deal, and a new seed is new. */
  ghost predicate SoundInput(cfg: Config, m: MarketState, i: Input) {
    i.On? && i.id in m.cells ==>
      && Sound(cfg, m.now, m.cells[i.id], ProtocolOf(cfg, m.now, m.cells[i.id], i.e))
      && (NewSeed(i.e) ==> i.e.x.seed !in m.owners)
  }

  lemma SoundOn(cfg: Config, m: MarketState, id: int, e: CellEvent)
    requires MarketInv(cfg, m) && SoundInput(cfg, m, On(id, e)) && id in m.cells
    ensures var c' := CellStep(cfg, m.now, m.cells[id], e); SafeInv(cfg, m.now, c') && CellMoves(e, m.cells[id], c')
  {
    assert SafeInv(cfg, m.now, m.cells[id]);
    CellMovesStep(cfg, m.now, m.cells[id], e);
    SoundStep(cfg, m.now, m.cells[id], e);
  }

  lemma SafeWith(cfg: Config, m: MarketState, m': MarketState, id: int, e: CellEvent)
    requires MarketInv(cfg, m) && Moves(m, m', id, e) && m'.now == m.now && SafeInv(cfg, m.now, m'.cells[id])
    ensures MarketInv(cfg, m')
  {
    TiedMoved(m, m', id, e);
  }

  lemma OnStep(cfg: Config, m: MarketState, id: int, e: CellEvent)
    requires MarketInv(cfg, m) && SoundInput(cfg, m, On(id, e)) && id in m.cells
    ensures MarketInv(cfg, Next(cfg, m, On(id, e)))
  {
    SoundOn(cfg, m, id, e);
    SafeWith(cfg, m, Next(cfg, m, On(id, e)), id, e);
  }

  lemma WaitStep(cfg: Config, m: MarketState, dt: nat)
    requires MarketInv(cfg, m)
    ensures MarketInv(cfg, Next(cfg, m, Input.Wait(dt)))
  {
    var m' := Next(cfg, m, Input.Wait(dt));
    forall id | id in m.cells
      ensures SafeInv(cfg, m'.now, m'.cells[id])
    {
      TickSafe(cfg, m.now, m'.now, m.cells[id]);
    }
    forall seed
      ensures Outgoing(m'.chain, Wallet(seed)) == PayoutsOf(m', seed)
    {
      assert Outgoing(m.chain, Wallet(seed)) == PayoutsOf(m, seed);
    }
    assert forall id :: id in m.cells ==> OwnsSeeds(m, id);
  }

  lemma TiedCreate(cfg: Config, m: MarketState, i: Input)
    requires Tied(m) && i.Create? && i.id !in m.cells
    ensures Tied(Next(cfg, m, i))
  {
    var m' := Next(cfg, m, i);
    forall id | id in m'.cells
      ensures OwnsSeeds(m', id)
    {
      assert id != i.id ==> OwnsSeeds(m, id);
    }
    forall seed
      ensures Outgoing(m'.chain, Wallet(seed)) == PayoutsOf(m', seed)
    {
      assert Outgoing(m.chain, Wallet(seed)) == PayoutsOf(m, seed);
    }
  }

  /** A sound step on one deal keeps the invariant of all deals and of the chain. */
  lemma MarketStep(cfg: Config, m: MarketState, i: Input)
    requires MarketInv(cfg, m) && SoundInput(cfg, m, i)
    ensures MarketInv(cfg, Next(cfg, m, i))
  {
    match i
    case Wait(dt) => WaitStep(cfg, m, dt);
    case Create(id, lessor, lessee, terms, listingChannel) =>
      if id !in m.cells {
        NewCellSafe(cfg, m.now, lessor, lessee, terms, listingChannel);
        TiedCreate(cfg, m, i);
      }
    case On(id, e) =>
      if id in m.cells {
        OnStep(cfg, m, id, e);
      }
  }

  lemma FaultFreeInput(cfg: Config, m: MarketState, i: Input)
    requires MarketInv(cfg, m) && InputFaults(cfg, m, i) == {}
    ensures SoundInput(cfg, m, i)
  {
    if i.On? && i.id in m.cells {
      CellFaultsOf(cfg, m, i, {});
      assert SafeInv(cfg, m.now, m.cells[i.id]);
      FaultFreeIsSound(cfg, m.now, m.cells[i.id], i.e);
      assert SeedReused !in InputFaults(cfg, m, i);
    }
  }

  function Protocols(fs: set<Fault>): set<MarketFault> {
    set f | f in fs :: Protocol(f)
  }

  lemma CellFaultsOf(cfg: Config, m: MarketState, i: Input, tolerated: set<Fault>)
    requires i.On? && i.id in m.cells && InputFaults(cfg, m, i) <= Protocols(tolerated)
    ensures CellFaults(cfg, m.now, m.cells[i.id], i.e) <= tolerated
  {
    forall f | f in CellFaults(cfg, m.now, m.cells[i.id], i.e)
      ensures f in tolerated
    {
      assert Protocol(f) in InputFaults(cfg, m, i);
    }
  }

  lemma {:induction false} MarketRun(cfg: Config, m: MarketState, run: seq<Input>)
    requires MarketInv(cfg, m) && RunFaults(cfg, m, run) == {}
    ensures MarketInv(cfg, Run(cfg, m, run))
    decreases |run|
  {
    if run != [] {
      assert InputFaults(cfg, m, run[0]) <= RunFaults(cfg, m, run);
      assert RunFaults(cfg, Next(cfg, m, run[0]), run[1..]) <= RunFaults(cfg, m, run);
      FaultFreeInput(cfg, m, run[0]);
      MarketStep(cfg, m, run[0]);
      MarketRun(cfg, Next(cfg, m, run[0]), run[1..]);
    }
  }

  // ----- seeds alone -----

  /** What holds of the seeds whatever goes wrong with the protocols. */
  ghost predicate SeedsInv(cfg: Config, m: MarketState) {
    forall id :: id in m.cells ==> CellInv(cfg, m.now, m.cells[id]) && OwnsSeeds(m, id)
  }

  lemma SeedsOwned(m: MarketState, m': MarketState, id: int, e: CellEvent, other: int)
    requires id in m.cells && id in m'.cells && m'.cells == m.cells[id := m'.cells[id]]
    requires m'.owners == (if NewSeed(e) && m'.cells[id].creator != m.cells[id].creator then m.owners[e.x.seed := id]
                           else m.owners)
    requires (NewSeed(e) ==> e.x.seed !in m.owners) && SeedsFrom(e, m.cells[id], m'.cells[id])
    requires other in m.cells && OwnsSeeds(m, other) && OwnsSeeds(m, id)
    ensures OwnsSeeds(m', other)
  {
  }

  lemma SeedsOn(cfg: Config, m: MarketState, id: int, e: CellEvent)
    requires SeedsInv(cfg, m) && id in m.cells && (NewSeed(e) ==> e.x.seed !in m.owners)
    ensures SeedsInv(cfg, Next(cfg, m, On(id, e)))
  {
    var m' := Next(cfg, m, On(id, e));
    assert CellInv(cfg, m.now, m.cells[id]);
    CellStepInv(cfg, m.now, m.cells[id], e);
    SeedsStep(cfg, m.now, m.cells[id], e);
    forall other | other in m'.cells
      ensures OwnsSeeds(m', other)
    {
      SeedsOwned(m, m', id, e, other);
    }
  }

  lemma SeedsLater(cfg: Config, m: MarketState, dt: nat)
    requires SeedsInv(cfg, m)
    ensures SeedsInv(cfg, Next(cfg, m, Input.Wait(dt)))
  {
  }

  lemma SeedsCreate(cfg: Config, m: MarketState, i: Input)
    requires SeedsInv(cfg, m) && i.Create?
    ensures SeedsInv(cfg, Next(cfg, m, i))
  {
    if i.id !in m.cells {
      NewCellInv(cfg, m.now, i.lessor, i.lessee, i.terms, i.listingChannel);
    }
  }

  /** Seeds belong to their deals in every run in which none is generated twice, whatever else goes wrong. */
  lemma {:induction false} SeedsRun(cfg: Config, m: MarketState, run: seq<Input>)
    requires SeedsInv(cfg, m) && SeedReused !in RunFaults(cfg, m, run)
    ensures SeedsInv(cfg, Run(cfg, m, run))
    decreases |run|
  {
    if run != [] {
      var i := run[0];
      assert SeedReused !in InputFaults(cfg, m, i);
      if i.Wait? {
        SeedsLater(cfg, m, i.dt);
      } else if i.Create? {
        SeedsCreate(cfg, m, i);
      } else if i.id in m.cells {
        SeedsOn(cfg, m, i.id, i.e);
      }
      SeedsRun(cfg, Next(cfg, m, i), run[1..]);
    }
  }

  // ----- as deployed -----

  /** Every step of a protocol is taken by worker `w`. */
  predicate SoloInput(w: Worker, i: Input) {
    i.On? ==> OneWorker(w, i.e)
  }

  predicate SoloRun(w: Worker, run: seq<Input>) {
    forall i :: 0 <= i < |run| ==> SoloInput(w, run[i])
  }

  ghost predicate SoloMarket(m: MarketState, w: Worker) {
    forall id :: id in m.cells ==> SoloCell(m.cells[id], w)
  }

  lemma SoloMarketInput(cfg: Config, m: MarketState, w: Worker, i: Input)
    requires MarketInv(cfg, m) && SoloMarket(m, w) && SoloInput(w, i)
    requires InputFaults(cfg, m, i) <= Protocols(DoOnceRuns.HARMLESS_ALONE)
    ensures SoundInput(cfg, m, i)
  {
    if i.On? && i.id in m.cells {
      CellFaultsOf(cfg, m, i, DoOnceRuns.HARMLESS_ALONE);
      assert SafeInv(cfg, m.now, m.cells[i.id]);
      SoloIsSound(cfg, m.now, m.cells[i.id], w, i.e);
      assert SeedReused !in Protocols(DoOnceRuns.HARMLESS_ALONE);
    }
  }

  lemma SoloWith(m: MarketState, m': MarketState, id: int, c: Cell, w: Worker)
    requires SoloMarket(m, w) && SoloCell(c, w) && m'.cells == m.cells[id := c]
    ensures SoloMarket(m', w)
  {
  }

  lemma SoloOnStep(cfg: Config, m: MarketState, w: Worker, id: int, e: CellEvent)
    requires MarketInv(cfg, m) && SoloMarket(m, w) && id in m.cells && OneWorker(w, e)
    ensures SoloCell(CellStep(cfg, m.now, m.cells[id], e), w)
  {
    assert SafeInv(cfg, m.now, m.cells[id]) && SoloCell(m.cells[id], w);
    SoloStep(cfg, m.now, m.cells[id], w, e);
  }

  lemma SoloMarketStep(cfg: Config, m: MarketState, w: Worker, i: Input)
    requires MarketInv(cfg, m) && SoloMarket(m, w) && SoloInput(w, i)
    ensures SoloMarket(Next(cfg, m, i), w)
  {
    var m' := Next(cfg, m, i);
    if i.Create? && i.id !in m.cells {
      NewCellSolo(cfg, i.lessor, i.lessee, i.terms, i.listingChannel, w);
      SoloWith(m, m', i.id, m'.cells[i.id], w);
    } else if i.On? && i.id in m.cells {
      SoloOnStep(cfg, m, w, i.id, i.e);
      SoloWith(m, m', i.id, m'.cells[i.id], w);
    }
  }

  lemma {:induction false} SoloMarketRun(cfg: Config, m: MarketState, w: Worker, run: seq<Input>)
    requires MarketInv(cfg, m) && SoloMarket(m, w) && SoloRun(w, run)
    requires RunFaults(cfg, m, run) <= Protocols(DoOnceRuns.HARMLESS_ALONE)
    ensures MarketInv(cfg, Run(cfg, m, run))
    decreases |run|
  {
    if run != [] {
      assert InputFaults(cfg, m, run[0]) <= RunFaults(cfg, m, run);
      assert RunFaults(cfg, Next(cfg, m, run[0]), run[1..]) <= RunFaults(cfg, m, run);
      forall i | 0 <= i < |run[1..]|
        ensures SoloInput(w, run[1..][i])
      {
        assert run[1..][i] == run[i + 1];
      }
      SoloMarketInput(cfg, m, w, run[0]);
      MarketStep(cfg, m, run[0]);
      SoloMarketStep(cfg, m, w, run[0]);
      SoloMarketRun(cfg, Next(cfg, m, run[0]), w, run[1..]);
    }
  }

  // ----- guarantees on the chain -----

  predicate IsConfirmed(d: Deal) {
    d.status == EscrowReleaseConfirmed || d.status == EscrowRefundConfirmed || d.status == DealStatus.Completed
  }

  /** What the invariant says about one deal and the chain. */
  predicate PaidAsAgreed(cfg: Config, m: MarketState, id: int) {
    id in m.cells && m.cells[id].deal.escrowAddress.Some? ==>
      var c := m.cells[id];
      var w := c.deal.escrowAddress.value;
      var side := if Released(c) then c.deal.lessorPayout else c.deal.lesseePayout;
      var payout := Transfer(w, side, cfg.extract(cfg.compute(c.deal.terms.price)));
      && (Outgoing(m.chain, w) == [] || Outgoing(m.chain, w) == [payout])
      && (IsConfirmed(c.deal) ==> Outgoing(m.chain, w) == [payout])
      && c.deal.escrowAmount == cfg.compute(c.deal.terms.price)
  }

  lemma InvPaysAsAgreed(cfg: Config, m: MarketState, id: int)
    requires MarketInv(cfg, m)
    ensures PaidAsAgreed(cfg, m, id)
  {
    if id in m.cells && m.cells[id].deal.escrowAddress.Some? {
      var c := m.cells[id];
      assert SafeInv(cfg, m.now, c) && OwnsSeeds(m, id);
      assert Outgoing(m.chain, c.deal.escrowAddress.value) == PayoutsOf(m, c.deal.escrowAddress.value.seed) == c.wallet;
      WalletShape(cfg, m.now, c);
    }
  }

  /**
   In every fault-free run of the whole market from nothing, the blockchain shows at most one transfer out of
   the escrow address of any deal, it is the agreed payout to the right side, and every deal that is confirmed
   or completed has made it.
   */
  lemma ChainPaysOnce(cfg: Config, run: seq<Input>, id: int)
    requires RunFaults(cfg, Empty(), run) == {}
    ensures PaidAsAgreed(cfg, Run(cfg, Empty(), run), id)
  {
    EmptyInv(cfg);
    MarketRun(cfg, Empty(), run);
    InvPaysAsAgreed(cfg, Run(cfg, Empty(), run), id);
  }

  /** With one payout worker and one sender, as the programs start them, two assumptions less are enough. */
  lemma DeployedChainPaysOnce(cfg: Config, w: Worker, run: seq<Input>, id: int)
    requires SoloRun(w, run) && RunFaults(cfg, Empty(), run) <= Protocols(DoOnceRuns.HARMLESS_ALONE)
    ensures PaidAsAgreed(cfg, Run(cfg, Empty(), run), id)
  {
    EmptyInv(cfg);
    SoloMarketRun(cfg, Empty(), w, run);
    InvPaysAsAgreed(cfg, Run(cfg, Empty(), run), id);
  }

  // ----- conservation -----

  /** The configuration of the escrow service: gas in nanoton and the commission multiplier. */
  function ServiceConfig(gas: int, m: real, env: Config): Config
    requires m > 0.0
  {
    env.(compute := p => Money.ComputeEscrowAmount(gas, m, p),
         extract := a => Money.GetAmountWithoutGasAndCommission(gas, m, a))
  }

  function AmountOf(e: Effect): int {
    if e.Transfer? then e.amount else 0
  }

  function Total(es: seq<Effect>): int {
    if es == [] then 0 else AmountOf(es[0]) + Total(es[1..])
  }

  function DepositOf(m: MarketState, id: int): int {
    if id in m.cells then m.cells[id].deal.escrowAmount else 0
  }

  /** What the chain shows to have left the escrow wallet of a deal. */
  function PaidOut(m: MarketState, id: int): int {
    if id in m.cells && m.cells[id].deal.escrowAddress.Some?
    then Total(Outgoing(m.chain, m.cells[id].deal.escrowAddress.value)) else 0
  }

  /** The sum of the analytics query adds up this amount over completed deals. */
  function CommissionAt(gas: int, mult: real, m: MarketState, id: int): int
    requires mult > 0.0
  {
    Money.CommissionOf(gas, mult, DepositOf(m, id))
  }

  function Sum(amount: int -> int, ids: seq<int>): int {
    if ids == [] then 0 else amount(ids[0]) + Sum(amount, ids[1..])
  }

  predicate Settled(m: MarketState, id: int, mult: real) {
    && id in m.cells && m.cells[id].deal.escrowAddress.Some? && IsConfirmed(m.cells[id].deal)
    && Money.InRange(mult, m.cells[id].deal.terms.price)
  }

  /** The deposit of one deal is its payout, the gas and the commission. */
  predicate Balanced(gas: int, mult: real, m: MarketState, id: int)
    requires mult > 0.0
  {
    && DepositOf(m, id) == PaidOut(m, id) + gas + CommissionAt(gas, mult, m, id)
    && CommissionAt(gas, mult, m, id) >= 0
  }

  /** A confirmed deal took the computed deposit and paid out what the service extracts from it. */
  lemma ConfirmedAmounts(cfg: Config, m: MarketState, id: int)
    requires PaidAsAgreed(cfg, m, id)
    requires id in m.cells && IsConfirmed(m.cells[id].deal) && m.cells[id].deal.escrowAddress.Some?
    ensures var price := m.cells[id].deal.terms.price;
      DepositOf(m, id) == cfg.compute(price) && PaidOut(m, id) == cfg.extract(cfg.compute(price))
  {
    var out := Outgoing(m.chain, m.cells[id].deal.escrowAddress.value);
    assert |out| == 1 && out[1..] == [];
    assert Total(out) == AmountOf(out[0]) + Total(out[1..]);
  }

  lemma ServiceAmounts(gas: int, mult: real, env: Config, price: int)
    requires Money.InRange(mult, price)
    ensures var cfg := ServiceConfig(gas, mult, env);
      && cfg.extract(cfg.compute(price)) == price
      && cfg.compute(price) == price + gas + Money.CommissionOf(gas, mult, cfg.compute(price))
      && Money.CommissionOf(gas, mult, cfg.compute(price)) >= 0
  {
    Money.RoundTrip(gas, mult, price);
    Money.Split(gas, mult, price);
  }

  /** A fault-free run, or a run of the market as it is deployed with the faults that are harmless there. */
  predicate GoodRun(cfg: Config, w: Worker, run: seq<Input>) {
    || RunFaults(cfg, Empty(), run) == {}
    || (SoloRun(w, run) && RunFaults(cfg, Empty(), run) <= Protocols(DoOnceRuns.HARMLESS_ALONE))
  }

  lemma SettledAmounts(gas: int, mult: real, env: Config, m: MarketState, id: int)
    requires mult >= 1.0 && PaidAsAgreed(ServiceConfig(gas, mult, env), m, id) && Settled(m, id, mult)
    ensures Balanced(gas, mult, m, id) && PaidOut(m, id) == m.cells[id].deal.terms.price
  {
    ConfirmedAmounts(ServiceConfig(gas, mult, env), m, id);
    ServiceAmounts(gas, mult, env, m.cells[id].deal.terms.price);
  }

  lemma SettledDeal(gas: int, mult: real, env: Config, w: Worker, run: seq<Input>, id: int)
    requires mult >= 1.0 && GoodRun(ServiceConfig(gas, mult, env), w, run)
    requires Settled(Run(ServiceConfig(gas, mult, env), Empty(), run), id, mult)
    ensures var m := Run(ServiceConfig(gas, mult, env), Empty(), run);
      Balanced(gas, mult, m, id) && PaidOut(m, id) == m.cells[id].deal.terms.price
  {
    var cfg := ServiceConfig(gas, mult, env);
    if RunFaults(cfg, Empty(), run) == {} {
      ChainPaysOnce(cfg, run, id);
    } else {
      DeployedChainPaysOnce(cfg, w, run, id);
    }
    SettledAmounts(gas, mult, env, Run(cfg, Empty(), run), id);
  }

  lemma {:induction false} SumUp(deposit: int -> int, paid: int -> int, commission: int -> int, gas: int, ids: seq<int>)
    requires forall i :: 0 <= i < |ids| ==> deposit(ids[i]) == paid(ids[i]) + gas + commission(ids[i])
    ensures Sum(deposit, ids) == Sum(paid, ids) + |ids| * gas + Sum(commission, ids)
  {
    if ids != [] {
      forall i | 0 <= i < |ids[1..]|
        ensures deposit(ids[1..][i]) == paid(ids[1..][i]) + gas + commission(ids[1..][i])
      {
        assert ids[1..][i] == ids[i + 1];
      }
      SumUp(deposit, paid, commission, gas, ids[1..]);
      assert |ids| * gas == gas + |ids[1..]| * gas;
    }
  }

  lemma SumsBalance(gas: int, mult: real, m: MarketState, ids: seq<int>)
    requires mult > 0.0 && forall i :: 0 <= i < |ids| ==> Balanced(gas, mult, m, ids[i])
    ensures Sum(id => DepositOf(m, id), ids)
            == Sum(id => PaidOut(m, id), ids) + |ids| * gas + Sum(id => CommissionAt(gas, mult, m, id), ids)
  {
    var deposit, paid, commission :=
      (id: int) => DepositOf(m, id), (id: int) => PaidOut(m, id), (id: int) => CommissionAt(gas, mult, m, id);
    forall i | 0 <= i < |ids|
      ensures deposit(ids[i]) == paid(ids[i]) + gas + commission(ids[i])
    {
      assert Balanced(gas, mult, m, ids[i]);
    }
    SumUp(deposit, paid, commission, gas, ids);
  }

  /**
   Conservation: over any list of settled deals of a good run, the deposits that were required are exactly what the
   chain shows to have been paid out, plus the gas, plus the commission that analytics reports; and each deposit
   covers its payout and gas, so no escrow wallet is overdrawn.
   */
  lemma Conservation(gas: int, mult: real, env: Config, w: Worker, run: seq<Input>, ids: seq<int>)
    requires mult >= 1.0 && GoodRun(ServiceConfig(gas, mult, env), w, run)
    requires forall i :: 0 <= i < |ids| ==> Settled(Run(ServiceConfig(gas, mult, env), Empty(), run), ids[i], mult)
    ensures var m := Run(ServiceConfig(gas, mult, env), Empty(), run);
      && Sum(id => DepositOf(m, id), ids)
         == Sum(id => PaidOut(m, id), ids) + |ids| * gas + Sum(id => CommissionAt(gas, mult, m, id), ids)
      && (forall i :: 0 <= i < |ids| ==> DepositOf(m, ids[i]) >= PaidOut(m, ids[i]) + gas)
  {
    var m := Run(ServiceConfig(gas, mult, env), Empty(), run);
    forall i | 0 <= i < |ids|
      ensures Balanced(gas, mult, m, ids[i])
    {
      SettledDeal(gas, mult, env, w, run, ids[i]);
    }
    SumsBalance(gas, mult, m, ids);
  }
}
