/**
 Runs of a deal in which the assumptions of the do-it-once protocol hold: the escrow wallet pays at most once,
 it pays whom and what the two sides agreed on, and at most one copy of the ad is live.
 */
module DealPayouts {
  import opened DoOnce
  import opened Decimal
  import opened Deals
  import opened DealLife
  import opened DealInvariant

  /** The protocol on the post, once the deal waits for it; nothing before. */
  ghost predicate PostInv(now: int, c: Cell) {
    if Early(c.deal.status) then c.post.locks == [] && c.ads == [] && c.removedAds == 0
    else DoOnce.Inv(now, PostGoal(c), PostView(c))
  }

  /** The protocol on the payout of the branch that the deal has taken; nothing on the other, and nothing before. */
  ghost predicate PayInv(cfg: Config, now: int, c: Cell) {
    if Released(c) then c.refund == EMPTY_BOOK && DoOnce.Inv(now, PayGoal(cfg, c.deal, true), PayView(c, true))
    else if Refunded(c) then c.release == EMPTY_BOOK && DoOnce.Inv(now, PayGoal(cfg, c.deal, false), PayView(c, false))
    else c.wallet == [] && c.release == EMPTY_BOOK && c.refund == EMPTY_BOOK
  }

  ghost predicate SafeInv(cfg: Config, now: int, c: Cell) {
    CellInv(cfg, now, c) && PostInv(now, c) && PayInv(cfg, now, c)
  }

  lemma NewCellSafe(cfg: Config, now: int, lessor: int, lessee: int, terms: Terms, listingChannel: Option<int>)
    ensures SafeInv(cfg, now, NewCell(cfg, lessor, lessee, terms, listingChannel))
  {
  }

  lemma TickSafe(cfg: Config, now: int, later: int, c: Cell)
    requires SafeInv(cfg, now, c) && now <= later
    ensures SafeInv(cfg, later, c)
  {
  }

  // ----- a step on a protocol is a step of the deal -----

  lemma PostRefines(now: int, c: Cell, e: Event, save: Save)
    requires Coupled(c)
    ensures PostView(DoPost(now, c, e, save)) == Step(now, PostView(c), e)
  {
  }

  lemma PayRefines(now: int, c: Cell, release: bool, e: Event)
    requires !e.Vanish?
    ensures PayView(DoPay(now, c, release, e), release) == Step(now, PayView(c, release), e)
  {
  }

  /** With no worker in flight and the row not waiting, nothing happens. */
  lemma IdleStep(now: int, s: State, e: Event)
    requires !s.open && s.pcs == map[] && (s.log == [] || !e.Vanish?)
    ensures Step(now, s, e) == s
  {
  }

  lemma PostKeepsPostInv(now: int, c: Cell, e: Event, save: Save)
    requires Coupled(c) && InFlight(now, c) && PostInv(now, c)
    requires Early(c.deal.status) || DoOnce.Inv(now, PostGoal(c), Step(now, PostView(c), e))
    ensures PostInv(now, DoPost(now, c, e, save))
  {
    PostRefines(now, c, e, save);
    if Early(c.deal.status) {
      IdleStep(now, PostView(c), e);
    }
  }

  lemma PostKeepsPayInv(cfg: Config, now: int, c: Cell, e: Event, save: Save)
    requires PayInv(cfg, now, c)
    ensures PayInv(cfg, now, DoPost(now, c, e, save))
  {
    var c' := DoPost(now, c, e, save);
    if c.message.Some? {
      assert c'.message == c.message && c'.deal == c.deal;
    }
  }

  /** The branch that the deal has taken. */
  predicate OnBranch(c: Cell, release: bool) {
    if release then Released(c) else Refunded(c)
  }

  lemma PayKeepsPayInv(cfg: Config, now: int, c: Cell, release: bool, e: Event)
    requires Coupled(c) && PayInv(cfg, now, c) && !e.Vanish?
    requires OnBranch(c, release) ==> DoOnce.Inv(now, PayGoal(cfg, c.deal, release), Step(now, PayView(c, release), e))
    ensures PayInv(cfg, now, DoPay(now, c, release, e))
  {
    PayRefines(now, c, release, e);
    if !OnBranch(c, release) {
      IdleStep(now, PayView(c, release), e);
    }
  }

  lemma PayKeepsPostInv(now: int, c: Cell, release: bool, e: Event)
    requires PostInv(now, c)
    ensures PostInv(now, DoPay(now, c, release, e))
  {
    var c' := DoPay(now, c, release, e);
    assert PostView(c') == PostView(c) && PostGoal(c') == PostGoal(c);
  }

  /** A worker that reads a waiting deal prepares the transfer that was agreed on, and will look for the same one. */
  lemma PreparesGoal(cfg: Config, c: Cell, release: bool)
    requires Seeded(c)
    ensures var r := PreparePayout(cfg, c.deal, c.vault, release);
      r.Ok? ==> r.value.order == PayGoal(cfg, c.deal, release) && r.value.key == PayGoal(cfg, c.deal, release)
  {
  }

  /** Steps of neither protocol leave the post alone, except that a deposit opens it. */
  lemma FrameKeepsPostInv(now: int, c: Cell, c': Cell)
    requires PostInv(now, c)
    requires c'.post == c.post && c'.ads == c.ads && c'.removedAds == c.removedAds
    requires if Early(c.deal.status) then
               || Early(c'.deal.status)
               || (c'.deal.status == EscrowDepositConfirmed && c'.message.None? && c.post.pcs == map[])
             else !Early(c'.deal.status) && PostView(c') == PostView(c) && PostGoal(c') == PostGoal(c)
    ensures PostInv(now, c')
  {
    if Early(c.deal.status) && !Early(c'.deal.status) {
      assert PostView(c') == Fresh();
    }
  }

  /** They leave the payout alone, except that the bulk write opens one branch, on which nothing has happened yet. */
  lemma FrameKeepsPayInv(cfg: Config, now: int, c: Cell, c': Cell)
    requires PayInv(cfg, now, c)
    requires c'.wallet == c.wallet && c'.release == c.release && c'.refund == c.refund
    requires if Released(c) || Refunded(c) then
               && c'.message == c.message
               && PayView(c', Released(c)) == PayView(c, Released(c))
               && PayGoal(cfg, c'.deal, Released(c)) == PayGoal(cfg, c.deal, Released(c))
             else Released(c') || Refunded(c') ==> c'.deal.status == Waiting(Released(c'))
    ensures PayInv(cfg, now, c')
  {
    if !Released(c) && !Refunded(c) && (Released(c') || Refunded(c')) {
      assert PayView(c', Released(c')) == Fresh();
    }
  }

  lemma DraftKeeps(cfg: Config, now: int, c: Cell, e: DraftEvent)
    requires Coupled(c) && PostInv(now, c) && PayInv(cfg, now, c)
    ensures PostInv(now, DraftStep(cfg, c, e)) && PayInv(cfg, now, DraftStep(cfg, c, e))
  {
    var c' := DraftStep(cfg, c, e);
    assert c'.deal != c.deal ==> c.deal.status == Draft && Early(c'.deal.status);
    FrameKeepsPostInv(now, c, c');
    FrameKeepsPayInv(cfg, now, c, c');
  }

  lemma EscrowKeeps(cfg: Config, now: int, c: Cell, e: EscrowEvent)
    requires Coupled(c) && InFlight(now, c) && PostInv(now, c) && PayInv(cfg, now, c)
    ensures PostInv(now, EscrowStep(c, e)) && PayInv(cfg, now, EscrowStep(c, e))
  {
    var c' := EscrowStep(c, e);
    FrameKeepsPostInv(now, c, c');
    FrameKeepsPayInv(cfg, now, c, c');
  }

  lemma CheckKeeps(cfg: Config, now: int, c: Cell, e: CheckEvent)
    requires Coupled(c) && InFlight(now, c) && PostInv(now, c) && PayInv(cfg, now, c)
    ensures PostInv(now, CheckStep(now, c, e)) && PayInv(cfg, now, CheckStep(now, c, e))
  {
    var c' := CheckStep(now, c, e);
    FrameKeepsPostInv(now, c, c');
    FrameKeepsPayInv(cfg, now, c, c');
  }

  // ----- the protocol step behind an event -----

  datatype Protocol = Neither | OfPost(e: Event, save: Save) | OfPay(release: bool, e: Event)

  function ProtocolOf(cfg: Config, now: int, c: Cell, e: CellEvent): Protocol {
    match e
    case PostBegin(w) => if MayPost(now, c) then OfPost(Begin(w, PostGoal(c), PostGoal(c)), NOTHING) else Neither
    case PostStep(ev) => if PostingStep(ev) then OfPost(ev, NOTHING) else Neither
    case PostRecord(w, save) => OfPost(Record(w), save)
    case PayBegin(release, w) =>
      var r := PreparePayout(cfg, c.deal, c.vault, release);
      if r.Ok? then OfPay(release, Begin(w, r.value.order, r.value.key)) else Neither
    case PayStep(release, ev) => if PayingStep(ev) then OfPay(release, ev) else Neither
    case _ => Neither
  }

  /** The step keeps the invariant of the protocol that it belongs to. */
  ghost predicate Sound(cfg: Config, now: int, c: Cell, p: Protocol) {
    match p
    case Neither => true
    case OfPost(e, _) => Early(c.deal.status) || DoOnce.Inv(now, PostGoal(c), Step(now, PostView(c), e))
    case OfPay(release, e) =>
      OnBranch(c, release) ==> DoOnce.Inv(now, PayGoal(cfg, c.deal, release), Step(now, PayView(c, release), e))
  }

  lemma FaultFreeIsSound(cfg: Config, now: int, c: Cell, e: CellEvent)
    requires Seeded(c) && PostInv(now, c) && PayInv(cfg, now, c)
    requires CellFaults(cfg, now, c, e) == {}
    ensures Sound(cfg, now, c, ProtocolOf(cfg, now, c, e))
  {
    match ProtocolOf(cfg, now, c, e)
    case Neither =>
    case OfPost(ev, _) =>
      if !Early(c.deal.status) {
        DoOnce.StepInv(now, PostGoal(c), PostView(c), ev);
      }
    case OfPay(release, ev) =>
      PreparesGoal(cfg, c, release);
      if OnBranch(c, release) {
        DoOnce.StepInv(now, PayGoal(cfg, c.deal, release), PayView(c, release), ev);
      }
  }

  lemma ProtocolStep(cfg: Config, now: int, c: Cell, e: CellEvent)
    requires !e.OnDraft? && !e.OnEscrow? && !e.OnCheck?
    ensures CellStep(cfg, now, c, e) ==
      match ProtocolOf(cfg, now, c, e)
      case Neither => c
      case OfPost(ev, save) => DoPost(now, c, ev, save)
      case OfPay(release, ev) => DoPay(now, c, release, ev)
  {
  }

  lemma ProtocolKeeps(cfg: Config, now: int, c: Cell, p: Protocol)
    requires Coupled(c) && InFlight(now, c) && PostInv(now, c) && PayInv(cfg, now, c) && Sound(cfg, now, c, p)
    requires p.OfPay? ==> !p.e.Vanish?
    ensures p.OfPost? ==> PostInv(now, DoPost(now, c, p.e, p.save)) && PayInv(cfg, now, DoPost(now, c, p.e, p.save))
    ensures p.OfPay? ==> PostInv(now, DoPay(now, c, p.release, p.e)) && PayInv(cfg, now, DoPay(now, c, p.release, p.e))
  {
    match p
    case Neither =>
    case OfPost(e, save) =>
      PostKeepsPostInv(now, c, e, save);
      PostKeepsPayInv(cfg, now, c, e, save);
    case OfPay(release, e) =>
      PayKeepsPayInv(cfg, now, c, release, e);
      PayKeepsPostInv(now, c, release, e);
  }

  /** Every step that is sound for its protocol keeps both protocols. */
  lemma SoundStep(cfg: Config, now: int, c: Cell, e: CellEvent)
    requires SafeInv(cfg, now, c) && Sound(cfg, now, c, ProtocolOf(cfg, now, c, e))
    ensures SafeInv(cfg, now, CellStep(cfg, now, c, e))
  {
    CellStepInv(cfg, now, c, e);
    match e
    case OnDraft(d) => DraftKeeps(cfg, now, c, d);
    case OnEscrow(x) => EscrowKeeps(cfg, now, c, x);
    case OnCheck(k) => CheckKeeps(cfg, now, c, k);
    case _ =>
      ProtocolStep(cfg, now, c, e);
      ProtocolKeeps(cfg, now, c, ProtocolOf(cfg, now, c, e));
  }

  /** Every fault-free step keeps both protocols. */
  lemma SafeStep(cfg: Config, now: int, c: Cell, e: CellEvent)
    requires SafeInv(cfg, now, c)
    requires CellFaults(cfg, now, c, e) == {}
    ensures SafeInv(cfg, now, CellStep(cfg, now, c, e))
  {
    FaultFreeIsSound(cfg, now, c, e);
    SoundStep(cfg, now, c, e);
  }

  lemma SafeMoment(cfg: Config, t: Timed, m: Moment)
    requires SafeInv(cfg, t.now, t.cell)
    requires MomentFaults(cfg, t, m) == {}
    ensures SafeInv(cfg, Next(cfg, t, m).now, Next(cfg, t, m).cell)
  {
    match m
    case At(e) => SafeStep(cfg, t.now, t.cell, e);
    case Wait(dt) => TickSafe(cfg, t.now, t.now + dt, t.cell);
  }

  lemma {:induction false} SafeRun(cfg: Config, t: Timed, run: seq<Moment>)
    requires SafeInv(cfg, t.now, t.cell)
    requires RunFaults(cfg, t, run) == {}
    ensures var u := Run(cfg, t, run); SafeInv(cfg, u.now, u.cell)
    decreases |run|
  {
    if run != [] {
      assert MomentFaults(cfg, t, run[0]) <= RunFaults(cfg, t, run);
      assert RunFaults(cfg, Next(cfg, t, run[0]), run[1..]) <= RunFaults(cfg, t, run);
      SafeMoment(cfg, t, run[0]);
      SafeRun(cfg, Next(cfg, t, run[0]), run[1..]);
    }
  }

  // ----- what fault-free runs guarantee -----

  /**
   The escrow wallet has paid at most once over release and refund together; once the deal is confirmed it has paid
   exactly once, out of the wallet whose seed is in the vault, to the lessor on release and to the lessee on refund,
   the amount that belongs to the agreed price; and before the deal waits for a payout it has paid nothing.
   */
  predicate PaidRight(cfg: Config, c: Cell) {
    && |c.wallet| <= 1
    && (c.wallet != [] ==>
          && (Released(c) || Refunded(c))
          && c.vault.Some? && c.deal.escrowAddress == Some(Wallet(c.vault.value))
          && c.wallet == [Transfer(Wallet(c.vault.value),
                                   if Released(c) then c.deal.lessorPayout else c.deal.lesseePayout,
                                   cfg.extract(cfg.compute(c.deal.terms.price)))])
    && (c.deal.status == EscrowReleaseConfirmed ==> Released(c) && c.wallet != [])
    && (c.deal.status == EscrowRefundConfirmed ==> Refunded(c) && c.wallet != [])
    && (c.deal.status == DealStatus.Completed ==> c.wallet != [])
  }

  lemma InvPaidRight(cfg: Config, now: int, c: Cell)
    requires Priced(cfg, c.deal) && Seeded(c) && Coupled(c) && PayInv(cfg, now, c)
    ensures PaidRight(cfg, c)
  {
    if Released(c) || Refunded(c) {
      assert c.wallet != [] ==> c.wallet == [c.wallet[0]] && c.wallet[0] == PayGoal(cfg, c.deal, Released(c));
    }
  }

  /** End to end: so it is in every fault-free run of a deal from its creation, with any number of workers. */
  lemma PaidOnceAndRight(cfg: Config, t0: int, c0: Cell, run: seq<Moment>)
    requires SafeInv(cfg, t0, c0)
    requires RunFaults(cfg, Timed(t0, c0), run) == {}
    ensures PaidRight(cfg, Run(cfg, Timed(t0, c0), run).cell)
  {
    SafeRun(cfg, Timed(t0, c0), run);
    var u := Run(cfg, Timed(t0, c0), run);
    InvPaidRight(cfg, u.now, u.cell);
  }

  predicate PostedRight(c: Cell) {
    && (c.ads == [] || c.ads == [PostGoal(c)])
    && (c.message.Some? ==> |c.ads| + c.removedAds >= 1)
  }

  lemma InvPostedRight(now: int, c: Cell)
    requires Coupled(c) && PostInv(now, c)
    ensures PostedRight(c)
  {
    assert c.ads != [] ==> c.ads == [c.ads[0]];
  }

  /** In every fault-free run at most one copy of the ad is live, and it is the agreed ad in the listing's channel. */
  lemma PostedOnce(cfg: Config, t0: int, c0: Cell, run: seq<Moment>)
    requires SafeInv(cfg, t0, c0)
    requires RunFaults(cfg, Timed(t0, c0), run) == {}
    ensures PostedRight(Run(cfg, Timed(t0, c0), run).cell)
  {
    SafeRun(cfg, Timed(t0, c0), run);
    var u := Run(cfg, Timed(t0, c0), run);
    InvPostedRight(u.now, u.cell);
  }
}
