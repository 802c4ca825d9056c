/**
 What holds in every reachable state of a deal, in every run: with any number of workers, crashes anywhere,
 wrong lookups, late effects and whatever else the do-it-once protocol would call a fault.
 */
module DealInvariant {
  import opened DoOnce
  import opened Decimal
  import opened Deals
  import opened DealLife

  // ----- the parts of the invariant -----

  /** The escrow amount always belongs to the price. */
  predicate Priced(cfg: Config, d: Deal) {
    d.escrowAmount == cfg.compute(d.terms.price)
  }

  /** Past the draft, both sides have signed exactly the row, and both payout addresses are set. */
  predicate Signed(cfg: Config, c: Cell) {
    && (c.signRequests != {} ==> PayoutsSet(c.deal))
    && (c.deal.status != Draft && c.deal.status != Rejected ==> DealSignaturesMatch(cfg, c.deal) && PayoutsSet(c.deal))
  }

  predicate HasEscrow(s: DealStatus) {
    s != Draft && s != Approved && s != Rejected
  }

  /** The vault holds the seed of the escrow address. */
  predicate Seeded(c: Cell) {
    && (c.deal.escrowAddress.Some? <==> HasEscrow(c.deal.status))
    && (c.deal.escrowAddress.Some? ==> c.vault == Some(c.deal.escrowAddress.value.seed))
    && (!c.creator.Resting? ==> c.deal.status == Approved)
    && (c.creator.Stored? ==> c.vault == Some(c.creator.seed))
  }

  /** The statuses in which nothing has been posted or paid, and the deal does not wait for the post either. */
  predicate Early(s: DealStatus) {
    s == Draft || s == Approved || s == Rejected || s == WaitingEscrowDeposit || s == Expired
  }

  predicate Released(c: Cell) {
    c.message.Some? && c.message.value.status == MessageCompleted
  }

  predicate Refunded(c: Cell) {
    c.message.Some? && c.message.value.status == MessageFailed
  }

  /** The status of the post message decides in which part of its life the deal is. */
  predicate Coupled(c: Cell) {
    var s := c.deal.status;
    match c.message
    case None => Early(s) || s == EscrowDepositConfirmed
    case Some(m) =>
      match m.status
      case Exists => s == InProgress
      case Passed => s == InProgress
      case Deleted => s == InProgress
      case MessageCompleted => s == WaitingEscrowRelease || s == EscrowReleaseConfirmed || s == DealStatus.Completed
      case MessageFailed => s == WaitingEscrowRefund || s == EscrowRefundConfirmed || s == DealStatus.Completed
  }

  /** Workers in flight have an up-to-date copy of the message, and no one posts before the deposit. */
  predicate InFlight(now: int, c: Cell) {
    && (Early(c.deal.status) ==> c.post.pcs == map[])
    && (!c.checker.Off? ==>
          && c.message.Some? && c.message.value.status == Exists && c.checker.nextCheck <= now
          && c.message.value.nextCheck == c.checker.nextCheck && c.message.value.untilTs == c.checker.untilTs)
    && (c.checker.Looked? ==> c.checker.nextCheck <= c.checker.at <= now)
    && (c.passer.ListedPassed? ==> c.message.Some? && c.message.value.status == Passed)
    && (c.passer.ListedDeleted? ==> c.message.Some? && c.message.value.status == Deleted)
  }

  /** Slot `k` of the check schedule. */
  function Slot(k: Checks, i: nat): int {
    k.first + i * HOUR
  }

  /** The hourly schedule of the checks, by what the message row says. */
  predicate Scheduled(c: Cell) {
    var k := c.checks;
    && (forall i :: 0 <= i < |k.seen| ==> k.seen[i] >= Slot(k, i))
    && (c.message.Some? ==>
          var m := c.message.value;
          && m.untilTs == k.first - k.lag + (c.deal.terms.duration - 1) * HOUR
          && (m.status == Exists ==>
                m.nextCheck == Slot(k, |k.seen|) && !k.missed && (0 < |k.seen| ==> Slot(k, |k.seen|) <= m.untilTs))
          && (m.status == Passed || m.status == MessageCompleted ==>
                !k.missed && 1 <= |k.seen| && Slot(k, |k.seen|) > m.untilTs
                && (2 <= |k.seen| ==> Slot(k, |k.seen| - 1) <= m.untilTs))
          && (m.status == Deleted || m.status == MessageFailed ==> k.missed))
  }

  predicate CellInv(cfg: Config, now: int, c: Cell) {
    Priced(cfg, c.deal) && Signed(cfg, c) && Seeded(c) && Coupled(c) && InFlight(now, c) && Scheduled(c)
  }

  lemma NewCellInv(cfg: Config, now: int, lessor: int, lessee: int, terms: Terms, listingChannel: Option<int>)
    ensures CellInv(cfg, now, NewCell(cfg, lessor, lessee, terms, listingChannel))
  {
  }

  // ----- every step keeps it -----

  lemma DraftStepInv(cfg: Config, now: int, c: Cell, e: DraftEvent)
    requires CellInv(cfg, now, c)
    ensures CellInv(cfg, now, DraftStep(cfg, c, e))
  {
  }

  lemma EscrowStepInv(cfg: Config, now: int, c: Cell, e: EscrowEvent)
    requires CellInv(cfg, now, c)
    ensures CellInv(cfg, now, EscrowStep(c, e))
  {
  }

  lemma WriteCheckInv(cfg: Config, now: int, c: Cell)
    requires CellInv(cfg, now, c)
    ensures CellInv(cfg, now, WriteCheck(c))
  {
    if c.checker.Looked? {
      var c' := WriteCheck(c);
      var k, k' := c.checks, c'.checks;
      forall i | 0 <= i < |k'.seen|
        ensures k'.seen[i] >= Slot(k', i)
      {
        if i < |k.seen| {
          assert k.seen[i] >= Slot(k, i);
        }
      }
      assert Scheduled(c');
    }
  }

  lemma WritePassedInv(cfg: Config, now: int, c: Cell)
    requires CellInv(cfg, now, c)
    ensures CellInv(cfg, now, WritePassed(c))
  {
  }

  lemma CheckStepInv(cfg: Config, now: int, c: Cell, e: CheckEvent)
    requires CellInv(cfg, now, c)
    ensures CellInv(cfg, now, CheckStep(now, c, e))
  {
    match e
    case CheckWrite => WriteCheckInv(cfg, now, c);
    case PassWrite => WritePassedInv(cfg, now, c);
    case _ =>
  }

  /** Before the row waits for the effect, no worker can be in the middle of it. */
  lemma IdleStaysIdle(now: int, s: State, e: Event)
    requires !s.open && s.pcs == map[]
    ensures Step(now, s, e).pcs == map[] && !Step(now, s, e).open
  {
  }

  /** The ads and the lock rows of the post are no part of the invariant, except that nobody posts early. */
  lemma PostBookInv(cfg: Config, now: int, c: Cell, ads: seq<Effect>, removedAds: nat, book: Book)
    requires CellInv(cfg, now, c) && (Early(c.deal.status) ==> book.pcs == map[])
    ensures CellInv(cfg, now, c.(ads := ads, removedAds := removedAds, post := book))
  {
  }

  lemma CreateMessageInv(cfg: Config, now: int, c: Cell, save: Save)
    requires CellInv(cfg, now, c) && !Early(c.deal.status)
    ensures CellInv(cfg, now, CreateMessage(now, c, save))
  {
  }

  lemma PostStepInv(cfg: Config, now: int, c: Cell, e: Event, save: Save)
    requires CellInv(cfg, now, c)
    ensures CellInv(cfg, now, DoPost(now, c, e, save))
  {
    var s := Step(now, PostView(c), e);
    if Early(c.deal.status) {
      IdleStaysIdle(now, PostView(c), e);
    }
    PostBookInv(cfg, now, c, s.log, s.vanished, Book(s.locks, s.pcs));
    var c' := c.(ads := s.log, removedAds := s.vanished, post := Book(s.locks, s.pcs));
    if !Early(c.deal.status) {
      CreateMessageInv(cfg, now, c', save);
    }
  }

  /** Neither are the transfers and the lock rows of the payout. */
  lemma PayBookInv(cfg: Config, now: int, c: Cell, wallet: seq<Effect>, release: Book, refund: Book)
    requires CellInv(cfg, now, c)
    ensures CellInv(cfg, now, c.(wallet := wallet, release := release, refund := refund))
  {
  }

  lemma ConfirmInv(cfg: Config, now: int, c: Cell, release: bool)
    requires CellInv(cfg, now, c)
    ensures CellInv(cfg, now, c.(deal := SetStatusFrom(c.deal, Waiting(release), Confirmed(release))))
  {
  }

  lemma PayStepInv(cfg: Config, now: int, c: Cell, release: bool, e: Event)
    requires CellInv(cfg, now, c)
    ensures CellInv(cfg, now, DoPay(now, c, release, e))
  {
    var c' := DoPay(now, c, release, e);
    PayBookInv(cfg, now, c, c'.wallet, c'.release, c'.refund);
    ConfirmInv(cfg, now, c.(wallet := c'.wallet, release := c'.release, refund := c'.refund), release);
  }

  /** Every step of every run keeps the invariant. */
  lemma CellStepInv(cfg: Config, now: int, c: Cell, e: CellEvent)
    requires CellInv(cfg, now, c)
    ensures CellInv(cfg, now, CellStep(cfg, now, c, e))
  {
    match e
    case OnDraft(d) => DraftStepInv(cfg, now, c, d);
    case OnEscrow(x) => EscrowStepInv(cfg, now, c, x);
    case OnCheck(k) => CheckStepInv(cfg, now, c, k);
    case PostBegin(w) => PostStepInv(cfg, now, c, Begin(w, PostGoal(c), PostGoal(c)), NOTHING);
    case PostStep(ev) => PostStepInv(cfg, now, c, ev, NOTHING);
    case PostRecord(w, save) => PostStepInv(cfg, now, c, Record(w), save);
    case PayBegin(release, w) =>
      var r := PreparePayout(cfg, c.deal, c.vault, release);
      if r.Ok? {
        PayStepInv(cfg, now, c, release, Begin(w, r.value.order, r.value.key));
      }
    case PayStep(release, ev) => PayStepInv(cfg, now, c, release, ev);
  }

  lemma {:induction false} CellRunInv(cfg: Config, t: Timed, run: seq<Moment>)
    requires CellInv(cfg, t.now, t.cell)
    ensures var u := Run(cfg, t, run); CellInv(cfg, u.now, u.cell) && u.now >= t.now
    decreases |run|
  {
    if run != [] {
      if run[0].At? {
        CellStepInv(cfg, t.now, t.cell, run[0].e);
      }
      CellRunInv(cfg, Next(cfg, t, run[0]), run[1..]);
    }
  }
}
