/** When a deal is refunded: the ad was removed, or the userbot never learned the id of its message. */
module DealRefunds {
  import opened DoOnce
  import opened Decimal
  import opened Deals
  import opened DealLife
  import opened DealInvariant
  import opened DealPayouts

  /** The two reasons for which a check can miss the post. */
  predicate Excused(c: Cell) {
    c.removedAds > 0 || (c.message.Some? && !c.message.value.idKnown)
  }

  /** A miss has a reason, and a post whose id is unknown is always missed. */
  predicate Truthful(c: Cell) {
    && (c.checks.missed ==> Excused(c))
    && (c.checker.Looked? && !c.checker.live ==> Excused(c))
    && (c.message.Some? && !c.message.value.idKnown ==> NeverSeen(c))
  }

  predicate NeverSeen(c: Cell) {
    && c.checks.seen == [] && (c.checker.Looked? ==> !c.checker.live)
    && (c.message.Some? ==> c.message.value.status != Passed && c.message.value.status != MessageCompleted)
  }

  /** Removed ads do not come back, and a message keeps its id. */
  predicate Keeps(c: Cell, c': Cell) {
    && c'.removedAds >= c.removedAds && c'.checker == c.checker
    && (c.message.Some? ==> c'.message == c.message && c'.checks == c.checks)
    && (c.message.None? ==>
          (c'.message == None && c'.checks == c.checks)
          || (c'.message.Some? && c'.message.value.status == Exists && c'.checks.seen == [] && !c'.checks.missed))
  }

  lemma KeepsTruthful(c: Cell, c': Cell)
    requires Truthful(c) && Keeps(c, c') && (c.message.None? ==> c.checker.Off?)
    ensures Truthful(c')
  {
  }

  lemma RowsKeep(cfg: Config, c: Cell, e: CellEvent)
    requires e.OnDraft? || e.OnEscrow?
    ensures Keeps(c, if e.OnDraft? then DraftStep(cfg, c, e.d) else EscrowStep(c, e.x))
  {
  }

  lemma StepRemoves(now: int, s: State, e: Event)
    ensures Step(now, s, e).vanished >= s.vanished
  {
  }

  lemma PostKeeps(now: int, c: Cell, e: Event, save: Save)
    ensures Keeps(c, DoPost(now, c, e, save))
  {
    StepRemoves(now, PostView(c), e);
  }

  lemma PayKeeps(now: int, c: Cell, release: bool, e: Event)
    ensures Keeps(c, DoPay(now, c, release, e))
  {
  }

  /** A post that cannot be found has been removed, or its id is not known. */
  lemma NotFoundIsExcused(now: int, c: Cell)
    requires Coupled(c) && PostInv(now, c) && c.message.Some? && !Found(c)
    ensures Excused(c)
  {
    InvPostedRight(now, c);
  }

  lemma CheckKeepsTruthful(now: int, c: Cell, k: CheckEvent)
    requires Coupled(c) && InFlight(now, c) && PostInv(now, c) && Truthful(c)
    ensures Truthful(CheckStep(now, c, k))
  {
    if k.CheckLook? && c.checker.Picked? && !Found(c) {
      NotFoundIsExcused(now, c);
    }
  }

  lemma TruthfulStep(cfg: Config, now: int, c: Cell, e: CellEvent)
    requires SafeInv(cfg, now, c) && Truthful(c)
    ensures Truthful(CellStep(cfg, now, c, e))
  {
    var c' := CellStep(cfg, now, c, e);
    if e.OnCheck? {
      CheckKeepsTruthful(now, c, e.k);
    } else if e.OnDraft? || e.OnEscrow? {
      RowsKeep(cfg, c, e);
      KeepsTruthful(c, c');
    } else {
      ProtocolStep(cfg, now, c, e);
      match ProtocolOf(cfg, now, c, e)
      case Neither =>
      case OfPost(ev, save) =>
        PostKeeps(now, c, ev, save);
        KeepsTruthful(c, c');
      case OfPay(release, ev) =>
        PayKeeps(now, c, release, ev);
        KeepsTruthful(c, c');
    }
  }

  lemma {:induction false} TruthfulRun(cfg: Config, t: Timed, run: seq<Moment>)
    requires SafeInv(cfg, t.now, t.cell) && Truthful(t.cell)
    requires RunFaults(cfg, t, run) == {}
    ensures var u := Run(cfg, t, run); SafeInv(cfg, u.now, u.cell) && Truthful(u.cell)
    decreases |run|
  {
    if run != [] {
      assert MomentFaults(cfg, t, run[0]) <= RunFaults(cfg, t, run);
      assert RunFaults(cfg, Next(cfg, t, run[0]), run[1..]) <= RunFaults(cfg, t, run);
      SafeMoment(cfg, t, run[0]);
      if run[0].At? {
        TruthfulStep(cfg, t.now, t.cell, run[0].e);
      }
      TruthfulRun(cfg, Next(cfg, t, run[0]), run[1..]);
    }
  }

  /**
   In every fault-free run of a deal from its creation, a deal takes the way of the refund only if its ad was removed
   from the channel, or if the answer to sending it did not contain its id.  In the second case it never takes the way
   of the release, however long the ad stays in the channel.
   */
  lemma RefundedForAReason(cfg: Config, now: int, lessor: int, lessee: int, terms: Terms, listingChannel: Option<int>,
                           run: seq<Moment>)
    requires RunFaults(cfg, Timed(now, NewCell(cfg, lessor, lessee, terms, listingChannel)), run) == {}
    ensures var c := Run(cfg, Timed(now, NewCell(cfg, lessor, lessee, terms, listingChannel)), run).cell;
      && (c.deal.status == WaitingEscrowRefund || c.deal.status == EscrowRefundConfirmed ==> Excused(c))
      && (c.message.Some? && !c.message.value.idKnown ==>
            c.deal.status != WaitingEscrowRelease && c.deal.status != EscrowReleaseConfirmed)
  {
    NewCellSafe(cfg, now, lessor, lessee, terms, listingChannel);
    TruthfulRun(cfg, Timed(now, NewCell(cfg, lessor, lessee, terms, listingChannel)), run);
    var u := Run(cfg, Timed(now, NewCell(cfg, lessor, lessee, terms, listingChannel)), run);
    RefundHasMiss(u.cell);
  }

  lemma RefundHasMiss(c: Cell)
    requires Coupled(c) && Scheduled(c)
    ensures c.deal.status == WaitingEscrowRefund || c.deal.status == EscrowRefundConfirmed ==> c.checks.missed
    ensures c.deal.status == WaitingEscrowRelease || c.deal.status == EscrowReleaseConfirmed ==> Released(c)
  {
  }

  // ----- an ad that has gone -----

  /** The ad has gone, no sender is about to post it again, and no check that still found it is about to be written. */
  predicate Gone(c: Cell) {
    && c.message.Some? && c.message.value.status != Passed && c.message.value.status != MessageCompleted
    && c.ads == [] && !(c.checker.Looked? && c.checker.live)
    && forall w :: w in c.post.pcs ==> !c.post.pcs[w].Holding?
  }

  lemma NobodyPosts(now: int, goal: Effect, s: State, e: Event)
    requires !s.open && s.log == [] && (forall w :: w in s.pcs ==> !s.pcs[w].Holding?) && Faults(now, goal, s, e) == {}
    ensures var t := Step(now, s, e); t.log == [] && forall w :: w in t.pcs ==> !t.pcs[w].Holding?
  {
  }

  lemma RowsGone(cfg: Config, now: int, c: Cell, e: CellEvent)
    requires Gone(c) && InFlight(now, c) && (e.OnDraft? || e.OnEscrow? || e.OnCheck?)
    ensures Gone(CellStep(cfg, now, c, e))
  {
  }

  lemma PostGone(now: int, c: Cell, e: Event, save: Save)
    requires Gone(c) && Faults(now, PostGoal(c), PostView(c), e) == {}
    ensures Gone(DoPost(now, c, e, save))
  {
    NobodyPosts(now, PostGoal(c), PostView(c), e);
    PostKeeps(now, c, e, save);
  }

  lemma GoneStep(cfg: Config, now: int, c: Cell, e: CellEvent)
    requires Gone(c) && CellFaults(cfg, now, c, e) == {} && InFlight(now, c)
    ensures Gone(CellStep(cfg, now, c, e))
  {
    if e.OnDraft? || e.OnEscrow? || e.OnCheck? {
      RowsGone(cfg, now, c, e);
    } else {
      ProtocolStep(cfg, now, c, e);
      match ProtocolOf(cfg, now, c, e)
      case Neither =>
      case OfPost(ev, save) => PostGone(now, c, ev, save);
      case OfPay(release, ev) =>
        PayKeeps(now, c, release, ev);
    }
  }

  /**
   Once the ad has gone before its last check, with no sender about to post it again, the deal is never released in any
   fault-free run: only the refund remains.
   */
  lemma {:induction false} GoneIsNeverReleased(cfg: Config, t: Timed, run: seq<Moment>)
    requires SafeInv(cfg, t.now, t.cell) && Gone(t.cell) && RunFaults(cfg, t, run) == {}
    ensures var c := Run(cfg, t, run).cell;
      c.ads == [] && c.deal.status != WaitingEscrowRelease && c.deal.status != EscrowReleaseConfirmed
    ensures Gone(Run(cfg, t, run).cell)
    decreases |run|
  {
    if run != [] {
      assert MomentFaults(cfg, t, run[0]) <= RunFaults(cfg, t, run);
      assert RunFaults(cfg, Next(cfg, t, run[0]), run[1..]) <= RunFaults(cfg, t, run);
      SafeMoment(cfg, t, run[0]);
      if run[0].At? {
        GoneStep(cfg, t.now, t.cell, run[0].e);
      }
      GoneIsNeverReleased(cfg, Next(cfg, t, run[0]), run[1..]);
    }
  }
}
