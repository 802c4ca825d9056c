/** When a deal can move on: exactly which deals can be posted after their deposit, and which can be paid out. */
module DealProgress {
  import opened DoOnce
  import opened Attempts
  import opened Decimal
  import opened Deals
  import opened DealLife
  import opened DealInvariant
  import opened DealPayouts
  import opened DealTheorems
  import opened Scripts
  import opened SmoothRuns

  /** The deal as it was created, in the beginning. */
  function Created(cfg: Config, now: int, lessor: int, lessee: int, terms: Terms, channel: Option<int>): Timed {
    Timed(now, NewCell(cfg, lessor, lessee, terms, channel))
  }

  // ----- what it takes to begin -----

  /** The sender skips deals without a channel and without a text. */
  predicate Postable(c: Cell) {
    c.listingChannel.Some? && c.deal.terms.details.message != ""
  }

  predicate Payable(cfg: Config, c: Cell, release: bool) {
    cfg.parses(PayoutOf(c.deal, release))
  }

  /** Whoever is in the middle of a post or a payout, or has posted, was right to begin. */
  predicate RightlyBegun(cfg: Config, c: Cell) {
    && (c.post.pcs != map[] || c.message.Some? ==> c.deal.status != Draft && Postable(c))
    && (c.release.pcs != map[] ==> c.deal.status != Draft && Payable(cfg, c, true))
    && (c.refund.pcs != map[] ==> c.deal.status != Draft && Payable(cfg, c, false))
  }

  lemma NobodyBegins(now: int, s: State, e: Event)
    requires s.pcs == map[] && (!e.Begin? || !s.open)
    ensures Step(now, s, e).pcs == map[] && Step(now, s, e).open == s.open
  {
  }

  /** No one is in the middle of anything, and nobody begins. */
  predicate Untouched(c: Cell, c': Cell) {
    && (c.post.pcs == map[] && c.message.None? ==> c'.post.pcs == map[] && c'.message.None?)
    && (c.release.pcs == map[] ==> c'.release.pcs == map[])
    && (c.refund.pcs == map[] ==> c'.refund.pcs == map[])
  }

  lemma RowsUntouched(cfg: Config, now: int, c: Cell, e: CellEvent)
    requires e.OnDraft? || e.OnEscrow? || e.OnCheck?
    ensures Untouched(c, CellStep(cfg, now, c, e))
  {
  }

  lemma PostUntouched(now: int, c: Cell, e: Event, save: Save)
    requires !e.Begin? || !PostView(c).open
    ensures Untouched(c, DoPost(now, c, e, save))
  {
    if c.post.pcs == map[] {
      NobodyBegins(now, PostView(c), e);
    }
  }

  lemma PayUntouched(now: int, c: Cell, release: bool, e: Event)
    requires !e.Begin? || !PayView(c, release).open
    ensures Untouched(c, DoPay(now, c, release, e))
  {
    if BookOf(c, release).pcs == map[] {
      NobodyBegins(now, PayView(c, release), e);
    }
  }

  /** An event that begins nothing. */
  predicate Continues(cfg: Config, now: int, c: Cell, e: CellEvent) {
    match e
    case PostBegin(_) => !MayPost(now, c) || !PostView(c).open
    case PayBegin(release, _) => PreparePayout(cfg, c.deal, c.vault, release).Err?
    case _ => true
  }

  lemma ContinuesUntouched(cfg: Config, now: int, c: Cell, e: CellEvent)
    requires Continues(cfg, now, c, e)
    ensures Untouched(c, CellStep(cfg, now, c, e))
  {
    match e
    case PostBegin(w) => if MayPost(now, c) { PostUntouched(now, c, Begin(w, PostGoal(c), PostGoal(c)), NOTHING); }
    case PostStep(ev) => if !ev.Begin? { PostUntouched(now, c, ev, NOTHING); }
    case PostRecord(w, save) => PostUntouched(now, c, Record(w), save);
    case PayBegin(release, w) =>
    case PayStep(release, ev) => if !ev.Begin? { PayUntouched(now, c, release, ev); }
    case _ => RowsUntouched(cfg, now, c, e);
  }

  /** Beginning a post leaves the payouts alone, and the other way round. */
  lemma BeginsOne(cfg: Config, now: int, c: Cell, e: CellEvent)
    requires !Continues(cfg, now, c, e)
    ensures var c' := CellStep(cfg, now, c, e);
      && c'.message == c.message
      && (e.PostBegin? ==> Postable(c) && c'.release == c.release && c'.refund == c.refund)
      && (e.PayBegin? ==>
            && Payable(cfg, c, e.release) && c.deal.status != Draft && c'.post == c.post
            && BookOf(c', !e.release) == BookOf(c, !e.release))
  {
  }

  lemma RightlyBegunStep(cfg: Config, now: int, c: Cell, e: CellEvent)
    requires RightlyBegun(cfg, c)
    ensures RightlyBegun(cfg, CellStep(cfg, now, c, e))
  {
    if Continues(cfg, now, c, e) {
      ContinuesUntouched(cfg, now, c, e);
    } else {
      BeginsOne(cfg, now, c, e);
    }
    if c.deal.status != Draft {
      FrozenStep(cfg, now, c, e);
    }
  }

  lemma {:induction false} RightlyBegunRun(cfg: Config, t: Timed, run: seq<Moment>)
    requires RightlyBegun(cfg, t.cell)
    ensures RightlyBegun(cfg, Run(cfg, t, run).cell)
    decreases |run|
  {
    if run != [] {
      if run[0].At? {
        RightlyBegunStep(cfg, t.now, t.cell, run[0].e);
      }
      RightlyBegunRun(cfg, Next(cfg, t, run[0]), run[1..]);
    }
  }

  // ----- deals that stay where they are -----

  /** After the deposit, but with nothing that can be posted; or waiting, with no address that can be paid. */
  predicate Stranded(cfg: Config, c: Cell) {
    || (c.deal.status == EscrowDepositConfirmed && !Postable(c))
    || (c.deal.status == WaitingEscrowRelease && !Payable(cfg, c, true))
    || (c.deal.status == WaitingEscrowRefund && !Payable(cfg, c, false))
  }

  lemma RowsStranded(cfg: Config, now: int, c: Cell, e: CellEvent)
    requires Coupled(c) && InFlight(now, c) && Stranded(cfg, c) && (e.OnDraft? || e.OnEscrow? || e.OnCheck?)
    ensures CellStep(cfg, now, c, e).deal.status == c.deal.status
  {
  }

  lemma PostStranded(cfg: Config, now: int, c: Cell, e: Event, save: Save)
    requires Coupled(c) && RightlyBegun(cfg, c) && Stranded(cfg, c) && !e.Begin?
    ensures DoPost(now, c, e, save).deal == c.deal
  {
    if c.message.None? {
      assert c.post.pcs == map[];
      NobodyBegins(now, PostView(c), e);
    }
  }

  lemma PayStranded(cfg: Config, now: int, c: Cell, release: bool, e: Event)
    requires RightlyBegun(cfg, c) && Stranded(cfg, c) && !e.Begin?
    ensures DoPay(now, c, release, e).deal == c.deal
  {
    if c.deal.status == Waiting(release) {
      assert BookOf(c, release).pcs == map[];
      NobodyBegins(now, PayView(c, release), e);
    }
  }

  lemma StrandedStep(cfg: Config, now: int, c: Cell, e: CellEvent)
    requires CellInv(cfg, now, c) && RightlyBegun(cfg, c) && Stranded(cfg, c)
    ensures var c' := CellStep(cfg, now, c, e); Stranded(cfg, c') && c'.deal.status == c.deal.status
  {
    FrozenStep(cfg, now, c, e);
    match e
    case PostBegin(w) =>
    case PostStep(ev) => if !ev.Begin? { PostStranded(cfg, now, c, ev, NOTHING); }
    case PostRecord(w, save) => PostStranded(cfg, now, c, Record(w), save);
    case PayBegin(release, w) =>
    case PayStep(release, ev) => if !ev.Begin? { PayStranded(cfg, now, c, release, ev); }
    case _ => RowsStranded(cfg, now, c, e);
  }

  lemma {:induction false} StrandedRun(cfg: Config, t: Timed, run: seq<Moment>)
    requires CellInv(cfg, t.now, t.cell) && RightlyBegun(cfg, t.cell) && Stranded(cfg, t.cell)
    ensures Run(cfg, t, run).cell.deal.status == t.cell.deal.status
    decreases |run|
  {
    if run != [] {
      if run[0].At? {
        StrandedStep(cfg, t.now, t.cell, run[0].e);
        CellStepInv(cfg, t.now, t.cell, run[0].e);
        RightlyBegunStep(cfg, t.now, t.cell, run[0].e);
      }
      StrandedRun(cfg, Next(cfg, t, run[0]), run[1..]);
    }
  }

  // ----- deals that can move on -----

  /** A time by which every lock of the list has expired. */
  function AllExpiredBy(locks: seq<Lock>): int {
    if locks == [] then 0
    else
      var rest := AllExpiredBy(locks[1..]);
      if locks[0].expireAt > rest then locks[0].expireAt else rest
  }

  lemma {:induction false} ExpiredBy(now: int, locks: seq<Lock>)
    requires AllExpiredBy(locks) <= now
    ensures forall i :: 0 <= i < |locks| ==> locks[i].expireAt <= now
    decreases |locks|
  {
    if locks != [] {
      ExpiredBy(now, locks[1..]);
      forall i | 0 <= i < |locks|
        ensures locks[i].expireAt <= now
      {
        assert i > 0 ==> locks[i] == locks[1..][i - 1];
      }
    }
  }

  lemma SweptExpired(now: int, locks: seq<Lock>, luck: Luck)
    requires forall i :: 0 <= i < |locks| ==> locks[i].expireAt <= now
    ensures !AnyActive(now, locks) && !AnyActive(now, Swept(now, locks, luck))
  {
  }

  /**
   Once all locks have expired, an attempt in which nothing fails closes the row with its effect in place, whatever
   happened before.
   */
  lemma GoodAttemptCloses(style: Style, now: int, goal: Effect, s: State)
    requires AllExpiredBy(s.locks) <= now
    ensures var s' := Attempted(style, now, goal, goal, s, GOOD); !s'.open && goal in s'.log
  {
    ExpiredBy(now, s.locks);
    SweptExpired(now, s.locks, GOOD);
  }

  function Later(now: int, time: int): nat {
    if now < time then time - now else 0
  }

  /** Worker 0 crashes, and enough time passes for the locks to expire and for the post to be due. */
  lemma Restarted(cfg: Config, t: Timed, time: int, e: CellEvent) returns (u: Timed)
    requires e == PostStep(Crash(0)) || e == PayStep(true, Crash(0)) || e == PayStep(false, Crash(0))
    ensures Smooth(cfg, t, u) && u.now >= time && u.cell == CellStep(cfg, t.now, t.cell, e)
  {
    SmoothSelf(cfg, t);
    SmoothNext(cfg, t, t, At(e));
    u := SmoothWait(cfg, t, Next(cfg, t, At(e)), Later(t.now, time));
  }

  lemma ClosedIsPosted(now: int, c: Cell, s: State, save: Save)
    requires c.message.None? && c.deal.status == EscrowDepositConfirmed && !s.open
    ensures PutPost(now, c, s, save).deal.status == InProgress && PutPost(now, c, s, save).ads == s.log
  {
  }

  /** An execution of the sender in which nothing fails, once the post is due and the locks have expired. */
  lemma GoodSendPosts(cfg: Config, now: int, c: Cell)
    requires c.deal.status == EscrowDepositConfirmed && c.message.None? && MayPost(now, c)
    requires PcOf(PostView(c), 0).Idle? && AllExpiredBy(c.post.locks) <= now
    ensures var c' := Steps(cfg, now, c, PostScript(now, c, 0, GOOD, NOTHING));
      c'.deal.status == InProgress && PostGoal(c) in c'.ads
  {
    PostScriptSteps(cfg, now, c, 0, GOOD, NOTHING);
    GoodAttemptCloses(Posting, now, PostGoal(c), PostView(c));
    var s := Attempted(Posting, now, PostGoal(c), PostGoal(c), PostView(c), GOOD);
    ClosedIsPosted(now, c, Goto(s, 0, Idle), NOTHING);
  }

  lemma CanBePosted(cfg: Config, t: Timed) returns (u: Timed)
    requires CellInv(cfg, t.now, t.cell) && t.cell.deal.status == EscrowDepositConfirmed && Postable(t.cell)
    ensures Smooth(cfg, t, u) && u.cell.deal.status == InProgress && PostGoal(t.cell) in u.cell.ads
  {
    var postedAt := t.cell.deal.terms.details.postedAt;
    var due := if postedAt.Some? then postedAt.value else 0;
    var expired := AllExpiredBy(t.cell.post.locks);
    var v := Restarted(cfg, t, if due < expired then expired else due, PostStep(Crash(0)));
    GoodSendPosts(cfg, v.now, v.cell);
    SmoothPost(cfg, v.now, v.cell, NOTHING);
    u := Timed(v.now, Steps(cfg, v.now, v.cell, PostScript(v.now, v.cell, 0, GOOD, NOTHING)));
    SmoothTrans(cfg, t, v, u);
  }

  /** An execution of the payout in which nothing fails, once the locks have expired. */
  lemma GoodPayPays(cfg: Config, now: int, c: Cell, release: bool)
    requires Seeded(c) && c.deal.status == Waiting(release) && PreparePayout(cfg, c.deal, c.vault, release).Ok?
    requires PcOf(PayView(c, release), 0).Idle? && AllExpiredBy(BookOf(c, release).locks) <= now
    ensures var c' := Steps(cfg, now, c, PayScript(cfg, now, c, release, 0, GOOD));
      c'.deal.status == Confirmed(release) && PayGoal(cfg, c.deal, release) in c'.wallet
  {
    PreparesGoal(cfg, c, release);
    PayScriptSteps(cfg, now, c, release, 0, GOOD);
    GoodAttemptCloses(Paying, now, PayGoal(cfg, c.deal, release), PayView(c, release));
  }

  lemma CanBePaid(cfg: Config, t: Timed, release: bool) returns (u: Timed)
    requires CellInv(cfg, t.now, t.cell) && t.cell.deal.status == Waiting(release) && Payable(cfg, t.cell, release)
    ensures Smooth(cfg, t, u) && u.cell.deal.status == Confirmed(release)
    ensures PayGoal(cfg, t.cell.deal, release) in u.cell.wallet
  {
    var v := Restarted(cfg, t, AllExpiredBy(BookOf(t.cell, release).locks), PayStep(release, Crash(0)));
    var c := v.cell;
    assert c.deal == t.cell.deal && c.vault == t.cell.vault && c.creator == t.cell.creator;
    assert PcOf(PayView(c, release), 0).Idle? && BookOf(c, release).locks == BookOf(t.cell, release).locks;
    CanPrepare(cfg, t.now, t.cell, release);
    GoodPayPays(cfg, v.now, c, release);
    SmoothPay(cfg, v.now, c, release);
    u := Timed(v.now, Steps(cfg, v.now, c, PayScript(cfg, v.now, c, release, 0, GOOD)));
    SmoothTrans(cfg, t, v, u);
  }

  // ----- the exact conditions -----

  lemma CreatedInv(cfg: Config, t0: Timed, t: Timed, now: int, lessor: int, lessee: int, terms: Terms,
                   channel: Option<int>)
    requires t0 == Created(cfg, now, lessor, lessee, terms, channel) && Reachable(cfg, t0, t)
    ensures CellInv(cfg, t.now, t.cell) && RightlyBegun(cfg, t.cell)
  {
    var run :| Run(cfg, t0, run) == t;
    NewCellInv(cfg, now, lessor, lessee, terms, channel);
    CellRunInv(cfg, t0, run);
    RightlyBegunRun(cfg, t0, run);
  }

  /** The deployed sender alone, without a fault, takes the deal on with its ad in the channel. */
  ghost predicate CanPost(cfg: Config, t: Timed) {
    exists u :: Smooth(cfg, t, u) && u.cell.deal.status == InProgress && PostGoal(t.cell) in u.cell.ads
  }

  /** The deployed payout worker alone, without a fault, confirms the deal with its payout made. */
  ghost predicate CanPay(cfg: Config, t: Timed, release: bool) {
    exists u :: Smooth(cfg, t, u) && u.cell.deal.status == Confirmed(release)
                && PayGoal(cfg, t.cell.deal, release) in u.cell.wallet
  }

  /** Some run, with whatever faults, changes the status. */
  ghost predicate CanLeave(cfg: Config, t: Timed) {
    exists u :: Reachable(cfg, t, u) && u.cell.deal.status != t.cell.deal.status
  }

  /**
   A deal whose deposit is confirmed, after whatever run from its creation, can still be posted if and only if its
   listing has a channel and its text is not empty; otherwise no run at all changes its status again.
   */
  lemma PostedIffPostable(cfg: Config, now: int, lessor: int, lessee: int, terms: Terms, channel: Option<int>, t: Timed)
    requires Reachable(cfg, Created(cfg, now, lessor, lessee, terms, channel), t)
    requires t.cell.deal.status == EscrowDepositConfirmed
    ensures CanPost(cfg, t) <==> Postable(t.cell)
    ensures CanLeave(cfg, t) <==> Postable(t.cell)
  {
    CreatedInv(cfg, Created(cfg, now, lessor, lessee, terms, channel), t, now, lessor, lessee, terms, channel);
    if Postable(t.cell) {
      var u := CanBePosted(cfg, t);
      SmoothIsReachable(cfg, t, u);
    } else {
      NoRunLeaves(cfg, t);
    }
  }

  /**
   A deal that waits for its release or refund, after whatever run from its creation, can still be paid out if and only
   if the payout address parses, which nothing checks before the deal is approved; otherwise no run at all changes its
   status again.
   */
  lemma PaidIffPayable(cfg: Config, now: int, lessor: int, lessee: int, terms: Terms, channel: Option<int>, t: Timed,
                       release: bool)
    requires Reachable(cfg, Created(cfg, now, lessor, lessee, terms, channel), t)
    requires t.cell.deal.status == Waiting(release)
    ensures CanPay(cfg, t, release) <==> Payable(cfg, t.cell, release)
    ensures CanLeave(cfg, t) <==> Payable(cfg, t.cell, release)
  {
    CreatedInv(cfg, Created(cfg, now, lessor, lessee, terms, channel), t, now, lessor, lessee, terms, channel);
    if Payable(cfg, t.cell, release) {
      var u := CanBePaid(cfg, t, release);
      SmoothIsReachable(cfg, t, u);
    } else {
      NoRunLeaves(cfg, t);
    }
  }

  lemma NoRunLeaves(cfg: Config, t: Timed)
    requires CellInv(cfg, t.now, t.cell) && RightlyBegun(cfg, t.cell) && Stranded(cfg, t.cell)
    ensures forall u :: Reachable(cfg, t, u) || Smooth(cfg, t, u) ==> u.cell.deal.status == t.cell.deal.status
  {
    forall u | Reachable(cfg, t, u) || Smooth(cfg, t, u)
      ensures u.cell.deal.status == t.cell.deal.status
    {
      if Smooth(cfg, t, u) {
        SmoothIsReachable(cfg, t, u);
      }
      var run :| Run(cfg, t, run) == u;
      StrandedRun(cfg, t, run);
    }
  }
}
