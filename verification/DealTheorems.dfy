/** What follows for whole runs of a deal, whatever goes wrong with locks, clocks, lookups and crashes on the way. */
module DealTheorems {
  import opened DoOnce
  import opened Decimal
  import opened Deals
  import opened DealLife
  import opened DealInvariant

  lemma {:induction false} RunConcat(cfg: Config, t: Timed, a: seq<Moment>, b: seq<Moment>)
    ensures Run(cfg, t, a + b) == Run(cfg, Run(cfg, t, a), b)
    decreases |a|
  {
    if a == [] {
      assert a + b == b;
    } else {
      assert (a + b)[0] == a[0] && (a + b)[1..] == a[1..] + b;
      RunConcat(cfg, Next(cfg, t, a[0]), a[1..], b);
    }
  }

  // ----- the agreed terms are frozen -----

  /** Everything that the two sides agreed on. */
  predicate SameAgreement(a: Deal, b: Deal) {
    && a.lessor == b.lessor && a.lessee == b.lessee && a.terms == b.terms && a.escrowAmount == b.escrowAmount
    && a.lessorSignature == b.lessorSignature && a.lesseeSignature == b.lesseeSignature
    && a.lessorPayout == b.lessorPayout && a.lesseePayout == b.lesseePayout
  }

  predicate SameSides(c: Cell, c': Cell) {
    c'.deal.status != Draft && SameAgreement(c.deal, c'.deal) && c'.listingChannel == c.listingChannel
  }

  /** Requests of the two sides do not touch the row once it has left the draft. */
  lemma FrozenDraft(cfg: Config, c: Cell, e: DraftEvent)
    requires c.deal.status != Draft
    ensures SameSides(c, DraftStep(cfg, c, e)) && DraftStep(cfg, c, e).deal == c.deal
  {
  }

  lemma FrozenEscrow(c: Cell, x: EscrowEvent)
    requires c.deal.status != Draft
    ensures SameSides(c, EscrowStep(c, x))
  {
  }

  lemma FrozenChecks(now: int, c: Cell, k: CheckEvent)
    requires c.deal.status != Draft
    ensures SameSides(c, CheckStep(now, c, k))
  {
  }

  lemma FrozenProtocols(now: int, c: Cell, release: bool, e: Event, save: Save)
    requires c.deal.status != Draft
    ensures SameSides(c, DoPost(now, c, e, save)) && SameSides(c, DoPay(now, c, release, e))
  {
  }

  lemma FrozenStep(cfg: Config, now: int, c: Cell, e: CellEvent)
    requires c.deal.status != Draft
    ensures SameSides(c, CellStep(cfg, now, c, e))
  {
    match e
    case OnDraft(d) => FrozenDraft(cfg, c, d);
    case OnEscrow(x) => FrozenEscrow(c, x);
    case OnCheck(k) => FrozenChecks(now, c, k);
    case PostBegin(w) => FrozenProtocols(now, c, true, Begin(w, PostGoal(c), PostGoal(c)), NOTHING);
    case PostStep(ev) => FrozenProtocols(now, c, true, ev, NOTHING);
    case PostRecord(w, save) => FrozenProtocols(now, c, true, Record(w), save);
    case PayBegin(release, w) =>
      var r := PreparePayout(cfg, c.deal, c.vault, release);
      if r.Ok? {
        FrozenProtocols(now, c, release, Begin(w, r.value.order, r.value.key), NOTHING);
      }
    case PayStep(release, ev) => FrozenProtocols(now, c, release, ev, NOTHING);
  }

  /** Once a deal has left the draft, no run changes its terms, amounts, payout addresses or signatures again. */
  lemma {:induction false} Frozen(cfg: Config, t: Timed, run: seq<Moment>)
    requires t.cell.deal.status != Draft
    ensures SameSides(t.cell, Run(cfg, t, run).cell)
    decreases |run|
  {
    if run != [] {
      if run[0].At? {
        FrozenStep(cfg, t.now, t.cell, run[0].e);
      }
      Frozen(cfg, Next(cfg, t, run[0]), run[1..]);
    }
  }

  /**
   A deal that a run takes to `approved` or beyond carries both signatures over exactly its present terms and
   payout addresses, and keeps all of them for the rest of the run, however late sign requests commit.
   */
  lemma ApprovedForGood(cfg: Config, t0: int, c0: Cell, before: seq<Moment>, after: seq<Moment>)
    requires CellInv(cfg, t0, c0)
    requires var d := Run(cfg, Timed(t0, c0), before).cell.deal; d.status != Draft && d.status != Rejected
    ensures var d := Run(cfg, Timed(t0, c0), before).cell.deal;
      var d' := Run(cfg, Timed(t0, c0), before + after).cell.deal;
      && SameAgreement(d, d') && DealSignaturesMatch(cfg, d') && PayoutsSet(d')
      && d'.escrowAmount == cfg.compute(d.terms.price)
  {
    RunConcat(cfg, Timed(t0, c0), before, after);
    CellRunInv(cfg, Timed(t0, c0), before);
    Frozen(cfg, Run(cfg, Timed(t0, c0), before), after);
  }

  // ----- seeds -----

  predicate SameSeed(c: Cell, c': Cell) {
    c'.deal.escrowAddress == c.deal.escrowAddress && c'.vault == c.vault
  }

  lemma RowSeedStep(cfg: Config, now: int, c: Cell, e: CellEvent)
    requires Seeded(c) && c.deal.escrowAddress.Some? && (e.OnDraft? || e.OnEscrow? || e.OnCheck?)
    ensures SameSeed(c, CellStep(cfg, now, c, e))
  {
  }

  lemma SeedStep(cfg: Config, now: int, c: Cell, e: CellEvent)
    requires Seeded(c) && c.deal.escrowAddress.Some?
    ensures SameSeed(c, CellStep(cfg, now, c, e))
  {
    if e.OnDraft? || e.OnEscrow? || e.OnCheck? {
      RowSeedStep(cfg, now, c, e);
    }
  }

  /** Once a deal has an escrow address, the vault holds the seed that derives it, and neither ever changes. */
  lemma {:induction false} SeedAgreement(cfg: Config, t: Timed, run: seq<Moment>)
    requires CellInv(cfg, t.now, t.cell) && t.cell.deal.escrowAddress.Some?
    ensures var c := Run(cfg, t, run).cell;
      && c.deal.escrowAddress == t.cell.deal.escrowAddress
      && c.vault.Some? && c.vault == t.cell.vault && Some(Wallet(c.vault.value)) == c.deal.escrowAddress
    decreases |run|
  {
    if run != [] {
      if run[0].At? {
        SeedStep(cfg, t.now, t.cell, run[0].e);
        CellStepInv(cfg, t.now, t.cell, run[0].e);
      }
      SeedAgreement(cfg, Next(cfg, t, run[0]), run[1..]);
    }
  }

  // ----- status progress -----

  predicate Advances(s: DealStatus, s': DealStatus) {
    s' == s || Rank(s') > Rank(s)
  }

  lemma RowStatusStep(cfg: Config, now: int, c: Cell, e: CellEvent)
    requires Coupled(c) && InFlight(now, c)
    requires e.OnDraft? || e.OnEscrow? || e.OnCheck?
    ensures Advances(c.deal.status, CellStep(cfg, now, c, e).deal.status)
  {
  }

  lemma StatusStep(cfg: Config, now: int, c: Cell, e: CellEvent)
    requires Coupled(c) && InFlight(now, c)
    ensures Advances(c.deal.status, CellStep(cfg, now, c, e).deal.status)
  {
    if e.OnDraft? || e.OnEscrow? || e.OnCheck? {
      RowStatusStep(cfg, now, c, e);
    }
  }

  /** The unguarded bulk writes of the passed-message worker only ever hit deals that are in progress. */
  lemma BulkWritesHitInProgress(cfg: Config, t: Timed, run: seq<Moment>)
    requires CellInv(cfg, t.now, t.cell)
    ensures var c := Run(cfg, t, run).cell;
      WritePassed(c).deal != c.deal ==> c.deal.status == InProgress
  {
    CellRunInv(cfg, t, run);
  }

  function StatusChanges(cfg: Config, t: Timed, run: seq<Moment>): nat
    decreases |run|
  {
    if run == [] then 0
    else
      var u := Next(cfg, t, run[0]);
      (if u.cell.deal.status == t.cell.deal.status then 0 else 1) + StatusChanges(cfg, u, run[1..])
  }

  /** Along any run the status never falls in rank, and each change raises it: at most seven changes in a life. */
  lemma {:induction false} Progress(cfg: Config, t: Timed, run: seq<Moment>)
    requires CellInv(cfg, t.now, t.cell)
    ensures var s := Run(cfg, t, run).cell.deal.status;
      && StatusChanges(cfg, t, run) + Rank(t.cell.deal.status) <= Rank(s) <= 7
      && (s == t.cell.deal.status || Rank(s) > Rank(t.cell.deal.status))
    decreases |run|
  {
    if run != [] {
      if run[0].At? {
        StatusStep(cfg, t.now, t.cell, run[0].e);
        CellStepInv(cfg, t.now, t.cell, run[0].e);
      }
      Progress(cfg, Next(cfg, t, run[0]), run[1..]);
    }
  }

  /**
   Statuses of equal rank exclude each other over the whole run: expired and deposit confirmed, rejected and
   approved, waiting for the release and waiting for the refund, release confirmed and refund confirmed.
   */
  lemma NeverBoth(cfg: Config, t: Timed, a: seq<Moment>, b: seq<Moment>)
    requires CellInv(cfg, t.now, t.cell)
    requires Rank(Run(cfg, t, a).cell.deal.status) == Rank(Run(cfg, t, a + b).cell.deal.status)
    ensures Run(cfg, t, a).cell.deal.status == Run(cfg, t, a + b).cell.deal.status
  {
    RunConcat(cfg, t, a, b);
    CellRunInv(cfg, t, a);
    Progress(cfg, Run(cfg, t, a), b);
  }

  // ----- the check schedule -----

  /** How many positive checks a post needs that is first checked at `first` and ends at `until`. */
  function ChecksNeeded(first: int, until: int): nat {
    if until < first then 1 else (until - first) / HOUR + 1
  }

  lemma FloorHours(x: int, n: nat)
    requires n * HOUR <= x < (n + 1) * HOUR
    ensures x / HOUR == n
  {
  }

  /**
   A post that no check has missed counts as passed exactly if it has seen `ChecksNeeded` positive checks; the
   k-th of them came no earlier than its slot, and the last one later than an hour before the end.  A message
   counts as deleted, and its deal is refunded, exactly if a check saw the post missing.
   */
  predicate ScheduleKept(c: Cell) {
    c.message.Some? ==>
      var k, m := c.checks, c.message.value;
      && (m.status == Deleted || m.status == MessageFailed <==> k.missed)
      && (!k.missed ==>
            && |k.seen| <= ChecksNeeded(k.first, m.untilTs)
            && (m.status == Passed || m.status == MessageCompleted <==> |k.seen| == ChecksNeeded(k.first, m.untilTs)))
      && (forall i :: 0 <= i < |k.seen| ==> k.seen[i] >= Slot(k, i))
      && (m.status == Passed || m.status == MessageCompleted ==>
            |k.seen| > 0 && k.seen[|k.seen| - 1] > m.untilTs - HOUR)
  }

  /** The schedule is kept in every reachable state. */
  lemma CheckSchedule(cfg: Config, t: Timed, run: seq<Moment>)
    requires CellInv(cfg, t.now, t.cell)
    ensures ScheduleKept(Run(cfg, t, run).cell)
  {
    CellRunInv(cfg, t, run);
    ScheduledIsKept(Run(cfg, t, run).cell);
  }

  lemma ScheduledIsKept(c: Cell)
    requires Scheduled(c)
    ensures ScheduleKept(c)
  {
    if c.message.Some? && !c.checks.missed {
      ScheduleCount(c);
      var k, m := c.checks, c.message.value;
      if m.status == Passed || m.status == MessageCompleted {
        assert k.seen[|k.seen| - 1] >= Slot(k, |k.seen| - 1);
      }
    }
  }

  lemma ScheduleCount(c: Cell)
    requires Scheduled(c) && c.message.Some? && !c.checks.missed
    ensures var k, m := c.checks, c.message.value;
      && (m.status == Exists ==> |k.seen| < ChecksNeeded(k.first, m.untilTs))
      && (m.status == Passed || m.status == MessageCompleted ==> |k.seen| == ChecksNeeded(k.first, m.untilTs))
  {
    var k, m := c.checks, c.message.value;
    var n := |k.seen|;
    if m.status == Exists && n > 0 {
      assert (m.untilTs - k.first) / HOUR >= n;
    } else if n > 1 && (m.status == Passed || m.status == MessageCompleted) {
      FloorHours(m.untilTs - k.first, n - 1);
    }
  }

  /**
   In terms of the agreed duration of D hours: if the two clock readings at creation agree, a released deal has
   seen exactly max(1, D) positive checks; if the second reading is later, it has seen only max(1, D - 1).
   */
  lemma ChecksByDuration(cfg: Config, t: Timed, run: seq<Moment>)
    requires CellInv(cfg, t.now, t.cell)
    requires var c := Run(cfg, t, run).cell; Released(c) && c.checks.lag < HOUR
    ensures var c := Run(cfg, t, run).cell;
      var hours := if c.checks.lag == 0 then c.deal.terms.duration else c.deal.terms.duration - 1;
      |c.checks.seen| == (if hours < 1 then 1 else hours)
  {
    CellRunInv(cfg, t, run);
    var c := Run(cfg, t, run).cell;
    ScheduleCount(c);
    var hours := if c.checks.lag == 0 then c.deal.terms.duration else c.deal.terms.duration - 1;
    if hours >= 1 {
      FloorHours(c.message.value.untilTs - c.checks.first, hours - 1);
    } else if c.message.value.untilTs >= c.checks.first {
      assert false;
    }
  }

  // ----- listings without a channel -----

  predicate Stuck(c: Cell) {
    && c.listingChannel.None? && c.message.None? && c.post == EMPTY_BOOK && c.ads == []
    && c.release == EMPTY_BOOK && c.refund == EMPTY_BOOK && c.wallet == []
  }

  /**
   A deal on a listing that has no channel is never posted: after its deposit it stays where it is in every
   run, and its escrow wallet never pays anyone.
   */
  lemma {:induction false} NoChannelNoPayout(cfg: Config, t: Timed, run: seq<Moment>)
    requires CellInv(cfg, t.now, t.cell) && Stuck(t.cell)
    ensures var c := Run(cfg, t, run).cell;
      && Stuck(c)
      && (t.cell.deal.status == EscrowDepositConfirmed ==> c.deal.status == EscrowDepositConfirmed)
    decreases |run|
  {
    if run != [] {
      if run[0].At? {
        StuckStep(cfg, t.now, t.cell, run[0].e);
        CellStepInv(cfg, t.now, t.cell, run[0].e);
      }
      NoChannelNoPayout(cfg, Next(cfg, t, run[0]), run[1..]);
    }
  }

  /** The protocols have nothing to work on. */
  lemma StuckProtocols(now: int, c: Cell, release: bool, e: Event, save: Save)
    requires Stuck(c) && Coupled(c) && !e.Begin?
    ensures DoPost(now, c, e, save) == c && DoPay(now, c, release, e) == c
  {
  }

  lemma StuckStep(cfg: Config, now: int, c: Cell, e: CellEvent)
    requires Coupled(c) && InFlight(now, c) && Stuck(c)
    ensures Stuck(CellStep(cfg, now, c, e))
    ensures c.deal.status == EscrowDepositConfirmed ==> CellStep(cfg, now, c, e).deal.status == EscrowDepositConfirmed
  {
    match e
    case PostStep(ev) => if !ev.Begin? { StuckProtocols(now, c, true, ev, NOTHING); }
    case PostRecord(w, save) => StuckProtocols(now, c, true, Record(w), save);
    case PayStep(release, ev) => if !ev.Begin? { StuckProtocols(now, c, release, ev, NOTHING); }
    case _ =>
  }
}
