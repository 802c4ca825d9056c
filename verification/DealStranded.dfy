/**
 Deals that go wrong without any fault: deposits that stay for ever, on a listing without a channel or with a payout
 address that does not parse, and a refund although the ad is live.  The witnesses are smooth lives of deals.
 */
module DealStranded {
  import opened Decimal
  import opened Deals
  import opened DealLife
  import opened DealJourneys
  import opened DealProgress
  import opened SmoothRuns

  /** Every deal on a listing without a channel loses its deposit: a run confirms it, and no run takes it further. */
  lemma NoChannelKeepsDeposit(cfg: Config, now: int, x: Sides, terms: Terms, seed: int) returns (t: Timed)
    requires CanSign(x, terms)
    ensures SmoothLife(cfg, Start(cfg, now, x, terms, None), seed, t)
    ensures t.cell.deal.status == EscrowDepositConfirmed
    ensures forall u :: Reachable(cfg, t, u) ==> u.cell.deal.status == EscrowDepositConfirmed
  {
    t := DepositConfirmed(cfg, now, x, terms, None, seed);
    var run := LifeIsRun(cfg, Start(cfg, now, x, terms, None), seed, t);
    PostedIffPostable(cfg, now, x.lessor, x.lessee, terms, None, t);
  }

  /**
   A payout address that does not parse keeps the deposit for ever, whatever the duration, on the way of the release and
   on that of the refund.
   */
  lemma BadAddressKeepsDeposit(cfg: Config, now: int, x: Sides, terms: Terms, channel: int, seed: int, release: bool)
    returns (t: Timed)
    requires CanSign(x, terms) && !cfg.parses(if release then x.lessorPayout else x.lesseePayout)
    ensures SmoothLife(cfg, Start(cfg, now, x, terms, Some(channel)), seed, t)
    ensures t.cell.deal.status == Waiting(release)
    ensures forall u :: Reachable(cfg, t, u) ==> u.cell.deal.status == Waiting(release)
  {
    t := ComesToWait(cfg, now, x, terms, channel, seed, true, release);
    var run := LifeIsRun(cfg, Start(cfg, now, x, terms, Some(channel)), seed, t);
    PaidIffPayable(cfg, now, x.lessor, x.lessee, terms, Some(channel), t, release);
  }

  /** An ad whose id the sender did not learn is refunded although it was never removed and is live. */
  lemma LiveAdRefunded(cfg: Config, now: int, x: Sides, terms: Terms, channel: int, seed: int) returns (t: Timed)
    requires CanSign(x, terms)
    ensures SmoothLife(cfg, Start(cfg, now, x, terms, Some(channel)), seed, t)
    ensures t.cell.deal.status == WaitingEscrowRefund
    ensures t.cell.ads == [PostGoal(t.cell)] && t.cell.removedAds == 0
    ensures t.cell.message.Some? && !t.cell.message.value.idKnown
  {
    t := ComesToWait(cfg, now, x, terms, channel, seed, false, true);
  }
}
