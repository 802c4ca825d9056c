/** No ad is posted before its time, and none without a channel and a text. */
module DealTiming {
  import opened DoOnce
  import opened Decimal
  import opened Deals
  import opened DealLife
  import opened DealTheorems

  /** The deal may be posted by now: its listing has a channel, there is a text, and the agreed time has come. */
  predicate TimeHasCome(now: int, c: Cell) {
    var details := c.deal.terms.details;
    && c.listingChannel != None && details.message != ""
    && (details.postedAt == None || details.postedAt.value <= now)
  }

  /** Nothing has been posted, and no sender is in the middle of it. */
  predicate Unposted(c: Cell) {
    c.post.pcs == map[] && c.ads == [] && c.removedAds == 0 && c.message == None
  }

  predicate InTime(now: int, c: Cell) {
    Unposted(c) || (c.deal.status != Draft && TimeHasCome(now, c))
  }

  lemma NothingPosted(now: int, s: State, e: Event)
    requires s.pcs == map[] && s.log == [] && s.vanished == 0 && (!e.Begin? || !s.open)
    ensures Step(now, s, e) == s
  {
  }

  lemma PostUnposted(now: int, c: Cell, e: Event, save: Save)
    requires Unposted(c) && (!e.Begin? || !PostView(c).open)
    ensures Unposted(DoPost(now, c, e, save))
  {
    NothingPosted(now, PostView(c), e);
  }

  lemma OthersUnposted(cfg: Config, now: int, c: Cell, e: CellEvent)
    requires Unposted(c) && !e.PostBegin? && !e.PostStep? && !e.PostRecord?
    ensures Unposted(CellStep(cfg, now, c, e))
  {
  }

  lemma InTimeStep(cfg: Config, now: int, c: Cell, e: CellEvent)
    requires InTime(now, c)
    ensures InTime(now, CellStep(cfg, now, c, e))
  {
    if !Unposted(c) {
      FrozenStep(cfg, now, c, e);
    } else {
      match e
      case PostBegin(w) =>
        if PostView(c).open && MayPost(now, c) {
          FrozenStep(cfg, now, c, e);
        } else if MayPost(now, c) {
          PostUnposted(now, c, Begin(w, PostGoal(c), PostGoal(c)), NOTHING);
        }
      case PostStep(ev) => if PostingStep(ev) { PostUnposted(now, c, ev, NOTHING); }
      case PostRecord(w, save) => PostUnposted(now, c, Record(w), save);
      case _ => OthersUnposted(cfg, now, c, e);
    }
  }

  lemma {:induction false} InTimeRun(cfg: Config, t: Timed, run: seq<Moment>)
    requires InTime(t.now, t.cell)
    ensures var u := Run(cfg, t, run); InTime(u.now, u.cell)
    decreases |run|
  {
    if run != [] {
      if run[0].At? {
        InTimeStep(cfg, t.now, t.cell, run[0].e);
      }
      InTimeRun(cfg, Next(cfg, t, run[0]), run[1..]);
    }
  }

  /**
   In every run from the creation, with any number of senders and whatever goes wrong: at the moment at which an ad is
   in the channel, or has been, or its message is saved, or a sender is about to post it, the listing has a channel,
   there is a text, and the time at which the sides want it posted has come.
   */
  lemma NeverPostedEarly(cfg: Config, now: int, lessor: int, lessee: int, terms: Terms, channel: Option<int>,
                         run: seq<Moment>)
    ensures var u := Run(cfg, Timed(now, NewCell(cfg, lessor, lessee, terms, channel)), run);
      var c, details := u.cell, u.cell.deal.terms.details;
      c.ads != [] || c.removedAds > 0 || c.message.Some? || (exists w :: !PcOf(PostView(c), w).Idle?) ==>
        && c.listingChannel.Some? && details.message != ""
        && (details.postedAt.Some? ==> details.postedAt.value <= u.now)
  {
    InTimeRun(cfg, Timed(now, NewCell(cfg, lessor, lessee, terms, channel)), run);
  }
}
