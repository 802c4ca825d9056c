/**
 Deals do get through: every deal that both sides can sign, on a listing with a channel and with payout addresses that
 parse, has a run without faults from its creation to its completion, of whatever duration it is.
 */
module DealJourneys {
  import opened DoOnce
  import opened Attempts
  import opened Decimal
  import opened Deals
  import opened DealLife
  import opened DealInvariant
  import opened DealPayouts
  import opened DealProgress
  import opened Scripts
  import opened SmoothRuns

  /** What the two sides bring into a deal. */
  datatype Sides = Sides(lessor: int, lessee: int, lessorPayout: string, lesseePayout: string)

  predicate CanSign(x: Sides, terms: Terms) {
    x.lessor != x.lessee && x.lessorPayout != "" && x.lesseePayout != "" && !Blank(terms.details.message)
  }

  function Start(cfg: Config, now: int, x: Sides, terms: Terms, channel: Option<int>): Timed {
    Created(cfg, now, x.lessor, x.lessee, terms, channel)
  }

  /** What the two sides have agreed on. */
  predicate Agreed(cfg: Config, c: Cell, x: Sides, terms: Terms, channel: Option<int>) {
    && c.deal.lessor == x.lessor && c.deal.lessee == x.lessee
    && c.deal.lessorPayout == x.lessorPayout && c.deal.lesseePayout == x.lesseePayout
    && c.deal.terms == terms && c.deal.escrowAmount == cfg.compute(terms.price) && c.listingChannel == channel
  }

  predicate Unpaid(c: Cell) {
    c.release == EMPTY_BOOK && c.refund == EMPTY_BOOK && c.wallet == []
  }

  /** A deal with these sides and terms, with nothing in flight and nothing posted or paid. */
  predicate Opened(cfg: Config, c: Cell, x: Sides, terms: Terms, channel: Option<int>, status: DealStatus) {
    && Agreed(cfg, c, x, terms, channel) && Unpaid(c)
    && c.deal.status == status && c.creator.Resting? && c.checker.Off? && c.passer.Unlisted? && c.message.None?
    && c.post == EMPTY_BOOK && c.ads == [] && c.removedAds == 0
  }

  // ----- up to the deposit -----

  /** Both sides set their payout addresses. */
  lemma Addressed(cfg: Config, now: int, x: Sides, terms: Terms, channel: Option<int>) returns (u: Timed)
    requires CanSign(x, terms)
    ensures Smooth(cfg, Start(cfg, now, x, terms, channel), u)
    ensures Opened(cfg, u.cell, x, terms, channel, Draft) && u.cell.deal.lesseeSignature == None
  {
    var t := Start(cfg, now, x, terms, channel);
    SmoothSelf(cfg, t);
    u := SmoothStep(cfg, t, t, OnDraft(EditPayout(x.lessor, x.lessorPayout)));
    u := SmoothStep(cfg, t, u, OnDraft(EditPayout(x.lessee, x.lesseePayout)));
  }

  /** One side reads the draft and signs it. */
  lemma SignedBy(cfg: Config, t: Timed, u: Timed, x: Sides, user: int) returns (v: Timed)
    requires Smooth(cfg, t, u) && (user == x.lessor || user == x.lessee)
    requires var d := u.cell.deal; CanSign(x, d.terms) && Opened(cfg, u.cell, x, d.terms, u.cell.listingChannel, Draft)
    ensures Smooth(cfg, t, v)
    ensures var c := u.cell;
      var sig := cfg.sign(c.deal.terms, user, x.lessorPayout, x.lesseePayout);
      SignInTx(cfg, c.deal, user, sig).Ok? && v.cell.deal == SignInTx(cfg, c.deal, user, sig).value
      && v.cell == c.(deal := v.cell.deal, signRequests := v.cell.signRequests)
  {
    var d := u.cell.deal;
    var sig := cfg.sign(d.terms, user, x.lessorPayout, x.lesseePayout);
    var wallet := if user == x.lessor then x.lessorPayout else x.lesseePayout;
    v := SmoothStep(cfg, t, u, OnDraft(SignRead(user, Some(wallet))));
    assert SignRequest(user, sig) in v.cell.signRequests;
    v := SmoothStep(cfg, t, v, OnDraft(SignCommit(SignRequest(user, sig))));
  }

  lemma BothSigned(cfg: Config, now: int, x: Sides, terms: Terms, channel: Option<int>) returns (u: Timed)
    requires CanSign(x, terms)
    ensures Smooth(cfg, Start(cfg, now, x, terms, channel), u) && Opened(cfg, u.cell, x, terms, channel, Approved)
  {
    var t := Start(cfg, now, x, terms, channel);
    u := Addressed(cfg, now, x, terms, channel);
    u := SignedBy(cfg, t, u, x, x.lessor);
    u := SignedBy(cfg, t, u, x, x.lessee);
  }

  /** The escrow wallet with this seed, as the address of the deal and in the vault. */
  predicate Escrowed(c: Cell, seed: int) {
    c.deal.escrowAddress == Some(Wallet(seed)) && c.vault == Some(seed)
  }

  /** Every deal on which both sides agree gets its escrow wallet and its deposit, also without a channel. */
  lemma DepositConfirmed(cfg: Config, now: int, x: Sides, terms: Terms, channel: Option<int>, seed: int)
    returns (u: Timed)
    requires CanSign(x, terms)
    ensures SmoothLife(cfg, Start(cfg, now, x, terms, channel), seed, u)
    ensures Opened(cfg, u.cell, x, terms, channel, EscrowDepositConfirmed) && Escrowed(u.cell, seed)
  {
    var t := Start(cfg, now, x, terms, channel);
    u := BothSigned(cfg, now, x, terms, channel);
    var v := Next(cfg, u, At(OnEscrow(CreatorRead(seed))));
    assert v.cell == u.cell.(creator := Made(seed));
    u := EscrowMade(cfg, v, seed);
  }

  /** The escrow creator stores its new seed and sets the address, and the deposit arrives. */
  lemma EscrowMade(cfg: Config, u: Timed, seed: int) returns (v: Timed)
    requires u.cell.creator == Made(seed) && u.cell.deal.status == Approved
    ensures Smooth(cfg, u, v)
    ensures v.cell == u.cell.(creator := Resting, vault := Some(seed),
                              deal := u.cell.deal.(status := EscrowDepositConfirmed,
                                                   escrowAddress := Some(Wallet(seed))))
  {
    SmoothSelf(cfg, u);
    v := SmoothStep(cfg, u, u, OnEscrow(CreatorStore));
    v := SmoothStep(cfg, u, v, OnEscrow(CreatorSet));
    v := SmoothStep(cfg, u, v, OnEscrow(Deposit(v.cell.deal.escrowAmount)));
  }

  // ----- the post and its checks -----

  lemma PostDue(cfg: Config, u: Timed) returns (v: Timed)
    requires Postable(u.cell)
    ensures Smooth(cfg, u, v) && v.cell == u.cell && MayPost(v.now, v.cell)
  {
    var postedAt := u.cell.deal.terms.details.postedAt;
    SmoothSelf(cfg, u);
    v := SmoothWait(cfg, u, u, Later(u.now, if postedAt.Some? then postedAt.value else u.now));
  }

  /** The deal after its ad was posted at time `now`. */
  function Posted(c: Cell, now: int, idKnown: bool, book: Book): Cell {
    c.(deal := c.deal.(status := InProgress), ads := [PostGoal(c)], post := book,
       message := Some(Message(Exists, now + HOUR, now + c.deal.terms.duration * HOUR, idKnown)),
       checks := Checks(now + HOUR, 0, [], false))
  }

  /** The sender posts the ad; it learns its id or not. */
  lemma PostedBy(cfg: Config, u: Timed, x: Sides, terms: Terms, channel: Option<int>, idKnown: bool) returns (v: Timed)
    requires Opened(cfg, u.cell, x, terms, channel, EscrowDepositConfirmed) && MayPost(u.now, u.cell)
    ensures Smooth(cfg, u, v) && v.cell == Posted(u.cell, v.now, idKnown, v.cell.post)
  {
    var c, save := u.cell, Save(0, idKnown);
    PostScriptSteps(cfg, u.now, c, 0, GOOD, save);
    assert Attempted(Posting, u.now, PostGoal(c), PostGoal(c), PostView(c), GOOD).log == [PostGoal(c)];
    SmoothPost(cfg, u.now, c, save);
    v := Timed(u.now, Steps(cfg, u.now, c, PostScript(u.now, c, 0, GOOD, save)));
  }

  /** The channel's owner removes the ad. */
  lemma Removed(cfg: Config, u: Timed) returns (v: Timed)
    requires |u.cell.ads| == 1 && u.cell.removedAds == 0
    ensures Smooth(cfg, u, v) && v.cell == u.cell.(ads := [], removedAds := 1)
  {
    SmoothSelf(cfg, u);
    SmoothNext(cfg, u, u, At(PostStep(Vanish(0))));
    v := Next(cfg, u, At(PostStep(Vanish(0))));
  }

  predicate Unchecked(c: Cell) {
    c.message.Some? && c.message.value.status == Exists && c.checker.Off?
  }

  /** The next check, once it is due. */
  lemma CheckedOnce(cfg: Config, u: Timed) returns (v: Timed)
    requires Unchecked(u.cell)
    ensures Smooth(cfg, u, v) && v.cell == Checked(v.now, u.cell, Found(u.cell))
  {
    SmoothSelf(cfg, u);
    var w := SmoothWait(cfg, u, u, Later(u.now, u.cell.message.value.nextCheck));
    v := SmoothStep(cfg, u, w, OnCheck(CheckPick));
    v := SmoothStep(cfg, u, v, OnCheck(CheckLook));
    v := SmoothStep(cfg, u, v, OnCheck(CheckWrite));
  }

  /** A check has changed nothing but the message and the record of the checks. */
  predicate OnlyChecked(c: Cell, c': Cell, status: MessageStatus) {
    && c.message.Some? && c'.message.Some?
    && c' == c.(message := c'.message, checks := c'.checks)
    && c'.message.value.status == status && c'.message.value.idKnown == c.message.value.idKnown
  }

  /** An ad that stays in the channel passes its last check, however many it takes. */
  lemma {:induction false} ChecksPass(cfg: Config, u: Timed) returns (v: Timed)
    requires Unchecked(u.cell) && Found(u.cell)
    ensures Smooth(cfg, u, v) && OnlyChecked(u.cell, v.cell, Passed)
    decreases u.cell.message.value.untilTs - u.cell.message.value.nextCheck
  {
    var w := CheckedOnce(cfg, u);
    var m := u.cell.message.value;
    if m.nextCheck + HOUR > m.untilTs {
      v := w;
    } else {
      v := ChecksPass(cfg, w);
      SmoothTrans(cfg, u, w, v);
    }
  }

  /** An ad that cannot be found fails its first check. */
  lemma CheckFails(cfg: Config, u: Timed) returns (v: Timed)
    requires Unchecked(u.cell) && !Found(u.cell)
    ensures Smooth(cfg, u, v) && OnlyChecked(u.cell, v.cell, Deleted)
  {
    v := CheckedOnce(cfg, u);
  }

  /** The passed-message worker acts on the result. */
  lemma PassedOn(cfg: Config, u: Timed, passed: bool) returns (v: Timed)
    requires u.cell.passer.Unlisted?
    requires u.cell.message.Some? && u.cell.message.value.status == if passed then Passed else Deleted
    ensures Smooth(cfg, u, v) && v.cell.message.Some? && v.cell.message.value.idKnown == u.cell.message.value.idKnown
    ensures v.cell == u.cell.(deal := u.cell.deal.(status := Waiting(passed)), message := v.cell.message)
  {
    SmoothSelf(cfg, u);
    v := SmoothStep(cfg, u, u, OnCheck(PassList));
    v := SmoothStep(cfg, u, v, OnCheck(PassWrite));
  }

  /** A deal that waits for its payout, with nothing paid; the ad is live or was removed, and its id is known or not. */
  predicate Arrived(cfg: Config, c: Cell, x: Sides, terms: Terms, channel: int, seed: int, idKnown: bool, live: bool) {
    && Agreed(cfg, c, x, terms, Some(channel)) && Unpaid(c) && Escrowed(c, seed)
    && c.deal.status == Waiting(live && idKnown) && c.creator.Resting?
    && c.message.Some? && c.message.value.idKnown == idKnown
    && c.ads == (if live then [PostGoal(c)] else []) && c.removedAds == (if live then 0 else 1)
  }

  lemma PostArrives(cfg: Config, u: Timed, idKnown: bool, live: bool) returns (v: Timed)
    requires Unchecked(u.cell) && u.cell.passer.Unlisted? && u.cell.message.value.idKnown == idKnown
    requires |u.cell.ads| == 1 && u.cell.removedAds == 0
    ensures Smooth(cfg, u, v) && v.cell.message.Some? && v.cell.message.value.idKnown == idKnown
    ensures v.cell == u.cell.(deal := u.cell.deal.(status := Waiting(live && idKnown)),
                              message := v.cell.message, checks := v.cell.checks,
                              ads := if live then u.cell.ads else [], removedAds := if live then 0 else 1)
  {
    SmoothSelf(cfg, u);
    var w := u;
    if !live {
      w := Removed(cfg, u);
    }
    var checked;
    if live && idKnown {
      checked := ChecksPass(cfg, w);
    } else {
      checked := CheckFails(cfg, w);
    }
    v := PassedOn(cfg, checked, live && idKnown);
    SmoothTrans(cfg, u, w, checked);
    SmoothTrans(cfg, u, checked, v);
  }

  /**
   Deals of whatever duration come to wait: for the release if the ad stays, and for the refund if it is removed or its
   id is not known.
   */
  lemma ComesToWait(cfg: Config, now: int, x: Sides, terms: Terms, channel: int, seed: int, idKnown: bool, live: bool)
    returns (u: Timed)
    requires CanSign(x, terms)
    ensures SmoothLife(cfg, Start(cfg, now, x, terms, Some(channel)), seed, u)
    ensures Arrived(cfg, u.cell, x, terms, channel, seed, idKnown, live)
  {
    var t := Start(cfg, now, x, terms, Some(channel));
    var confirmed := DepositConfirmed(cfg, now, x, terms, Some(channel), seed);
    var due := PostDue(cfg, confirmed);
    LifeGoesOn(cfg, t, seed, confirmed, due);
    var posted := PostedBy(cfg, due, x, terms, Some(channel), idKnown);
    LifeGoesOn(cfg, t, seed, due, posted);
    u := PostArrives(cfg, posted, idKnown, live);
    LifeGoesOn(cfg, t, seed, posted, u);
  }

  // ----- the payout -----

  /** The payout worker pays a deal for which nothing has been paid, and the deal is completed. */
  lemma PaidAndCompleted(cfg: Config, u: Timed, release: bool) returns (v: Timed)
    requires var c := u.cell;
      && Unpaid(c) && c.deal.status == Waiting(release) && c.creator.Resting? && Seeded(c)
      && PreparePayout(cfg, c.deal, c.vault, release).Ok?
    ensures Smooth(cfg, u, v) && v.cell.deal == u.cell.deal.(status := DealStatus.Completed)
    ensures v.cell.wallet == [PayGoal(cfg, u.cell.deal, release)]
    ensures v.cell.ads == u.cell.ads && v.cell.removedAds == u.cell.removedAds
    ensures v.cell.vault == u.cell.vault && v.cell.listingChannel == u.cell.listingChannel
  {
    var c := u.cell;
    PreparesGoal(cfg, c, release);
    PayScriptSteps(cfg, u.now, c, release, 0, GOOD);
    SmoothPay(cfg, u.now, c, release);
    var w := Timed(u.now, Steps(cfg, u.now, c, PayScript(cfg, u.now, c, release, 0, GOOD)));
    v := SmoothStep(cfg, u, w, OnEscrow(Complete));
  }

  /** The transfer that closes the deal. */
  function Settlement(cfg: Config, x: Sides, terms: Terms, seed: int, release: bool): Effect {
    Transfer(Wallet(seed), if release then x.lessorPayout else x.lesseePayout, cfg.extract(cfg.compute(terms.price)))
  }

  lemma ArrivedIsPayable(cfg: Config, c: Cell, x: Sides, terms: Terms, channel: int, seed: int, live: bool)
    requires CanSign(x, terms) && cfg.parses(if live then x.lessorPayout else x.lesseePayout)
    requires Arrived(cfg, c, x, terms, channel, seed, true, live)
    ensures Seeded(c) && PreparePayout(cfg, c.deal, c.vault, live).Ok?
    ensures PayGoal(cfg, c.deal, live) == Settlement(cfg, x, terms, seed, live)
    ensures PostGoal(c) == Post(channel, terms.details.message)
  {
  }

  /**
   Every deal that can be signed, on a listing with a channel and with payout addresses that parse, whatever its price
   and duration, has a smooth life to its completion: with the ad posted once and left in the channel and exactly the
   price paid to the lessor, or with the ad removed and the price paid back to the lessee.
   */
  lemma Completes(cfg: Config, now: int, x: Sides, terms: Terms, channel: int, seed: int, live: bool) returns (u: Timed)
    requires CanSign(x, terms) && cfg.parses(if live then x.lessorPayout else x.lesseePayout)
    ensures SmoothLife(cfg, Start(cfg, now, x, terms, Some(channel)), seed, u)
    ensures u.cell.deal.status == DealStatus.Completed && Agreed(cfg, u.cell, x, terms, Some(channel))
    ensures Escrowed(u.cell, seed) && u.cell.wallet == [Settlement(cfg, x, terms, seed, live)]
    ensures u.cell.ads == (if live then [Post(channel, terms.details.message)] else [])
    ensures u.cell.removedAds == (if live then 0 else 1)
  {
    var t := Start(cfg, now, x, terms, Some(channel));
    var waiting := ComesToWait(cfg, now, x, terms, channel, seed, true, live);
    ArrivedIsPayable(cfg, waiting.cell, x, terms, channel, seed, live);
    u := PaidAndCompleted(cfg, waiting, live);
    LifeGoesOn(cfg, t, seed, waiting, u);
  }
}
