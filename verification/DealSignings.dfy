/**
 Who changes and signs a draft: only its two sides; and every signature that approves a deal was asked for by that side,
 with its own payout address as its connected wallet, on an ad with a text.
 */
module DealSignings {
  import opened Decimal
  import opened Deals
  import opened DealLife
  import opened DealInvariant
  import opened DealTheorems

  // ----- one request -----

  function RequestingUser(e: DraftEvent): int {
    match e
    case SignRead(user, _) => user
    case SignCommit(request) => request.user
    case EditDraft(user, _) => user
    case EditPayout(user, _) => user
    case RejectDeal(user) => user
  }

  /** A request changes the deal only if it comes from one of its sides while it is a draft. */
  lemma OnlySidesChangeDrafts(cfg: Config, c: Cell, e: DraftEvent)
    ensures var d, d' := c.deal, DraftStep(cfg, c, e).deal;
      && d'.lessor == d.lessor && d'.lessee == d.lessee
      && (d' != d ==> d.status == Draft && (RequestingUser(e) == d.lessor || RequestingUser(e) == d.lessee))
      && (d'.lessorPayout != d.lessorPayout ==> RequestingUser(e) == d.lessor)
      && (d'.lesseePayout != d.lesseePayout ==> RequestingUser(e) == d.lessee)
  {
  }

  /** The connected wallet is the user's own payout address, both addresses are set, and the text is not just space. */
  predicate MayAsk(d: Deal, user: int, wallet: Option<string>) {
    && d.lessorPayout != "" && d.lesseePayout != ""
    && wallet == Some(if user == d.lessor then d.lessorPayout else d.lesseePayout)
    && HasText(d.terms.details.message)
  }

  predicate HasText(s: string) {
    exists i :: 0 <= i < |s| && !IsSpace(s[i])
  }

  /** Reading a deal to sign it leads to a signature exactly then, over what was read. */
  lemma SignReadIff(cfg: Config, c: Cell, user: int, wallet: Option<string>)
    ensures var d := c.deal;
      DraftStep(cfg, c, SignRead(user, wallet)) ==
      if MayAsk(d, user, wallet)
      then c.(signRequests :=
                c.signRequests + {SignRequest(user, cfg.sign(d.terms, user, d.lessorPayout, d.lesseePayout))})
      else c
  {
    var text := c.deal.terms.details.message;
    assert HasText(text) <==> !Blank(text);
  }

  // ----- whole runs -----

  /** Step `k` of the run is a request of this user to sign, rightly made, which came to this signature. */
  predicate AskedAt(cfg: Config, t: Timed, run: seq<Moment>, k: nat, user: int, sig: Signature)
    requires k < |run|
  {
    var d := Run(cfg, t, run[..k]).cell.deal;
    && run[k].At? && run[k].e.OnDraft? && run[k].e.d.SignRead? && run[k].e.d.user == user
    && MayAsk(d, user, run[k].e.d.userWallet)
    && sig == cfg.sign(d.terms, user, d.lessorPayout, d.lesseePayout)
  }

  predicate Asked(cfg: Config, t: Timed, run: seq<Moment>, user: int, sig: Signature) {
    exists k :: 0 <= k < |run| && AskedAt(cfg, t, run, k, user, sig)
  }

  /** Every signature, waiting or in the row, was asked for by its side. */
  predicate Traced(cfg: Config, t: Timed, run: seq<Moment>, c: Cell) {
    && (forall r :: r in c.signRequests ==> Asked(cfg, t, run, r.user, r.sig))
    && (c.deal.lessorSignature.Some? ==> Asked(cfg, t, run, c.deal.lessor, c.deal.lessorSignature.value))
    && (c.deal.lesseeSignature.Some? ==> Asked(cfg, t, run, c.deal.lessee, c.deal.lesseeSignature.value))
  }

  lemma AskedLater(cfg: Config, t: Timed, run: seq<Moment>, m: Moment, user: int, sig: Signature)
    requires Asked(cfg, t, run, user, sig)
    ensures Asked(cfg, t, run + [m], user, sig)
  {
    var k :| 0 <= k < |run| && AskedAt(cfg, t, run, k, user, sig);
    assert (run + [m])[..k] == run[..k] && (run + [m])[k] == run[k];
    assert AskedAt(cfg, t, run + [m], k, user, sig);
  }

  lemma AskedNow(cfg: Config, t: Timed, run: seq<Moment>, user: int, wallet: Option<string>)
    requires MayAsk(Run(cfg, t, run).cell.deal, user, wallet)
    ensures var d := Run(cfg, t, run).cell.deal;
      Asked(cfg, t, run + [At(OnDraft(SignRead(user, wallet)))], user,
            cfg.sign(d.terms, user, d.lessorPayout, d.lesseePayout))
  {
    var d := Run(cfg, t, run).cell.deal;
    var later := run + [At(OnDraft(SignRead(user, wallet)))];
    assert later[..|run|] == run;
    assert AskedAt(cfg, t, later, |run|, user, cfg.sign(d.terms, user, d.lessorPayout, d.lesseePayout));
  }

  /** What any other step does to signatures: it keeps them, voids them, or takes requested ones. */
  predicate Carried(c: Cell, c': Cell) {
    && c'.signRequests <= c.signRequests && c'.deal.lessor == c.deal.lessor && c'.deal.lessee == c.deal.lessee
    && (c'.deal.lessorSignature.Some? ==>
          || c'.deal.lessorSignature == c.deal.lessorSignature
          || SignRequest(c.deal.lessor, c'.deal.lessorSignature.value) in c.signRequests)
    && (c'.deal.lesseeSignature.Some? ==>
          || c'.deal.lesseeSignature == c.deal.lesseeSignature
          || SignRequest(c.deal.lessee, c'.deal.lesseeSignature.value) in c.signRequests)
  }

  lemma DraftCarries(cfg: Config, c: Cell, e: DraftEvent)
    requires !e.SignRead?
    ensures Carried(c, DraftStep(cfg, c, e))
  {
  }

  lemma OthersCarry(cfg: Config, now: int, c: Cell, e: CellEvent)
    requires !e.OnDraft?
    ensures Carried(c, CellStep(cfg, now, c, e))
  {
  }

  lemma CarriedTraced(cfg: Config, t: Timed, run: seq<Moment>, m: Moment, c: Cell, c': Cell)
    requires Traced(cfg, t, run, c) && Carried(c, c')
    ensures Traced(cfg, t, run + [m], c')
  {
    forall user, sig | Asked(cfg, t, run, user, sig)
      ensures Asked(cfg, t, run + [m], user, sig)
    {
      AskedLater(cfg, t, run, m, user, sig);
    }
  }

  lemma TracedStep(cfg: Config, t: Timed, run: seq<Moment>, m: Moment)
    requires Traced(cfg, t, run, Run(cfg, t, run).cell)
    ensures Traced(cfg, t, run + [m], Next(cfg, Run(cfg, t, run), m).cell)
  {
    var u := Run(cfg, t, run);
    if m.At? && m.e.OnDraft? && m.e.d.SignRead? {
      SignReadIff(cfg, u.cell, m.e.d.user, m.e.d.userWallet);
      CarriedTraced(cfg, t, run, m, u.cell, u.cell);
      if MayAsk(u.cell.deal, m.e.d.user, m.e.d.userWallet) {
        AskedNow(cfg, t, run, m.e.d.user, m.e.d.userWallet);
      }
    } else {
      if m.At? {
        if m.e.OnDraft? {
          DraftCarries(cfg, u.cell, m.e.d);
        } else {
          OthersCarry(cfg, u.now, u.cell, m.e);
        }
      }
      CarriedTraced(cfg, t, run, m, u.cell, Next(cfg, u, m).cell);
    }
  }

  lemma {:induction false} TracedRun(cfg: Config, t: Timed, run: seq<Moment>)
    requires t.cell.signRequests == {} && t.cell.deal.lessorSignature == None && t.cell.deal.lesseeSignature == None
    ensures Traced(cfg, t, run, Run(cfg, t, run).cell)
    decreases |run|
  {
    if run != [] {
      var init, m := run[..|run| - 1], run[|run| - 1];
      assert run == init + [m];
      TracedRun(cfg, t, init);
      TracedStep(cfg, t, init, m);
      RunConcat(cfg, t, init, [m]);
      assert [m][1..] == [];
      assert Run(cfg, Run(cfg, t, init), [m]) == Run(cfg, Next(cfg, Run(cfg, t, init), m), []);
    }
  }

  /**
   In every run from the creation, whatever is edited in between and however late requests commit: a deal that has been
   approved was signed by both sides, each of which asked for its signature with its own payout address as connected
   wallet, on a draft with a text, and got one that is that of the approved deal.
   */
  lemma ApprovedByBothWallets(cfg: Config, now: int, lessor: int, lessee: int, terms: Terms, channel: Option<int>,
                              run: seq<Moment>)
    ensures var t := Timed(now, NewCell(cfg, lessor, lessee, terms, channel));
      var d := Run(cfg, t, run).cell.deal;
      && d.lessor == lessor && d.lessee == lessee
      && (d.status != Draft && d.status != Rejected ==>
            && Asked(cfg, t, run, lessor, cfg.sign(d.terms, lessor, d.lessorPayout, d.lesseePayout))
            && Asked(cfg, t, run, lessee, cfg.sign(d.terms, lessee, d.lessorPayout, d.lesseePayout)))
  {
    var t := Timed(now, NewCell(cfg, lessor, lessee, terms, channel));
    NewCellInv(cfg, now, lessor, lessee, terms, channel);
    CellRunInv(cfg, t, run);
    TracedRun(cfg, t, run);
    SidesStay(cfg, t, run);
  }

  lemma {:induction false} SidesStay(cfg: Config, t: Timed, run: seq<Moment>)
    ensures var d := Run(cfg, t, run).cell.deal; d.lessor == t.cell.deal.lessor && d.lessee == t.cell.deal.lessee
    decreases |run|
  {
    if run != [] {
      if run[0].At? {
        if run[0].e.OnDraft? {
          OnlySidesChangeDrafts(cfg, t.cell, run[0].e.d);
        } else {
          OthersCarry(cfg, t.now, t.cell, run[0].e);
        }
      }
      SidesStay(cfg, Next(cfg, t, run[0]), run[1..]);
    }
  }
}
