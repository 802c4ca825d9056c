/** The requests of the two sides on a draft, and the workers that expire and complete deals. */
module DealService {
  import opened Decimal
  import opened Deals
  import opened DealLife
  import opened DealPayouts
  import opened DealSignings
  import opened Scripts
  import opened Tables

  function ErrorOf<T>(r: Result<T, MarketError>): Option<MarketError> {
    match r
    case Ok(_) => None
    case Err(e) => Some(e)
  }

  lemma DraftRows(cfg: Config, now: int, rows: Rows, id: int, e: DraftEvent)
    requires id in rows && AllAtRest(rows) && !e.SignRead?
    ensures var rows' := rows[id := DraftStep(cfg, rows[id], e)];
      AllAtRest(rows') && (AllSafe(cfg, now, rows) ==> AllSafe(cfg, now, rows'))
  {
    if AllSafe(cfg, now, rows) {
      SafeStep(cfg, now, rows[id], OnDraft(e));
    }
    RowChanged(cfg, now, rows, id, DraftStep(cfg, rows[id], e));
  }

  lemma SignedRows(cfg: Config, now: int, rows: Rows, id: int, user: int, wallet: Option<string>)
    requires id in rows && AllAtRest(rows)
    ensures var rows' := rows[id := SignOutcome(cfg, rows[id], user, wallet)];
      AllAtRest(rows') && (AllSafe(cfg, now, rows) ==> AllSafe(cfg, now, rows'))
  {
    if AllSafe(cfg, now, rows) {
      SignOutcomeSafe(cfg, now, rows[id], user, wallet);
    }
    RowChanged(cfg, now, rows, id, SignOutcome(cfg, rows[id], user, wallet));
  }

  /** What it takes to change a draft. */
  predicate MayChange(d: Deal, user: int) {
    d.status == Draft && (user == d.lessor || user == d.lessee)
  }

  /** What it takes to sign: a side of the draft whose connected wallet is its own payout address, and a text. */
  predicate MaySign(d: Deal, user: int, wallet: Option<string>) {
    MayChange(d, user) && MayAsk(d, user, wallet)
  }

  /** The side's own signature is over the row, the other one stays, and the deal is approved exactly if both match. */
  predicate SignedBy(cfg: Config, d: Deal, d': Deal, user: int) {
    var sig := Some(cfg.sign(d.terms, user, d.lessorPayout, d.lesseePayout));
    && d' == d.(status := d'.status, lessorSignature := if user == d.lessor then sig else d.lessorSignature,
                lesseeSignature := if user == d.lessor then d.lesseeSignature else sig)
    && (d'.status == Draft || d'.status == Approved)
    && (d'.status == Approved <==>
          && d'.lessorSignature == Some(cfg.sign(d.terms, d.lessor, d.lessorPayout, d.lesseePayout))
          && d'.lesseeSignature == Some(cfg.sign(d.terms, d.lessee, d.lessorPayout, d.lesseePayout)))
  }

  lemma SignsIff(cfg: Config, c: Cell, user: int, wallet: Option<string>)
    ensures var d, d' := c.deal, SignOutcome(cfg, c, user, wallet).deal;
      var r := PrepareSignature(cfg, d, user, wallet);
      && (MaySign(d, user, wallet) <==> r.Ok? && SignInTx(cfg, d, user, r.value).Ok?)
      && (MaySign(d, user, wallet) ==> SignedBy(cfg, d, d', user))
      && (!MaySign(d, user, wallet) ==> SignOutcome(cfg, c, user, wallet) == c)
  {
    SignReadIff(cfg, c, user, wallet);
  }

  class Service {
    const db: Database

    constructor (db: Database)
      ensures this.db == db
    {
      this.db := db;
    }

    /** Changes the terms of a draft: the amount to deposit follows the price, and both signatures are void. */
    method UpdateDealDraft(id: int, user: int, terms: Terms) returns (error: Option<MarketError>)
      requires db.Valid()
      modifies db`rows
      ensures db.Valid() && (old(db.Safe()) ==> db.Safe())
      ensures id !in old(db.rows) ==> error == Some(NotFound) && db.rows == old(db.rows)
      ensures error == None <==> id in old(db.rows) && MayChange(old(db.rows)[id].deal, user)
      ensures error != None ==> db.rows == old(db.rows)
      ensures id in old(db.rows) && error != None ==>
        error == Some(if old(db.rows)[id].deal.status == Draft then UnauthorizedSide else NotDraft)
      ensures id in old(db.rows) ==>
        && error == ErrorOf(UpdateDraft(db.cfg, old(db.rows)[id].deal, user, terms))
        && db.rows == old(db.rows)[id := DraftStep(db.cfg, old(db.rows)[id], EditDraft(user, terms))]
        && (error == None ==>
              var d, d' := old(db.rows)[id].deal, db.rows[id].deal;
              && d'.terms == terms && d'.escrowAmount == db.cfg.compute(terms.price)
              && d'.lessorSignature == None && d'.lesseeSignature == None
              && d'.status == Draft && d'.lessorPayout == d.lessorPayout && d'.lesseePayout == d.lesseePayout)
    {
      if id !in db.rows {
        return Some(NotFound);
      }
      DraftRows(db.cfg, db.now, db.rows, id, EditDraft(user, terms));
      var existing := db.rows[id].deal;
      if existing.status != Draft {
        return Some(NotDraft);
      }
      if user != existing.lessor && user != existing.lessee {
        return Some(UnauthorizedSide);
      }
      db.UpdateDealDraftFieldsAndClearSignatures(id, terms, db.cfg.compute(terms.price));
      error := None;
    }

    /** The two halves of signing, with nothing in between. */
    method SignDeal(id: int, user: int, wallet: Option<string>) returns (error: Option<MarketError>)
      requires db.Valid()
      modifies db`rows
      ensures db.Valid() && (old(db.Safe()) ==> db.Safe())
      ensures id !in old(db.rows) ==> error == Some(NotFound) && db.rows == old(db.rows)
      ensures id in old(db.rows) ==> db.rows == old(db.rows)[id := SignOutcome(db.cfg, old(db.rows)[id], user, wallet)]
      ensures id in old(db.rows) ==>
        var d := old(db.rows)[id].deal;
        var r := PrepareSignature(db.cfg, d, user, wallet);
        error == if r.Err? then Some(r.error) else ErrorOf(SignInTx(db.cfg, d, user, r.value))
      ensures error == None <==> id in old(db.rows) && MaySign(old(db.rows)[id].deal, user, wallet)
      ensures error == None ==> SignedBy(db.cfg, old(db.rows)[id].deal, db.rows[id].deal, user)
      ensures error != None ==> db.rows == old(db.rows)
    {
      if id !in db.rows {
        return Some(NotFound);
      }
      ghost var before := db.rows;
      var existing := db.rows[id].deal;
      var myPayout := existing.lesseePayout;
      if user == existing.lessor {
        myPayout := existing.lessorPayout;
      }
      if wallet.None? || wallet.value == "" {
        error := Some(WalletNotSet);
      } else if existing.lessorPayout == "" || existing.lesseePayout == "" {
        error := Some(PayoutNotSet);
      } else if Blank(existing.terms.details.message) {
        error := Some(MessageRequired);
      } else if wallet.value != myPayout {
        error := Some(WalletNotSet);
      } else {
        var sig := db.cfg.sign(existing.terms, user, existing.lessorPayout, existing.lesseePayout);
        error := db.SignDealInTx(id, user, sig);
      }
      assert db.rows == before[id := SignOutcome(db.cfg, before[id], user, wallet)];
      SignedRows(db.cfg, db.now, before, id, user, wallet);
      SignsIff(db.cfg, before[id], user, wallet);
    }

    method SetDealPayoutAddress(id: int, user: int, address: string) returns (error: Option<MarketError>)
      requires db.Valid()
      modifies db`rows
      ensures db.Valid() && (old(db.Safe()) ==> db.Safe())
      ensures id !in old(db.rows) ==> error == Some(NotFound) && db.rows == old(db.rows)
      ensures error == None <==> id in old(db.rows) && MayChange(old(db.rows)[id].deal, user) && address != ""
      ensures error != None ==> db.rows == old(db.rows)
      ensures id in old(db.rows) && !MayChange(old(db.rows)[id].deal, user) ==>
        error == Some(if old(db.rows)[id].deal.status == Draft then UnauthorizedSide else NotDraft)
      ensures id in old(db.rows) ==>
        && error == ErrorOf(SetPayout(old(db.rows)[id].deal, user, address))
        && db.rows == old(db.rows)[id := DraftStep(db.cfg, old(db.rows)[id], EditPayout(user, address))]
        && (error == None ==>
              var d, d' := old(db.rows)[id].deal, db.rows[id].deal;
              && d'.lessorPayout == (if user == d.lessor then address else d.lessorPayout)
              && d'.lesseePayout == (if user == d.lessee then address else d.lesseePayout)
              && d'.terms == d.terms && d'.status == Draft)
    {
      if id !in db.rows {
        return Some(NotFound);
      }
      DraftRows(db.cfg, db.now, db.rows, id, EditPayout(user, address));
      var existing := db.rows[id].deal;
      if existing.status != Draft {
        return Some(NotDraft);
      }
      if user != existing.lessor && user != existing.lessee {
        return Some(UnauthorizedSide);
      }
      if address == "" {
        return Some(WalletNotSet);
      }
      db.SetDealPayoutAddress(id, user, address);
      error := None;
    }

    method RejectDeal(id: int, user: int) returns (error: Option<MarketError>)
      requires db.Valid()
      modifies db`rows
      ensures db.Valid() && (old(db.Safe()) ==> db.Safe())
      ensures id !in old(db.rows) ==> error == Some(NotFound) && db.rows == old(db.rows)
      ensures error == None <==> id in old(db.rows) && MayChange(old(db.rows)[id].deal, user)
      ensures error != None ==> db.rows == old(db.rows)
      ensures id in old(db.rows) && error != None ==>
        var d := old(db.rows)[id].deal;
        error == Some(if user == d.lessor || user == d.lessee then NotDraft else UnauthorizedSide)
      ensures id in old(db.rows) ==>
        && error == ErrorOf(Reject(old(db.rows)[id].deal, user))
        && db.rows == old(db.rows)[id := DraftStep(db.cfg, old(db.rows)[id], DraftEvent.RejectDeal(user))]
        && (error == None ==>
              && old(db.rows)[id].deal.status == Draft
              && db.rows[id].deal == old(db.rows)[id].deal.(status := Rejected))
    {
      if id !in db.rows {
        return Some(NotFound);
      }
      DraftRows(db.cfg, db.now, db.rows, id, DraftEvent.RejectDeal(user));
      var existing := db.rows[id].deal;
      if user != existing.lessor && user != existing.lessee {
        return Some(UnauthorizedSide);
      }
      var updated := db.SetDealStatusRejected(id);
      error := if updated then None else Some(NotDraft);
    }

    /** Expires the listed deals that still wait for their deposit; the caller decides which deals are old enough. */
    method ExpireTimedOutDeposits(ids: seq<int>)
      requires db.Valid()
      modifies db`rows
      ensures db.Valid() && (old(db.Safe()) ==> db.Safe())
      ensures StepsTaken(old(db.rows), db.rows, ids, Expire)
      ensures OnlyStatus(old(db.rows), db.rows, set id | id in ids, {WaitingEscrowDeposit}, Expired)
    {
      for i := 0 to |ids|
        invariant StepsTaken(old(db.rows), db.rows, ids[..i], Expire)
      {
        ghost var before := db.rows;
        db.SetDealStatus(ids[i], WaitingEscrowDeposit, Expired);
        StepTaken(old(db.rows), before, db.rows, ids[..i], ids[i], Expire);
        assert ids[..i + 1] == ids[..i] + [ids[i]];
      }
      assert ids[..|ids|] == ids;
      StepsKeepSafe(db.cfg, db.now, old(db.rows), db.rows, ids, Expire);
    }

    /** One round of the worker that moves confirmed deals to their final status. */
    method CompleteAll()
      requires db.Valid()
      modifies db`rows
      ensures db.Valid() && (old(db.Safe()) ==> db.Safe())
      ensures db.rows.Keys == old(db.rows).Keys
      ensures forall id :: id in db.rows ==> db.rows[id] == EscrowStep(old(db.rows)[id], Complete)
      ensures OnlyStatus(old(db.rows), db.rows, old(db.rows).Keys, {EscrowReleaseConfirmed, EscrowRefundConfirmed},
                         DealStatus.Completed)
    {
      ghost var start := db.rows;
      var ids := db.List(Confirmable);
      for i := 0 to |ids|
        invariant StepsTaken(start, db.rows, ids[..i], Complete)
      {
        ghost var before := db.rows;
        db.SetDealStatusCompleted(ids[i]);
        StepTaken(start, before, db.rows, ids[..i], ids[i], Complete);
        assert ids[..i + 1] == ids[..i] + [ids[i]];
      }
      assert ids[..|ids|] == ids;
      AllCompleted(start, db.rows, ids);
      StepsKeepSafe(db.cfg, db.now, start, db.rows, ids, Complete);
    }
  }

  /** The deals among `ids` that have one of these statuses have got another one, and nothing else has changed. */
  ghost predicate OnlyStatus(before: Rows, after: Rows, ids: set<int>, from: set<DealStatus>, to: DealStatus) {
    && after.Keys == before.Keys
    && forall id :: id in before ==>
         after[id] == if id in ids && before[id].deal.status in from
                      then before[id].(deal := before[id].deal.(status := to)) else before[id]
  }

  /** The listed deals have taken a step that is worth taking only once, and no other deal has changed. */
  ghost predicate StepsTaken(before: Rows, after: Rows, ids: seq<int>, x: EscrowEvent) {
    && after.Keys == before.Keys
    && forall id :: id in before ==> after[id] == if id in ids then EscrowStep(before[id], x) else before[id]
  }

  lemma StepTaken(start: Rows, before: Rows, after: Rows, done: seq<int>, id: int, x: EscrowEvent)
    requires StepsTaken(start, before, done, x) && (x.Expire? || x.Complete?)
    requires after == if id in before then before[id := EscrowStep(before[id], x)] else before
    ensures StepsTaken(start, after, done + [id], x)
  {
  }

  lemma StepsAtRest(before: Rows, after: Rows, ids: seq<int>, x: EscrowEvent)
    requires AllAtRest(before) && StepsTaken(before, after, ids, x) && (x.Expire? || x.Complete?)
    ensures AllAtRest(after)
  {
  }

  lemma StepsSafe(cfg: Config, now: int, before: Rows, after: Rows, ids: seq<int>, x: EscrowEvent)
    requires AllSafe(cfg, now, before) && StepsTaken(before, after, ids, x)
    ensures AllSafe(cfg, now, after)
  {
    forall id | id in after
      ensures SafeInv(cfg, now, after[id])
    {
      RowStepSafe(cfg, now, before[id], id in ids, x);
    }
  }

  lemma StepsKeepSafe(cfg: Config, now: int, before: Rows, after: Rows, ids: seq<int>, x: EscrowEvent)
    requires AllAtRest(before) && StepsTaken(before, after, ids, x) && (x.Expire? || x.Complete?)
    ensures AllAtRest(after) && (AllSafe(cfg, now, before) ==> AllSafe(cfg, now, after))
  {
    StepsAtRest(before, after, ids, x);
    if AllSafe(cfg, now, before) {
      StepsSafe(cfg, now, before, after, ids, x);
    }
  }

  /** Completing the confirmed deals is completing all: the others do not change. */
  lemma AllCompleted(before: Rows, after: Rows, ids: seq<int>)
    requires StepsTaken(before, after, ids, Complete)
    requires forall id :: id in ids <==> id in before && Confirmable(before[id])
    ensures forall id :: id in after ==> after[id] == EscrowStep(before[id], Complete)
    ensures OnlyStatus(before, after, before.Keys, {EscrowReleaseConfirmed, EscrowRefundConfirmed},
                       DealStatus.Completed)
  {
  }

  predicate Confirmable(c: Cell) {
    c.deal.status == EscrowReleaseConfirmed || c.deal.status == EscrowRefundConfirmed
  }

  lemma RowStepSafe(cfg: Config, now: int, c: Cell, listed: bool, x: EscrowEvent)
    requires SafeInv(cfg, now, c)
    ensures SafeInv(cfg, now, if listed then EscrowStep(c, x) else c)
  {
    SafeStep(cfg, now, c, OnEscrow(x));
  }
}
