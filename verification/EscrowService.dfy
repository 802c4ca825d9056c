/** The escrow service and its workers, over the tables. */
module EscrowService {
  import opened DoOnce
  import opened Attempts
  import opened Decimal
  import opened Deals
  import opened DealLife
  import opened DealInvariant
  import opened DealPayouts
  import opened Scripts
  import opened Tables
  import Deposits

  datatype ServiceError =
    | DealNotFound
    | NotApproved
    | CannotPay(reason: ActionError)
    | AlreadyLocked
    | TransferFailed
    | DatabaseError

  /** What the first half of a payout came to. */
  datatype Recovery = NothingFound | PayoutRecorded | NotRecorded

  /** The transfer that the approved deal calls for. */
  function Agreed(cfg: Config, c: Cell, release: bool): Effect {
    var r := PreparePayout(cfg, c.deal, c.vault, release);
    if r.Ok? then r.value.order else PayGoal(cfg, c.deal, release)
  }

  /** How an attempt that did or did not get its lock ends. */
  predicate Concluded(error: Option<ServiceError>, locked: bool, luck: Luck) {
    && (error == None <==> locked && luck.sent && luck.recorded)
    && (locked && luck.sent && !luck.recorded ==> error == Some(DatabaseError))
  }

  /**
   A payout that is reported as done has confirmed the deal.  One that is reported as failed has not, and it has paid
   nothing either, unless the transfer was made and the database did not record it.
   */
  predicate Reported(c: Cell, c': Cell, release: bool, order: Effect, error: Option<ServiceError>, luck: Luck) {
    if error == None then c'.deal == c.deal.(status := Confirmed(release))
    else
      && c'.deal == c.deal
      && (c'.wallet == c.wallet
          || (c'.wallet == c.wallet + [order] && error == Some(DatabaseError) && luck.sent && !luck.recorded))
  }

  // ----- what an undisturbed payout promises, in terms of the rows -----

  /** The deal waits for this payout, its address parses, and no lock on the payout is active. */
  predicate PayableNow(cfg: Config, now: int, c: Cell, release: bool) {
    && c.deal.status == (if release then WaitingEscrowRelease else WaitingEscrowRefund)
    && cfg.parses(if release then c.deal.lessorPayout else c.deal.lesseePayout)
    && Unlocked(now, PayLocks(c, release))
  }

  /** The deal is confirmed, and its wallet has made exactly one transfer: the price, to the side that it belongs to. */
  predicate PaidAsAgreed(cfg: Config, c: Cell, c': Cell, release: bool) {
    && c'.deal == c.deal.(status := if release then EscrowReleaseConfirmed else EscrowRefundConfirmed)
    && c.deal.escrowAddress.Some?
    && c'.wallet == [Transfer(c.deal.escrowAddress.value,
                              if release then c.deal.lessorPayout else c.deal.lesseePayout,
                              cfg.extract(cfg.compute(c.deal.terms.price)))]
  }

  /** The outcome of an execution without failures, without saying how it comes about. */
  predicate PaidIfPayable(cfg: Config, now: int, c: Cell, c': Cell, release: bool, error: Option<ServiceError>) {
    && (error == None <==> PayableNow(cfg, now, c, release))
    && if error == None then PaidAsAgreed(cfg, c, c', release) else c'.deal == c.deal && c'.wallet == c.wallet
  }

  /** What an execution has done that found the deal waiting, and which of its calls failed. */
  predicate Executed(now: int, c: Cell, c': Cell, id: int, release: bool, order: Effect, key: Effect,
                     error: Option<ServiceError>, luck: Luck, before: seq<Failure>, after: seq<Failure>)
  {
    var s := PayView(c, release);
    && c' == PutPay(c, release, Attempted(Paying, now, order, key, s, luck))
    && Reported(c, c', release, order, error, luck)
    && Blamed(Paying, id, |s.locks|, luck.read && Recovers(now, key, s), luck, before, after)
  }

  /** How an execution reports, which of its calls failed, and that it leaves no lock behind that it could release. */
  predicate PayReported(cfg: Config, now: int, c: Cell, c': Cell, id: int, release: bool, error: Option<ServiceError>,
                        luck: Luck, before: seq<Failure>, after: seq<Failure>)
  {
    && Reported(c, c', release, Agreed(cfg, c, release), error, luck)
    && PayBlamed(cfg, now, c, id, release, luck, before, after)
    && (error == None ==> PreparePayout(cfg, c.deal, c.vault, release).Ok?)
    && (Unlocked(now, PayLocks(c, release)) && !LockKept(id, before, after) ==> Unlocked(now, PayLocks(c', release)))
  }

  /** The calls behind the failures of an execution, if it came as far as making any. */
  predicate PayBlamed(cfg: Config, now: int, c: Cell, id: int, release: bool, luck: Luck, before: seq<Failure>,
                      after: seq<Failure>) {
    var r := PreparePayout(cfg, c.deal, c.vault, release);
    var s := PayView(c, release);
    if r.Err? then luck == GOOD
    else Blamed(Paying, id, |s.locks|, luck.read && Recovers(now, r.value.key, s), luck, before, after)
  }

  /** The locks on this payout. */
  function PayLocks(c: Cell, release: bool): seq<Lock> {
    if release then c.release.locks else c.refund.locks
  }

  /** Unless it could not be released, an execution leaves no lock behind, whether it pays or fails. */
  lemma LeavesNoLock(cfg: Config, now: int, c: Cell, id: int, release: bool, luck: Luck, before: seq<Failure>,
                     after: seq<Failure>)
    requires PayBlamed(cfg, now, c, id, release, luck, before, after) && !LockKept(id, before, after)
    requires Unlocked(now, PayLocks(c, release))
    ensures Unlocked(now, PayLocks(PayOutcome(cfg, now, c, release, luck), release))
  {
    var r := PreparePayout(cfg, c.deal, c.vault, release);
    if r.Ok? {
      var s := PayView(c, release);
      LockReleased(Paying, id, |s.locks|, luck.read && Recovers(now, r.value.key, s), luck, before, after);
      LocksInUse(now, s.locks);
      NoLockLeft(Paying, now, r.value.order, r.value.key, s, luck);
      LocksInUse(now, Attempted(Paying, now, r.value.order, r.value.key, s, luck).locks);
    }
  }

  lemma PayReports(cfg: Config, now: int, c: Cell, c': Cell, id: int, release: bool, error: Option<ServiceError>,
                   luck: Luck, before: seq<Failure>, after: seq<Failure>)
    requires c' == PayOutcome(cfg, now, c, release, luck)
    requires Reported(c, c', release, Agreed(cfg, c, release), error, luck)
    requires PayBlamed(cfg, now, c, id, release, luck, before, after)
    requires error == None ==> PreparePayout(cfg, c.deal, c.vault, release).Ok?
    ensures PayReported(cfg, now, c, c', id, release, error, luck, before, after)
  {
    if Unlocked(now, PayLocks(c, release)) && !LockKept(id, before, after) {
      LeavesNoLock(cfg, now, c, id, release, luck, before, after);
    }
  }

  lemma SparedLuck(cfg: Config, now: int, c: Cell, id: int, release: bool, luck: Luck, before: seq<Failure>,
                   after: seq<Failure>)
    requires PayBlamed(cfg, now, c, id, release, luck, before, after) && Spared(id, before, after)
    ensures luck == GOOD
  {
    var r := PreparePayout(cfg, c.deal, c.vault, release);
    if r.Ok? {
      var s := PayView(c, release);
      SparedIsGood(Paying, id, |s.locks|, luck.read && Recovers(now, r.value.key, s), luck, before, after);
    }
  }

  /** An execution without failures pays a safe deal as agreed, exactly if it can be paid now. */
  lemma GoodPay(cfg: Config, now: int, c: Cell, release: bool)
    requires SafeInv(cfg, now, c) && c == AtRest(c)
    ensures var c' := PayOutcome(cfg, now, c, release, GOOD);
      if PayableNow(cfg, now, c, release) then PaidAsAgreed(cfg, c, c', release)
      else c'.deal == c.deal && c'.wallet == c.wallet
  {
    CanPrepareNow(cfg, now, c, release);
    if c.deal.status == Waiting(release) && cfg.parses(PayoutOf(c.deal, release)) {
      PreparesGoal(cfg, c, release);
      WaitingInv(cfg, now, c, release);
      GoodAttempt(cfg, now, c, release);
    }
  }

  lemma CanPrepareNow(cfg: Config, now: int, c: Cell, release: bool)
    requires CellInv(cfg, now, c)
    ensures PreparePayout(cfg, c.deal, c.vault, release).Ok? <==>
            c.deal.status == Waiting(release) && cfg.parses(PayoutOf(c.deal, release))
  {
    if c.deal.status == Waiting(release) {
      CanPrepare(cfg, now, c, release);
    }
  }

  lemma PayableLocks(cfg: Config, now: int, c: Cell, release: bool)
    ensures PayableNow(cfg, now, c, release) <==>
      && c.deal.status == Waiting(release) && cfg.parses(PayoutOf(c.deal, release))
      && !AnyActive(now, BookOf(c, release).locks)
  {
    LocksInUse(now, BookOf(c, release).locks);
  }

  lemma GoodAttempt(cfg: Config, now: int, c: Cell, release: bool)
    requires c.deal.status == Waiting(release) && Priced(cfg, c.deal) && c.deal.escrowAddress.Some?
    requires DoOnce.Inv(now, PayGoal(cfg, c.deal, release), PayView(c, release))
    requires cfg.parses(PayoutOf(c.deal, release))
    ensures var goal := PayGoal(cfg, c.deal, release);
      var c' := PutPay(c, release, Attempted(Paying, now, goal, goal, PayView(c, release), GOOD));
      if PayableNow(cfg, now, c, release) then PaidAsAgreed(cfg, c, c', release)
      else c'.deal == c.deal && c'.wallet == c.wallet
  {
    PayableLocks(cfg, now, c, release);
    if PayableNow(cfg, now, c, release) {
      AttemptCompletes(Paying, now, PayGoal(cfg, c.deal, release), PayView(c, release), GOOD);
    } else {
      AttemptBlocked(Paying, now, PayGoal(cfg, c.deal, release), PayView(c, release), GOOD);
    }
  }

  lemma SparedPay(cfg: Config, now: int, c: Cell, c': Cell, id: int, release: bool, error: Option<ServiceError>,
                  luck: Luck, before: seq<Failure>, after: seq<Failure>)
    requires SafeInv(cfg, now, c) && c == AtRest(c) && c' == PayOutcome(cfg, now, c, release, luck)
    requires PayReported(cfg, now, c, c', id, release, error, luck, before, after) && Spared(id, before, after)
    ensures PaidIfPayable(cfg, now, c, c', release, error)
  {
    SparedLuck(cfg, now, c, id, release, luck, before, after);
    GoodPay(cfg, now, c, release);
  }

  class Escrow {
    const db: Database

    constructor (db: Database)
      ensures this.db == db
    {
      this.db := db;
    }

    // ----- creating the escrow wallet -----

    /** Every wallet is made of the next seed. */
    method CreateEscrow(id: int) returns (error: Option<ServiceError>)
      requires db.Valid()
      modifies db`rows, db`drawn
      ensures db.Valid() && (old(db.Safe()) ==> db.Safe())
      ensures id !in old(db.rows) ==> error == Some(DealNotFound)
      ensures error == None <==> id in old(db.rows) && old(db.rows)[id].deal.status == Approved
      ensures error == None ==>
        && db.drawn == old(db.drawn) + 1
        && db.rows == old(db.rows)[id := CreateOutcome(old(db.rows)[id], db.seeds(old(db.drawn)))]
      ensures error != None ==> db.drawn == old(db.drawn) && db.rows == old(db.rows)
    {
      if id !in db.rows {
        return Some(DealNotFound);
      }
      if db.rows[id].deal.status != Approved {
        return Some(NotApproved);
      }
      ghost var before := db.rows;
      var seed := db.NewSeed();
      db.PutEscrowSeed(id, seed);
      db.SetDealEscrowAddress(id, Wallet(seed));
      assert db.rows == before[id := CreateOutcome(before[id], seed)];
      CreatedRows(db.cfg, db.now, before, id, seed);
      error := None;
    }

    // ----- paying out -----

    /** The exact lookup on the chain. */
    method HasOutgoingTxTo(id: int, key: Effect) returns (found: bool)
      requires id in db.rows
      ensures found <==> key in db.rows[id].wallet
    {
      found := false;
      var log := db.rows[id].wallet;
      for i := 0 to |log|
        invariant key !in log[..i]
      {
        if log[i] == key {
          return true;
        }
      }
      assert log[..|log|] == log;
    }

    method Transfer(id: int, order: Effect) returns (ok: bool)
      requires id in db.rows
      modifies db`rows, db`failed
      ensures Answered(db.reliable, ok, OnDeal(id, MakeTransfer), old(db.failed), db.failed)
      ensures ok ==> db.rows == old(db.rows)[id := old(db.rows)[id].(wallet := old(db.rows)[id].wallet + [order])]
      ensures !ok ==> db.rows == old(db.rows)
    {
      ok := db.Try(OnDeal(id, MakeTransfer));
      if ok {
        db.rows := db.rows[id := db.rows[id].(wallet := db.rows[id].wallet + [order])];
      }
    }

    /**
     If the last lock is locked and expired, look for the payout; record it if it is there, and clear the lock if not.
     If the last lock cannot be read, nothing is looked for.
     */
    method TryRecover(id: int, release: bool, key: Effect) returns (recovery: Recovery, ghost luck: Luck)
      requires id in db.rows
      modifies db`rows, db`failed
      ensures Grew(db.reliable, old(db.failed), db.failed) && OnlyRow(old(db.rows), db.rows, id)
      ensures Tried(db.now, old(db.rows)[id], db.rows[id], id, release, key, recovery, luck, old(db.failed), db.failed)
    {
      recovery, luck := NothingFound, GOOD;
      var a := Payout(release);
      var last := db.GetLastDealActionLock(id, a);
      if last.Err? {
        luck := luck.(read := false);
      } else if last.value.Some? {
        var lock := LocksOf(db.rows[id], a)[last.value.value];
        if lock.status == Locked && lock.expireAt <= db.now {
          var found := HasOutgoingTxTo(id, key);
          if found {
            var recorded := db.SetDealStatusConfirmed(id, Waiting(release), Confirmed(release));
            luck := luck.(recorded := recorded);
            if !recorded {
              return NotRecorded, luck;
            }
            var released := db.ReleaseDealActionLock(id, a, last.value.value, LockStatus.Completed);
            recovery, luck := PayoutRecorded, luck.(released := released);
          } else {
            var cleared := db.ReleaseDealActionLock(id, a, last.value.value, LockStatus.Failed);
            luck := luck.(cleared := cleared);
          }
        }
      }
    }

    /** Transfer and record under a lock of one's own; the lock ends as completed only if both succeeded. */
    method TransferUnderLock(id: int, release: bool, order: Effect)
      returns (error: Option<ServiceError>, ghost luck: Luck)
      requires id in db.rows && db.rows[id].deal.status == Waiting(release)
      modifies db`rows, db`failed
      ensures Grew(db.reliable, old(db.failed), db.failed) && OnlyRow(old(db.rows), db.rows, id)
      ensures Transferred(db.now, old(db.rows)[id], db.rows[id], id, release, order, error, luck, old(db.failed),
                          db.failed)
    {
      ghost var c, f := db.rows[id], db.failed;
      luck := GOOD;
      var a := Payout(release);
      var lock := db.TakeDealActionLock(id, a);
      if lock.Err? {
        error := Some(if lock.error == LockError.AlreadyLocked then ServiceError.AlreadyLocked else DatabaseError);
        luck := luck.(taken := lock.error == LockError.AlreadyLocked);
        return;
      }
      ghost var c1, f1 := db.rows[id], db.failed;
      var sent, recorded;
      error, sent, recorded := TransferAndConfirm(id, release, order);
      ghost var c3, f3 := db.rows[id], db.failed;
      var released := db.ReleaseDealActionLock(id, a, lock.value,
                                               if error == None then LockStatus.Completed else LockStatus.Failed);
      luck := luck.(sent := sent, recorded := recorded || !sent, released := released);
      TransferRow(db.now, c, release, order, luck, c1, c3, db.rows[id]);
      BlamedUnderLock(Paying, id, |BookOf(c, release).locks|, luck, f, f1, f3, db.failed);
    }

    method TransferAndConfirm(id: int, release: bool, order: Effect)
      returns (error: Option<ServiceError>, sent: bool, recorded: bool)
      requires id in db.rows
      modifies db`rows, db`failed
      ensures Grew(db.reliable, old(db.failed), db.failed) && OnlyRow(old(db.rows), db.rows, id)
      ensures db.rows[id] == SentAndConfirmed(old(db.rows)[id], release, order, sent, recorded)
      ensures error == if !sent then Some(TransferFailed) else if !recorded then Some(DatabaseError) else None
      ensures recorded ==> sent
      ensures sent || Logged(OnDeal(id, MakeTransfer), old(db.failed), db.failed)
      ensures sent && !recorded ==> Logged(OnDeal(id, Confirm), old(db.failed), db.failed)
    {
      ghost var f := db.failed;
      recorded := false;
      sent := Transfer(id, order);
      if !sent {
        error := Some(TransferFailed);
      } else {
        ghost var mid := db.failed;
        recorded := db.SetDealStatusConfirmed(id, Waiting(release), Confirmed(release));
        error := if recorded then None else Some(DatabaseError);
        if !recorded {
          LoggedWithin(OnDeal(id, Confirm), f, mid, db.failed, db.failed);
        }
      }
    }

    method RecoverOrTransfer(id: int, release: bool, order: Effect, key: Effect)
      returns (error: Option<ServiceError>, ghost luck: Luck)
      requires id in db.rows && db.rows[id].deal.status == Waiting(release)
      modifies db`rows, db`failed
      ensures Grew(db.reliable, old(db.failed), db.failed) && OnlyRow(old(db.rows), db.rows, id)
      ensures Executed(db.now, old(db.rows)[id], db.rows[id], id, release, order, key, error, luck, old(db.failed),
                       db.failed)
    {
      ghost var c, before := db.rows[id], db.failed;
      var recovery;
      recovery, luck := TryRecover(id, release, key);
      match recovery
      case PayoutRecorded => error := None;
      case NotRecorded => error := Some(DatabaseError);
      case NothingFound =>
        ghost var rest;
        ghost var mid, c1 := db.failed, db.rows[id];
        error, rest := TransferUnderLock(id, release, order);
        ThenTransfers(db.now, c, c1, db.rows[id], id, release, order, key, error, luck, rest, before, mid, db.failed);
        luck := rest.(read := luck.read, cleared := luck.cleared);
    }

    /**
     The outcome of one execution is that of the payout script: it recovers an earlier payout, is turned away by a
     lock or an error, or pays under a lock of its own; `luck` says which of its calls failed.  If none has, the deal is
     paid exactly as agreed, whether or not an earlier worker had paid already, exactly if it can be paid now.
     */
    method ReleaseOrRefundEscrow(id: int, release: bool) returns (error: Option<ServiceError>, ghost luck: Luck)
      requires db.Valid()
      modifies db`rows, db`failed
      ensures db.Valid() && Grew(db.reliable, old(db.failed), db.failed)
      ensures id !in old(db.rows) ==> error == Some(DealNotFound) && db.rows == old(db.rows)
      ensures id in old(db.rows) ==>
        && db.rows == old(db.rows)[id := PayOutcome(db.cfg, db.now, old(db.rows)[id], release, luck)]
        && PayReported(db.cfg, db.now, old(db.rows)[id], db.rows[id], id, release, error, luck, old(db.failed),
                       db.failed)
      ensures id in old(db.rows) && old(db.Safe()) ==>
        && (HarmlessPay(db.cfg, db.now, old(db.rows)[id], release, luck) ==> db.Safe())
        && (Spared(id, old(db.failed), db.failed) ==>
              PaidIfPayable(db.cfg, db.now, old(db.rows)[id], db.rows[id], release, error))
    {
      luck := GOOD;
      if id !in db.rows {
        return Some(DealNotFound), luck;
      }
      ghost var before, c := db.rows, db.rows[id];
      var prepared := PreparePayout(db.cfg, db.rows[id].deal, db.rows[id].vault, release);
      if prepared.Err? {
        error := Some(CannotPay(prepared.error));
      } else {
        error, luck := RecoverOrTransfer(id, release, prepared.value.order, prepared.value.key);
      }
      PaidRows(db.cfg, db.now, before, id, release, luck);
      PayReports(db.cfg, db.now, c, db.rows[id], id, release, error, luck, old(db.failed), db.failed);
      if AllSafe(db.cfg, db.now, before) && Spared(id, old(db.failed), db.failed) {
        SparedPay(db.cfg, db.now, c, db.rows[id], id, release, error, luck, old(db.failed), db.failed);
      }
    }

    // ----- the workers -----

    /** One round of the escrow creator; `draws` says which seed each deal got. */
    method CreateAll() returns (ghost draws: map<int, nat>)
      requires db.Valid()
      modifies db`rows, db`drawn
      ensures db.Valid() && (old(db.Safe()) ==> db.Safe())
      ensures forall id :: id in draws <==>
        id in old(db.rows) && old(db.rows)[id].deal.status == Approved && old(db.rows)[id].deal.escrowAddress == None
      ensures Created(old(db.rows), db.rows, db.seeds, draws) && Drawn(draws, old(db.drawn), db.drawn)
    {
      ghost var start := db.rows;
      var ids := db.List((c: Cell) => c.deal.status == Approved && c.deal.escrowAddress == None);
      draws := CreateListed(ids);
      CreatedKeepsSafe(db.cfg, db.now, start, db.rows, db.seeds, draws);
    }

    method CreateListed(ids: seq<int>) returns (ghost draws: map<int, nat>)
      requires db.Valid() && forall i, j :: 0 <= i < j < |ids| ==> ids[i] != ids[j]
      requires forall id :: id in ids ==> id in db.rows && db.rows[id].deal.status == Approved
      modifies db`rows, db`drawn
      ensures db.Valid()
      ensures forall id :: id in draws <==> id in ids
      ensures Created(old(db.rows), db.rows, db.seeds, draws) && Drawn(draws, old(db.drawn), db.drawn)
    {
      draws := map[];
      ghost var start, first := db.rows, db.drawn;
      for i := 0 to |ids|
        invariant db.Valid()
        invariant forall id :: id in draws <==> id in ids[..i]
        invariant Created(start, db.rows, db.seeds, draws) && Drawn(draws, first, db.drawn)
      {
        assert ids[i] !in ids[..i];
        ghost var before, next := db.rows, db.drawn;
        var error := CreateEscrow(ids[i]);
        assert error == None;
        CreatedMore(start, before, db.seeds, draws, ids[i], first, next);
        draws := draws[ids[i] := next];
      }
      assert ids[..|ids|] == ids;
    }

    method PayListed(ids: seq<int>, release: bool) returns (ghost lucks: map<int, Luck>)
      requires db.Valid()
      requires (forall id :: id in ids ==> id in db.rows) && forall i, j :: 0 <= i < j < |ids| ==> ids[i] != ids[j]
      modifies db`rows, db`failed
      ensures db.Valid() && Grew(db.reliable, old(db.failed), db.failed)
      ensures forall id :: id in lucks <==> id in ids
      ensures Paid(db.cfg, db.now, old(db.rows), db.rows, release, lucks)
      ensures AllBlamed(db.cfg, db.now, old(db.rows), release, lucks, old(db.failed), db.failed)
    {
      lucks := map[];
      for i := 0 to |ids|
        invariant db.Valid() && Grew(db.reliable, old(db.failed), db.failed)
        invariant forall id :: id in lucks <==> id in ids[..i]
        invariant Paid(db.cfg, db.now, old(db.rows), db.rows, release, lucks)
        invariant AllBlamed(db.cfg, db.now, old(db.rows), release, lucks, old(db.failed), db.failed)
      {
        assert ids[i] !in ids[..i];
        ghost var before, mid := db.rows, db.failed;
        var error, luck := ReleaseOrRefundEscrow(ids[i], release);
        BlamedMore(db.cfg, db.now, old(db.rows), release, lucks, ids[i], luck, old(db.failed), mid, db.failed);
        PaidMore(db.cfg, db.now, old(db.rows), before, release, lucks, ids[i], luck);
        lucks := lucks[ids[i] := luck];
      }
      assert ids[..|ids|] == ids;
    }

    /**
     One round of the release worker, or of the refund worker; `lucks` says how each waiting deal fared.  Every deal
     that can be paid now, and no call for which has failed, is paid as agreed; deals that do not wait do not change.
     */
    method PayAll(release: bool) returns (ghost lucks: map<int, Luck>)
      requires db.Valid()
      modifies db`rows, db`failed
      ensures db.Valid() && Grew(db.reliable, old(db.failed), db.failed) && db.rows.Keys == old(db.rows).Keys
      ensures old(db.Safe()) ==> forall id :: id in old(db.rows) && Spared(id, old(db.failed), db.failed) ==>
        if PayableNow(db.cfg, db.now, old(db.rows)[id], release)
        then PaidAsAgreed(db.cfg, old(db.rows)[id], db.rows[id], release)
        else db.rows[id].deal == old(db.rows)[id].deal && db.rows[id].wallet == old(db.rows)[id].wallet
      ensures forall id :: id in lucks <==> id in old(db.rows) && old(db.rows)[id].deal.status == Waiting(release)
      ensures Paid(db.cfg, db.now, old(db.rows), db.rows, release, lucks)
      ensures old(db.Safe()) && AllHarmless(db.cfg, db.now, old(db.rows), release, lucks) ==> db.Safe()
    {
      var ids := db.List((c: Cell) => c.deal.status == Waiting(release));
      lucks := PayListed(ids, release);
      RoundPays(db.cfg, db.now, old(db.rows), db.rows, release, lucks, old(db.failed), db.failed);
      PaidKeepsSafe(db.cfg, db.now, old(db.rows), db.rows, release, lucks);
    }

    /** The lookup by address; it answers nothing if there is no deal or more than one. */
    method GetDealByEscrowAddress(address: Wallet) returns (r: Result<Option<int>, LockError>)
      modifies db`failed
      ensures Answered(db.reliable, r.Ok?, OnAddress(address), old(db.failed), db.failed)
      ensures r.Ok? && r.value.Some? ==> forall id :: Deposits.Matches(db.rows, id, address) <==> id == r.value.value
      ensures r.Ok? && r.value.None? ==> forall id :: !Deposits.Matches(db.rows, id, address)
    {
      var answers := db.Try(OnAddress(address));
      if !answers {
        return Err(Unavailable);
      }
      var ids := db.List((c: Cell) => Deposits.Awaits(c, address));
      if |ids| == 1 {
        OneMatch(db.rows, ids[0], ids, address);
        r := Ok(Some(ids[0]));
      } else {
        NoMatch(db.rows, ids, address);
        r := Ok(None);
      }
    }

    /** One event; a failed lookup drops it, and a failed write keeps it for another delivery. */
    method HandleDeposit(e: Deposits.Event) returns (h: Deposits.Handling)
      modifies db`rows, db`failed
      ensures db.reliable ==> h.Handled?
      ensures db.rows == if h.Handled? then Deposits.Seen(old(db.rows), e) else old(db.rows)
      ensures h.LookupFailed? ==> Answered(db.reliable, false, OnAddress(e.address), old(db.failed), db.failed)
      ensures h.WriteFailed? ==>
        exists id :: Deposits.Matches(db.rows, id, e.address) && Deposits.Pays(db.rows[id], e)
                     && Answered(db.reliable, false, OnDeal(id, Confirm), old(db.failed), db.failed)
      ensures h.Handled? ==> db.failed == old(db.failed)
    {
      var deal := GetDealByEscrowAddress(e.address);
      if deal.Err? {
        return Deposits.LookupFailed;
      }
      h := Deposits.Handled;
      if deal.value.Some? {
        var id := deal.value.value;
        assert Deposits.Matches(db.rows, id, e.address);
        if e.amount >= db.rows[id].deal.escrowAmount {
          var ok := db.SetDealStatusConfirmed(id, WaitingEscrowDeposit, EscrowDepositConfirmed);
          h := if ok then Deposits.Handled else Deposits.WriteFailed;
        }
      }
    }

    /** The next event of a batch that began with these rows. */
    method HandleNext(e: Deposits.Event, ghost start: Rows, ghost done: seq<Deposits.Event>,
                      ghost hs: seq<Deposits.Handling>, acked: seq<int>, ghost failures: int)
      returns (acked': seq<int>, ghost hs': seq<Deposits.Handling>)
      requires Deposits.Batched(start, db.rows, done, hs, acked, failures)
      modifies db`rows, db`failed
      ensures Grew(db.reliable, old(db.failed), db.failed)
      ensures Deposits.Batched(start, db.rows, done + [e], hs', acked', failures + |db.failed| - |old(db.failed)|)
    {
      ghost var before := db.rows;
      var h := HandleDeposit(e);
      Deposits.OneMore(start, before, db.rows, done, hs, acked, failures, e, h);
      hs' := hs + [h];
      acked' := acked + if h == Deposits.WriteFailed then [] else [e.id];
    }

    method HandleDeposits(events: seq<Deposits.Event>) returns (acked: seq<int>, ghost hs: seq<Deposits.Handling>)
      modifies db`rows, db`failed
      ensures Grew(db.reliable, old(db.failed), db.failed)
      ensures Deposits.Batched(old(db.rows), db.rows, events, hs, acked, |db.failed| - |old(db.failed)|)
    {
      ghost var start, failed := db.rows, db.failed;
      acked, hs := [], [];
      for i := 0 to |events|
        invariant Grew(db.reliable, failed, db.failed)
        invariant Deposits.Batched(start, db.rows, events[..i], hs, acked, |db.failed| - |failed|)
      {
        acked, hs := HandleNext(events[i], start, events[..i], hs, acked, |db.failed| - |failed|);
        assert events[..i + 1] == events[..i] + [events[i]];
      }
      assert events[..|events|] == events;
    }

    /**
     One batch of deposit events: those whose status write failed are not acknowledged.  As many events have not been
     handled as calls have failed; and each deal is confirmed exactly if it was waiting and one of the events that have
     been handled pays its whole deposit, and otherwise unchanged.
     */
    method ProcessDepositEvents(events: seq<Deposits.Event>) returns (acked: seq<int>, ghost hs: seq<Deposits.Handling>)
      requires db.Valid()
      modifies db`rows, db`failed
      ensures db.Valid() && (old(db.Safe()) ==> db.Safe()) && Grew(db.reliable, old(db.failed), db.failed)
      ensures Deposits.Batched(old(db.rows), db.rows, events, hs, acked, |db.failed| - |old(db.failed)|)
      ensures Deposits.DistinctEscrows(old(db.rows)) ==>
        DepositsCounted(old(db.rows), db.rows, Deposits.Effective(events, hs))
      ensures db.failed == old(db.failed) ==> Deposits.Effective(events, hs) == events && acked == Deposits.Ids(events)
    {
      ghost var start, failed := db.rows, db.failed;
      acked, hs := HandleDeposits(events);
      BatchDone(db.cfg, db.now, start, db.rows, events, hs, acked, |db.failed| - |failed|);
    }
  }

  /** Each deal is confirmed exactly if it was waiting and one of these events pays its whole deposit. */
  ghost predicate DepositsCounted(before: Rows, after: Rows, events: seq<Deposits.Event>) {
    && after.Keys == before.Keys
    && forall id :: id in before ==>
         var d := before[id].deal;
         after[id] == if d.status == WaitingEscrowDeposit && DepositIn(d.escrowAddress, d.escrowAmount, events)
                      then before[id].(deal := d.(status := EscrowDepositConfirmed)) else before[id]
  }

  predicate DepositIn(address: Option<Wallet>, amount: int, events: seq<Deposits.Event>) {
    exists i :: 0 <= i < |events| && address == Some(events[i].address) && events[i].amount >= amount
  }

  lemma BatchDone(cfg: Config, now: int, before: Rows, after: Rows, events: seq<Deposits.Event>,
                  hs: seq<Deposits.Handling>, acked: seq<int>, failures: int)
    requires Deposits.Batched(before, after, events, hs, acked, failures) && AllAtRest(before)
    ensures AllAtRest(after) && (AllSafe(cfg, now, before) ==> AllSafe(cfg, now, after))
    ensures Deposits.DistinctEscrows(before) ==> DepositsCounted(before, after, Deposits.Effective(events, hs))
    ensures failures == 0 ==> Deposits.Effective(events, hs) == events && acked == Deposits.Ids(events)
  {
    Deposits.SeenAllKeepsSafe(cfg, now, before, Deposits.Effective(events, hs));
    if Deposits.DistinctEscrows(before) {
      EventsCount(before, Deposits.Effective(events, hs));
    }
    Deposits.AllHandled(events, hs);
  }

  lemma EventsCount(before: Rows, events: seq<Deposits.Event>)
    requires Deposits.DistinctEscrows(before)
    ensures DepositsCounted(before, Deposits.SeenAll(before, events), events)
  {
    Deposits.ConfirmedIffPaid(before, events);
    forall id | id in before
      ensures Deposits.PaidBy(before[id], events) <==>
              var d := before[id].deal;
              d.status == WaitingEscrowDeposit && DepositIn(d.escrowAddress, d.escrowAmount, events)
    {
      PaidByDeposit(before[id], events);
    }
  }

  lemma PaidByDeposit(c: Cell, events: seq<Deposits.Event>)
    ensures Deposits.PaidBy(c, events) <==>
            c.deal.status == WaitingEscrowDeposit && DepositIn(c.deal.escrowAddress, c.deal.escrowAmount, events)
  {
    if c.deal.status == WaitingEscrowDeposit && DepositIn(c.deal.escrowAddress, c.deal.escrowAmount, events) {
      var i :| 0 <= i < |events| && c.deal.escrowAddress == Some(events[i].address)
               && events[i].amount >= c.deal.escrowAmount;
      assert Deposits.Pays(c, events[i]);
    }
    if i :| 0 <= i < |events| && Deposits.Pays(c, events[i]) {
      assert c.deal.escrowAddress == Some(events[i].address) && events[i].amount >= c.deal.escrowAmount;
    }
  }

  /** The deals in `draws` have got a wallet from the seed with that number, and no other deal has changed. */
  ghost predicate Created(before: Rows, after: Rows, seeds: nat -> int, draws: map<int, nat>) {
    && after.Keys == before.Keys
    && forall id :: id in before ==>
         after[id] == if id in draws then CreateOutcome(before[id], seeds(draws[id])) else before[id]
  }

  /** Seeds are drawn for one deal each. */
  ghost predicate Drawn(draws: map<int, nat>, first: nat, next: nat) {
    && first <= next
    && (forall id :: id in draws ==> first <= draws[id] < next)
    && forall i, j :: i in draws && j in draws && i != j ==> draws[i] != draws[j]
  }

  lemma CreatedMore(start: Rows, before: Rows, seeds: nat -> int, draws: map<int, nat>, id: int, first: nat, next: nat)
    requires Created(start, before, seeds, draws) && Drawn(draws, first, next) && id in before && id !in draws
    ensures Drawn(draws[id := next], first, next + 1)
    ensures Created(start, before[id := CreateOutcome(before[id], seeds(next))], seeds, draws[id := next])
  {
  }

  /** The deals in `lucks` have been through one execution each, and no other deal has changed. */
  ghost predicate Paid(cfg: Config, now: int, before: Rows, after: Rows, release: bool, lucks: map<int, Luck>) {
    && after.Keys == before.Keys
    && forall id :: id in before ==>
         after[id] == if id in lucks then PayOutcome(cfg, now, before[id], release, lucks[id]) else before[id]
  }

  lemma PaidMore(cfg: Config, now: int, start: Rows, before: Rows, release: bool, lucks: map<int, Luck>, id: int,
                 luck: Luck)
    requires Paid(cfg, now, start, before, release, lucks) && id in before && id !in lucks
    ensures Paid(cfg, now, start, before[id := PayOutcome(cfg, now, before[id], release, luck)], release,
                 lucks[id := luck])
  {
  }

  predicate AllBlamed(cfg: Config, now: int, rows: Rows, release: bool, lucks: map<int, Luck>,
                      before: seq<Failure>, after: seq<Failure>)
  {
    forall id :: id in rows && id in lucks ==> PayBlamed(cfg, now, rows[id], id, release, lucks[id], before, after)
  }

  lemma BlamedMore(cfg: Config, now: int, rows: Rows, release: bool, lucks: map<int, Luck>, id: int, luck: Luck,
                   before: seq<Failure>, mid: seq<Failure>, after: seq<Failure>)
    requires before <= mid <= after && id in rows && id !in lucks
    requires AllBlamed(cfg, now, rows, release, lucks, before, mid)
    requires PayBlamed(cfg, now, rows[id], id, release, luck, mid, after)
    ensures AllBlamed(cfg, now, rows, release, lucks[id := luck], before, after)
  {
    forall i | i in rows && i in lucks
      ensures PayBlamed(cfg, now, rows[i], i, release, lucks[i], before, after)
    {
      PayBlamedWithin(cfg, now, rows[i], i, release, lucks[i], before, before, mid, after);
    }
    PayBlamedWithin(cfg, now, rows[id], id, release, luck, before, mid, after, after);
  }

  lemma PayBlamedWithin(cfg: Config, now: int, c: Cell, id: int, release: bool, luck: Luck, before: seq<Failure>,
                        a: seq<Failure>, b: seq<Failure>, after: seq<Failure>)
    requires before <= a <= b <= after && PayBlamed(cfg, now, c, id, release, luck, a, b)
    ensures PayBlamed(cfg, now, c, id, release, luck, before, after)
  {
    var r := PreparePayout(cfg, c.deal, c.vault, release);
    if r.Ok? {
      var s := PayView(c, release);
      BlamedWithin(Paying, id, |s.locks|, luck.read && Recovers(now, r.value.key, s), luck, before, a, b, after);
    }
  }

  /** What a round does for the deals whose calls all succeed. */
  lemma RoundPays(cfg: Config, now: int, before: Rows, after: Rows, release: bool, lucks: map<int, Luck>,
                  failed: seq<Failure>, failed': seq<Failure>)
    requires AllAtRest(before) && Paid(cfg, now, before, after, release, lucks)
    requires forall id :: id in lucks <==> id in before && before[id].deal.status == Waiting(release)
    requires AllBlamed(cfg, now, before, release, lucks, failed, failed')
    ensures AllSafe(cfg, now, before) ==> forall id :: id in before && Spared(id, failed, failed') ==>
      if PayableNow(cfg, now, before[id], release) then PaidAsAgreed(cfg, before[id], after[id], release)
      else after[id].deal == before[id].deal && after[id].wallet == before[id].wallet
  {
    if AllSafe(cfg, now, before) {
      forall id | id in before && Spared(id, failed, failed')
        ensures if PayableNow(cfg, now, before[id], release) then PaidAsAgreed(cfg, before[id], after[id], release)
                else after[id].deal == before[id].deal && after[id].wallet == before[id].wallet
      {
        if id in lucks {
          SparedLuck(cfg, now, before[id], id, release, lucks[id], failed, failed');
          GoodPay(cfg, now, before[id], release);
        }
      }
    }
  }

  /** No execution of the round passed over an expired lock unread or left a transfer unrecorded. */
  predicate AllHarmless(cfg: Config, now: int, rows: Rows, release: bool, lucks: map<int, Luck>) {
    forall id :: id in rows && id in lucks ==> HarmlessPay(cfg, now, rows[id], release, lucks[id])
  }

  lemma CreatedKeepsSafe(cfg: Config, now: int, before: Rows, after: Rows, seeds: nat -> int, draws: map<int, nat>)
    requires AllAtRest(before) && Created(before, after, seeds, draws)
    ensures AllSafe(cfg, now, before) ==> AllSafe(cfg, now, after)
  {
    if AllSafe(cfg, now, before) {
      forall id | id in after
        ensures SafeInv(cfg, now, after[id])
      {
        CreateOutcomeSafe(cfg, now, before[id], if id in draws then seeds(draws[id]) else 0);
      }
    }
  }

  /** If the generator never repeats a seed, a round keeps the escrow addresses of waiting deals distinct. */
  lemma CreatedDistinct(before: Rows, after: Rows, seeds: nat -> int, draws: map<int, nat>, first: nat, next: nat)
    requires Created(before, after, seeds, draws) && Drawn(draws, first, next)
    requires forall i, j :: 0 <= i < j ==> seeds(i) != seeds(j)
    requires Deposits.DistinctEscrows(before)
    requires forall id :: id in before && before[id].deal.escrowAddress.Some? ==>
      exists k :: 0 <= k < first && before[id].deal.escrowAddress == Some(Wallet(seeds(k)))
    ensures Deposits.DistinctEscrows(after)
    ensures forall id :: id in after && after[id].deal.escrowAddress.Some? ==>
      exists k :: 0 <= k < next && after[id].deal.escrowAddress == Some(Wallet(seeds(k)))
  {
    forall id | id in after && after[id].deal.escrowAddress.Some?
      ensures exists k :: 0 <= k < next && after[id].deal.escrowAddress == Some(Wallet(seeds(k)))
    {
      if after[id] == before[id] {
        var k :| 0 <= k < first && before[id].deal.escrowAddress == Some(Wallet(seeds(k)));
      }
    }
    forall i, j, a | i in after && j in after && Deposits.Awaits(after[i], a) && Deposits.Awaits(after[j], a)
      ensures i == j
    {
      if i != j {
        if i in draws && j in draws {
        }
      }
    }
  }

  lemma PaidRowSafe(cfg: Config, now: int, c: Cell, release: bool, listed: bool, luck: Luck)
    requires SafeInv(cfg, now, c) && c == AtRest(c) && (listed ==> HarmlessPay(cfg, now, c, release, luck))
    ensures SafeInv(cfg, now, if listed then PayOutcome(cfg, now, c, release, luck) else c)
  {
    if listed {
      PayOutcomeSafe(cfg, now, c, release, luck);
    }
  }

  lemma PaidKeepsSafe(cfg: Config, now: int, before: Rows, after: Rows, release: bool, lucks: map<int, Luck>)
    requires AllAtRest(before) && Paid(cfg, now, before, after, release, lucks)
    ensures AllSafe(cfg, now, before) && AllHarmless(cfg, now, before, release, lucks) ==> AllSafe(cfg, now, after)
  {
    if AllSafe(cfg, now, before) && AllHarmless(cfg, now, before, release, lucks) {
      forall id | id in after
        ensures SafeInv(cfg, now, after[id])
      {
        PaidRowSafe(cfg, now, before[id], release, id in lucks, if id in lucks then lucks[id] else GOOD);
      }
    }
  }

  lemma OneMatch(rows: Rows, id: int, ids: seq<int>, address: Wallet)
    requires ids == [id] && forall i :: i in ids <==> i in rows && Deposits.Awaits(rows[i], address)
    ensures forall i :: Deposits.Matches(rows, i, address) <==> i == id
  {
    assert id in ids;
    forall other | other in rows && Deposits.Awaits(rows[other], address)
      ensures other == id
    {
      assert other in ids;
    }
  }

  lemma NoMatch(rows: Rows, ids: seq<int>, address: Wallet)
    requires |ids| != 1 && (forall i :: i in ids <==> i in rows && Deposits.Awaits(rows[i], address))
    requires forall i, j :: 0 <= i < j < |ids| ==> ids[i] != ids[j]
    ensures forall i :: !Deposits.Matches(rows, i, address)
  {
    assert |ids| >= 2 ==> ids[0] in ids && ids[1] in ids && ids[0] != ids[1];
  }

  lemma CreatedRows(cfg: Config, now: int, rows: Rows, id: int, seed: int)
    requires id in rows && AllAtRest(rows)
    ensures var rows' := rows[id := CreateOutcome(rows[id], seed)];
      AllAtRest(rows') && (AllSafe(cfg, now, rows) ==> AllSafe(cfg, now, rows'))
  {
    if AllSafe(cfg, now, rows) {
      CreateOutcomeSafe(cfg, now, rows[id], seed);
    }
    RowChanged(cfg, now, rows, id, CreateOutcome(rows[id], seed));
  }

  /** What the first half of a payout has done: an earlier payout is recorded, or not, or an expired lock is cleared. */
  predicate Tried(now: int, c: Cell, c': Cell, id: int, release: bool, key: Effect, recovery: Recovery, luck: Luck,
                  before: seq<Failure>, after: seq<Failure>)
  {
    var s := PayView(c, release);
    var recovers := luck.read && Recovers(now, key, s);
    && recovery == (if !recovers then NothingFound else if luck.recorded then PayoutRecorded else NotRecorded)
    && c' == PutPay(c, release, if recovers then Recovered(Paying, s, luck)
                                else s.(locks := Swept(now, s.locks, luck)))
    && Blamed(Paying, id, |s.locks|, recovers, luck, before, after)
  }

  /** What a transfer under a lock of its own has done, or not, and which of its calls failed. */
  predicate Transferred(now: int, c: Cell, c': Cell, id: int, release: bool, order: Effect,
                        error: Option<ServiceError>, luck: Luck, before: seq<Failure>, after: seq<Failure>)
  {
    var s := PayView(c, release);
    && c' == PutPay(c, release, Acted(now, order, s, luck))
    && Concluded(error, luck.taken && !AnyActive(now, s.locks), luck)
    && Blamed(Paying, id, |s.locks|, false, luck, before, after)
  }

  function SentAndConfirmed(c: Cell, release: bool, order: Effect, sent: bool, recorded: bool): Cell {
    if !sent then c
    else
      var c' := c.(wallet := c.wallet + [order]);
      if recorded then c'.(deal := SetStatusFrom(c'.deal, Waiting(release), Confirmed(release))) else c'
  }

  /** What the calls under the lock do to the row, one after the other. */
  lemma TransferRow(now: int, c: Cell, release: bool, order: Effect, luck: Luck, c1: Cell, c3: Cell, c4: Cell)
    requires c.deal.status == Waiting(release) && luck.taken && !AnyActive(now, BookOf(c, release).locks)
    requires var locks := BookOf(c, release).locks;
      c1 == WithLocks(c, Payout(release), locks + [Lock(Locked, now + LOCK_TTL)])
    requires c3 == SentAndConfirmed(c1, release, order, luck.sent, luck.sent && luck.recorded)
    requires var status := if luck.sent && luck.recorded then LockStatus.Completed else LockStatus.Failed;
      var ended := SetStatus(BookOf(c3, release).locks, |BookOf(c, release).locks|, status);
      c4 == if luck.released then WithLocks(c3, Payout(release), ended) else c3
    ensures c4 == PutPay(c, release, Acted(now, order, PayView(c, release), luck))
  {
    var locks := BookOf(c, release).locks;
    SetLast(locks, now + LOCK_TTL, LockStatus.Completed);
    SetLast(locks, now + LOCK_TTL, LockStatus.Failed);
    assert BookOf(c3, release).locks == locks + [Lock(Locked, now + LOCK_TTL)];
  }

  lemma ThenTransferRow(now: int, c: Cell, c1: Cell, c2: Cell, release: bool, order: Effect, key: Effect,
                        error: Option<ServiceError>, luck: Luck, rest: Luck)
    requires var s := PayView(c, release);
      var swept := Swept(now, s.locks, luck);
      && c.deal.status == Waiting(release) && !(luck.read && Recovers(now, key, s))
      && Concluded(error, rest.taken && !AnyActive(now, swept), rest)
      && c1 == PutPay(c, release, s.(locks := swept))
      && c2 == PutPay(c1, release, Acted(now, order, PayView(c1, release), rest))
    ensures var whole := rest.(read := luck.read, cleared := luck.cleared);
      && c2 == PutPay(c, release, Attempted(Paying, now, order, key, PayView(c, release), whole))
      && Reported(c, c2, release, order, error, whole)
  {
  }

  /** A transfer after a recovery that found nothing completes the attempt. */
  lemma ThenTransfers(now: int, c: Cell, c1: Cell, c2: Cell, id: int, release: bool, order: Effect, key: Effect,
                      error: Option<ServiceError>, luck: Luck, rest: Luck, before: seq<Failure>, mid: seq<Failure>,
                      after: seq<Failure>)
    requires var s := PayView(c, release);
      && c.deal.status == Waiting(release) && !(luck.read && Recovers(now, key, s))
      && c1 == PutPay(c, release, s.(locks := Swept(now, s.locks, luck)))
      && Transferred(now, c1, c2, id, release, order, error, rest, mid, after)
    requires before <= mid <= after && Blamed(Paying, id, |BookOf(c, release).locks|, false, luck, before, mid)
    ensures var whole := rest.(read := luck.read, cleared := luck.cleared);
      Executed(now, c, c2, id, release, order, key, error, whole, before, after)
  {
    assert PayView(c1, release).locks == Swept(now, PayView(c, release).locks, luck);
    ThenTransferRow(now, c, c1, c2, release, order, key, error, luck, rest);
    BlamedTwice(Paying, id, |BookOf(c, release).locks|, luck, rest, before, mid, after);
  }

  lemma PaidAtRest(cfg: Config, now: int, c: Cell, release: bool, luck: Luck)
    requires c == AtRest(c)
    ensures AtRest(PayOutcome(cfg, now, c, release, luck)) == PayOutcome(cfg, now, c, release, luck)
  {
  }

  lemma PaidRows(cfg: Config, now: int, rows: Rows, id: int, release: bool, luck: Luck)
    requires id in rows && AllAtRest(rows)
    ensures var rows' := rows[id := PayOutcome(cfg, now, rows[id], release, luck)];
      && AllAtRest(rows')
      && (AllSafe(cfg, now, rows) && HarmlessPay(cfg, now, rows[id], release, luck) ==> AllSafe(cfg, now, rows'))
  {
    PaidAtRest(cfg, now, rows[id], release, luck);
    if AllSafe(cfg, now, rows) && HarmlessPay(cfg, now, rows[id], release, luck) {
      PayOutcomeSafe(cfg, now, rows[id], release, luck);
    }
    RowChanged(cfg, now, rows, id, PayOutcome(cfg, now, rows[id], release, luck));
  }
}
