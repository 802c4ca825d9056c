/** The workers around the post: sender and checker of the userbot, and the passed-message worker of the market. */
module PostService {
  import opened DoOnce
  import opened Attempts
  import opened Decimal
  import opened Deals
  import opened DealLife
  import opened DealPayouts
  import opened DealTiming
  import opened Scripts
  import opened Tables

  // ----- what undisturbed rounds promise, in terms of the rows -----

  /** The deposit is there, nothing is posted yet, the listing has a channel, there is a text, and its time has come. */
  predicate DueForPost(now: int, c: Cell) {
    c.deal.status == EscrowDepositConfirmed && c.message == None && TimeHasCome(now, c)
  }

  /** One copy of the ad is in the channel, and the post ends as many hours from now as were agreed. */
  predicate PostedAsAgreed(now: int, lag: nat, c: Cell, c': Cell) {
    && c.listingChannel.Some?
    && c'.deal == c.deal.(status := InProgress)
    && c'.ads == [Post(c.listingChannel.value, c.deal.terms.details.message)]
    && c'.message == Some(Message(Exists, now + lag + 3_600_000_000, now + c.deal.terms.duration * 3_600_000_000, true))
  }

  /** The outcome of an execution without failures, without saying how it comes about. */
  predicate PostedIfDue(now: int, lag: nat, c: Cell, c': Cell) {
    if DueForPost(now, c) && Unlocked(now, c.post.locks) then PostedAsAgreed(now, lag, c, c')
    else c'.deal == c.deal && c'.ads == c.ads && c'.message == c.message
  }

  /** The calls behind the failures of an execution, and what was saved. */
  predicate PostBlamed(now: int, lag: nat, c: Cell, id: int, x: Send, before: seq<Failure>, after: seq<Failure>) {
    var s := PostView(c);
    && x.save.lag == lag && (x.save.idKnown || Logged(OnDeal(id, LearnId), before, after))
    && if !ToPost(now, c) then x.luck == GOOD
       else Blamed(Posting, id, |s.locks|, x.luck.read && Recovers(now, PostGoal(c), s), x.luck, before, after)
  }

  /** Unless it could not be released, an execution leaves no lock behind, whether it posts or fails. */
  lemma LeavesNoLock(now: int, lag: nat, c: Cell, id: int, x: Send, before: seq<Failure>, after: seq<Failure>)
    requires PostBlamed(now, lag, c, id, x, before, after) && !LockKept(id, before, after)
    requires Unlocked(now, c.post.locks)
    ensures Unlocked(now, PostOutcome(now, c, x.luck, x.save).post.locks)
  {
    if ToPost(now, c) {
      var s := PostView(c);
      LockReleased(Posting, id, |s.locks|, x.luck.read && Recovers(now, PostGoal(c), s), x.luck, before, after);
      LocksInUse(now, s.locks);
      NoLockLeft(Posting, now, PostGoal(c), PostGoal(c), s, x.luck);
      LocksInUse(now, Attempted(Posting, now, PostGoal(c), PostGoal(c), s, x.luck).locks);
    }
  }

  lemma SparedSend(now: int, lag: nat, c: Cell, id: int, x: Send, before: seq<Failure>, after: seq<Failure>)
    requires PostBlamed(now, lag, c, id, x, before, after) && Spared(id, before, after)
    ensures x == Send(GOOD, Save(lag, true))
  {
    if ToPost(now, c) {
      var s := PostView(c);
      SparedIsGood(Posting, id, |s.locks|, x.luck.read && Recovers(now, PostGoal(c), s), x.luck, before, after);
    }
  }

  lemma PostBlamedWithin(now: int, lag: nat, c: Cell, id: int, x: Send, before: seq<Failure>, a: seq<Failure>,
                         b: seq<Failure>, after: seq<Failure>)
    requires before <= a <= b <= after && PostBlamed(now, lag, c, id, x, a, b)
    ensures PostBlamed(now, lag, c, id, x, before, after)
  {
    if !x.save.idKnown {
      LoggedWithin(OnDeal(id, LearnId), before, a, b, after);
    }
    if ToPost(now, c) {
      var s := PostView(c);
      BlamedWithin(Posting, id, |s.locks|, x.luck.read && Recovers(now, PostGoal(c), s), x.luck, before, a, b, after);
    }
  }

  /** An execution without failures posts a safe deal as agreed, exactly if it is due and not locked. */
  lemma GoodPost(cfg: Config, now: int, lag: nat, c: Cell)
    requires SafeInv(cfg, now, c) && c == AtRest(c)
    ensures PostedIfDue(now, lag, c, PostOutcome(now, c, GOOD, Save(lag, true)))
  {
    if ToPost(now, c) {
      assert DoOnce.Inv(now, PostGoal(c), PostView(c));
      GoodSend(now, lag, c);
    }
  }

  lemma GoodSend(now: int, lag: nat, c: Cell)
    requires ToPost(now, c) && DoOnce.Inv(now, PostGoal(c), PostView(c))
    ensures PostedIfDue(now, lag, c, PostOutcome(now, c, GOOD, Save(lag, true)))
  {
    LocksInUse(now, c.post.locks);
    if AnyActive(now, c.post.locks) {
      AttemptBlocked(Posting, now, PostGoal(c), PostView(c), GOOD);
    } else {
      AttemptCompletes(Posting, now, PostGoal(c), PostView(c), GOOD);
    }
  }

  /** What a send under a lock of its own has done, or not, and which of its calls failed. */
  predicate Sent(now: int, lag: nat, c: Cell, c': Cell, id: int, luck: Luck, known: bool, before: seq<Failure>,
                 after: seq<Failure>)
  {
    && c' == PutPost(now, c, Acted(now, PostGoal(c), PostView(c), luck), Save(lag, known))
    && Blamed(Posting, id, |c.post.locks|, false, luck, before, after)
    && (known || Logged(OnDeal(id, LearnId), before, after))
  }

  function SentAndSaved(now: int, c: Cell, sent: bool, saved: bool, save: Save): Cell {
    if !sent then c
    else
      var c' := c.(ads := c.ads + [PostGoal(c)]);
      if saved then CreateMessage(now, c', save) else c'
  }

  lemma NothingSent(now: int, c: Cell, luck: Luck, save: Save)
    requires PostView(c).open && (AnyActive(now, c.post.locks) || !luck.taken)
    ensures PutPost(now, c, Acted(now, PostGoal(c), PostView(c), luck), save) == c
  {
  }

  /** What the calls under the lock do to the row, one after the other. */
  lemma SentRow(now: int, c: Cell, luck: Luck, save: Save, c1: Cell, c3: Cell, c4: Cell)
    requires PostView(c).open && luck.taken && !AnyActive(now, c.post.locks)
    requires c1 == c.(post := c.post.(locks := c.post.locks + [Lock(Locked, now + LOCK_TTL)]))
    requires c3 == SentAndSaved(now, c1, luck.sent, luck.sent && luck.recorded, save)
    requires var status := if luck.sent && luck.recorded then LockStatus.Completed else LockStatus.Failed;
      var ended := SetStatus(c3.post.locks, |c.post.locks|, status);
      c4 == if luck.released then c3.(post := c3.post.(locks := ended)) else c3
    ensures c4 == PutPost(now, c, Acted(now, PostGoal(c), PostView(c), luck), save)
  {
    SetLast(c.post.locks, now + LOCK_TTL, LockStatus.Completed);
    SetLast(c.post.locks, now + LOCK_TTL, LockStatus.Failed);
  }

  /** A send after a recovery that found nothing completes the execution. */
  lemma ThenSends(now: int, lag: nat, c: Cell, c1: Cell, c2: Cell, id: int, luck: Luck, rest: Luck, known: bool,
                  before: seq<Failure>, mid: seq<Failure>, after: seq<Failure>)
    requires before <= mid <= after && ToPost(now, c) && luck.read && !Recovers(now, PostGoal(c), PostView(c))
    requires Blamed(Posting, id, |c.post.locks|, false, luck, before, mid)
    requires var s := PostView(c);
      && c1 == PutPost(now, c, s.(locks := Swept(now, s.locks, luck)), Save(lag, true))
      && Sent(now, lag, c1, c2, id, rest, known, mid, after)
    ensures var x := Send(rest.(read := luck.read, cleared := luck.cleared), Save(lag, known));
      c2 == PostOutcome(now, c, x.luck, x.save) && PostBlamed(now, lag, c, id, x, before, after)
  {
    BlamedTwice(Posting, id, |c.post.locks|, luck, rest, before, mid, after);
    if !known {
      LoggedWithin(OnDeal(id, LearnId), before, mid, after, after);
    }
  }

  class Userbot {
    const db: Database
    /** By how much the second reading of the clock is later than the first, when a post is saved. */
    const lag: int -> nat

    constructor (db: Database, lag: int -> nat)
      ensures this.db == db && this.lag == lag
    {
      this.db, this.lag := db, lag;
    }

    // ----- the sender -----

    /** The exact lookup in the channel. */
    method TryRecoverPostFromChannel(id: int, ad: Effect) returns (found: bool)
      requires id in db.rows
      ensures found <==> ad in db.rows[id].ads
    {
      found := false;
      var log := db.rows[id].ads;
      for i := 0 to |log|
        invariant ad !in log[..i]
      {
        if log[i] == ad {
          return true;
        }
      }
      assert log[..|log|] == log;
    }

    /** The answer may lack the id of the new message. */
    method SendChannelMessage(id: int, ad: Effect) returns (ok: bool, idKnown: bool)
      requires id in db.rows
      modifies db`rows, db`failed
      ensures Grew(db.reliable, old(db.failed), db.failed)
      ensures ok || Logged(OnDeal(id, SendMessage), old(db.failed), db.failed)
      ensures ok ==> idKnown || Logged(OnDeal(id, LearnId), old(db.failed), db.failed)
      ensures ok ==> db.rows == old(db.rows)[id := old(db.rows)[id].(ads := old(db.rows)[id].ads + [ad])]
      ensures !ok ==> db.rows == old(db.rows)
    {
      idKnown := false;
      ok := db.Try(OnDeal(id, SendMessage));
      if ok {
        idKnown := db.Try(OnDeal(id, LearnId));
        db.rows := db.rows[id := db.rows[id].(ads := db.rows[id].ads + [ad])];
      }
    }

    /** The end of the post and its first check are computed from two readings of the clock. */
    method SaveMessage(id: int, idKnown: bool) returns (ok: bool)
      requires id in db.rows
      modifies db`rows, db`failed
      ensures Answered(db.reliable, ok, OnDeal(id, Call.SaveMessage), old(db.failed), db.failed)
      ensures db.rows == if !ok then old(db.rows) else
        old(db.rows)[id := CreateMessage(db.now, old(db.rows)[id], Save(lag(id), idKnown))]
    {
      var untilTs := db.now + db.rows[id].deal.terms.duration * HOUR;
      var nextCheck := db.now + lag(id) + HOUR;
      ok := db.CreateDealPostMessageAndSetDealInProgress(id, Message(Exists, nextCheck, untilTs, idKnown),
                                                         Checks(nextCheck, lag(id), [], false));
    }

    /**
     If the last lock is locked and expired, look for the ad; save it if it is there, and clear the lock if not.
     If the last lock cannot be read the deal is skipped, and if the ad cannot be saved the lock is marked failed.
     */
    method TryRecover(id: int) returns (finished: bool, ghost luck: Luck)
      requires id in db.rows && PostView(db.rows[id]).open
      modifies db`rows, db`failed
      ensures Grew(db.reliable, old(db.failed), db.failed)
      ensures var c := old(db.rows)[id];
        var s := PostView(c);
        var recovers := luck.read && Recovers(db.now, PostGoal(c), s);
        && Blamed(Posting, id, |s.locks|, recovers, luck, old(db.failed), db.failed)
        && finished == (!luck.read || recovers)
        && db.rows == old(db.rows)[id := PutPost(db.now, c,
             if !luck.read then s
             else if recovers then Recovered(Posting, s, luck)
             else s.(locks := Swept(db.now, s.locks, luck)), Save(lag(id), true))]
    {
      finished, luck := false, GOOD;
      var last := db.GetLastDealActionLock(id, PostMessage);
      if last.Err? {
        return true, luck.(read := false);
      }
      if last.value.Some? {
        var lock := LocksOf(db.rows[id], PostMessage)[last.value.value];
        if lock.status == Locked && lock.expireAt <= db.now {
          finished := TryRecoverPostFromChannel(id, PostGoal(db.rows[id]));
          if finished {
            var saved := SaveMessage(id, true);
            var released := db.ReleaseDealActionLock(id, PostMessage, last.value.value,
                                                     if saved then LockStatus.Completed else LockStatus.Failed);
            luck := luck.(recorded := saved, released := released);
          } else {
            var cleared := db.ReleaseDealActionLock(id, PostMessage, last.value.value, LockStatus.Failed);
            luck := luck.(cleared := cleared);
          }
        }
      }
    }

    /** Send and save under a lock of one's own; the lock ends as completed only if both succeeded. */
    method SendUnderLock(id: int) returns (ghost luck: Luck, ghost known: bool)
      requires id in db.rows && PostView(db.rows[id]).open
      modifies db`rows, db`failed
      ensures Grew(db.reliable, old(db.failed), db.failed)
      ensures OnlyRow(old(db.rows), db.rows, id)
      ensures Sent(db.now, lag(id), old(db.rows)[id], db.rows[id], id, luck, known, old(db.failed), db.failed)
    {
      ghost var start, f := db.rows, db.failed;
      luck, known := GOOD, true;
      var lock := db.TakeDealActionLock(id, PostMessage);
      if lock.Err? {
        luck := luck.(taken := lock.error == AlreadyLocked);
        NothingSent(db.now, start[id], luck, Save(lag(id), true));
        return;
      }
      ghost var mid, f1 := db.rows, db.failed;
      var sent, saved;
      sent, saved, known := SendAndSave(id);
      ghost var c3, f3 := db.rows[id], db.failed;
      var released := db.ReleaseDealActionLock(id, PostMessage, lock.value,
                                               if saved then LockStatus.Completed else LockStatus.Failed);
      luck := luck.(sent := sent, recorded := saved || !sent, released := released);
      SentRow(db.now, start[id], luck, Save(lag(id), known), mid[id], c3, db.rows[id]);
      BlamedUnderLock(Posting, id, |start[id].post.locks|, luck, f, f1, f3, db.failed);
      if !known {
        LoggedWithin(OnDeal(id, LearnId), f, f1, f3, db.failed);
      }
    }

    method SendAndSave(id: int) returns (sent: bool, saved: bool, known: bool)
      requires id in db.rows
      modifies db`rows, db`failed
      ensures Grew(db.reliable, old(db.failed), db.failed)
      ensures OnlyRow(old(db.rows), db.rows, id)
      ensures db.rows[id] == SentAndSaved(db.now, old(db.rows)[id], sent, saved, Save(lag(id), known))
      ensures sent || Logged(OnDeal(id, SendMessage), old(db.failed), db.failed)
      ensures sent && !saved ==> Logged(OnDeal(id, Call.SaveMessage), old(db.failed), db.failed)
      ensures known || Logged(OnDeal(id, LearnId), old(db.failed), db.failed)
      ensures saved ==> sent
    {
      ghost var f := db.failed;
      saved, known := false, true;
      var idKnown;
      sent, idKnown := SendChannelMessage(id, PostGoal(db.rows[id]));
      ghost var mid := db.failed;
      if sent {
        known := idKnown;
        saved := SaveMessage(id, idKnown);
        if !known {
          LoggedWithin(OnDeal(id, LearnId), f, f, mid, db.failed);
        }
        if !saved {
          LoggedWithin(OnDeal(id, Call.SaveMessage), f, mid, db.failed, db.failed);
        }
      }
    }

    /** One deal of the sender's list. */
    method SendOne(id: int) returns (ghost x: Send)
      requires id in db.rows && PostView(db.rows[id]).open
      modifies db`rows, db`failed
      ensures Grew(db.reliable, old(db.failed), db.failed)
      ensures db.rows == old(db.rows)[id := PostOutcome(db.now, old(db.rows)[id], x.luck, x.save)]
      ensures PostBlamed(db.now, lag(id), old(db.rows)[id], id, x, old(db.failed), db.failed)
      ensures !DueForPost(db.now, old(db.rows)[id]) ==> db.rows == old(db.rows)
    {
      x := Send(GOOD, Save(lag(id), true));
      var c := db.rows[id];
      var details := c.deal.terms.details;
      if c.listingChannel.None? || details.message == "" {
        return;
      }
      if details.postedAt.Some? && db.now < details.postedAt.value {
        return;
      }
      ghost var before := db.failed;
      var finished;
      ghost var luck;
      finished, luck := TryRecover(id);
      x := x.(luck := luck);
      if !finished {
        ghost var mid, c1 := db.failed, db.rows[id];
        ghost var rest, known := SendUnderLock(id);
        ThenSends(db.now, lag(id), c, c1, db.rows[id], id, luck, rest, known, before, mid, db.failed);
        x := Send(rest.(read := luck.read, cleared := luck.cleared), Save(lag(id), known));
      }
    }

    method SendListed(ids: seq<int>) returns (ghost sends: map<int, Send>)
      requires (forall id :: id in ids ==> id in db.rows && PostView(db.rows[id]).open)
      requires forall i, j :: 0 <= i < j < |ids| ==> ids[i] != ids[j]
      modifies db`rows, db`failed
      ensures Grew(db.reliable, old(db.failed), db.failed)
      ensures forall id :: id in sends <==> id in ids
      ensures AllSent(db.now, old(db.rows), db.rows, sends)
      ensures AllPostBlamed(db.now, lag, old(db.rows), sends, old(db.failed), db.failed)
    {
      sends := map[];
      ghost var start, failed := db.rows, db.failed;
      for i := 0 to |ids|
        invariant Grew(db.reliable, failed, db.failed)
        invariant forall id :: id in sends <==> id in ids[..i]
        invariant AllSent(db.now, start, db.rows, sends)
        invariant AllPostBlamed(db.now, lag, start, sends, failed, db.failed)
      {
        assert ids[i] !in ids[..i];
        ghost var before, mid := db.rows, db.failed;
        ghost var x := SendOne(ids[i]);
        SentMore(db.now, start, before, sends, ids[i], x);
        SendsBlamed(db.now, lag, start, sends, ids[i], x, failed, mid, db.failed);
        sends := sends[ids[i] := x];
      }
      assert ids[..|ids|] == ids;
    }

    /**
     One round of the sender; what happened to each deal is in `sends`.  A deal that is not due is not touched.  Every
     deal that is due and not locked, and no call for which has failed, is posted as agreed, whether or not an earlier
     sender had posted the ad already.
     */
    method RunDealPostSenderOnce() returns (ghost sends: map<int, Send>)
      requires db.Valid()
      modifies db`rows, db`failed
      ensures db.Valid() && Grew(db.reliable, old(db.failed), db.failed)
      ensures forall id :: id in sends <==> id in old(db.rows) && PostView(old(db.rows)[id]).open
      ensures AllSent(db.now, old(db.rows), db.rows, sends)
      ensures OnlyDueChanged(db.now, old(db.rows), db.rows, old(db.failed), db.failed)
      ensures old(db.Safe()) ==>
        && (AllHarmless(db.now, old(db.rows), sends) ==> db.Safe())
        && DuePosted(db.now, lag, old(db.rows), db.rows, old(db.failed), db.failed)
    {
      ghost var start, failed := db.rows, db.failed;
      var ids := db.List((c: Cell) => c.deal.status == EscrowDepositConfirmed && c.message == None);
      sends := SendListed(ids);
      SentAtRest(db.now, start, db.rows, sends);
      SentKeepsSafe(db.cfg, db.now, start, db.rows, sends);
      RoundLocks(db.now, lag, start, db.rows, sends, failed, db.failed);
      if AllSafe(db.cfg, db.now, start) {
        RoundSends(db.cfg, db.now, lag, start, db.rows, sends, failed, db.failed);
      }
    }

    // ----- the checker -----

    method CheckOne(id: int)
      requires id in db.rows && DueForCheck(db.now, db.rows[id])
      modifies db`rows
      ensures db.rows == old(db.rows)[id := CheckOutcome(db.now, old(db.rows)[id])]
    {
      var m := db.rows[id].message.value;
      var k := db.rows[id].checks;
      var live := db.rows[id].ads != [] && m.idKnown;
      if !live {
        db.UpdateDealPostMessage(id, Deleted, m.nextCheck, k.(missed := true));
        return;
      }
      var nextCheck := m.nextCheck + HOUR;
      if nextCheck > m.untilTs {
        db.UpdateDealPostMessage(id, Passed, m.nextCheck, k.(seen := k.seen + [db.now]));
      } else {
        db.UpdateDealPostMessage(id, Exists, nextCheck, k.(seen := k.seen + [db.now]));
      }
    }

    /** One round of the checker. */
    method RunDealPostCheckerOnce()
      requires db.Valid()
      modifies db`rows
      ensures db.Valid() && (old(db.Safe()) ==> db.Safe())
      ensures AllChecked(db.now, old(db.rows), db.rows) && AllCheckedRight(db.now, old(db.rows), db.rows)
    {
      ghost var start := db.rows;
      var now := db.now;
      var ids := db.List((c: Cell) => DueForCheck(now, c));
      for i := 0 to |ids|
        invariant CheckedSome(now, start, db.rows, ids[..i])
      {
        assert ids[i] !in ids[..i];
        ghost var before := db.rows;
        CheckOne(ids[i]);
        CheckedMore(now, start, before, ids[..i], ids[i]);
        assert ids[..i + 1] == ids[..i] + [ids[i]];
      }
      assert ids[..|ids|] == ids;
      CheckedAll(now, start, db.rows, ids);
      CheckedAtRest(now, start, db.rows);
      CheckedKeepsSafe(db.cfg, now, start, db.rows);
    }
  }

  /**
   A message that is due is deleted if the ad is not found under its id; otherwise it passes if the next check, an hour
   later, would be after the end of the post, and is checked again then if not.
   */
  predicate CheckedRight(now: int, c: Cell, c': Cell) {
    if c.message == None || c.message.value.status != Exists || c.message.value.nextCheck > now then c' == c
    else
      var m := c.message.value;
      var later := m.nextCheck + 3_600_000_000;
      && c'.(message := c.message, checks := c.checks) == c
      && c'.message == Some(if c.ads == [] || !m.idKnown then m.(status := Deleted)
                            else if later > m.untilTs then m.(status := Passed)
                            else m.(nextCheck := later))
  }

  class PassedMessages {
    const db: Database

    constructor (db: Database)
      ensures this.db == db
    {
      this.db := db;
    }

    /** One round: passed posts release the escrow, deleted posts refund it. */
    method RunPassedOnce()
      requires db.Valid()
      modifies db`rows
      ensures db.Valid() && (old(db.Safe()) ==> db.Safe())
      ensures db.rows == map id | id in old(db.rows) :: PassOutcome(old(db.rows)[id])
    {
      var passed := db.List((c: Cell) => HasStatus(c, Passed));
      if |passed| > 0 {
        db.CloseDealPostMessages(passed, MessageCompleted, WaitingEscrowRelease);
      }
      var deleted := db.List((c: Cell) => HasStatus(c, Deleted));
      ghost var mid := db.rows;
      if |deleted| > 0 {
        db.CloseDealPostMessages(deleted, MessageFailed, WaitingEscrowRefund);
      }
      PassedInTwo(old(db.rows), passed, mid, deleted, db.rows);
      PassedKeepsSafe(db.cfg, db.now, old(db.rows));
    }
  }

  /** How the calls for one deal went, and how its message was saved. */
  datatype Send = Send(luck: Luck, save: Save)

  /** The deals in `sends` have been through one execution each, and no other deal has changed. */
  ghost predicate AllSent(now: int, before: Rows, after: Rows, sends: map<int, Send>) {
    && after.Keys == before.Keys
    && forall id :: id in before ==>
         after[id] == if id in sends then PostOutcome(now, before[id], sends[id].luck, sends[id].save) else before[id]
  }

  lemma SentMore(now: int, start: Rows, before: Rows, sends: map<int, Send>, id: int, x: Send)
    requires AllSent(now, start, before, sends) && id in before && id !in sends
    ensures AllSent(now, start, before[id := PostOutcome(now, before[id], x.luck, x.save)], sends[id := x])
  {
  }

  ghost predicate AllPostBlamed(now: int, lag: int -> nat, rows: Rows, sends: map<int, Send>, before: seq<Failure>,
                                after: seq<Failure>)
  {
    forall id :: id in rows && id in sends ==> PostBlamed(now, lag(id), rows[id], id, sends[id], before, after)
  }

  lemma SendsBlamed(now: int, lag: int -> nat, rows: Rows, sends: map<int, Send>, id: int, x: Send,
                    before: seq<Failure>, mid: seq<Failure>, after: seq<Failure>)
    requires before <= mid <= after && id in rows && id !in sends
    requires AllPostBlamed(now, lag, rows, sends, before, mid)
    requires PostBlamed(now, lag(id), rows[id], id, x, mid, after)
    ensures AllPostBlamed(now, lag, rows, sends[id := x], before, after)
  {
    forall i | i in rows && i in sends
      ensures PostBlamed(now, lag(i), rows[i], i, sends[i], before, after)
    {
      PostBlamedWithin(now, lag(i), rows[i], i, sends[i], before, before, mid, after);
    }
    PostBlamedWithin(now, lag(id), rows[id], id, x, before, mid, after, after);
  }

  /** A deal that is not due is left alone, and on one that is no lock stays behind unless it could not be released. */
  ghost predicate OnlyDueChanged(now: int, before: Rows, after: Rows, failed: seq<Failure>, failed': seq<Failure>) {
    && after.Keys == before.Keys
    && (forall id :: id in before && !DueForPost(now, before[id]) ==> after[id] == before[id])
    && forall id :: id in before && Unlocked(now, before[id].post.locks) && !LockKept(id, failed, failed') ==>
         Unlocked(now, after[id].post.locks)
  }

  /** Every deal that is due and not locked is posted, unless a call on it has failed. */
  ghost predicate DuePosted(now: int, lag: int -> nat, before: Rows, after: Rows, failed: seq<Failure>,
                            failed': seq<Failure>)
  {
    && after.Keys == before.Keys
    && forall id :: id in before && Spared(id, failed, failed') ==>
         PostedIfDue(now, lag(id), before[id], after[id])
  }

  lemma RoundLocks(now: int, lag: int -> nat, before: Rows, after: Rows, sends: map<int, Send>, failed: seq<Failure>,
                   failed': seq<Failure>)
    requires AllSent(now, before, after, sends) && AllPostBlamed(now, lag, before, sends, failed, failed')
    ensures OnlyDueChanged(now, before, after, failed, failed')
  {
    forall id | id in before && Unlocked(now, before[id].post.locks) && !LockKept(id, failed, failed')
      ensures Unlocked(now, after[id].post.locks)
    {
      if id in sends {
        LeavesNoLock(now, lag(id), before[id], id, sends[id], failed, failed');
      }
    }
  }

  /** What a round does for the deals whose calls all succeed. */
  lemma RoundSends(cfg: Config, now: int, lag: int -> nat, before: Rows, after: Rows, sends: map<int, Send>,
                   failed: seq<Failure>, failed': seq<Failure>)
    requires AllAtRest(before) && AllSafe(cfg, now, before) && AllSent(now, before, after, sends)
    requires forall id :: id in sends <==> id in before && PostView(before[id]).open
    requires AllPostBlamed(now, lag, before, sends, failed, failed')
    ensures DuePosted(now, lag, before, after, failed, failed')
  {
    forall id | id in before && Spared(id, failed, failed')
      ensures PostedIfDue(now, lag(id), before[id], after[id])
    {
      if id in sends {
        SparedSend(now, lag(id), before[id], id, sends[id], failed, failed');
        GoodPost(cfg, now, lag(id), before[id]);
      }
    }
  }

  /** No execution of the round left an ad unrecorded. */
  predicate AllHarmless(now: int, rows: Rows, sends: map<int, Send>) {
    forall id :: id in rows && id in sends ==> HarmlessPost(now, rows[id], sends[id].luck)
  }

  lemma SentRowAtRest(now: int, c: Cell, luck: Luck, save: Save)
    requires c == AtRest(c)
    ensures AtRest(PostOutcome(now, c, luck, save)) == PostOutcome(now, c, luck, save)
  {
  }

  lemma SentAtRest(now: int, before: Rows, after: Rows, sends: map<int, Send>)
    requires AllAtRest(before) && AllSent(now, before, after, sends)
    ensures AllAtRest(after)
  {
    forall id | id in after && id in sends
      ensures after[id] == AtRest(after[id])
    {
      SentRowAtRest(now, before[id], sends[id].luck, sends[id].save);
    }
  }

  lemma SentRowSafe(cfg: Config, now: int, c: Cell, listed: bool, x: Send)
    requires SafeInv(cfg, now, c) && c == AtRest(c) && (listed ==> HarmlessPost(now, c, x.luck))
    ensures SafeInv(cfg, now, if listed then PostOutcome(now, c, x.luck, x.save) else c)
  {
    if listed {
      PostOutcomeSafe(cfg, now, c, x.luck, x.save);
    }
  }

  lemma SentKeepsSafe(cfg: Config, now: int, before: Rows, after: Rows, sends: map<int, Send>)
    requires AllAtRest(before) && AllSent(now, before, after, sends)
    ensures AllSafe(cfg, now, before) && AllHarmless(now, before, sends) ==> AllSafe(cfg, now, after)
  {
    if AllSafe(cfg, now, before) && AllHarmless(now, before, sends) {
      forall id | id in after
        ensures SafeInv(cfg, now, after[id])
      {
        SentRowSafe(cfg, now, before[id], id in sends, if id in sends then sends[id] else Send(GOOD, NOTHING));
      }
    }
  }

  ghost predicate AllChecked(now: int, before: Rows, after: Rows) {
    after.Keys == before.Keys && forall id :: id in before ==> after[id] == CheckOutcome(now, before[id])
  }

  ghost predicate CheckedSome(now: int, before: Rows, after: Rows, done: seq<int>) {
    && after.Keys == before.Keys
    && forall id :: id in before ==> after[id] == if id in done then CheckOutcome(now, before[id]) else before[id]
  }

  lemma CheckedMore(now: int, start: Rows, before: Rows, done: seq<int>, id: int)
    requires CheckedSome(now, start, before, done) && id in before && id !in done
    ensures CheckedSome(now, start, before[id := CheckOutcome(now, before[id])], done + [id])
  {
  }

  ghost predicate AllCheckedRight(now: int, before: Rows, after: Rows) {
    after.Keys == before.Keys && forall id :: id in before ==> CheckedRight(now, before[id], after[id])
  }

  /** Checking the messages that are due is checking all: the others do not change. */
  lemma CheckedAll(now: int, before: Rows, after: Rows, ids: seq<int>)
    requires CheckedSome(now, before, after, ids)
    requires forall id :: id in ids <==> id in before && DueForCheck(now, before[id])
    ensures AllChecked(now, before, after) && AllCheckedRight(now, before, after)
  {
    forall id | id in before
      ensures after[id] == CheckOutcome(now, before[id]) && CheckedRight(now, before[id], after[id])
    {
    }
  }

  lemma CheckedAtRest(now: int, before: Rows, after: Rows)
    requires AllAtRest(before) && AllChecked(now, before, after)
    ensures AllAtRest(after)
  {
  }

  lemma CheckedKeepsSafe(cfg: Config, now: int, before: Rows, after: Rows)
    requires AllAtRest(before) && AllChecked(now, before, after)
    ensures AllSafe(cfg, now, before) ==> AllSafe(cfg, now, after)
  {
    if AllSafe(cfg, now, before) {
      forall id | id in before
        ensures SafeInv(cfg, now, after[id])
      {
        CheckOutcomeSafe(cfg, now, before[id]);
      }
    }
  }

  predicate HasStatus(c: Cell, status: MessageStatus) {
    c.message.Some? && c.message.value.status == status
  }

  lemma PassedInTwo(before: Rows, passed: seq<int>, mid: Rows, deleted: seq<int>, after: Rows)
    requires forall id :: id in passed <==> id in before && HasStatus(before[id], Passed)
    requires mid == if passed == [] then before else
      map id | id in before :: Closed(before[id], id in passed, MessageCompleted, WaitingEscrowRelease)
    requires forall id :: id in deleted <==> id in mid && HasStatus(mid[id], Deleted)
    requires after == if deleted == [] then mid else
      map id | id in mid :: Closed(mid[id], id in deleted, MessageFailed, WaitingEscrowRefund)
    ensures after == map id | id in before :: PassOutcome(before[id])
  {
    forall id | id in before
      ensures id in after && after[id] == PassOutcome(before[id])
    {
      assert mid[id] == Closed(before[id], id in passed, MessageCompleted, WaitingEscrowRelease);
      assert after[id] == Closed(mid[id], id in deleted, MessageFailed, WaitingEscrowRefund);
    }
  }

  lemma PassedKeepsSafe(cfg: Config, now: int, before: Rows)
    requires AllAtRest(before)
    ensures var after := map id | id in before :: PassOutcome(before[id]);
      AllAtRest(after) && (AllSafe(cfg, now, before) ==> AllSafe(cfg, now, after))
  {
    if AllSafe(cfg, now, before) {
      forall id | id in before
        ensures SafeInv(cfg, now, PassOutcome(before[id]))
      {
        PassOutcomeSafe(cfg, now, before[id]);
      }
    }
  }
}
