/**
 The tables as the repositories read and write them.  `rows` groups, by deal, the deal row, its post message, its
 lock rows and its seed in the vault, together with what is outside the database: the ads in the channel and the
 transfers out of the escrow wallet.  Every method is one repository call.
 */
module Tables {
  import opened DoOnce
  import opened Attempts
  import opened Decimal
  import opened Deals
  import opened DealLife
  import opened DealPayouts
  import opened Scripts

  datatype Action = PostMessage | Payout(release: bool)

  /** Why a call on the locks fails: the lock is held by another worker, or the database did not answer. */
  datatype LockError = AlreadyLocked | Unavailable

  /** The calls whose failure the services react to; that the answer to sending an ad lacks its id counts as one. */
  datatype Call =
    | ReadLock
    | TakeLock
    | ReleaseLock(lock: int)
    | Confirm
    | SaveMessage
    | MakeTransfer
    | SendMessage
    | LearnId

  /** A failed call about a deal, or a failed lookup of a deal by its escrow address. */
  datatype Failure = OnDeal(id: int, call: Call) | OnAddress(address: Wallet)

  /** Failures are only added, and with a reliable environment there are none. */
  predicate Grew(reliable: bool, before: seq<Failure>, after: seq<Failure>) {
    before <= after && (reliable ==> after == before)
  }

  /** This failure is among those in between. */
  predicate Logged(f: Failure, before: seq<Failure>, after: seq<Failure>) {
    exists i :: |before| <= i < |after| && after[i] == f
  }

  /** No call about this deal has failed in between. */
  predicate Spared(id: int, before: seq<Failure>, after: seq<Failure>) {
    forall i :: |before| <= i < |after| && after[i].OnDeal? ==> after[i].id != id
  }

  /** A lock of this deal could not be released in between. */
  predicate LockKept(id: int, before: seq<Failure>, after: seq<Failure>) {
    exists i :: |before| <= i < |after| && after[i].OnDeal? && after[i].id == id && after[i].call.ReleaseLock?
  }

  /** A call succeeds, or its failure is noted. */
  predicate Answered(reliable: bool, ok: bool, f: Failure, before: seq<Failure>, after: seq<Failure>): (r: bool)
    ensures r ==> Grew(reliable, before, after) && (ok || Logged(f, before, after))
  {
    if ok then after == before
    else
      assert (before + [f])[|before|] == f;
      !reliable && after == before + [f]
  }

  /** Every lock that is still locked has expired. */
  predicate Unlocked(now: int, locks: seq<Lock>) {
    forall i :: 0 <= i < |locks| && locks[i].status == Locked ==> locks[i].expireAt <= now
  }

  lemma LocksInUse(now: int, locks: seq<Lock>)
    ensures Unlocked(now, locks) <==> !AnyActive(now, locks)
  {
    if !Unlocked(now, locks) {
      var i :| 0 <= i < |locks| && locks[i].status == Locked && locks[i].expireAt > now;
      assert Active(now, locks[i]);
    }
  }

  // ----- failed executions have failed calls -----

  function Sending(style: Style): Call {
    if style.Paying? then MakeTransfer else SendMessage
  }

  function Recording(style: Style): Call {
    if style.Paying? then Confirm else SaveMessage
  }

  /**
   Whatever is said to have failed in an execution is a call on this deal that did fail.  Before it the action had
   `n` locks; the lock that it releases in the end is the last of these if it recovers, and otherwise its own.
   */
  predicate Blamed(style: Style, id: int, n: nat, recovers: bool, luck: Luck, before: seq<Failure>,
                   after: seq<Failure>)
  {
    && (luck.read || Logged(OnDeal(id, ReadLock), before, after))
    && (luck.cleared || Logged(OnDeal(id, ReleaseLock(n - 1)), before, after))
    && (luck.taken || Logged(OnDeal(id, TakeLock), before, after))
    && (luck.sent || Logged(OnDeal(id, Sending(style)), before, after))
    && (luck.recorded || Logged(OnDeal(id, Recording(style)), before, after))
    && (luck.released || Logged(OnDeal(id, ReleaseLock(if recovers then n - 1 else n)), before, after))
  }

  /** If no call on the deal has failed, the execution has gone well. */
  lemma SparedIsGood(style: Style, id: int, n: nat, recovers: bool, luck: Luck, before: seq<Failure>,
                     after: seq<Failure>)
    requires Blamed(style, id, n, recovers, luck, before, after) && Spared(id, before, after)
    ensures luck == GOOD
  {
  }

  lemma LockReleased(style: Style, id: int, n: nat, recovers: bool, luck: Luck, before: seq<Failure>,
                     after: seq<Failure>)
    requires Blamed(style, id, n, recovers, luck, before, after) && !LockKept(id, before, after)
    ensures luck.released
  {
  }

  lemma LoggedWithin(f: Failure, before: seq<Failure>, a: seq<Failure>, b: seq<Failure>, after: seq<Failure>)
    requires before <= a <= b <= after && Logged(f, a, b)
    ensures Logged(f, before, after)
  {
    var i :| |a| <= i < |b| && b[i] == f;
    assert after[i] == f;
  }

  lemma BlamedWithin(style: Style, id: int, n: nat, recovers: bool, luck: Luck, before: seq<Failure>, a: seq<Failure>,
                     b: seq<Failure>, after: seq<Failure>)
    requires before <= a <= b <= after && Blamed(style, id, n, recovers, luck, a, b)
    ensures Blamed(style, id, n, recovers, luck, before, after)
  {
    forall f | Logged(f, a, b)
      ensures Logged(f, before, after)
    {
      LoggedWithin(f, before, a, b, after);
    }
  }

  /** The calls under a lock of one's own: the effect and its record, and then the release of the lock. */
  lemma BlamedUnderLock(style: Style, id: int, n: nat, luck: Luck, before: seq<Failure>, a: seq<Failure>,
                        b: seq<Failure>, after: seq<Failure>)
    requires before <= a <= b <= after && luck.read && luck.cleared && luck.taken
    requires luck.sent || Logged(OnDeal(id, Sending(style)), a, b)
    requires luck.recorded || Logged(OnDeal(id, Recording(style)), a, b)
    requires luck.released || Logged(OnDeal(id, ReleaseLock(n)), b, after)
    ensures Blamed(style, id, n, false, luck, before, after)
  {
    if !luck.sent {
      LoggedWithin(OnDeal(id, Sending(style)), before, a, b, after);
    }
    if !luck.recorded {
      LoggedWithin(OnDeal(id, Recording(style)), before, a, b, after);
    }
    if !luck.released {
      LoggedWithin(OnDeal(id, ReleaseLock(n)), before, b, after, after);
    }
  }

  lemma BlamedTwice(style: Style, id: int, n: nat, luck: Luck, rest: Luck, before: seq<Failure>, mid: seq<Failure>,
                    after: seq<Failure>)
    requires before <= mid <= after
    requires Blamed(style, id, n, false, luck, before, mid) && Blamed(style, id, n, false, rest, mid, after)
    ensures Blamed(style, id, n, false, rest.(read := luck.read, cleared := luck.cleared), before, after)
  {
    BlamedWithin(style, id, n, false, luck, before, before, mid, after);
    BlamedWithin(style, id, n, false, rest, before, mid, after, after);
  }

  function LocksOf(c: Cell, a: Action): seq<Lock> {
    match a
    case PostMessage => c.post.locks
    case Payout(release) => BookOf(c, release).locks
  }

  function WithLocks(c: Cell, a: Action, locks: seq<Lock>): Cell {
    match a
    case PostMessage => c.(post := c.post.(locks := locks))
    case Payout(true) => c.(release := c.release.(locks := locks))
    case Payout(false) => c.(refund := c.refund.(locks := locks))
  }

  type Rows = map<int, Cell>

  predicate AllAtRest(rows: Rows) {
    forall id :: id in rows ==> rows[id] == AtRest(rows[id])
  }

  ghost predicate AllSafe(cfg: Config, now: int, rows: Rows) {
    forall id :: id in rows ==> SafeInv(cfg, now, rows[id])
  }

  /** No other row has changed. */
  predicate OnlyRow(before: Rows, after: Rows, id: int) {
    id in before && id in after && after == before[id := after[id]]
  }

  /** Changing one row to one that is at rest, and safe if all were. */
  lemma RowChanged(cfg: Config, now: int, rows: Rows, id: int, c: Cell)
    requires AllAtRest(rows) && c == AtRest(c)
    ensures AllAtRest(rows[id := c])
    ensures AllSafe(cfg, now, rows) && SafeInv(cfg, now, c) ==> AllSafe(cfg, now, rows[id := c])
  {
  }

  method Pick<T(==)>(s: set<T>) returns (x: T)
    requires s != {}
    ensures x in s
  {
    x :| x in s;
  }

  class Database {
    const cfg: Config
    /** Whether every call succeeds. */
    const reliable: bool
    /** The seeds that the wallets are made of, one after the other, and how many of them are used up. */
    const seeds: nat -> int
    var drawn: nat
    var now: int
    var rows: Rows
    /** The calls that have failed, oldest first. */
    ghost var failed: seq<Failure>

    constructor (cfg: Config, now: int, reliable: bool, seeds: nat -> int)
      ensures this.cfg == cfg && this.reliable == reliable && this.seeds == seeds && this.now == now
      ensures rows == map[] && failed == [] && drawn == 0 && Safe()
    {
      this.cfg, this.reliable, this.seeds, this.now := cfg, reliable, seeds, now;
      rows, failed, drawn := map[], [], 0;
    }

    method NewSeed() returns (seed: int)
      modifies this`drawn
      ensures seed == seeds(old(drawn)) && drawn == old(drawn) + 1
    {
      seed := seeds(drawn);
      drawn := drawn + 1;
    }

    /** Whether a call succeeds; if it does not, that is noted. */
    method Try(ghost failure: Failure) returns (ok: bool)
      modifies this`failed
      ensures Answered(reliable, ok, failure, old(failed), failed)
    {
      ok := *;
      if reliable {
        ok := true;
      }
      if !ok {
        failed := failed + [failure];
      }
    }

    /** No process is in the middle of anything. */
    ghost predicate Valid()
      reads this
    {
      AllAtRest(rows)
    }

    /** Every deal satisfies the invariant of fault-free runs. */
    ghost predicate Safe()
      reads this
    {
      Valid() && AllSafe(cfg, now, rows)
    }

    /** The ids of the rows that satisfy a condition, each once, in any order. */
    method List(which: Cell -> bool) returns (ids: seq<int>)
      ensures forall id :: id in ids <==> id in rows && which(rows[id])
      ensures forall i, j :: 0 <= i < j < |ids| ==> ids[i] != ids[j]
    {
      ids := [];
      var todo: set<int> := rows.Keys;
      while todo != {}
        invariant todo <= rows.Keys
        invariant forall id :: id in ids <==> id in rows && id !in todo && which(rows[id])
        invariant forall i, j :: 0 <= i < j < |ids| ==> ids[i] != ids[j]
        decreases todo
      {
        var id := Pick(todo);
        todo := todo - {id};
        if which(rows[id]) {
          ids := ids + [id];
        }
      }
    }

    // ----- deals -----

    method CreateDeal(id: int, lessor: int, lessee: int, terms: Terms, listingChannel: Option<int>)
      modifies this`rows
      ensures rows == if id in old(rows) then old(rows) else
        old(rows)[id := NewCell(cfg, lessor, lessee, terms, listingChannel)]
      ensures old(Safe()) ==> Safe()
    {
      if id !in rows {
        NewCellSafe(cfg, now, lessor, lessee, terms, listingChannel);
        rows := rows[id := NewCell(cfg, lessor, lessee, terms, listingChannel)];
      }
    }

    method SetDeal(id: int, d: Deal)
      modifies this`rows
      ensures rows == if id !in old(rows) then old(rows) else
        old(rows)[id := var c := old(rows)[id]; c.(deal := d)]
    {
      if id in rows {
        rows := rows[id := rows[id].(deal := d)];
      }
    }

    /** `SET status = to WHERE id = id AND status = from`. */
    method SetDealStatus(id: int, from: DealStatus, to: DealStatus)
      modifies this`rows
      ensures rows == if id !in old(rows) then old(rows) else
        old(rows)[id := var c := old(rows)[id]; c.(deal := SetStatusFrom(c.deal, from, to))]
    {
      if id in rows && rows[id].deal.status == from {
        SetDeal(id, rows[id].deal.(status := to));
      }
    }

    /** The same write, from a waiting status to the confirmed one; the callers react to its failure. */
    method SetDealStatusConfirmed(id: int, from: DealStatus, to: DealStatus) returns (ok: bool)
      modifies this`rows, this`failed
      ensures Answered(reliable, ok, OnDeal(id, Confirm), old(failed), failed)
      ensures !ok ==> rows == old(rows)
      ensures ok ==> rows == if id !in old(rows) then old(rows) else
        old(rows)[id := var c := old(rows)[id]; c.(deal := SetStatusFrom(c.deal, from, to))]
    {
      ok := Try(OnDeal(id, Confirm));
      if ok {
        SetDealStatus(id, from, to);
      }
    }

    method SetDealStatusCompleted(id: int)
      modifies this`rows
      ensures rows == if id !in old(rows) then old(rows) else
        old(rows)[id := var c := old(rows)[id]; c.(deal := SetCompleted(c.deal))]
    {
      if id in rows {
        var d := rows[id].deal;
        if d.status == EscrowReleaseConfirmed || d.status == EscrowRefundConfirmed {
          SetDeal(id, d.(status := DealStatus.Completed));
        }
      }
    }

    method SetDealStatusRejected(id: int) returns (updated: bool)
      modifies this`rows
      ensures rows == if id !in old(rows) then old(rows) else
        old(rows)[id := var c := old(rows)[id]; c.(deal := SetStatusFrom(c.deal, Draft, Rejected))]
      ensures updated <==> id in old(rows) && old(rows)[id].deal.status == Draft
    {
      updated := id in rows && rows[id].deal.status == Draft;
      SetDealStatus(id, Draft, Rejected);
    }

    method SetDealEscrowAddress(id: int, address: Wallet)
      modifies this`rows
      ensures rows == if id !in old(rows) then old(rows) else
        old(rows)[id := var c := old(rows)[id]; c.(deal := Deals.SetEscrowAddress(c.deal, address))]
    {
      if id in rows && rows[id].deal.status == Approved {
        SetDeal(id, rows[id].deal.(escrowAddress := Some(address), status := WaitingEscrowDeposit));
      }
    }

    method UpdateDealDraftFieldsAndClearSignatures(id: int, terms: Terms, escrowAmount: int)
      modifies this`rows
      ensures rows == if id !in old(rows) then old(rows) else
        old(rows)[id := var c := old(rows)[id]; if c.deal.status != Draft then c
        else c.(deal := c.deal.(terms := terms, escrowAmount := escrowAmount,
                                lessorSignature := None, lesseeSignature := None))]
    {
      if id in rows && rows[id].deal.status == Draft {
        var d := rows[id].deal.(terms := terms, escrowAmount := escrowAmount);
        SetDeal(id, d.(lessorSignature := None, lesseeSignature := None));
      }
    }

    method SetDealPayoutAddress(id: int, user: int, address: string)
      modifies this`rows
      ensures rows == if id !in old(rows) then old(rows) else
        old(rows)[id := var c := old(rows)[id];
          if c.deal.status != Draft then c
          else c.(deal := c.deal.(lessorPayout := if user == c.deal.lessor then address else c.deal.lessorPayout,
                                  lesseePayout := if user == c.deal.lessee then address else c.deal.lesseePayout))]
    {
      if id in rows {
        var d := rows[id].deal;
        if d.status == Draft && (user == d.lessor || user == d.lessee) {
          if user == d.lessor {
            d := d.(lessorPayout := address);
          }
          if user == d.lessee {
            d := d.(lesseePayout := address);
          }
          SetDeal(id, d);
        }
      }
    }

    /** One serializable transaction: read, write the signature, read again, approve if both match. */
    method SignDealInTx(id: int, user: int, sig: Signature) returns (error: Option<MarketError>)
      modifies this`rows
      ensures id !in old(rows) ==> error == Some(NotFound)
      ensures rows == if id !in old(rows) then old(rows) else
        old(rows)[id := var c := old(rows)[id]; WithDeal(c, SignInTx(cfg, c.deal, user, sig))]
      ensures id in old(rows) ==>
        error == match SignInTx(cfg, old(rows)[id].deal, user, sig) case Ok(_) => None case Err(e) => Some(e)
    {
      if id !in rows {
        return Some(NotFound);
      }
      var existing := rows[id].deal;
      if existing.status != Draft {
        return Some(NotDraft);
      }
      if user != existing.lessor && user != existing.lessee {
        return Some(UnauthorizedSide);
      }
      if user == existing.lessor {
        SetDeal(id, existing.(lessorSignature := Some(sig)));
      } else {
        SetDeal(id, existing.(lesseeSignature := Some(sig)));
      }
      var updated := rows[id].deal;
      if DealSignaturesMatch(cfg, updated) {
        SetDeal(id, updated.(status := Approved));
      }
      error := None;
    }

    // ----- seeds -----

    method PutEscrowSeed(id: int, seed: int)
      modifies this`rows
      ensures rows == if id !in old(rows) then old(rows) else
        old(rows)[id := var c := old(rows)[id]; c.(vault := Some(seed))]
    {
      if id in rows {
        rows := rows[id := rows[id].(vault := Some(seed))];
      }
    }

    // ----- locks -----

    /** The newest lock, if there is one; the query may fail. */
    method GetLastDealActionLock(id: int, a: Action) returns (last: Result<Option<nat>, LockError>)
      requires id in rows
      modifies this`failed
      ensures Answered(reliable, last.Ok?, OnDeal(id, ReadLock), old(failed), failed)
      ensures last == Err(Unavailable) ||
              last == Ok(if LocksOf(rows[id], a) == [] then None else Some(|LocksOf(rows[id], a)| - 1))
    {
      var locks := LocksOf(rows[id], a);
      var answers := Try(OnDeal(id, ReadLock));
      last := if !answers then Err(Unavailable) else Ok(if locks == [] then None else Some(|locks| - 1));
    }

    /**
     One transaction: refuse if a lock is active, and otherwise insert one, which is active for five minutes; it may
     fail for other reasons.
     */
    method TakeDealActionLock(id: int, a: Action) returns (lock: Result<nat, LockError>)
      requires id in rows
      modifies this`rows, this`failed
      ensures Answered(reliable, lock != Err(Unavailable), OnDeal(id, TakeLock), old(failed), failed)
      ensures var locks := LocksOf(old(rows)[id], a);
        match lock
        case Ok(l) =>
          && !AnyActive(now, locks) && l == |locks|
          && rows == old(rows)[id := WithLocks(old(rows)[id], a, locks + [Lock(Locked, now + 300_000_000)])]
        case Err(e) => rows == old(rows) && (e == AlreadyLocked ==> AnyActive(now, locks))
    {
      var answers := Try(OnDeal(id, TakeLock));
      if !answers {
        return Err(Unavailable);
      }
      var locks := LocksOf(rows[id], a);
      for i := 0 to |locks|
        invariant forall k :: 0 <= k < i ==> !Active(now, locks[k])
      {
        if locks[i].status == Locked && locks[i].expireAt > now {
          return Err(AlreadyLocked);
        }
      }
      rows := rows[id := WithLocks(rows[id], a, locks + [Lock(Locked, now + LOCK_TTL)])];
      lock := Ok(|locks|);
    }

    /** The callers drop the error of this call. */
    method ReleaseDealActionLock(id: int, a: Action, lock: nat, status: LockStatus) returns (ok: bool)
      modifies this`rows, this`failed
      ensures Answered(reliable, ok, OnDeal(id, ReleaseLock(lock)), old(failed), failed)
      ensures !ok ==> rows == old(rows)
      ensures ok ==> rows == if id !in old(rows) then old(rows) else
        old(rows)[id := var c := old(rows)[id]; WithLocks(c, a, SetStatus(LocksOf(c, a), lock, status))]
    {
      ok := Try(OnDeal(id, ReleaseLock(lock)));
      if ok && id in rows {
        var locks := LocksOf(rows[id], a);
        if lock < |locks| {
          locks := locks[lock := locks[lock].(status := status)];
        }
        rows := rows[id := WithLocks(rows[id], a, locks)];
      }
    }

    // ----- post messages -----

    /**
     `ON CONFLICT DO NOTHING`; the deal moves on only if the row was inserted, and only from `escrow_deposit_confirmed`.
     A transaction that fails leaves no trace.
     */
    method CreateDealPostMessageAndSetDealInProgress(id: int, m: Message, k: Checks) returns (ok: bool)
      requires m.status == Exists && m.nextCheck == k.first && k.seen == [] && !k.missed
      modifies this`rows, this`failed
      ensures Answered(reliable, ok, OnDeal(id, SaveMessage), old(failed), failed)
      ensures !ok ==> rows == old(rows)
      ensures ok ==> rows == if id !in old(rows) then old(rows) else
        old(rows)[id := var c := old(rows)[id]; if c.message.Some? then c
        else c.(message := Some(m), checks := k, deal := SetStatusFrom(c.deal, EscrowDepositConfirmed, InProgress))]
    {
      ok := Try(OnDeal(id, SaveMessage));
      if !ok || id !in rows || rows[id].message.Some? {
        return;
      }
      rows := rows[id := rows[id].(message := Some(m), checks := k)];
      SetDealStatus(id, EscrowDepositConfirmed, InProgress);
    }

    /** The status of a message, its next check, and the record of what was seen. */
    method UpdateDealPostMessage(id: int, status: MessageStatus, nextCheck: int, k: Checks)
      modifies this`rows
      ensures rows == if id !in old(rows) then old(rows) else
        old(rows)[id := var c := old(rows)[id]; if c.message.None? then c
        else c.(message := Some(c.message.value.(status := status, nextCheck := nextCheck)), checks := k)]
    {
      if id in rows && rows[id].message.Some? {
        var m := rows[id].message.value.(status := status, nextCheck := nextCheck);
        rows := rows[id := rows[id].(message := Some(m), checks := k)];
      }
    }

    /** One transaction over all listed messages and their deals, which does not look at the statuses it overwrites. */
    method CloseDealPostMessages(ids: seq<int>, status: MessageStatus, dealStatus: DealStatus)
      modifies this`rows
      ensures rows == map id | id in old(rows) :: Closed(old(rows)[id], id in ids, status, dealStatus)
    {
      if |ids| == 0 {
        assert rows == map id | id in rows :: Closed(rows[id], id in ids, status, dealStatus);
        return;
      }
      rows := map id | id in rows :: Closed(rows[id], id in ids, status, dealStatus);
    }
  }

  function Closed(c: Cell, listed: bool, status: MessageStatus, dealStatus: DealStatus): Cell {
    if listed && c.message.Some?
    then c.(message := Some(c.message.value.(status := status)), deal := c.deal.(status := dealStatus))
    else c
  }
}
