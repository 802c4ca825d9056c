/**
 One pass of a worker through the do-it-once protocol, when no other worker interferes but calls may fail: what its
 small steps come to, and that a pass after a crash completes what was begun.
 */
module Attempts {
  import opened DoOnce

  /**
   How the calls of one pass go: reading the last lock, marking it failed, taking a lock, the effect, recording the
   effect, and releasing the lock.
   */
  datatype Luck = Luck(read: bool, cleared: bool, taken: bool, sent: bool, recorded: bool, released: bool)

  const GOOD: Luck := Luck(true, true, true, true, true, true)

  /**
   The two services react differently to two errors.  If the last lock cannot be read, the payout goes on and the
   sender gives up; if a recovered effect cannot be recorded, the payout leaves the lock and the sender marks it failed.
   */
  datatype Style = Paying | Posting

  // ----- the small steps -----

  function Tested(style: Style, w: Worker, found: bool, luck: Luck): Event {
    if luck.read then Test(w, found) else if style.Paying? then TestFails(w) else Crash(w)
  }

  function Cleared(w: Worker, luck: Luck): Event {
    if luck.cleared then Clear(w) else ClearFails(w)
  }

  function Locking(w: Worker, recovers: bool, luck: Luck): Event {
    if luck.taken || recovers then Take(w) else Crash(w)
  }

  function Performed(w: Worker, luck: Luck): Event {
    if luck.sent then Act(w) else ActFails(w)
  }

  function Noted(style: Style, w: Worker, recovers: bool, luck: Luck): Event {
    if luck.recorded then Record(w) else if style.Paying? && recovers then Crash(w) else RecordFails(w)
  }

  function Ended(w: Worker, luck: Luck): Event {
    if luck.released then Release(w) else Crash(w)
  }

  /** The steps after the row has been read; those that a worker is not ready for are skipped by `Step`. */
  function Pass(style: Style, w: Worker, found: bool, recovers: bool, luck: Luck): seq<Event> {
    [Tested(style, w, found, luck), Cleared(w, luck), Locking(w, recovers, luck),
     Performed(w, luck), Noted(style, w, recovers, luck), Ended(w, luck)]
  }

  /** The first half of an attempt, up to taking a lock. */
  function Prepare(style: Style, now: int, s: State, w: Worker, found: bool, recovers: bool, luck: Luck): State {
    Step(now, Step(now, Step(now, s, Tested(style, w, found, luck)), Cleared(w, luck)), Locking(w, recovers, luck))
  }

  /** The second half: perform the effect, record it, release the lock. */
  function Perform(style: Style, now: int, s: State, w: Worker, recovers: bool, luck: Luck): State {
    Step(now, Step(now, Step(now, s, Performed(w, luck)), Noted(style, w, recovers, luck)), Ended(w, luck))
  }

  function Attempt(style: Style, now: int, order: Effect, key: Effect, s: State, w: Worker, luck: Luck): State {
    var begun := Step(now, s, Begin(w, order, key));
    var recovers := luck.read && Recovers(now, key, s);
    Perform(style, now, Prepare(style, now, begun, w, key in s.log, recovers, luck), w, recovers, luck)
  }

  // ----- what they come to -----

  predicate Recovers(now: int, key: Effect, s: State) {
    LastExpired(now, s.locks) && key in s.log
  }

  /** The last lock, with the given status if it could be written. */
  function Marked(locks: seq<Lock>, status: LockStatus, written: bool): seq<Lock> {
    if locks == [] || !written then locks else SetStatus(locks, |locks| - 1, status)
  }

  /** An effect that an earlier worker left behind is recorded, or it is not. */
  function Recovered(style: Style, s: State, luck: Luck): State {
    if luck.recorded then s.(open := false, locks := Marked(s.locks, LockStatus.Completed, luck.released))
    else if style.Paying? then s
    else s.(locks := Marked(s.locks, LockStatus.Failed, luck.released))
  }

  /** An expired lock without an effect is marked failed. */
  function Swept(now: int, locks: seq<Lock>, luck: Luck): seq<Lock> {
    if LastExpired(now, locks) then Marked(locks, LockStatus.Failed, luck.read && luck.cleared) else locks
  }

  /** The lock of one's own, when all is over. */
  function OwnLock(now: int, luck: Luck): Lock {
    Lock(if !luck.released then Locked
         else if luck.sent && luck.recorded then LockStatus.Completed
         else LockStatus.Failed,
         now + LOCK_TTL)
  }

  /** An active lock, or an error, turns the worker away; otherwise it acts under a lock of its own. */
  function Acted(now: int, order: Effect, s: State, luck: Luck): State {
    if AnyActive(now, s.locks) || !luck.taken then s
    else
      s.(open := s.open && !(luck.sent && luck.recorded),
         log := if luck.sent then s.log + [order] else s.log,
         locks := s.locks + [OwnLock(now, luck)])
  }

  /** What a whole attempt comes to. */
  function Attempted(style: Style, now: int, order: Effect, key: Effect, s: State, luck: Luck): State {
    if !luck.read && style.Posting? then s
    else if luck.read && Recovers(now, key, s) then Recovered(style, s, luck)
    else Acted(now, order, s.(locks := Swept(now, s.locks, luck)), luck)
  }

  lemma SkippedAttempt(now: int, order: Effect, key: Effect, s: State, w: Worker, luck: Luck)
    requires s.open && PcOf(s, w).Idle? && !luck.read
    ensures Attempt(Posting, now, order, key, s, w, luck) == Goto(s, w, Idle)
  {
    var s2 := Step(now, Step(now, s, Begin(w, order, key)), Crash(w));
    assert s2.pcs == s.pcs[w := Idle];
    IdlePrepares(now, s2, w, luck);
    IdlePerforms(Posting, now, s2, w, false, luck);
  }

  lemma IdlePrepares(now: int, s: State, w: Worker, luck: Luck)
    requires PcOf(s, w).Idle?
    ensures Step(now, Step(now, s, Cleared(w, luck)), Locking(w, false, luck)) == s
  {
  }

  lemma IdlePerforms(style: Style, now: int, s: State, w: Worker, recovers: bool, luck: Luck)
    requires PcOf(s, w).Idle?
    ensures Perform(style, now, s, w, recovers, luck) == s
  {
  }

  /** A worker that has found an effect skips the steps that lead to another one. */
  lemma RecoveringNotes(style: Style, now: int, s: State, w: Worker, luck: Luck)
    ensures var l := |s.locks| - 1;
      s.locks != [] ==>
        Step(now, Step(now, Goto(s, w, Recovering(l)), Performed(w, luck)), Noted(style, w, true, luck)) ==
        if luck.recorded then Goto(s.(open := false), w, Recorded(l))
        else Goto(s, w, if style.Paying? then Idle else Failing(l))
  {
    if s.locks != [] {
      var l := |s.locks| - 1;
      var s1 := Step(now, Goto(s, w, Recovering(l)), Performed(w, luck));
      var pc := if luck.recorded then Recorded(l) else if style.Paying? then Idle else Failing(l);
      assert s1.pcs[w := pc] == s.pcs[w := pc];
    }
  }

  lemma EndsIdle(now: int, s: State, w: Worker, pc: Pc, status: LockStatus, luck: Luck)
    requires s.locks != []
    requires pc == (if status.Completed? then Recorded(|s.locks| - 1) else Failing(|s.locks| - 1)) && !status.Locked?
    ensures Step(now, Goto(s, w, pc), Ended(w, luck)) ==
            Goto(s.(locks := Marked(s.locks, status, luck.released)), w, Idle)
  {
    assert s.pcs[w := pc][w := Idle] == s.pcs[w := Idle];
  }

  lemma RecoveringPerforms(style: Style, now: int, s: State, w: Worker, luck: Luck)
    requires s.locks != []
    ensures Perform(style, now, Goto(s, w, Recovering(|s.locks| - 1)), w, true, luck) ==
            Goto(Recovered(style, s, luck), w, Idle)
  {
    RecoveringNotes(style, now, s, w, luck);
    if luck.recorded {
      EndsIdle(now, s.(open := false), w, Recorded(|s.locks| - 1), LockStatus.Completed, luck);
    } else if style.Posting? {
      EndsIdle(now, s, w, Failing(|s.locks| - 1), LockStatus.Failed, luck);
    } else {
      assert s.pcs[w := Idle][w := Idle] == s.pcs[w := Idle];
    }
  }

  lemma RecoveringAttempt(style: Style, now: int, order: Effect, key: Effect, s: State, w: Worker, luck: Luck)
    requires s.open && PcOf(s, w).Idle? && luck.read && Recovers(now, key, s)
    ensures Attempt(style, now, order, key, s, w, luck) == Goto(Recovered(style, s, luck), w, Idle)
  {
    var begun := Step(now, s, Begin(w, order, key));
    var s2 := Step(now, begun, Test(w, true));
    assert s2.pcs == s.pcs[w := Recovering(|s.locks| - 1)];
    assert Prepare(style, now, begun, w, true, true, luck) == s2;
    RecoveringPerforms(style, now, s, w, luck);
  }

  /** What a worker that does not recover knows when it comes to take a lock. */
  function ReadingOf(now: int, locks: seq<Lock>, luck: Luck): Reading {
    if !luck.read then Unread else if LastExpired(now, locks) then Searched(|locks| - 1) else Current
  }

  lemma TestedReady(style: Style, now: int, order: Effect, key: Effect, s: State, w: Worker, luck: Luck)
    requires s.open && PcOf(s, w).Idle? && (luck.read || style.Paying?) && !(luck.read && Recovers(now, key, s))
    ensures Step(now, Step(now, s, Begin(w, order, key)), Tested(style, w, key in s.log, luck)) ==
            Goto(s, w, if luck.read && LastExpired(now, s.locks) then Clearing(order, |s.locks| - 1)
                       else Ready(order, ReadingOf(now, s.locks, luck)))
  {
    var s1 := Goto(s, w, Prepared(order, key));
    assert Step(now, s, Begin(w, order, key)) == s1;
    var s2 := Step(now, s1, Tested(style, w, key in s.log, luck));
    assert s2.pcs == s.pcs[w := s2.pcs[w]];
  }

  lemma ClearedReady(now: int, order: Effect, s: State, w: Worker, luck: Luck)
    ensures Step(now, Goto(s, w, if luck.read && LastExpired(now, s.locks) then Clearing(order, |s.locks| - 1)
                                 else Ready(order, ReadingOf(now, s.locks, luck))), Cleared(w, luck)) ==
            Goto(s.(locks := Swept(now, s.locks, luck)), w, Ready(order, ReadingOf(now, s.locks, luck)))
  {
    var ready := Ready(order, ReadingOf(now, s.locks, luck));
    if luck.read && LastExpired(now, s.locks) {
      assert s.pcs[w := Clearing(order, |s.locks| - 1)][w := ready] == s.pcs[w := ready];
    }
  }

  lemma SweepingAttempt(style: Style, now: int, order: Effect, key: Effect, s: State, w: Worker, luck: Luck)
    requires s.open && PcOf(s, w).Idle? && (luck.read || style.Paying?) && !(luck.read && Recovers(now, key, s))
    ensures Prepare(style, now, Step(now, s, Begin(w, order, key)), w, key in s.log, false, luck) ==
            Step(now, Goto(s.(locks := Swept(now, s.locks, luck)), w, Ready(order, ReadingOf(now, s.locks, luck))),
                 Locking(w, false, luck))
  {
    TestedReady(style, now, order, key, s, w, luck);
    ClearedReady(now, order, s, w, luck);
  }

  lemma TakingAttempt(now: int, order: Effect, reading: Reading, s: State, w: Worker, luck: Luck)
    ensures Step(now, Goto(s, w, Ready(order, reading)), Locking(w, false, luck)) ==
      if AnyActive(now, s.locks) || !luck.taken then Goto(s, w, Idle)
      else Goto(s.(locks := s.locks + [Lock(Locked, now + LOCK_TTL)]), w, Holding(order, |s.locks|))
  {
    assert s.pcs[w := Ready(order, reading)][w := Idle] == s.pcs[w := Idle];
    assert s.pcs[w := Ready(order, reading)][w := Holding(order, |s.locks|)] == s.pcs[w := Holding(order, |s.locks|)];
  }

  lemma SetLast(locks: seq<Lock>, expireAt: int, status: LockStatus)
    ensures SetStatus(locks + [Lock(Locked, expireAt)], |locks|, status) == locks + [Lock(status, expireAt)]
  {
  }

  /** The effect and its record, under a lock just taken. */
  lemma HoldingNotes(style: Style, now: int, order: Effect, s: State, w: Worker, luck: Luck)
    ensures var l := |s.locks|;
      var taken := s.(locks := s.locks + [Lock(Locked, now + LOCK_TTL)]);
      Step(now, Step(now, Goto(taken, w, Holding(order, l)), Performed(w, luck)), Noted(style, w, false, luck)) ==
      Goto(taken.(open := s.open && !(luck.sent && luck.recorded), log := if luck.sent then s.log + [order] else s.log),
           w, if luck.sent && luck.recorded then Recorded(l) else Failing(l))
  {
    var l := |s.locks|;
    var taken := Goto(s.(locks := s.locks + [Lock(Locked, now + LOCK_TTL)]), w, Holding(order, l));
    var s2 := Step(now, Step(now, taken, Performed(w, luck)), Noted(style, w, false, luck));
    assert s2.pcs == s.pcs[w := if luck.sent && luck.recorded then Recorded(l) else Failing(l)];
  }

  lemma HoldingAttempt(style: Style, now: int, order: Effect, s: State, w: Worker, luck: Luck)
    requires !AnyActive(now, s.locks) && luck.taken
    ensures var taken := s.(locks := s.locks + [Lock(Locked, now + LOCK_TTL)]);
      Perform(style, now, Goto(taken, w, Holding(order, |s.locks|)), w, false, luck) ==
      Goto(Acted(now, order, s, luck), w, Idle)
  {
    HoldingNotes(style, now, order, s, w, luck);
    SetLast(s.locks, now + LOCK_TTL, LockStatus.Completed);
    SetLast(s.locks, now + LOCK_TTL, LockStatus.Failed);
    var done := s.(open := s.open && !(luck.sent && luck.recorded), log := if luck.sent then s.log + [order] else s.log,
                   locks := s.locks + [Lock(Locked, now + LOCK_TTL)]);
    if luck.sent && luck.recorded {
      EndsIdle(now, done, w, Recorded(|s.locks|), LockStatus.Completed, luck);
    } else {
      EndsIdle(now, done, w, Failing(|s.locks|), LockStatus.Failed, luck);
    }
  }

  lemma ActingAttempt(style: Style, now: int, order: Effect, key: Effect, s: State, w: Worker, luck: Luck)
    requires s.open && PcOf(s, w).Idle? && (luck.read || style.Paying?) && !(luck.read && Recovers(now, key, s))
    ensures Attempt(style, now, order, key, s, w, luck) ==
            Goto(Acted(now, order, s.(locks := Swept(now, s.locks, luck)), luck), w, Idle)
  {
    var swept := s.(locks := Swept(now, s.locks, luck));
    SweepingAttempt(style, now, order, key, s, w, luck);
    TakingAttempt(now, order, ReadingOf(now, s.locks, luck), swept, w, luck);
    if AnyActive(now, swept.locks) || !luck.taken {
      IdlePerforms(style, now, Goto(swept, w, Idle), w, false, luck);
    } else {
      HoldingAttempt(style, now, order, swept, w, luck);
    }
  }

  /** The small steps of an attempt come to this outcome, whatever the state of the locks and whatever fails. */
  lemma AttemptEffect(style: Style, now: int, order: Effect, key: Effect, s: State, w: Worker, luck: Luck)
    requires s.open && PcOf(s, w).Idle?
    ensures Attempt(style, now, order, key, s, w, luck) == Goto(Attempted(style, now, order, key, s, luck), w, Idle)
  {
    if !luck.read && style.Posting? {
      SkippedAttempt(now, order, key, s, w, luck);
    } else if luck.read && Recovers(now, key, s) {
      RecoveringAttempt(style, now, order, key, s, w, luck);
    } else {
      ActingAttempt(style, now, order, key, s, w, luck);
    }
  }

  // ----- attempts keep the invariant, and complete -----

  /** No effect is left unrecorded, and no expired lock unread, unless it is harmless. */
  predicate Harmless(style: Style, now: int, key: Effect, s: State, luck: Luck) {
    && (luck.read || style.Posting? || !LastExpired(now, s.locks))
    && (luck.recorded || (if luck.read && Recovers(now, key, s) then style.Paying? else !luck.sent))
  }

  /** Once the last lock has been released or has expired, no lock is active. */
  lemma NothingActive(now: int, goal: Effect, s: State, luck: Luck)
    requires Inv(now, goal, s) && !AnyActive(now, s.locks)
    ensures !AnyActive(now, Swept(now, s.locks, luck))
  {
  }

  lemma RecoveredKeepsInv(style: Style, now: int, goal: Effect, s: State, luck: Luck)
    requires Inv(now, goal, s) && s.pcs == map[] && Recovers(now, goal, s)
    requires luck.recorded || style.Paying?
    ensures Inv(now, goal, Recovered(style, s, luck))
  {
  }

  lemma SweptKeepsInv(now: int, goal: Effect, s: State, luck: Luck)
    requires Inv(now, goal, s) && s.pcs == map[] && s.open && !(luck.read && Recovers(now, goal, s))
    ensures Inv(now, goal, s.(locks := Swept(now, s.locks, luck)))
    ensures AnyActive(now, Swept(now, s.locks, luck)) <==> AnyActive(now, s.locks)
    ensures !AnyActive(now, s.locks) && (luck.read || !LastExpired(now, s.locks)) ==> s.log == []
  {
    if s.log != [] {
      LockedLast(now, s.locks);
      assert s.log[0] == goal;
    }
    assert forall i :: 0 <= i < |s.locks| ==> Active(now, Swept(now, s.locks, luck)[i]) == Active(now, s.locks[i]);
  }

  lemma ActedKeepsInv(now: int, goal: Effect, s: State, luck: Luck)
    requires Inv(now, goal, s) && s.pcs == map[] && s.open && (AnyActive(now, s.locks) || s.log == [])
    requires luck.recorded || !luck.sent || AnyActive(now, s.locks)
    ensures Inv(now, goal, Acted(now, goal, s, luck))
  {
  }

  /** An attempt leaves no lock behind that keeps others away, unless its own could not be released. */
  lemma NoLockLeft(style: Style, now: int, order: Effect, key: Effect, s: State, luck: Luck)
    requires !AnyActive(now, s.locks) && luck.released
    ensures !AnyActive(now, Attempted(style, now, order, key, s, luck).locks)
  {
    assert forall i :: 0 <= i < |s.locks| ==> !Active(now, Swept(now, s.locks, luck)[i]);
  }

  /** An attempt without harmful errors keeps the invariant. */
  lemma AttemptedKeepsInv(style: Style, now: int, goal: Effect, s: State, luck: Luck)
    requires Inv(now, goal, s) && s.open && s.pcs == map[] && Harmless(style, now, goal, s, luck)
    ensures Inv(now, goal, Attempted(style, now, goal, goal, s, luck))
  {
    if !luck.read && style.Posting? {
    } else if luck.read && Recovers(now, goal, s) {
      RecoveredKeepsInv(style, now, goal, s, luck);
    } else {
      SweptKeepsInv(now, goal, s, luck);
      ActedKeepsInv(now, goal, s.(locks := Swept(now, s.locks, luck)), luck);
    }
  }

  /** While another worker's lock is active an attempt changes nothing, whatever fails. */
  lemma AttemptBlocked(style: Style, now: int, goal: Effect, s: State, luck: Luck)
    requires Inv(now, goal, s) && AnyActive(now, s.locks)
    ensures Attempted(style, now, goal, goal, s, luck) == s
  {
    assert !LastExpired(now, s.locks);
  }

  /**
   Recovery completes: from every state that a fault-free run with crashes can leave behind, once no lock is active,
   one attempt whose reads, effect and record succeed closes the row with exactly one effect in place, whether or not
   the effect had already happened, and whether or not the locks could be cleared and released.
   */
  lemma AttemptCompletes(style: Style, now: int, goal: Effect, s: State, luck: Luck)
    requires Inv(now, goal, s) && s.open && !AnyActive(now, s.locks)
    requires luck.read && luck.taken && luck.sent && luck.recorded
    ensures var t := Attempted(style, now, goal, goal, s, luck);
      !t.open && t.log == [goal] && t.vanished == s.vanished
  {
    if s.log != [] {
      LockedLast(now, s.locks);
      assert s.log[0] == goal && s.log == [goal];
    } else {
      NothingActive(now, goal, s, luck);
    }
  }
}
