/**
 The lock-protected "do it once" protocol that both the escrow payout and the channel post follow:
 read the row, test the last lock and recover from it if it is locked and expired, take a lock,
 perform the external effect, record it in the row, release the lock.

 Any number of workers run the protocol on the same row, every call is one atomic step, a worker may
 crash between any two steps, and the clock may advance at any point.  What the code relies on besides
 its own steps is spelt out as a set of faults; the protocol is proved safe for runs without faults,
 and for each fault there is a run with that fault alone which performs the effect twice.
 */
module DoOnce {

  /** The address of the wallet that a seed phrase derives. */
  datatype Wallet = Wallet(seed: int)

  /** An effect outside the database: a transfer out of an escrow wallet, or an ad in a channel. */
  datatype Effect =
    | Transfer(from: Wallet, to: string, amount: int)
    | Post(channel: int, text: string)

  datatype LockStatus = Locked | Completed | Failed

  datatype Lock = Lock(status: LockStatus, expireAt: int)

  /** Five minutes; times are in microseconds, the resolution of the stored timestamps. */
  const LOCK_TTL: int := 300_000_000

  type Worker = nat

  /**
   What a worker that is about to take a lock knows of the last one: nothing, because the read failed; that it had
   not expired when it was tested; or that it had, and that the search for its effect found nothing.
   */
  datatype Reading = Unread | Current | Searched(lock: nat)

  /** Where a worker stands; the arguments are its local variables. */
  datatype Pc =
    | Idle
    | Prepared(order: Effect, key: Effect)   // row read; `key` is what the recovery lookup searches for
    | Clearing(order: Effect, stale: nat)    // expired lock, nothing found: about to mark it failed
    | Ready(order: Effect, reading: Reading) // about to take a lock
    | Recovering(lock: nat)                  // expired lock, effect found: about to record it
    | Holding(order: Effect, lock: nat)      // lock taken: about to perform the effect
    | Done(lock: nat)                        // effect performed: about to record it
    | Failing(lock: nat)                     // about to release the lock as failed
    | Recorded(lock: nat)                    // about to release the lock as completed

  /**
   `open`: the row still waits for the effect.  `log`: the effects that are in place outside;
   `vanished` counts those the environment has removed.  `locks`: the lock rows of this action, oldest first.
   */
  datatype State = State(open: bool, log: seq<Effect>, vanished: nat, locks: seq<Lock>, pcs: map<Worker, Pc>)

  datatype Event =
    | Begin(w: Worker, order: Effect, key: Effect)
    | Test(w: Worker, found: bool)
    | TestFails(w: Worker)
    | Clear(w: Worker)
    | ClearFails(w: Worker)
    | Take(w: Worker)
    | Act(w: Worker)
    | ActFails(w: Worker)
    | Record(w: Worker)
    | RecordFails(w: Worker)
    | Release(w: Worker)
    | Crash(w: Worker)
    | Vanish(at: nat)

  // ----- the lock table of one action -----

  predicate Active(now: int, l: Lock) {
    l.status == Locked && l.expireAt > now
  }

  predicate Expired(now: int, l: Lock) {
    l.status == Locked && l.expireAt <= now
  }

  predicate AnyActive(now: int, locks: seq<Lock>) {
    exists i :: 0 <= i < |locks| && Active(now, locks[i])
  }

  predicate LastExpired(now: int, locks: seq<Lock>) {
    locks != [] && Expired(now, locks[|locks| - 1])
  }

  function SetStatus(locks: seq<Lock>, id: nat, status: LockStatus): seq<Lock> {
    if id < |locks| then locks[id := locks[id].(status := status)] else locks
  }

  // ----- the protocol -----

  function PcOf(s: State, w: Worker): Pc {
    if w in s.pcs then s.pcs[w] else Idle
  }

  function Goto(s: State, w: Worker, pc: Pc): State {
    s.(pcs := s.pcs[w := pc])
  }

  /** One step; an event that the worker is not ready for changes nothing. */
  function Step(now: int, s: State, e: Event): State {
    match e
    case Begin(w, order, key) =>
      if s.open && PcOf(s, w).Idle? then Goto(s, w, Prepared(order, key)) else s
    case Test(w, found) =>
      var pc := PcOf(s, w);
      if !pc.Prepared? then s
      else if !LastExpired(now, s.locks) then Goto(s, w, Ready(pc.order, Current))
      else if found then Goto(s, w, Recovering(|s.locks| - 1))
      else Goto(s, w, Clearing(pc.order, |s.locks| - 1))
    case TestFails(w) =>
      var pc := PcOf(s, w);
      if !pc.Prepared? then s else Goto(s, w, Ready(pc.order, Unread))
    case Clear(w) =>
      var pc := PcOf(s, w);
      if !pc.Clearing? then s
      else Goto(s.(locks := SetStatus(s.locks, pc.stale, Failed)), w, Ready(pc.order, Searched(pc.stale)))
    case ClearFails(w) =>
      var pc := PcOf(s, w);
      if !pc.Clearing? then s else Goto(s, w, Ready(pc.order, Searched(pc.stale)))
    case Take(w) =>
      var pc := PcOf(s, w);
      if !pc.Ready? then s
      else if AnyActive(now, s.locks) then Goto(s, w, Idle)
      else Goto(s.(locks := s.locks + [Lock(Locked, now + LOCK_TTL)]), w, Holding(pc.order, |s.locks|))
    case Act(w) =>
      var pc := PcOf(s, w);
      if !pc.Holding? then s else Goto(s.(log := s.log + [pc.order]), w, Done(pc.lock))
    case ActFails(w) =>
      var pc := PcOf(s, w);
      if !pc.Holding? then s else Goto(s, w, Failing(pc.lock))
    case Record(w) =>
      var pc := PcOf(s, w);
      if pc.Done? || pc.Recovering? then Goto(s.(open := false), w, Recorded(pc.lock)) else s
    case RecordFails(w) =>
      var pc := PcOf(s, w);
      if pc.Done? || pc.Recovering? then Goto(s, w, Failing(pc.lock)) else s
    case Release(w) =>
      var pc := PcOf(s, w);
      if pc.Failing? then Goto(s.(locks := SetStatus(s.locks, pc.lock, Failed)), w, Idle)
      else if pc.Recorded? then Goto(s.(locks := SetStatus(s.locks, pc.lock, Completed)), w, Idle)
      else s
    case Crash(w) =>
      if PcOf(s, w).Idle? then s else Goto(s, w, Idle)
    case Vanish(at) =>
      if at < |s.log| then s.(log := s.log[..at] + s.log[at + 1..], vanished := s.vanished + 1) else s
  }

  // ----- what the protocol relies on -----

  datatype Fault =
    | ChangedOrder   // a worker prepares an effect other than the one fixed for the row
    | WrongLookup    // the recovery lookup does not answer exactly
    | StaleRow       // a lock is taken although the row no longer waits
    | UnreadLock     // a lock is taken over an expired one that could not be read, so that nothing was searched for
    | SplitClock     // the last lock expired between the lock test and the lock take
    | LateEffect     // the effect is performed after the worker's own lock expired
    | RecordError    // recording fails after the effect, and the lock is marked failed

  /** Taking a lock over an expired one is harmless only if its effect has been searched for. */
  function OverExpired(now: int, locks: seq<Lock>, reading: Reading): set<Fault> {
    if !LastExpired(now, locks) || reading == Searched(|locks| - 1) then {}
    else if reading.Unread? then {UnreadLock}
    else {SplitClock}
  }

  function Faults(now: int, goal: Effect, s: State, e: Event): set<Fault> {
    match e
    case Begin(w, order, key) =>
      if s.open && PcOf(s, w).Idle? && (order != goal || key != goal) then {ChangedOrder} else {}
    case Test(w, found) =>
      var pc := PcOf(s, w);
      if pc.Prepared? && LastExpired(now, s.locks) && found != (pc.key in s.log) then {WrongLookup} else {}
    case Take(w) =>
      var pc := PcOf(s, w);
      if !pc.Ready? || AnyActive(now, s.locks) then {}
      else (if s.open then {} else {StaleRow}) + OverExpired(now, s.locks, pc.reading)
    case Act(w) =>
      var pc := PcOf(s, w);
      if pc.Holding? && pc.lock < |s.locks| && s.locks[pc.lock].expireAt <= now then {LateEffect} else {}
    case RecordFails(w) =>
      if PcOf(s, w).Done? || PcOf(s, w).Recovering? then {RecordError} else {}
    case _ => {}
  }

  // ----- the invariant -----

  predicate Owns(pc: Pc) {
    pc.Holding? || pc.Done? || pc.Failing?
  }

  predicate IsLast(s: State, id: nat) {
    id == |s.locks| - 1
  }

  /** Lock `l` expired without an effect, as long as no other lock was taken. */
  predicate Fruitless(now: int, s: State, l: nat) {
    l < |s.locks| && s.locks[l].expireAt <= now && (IsLast(s, l) ==> s.log == [])
  }

  /** What holds of a worker's local variables. */
  predicate PcInv(now: int, goal: Effect, s: State, pc: Pc) {
    match pc
    case Idle => true
    case Prepared(order, key) => order == goal && key == goal
    case Ready(order, reading) => order == goal && (reading.Searched? ==> Fruitless(now, s, reading.lock))
    case Clearing(order, l) => order == goal && Fruitless(now, s, l)
    case Recovering(l) => l < |s.locks| && |s.log| + s.vanished >= 1
    case Holding(order, l) =>
      && order == goal && l < |s.locks|
      && (IsLast(s, l) ==> s.log == [])
      && (now < s.locks[l].expireAt ==> IsLast(s, l) && (s.open ==> s.locks[l].status == Locked))
    case Done(l) => l < |s.locks| && |s.log| + s.vanished >= 1
    case Failing(l) => l < |s.locks| && (IsLast(s, l) ==> s.log == [])
    case Recorded(l) => l < |s.locks| && !s.open
  }

  /** The effect is in place but the row still waits: then the last lock is still locked. */
  predicate LockedWhileUnrecorded(s: State) {
    s.open && s.log != [] ==> s.locks != [] && s.locks[|s.locks| - 1].status == Locked
  }

  /** Every lock but the last has been released or has expired. */
  predicate NoneActiveBelow(now: int, locks: seq<Lock>) {
    forall i :: 0 <= i < |locks| - 1 ==> !Active(now, locks[i])
  }

  ghost predicate Inv(now: int, goal: Effect, s: State) {
    && |s.log| <= 1
    && (forall i :: 0 <= i < |s.log| ==> s.log[i] == goal)
    && LockedWhileUnrecorded(s)
    && NoneActiveBelow(now, s.locks)
    && (forall w :: w in s.pcs ==> PcInv(now, goal, s, s.pcs[w]))
    && (forall v, w :: v in s.pcs && w in s.pcs && v != w && Owns(s.pcs[v]) && Owns(s.pcs[w])
          ==> s.pcs[v].lock != s.pcs[w].lock)
    && (!s.open ==> |s.log| + s.vanished >= 1)
  }

  function Fresh(): State {
    State(true, [], 0, [], map[])
  }

  lemma FreshInv(now: int, goal: Effect)
    ensures Inv(now, goal, Fresh())
  {
  }

  lemma TickInv(now: int, later: int, goal: Effect, s: State)
    requires Inv(now, goal, s) && now <= later
    ensures Inv(later, goal, s)
  {
  }

  // ----- a fault-free step keeps the invariant -----

  /** Moving one worker to `pc` is all that a step changes besides the shared parts of the state. */
  lemma GotoInv(now: int, goal: Effect, s: State, t: State, w: Worker, pc: Pc)
    requires t.pcs == s.pcs[w := pc]
    requires |t.log| <= 1 && (forall i :: 0 <= i < |t.log| ==> t.log[i] == goal)
    requires LockedWhileUnrecorded(t)
    requires NoneActiveBelow(now, t.locks)
    requires !t.open ==> |t.log| + t.vanished >= 1
    requires PcInv(now, goal, t, pc)
    requires forall v :: v in s.pcs && v != w ==> PcInv(now, goal, t, s.pcs[v])
    requires forall u, v :: u in s.pcs && v in s.pcs && u != v && Owns(s.pcs[u]) && Owns(s.pcs[v])
               ==> s.pcs[u].lock != s.pcs[v].lock
    requires Owns(pc) ==> forall v :: v in s.pcs && v != w && Owns(s.pcs[v]) ==> s.pcs[v].lock != pc.lock
    ensures Inv(now, goal, t)
  {
  }

  /** Steps that touch nothing but `open` and the worker's own program counter. */
  lemma LocalInv(now: int, goal: Effect, s: State, w: Worker, open: bool, pc: Pc)
    requires Inv(now, goal, s) && (s.open || !open)
    requires !open ==> |s.log| + s.vanished >= 1
    requires PcInv(now, goal, s.(open := open), pc)
    requires Owns(pc) ==> w in s.pcs && Owns(s.pcs[w]) && s.pcs[w].lock == pc.lock
    ensures Inv(now, goal, Goto(s.(open := open), w, pc))
  {
    var t := s.(open := open);
    forall v | v in s.pcs && v != w
      ensures PcInv(now, goal, t, s.pcs[v])
    {
      assert PcInv(now, goal, s, s.pcs[v]);
    }
    GotoInv(now, goal, s, Goto(t, w, pc), w, pc);
  }

  lemma TestInv(now: int, goal: Effect, s: State, w: Worker, found: bool)
    requires Inv(now, goal, s) && PcOf(s, w).Prepared? && Faults(now, goal, s, Test(w, found)) == {}
    ensures Inv(now, goal, Step(now, s, Test(w, found)))
  {
    var t := Step(now, s, Test(w, found));
    assert PcInv(now, goal, s, s.pcs[w]);
    if LastExpired(now, s.locks) {
      assert WrongLookup !in Faults(now, goal, s, Test(w, found));
      assert found == (goal in s.log);
      assert s.log != [] ==> s.log[0] == goal;
    }
    GotoInv(now, goal, s, t, w, t.pcs[w]);
  }

  lemma SetStatusInv(now: int, goal: Effect, s: State, w: Worker, id: nat, status: LockStatus, pc: Pc)
    requires Inv(now, goal, s) && status != Locked && id < |s.locks|
    requires IsLast(s, id) ==> !s.open || s.log == []
    requires forall v :: v in s.pcs && v != w && s.pcs[v].Holding? && s.pcs[v].lock == id
               ==> !s.open || s.locks[id].expireAt <= now
    requires pc.Idle? || (pc == Ready(goal, Searched(id)) && Fruitless(now, s, id))
    ensures Inv(now, goal, Goto(s.(locks := SetStatus(s.locks, id, status)), w, pc))
  {
    var t := s.(locks := SetStatus(s.locks, id, status));
    forall v | v in s.pcs && v != w
      ensures PcInv(now, goal, t, s.pcs[v])
    {
      assert PcInv(now, goal, s, s.pcs[v]);
    }
    GotoInv(now, goal, s, Goto(t, w, pc), w, pc);
  }

  lemma ClearInv(now: int, goal: Effect, s: State, w: Worker)
    requires Inv(now, goal, s) && PcOf(s, w).Clearing?
    ensures Inv(now, goal, Step(now, s, Clear(w)))
  {
    assert PcInv(now, goal, s, s.pcs[w]);
    SetStatusInv(now, goal, s, w, s.pcs[w].stale, Failed, Ready(goal, Searched(s.pcs[w].stale)));
  }

  lemma LockedLast(now: int, locks: seq<Lock>)
    requires locks != [] && locks[|locks| - 1].status == Locked
    ensures AnyActive(now, locks) || LastExpired(now, locks)
  {
    if locks[|locks| - 1].expireAt > now {
      assert Active(now, locks[|locks| - 1]);
    }
  }

  /** A fault-free take that succeeds finds the row open and nothing in place. */
  lemma NothingInPlace(now: int, goal: Effect, s: State, w: Worker)
    requires Inv(now, goal, s) && PcOf(s, w).Ready? && !AnyActive(now, s.locks)
    requires Faults(now, goal, s, Take(w)) == {}
    ensures s.open && s.log == []
  {
    assert PcInv(now, goal, s, s.pcs[w]);
    assert StaleRow !in Faults(now, goal, s, Take(w));
    assert OverExpired(now, s.locks, s.pcs[w].reading) <= Faults(now, goal, s, Take(w));
    if s.log != [] {
      LockedLast(now, s.locks);
    }
  }

  /** A new lock on an open row with nothing in place disturbs no other worker. */
  lemma NewLockKeepsPc(now: int, goal: Effect, s: State, pc: Pc)
    requires PcInv(now, goal, s, pc) && s.log == [] && s.open && !AnyActive(now, s.locks)
    ensures PcInv(now, goal, s.(locks := s.locks + [Lock(Locked, now + LOCK_TTL)]), pc)
  {
    if pc.Holding? {
      assert !Active(now, s.locks[pc.lock]);
    }
  }

  lemma TakeInv(now: int, goal: Effect, s: State, w: Worker)
    requires Inv(now, goal, s) && PcOf(s, w).Ready? && Faults(now, goal, s, Take(w)) == {}
    ensures Inv(now, goal, Step(now, s, Take(w)))
  {
    if AnyActive(now, s.locks) {
      LocalInv(now, goal, s, w, s.open, Idle);
    } else {
      var t := Step(now, s, Take(w));
      NothingInPlace(now, goal, s, w);
      assert PcInv(now, goal, s, s.pcs[w]);
      forall v | v in s.pcs && v != w
        ensures PcInv(now, goal, t, s.pcs[v])
      {
        NewLockKeepsPc(now, goal, s, s.pcs[v]);
      }
      GotoInv(now, goal, s, t, w, t.pcs[w]);
    }
  }

  lemma ActInv(now: int, goal: Effect, s: State, w: Worker)
    requires Inv(now, goal, s) && PcOf(s, w).Holding? && Faults(now, goal, s, Act(w)) == {}
    ensures Inv(now, goal, Step(now, s, Act(w)))
  {
    var t := Step(now, s, Act(w));
    assert PcInv(now, goal, s, s.pcs[w]);
    assert now < s.locks[s.pcs[w].lock].expireAt by {
      assert LateEffect !in Faults(now, goal, s, Act(w));
    }
    forall v | v in s.pcs && v != w
      ensures PcInv(now, goal, t, s.pcs[v])
    {
      assert PcInv(now, goal, s, s.pcs[v]);
    }
    GotoInv(now, goal, s, t, w, t.pcs[w]);
  }

  lemma ReleaseInv(now: int, goal: Effect, s: State, w: Worker)
    requires Inv(now, goal, s) && (PcOf(s, w).Failing? || PcOf(s, w).Recorded?)
    ensures Inv(now, goal, Step(now, s, Release(w)))
  {
    var pc := s.pcs[w];
    assert PcInv(now, goal, s, pc);
    SetStatusInv(now, goal, s, w, pc.lock, if pc.Failing? then Failed else Completed, Idle);
  }

  lemma VanishInv(now: int, goal: Effect, s: State, at: nat)
    requires Inv(now, goal, s)
    ensures Inv(now, goal, Step(now, s, Vanish(at)))
  {
    var t := Step(now, s, Vanish(at));
    if at < |s.log| {
      assert t.log == [];
      forall v | v in s.pcs
        ensures PcInv(now, goal, t, s.pcs[v])
      {
        assert PcInv(now, goal, s, s.pcs[v]);
      }
    }
  }

  predicate Own(e: Event) {
    e.Begin? || e.TestFails? || e.ClearFails? || e.ActFails? || e.Record? || e.RecordFails? || e.Crash?
  }

  /** Steps that touch neither the locks nor the effects. */
  lemma OwnStepInv(now: int, goal: Effect, s: State, e: Event)
    requires Inv(now, goal, s) && Own(e) && Step(now, s, e) != s
    requires Faults(now, goal, s, e) == {}
    ensures Inv(now, goal, Step(now, s, e))
  {
    assert e.w in s.pcs ==> PcInv(now, goal, s, s.pcs[e.w]);
    match e
    case Begin(w, order, key) =>
      assert ChangedOrder !in Faults(now, goal, s, e);
      LocalInv(now, goal, s, w, s.open, Prepared(order, key));
    case TestFails(w) => LocalInv(now, goal, s, w, s.open, Ready(s.pcs[w].order, Unread));
    case ClearFails(w) => LocalInv(now, goal, s, w, s.open, Ready(s.pcs[w].order, Searched(s.pcs[w].stale)));
    case ActFails(w) => LocalInv(now, goal, s, w, s.open, Failing(s.pcs[w].lock));
    case Record(w) => LocalInv(now, goal, s, w, false, Recorded(s.pcs[w].lock));
    case Crash(w) => LocalInv(now, goal, s, w, s.open, Idle);
    case RecordFails(w) => assert false;
  }

  /** A fault-free step keeps the invariant, whichever worker takes it and whatever the others are doing. */
  lemma StepInv(now: int, goal: Effect, s: State, e: Event)
    requires Inv(now, goal, s)
    requires Faults(now, goal, s, e) == {}
    ensures Inv(now, goal, Step(now, s, e))
  {
    if Step(now, s, e) != s {
      match e
      case Test(w, found) => TestInv(now, goal, s, w, found);
      case Clear(w) => ClearInv(now, goal, s, w);
      case Take(w) => TakeInv(now, goal, s, w);
      case Act(w) => ActInv(now, goal, s, w);
      case Release(w) => ReleaseInv(now, goal, s, w);
      case Vanish(at) => VanishInv(now, goal, s, at);
      case _ => OwnStepInv(now, goal, s, e);
    }
  }
}
