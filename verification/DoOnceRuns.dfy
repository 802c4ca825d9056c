/**
 Whole runs of the do-it-once protocol: what a fault-free run guarantees, that no weaker assumption would do,
 and exactly which assumptions a single worker can do without.
 */
module DoOnceRuns {
  import opened DoOnce

  datatype Input = Tick(dt: nat) | Do(e: Event)

  datatype Timed = Timed(now: int, s: State)

  function Next(t: Timed, i: Input): Timed {
    match i
    case Tick(dt) => Timed(t.now + dt, t.s)
    case Do(e) => Timed(t.now, Step(t.now, t.s, e))
  }

  function Run(t: Timed, run: seq<Input>): Timed
    decreases |run|
  {
    if run == [] then t else Run(Next(t, run[0]), run[1..])
  }

  function InputFaults(goal: Effect, t: Timed, i: Input): set<Fault> {
    if i.Do? then Faults(t.now, goal, t.s, i.e) else {}
  }

  function RunFaults(goal: Effect, t: Timed, run: seq<Input>): set<Fault>
    decreases |run|
  {
    if run == [] then {} else InputFaults(goal, t, run[0]) + RunFaults(goal, Next(t, run[0]), run[1..])
  }

  function Start(): Timed {
    Timed(0, Fresh())
  }

  // ----- safety -----

  lemma {:induction false} RunInv(goal: Effect, t: Timed, run: seq<Input>)
    requires Inv(t.now, goal, t.s)
    requires RunFaults(goal, t, run) == {}
    ensures Inv(Run(t, run).now, goal, Run(t, run).s)
    decreases |run|
  {
    if run != [] {
      assert InputFaults(goal, t, run[0]) <= RunFaults(goal, t, run);
      assert RunFaults(goal, Next(t, run[0]), run[1..]) <= RunFaults(goal, t, run);
      if run[0].Do? {
        StepInv(t.now, goal, t.s, run[0].e);
      }
      RunInv(goal, Next(t, run[0]), run[1..]);
    }
  }

  /**
   In every fault-free run, with any number of workers, at most one copy of the effect is in place; without
   removals the effect happened at most once, and it did happen if the row no longer waits.
   */
  lemma {:induction false} AtMostOnce(goal: Effect, run: seq<Input>)
    requires RunFaults(goal, Start(), run) == {}
    ensures var s := Run(Start(), run).s;
      && (s.log == [] || s.log == [goal])
      && (!s.open && s.vanished == 0 ==> s.log == [goal])
      && LockedWhileUnrecorded(s)
  {
    FreshInv(0, goal);
    RunInv(goal, Start(), run);
    var s := Run(Start(), run).s;
    assert s.log != [] ==> s.log == [s.log[0]];
  }

  // ----- each assumption is needed -----

  const GOAL: Effect := Transfer(Wallet(0), "lessor", 5)
  const OTHER: Effect := Transfer(Wallet(0), "lessor", 6)

  /** A worker that gets as far as holding a fresh lock. */
  function UpToTake(w: Worker): seq<Input> {
    [Do(Begin(w, GOAL, GOAL)), Do(Test(w, false)), Do(Take(w))]
  }

  /** A worker finds an expired lock, sees nothing outside, and performs `order`. */
  function Retry(w: Worker, order: Effect): seq<Input> {
    [Do(Begin(w, order, order)), Do(Test(w, false))] + [Do(Clear(w)), Do(Take(w)), Do(Act(w))]
  }

  /** Worker 0 crashes between performing the effect and recording it. */
  function Crashing(last: Input): seq<Input> {
    [Do(Act(0)), Do(Crash(0)), last]
  }

  /** What follows once worker 0 has taken a lock, with `f` as the only fault; two of the faults need another worker. */
  function BadTail(f: Fault): seq<Input> {
    match f
    case StaleRow =>
      [Do(Begin(1, GOAL, GOAL))] +
      ([Do(Act(0)), Do(Record(0)), Do(Release(0))] + [Do(Test(1, false)), Do(Take(1)), Do(Act(1))])
    case LateEffect => [Tick(LOCK_TTL)] + (Retry(1, GOAL) + [Do(Act(0))])
    case UnreadLock =>
      Crashing(Tick(LOCK_TTL)) + ([Do(Begin(0, GOAL, GOAL)), Do(TestFails(0))] + [Do(Take(0)), Do(Act(0))])
    case RecordError => [Do(Act(0)), Do(RecordFails(0)), Do(Release(0))] + (UpToTake(0) + [Do(Act(0))])
    case WrongLookup => Crashing(Tick(LOCK_TTL)) + Retry(0, GOAL)
    case ChangedOrder => Crashing(Tick(LOCK_TTL)) + Retry(0, OTHER)
    case SplitClock =>
      Crashing(Do(Begin(0, GOAL, GOAL))) +
      ([Tick(LOCK_TTL - 1), Do(Test(0, false)), Tick(1)] + [Do(Take(0)), Do(Act(0))])
  }

  /** A run whose only fault is `f` and which performs the effect twice. */
  function BadRun(f: Fault): seq<Input> {
    UpToTake(0) + BadTail(f)
  }

  lemma {:induction false} RunConcat(goal: Effect, t: Timed, a: seq<Input>, b: seq<Input>)
    ensures Run(t, a + b) == Run(Run(t, a), b)
    ensures RunFaults(goal, t, a + b) == RunFaults(goal, t, a) + RunFaults(goal, Run(t, a), b)
    decreases |a|
  {
    if a == [] {
      assert a + b == b;
    } else {
      assert (a + b)[0] == a[0] && (a + b)[1..] == a[1..] + b;
      RunConcat(goal, Next(t, a[0]), a[1..], b);
    }
  }

  lemma One(t: Timed, a: Input)
    ensures Run(t, [a]) == Next(t, a)
    ensures RunFaults(GOAL, t, [a]) == InputFaults(GOAL, t, a)
  {
    assert [a][1..] == [];
  }

  lemma Two(t: Timed, a: Input, b: Input)
    ensures Run(t, [a, b]) == Next(Next(t, a), b)
    ensures RunFaults(GOAL, t, [a, b]) == InputFaults(GOAL, t, a) + InputFaults(GOAL, Next(t, a), b)
  {
    assert [a, b][1..] == [b];
    One(Next(t, a), b);
  }

  lemma Three(t: Timed, a: Input, b: Input, c: Input)
    ensures Run(t, [a, b, c]) == Next(Next(Next(t, a), b), c)
    ensures RunFaults(GOAL, t, [a, b, c]) ==
            InputFaults(GOAL, t, a) + InputFaults(GOAL, Next(t, a), b) + InputFaults(GOAL, Next(Next(t, a), b), c)
  {
    assert [a, b, c][1..] == [b, c];
    Two(Next(t, a), b, c);
  }

  lemma TakeRun(t: Timed, w: Worker)
    requires t.s.open && PcOf(t.s, w).Idle? && !AnyActive(t.now, t.s.locks) && !LastExpired(t.now, t.s.locks)
    ensures var u := Run(t, UpToTake(w));
      && u.now == t.now && PcOf(u.s, w) == Holding(GOAL, |t.s.locks|)
      && u.s == t.s.(locks := t.s.locks + [Lock(Locked, t.now + LOCK_TTL)], pcs := u.s.pcs)
      && (forall v :: v != w ==> PcOf(u.s, v) == PcOf(t.s, v))
    ensures RunFaults(GOAL, t, UpToTake(w)) == {}
  {
    Three(t, Do(Begin(w, GOAL, GOAL)), Do(Test(w, false)), Do(Take(w)));
  }

  const LOCKED: seq<Lock> := [Lock(Locked, LOCK_TTL)]
  const FAILED: seq<Lock> := [Lock(LockStatus.Failed, LOCK_TTL)]

  lemma RetryTest(t: Timed, w: Worker, order: Effect)
    requires t.now == LOCK_TTL && t.s.open && t.s.locks == LOCKED && PcOf(t.s, w).Idle?
    ensures var run := [Do(Begin(w, order, order)), Do(Test(w, false))];
      var u := Run(t, run);
      && u.now == LOCK_TTL && u.s.open && u.s.log == t.s.log && u.s.locks == LOCKED
      && (w != 0 ==> PcOf(u.s, 0) == PcOf(t.s, 0)) && PcOf(u.s, w) == Clearing(order, 0)
      && RunFaults(GOAL, t, run) ==
         (if order == GOAL then {} else {ChangedOrder}) + (if order in t.s.log then {WrongLookup} else {})
  {
    Two(t, Do(Begin(w, order, order)), Do(Test(w, false)));
  }

  lemma RetryAct(t: Timed, w: Worker, order: Effect)
    requires t.now == LOCK_TTL && t.s.open && t.s.locks == LOCKED && PcOf(t.s, w) == Clearing(order, 0)
    ensures var run := [Do(Clear(w)), Do(Take(w)), Do(Act(w))];
      var u := Run(t, run);
      && u.now == LOCK_TTL && u.s.log == t.s.log + [order] && u.s.locks == FAILED + [Lock(Locked, 2 * LOCK_TTL)]
      && (w != 0 ==> PcOf(u.s, 0) == PcOf(t.s, 0)) && RunFaults(GOAL, t, run) == {}
  {
    Three(t, Do(Clear(w)), Do(Take(w)), Do(Act(w)));
  }

  lemma RetryRun(t: Timed, w: Worker, order: Effect)
    requires t.now == LOCK_TTL && t.s.open && t.s.locks == LOCKED && PcOf(t.s, w).Idle?
    ensures var u := Run(t, Retry(w, order));
      && u.now == LOCK_TTL && u.s.log == t.s.log + [order] && (w != 0 ==> PcOf(u.s, 0) == PcOf(t.s, 0))
      && u.s.locks == FAILED + [Lock(Locked, 2 * LOCK_TTL)]
    ensures RunFaults(GOAL, t, Retry(w, order)) ==
      (if order == GOAL then {} else {ChangedOrder}) + (if order in t.s.log then {WrongLookup} else {})
  {
    var a, b := [Do(Begin(w, order, order)), Do(Test(w, false))], [Do(Clear(w)), Do(Take(w)), Do(Act(w))];
    RunConcat(GOAL, t, a, b);
    RetryTest(t, w, order);
    RetryAct(Run(t, a), w, order);
  }

  /** Worker 0 holds the first lock, and worker 1 has not begun. */
  predicate Taken(t: Timed) {
    && t.now == 0 && t.s.open && t.s.log == [] && t.s.locks == LOCKED
    && PcOf(t.s, 0) == Holding(GOAL, 0) && PcOf(t.s, 1).Idle?
  }

  /** The run has that fault only, and two effects are in place after it. */
  predicate Breaks(t: Timed, run: seq<Input>, f: Fault) {
    RunFaults(GOAL, t, run) == {f} && |Run(t, run).s.log| == 2
  }

  /** A worker with an old copy of the row acts although another worker has completed. */
  lemma StaleTake(t: Timed)
    requires t.now == 0 && !t.s.open && t.s.log == [GOAL] && PcOf(t.s, 1) == Prepared(GOAL, GOAL)
    requires t.s.locks == [Lock(LockStatus.Completed, LOCK_TTL)]
    ensures Breaks(t, [Do(Test(1, false)), Do(Take(1)), Do(Act(1))], StaleRow)
  {
    Three(t, Do(Test(1, false)), Do(Take(1)), Do(Act(1)));
  }

  lemma CompleteRun(t: Timed)
    requires t.now == 0 && t.s.open && t.s.log == [] && t.s.locks == LOCKED && PcOf(t.s, 0) == Holding(GOAL, 0)
    ensures var run := [Do(Act(0)), Do(Record(0)), Do(Release(0))];
      var u := Run(t, run);
      && u == Timed(0, State(false, [GOAL], t.s.vanished, [Lock(LockStatus.Completed, LOCK_TTL)], u.s.pcs))
      && PcOf(u.s, 1) == PcOf(t.s, 1) && RunFaults(GOAL, t, run) == {}
  {
    Three(t, Do(Act(0)), Do(Record(0)), Do(Release(0)));
  }

  lemma TailStale(t: Timed)
    requires Taken(t)
    ensures Breaks(t, BadTail(StaleRow), StaleRow)
  {
    var a := [Do(Begin(1, GOAL, GOAL))];
    var b, c := [Do(Act(0)), Do(Record(0)), Do(Release(0))], [Do(Test(1, false)), Do(Take(1)), Do(Act(1))];
    RunConcat(GOAL, t, a, b + c);
    One(t, a[0]);
    RunConcat(GOAL, Run(t, a), b, c);
    CompleteRun(Run(t, a));
    StaleTake(Run(Run(t, a), b));
  }

  lemma CrashRun(t: Timed, last: Input)
    requires Taken(t) && (last == Tick(LOCK_TTL) || last == Do(Begin(0, GOAL, GOAL)))
    ensures var u := Run(t, Crashing(last));
      && u.s.open && u.s.log == [GOAL] && u.s.locks == LOCKED && RunFaults(GOAL, t, Crashing(last)) == {}
      && u.now == (if last.Tick? then LOCK_TTL else 0)
      && PcOf(u.s, 0) == (if last.Tick? then Idle else Prepared(GOAL, GOAL))
  {
    Three(t, Do(Act(0)), Do(Crash(0)), last);
  }

  /** The restarted worker cannot read its own expired lock, and takes another one. */
  lemma UnreadTake(t: Timed)
    requires t.now == LOCK_TTL && t.s.open && t.s.log == [GOAL] && t.s.locks == LOCKED && PcOf(t.s, 0).Idle?
    ensures Breaks(t, [Do(Begin(0, GOAL, GOAL)), Do(TestFails(0))] + [Do(Take(0)), Do(Act(0))], UnreadLock)
  {
    var a, b := [Do(Begin(0, GOAL, GOAL)), Do(TestFails(0))], [Do(Take(0)), Do(Act(0))];
    RunConcat(GOAL, t, a, b);
    Two(t, Do(Begin(0, GOAL, GOAL)), Do(TestFails(0)));
    Two(Run(t, a), Do(Take(0)), Do(Act(0)));
  }

  /** It tests the lock just before it expires and takes another one just after. */
  lemma SplitTake(t: Timed)
    requires t.now == 0 && t.s.open && t.s.log == [GOAL] && t.s.locks == LOCKED && PcOf(t.s, 0) == Prepared(GOAL, GOAL)
    ensures Breaks(t, [Tick(LOCK_TTL - 1), Do(Test(0, false)), Tick(1)] + [Do(Take(0)), Do(Act(0))], SplitClock)
  {
    var a, b := [Tick(LOCK_TTL - 1), Do(Test(0, false)), Tick(1)], [Do(Take(0)), Do(Act(0))];
    RunConcat(GOAL, t, a, b);
    Three(t, Tick(LOCK_TTL - 1), Do(Test(0, false)), Tick(1));
    Two(Run(t, a), Do(Take(0)), Do(Act(0)));
  }

  lemma TailCrash(t: Timed, f: Fault)
    requires Taken(t) && (f.UnreadLock? || f.SplitClock? || f.WrongLookup? || f.ChangedOrder?)
    ensures Breaks(t, BadTail(f), f)
  {
    var last := if f.SplitClock? then Do(Begin(0, GOAL, GOAL)) else Tick(LOCK_TTL);
    var u := Run(t, Crashing(last));
    CrashRun(t, last);
    if f.UnreadLock? {
      RunConcat(GOAL, t, Crashing(last), [Do(Begin(0, GOAL, GOAL)), Do(TestFails(0))] + [Do(Take(0)), Do(Act(0))]);
      UnreadTake(u);
    } else if f.SplitClock? {
      RunConcat(GOAL, t, Crashing(last), [Tick(LOCK_TTL - 1), Do(Test(0, false)), Tick(1)] + [Do(Take(0)), Do(Act(0))]);
      SplitTake(u);
    } else {
      var order := if f.WrongLookup? then GOAL else OTHER;
      RunConcat(GOAL, t, Crashing(last), Retry(0, order));
      RetryRun(u, 0, order);
    }
  }

  /** With a failed lock behind it, the worker takes another one and acts. */
  lemma ActAgain(t: Timed)
    requires t.now == 0 && t.s.open && t.s.log == [GOAL] && t.s.locks == FAILED && PcOf(t.s, 0).Idle?
    ensures var run := UpToTake(0) + [Do(Act(0))]; RunFaults(GOAL, t, run) == {} && |Run(t, run).s.log| == 2
  {
    RunConcat(GOAL, t, UpToTake(0), [Do(Act(0))]);
    TakeRun(t, 0);
    One(Run(t, UpToTake(0)), Do(Act(0)));
  }

  lemma TailRecordError(t: Timed)
    requires Taken(t)
    ensures Breaks(t, BadTail(RecordError), RecordError)
  {
    var run := [Do(Act(0)), Do(RecordFails(0)), Do(Release(0))];
    RunConcat(GOAL, t, run, UpToTake(0) + [Do(Act(0))]);
    Three(t, Do(Act(0)), Do(RecordFails(0)), Do(Release(0)));
    ActAgain(Run(t, run));
  }

  /** The first holder acts after all. */
  lemma LateAct(t: Timed)
    requires t.now == LOCK_TTL && t.s.log == [GOAL] && t.s.locks == FAILED + [Lock(Locked, 2 * LOCK_TTL)]
    requires PcOf(t.s, 0) == Holding(GOAL, 0)
    ensures Breaks(t, [Do(Act(0))], LateEffect)
  {
    One(t, Do(Act(0)));
  }

  lemma TailLate(t: Timed)
    requires Taken(t)
    ensures Breaks(t, BadTail(LateEffect), LateEffect)
  {
    var u := Timed(LOCK_TTL, t.s);
    One(t, Tick(LOCK_TTL));
    RunConcat(GOAL, t, [Tick(LOCK_TTL)], Retry(1, GOAL) + [Do(Act(0))]);
    RunConcat(GOAL, u, Retry(1, GOAL), [Do(Act(0))]);
    RetryRun(u, 1, GOAL);
    LateAct(Run(u, Retry(1, GOAL)));
  }

  /**
   Every one of the assumptions is needed: without it a run breaks that violates no other.  For `StaleRow`
   this is two payout workers as the code stands: the deal row is read before the lock is tested, so a worker
   with an old copy of the row finds a completed lock, takes a new one and pays again.
   */
  lemma EveryFaultBreaks(f: Fault)
    ensures Breaks(Start(), BadRun(f), f)
  {
    TakeRun(Start(), 0);
    var u := Run(Start(), UpToTake(0));
    RunConcat(GOAL, Start(), UpToTake(0), BadTail(f));
    match f
    case StaleRow => TailStale(u);
    case RecordError => TailRecordError(u);
    case LateEffect => TailLate(u);
    case _ => TailCrash(u, f);
  }

  /** The exact boundary: a set of faults can be tolerated in all runs if and only if it is empty. */
  lemma ToleratedFaults(tolerated: set<Fault>)
    ensures (forall run :: RunFaults(GOAL, Start(), run) <= tolerated ==> |Run(Start(), run).s.log| <= 1)
            <==> tolerated == {}
  {
    if tolerated == {} {
      forall run | RunFaults(GOAL, Start(), run) <= tolerated
        ensures |Run(Start(), run).s.log| <= 1
      {
        AtMostOnce(GOAL, run);
      }
    } else {
      var f :| f in tolerated;
      EveryFaultBreaks(f);
      assert RunFaults(GOAL, Start(), BadRun(f)) <= tolerated;
    }
  }

  /**
   The same boundary for one lock take, decidable by the worker before it: what follows is a second effect
   exactly if one is in place and the take is faulty: the row is stale, or the last lock has expired unread or
   since the test.
   */
  lemma SecondEffectIff(now: int, goal: Effect, s: State, w: Worker)
    requires Inv(now, goal, s) && PcOf(s, w).Ready?
    ensures |Step(now, Step(now, s, Take(w)), Act(w)).log| == 2
            <==> s.log != [] && Faults(now, goal, s, Take(w)) != {}
  {
    var t := Step(now, s, Take(w));
    assert PcInv(now, goal, s, s.pcs[w]);
    if AnyActive(now, s.locks) {
      assert PcOf(t, w) == Idle;
    } else {
      assert t.pcs[w].Holding?;
      if s.open && s.log != [] {
        LockedLast(now, s.locks);
        assert OverExpired(now, s.locks, s.pcs[w].reading) <= Faults(now, goal, s, Take(w));
      } else if s.log != [] {
        assert StaleRow in Faults(now, goal, s, Take(w));
      }
    }
  }

  // ----- one worker, as deployed -----

  /** The step is the environment's or is taken by worker `w`. */
  predicate By(w: Worker, e: Event) {
    e.Vanish? || e.w == w
  }

  predicate Solo(w: Worker, run: seq<Input>) {
    forall i :: 0 <= i < |run| && run[i].Do? ==> By(w, run[i].e)
  }

  /** The row is still as the only worker has read it, and the lock that it holds is the last one. */
  predicate SoloInv(s: State, w: Worker) {
    && (forall v :: v in s.pcs && v != w ==> s.pcs[v].Idle?)
    && (PcOf(s, w).Prepared? || PcOf(s, w).Clearing? || PcOf(s, w).Ready? ==> s.open)
    && (PcOf(s, w).Holding? ==> s.open && IsLast(s, PcOf(s, w).lock) && s.locks[|s.locks| - 1].status == Locked)
  }

  lemma SoloStep(now: int, s: State, w: Worker, e: Event)
    requires SoloInv(s, w) && By(w, e)
    ensures SoloInv(Step(now, s, e), w)
  {
  }

  lemma SoloNotStale(now: int, goal: Effect, s: State, w: Worker, e: Event)
    requires SoloInv(s, w) && By(w, e)
    ensures StaleRow !in Faults(now, goal, s, e)
  {
  }

  /** Without another worker, the lock that has expired is still the last one, and acting under it does no harm. */
  lemma SoloLateAct(now: int, goal: Effect, s: State, w: Worker)
    requires Inv(now, goal, s) && SoloInv(s, w) && PcOf(s, w).Holding?
    ensures Inv(now, goal, Step(now, s, Act(w)))
  {
    var t := Step(now, s, Act(w));
    assert PcInv(now, goal, s, s.pcs[w]);
    forall v | v in s.pcs && v != w
      ensures PcInv(now, goal, t, s.pcs[v])
    {
      assert s.pcs[v].Idle?;
    }
    GotoInv(now, goal, s, t, w, t.pcs[w]);
  }

  /** One worker needs neither `StaleRow` nor `LateEffect`. */
  const HARMLESS_ALONE: set<Fault> := {StaleRow, LateEffect}

  lemma SoloStepInv(now: int, goal: Effect, s: State, w: Worker, e: Event)
    requires Inv(now, goal, s) && SoloInv(s, w) && By(w, e)
    requires Faults(now, goal, s, e) <= HARMLESS_ALONE
    ensures Inv(now, goal, Step(now, s, e))
  {
    SoloNotStale(now, goal, s, w, e);
    if e.Act? && PcOf(s, w).Holding? {
      SoloLateAct(now, goal, s, w);
    } else {
      assert LateEffect !in Faults(now, goal, s, e);
      StepInv(now, goal, s, e);
    }
  }

  lemma {:induction false} SoloRunInv(goal: Effect, t: Timed, w: Worker, run: seq<Input>)
    requires Inv(t.now, goal, t.s) && SoloInv(t.s, w) && Solo(w, run)
    requires RunFaults(goal, t, run) <= HARMLESS_ALONE
    ensures Inv(Run(t, run).now, goal, Run(t, run).s)
    decreases |run|
  {
    if run != [] {
      assert InputFaults(goal, t, run[0]) <= RunFaults(goal, t, run);
      assert RunFaults(goal, Next(t, run[0]), run[1..]) <= RunFaults(goal, t, run);
      forall i | 0 <= i < |run[1..]| && run[1..][i].Do?
        ensures By(w, run[1..][i].e)
      {
        assert run[1..][i] == run[i + 1];
      }
      if run[0].Do? {
        SoloStepInv(t.now, goal, t.s, w, run[0].e);
        SoloStep(t.now, t.s, w, run[0].e);
      } else {
        TickInv(t.now, Next(t, run[0]).now, goal, t.s);
      }
      SoloRunInv(goal, Next(t, run[0]), w, run[1..]);
    }
  }

  /** One worker, however often it crashes and restarts, is safe without those two assumptions. */
  lemma SoloAtMostOnce(goal: Effect, w: Worker, run: seq<Input>)
    requires Solo(w, run)
    requires RunFaults(goal, Start(), run) <= HARMLESS_ALONE
    ensures |Run(Start(), run).s.log| <= 1
  {
    FreshInv(0, goal);
    SoloRunInv(goal, Start(), w, run);
  }

  /** And exactly without those two: each of the other five breaks a run of one worker. */
  lemma SoloToleratedFaults(tolerated: set<Fault>)
    ensures (forall run ::
               Solo(0, run) && RunFaults(GOAL, Start(), run) <= tolerated ==> |Run(Start(), run).s.log| <= 1)
            <==> tolerated <= HARMLESS_ALONE
  {
    if tolerated <= HARMLESS_ALONE {
      forall run | Solo(0, run) && RunFaults(GOAL, Start(), run) <= tolerated
        ensures |Run(Start(), run).s.log| <= 1
      {
        SoloAtMostOnce(GOAL, 0, run);
      }
    } else {
      var f :| f in tolerated && f !in HARMLESS_ALONE;
      EveryFaultBreaks(f);
      BadRunsAreSolo(f);
      assert RunFaults(GOAL, Start(), BadRun(f)) <= tolerated;
    }
  }

  lemma BadRunsAreSolo(f: Fault)
    requires f !in HARMLESS_ALONE
    ensures Solo(0, BadRun(f))
  {
  }
}
