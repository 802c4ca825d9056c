/** Deals that are paid twice: what a stale row, and a last lock that cannot be read, do to the deal itself. */
module DealTwice {
  import opened DoOnce
  import opened Attempts
  import opened Deals
  import opened DealLife
  import opened DealInvariant
  import opened DealJourneys
  import opened DealPayouts
  import opened DealTheorems
  import opened Scripts
  import opened SmoothRuns

  /** A step of one of the workers up to `n`, or of no worker. */
  predicate WithinCell(n: nat, e: CellEvent) {
    match e
    case PostBegin(w) => w <= n
    case PostStep(ev) => ev.Vanish? || ev.w <= n
    case PostRecord(w, _) => w <= n
    case PayBegin(_, w) => w <= n
    case PayStep(_, ev) => ev.Vanish? || ev.w <= n
    case _ => true
  }

  predicate Within(n: nat, m: Moment) {
    m.At? ==> WithinCell(n, m.e)
  }

  predicate RunWithin(n: nat, run: seq<Moment>) {
    forall i :: 0 <= i < |run| ==> Within(n, run[i])
  }

  /** A run of the workers up to `n` with exactly these faults. */
  ghost predicate Leads(cfg: Config, n: nat, t: Timed, faults: set<Fault>, u: Timed) {
    exists run :: RunWithin(n, run) && RunFaults(cfg, t, run) == faults && Run(cfg, t, run) == u
  }

  lemma LeadsOn(cfg: Config, n: nat, t: Timed, a: set<Fault>, u: Timed, b: set<Fault>, v: Timed)
    requires Leads(cfg, n, t, a, u) && Leads(cfg, n, u, b, v)
    ensures Leads(cfg, n, t, a + b, v)
  {
    var r :| RunWithin(n, r) && RunFaults(cfg, t, r) == a && Run(cfg, t, r) == u;
    var q :| RunWithin(n, q) && RunFaults(cfg, u, q) == b && Run(cfg, u, q) == v;
    RunConcat(cfg, t, r, q);
    FaultsConcat(cfg, t, r, q);
    assert RunWithin(n, r + q);
  }

  lemma LeadsFrom(cfg: Config, n: nat, t: Timed, u: Timed, faults: set<Fault>, v: Timed)
    requires Leads(cfg, n, t, {}, u) && Leads(cfg, n, u, faults, v)
    ensures Leads(cfg, n, t, faults, v)
  {
    LeadsOn(cfg, n, t, {}, u, faults, v);
    assert {} + faults == faults;
  }

  lemma LeadsSmoothly(cfg: Config, n: nat, t: Timed, u: Timed)
    requires Smooth(cfg, t, u)
    ensures Leads(cfg, n, t, {}, u)
  {
    var run :| SmoothRun(cfg, t, run) && Run(cfg, t, run) == u;
    forall i | 0 <= i < |run|
      ensures Within(n, run[i])
    {
      assert Calm(run[i]);
    }
  }

  lemma LeadsNext(cfg: Config, n: nat, t: Timed, m: Moment) returns (u: Timed)
    requires Within(n, m)
    ensures u == Next(cfg, t, m) && Leads(cfg, n, t, MomentFaults(cfg, t, m), u)
  {
    u := Next(cfg, t, m);
    OneMoment(cfg, t, m);
    assert RunWithin(n, [m]);
  }

  /** A deal that waits for its payout and can be paid, with nothing paid yet. */
  predicate Payee(cfg: Config, c: Cell, release: bool) {
    && Unpaid(c) && Seeded(c) && c.deal.status == Waiting(release)
    && PreparePayout(cfg, c.deal, c.vault, release).Ok?
  }

  /** The payout protocol of a deal that calls for the payout `goal` is in state `s`. */
  predicate Stands(cfg: Config, c: Cell, release: bool, goal: Effect, s: State) {
    && PayView(c, release) == s && PayGoal(cfg, c.deal, release) == goal && Seeded(c) && c.deal.escrowAddress.Some?
    && PayoutOf(c.deal, release) != "" && cfg.parses(PayoutOf(c.deal, release))
  }

  /** One step of a worker on the payout. */
  lemma PayMoves(cfg: Config, n: nat, t: Timed, release: bool, goal: Effect, s: State, e: Event) returns (u: Timed)
    requires Stands(cfg, t.cell, release, goal, s) && PayingStep(e) && e.w <= n
    ensures Leads(cfg, n, t, Faults(t.now, goal, s, e), u) && u.now == t.now
    ensures Stands(cfg, u.cell, release, goal, Step(t.now, s, e))
  {
    PayRefines(t.now, t.cell, release, e);
    u := LeadsNext(cfg, n, t, At(PayStep(release, e)));
  }

  /** A worker reads the waiting deal. */
  lemma PayBegins(cfg: Config, n: nat, t: Timed, release: bool, goal: Effect, s: State, w: Worker) returns (u: Timed)
    requires Stands(cfg, t.cell, release, goal, s) && s.open && w <= n
    ensures Leads(cfg, n, t, {}, u) && u.now == t.now
    ensures Stands(cfg, u.cell, release, goal, Step(t.now, s, Begin(w, goal, goal)))
  {
    PreparesGoal(cfg, t.cell, release);
    PayRefines(t.now, t.cell, release, Begin(w, goal, goal));
    u := LeadsNext(cfg, n, t, At(PayBegin(release, w)));
  }

  /** A worker reads the waiting deal and takes its next step. */
  lemma BeginsThen(cfg: Config, n: nat, t: Timed, release: bool, goal: Effect, s: State, w: Worker, e: Event)
    returns (u: Timed)
    requires Stands(cfg, t.cell, release, goal, s) && s.open && w <= n && PayingStep(e) && e.w == w
    requires Faults(t.now, goal, Step(t.now, s, Begin(w, goal, goal)), e) == {}
    ensures Leads(cfg, n, t, {}, u) && u.now == t.now
    ensures Stands(cfg, u.cell, release, goal, Step(t.now, Step(t.now, s, Begin(w, goal, goal)), e))
  {
    var begun := PayBegins(cfg, n, t, release, goal, s, w);
    u := PayMoves(cfg, n, begun, release, goal, Step(t.now, s, Begin(w, goal, goal)), e);
    LeadsFrom(cfg, n, t, begun, {}, u);
  }

  /** The two steps that make a transfer: taking a lock, and acting under it. */
  lemma TakesAndPays(cfg: Config, n: nat, t: Timed, release: bool, goal: Effect, s: State, w: Worker,
                     faults: set<Fault>) returns (u: Timed)
    requires Stands(cfg, t.cell, release, goal, s) && PcOf(s, w).Ready? && PcOf(s, w).order == goal && w <= n
    requires !AnyActive(t.now, s.locks) && Faults(t.now, goal, s, Take(w)) == faults
    ensures Leads(cfg, n, t, faults, u) && u.now == t.now
    ensures Stands(cfg, u.cell, release, goal, Step(t.now, Step(t.now, s, Take(w)), Act(w)))
    ensures u.cell.wallet == s.log + [goal]
  {
    var taken := PayMoves(cfg, n, t, release, goal, s, Take(w));
    u := PayMoves(cfg, n, taken, release, goal, Step(t.now, s, Take(w)), Act(w));
    LeadsOn(cfg, n, t, faults, taken, {}, u);
    assert faults + {} == faults;
  }

  /** A worker begins, finds no expired lock, and pays. */
  lemma PaysFirst(cfg: Config, n: nat, t: Timed, release: bool, goal: Effect, w: Worker) returns (u: Timed)
    requires Stands(cfg, t.cell, release, goal, Fresh()) && w <= n
    ensures Leads(cfg, n, t, {}, u) && u.now == t.now
    ensures var lock := Lock(Locked, t.now + LOCK_TTL);
      Stands(cfg, u.cell, release, goal, State(true, [goal], 0, [lock], map[w := Done(0)]))
  {
    FirstPass(t.now, goal, w);
    var s := State(true, [], 0, [], map[w := Ready(goal, Current)]);
    var tested := BeginsThen(cfg, n, t, release, goal, Fresh(), w, Test(w, false));
    u := TakesAndPays(cfg, n, tested, release, goal, s, w, {});
    LeadsFrom(cfg, n, t, tested, {}, u);
  }

  /** The states of a first payout. */
  lemma FirstPass(now: int, goal: Effect, w: Worker)
    ensures var ready := State(true, [], 0, [], map[w := Ready(goal, Current)]);
      && Step(now, Step(now, Fresh(), Begin(w, goal, goal)), Test(w, false)) == ready
      && Faults(now, goal, Step(now, Fresh(), Begin(w, goal, goal)), Test(w, false)) == {}
      && Faults(now, goal, ready, Take(w)) == {} && !AnyActive(now, ready.locks)
      && Step(now, Step(now, ready, Take(w)), Act(w)) ==
         State(true, [goal], 0, [Lock(Locked, now + LOCK_TTL)], map[w := Done(0)])
  {
    var ready := State(true, [], 0, [], map[w := Ready(goal, Current)]);
    assert Step(now, Step(now, Fresh(), Begin(w, goal, goal)), Test(w, false)).pcs == ready.pcs;
    assert Step(now, Step(now, ready, Take(w)), Act(w)).pcs == map[w := Done(0)];
  }

  // ----- two workers -----

  /** Worker 0 goes through a whole execution while worker 1 has only read the deal. */
  lemma PaidMeanwhile(cfg: Config, n: nat, t: Timed, release: bool, goal: Effect) returns (u: Timed)
    requires Stands(cfg, t.cell, release, goal, State(true, [], 0, [], map[1 := Prepared(goal, goal)]))
    ensures Leads(cfg, n, t, {}, u) && u.now == t.now
    ensures var lock := Lock(LockStatus.Completed, t.now + LOCK_TTL);
      Stands(cfg, u.cell, release, goal, State(false, [goal], 0, [lock], map[0 := Idle, 1 := Prepared(goal, goal)]))
  {
    PreparesGoal(cfg, t.cell, release);
    PayScriptSteps(cfg, t.now, t.cell, release, 0, GOOD);
    SmoothPay(cfg, t.now, t.cell, release);
    u := Timed(t.now, Steps(cfg, t.now, t.cell, PayScript(cfg, t.now, t.cell, release, 0, GOOD)));
    LeadsSmoothly(cfg, n, t, u);
    WholePayout(t.now, goal);
  }

  /** What a whole execution makes of a payout that worker 1 has only begun. */
  lemma WholePayout(now: int, goal: Effect)
    ensures var s := State(true, [], 0, [], map[1 := Prepared(goal, goal)]);
      Goto(Attempted(Paying, now, goal, goal, s, GOOD), 0, Idle) ==
      State(false, [goal], 0, [Lock(LockStatus.Completed, now + LOCK_TTL)], map[0 := Idle, 1 := Prepared(goal, goal)])
  {
    assert !AnyActive(now, []);
    assert map[1 := Prepared(goal, goal)][0 := Idle] == map[0 := Idle, 1 := Prepared(goal, goal)];
  }

  lemma PaidInBetween(cfg: Config, n: nat, t: Timed, release: bool, goal: Effect) returns (u: Timed)
    requires Stands(cfg, t.cell, release, goal, Fresh()) && n >= 1
    ensures Leads(cfg, n, t, {}, u) && u.now == t.now
    ensures var lock := Lock(LockStatus.Completed, t.now + LOCK_TTL);
      Stands(cfg, u.cell, release, goal, State(false, [goal], 0, [lock], map[0 := Idle, 1 := Prepared(goal, goal)]))
  {
    var begun := PayBegins(cfg, n, t, release, goal, Fresh(), 1);
    assert Step(t.now, Fresh(), Begin(1, goal, goal)).pcs == map[1 := Prepared(goal, goal)];
    u := PaidMeanwhile(cfg, n, begun, release, goal);
    LeadsFrom(cfg, n, t, begun, {}, u);
  }

  /** Worker 1 goes on with the row as it read it. */
  lemma PaidAgain(cfg: Config, n: nat, t: Timed, release: bool, goal: Effect, lock: Lock) returns (u: Timed)
    requires lock.status.Completed? && n >= 1
    requires Stands(cfg, t.cell, release, goal,
                    State(false, [goal], 0, [lock], map[0 := Idle, 1 := Prepared(goal, goal)]))
    ensures Leads(cfg, n, t, {StaleRow}, u) && u.cell.wallet == [goal, goal]
  {
    var s := State(false, [goal], 0, [lock], map[0 := Idle, 1 := Prepared(goal, goal)]);
    var tested := PayMoves(cfg, n, t, release, goal, s, Test(1, false));
    u := TakesAndPays(cfg, n, tested, release, goal, Step(t.now, s, Test(1, false)), 1, {StaleRow});
    LeadsFrom(cfg, n, t, tested, {StaleRow}, u);
  }

  /**
   Two payout workers: the second reads the deal before the first has paid it, and tests the lock afterwards.  So every
   deal that waits for its payout can be paid twice, with a stale row as the only fault.
   */
  lemma TwoWorkersPayTwice(cfg: Config, t: Timed, release: bool) returns (u: Timed)
    requires Payee(cfg, t.cell, release)
    ensures Leads(cfg, 1, t, {StaleRow}, u)
    ensures u.cell.wallet == [PayGoal(cfg, t.cell.deal, release), PayGoal(cfg, t.cell.deal, release)]
  {
    var goal := PayGoal(cfg, t.cell.deal, release);
    var paid := PaidInBetween(cfg, 1, t, release, goal);
    u := PaidAgain(cfg, 1, paid, release, goal, Lock(LockStatus.Completed, t.now + LOCK_TTL));
    LeadsFrom(cfg, 1, t, paid, {StaleRow}, u);
  }

  // ----- one worker -----

  /** The worker crashes after its transfer, and its lock expires. */
  lemma CrashedAndExpired(cfg: Config, n: nat, t: Timed, release: bool, goal: Effect, lock: Lock) returns (u: Timed)
    requires lock.status.Locked? && lock.expireAt == t.now + LOCK_TTL
    requires Stands(cfg, t.cell, release, goal, State(true, [goal], 0, [lock], map[0 := Done(0)]))
    ensures Leads(cfg, n, t, {}, u) && u.now == lock.expireAt
    ensures Stands(cfg, u.cell, release, goal, State(true, [goal], 0, [lock], map[0 := Idle]))
  {
    var s := State(true, [goal], 0, [lock], map[0 := Done(0)]);
    var crashed := PayMoves(cfg, n, t, release, goal, s, Crash(0));
    assert Step(t.now, s, Crash(0)).pcs == map[0 := Idle];
    u := LeadsNext(cfg, n, crashed, Wait(LOCK_TTL));
    LeadsFrom(cfg, n, t, crashed, {}, u);
  }

  /** It begins again, cannot read the last lock, and pays. */
  lemma PaidUnread(cfg: Config, n: nat, t: Timed, release: bool, goal: Effect, lock: Lock) returns (u: Timed)
    requires lock.status.Locked? && lock.expireAt == t.now
    requires Stands(cfg, t.cell, release, goal, State(true, [goal], 0, [lock], map[0 := Idle]))
    ensures Leads(cfg, n, t, {UnreadLock}, u) && u.cell.wallet == [goal, goal]
  {
    var s := State(true, [goal], 0, [lock], map[0 := Idle]);
    var s' := State(true, [goal], 0, [lock], map[0 := Ready(goal, Unread)]);
    assert Step(t.now, Step(t.now, s, Begin(0, goal, goal)), TestFails(0)).pcs == s'.pcs;
    var unread := BeginsThen(cfg, n, t, release, goal, s, 0, TestFails(0));
    u := TakesAndPays(cfg, n, unread, release, goal, s', 0, {UnreadLock});
    LeadsFrom(cfg, n, t, unread, {UnreadLock}, u);
  }

  /**
   One payout worker: it crashes after the transfer, and when its lock has expired it cannot read it.  So every deal
   that waits for its payout can be paid twice as deployed, with an unread lock as the only fault.
   */
  lemma OneWorkerPaysTwice(cfg: Config, t: Timed, release: bool) returns (u: Timed)
    requires Payee(cfg, t.cell, release)
    ensures Leads(cfg, 0, t, {UnreadLock}, u)
    ensures u.cell.wallet == [PayGoal(cfg, t.cell.deal, release), PayGoal(cfg, t.cell.deal, release)]
  {
    var goal := PayGoal(cfg, t.cell.deal, release);
    var lock := Lock(Locked, t.now + LOCK_TTL);
    var paid := PaysFirst(cfg, 0, t, release, goal, 0);
    var restarted := CrashedAndExpired(cfg, 0, paid, release, goal, lock);
    LeadsFrom(cfg, 0, t, paid, {}, restarted);
    u := PaidUnread(cfg, 0, restarted, release, goal, lock);
    LeadsFrom(cfg, 0, t, restarted, {UnreadLock}, u);
  }
}
