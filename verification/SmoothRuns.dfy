/**
 Where runs of a deal can lead: anywhere that any run reaches, and in particular to what is reached smoothly, by the
 single payout worker and sender of the deployment, without a fault and without a further escrow wallet.
 */
module SmoothRuns {
  import opened DoOnce
  import opened Attempts
  import opened Deals
  import opened DealLife
  import opened DealInvariant
  import opened DealPayouts
  import opened DealSolo
  import opened DealTheorems
  import opened Scripts
  import Market

  ghost predicate Reachable(cfg: Config, t: Timed, u: Timed) {
    exists run :: Run(cfg, t, run) == u
  }

  predicate Calm(m: Moment) {
    m.At? ==> OneWorker(0, m.e) && !Market.NewSeed(m.e)
  }

  predicate SmoothRun(cfg: Config, t: Timed, run: seq<Moment>) {
    RunFaults(cfg, t, run) == {} && forall i :: 0 <= i < |run| ==> Calm(run[i])
  }

  ghost predicate Smooth(cfg: Config, t: Timed, u: Timed) {
    exists run :: SmoothRun(cfg, t, run) && Run(cfg, t, run) == u
  }

  /** The whole life of a deal, with one escrow wallet. */
  ghost predicate SmoothLife(cfg: Config, t: Timed, seed: int, u: Timed) {
    exists v :: Smooth(cfg, t, v) && Smooth(cfg, Next(cfg, v, At(OnEscrow(CreatorRead(seed)))), u)
  }

  // ----- putting runs together -----

  lemma {:induction false} FaultsConcat(cfg: Config, t: Timed, a: seq<Moment>, b: seq<Moment>)
    ensures RunFaults(cfg, t, a + b) == RunFaults(cfg, t, a) + RunFaults(cfg, Run(cfg, t, a), b)
    decreases |a|
  {
    if a == [] {
      assert a + b == b;
    } else {
      assert (a + b)[0] == a[0] && (a + b)[1..] == a[1..] + b;
      FaultsConcat(cfg, Next(cfg, t, a[0]), a[1..], b);
    }
  }

  lemma SmoothConcat(cfg: Config, t: Timed, a: seq<Moment>, b: seq<Moment>)
    requires SmoothRun(cfg, t, a) && SmoothRun(cfg, Run(cfg, t, a), b)
    ensures SmoothRun(cfg, t, a + b) && Run(cfg, t, a + b) == Run(cfg, Run(cfg, t, a), b)
  {
    RunConcat(cfg, t, a, b);
    FaultsConcat(cfg, t, a, b);
  }

  lemma SmoothSelf(cfg: Config, t: Timed)
    ensures Smooth(cfg, t, t)
  {
    assert SmoothRun(cfg, t, []) && Run(cfg, t, []) == t;
  }

  lemma SmoothTrans(cfg: Config, t: Timed, u: Timed, v: Timed)
    requires Smooth(cfg, t, u) && Smooth(cfg, u, v)
    ensures Smooth(cfg, t, v)
  {
    var a :| SmoothRun(cfg, t, a) && Run(cfg, t, a) == u;
    var b :| SmoothRun(cfg, u, b) && Run(cfg, u, b) == v;
    SmoothConcat(cfg, t, a, b);
  }

  lemma OneMoment(cfg: Config, t: Timed, m: Moment)
    ensures Run(cfg, t, [m]) == Next(cfg, t, m) && RunFaults(cfg, t, [m]) == MomentFaults(cfg, t, m)
  {
    var rest := [m][1..];
    assert rest == [];
    assert Run(cfg, t, [m]) == Run(cfg, Next(cfg, t, m), rest);
    assert RunFaults(cfg, t, [m]) == MomentFaults(cfg, t, m) + RunFaults(cfg, Next(cfg, t, m), rest);
  }

  lemma SmoothNext(cfg: Config, t: Timed, u: Timed, m: Moment)
    requires Smooth(cfg, t, u) && Calm(m) && MomentFaults(cfg, u, m) == {}
    ensures Smooth(cfg, t, Next(cfg, u, m))
  {
    OneMoment(cfg, u, m);
    assert SmoothRun(cfg, u, [m]);
    SmoothTrans(cfg, t, u, Next(cfg, u, m));
  }

  /** A step of neither protocol. */
  lemma SmoothStep(cfg: Config, t: Timed, u: Timed, e: CellEvent) returns (v: Timed)
    requires Smooth(cfg, t, u) && (e.OnDraft? || e.OnEscrow? || e.OnCheck?) && !Market.NewSeed(e)
    ensures Smooth(cfg, t, v) && v == Timed(u.now, CellStep(cfg, u.now, u.cell, e))
  {
    SmoothNext(cfg, t, u, At(e));
    v := Next(cfg, u, At(e));
  }

  lemma SmoothWait(cfg: Config, t: Timed, u: Timed, dt: nat) returns (v: Timed)
    requires Smooth(cfg, t, u)
    ensures Smooth(cfg, t, v) && v == Timed(u.now + dt, u.cell)
  {
    SmoothNext(cfg, t, u, Moment.Wait(dt));
    v := Next(cfg, u, Moment.Wait(dt));
  }

  lemma LifeGoesOn(cfg: Config, t: Timed, seed: int, u: Timed, v: Timed)
    requires SmoothLife(cfg, t, seed, u) && Smooth(cfg, u, v)
    ensures SmoothLife(cfg, t, seed, v)
  {
    var w :| Smooth(cfg, t, w) && Smooth(cfg, Next(cfg, w, At(OnEscrow(CreatorRead(seed)))), u);
    SmoothTrans(cfg, Next(cfg, w, At(OnEscrow(CreatorRead(seed)))), u, v);
  }

  /** A smooth life is a fault-free run of one worker, to which the theorems on such runs apply. */
  lemma LifeIsRun(cfg: Config, t: Timed, seed: int, u: Timed) returns (run: seq<Moment>)
    requires SmoothLife(cfg, t, seed, u)
    ensures Run(cfg, t, run) == u && RunFaults(cfg, t, run) == {} && SoloRun(0, run)
    ensures Reachable(cfg, t, u)
  {
    var made := At(OnEscrow(CreatorRead(seed)));
    var v :| Smooth(cfg, t, v) && Smooth(cfg, Next(cfg, v, made), u);
    var a :| SmoothRun(cfg, t, a) && Run(cfg, t, a) == v;
    var b :| SmoothRun(cfg, Next(cfg, v, made), b) && Run(cfg, Next(cfg, v, made), b) == u;
    ThreeParts(cfg, t, a, made, b);
    run := a + [made] + b;
    forall i | 0 <= i < |run| && run[i].At?
      ensures OneWorker(0, run[i].e)
    {
      assert i < |a| ==> Calm(a[i]);
      assert i > |a| ==> Calm(b[i - |a| - 1]);
    }
  }

  lemma ThreeParts(cfg: Config, t: Timed, a: seq<Moment>, m: Moment, b: seq<Moment>)
    ensures var u := Run(cfg, t, a);
      && Run(cfg, t, a + [m] + b) == Run(cfg, Next(cfg, u, m), b)
      && RunFaults(cfg, t, a + [m] + b) ==
         RunFaults(cfg, t, a) + MomentFaults(cfg, u, m) + RunFaults(cfg, Next(cfg, u, m), b)
  {
    OneMoment(cfg, Run(cfg, t, a), m);
    RunConcat(cfg, t, a, [m]);
    FaultsConcat(cfg, t, a, [m]);
    RunConcat(cfg, t, a + [m], b);
    FaultsConcat(cfg, t, a + [m], b);
  }

  lemma SmoothIsReachable(cfg: Config, t: Timed, u: Timed)
    requires Smooth(cfg, t, u)
    ensures Reachable(cfg, t, u)
  {
    var run :| SmoothRun(cfg, t, run) && Run(cfg, t, run) == u;
  }

  // ----- executions without errors are smooth -----

  function StepsFaults(cfg: Config, now: int, c: Cell, es: seq<CellEvent>): set<Fault>
    decreases |es|
  {
    if es == [] then {}
    else CellFaults(cfg, now, c, es[0]) + StepsFaults(cfg, now, CellStep(cfg, now, c, es[0]), es[1..])
  }

  lemma {:induction false} StepsFaultsAreRun(cfg: Config, now: int, c: Cell, es: seq<CellEvent>)
    ensures RunFaults(cfg, Timed(now, c), seq(|es|, i requires 0 <= i < |es| => At(es[i]))) ==
            StepsFaults(cfg, now, c, es)
    decreases |es|
  {
    if es != [] {
      var run := seq(|es|, i requires 0 <= i < |es| => At(es[i]));
      assert run[1..] == seq(|es[1..]|, i requires 0 <= i < |es[1..]| => At(es[1..][i]));
      StepsFaultsAreRun(cfg, now, CellStep(cfg, now, c, es[0]), es[1..]);
    }
  }

  predicate AllCalm(es: seq<CellEvent>) {
    forall i :: 0 <= i < |es| ==> Calm(At(es[i]))
  }

  lemma SmoothScript(cfg: Config, now: int, c: Cell, es: seq<CellEvent>)
    requires StepsFaults(cfg, now, c, es) == {} && AllCalm(es)
    ensures Smooth(cfg, Timed(now, c), Timed(now, Steps(cfg, now, c, es)))
  {
    var run := seq(|es|, i requires 0 <= i < |es| => At(es[i]));
    StepsAreRun(cfg, now, c, es);
    StepsFaultsAreRun(cfg, now, c, es);
    assert SmoothRun(cfg, Timed(now, c), run);
  }

  function PlayedFaults(now: int, goal: Effect, s: State, es: seq<Event>): set<Fault>
    decreases |es|
  {
    if es == [] then {} else Faults(now, goal, s, es[0]) + PlayedFaults(now, goal, Step(now, s, es[0]), es[1..])
  }

  lemma {:induction false} PayFoldFaults(cfg: Config, now: int, c: Cell, c': Cell, release: bool, s: State,
                                         es: seq<Event>)
    requires c' == PutPay(c, release, s) && PayView(c', release) == s && OwnSteps(es)
    ensures StepsFaults(cfg, now, c', PaySteps(release, es)) == PlayedFaults(now, PayGoal(cfg, c.deal, release), s, es)
    decreases |es|
  {
    if es != [] {
      PutPayStep(now, c, c', release, s, es[0]);
      assert PayGoal(cfg, c'.deal, release) == PayGoal(cfg, c.deal, release);
      assert PaySteps(release, es)[1..] == PaySteps(release, es[1..]);
      assert OwnSteps(es[1..]);
      var c'' := CellStep(cfg, now, c', PayStep(release, es[0]));
      PayFoldFaults(cfg, now, c, c'', release, Step(now, s, es[0]), es[1..]);
    }
  }

  lemma PostFaults(cfg: Config, now: int, c: Cell, c': Cell, s: State, e: Event, save: Save)
    requires c' == PutPost(now, c, s, save) && PostView(c') == s && !e.Begin? && !e.TestFails?
    ensures CellFaults(cfg, now, c', if e.Record? then PostRecord(e.w, save) else PostStep(e)) ==
            Faults(now, PostGoal(c), s, e)
  {
    assert PostGoal(c') == PostGoal(c);
  }

  lemma {:induction false} PostFoldFaults(cfg: Config, now: int, c: Cell, c': Cell, s: State, es: seq<Event>,
                                          save: Save)
    requires c' == PutPost(now, c, s, save) && PostView(c') == s && PostView(c).open
    requires forall i :: 0 <= i < |es| ==> !es[i].Begin? && !es[i].TestFails?
    ensures StepsFaults(cfg, now, c', PostSteps(es, save)) == PlayedFaults(now, PostGoal(c), s, es)
    decreases |es|
  {
    if es != [] {
      PutPostStep(now, c, c', s, es[0], save);
      PostFaults(cfg, now, c, c', s, es[0], save);
      assert PostSteps(es, save)[1..] == PostSteps(es[1..], save);
      assert forall i :: 0 <= i < |es[1..]| ==> es[1..][i] == es[i + 1];
      PostFoldFaults(cfg, now, c, CellStep(cfg, now, c', PostSteps(es, save)[0]), Step(now, s, es[0]), es[1..], save);
    }
  }

  lemma PlayedFaults2(now: int, goal: Effect, s: State, a: Event, b: Event, rest: seq<Event>)
    ensures var s1 := Step(now, s, a);
      PlayedFaults(now, goal, s, [a, b] + rest) ==
      Faults(now, goal, s, a) + Faults(now, goal, s1, b) + PlayedFaults(now, goal, Step(now, s1, b), rest)
  {
    var es := [a, b] + rest;
    assert es[1..] == [b] + rest && es[1..][1..] == rest;
    assert PlayedFaults(now, goal, Step(now, s, a), es[1..]) ==
           Faults(now, goal, Step(now, s, a), b) + PlayedFaults(now, goal, Step(now, Step(now, s, a), b), rest);
  }

  /** A worker that has just tested the last lock has no fault when it takes one. */
  lemma TestedFaultless(now: int, goal: Effect, s: State, w: Worker)
    requires s.open && PcOf(s, w) == Prepared(goal, goal)
    ensures var a, b := Test(w, goal in s.log), Clear(w);
      var s1 := Step(now, s, a);
      var s2 := Step(now, s1, b);
      && Faults(now, goal, s, a) == {} == Faults(now, goal, s1, b) && Faults(now, goal, s2, Take(w)) == {}
      && !PcOf(s2, w).Holding?
  {
  }

  /** Nor when it acts under the fresh lock, and the rest goes without errors. */
  lemma TakenFaultless(now: int, goal: Effect, s: State, w: Worker)
    requires !PcOf(s, w).Holding?
    ensures var s1 := Step(now, s, Take(w));
      && Faults(now, goal, s1, Act(w)) == {}
      && PlayedFaults(now, goal, Step(now, s1, Act(w)), [Record(w), Release(w)]) == {}
  {
    var s2 := Step(now, Step(now, s, Take(w)), Act(w));
    PlayedFaults2(now, goal, s2, Record(w), Release(w), []);
    assert [Record(w), Release(w)] + [] == [Record(w), Release(w)];
  }

  lemma PassFaultless(style: Style, now: int, goal: Effect, s: State, w: Worker)
    requires s.open && PcOf(s, w).Idle?
    ensures PlayedFaults(now, goal, Step(now, s, Begin(w, goal, goal)), PassOn(style, now, goal, s, w, GOOD)) == {}
  {
    var s0 := Step(now, s, Begin(w, goal, goal));
    var a := Test(w, goal in s.log);
    var s2 := Step(now, Step(now, s0, a), Clear(w));
    TestedFaultless(now, goal, s0, w);
    TakenFaultless(now, goal, s2, w);
    PlayedFaults2(now, goal, s0, a, Clear(w), [Take(w), Act(w), Record(w), Release(w)]);
    PlayedFaults2(now, goal, s2, Take(w), Act(w), [Record(w), Release(w)]);
    assert [Take(w), Act(w)] + [Record(w), Release(w)] == [Take(w), Act(w), Record(w), Release(w)];
    assert [a, Clear(w)] + [Take(w), Act(w), Record(w), Release(w)] == PassOn(style, now, goal, s, w, GOOD);
  }

  lemma StepsFaultsSplit(cfg: Config, now: int, c: Cell, e: CellEvent, es: seq<CellEvent>)
    ensures StepsFaults(cfg, now, c, [e] + es) ==
            CellFaults(cfg, now, c, e) + StepsFaults(cfg, now, CellStep(cfg, now, c, e), es)
  {
    assert ([e] + es)[1..] == es;
  }

  lemma PayScriptFaultless(cfg: Config, now: int, c: Cell, release: bool)
    requires Seeded(c) && PcOf(PayView(c, release), 0).Idle? && PreparePayout(cfg, c.deal, c.vault, release).Ok?
    ensures StepsFaults(cfg, now, c, PayScript(cfg, now, c, release, 0, GOOD)) == {}
  {
    PreparesGoal(cfg, c, release);
    var goal := PayGoal(cfg, c.deal, release);
    var s := PayView(c, release);
    var es := PassOn(Paying, now, goal, s, 0, GOOD);
    assert c == PutPay(c, release, s);
    PutPayStep(now, c, c, release, s, Begin(0, goal, goal));
    var c' := CellStep(cfg, now, c, PayBegin(release, 0));
    PayFoldFaults(cfg, now, c, c', release, Step(now, s, Begin(0, goal, goal)), es);
    PassFaultless(Paying, now, goal, s, 0);
    StepsFaultsSplit(cfg, now, c, PayBegin(release, 0), PaySteps(release, es));
  }

  /** One execution of the payout without errors is a smooth run. */
  lemma SmoothPay(cfg: Config, now: int, c: Cell, release: bool)
    requires Seeded(c) && PcOf(PayView(c, release), 0).Idle? && PreparePayout(cfg, c.deal, c.vault, release).Ok?
    ensures Smooth(cfg, Timed(now, c), Timed(now, Steps(cfg, now, c, PayScript(cfg, now, c, release, 0, GOOD))))
  {
    PayScriptFaultless(cfg, now, c, release);
    assert AllCalm(PayScript(cfg, now, c, release, 0, GOOD));
    SmoothScript(cfg, now, c, PayScript(cfg, now, c, release, 0, GOOD));
  }

  lemma PostScriptFaultless(cfg: Config, now: int, c: Cell, save: Save)
    requires PcOf(PostView(c), 0).Idle? && ToPost(now, c)
    ensures StepsFaults(cfg, now, c, PostScript(now, c, 0, GOOD, save)) == {}
  {
    var goal := PostGoal(c);
    var s := PostView(c);
    var es := PassOn(Posting, now, goal, s, 0, GOOD);
    assert c == PutPost(now, c, s, save);
    PutPostStep(now, c, c, s, Begin(0, goal, goal), save);
    var c' := CellStep(cfg, now, c, PostBegin(0));
    PostFoldFaults(cfg, now, c, c', Step(now, s, Begin(0, goal, goal)), es, save);
    PassFaultless(Posting, now, goal, s, 0);
    StepsFaultsSplit(cfg, now, c, PostBegin(0), PostSteps(es, save));
  }

  /** And so is one execution of the sender. */
  lemma SmoothPost(cfg: Config, now: int, c: Cell, save: Save)
    requires PcOf(PostView(c), 0).Idle? && ToPost(now, c)
    ensures Smooth(cfg, Timed(now, c), Timed(now, Steps(cfg, now, c, PostScript(now, c, 0, GOOD, save))))
  {
    PostScriptFaultless(cfg, now, c, save);
    assert AllCalm(PostScript(now, c, 0, GOOD, save));
    SmoothScript(cfg, now, c, PostScript(now, c, 0, GOOD, save));
  }
}
