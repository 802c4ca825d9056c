/** Deals as they are deployed: one payout worker and one sender, which may crash and restart at any time. */
module DealSolo {
  import opened DoOnce
  import DoOnceRuns
  import opened Decimal
  import opened Deals
  import opened DealLife
  import opened DealInvariant
  import opened DealPayouts

  /** The event is a step of worker `w` of its protocol, or of no worker. */
  predicate OneWorker(w: Worker, e: CellEvent) {
    match e
    case PostBegin(v) => v == w
    case PostStep(ev) => DoOnceRuns.By(w, ev)
    case PostRecord(v, _) => v == w
    case PayBegin(_, v) => v == w
    case PayStep(_, ev) => DoOnceRuns.By(w, ev)
    case _ => true
  }

  predicate SoloRun(w: Worker, run: seq<Moment>) {
    forall i :: 0 <= i < |run| && run[i].At? ==> OneWorker(w, run[i].e)
  }

  predicate SoloCell(c: Cell, w: Worker) {
    && DoOnceRuns.SoloInv(PostView(c), w)
    && DoOnceRuns.SoloInv(PayView(c, true), w) && DoOnceRuns.SoloInv(PayView(c, false), w)
  }

  /** A row that waits goes on waiting, and the locks and workers stay as they are. */
  predicate StaysOpen(s: State, s': State) {
    s'.pcs == s.pcs && s'.locks == s.locks && (s.open ==> s'.open)
  }

  lemma StaysSolo(s: State, s': State, w: Worker)
    requires DoOnceRuns.SoloInv(s, w) && StaysOpen(s, s')
    ensures DoOnceRuns.SoloInv(s', w)
  {
  }

  predicate AllStayOpen(c: Cell, c': Cell) {
    && StaysOpen(PostView(c), PostView(c'))
    && StaysOpen(PayView(c, true), PayView(c', true)) && StaysOpen(PayView(c, false), PayView(c', false))
  }

  lemma DraftStaysOpen(cfg: Config, c: Cell, e: DraftEvent)
    ensures AllStayOpen(c, DraftStep(cfg, c, e))
  {
  }

  lemma EscrowStaysOpen(c: Cell, e: EscrowEvent)
    ensures AllStayOpen(c, EscrowStep(c, e))
  {
  }

  lemma CheckStaysOpen(now: int, c: Cell, e: CheckEvent)
    requires Coupled(c) && InFlight(now, c)
    ensures AllStayOpen(c, CheckStep(now, c, e))
  {
  }

  lemma RowsStayOpen(cfg: Config, now: int, c: Cell, e: CellEvent)
    requires Coupled(c) && InFlight(now, c) && (e.OnDraft? || e.OnEscrow? || e.OnCheck?)
    ensures AllStayOpen(c, CellStep(cfg, now, c, e))
  {
    if e.OnDraft? {
      DraftStaysOpen(cfg, c, e.d);
    } else if e.OnEscrow? {
      EscrowStaysOpen(c, e.x);
    } else {
      CheckStaysOpen(now, c, e.k);
    }
  }

  lemma PostLeavesPay(now: int, c: Cell, e: Event, save: Save, release: bool)
    ensures StaysOpen(PayView(c, release), PayView(DoPost(now, c, e, save), release))
  {
  }

  lemma PayLeavesOthers(now: int, c: Cell, release: bool, e: Event)
    ensures StaysOpen(PostView(c), PostView(DoPay(now, c, release, e)))
    ensures StaysOpen(PayView(c, !release), PayView(DoPay(now, c, release, e), !release))
  {
  }

  lemma ProtocolBy(cfg: Config, now: int, c: Cell, w: Worker, e: CellEvent)
    requires OneWorker(w, e)
    ensures var p := ProtocolOf(cfg, now, c, e); p.Neither? || DoOnceRuns.By(w, p.e)
  {
  }

  lemma SoloStep(cfg: Config, now: int, c: Cell, w: Worker, e: CellEvent)
    requires Coupled(c) && InFlight(now, c) && SoloCell(c, w) && OneWorker(w, e)
    ensures SoloCell(CellStep(cfg, now, c, e), w)
  {
    var c' := CellStep(cfg, now, c, e);
    if e.OnDraft? || e.OnEscrow? || e.OnCheck? {
      RowsStayOpen(cfg, now, c, e);
      StaysSolo(PostView(c), PostView(c'), w);
      StaysSolo(PayView(c, true), PayView(c', true), w);
      StaysSolo(PayView(c, false), PayView(c', false), w);
    } else {
      ProtocolBy(cfg, now, c, w, e);
      ProtocolStep(cfg, now, c, e);
      SoloProtocolStep(cfg, now, c, w, ProtocolOf(cfg, now, c, e));
    }
  }

  lemma SoloProtocolStep(cfg: Config, now: int, c: Cell, w: Worker, p: Protocol)
    requires Coupled(c) && SoloCell(c, w) && (p.Neither? || DoOnceRuns.By(w, p.e)) && (p.OfPay? ==> !p.e.Vanish?)
    ensures p.OfPost? ==> SoloCell(DoPost(now, c, p.e, p.save), w)
    ensures p.OfPay? ==> SoloCell(DoPay(now, c, p.release, p.e), w)
  {
    match p
    case Neither =>
    case OfPost(e, save) =>
      var c' := DoPost(now, c, e, save);
      PostRefines(now, c, e, save);
      DoOnceRuns.SoloStep(now, PostView(c), w, e);
      PostLeavesPay(now, c, e, save, true);
      PostLeavesPay(now, c, e, save, false);
      StaysSolo(PayView(c, true), PayView(c', true), w);
      StaysSolo(PayView(c, false), PayView(c', false), w);
    case OfPay(release, e) =>
      var c' := DoPay(now, c, release, e);
      PayRefines(now, c, release, e);
      DoOnceRuns.SoloStep(now, PayView(c, release), w, e);
      PayLeavesOthers(now, c, release, e);
      StaysSolo(PostView(c), PostView(c'), w);
      StaysSolo(PayView(c, !release), PayView(c', !release), w);
  }

  /** What one worker can do without. */
  lemma SoloIsSound(cfg: Config, now: int, c: Cell, w: Worker, e: CellEvent)
    requires Seeded(c) && PostInv(now, c) && PayInv(cfg, now, c) && SoloCell(c, w) && OneWorker(w, e)
    requires CellFaults(cfg, now, c, e) <= DoOnceRuns.HARMLESS_ALONE
    ensures Sound(cfg, now, c, ProtocolOf(cfg, now, c, e))
  {
    ProtocolBy(cfg, now, c, w, e);
    match ProtocolOf(cfg, now, c, e)
    case Neither =>
    case OfPost(ev, _) =>
      if !Early(c.deal.status) {
        DoOnceRuns.SoloStepInv(now, PostGoal(c), PostView(c), w, ev);
      }
    case OfPay(release, ev) =>
      PreparesGoal(cfg, c, release);
      if OnBranch(c, release) {
        DoOnceRuns.SoloStepInv(now, PayGoal(cfg, c.deal, release), PayView(c, release), w, ev);
      }
  }

  lemma SoloSafeMoment(cfg: Config, t: Timed, w: Worker, m: Moment)
    requires SafeInv(cfg, t.now, t.cell) && SoloCell(t.cell, w) && (m.At? ==> OneWorker(w, m.e))
    requires MomentFaults(cfg, t, m) <= DoOnceRuns.HARMLESS_ALONE
    ensures SafeInv(cfg, Next(cfg, t, m).now, Next(cfg, t, m).cell) && SoloCell(Next(cfg, t, m).cell, w)
  {
    match m
    case At(e) =>
      SoloIsSound(cfg, t.now, t.cell, w, e);
      SoundStep(cfg, t.now, t.cell, e);
      SoloStep(cfg, t.now, t.cell, w, e);
    case Wait(dt) => TickSafe(cfg, t.now, t.now + dt, t.cell);
  }

  lemma {:induction false} SoloSafeRun(cfg: Config, t: Timed, w: Worker, run: seq<Moment>)
    requires SafeInv(cfg, t.now, t.cell) && SoloCell(t.cell, w) && SoloRun(w, run)
    requires RunFaults(cfg, t, run) <= DoOnceRuns.HARMLESS_ALONE
    ensures var u := Run(cfg, t, run); SafeInv(cfg, u.now, u.cell) && SoloCell(u.cell, w)
    decreases |run|
  {
    if run != [] {
      assert MomentFaults(cfg, t, run[0]) <= RunFaults(cfg, t, run);
      assert RunFaults(cfg, Next(cfg, t, run[0]), run[1..]) <= RunFaults(cfg, t, run);
      forall i | 0 <= i < |run[1..]| && run[1..][i].At?
        ensures OneWorker(w, run[1..][i].e)
      {
        assert run[1..][i] == run[i + 1];
      }
      SoloSafeMoment(cfg, t, w, run[0]);
      SoloSafeRun(cfg, Next(cfg, t, run[0]), w, run[1..]);
    }
  }

  /**
   With one payout worker and one sender, the deal is paid once and right and posted once in every run from its
   creation, even if the rows are read long before the locks are taken and effects happen after their locks expired.
   */
  lemma SoloPaidAndPosted(cfg: Config, t0: int, c0: Cell, w: Worker, run: seq<Moment>)
    requires SafeInv(cfg, t0, c0) && SoloCell(c0, w) && SoloRun(w, run)
    requires RunFaults(cfg, Timed(t0, c0), run) <= DoOnceRuns.HARMLESS_ALONE
    ensures var c := Run(cfg, Timed(t0, c0), run).cell; PaidRight(cfg, c) && PostedRight(c)
  {
    SoloSafeRun(cfg, Timed(t0, c0), w, run);
    var u := Run(cfg, Timed(t0, c0), run);
    InvPaidRight(cfg, u.now, u.cell);
    InvPostedRight(u.now, u.cell);
  }

  lemma NewCellSolo(cfg: Config, lessor: int, lessee: int, terms: Terms, listingChannel: Option<int>, w: Worker)
    ensures SoloCell(NewCell(cfg, lessor, lessee, terms, listingChannel), w)
  {
  }
}
