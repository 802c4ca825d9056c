/**
 Scripts: the steps that one undisturbed execution of a service takes on a deal.  The services are proved to do
 exactly their scripts; other workers' steps, crashes and waits between the steps are covered by the theorems
 about all runs.
 */
module Scripts {
  import opened DoOnce
  import opened Attempts
  import opened Decimal
  import opened Deals
  import opened DealLife
  import opened DealInvariant
  import opened DealPayouts

  function Steps(cfg: Config, now: int, c: Cell, es: seq<CellEvent>): Cell
    decreases |es|
  {
    if es == [] then c else Steps(cfg, now, CellStep(cfg, now, c, es[0]), es[1..])
  }

  /** What is left of a deal when no process is in the middle of anything: its rows, and what is outside. */
  function AtRest(c: Cell): Cell {
    c.(signRequests := {}, creator := Resting, checker := Off, passer := Unlisted,
       post := Book(c.post.locks, map[]),
       release := Book(c.release.locks, map[]), refund := Book(c.refund.locks, map[]))
  }

  /** Scripts are runs in which no time passes. */
  lemma {:induction false} StepsAreRun(cfg: Config, now: int, c: Cell, es: seq<CellEvent>)
    ensures Run(cfg, Timed(now, c), seq(|es|, i requires 0 <= i < |es| => At(es[i]))) ==
            Timed(now, Steps(cfg, now, c, es))
    decreases |es|
  {
    if es != [] {
      var run := seq(|es|, i requires 0 <= i < |es| => At(es[i]));
      assert run[1..] == seq(|es[1..]|, i requires 0 <= i < |es[1..]| => At(es[1..][i]));
      StepsAreRun(cfg, now, CellStep(cfg, now, c, es[0]), es[1..]);
    }
  }

  lemma {:induction false} StepsConcat(cfg: Config, now: int, c: Cell, a: seq<CellEvent>, b: seq<CellEvent>)
    ensures Steps(cfg, now, c, a + b) == Steps(cfg, now, Steps(cfg, now, c, a), b)
    decreases |a|
  {
    if a == [] {
      assert a + b == b;
    } else {
      assert (a + b)[0] == a[0] && (a + b)[1..] == a[1..] + b;
      StepsConcat(cfg, now, CellStep(cfg, now, c, a[0]), a[1..], b);
    }
  }

  lemma {:induction false} StepsKeepInv(cfg: Config, now: int, c: Cell, es: seq<CellEvent>)
    requires CellInv(cfg, now, c)
    ensures CellInv(cfg, now, Steps(cfg, now, c, es))
    decreases |es|
  {
    if es != [] {
      CellStepInv(cfg, now, c, es[0]);
      StepsKeepInv(cfg, now, CellStep(cfg, now, c, es[0]), es[1..]);
    }
  }

  // ----- the payout -----

  function Played(now: int, s: State, es: seq<Event>): State
    decreases |es|
  {
    if es == [] then s else Played(now, Step(now, s, es[0]), es[1..])
  }

  function PaySteps(release: bool, es: seq<Event>): seq<CellEvent> {
    seq(|es|, i requires 0 <= i < |es| => PayStep(release, es[i]))
  }

  predicate OwnSteps(es: seq<Event>) {
    forall i :: 0 <= i < |es| ==> !es[i].Begin? && !es[i].Vanish?
  }

  lemma PutPayStep(now: int, c: Cell, c': Cell, release: bool, s: State, e: Event)
    requires c' == PutPay(c, release, s) && PayView(c', release) == s && !e.Vanish?
    ensures DoPay(now, c', release, e) == PutPay(c, release, Step(now, s, e))
    ensures PayView(DoPay(now, c', release, e), release) == Step(now, s, e)
  {
    PayRefines(now, c', release, e);
  }

  lemma {:induction false} PayFold(cfg: Config, now: int, c: Cell, c': Cell, release: bool, s: State, es: seq<Event>)
    requires c' == PutPay(c, release, s) && PayView(c', release) == s && OwnSteps(es)
    ensures Steps(cfg, now, c', PaySteps(release, es)) == PutPay(c, release, Played(now, s, es))
    decreases |es|
  {
    if es != [] {
      PutPayStep(now, c, c', release, s, es[0]);
      assert PaySteps(release, es)[1..] == PaySteps(release, es[1..]);
      assert OwnSteps(es[1..]);
      PayFold(cfg, now, c, CellStep(cfg, now, c', PayStep(release, es[0])), release, Step(now, s, es[0]), es[1..]);
    }
  }

  lemma Played3(now: int, s: State, a: Event, b: Event, c: Event, rest: seq<Event>)
    ensures Played(now, s, [a, b, c] + rest) == Played(now, Step(now, Step(now, Step(now, s, a), b), c), rest)
  {
    var es := [a, b, c] + rest;
    assert es[1..] == [b, c] + rest && es[1..][1..] == [c] + rest && es[1..][1..][1..] == rest;
    assert Played(now, s, es) == Played(now, Step(now, s, a), es[1..]);
    assert Played(now, Step(now, s, a), es[1..]) == Played(now, Step(now, Step(now, s, a), b), es[1..][1..]);
  }

  lemma PassPlayed(style: Style, now: int, s: State, w: Worker, found: bool, recovers: bool, luck: Luck)
    ensures Played(now, s, Pass(style, w, found, recovers, luck)) ==
            Perform(style, now, Prepare(style, now, s, w, found, recovers, luck), w, recovers, luck)
  {
    var a, b, d := Tested(style, w, found, luck), Cleared(w, luck), Performed(w, luck);
    var e, f := Noted(style, w, recovers, luck), Ended(w, luck);
    var t := Locking(w, recovers, luck);
    var s3 := Step(now, Step(now, Step(now, s, a), b), t);
    Played3(now, s, a, b, t, [d, e, f]);
    Played3(now, s3, d, e, f, []);
    assert [a, b, t] + [d, e, f] == Pass(style, w, found, recovers, luck) && [d, e, f] + [] == [d, e, f];
  }

  /** The steps after the row has been read, as they follow from its locks and effects. */
  function PassOn(style: Style, now: int, key: Effect, s: State, w: Worker, luck: Luck): seq<Event> {
    Pass(style, w, key in s.log, luck.read && Recovers(now, key, s), luck)
  }

  lemma PassIsAttempt(style: Style, now: int, order: Effect, key: Effect, s: State, w: Worker, luck: Luck)
    ensures Played(now, Step(now, s, Begin(w, order, key)), PassOn(style, now, key, s, w, luck)) ==
            Attempt(style, now, order, key, s, w, luck)
  {
    var begun := Step(now, s, Begin(w, order, key));
    PassPlayed(style, now, begun, w, key in s.log, luck.read && Recovers(now, key, s), luck);
  }

  lemma IdlePass(style: Style, now: int, s: State, w: Worker, found: bool, recovers: bool, luck: Luck)
    requires PcOf(s, w).Idle?
    ensures Played(now, s, Pass(style, w, found, recovers, luck)) == s
  {
    PassPlayed(style, now, s, w, found, recovers, luck);
    IdleWorker(now, s, w, Tested(style, w, found, luck));
    IdleWorker(now, s, w, Cleared(w, luck));
    IdleWorker(now, s, w, Locking(w, recovers, luck));
    IdlePerforms(style, now, s, w, recovers, luck);
  }

  lemma IdleWorker(now: int, s: State, w: Worker, e: Event)
    requires PcOf(s, w).Idle? && !e.Begin? && !e.Vanish? && e.w == w
    ensures Step(now, s, e) == s
  {
  }

  /** One execution of the release or refund of a deal, by a worker that no one disturbs. */
  function PayScript(cfg: Config, now: int, c: Cell, release: bool, w: Worker, luck: Luck): seq<CellEvent> {
    var r := PreparePayout(cfg, c.deal, c.vault, release);
    [PayBegin(release, w)] +
    PaySteps(release, if r.Ok? then PassOn(Paying, now, r.value.key, PayView(c, release), w, luck)
                      else Pass(Paying, w, false, false, luck))
  }

  lemma PayScriptSteps(cfg: Config, now: int, c: Cell, release: bool, w: Worker, luck: Luck)
    requires PcOf(PayView(c, release), w).Idle? && PreparePayout(cfg, c.deal, c.vault, release).Ok?
    ensures var r := PreparePayout(cfg, c.deal, c.vault, release).value;
      Steps(cfg, now, c, PayScript(cfg, now, c, release, w, luck)) ==
      PutPay(c, release, Goto(Attempted(Paying, now, r.order, r.key, PayView(c, release), luck), w, Idle))
  {
    var r := PreparePayout(cfg, c.deal, c.vault, release).value;
    var s := PayView(c, release);
    var es := PassOn(Paying, now, r.key, s, w, luck);
    var c1 := CellStep(cfg, now, c, PayBegin(release, w));
    assert PayScript(cfg, now, c, release, w, luck)[1..] == PaySteps(release, es);
    assert c == PutPay(c, release, s);
    PutPayStep(now, c, c, release, s, Begin(w, r.order, r.key));
    PayFold(cfg, now, c, c1, release, Step(now, s, Begin(w, r.order, r.key)), es);
    PassIsAttempt(Paying, now, r.order, r.key, s, w, luck);
    AttemptEffect(Paying, now, r.order, r.key, s, w, luck);
  }

  /** A deal that cannot be paid out yet is left alone. */
  lemma PayScriptRefused(cfg: Config, now: int, c: Cell, release: bool, w: Worker, luck: Luck)
    requires PcOf(PayView(c, release), w).Idle? && PreparePayout(cfg, c.deal, c.vault, release).Err?
    ensures Steps(cfg, now, c, PayScript(cfg, now, c, release, w, luck)) == c
  {
    var es := Pass(Paying, w, false, false, luck);
    assert PayScript(cfg, now, c, release, w, luck)[1..] == PaySteps(release, es);
    assert c == PutPay(c, release, PayView(c, release));
    PayFold(cfg, now, c, c, release, PayView(c, release), es);
    IdlePass(Paying, now, PayView(c, release), w, false, false, luck);
  }

  /** The deal after one execution of its release or refund. */
  function PayOutcome(cfg: Config, now: int, c: Cell, release: bool, luck: Luck): Cell {
    var r := PreparePayout(cfg, c.deal, c.vault, release);
    if r.Err? then c
    else PutPay(c, release, Attempted(Paying, now, r.value.order, r.value.key, PayView(c, release), luck))
  }

  /** With no process in the middle of anything, this is what the steps of the script come to. */
  lemma PayScriptEffect(cfg: Config, now: int, c: Cell, release: bool, w: Worker, luck: Luck)
    requires c == AtRest(c)
    ensures AtRest(Steps(cfg, now, c, PayScript(cfg, now, c, release, w, luck))) ==
            PayOutcome(cfg, now, c, release, luck)
  {
    if PreparePayout(cfg, c.deal, c.vault, release).Ok? {
      PayScriptSteps(cfg, now, c, release, w, luck);
    } else {
      PayScriptRefused(cfg, now, c, release, w, luck);
    }
  }

  // ----- the post -----

  /** Put the state of the post protocol back into the deal; closing it inserts the message row. */
  function PutPost(now: int, c: Cell, s: State, save: Save): Cell {
    var c' := c.(ads := s.log, removedAds := s.vanished, post := Book(s.locks, s.pcs));
    if s.open then c' else CreateMessage(now, c', save)
  }

  function PostSteps(es: seq<Event>, save: Save): seq<CellEvent> {
    seq(|es|, i requires 0 <= i < |es| => if es[i].Record? then PostRecord(es[i].w, save) else PostStep(es[i]))
  }

  lemma PutPostStep(now: int, c: Cell, c': Cell, s: State, e: Event, save: Save)
    requires c' == PutPost(now, c, s, save) && PostView(c') == s && PostView(c).open
    ensures var c'' := DoPost(now, c', e, if e.Record? then save else NOTHING);
      c'' == PutPost(now, c, Step(now, s, e), save) && PostView(c'') == Step(now, s, e)
  {
  }

  lemma {:induction false} PostFold(cfg: Config, now: int, c: Cell, c': Cell, s: State, es: seq<Event>, save: Save)
    requires c' == PutPost(now, c, s, save) && PostView(c') == s && PostView(c).open
    requires forall i :: 0 <= i < |es| ==> !es[i].Begin? && !es[i].TestFails?
    ensures Steps(cfg, now, c', PostSteps(es, save)) == PutPost(now, c, Played(now, s, es), save)
    decreases |es|
  {
    if es != [] {
      PutPostStep(now, c, c', s, es[0], save);
      assert PostSteps(es, save)[1..] == PostSteps(es[1..], save);
      assert forall i :: 0 <= i < |es[1..]| ==> es[1..][i] == es[i + 1];
      PostFold(cfg, now, c, CellStep(cfg, now, c', PostSteps(es, save)[0]), Step(now, s, es[0]), es[1..], save);
    }
  }

  /** A worker that has not begun does nothing. */
  lemma {:induction false} IdlePostFold(cfg: Config, now: int, c: Cell, w: Worker, es: seq<Event>, save: Save)
    requires PcOf(PostView(c), w).Idle?
    requires forall i :: 0 <= i < |es| ==> !es[i].Begin? && !es[i].TestFails? && !es[i].Vanish? && es[i].w == w
    ensures Steps(cfg, now, c, PostSteps(es, save)) == c
    decreases |es|
  {
    if es != [] {
      assert DoPost(now, c, es[0], save) == c && DoPost(now, c, es[0], NOTHING) == c;
      assert PostSteps(es, save)[1..] == PostSteps(es[1..], save);
      assert forall i :: 0 <= i < |es[1..]| ==> es[1..][i] == es[i + 1];
      IdlePostFold(cfg, now, c, w, es[1..], save);
    }
  }

  /** One undisturbed execution of the post sender on a deal. */
  function PostScript(now: int, c: Cell, w: Worker, luck: Luck, save: Save): seq<CellEvent> {
    [PostBegin(w)] + PostSteps(PassOn(Posting, now, PostGoal(c), PostView(c), w, luck), save)
  }

  predicate ToPost(now: int, c: Cell) {
    MayPost(now, c) && PostView(c).open
  }

  lemma PostScriptSteps(cfg: Config, now: int, c: Cell, w: Worker, luck: Luck, save: Save)
    requires PcOf(PostView(c), w).Idle? && ToPost(now, c)
    ensures Steps(cfg, now, c, PostScript(now, c, w, luck, save)) ==
      PutPost(now, c, Goto(Attempted(Posting, now, PostGoal(c), PostGoal(c), PostView(c), luck), w, Idle), save)
  {
    var goal := PostGoal(c);
    var s := PostView(c);
    var es := PassOn(Posting, now, goal, s, w, luck);
    assert PostScript(now, c, w, luck, save)[1..] == PostSteps(es, save);
    assert c == PutPost(now, c, s, save);
    PutPostStep(now, c, c, s, Begin(w, goal, goal), save);
    PostFold(cfg, now, c, CellStep(cfg, now, c, PostBegin(w)), Step(now, s, Begin(w, goal, goal)), es, save);
    PassIsAttempt(Posting, now, goal, goal, s, w, luck);
    AttemptEffect(Posting, now, goal, goal, s, w, luck);
  }

  lemma PostScriptSkipped(cfg: Config, now: int, c: Cell, w: Worker, luck: Luck, save: Save)
    requires PcOf(PostView(c), w).Idle? && !ToPost(now, c)
    ensures Steps(cfg, now, c, PostScript(now, c, w, luck, save)) == c
  {
    var es := PassOn(Posting, now, PostGoal(c), PostView(c), w, luck);
    assert PostScript(now, c, w, luck, save)[1..] == PostSteps(es, save);
    assert CellStep(cfg, now, c, PostBegin(w)) == c;
    IdlePostFold(cfg, now, c, w, es, save);
  }

  /** The deal after one execution of the post sender. */
  function PostOutcome(now: int, c: Cell, luck: Luck, save: Save): Cell {
    if !ToPost(now, c) then c
    else PutPost(now, c, Attempted(Posting, now, PostGoal(c), PostGoal(c), PostView(c), luck), save)
  }

  lemma PostScriptEffect(cfg: Config, now: int, c: Cell, w: Worker, luck: Luck, save: Save)
    requires c == AtRest(c)
    ensures AtRest(Steps(cfg, now, c, PostScript(now, c, w, luck, save))) == PostOutcome(now, c, luck, save)
  {
    if ToPost(now, c) {
      PostScriptSteps(cfg, now, c, w, luck, save);
    } else {
      PostScriptSkipped(cfg, now, c, w, luck, save);
    }
  }

  // ----- the other services -----

  function CreateScript(seed: int): seq<CellEvent> {
    [OnEscrow(CreatorRead(seed)), OnEscrow(CreatorStore), OnEscrow(CreatorSet)]
  }

  const CHECK_SCRIPT: seq<CellEvent> := [OnCheck(CheckPick), OnCheck(CheckLook), OnCheck(CheckWrite)]

  const PASS_SCRIPT: seq<CellEvent> := [OnCheck(PassList), OnCheck(PassWrite)]

  function SignScript(user: int, wallet: Option<string>, sig: Signature): seq<CellEvent> {
    [OnDraft(SignRead(user, wallet)), OnDraft(SignCommit(SignRequest(user, sig)))]
  }

  lemma Steps2(cfg: Config, now: int, c: Cell, a: CellEvent, b: CellEvent)
    ensures Steps(cfg, now, c, [a, b]) == CellStep(cfg, now, CellStep(cfg, now, c, a), b)
  {
    assert [a, b][1..] == [b] && [b][1..] == [];
    var c1 := CellStep(cfg, now, c, a);
    assert Steps(cfg, now, c1, [b]) == Steps(cfg, now, CellStep(cfg, now, c1, b), []);
  }

  lemma Steps3(cfg: Config, now: int, c: Cell, a: CellEvent, b: CellEvent, d: CellEvent)
    ensures Steps(cfg, now, c, [a, b, d]) == CellStep(cfg, now, CellStep(cfg, now, CellStep(cfg, now, c, a), b), d)
  {
    assert [a, b, d][1..] == [b, d];
    Steps2(cfg, now, CellStep(cfg, now, c, a), b, d);
  }

  function CreateOutcome(c: Cell, seed: int): Cell {
    if c.deal.status == Approved then c.(vault := Some(seed), deal := SetEscrowAddress(c.deal, Wallet(seed))) else c
  }

  lemma CreateScriptEffect(cfg: Config, now: int, c: Cell, seed: int)
    requires c == AtRest(c)
    ensures AtRest(Steps(cfg, now, c, CreateScript(seed))) == CreateOutcome(c, seed)
  {
    Steps3(cfg, now, c, OnEscrow(CreatorRead(seed)), OnEscrow(CreatorStore), OnEscrow(CreatorSet));
  }

  predicate DueForCheck(now: int, c: Cell) {
    c.message.Some? && c.message.value.status == Exists && c.message.value.nextCheck <= now
  }

  /** The row and the record of the checks after a check that found the post live or not. */
  function Checked(now: int, c: Cell, live: bool): Cell
    requires c.message.Some?
  {
    var m := c.message.value;
    var k := c.checks;
    if !live then c.(message := Some(m.(status := Deleted)), checks := k.(missed := true))
    else
      var next := m.nextCheck + HOUR;
      c.(message := Some(if next > m.untilTs then m.(status := Passed) else m.(status := Exists, nextCheck := next)),
         checks := k.(seen := k.seen + [now]))
  }

  function CheckOutcome(now: int, c: Cell): Cell {
    if DueForCheck(now, c) then Checked(now, c, Found(c)) else c
  }

  lemma CheckScriptEffect(cfg: Config, now: int, c: Cell)
    requires c == AtRest(c)
    ensures AtRest(Steps(cfg, now, c, CHECK_SCRIPT)) == CheckOutcome(now, c)
  {
    Steps3(cfg, now, c, OnCheck(CheckPick), OnCheck(CheckLook), OnCheck(CheckWrite));
  }

  function PassOutcome(c: Cell): Cell {
    if c.message.Some? && c.message.value.status == Passed then
      c.(message := Some(c.message.value.(status := MessageCompleted)), deal := c.deal.(status := WaitingEscrowRelease))
    else if c.message.Some? && c.message.value.status == Deleted then
      c.(message := Some(c.message.value.(status := MessageFailed)), deal := c.deal.(status := WaitingEscrowRefund))
    else c
  }

  lemma PassScriptEffect(cfg: Config, now: int, c: Cell)
    requires c == AtRest(c)
    ensures AtRest(Steps(cfg, now, c, PASS_SCRIPT)) == PassOutcome(c)
  {
    Steps2(cfg, now, c, OnCheck(PassList), OnCheck(PassWrite));
  }

  function SignOutcome(cfg: Config, c: Cell, user: int, wallet: Option<string>): Cell {
    var r := PrepareSignature(cfg, c.deal, user, wallet);
    if r.Ok? then WithDeal(c, SignInTx(cfg, c.deal, user, r.value)) else c
  }

  lemma SignScriptEffect(cfg: Config, now: int, c: Cell, user: int, wallet: Option<string>, sig: Signature)
    requires c == AtRest(c)
    requires var r := PrepareSignature(cfg, c.deal, user, wallet); r.Ok? ==> sig == r.value
    ensures AtRest(Steps(cfg, now, c, SignScript(user, wallet, sig))) == SignOutcome(cfg, c, user, wallet)
  {
    Steps2(cfg, now, c, OnDraft(SignRead(user, wallet)), OnDraft(SignCommit(SignRequest(user, sig))));
  }

  // ----- scripts keep the deal safe -----

  /** Dropping every process in the middle of its work is no worse than a crash of each. */
  lemma AtRestKeepsCellInv(cfg: Config, now: int, c: Cell)
    requires CellInv(cfg, now, c)
    ensures CellInv(cfg, now, AtRest(c))
  {
  }

  lemma DropWorkers(now: int, goal: Effect, s: State)
    requires Inv(now, goal, s)
    ensures Inv(now, goal, s.(pcs := map[]))
  {
  }

  lemma AtRestKeepsSafe(cfg: Config, now: int, c: Cell)
    requires SafeInv(cfg, now, c)
    ensures SafeInv(cfg, now, AtRest(c))
  {
    AtRestKeepsCellInv(cfg, now, c);
    if !Early(c.deal.status) {
      DropWorkers(now, PostGoal(c), PostView(c));
    }
    if Released(c) || Refunded(c) {
      DropWorkers(now, PayGoal(cfg, c.deal, Released(c)), PayView(c, Released(c)));
    }
  }

  /** Steps of neither protocol need no assumptions. */
  predicate Plain(es: seq<CellEvent>) {
    forall i :: 0 <= i < |es| ==> es[i].OnDraft? || es[i].OnEscrow? || es[i].OnCheck?
  }

  lemma {:induction false} PlainKeepsSafe(cfg: Config, now: int, c: Cell, es: seq<CellEvent>)
    requires SafeInv(cfg, now, c) && Plain(es)
    ensures SafeInv(cfg, now, Steps(cfg, now, c, es))
    decreases |es|
  {
    if es != [] {
      SafeStep(cfg, now, c, es[0]);
      assert Plain(es[1..]);
      PlainKeepsSafe(cfg, now, CellStep(cfg, now, c, es[0]), es[1..]);
    }
  }

  lemma PutPayFrame(now: int, c: Cell, release: bool, s: State)
    requires c.deal.status == Waiting(release) && PostInv(now, c)
    ensures PostInv(now, PutPay(c, release, s))
  {
    var c' := PutPay(c, release, s);
    assert PostView(c') == PostView(c) && PostGoal(c') == PostGoal(c);
  }

  /** What a payout relies on: no expired lock is passed over unread, and no transfer is left unrecorded. */
  predicate HarmlessPay(cfg: Config, now: int, c: Cell, release: bool, luck: Luck) {
    var r := PreparePayout(cfg, c.deal, c.vault, release);
    r.Ok? ==> Harmless(Paying, now, r.value.key, PayView(c, release), luck)
  }

  predicate HarmlessPost(now: int, c: Cell, luck: Luck) {
    ToPost(now, c) ==> Harmless(Posting, now, PostGoal(c), PostView(c), luck)
  }

  lemma PayOutcomeKeepsInv(cfg: Config, now: int, c: Cell, release: bool, luck: Luck)
    requires CellInv(cfg, now, c) && c == AtRest(c)
    ensures CellInv(cfg, now, PayOutcome(cfg, now, c, release, luck))
    ensures AtRest(PayOutcome(cfg, now, c, release, luck)) == PayOutcome(cfg, now, c, release, luck)
  {
    PayScriptEffect(cfg, now, c, release, 0, luck);
    StepsKeepInv(cfg, now, c, PayScript(cfg, now, c, release, 0, luck));
    AtRestKeepsCellInv(cfg, now, Steps(cfg, now, c, PayScript(cfg, now, c, release, 0, luck)));
  }

  lemma PayOutcomeSafe(cfg: Config, now: int, c: Cell, release: bool, luck: Luck)
    requires SafeInv(cfg, now, c) && c == AtRest(c) && HarmlessPay(cfg, now, c, release, luck)
    ensures SafeInv(cfg, now, PayOutcome(cfg, now, c, release, luck))
  {
    PayOutcomeKeepsInv(cfg, now, c, release, luck);
    if PreparePayout(cfg, c.deal, c.vault, release).Ok? {
      PreparesGoal(cfg, c, release);
      AttemptedIsSafe(cfg, now, c, release, luck);
    }
  }

  lemma AttemptedIsSafe(cfg: Config, now: int, c: Cell, release: bool, luck: Luck)
    requires Coupled(c) && PostInv(now, c) && PayInv(cfg, now, c) && c == AtRest(c) && c.deal.status == Waiting(release)
    requires Harmless(Paying, now, PayGoal(cfg, c.deal, release), PayView(c, release), luck)
    ensures var goal := PayGoal(cfg, c.deal, release);
      var c' := PutPay(c, release, Attempted(Paying, now, goal, goal, PayView(c, release), luck));
      PostInv(now, c') && PayInv(cfg, now, c')
  {
    var goal := PayGoal(cfg, c.deal, release);
    var s := Attempted(Paying, now, goal, goal, PayView(c, release), luck);
    AttemptedKeepsInv(Paying, now, goal, PayView(c, release), luck);
    PutPayFrame(now, c, release, s);
    PutPayOnBranch(cfg, now, c, release, s);
  }

  lemma PutPayOnBranch(cfg: Config, now: int, c: Cell, release: bool, s: State)
    requires Coupled(c) && PayInv(cfg, now, c) && c.deal.status == Waiting(release)
    requires s.vanished == 0 && DoOnce.Inv(now, PayGoal(cfg, c.deal, release), s)
    ensures PayInv(cfg, now, PutPay(c, release, s))
  {
    assert PayView(PutPay(c, release, s), release) == s;
  }

  lemma PostOutcomeKeepsInv(cfg: Config, now: int, c: Cell, luck: Luck, save: Save)
    requires CellInv(cfg, now, c) && c == AtRest(c)
    ensures CellInv(cfg, now, PostOutcome(now, c, luck, save))
    ensures AtRest(PostOutcome(now, c, luck, save)) == PostOutcome(now, c, luck, save)
  {
    PostScriptEffect(cfg, now, c, 0, luck, save);
    StepsKeepInv(cfg, now, c, PostScript(now, c, 0, luck, save));
    AtRestKeepsCellInv(cfg, now, Steps(cfg, now, c, PostScript(now, c, 0, luck, save)));
  }

  lemma PostOutcomeSafe(cfg: Config, now: int, c: Cell, luck: Luck, save: Save)
    requires SafeInv(cfg, now, c) && c == AtRest(c) && HarmlessPost(now, c, luck)
    ensures SafeInv(cfg, now, PostOutcome(now, c, luck, save))
  {
    PostOutcomeKeepsInv(cfg, now, c, luck, save);
    if ToPost(now, c) {
      PostedIsSafe(cfg, now, c, luck, save);
    }
  }

  lemma PostedIsSafe(cfg: Config, now: int, c: Cell, luck: Luck, save: Save)
    requires Coupled(c) && PostInv(now, c) && PayInv(cfg, now, c) && c == AtRest(c) && PostView(c).open
    requires Harmless(Posting, now, PostGoal(c), PostView(c), luck)
    ensures var c' := PutPost(now, c, Attempted(Posting, now, PostGoal(c), PostGoal(c), PostView(c), luck), save);
      PostInv(now, c') && PayInv(cfg, now, c')
  {
    var s := Attempted(Posting, now, PostGoal(c), PostGoal(c), PostView(c), luck);
    AttemptedKeepsInv(Posting, now, PostGoal(c), PostView(c), luck);
    assert PostView(PutPost(now, c, s, save)) == s;
  }

  lemma PlainOutcome(cfg: Config, now: int, c: Cell, es: seq<CellEvent>)
    requires SafeInv(cfg, now, c) && Plain(es)
    ensures SafeInv(cfg, now, AtRest(Steps(cfg, now, c, es)))
  {
    PlainKeepsSafe(cfg, now, c, es);
    AtRestKeepsSafe(cfg, now, Steps(cfg, now, c, es));
  }

  // The services outside the two protocols need no assumption to keep a deal safe.

  lemma CreateOutcomeSafe(cfg: Config, now: int, c: Cell, seed: int)
    requires SafeInv(cfg, now, c) && c == AtRest(c)
    ensures SafeInv(cfg, now, CreateOutcome(c, seed))
  {
    CreateScriptEffect(cfg, now, c, seed);
    PlainOutcome(cfg, now, c, CreateScript(seed));
  }

  lemma CheckOutcomeSafe(cfg: Config, now: int, c: Cell)
    requires SafeInv(cfg, now, c) && c == AtRest(c)
    ensures SafeInv(cfg, now, CheckOutcome(now, c))
  {
    CheckScriptEffect(cfg, now, c);
    PlainOutcome(cfg, now, c, CHECK_SCRIPT);
  }

  lemma PassOutcomeSafe(cfg: Config, now: int, c: Cell)
    requires SafeInv(cfg, now, c) && c == AtRest(c)
    ensures SafeInv(cfg, now, PassOutcome(c))
  {
    PassScriptEffect(cfg, now, c);
    PlainOutcome(cfg, now, c, PASS_SCRIPT);
  }

  lemma SignOutcomeSafe(cfg: Config, now: int, c: Cell, user: int, wallet: Option<string>)
    requires SafeInv(cfg, now, c) && c == AtRest(c)
    ensures SafeInv(cfg, now, SignOutcome(cfg, c, user, wallet))
  {
    var r := PrepareSignature(cfg, c.deal, user, wallet);
    var sig := if r.Ok? then r.value else "";
    SignScriptEffect(cfg, now, c, user, wallet, sig);
    PlainOutcome(cfg, now, c, SignScript(user, wallet, sig));
  }

  /**
   Recovery completes the payout: in every state that a fault-free run leaves behind, with the deal waiting and no
   lock active, one execution by an idle worker whose reads, transfer and record succeed confirms the deal, with
   exactly one payout in total, whether or not an earlier worker had already paid before it crashed.
   */
  lemma RecoveryCompletes(cfg: Config, now: int, c: Cell, release: bool, w: Worker, luck: Luck)
    requires SafeInv(cfg, now, c)
    requires c.deal.status == Waiting(release) && PcOf(PayView(c, release), w).Idle?
    requires !AnyActive(now, BookOf(c, release).locks) && cfg.parses(PayoutOf(c.deal, release))
    requires luck.read && luck.taken && luck.sent && luck.recorded
    ensures var c' := Steps(cfg, now, c, PayScript(cfg, now, c, release, w, luck));
      c'.deal == c.deal.(status := Confirmed(release)) && c'.wallet == [PayGoal(cfg, c.deal, release)]
  {
    PreparesGoal(cfg, c, release);
    CanPrepare(cfg, now, c, release);
    PayScriptSteps(cfg, now, c, release, w, luck);
    WaitingInv(cfg, now, c, release);
    AttemptCompletes(Paying, now, PayGoal(cfg, c.deal, release), PayView(c, release), luck);
  }

  /** A waiting deal can be paid exactly if the payout address parses. */
  lemma CanPrepare(cfg: Config, now: int, c: Cell, release: bool)
    requires CellInv(cfg, now, c) && c.deal.status == Waiting(release)
    ensures PreparePayout(cfg, c.deal, c.vault, release).Ok? <==> cfg.parses(PayoutOf(c.deal, release))
  {
  }

  lemma WaitingInv(cfg: Config, now: int, c: Cell, release: bool)
    requires SafeInv(cfg, now, c) && c.deal.status == Waiting(release)
    ensures DoOnce.Inv(now, PayGoal(cfg, c.deal, release), PayView(c, release))
  {
  }
}
