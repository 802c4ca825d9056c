/**
 The life of one deal: its row, its post message, its locks, its seed in the vault, its escrow wallet and its
 ad in the channel, as the HTTP API, the market workers and the userbot workers change them.  A step is one
 repository call or one external effect; every worker may crash between two steps, and sign requests may
 commit arbitrarily late after they read the deal.
 */
module DealLife {
  import opened DoOnce
  import opened Decimal
  import opened Deals

  /** In microseconds. */
  const HOUR: int := 3_600_000_000

  datatype MessageStatus = Exists | Deleted | Passed | MessageCompleted | MessageFailed

  /**
   The deal_post_message row; `deal_id` is unique, so a deal has at most one.  The stored message id is that of the ad,
   unless the answer to sending did not contain it: then zero is stored.
   */
  datatype Message = Message(status: MessageStatus, nextCheck: int, untilTs: int, idKnown: bool)

  /** How a message is saved: how much later the second clock reading is, and whether the id of the ad is known. */
  datatype Save = Save(lag: nat, idKnown: bool)

  /**
   What the checks of the post have seen: the first slot, how much later the clock was read for it than for
   the end of the post, the times of the committed positive checks, and whether a check missed the post.
   */
  datatype Checks = Checks(first: int, lag: nat, seen: seq<int>, missed: bool)

  datatype SignRequest = SignRequest(user: int, sig: Signature)

  /** The lock rows of one action type and the workers that are in the middle of it. */
  datatype Book = Book(locks: seq<Lock>, pcs: map<Worker, Pc>)

  /** The escrow creator: between reading an approved deal, storing the new seed, and setting the address. */
  datatype Creator = Resting | Made(seed: int) | Stored(seed: int)

  /** The post checker: a listed message, and the answer of the channel. */
  datatype Checker =
    | Off
    | Picked(nextCheck: int, untilTs: int)
    | Looked(nextCheck: int, untilTs: int, at: int, live: bool)

  /** The passed-message worker: the message is in the list that is about to be written. */
  datatype Passer = Unlisted | ListedPassed | ListedDeleted

  datatype Cell = Cell(
    deal: Deal,
    listingChannel: Option<int>,
    signRequests: set<SignRequest>,
    vault: Option<int>,
    creator: Creator,
    post: Book,
    ads: seq<Effect>,
    removedAds: nat,
    message: Option<Message>,
    checks: Checks,
    checker: Checker,
    passer: Passer,
    release: Book,
    refund: Book,
    wallet: seq<Effect>)

  /** Requests of the two sides through the API; signing is a reading half and a later writing half. */
  datatype DraftEvent =
    | SignRead(user: int, userWallet: Option<string>)
    | SignCommit(request: SignRequest)
    | EditDraft(user: int, terms: Terms)
    | EditPayout(user: int, address: string)
    | RejectDeal(user: int)

  /** The escrow creator, the deposit worker, the expiry of unpaid deals, and the completed worker. */
  datatype EscrowEvent =
    | CreatorRead(seed: int)
    | CreatorStore
    | CreatorSet
    | CreatorCrash
    | Deposit(amount: int)
    | Expire
    | Complete

  /** The post checker and the passed-message worker. */
  datatype CheckEvent =
    | CheckPick
    | CheckLook
    | CheckWrite
    | CheckCrash
    | PassList
    | PassWrite
    | PassCrash

  datatype CellEvent =
    | OnDraft(d: DraftEvent)
    | OnEscrow(x: EscrowEvent)
    | OnCheck(k: CheckEvent)
    | PostBegin(w: Worker)
    | PostStep(e: Event)
    | PostRecord(w: Worker, save: Save)
    | PayBegin(release: bool, w: Worker)
    | PayStep(release: bool, e: Event)

  const EMPTY_BOOK: Book := Book([], map[])

  function NewCell(cfg: Config, lessor: int, lessee: int, terms: Terms, listingChannel: Option<int>): Cell {
    Cell(Deal(lessor, lessee, terms, cfg.compute(terms.price), None, None, Draft, None, "", ""),
         listingChannel, {}, None, Resting, EMPTY_BOOK, [], 0, None, Checks(0, 0, [], false), Off, Unlisted,
         EMPTY_BOOK, EMPTY_BOOK, [])
  }

  // ----- the do-it-once protocol on the channel post -----

  function PostView(c: Cell): State {
    State(c.deal.status == EscrowDepositConfirmed && c.message.None?, c.ads, c.removedAds, c.post.locks, c.post.pcs)
  }

  function PostGoal(c: Cell): Effect {
    Post(if c.listingChannel.Some? then c.listingChannel.value else 0, c.deal.terms.details.message)
  }

  /** The checks that the sender makes on a listed deal before it touches the locks. */
  predicate MayPost(now: int, c: Cell) {
    var details := c.deal.terms.details;
    c.listingChannel.Some? && details.message != "" && (details.postedAt.None? || details.postedAt.value <= now)
  }

  /**
   Insert the message row unless there is one, and then move the deal on if it still waits for the post.
   The end of the post and its first check are computed from two readings of the clock, `lag` apart.
   */
  function CreateMessage(now: int, c: Cell, save: Save): Cell {
    if c.message.Some? then c
    else
      var first := now + save.lag + HOUR;
      c.(message := Some(Message(Exists, first, now + c.deal.terms.duration * HOUR, save.idKnown)),
         checks := Checks(first, save.lag, [], false),
         deal := SetStatusFrom(c.deal, EscrowDepositConfirmed, InProgress))
  }

  /** A step of the protocol on the post; `save` matters only to the step that records it. */
  function DoPost(now: int, c: Cell, e: Event, save: Save): Cell {
    var s := Step(now, PostView(c), e);
    var c' := c.(ads := s.log, removedAds := s.vanished, post := Book(s.locks, s.pcs));
    if e.Record? && (PcOf(PostView(c), e.w).Done? || PcOf(PostView(c), e.w).Recovering?)
    then CreateMessage(now, c', save) else c'
  }

  /** For the steps that save nothing. */
  const NOTHING: Save := Save(0, true)

  /** The sender goes on to the next deal if it cannot read the last lock. */
  predicate PostingStep(e: Event) {
    !e.Begin? && !e.Record? && !e.TestFails?
  }

  predicate PayingStep(e: Event) {
    !e.Begin? && !e.Vanish?
  }

  // ----- the do-it-once protocol on the payout -----

  function BookOf(c: Cell, release: bool): Book {
    if release then c.release else c.refund
  }

  function PayView(c: Cell, release: bool): State {
    State(c.deal.status == Waiting(release), c.wallet, 0, BookOf(c, release).locks, BookOf(c, release).pcs)
  }

  /** The payout that the approved deal calls for. */
  function PayGoal(cfg: Config, d: Deal, release: bool): Effect {
    Transfer(if d.escrowAddress.Some? then d.escrowAddress.value else Wallet(0), PayoutOf(d, release),
             cfg.extract(d.escrowAmount))
  }

  /** Put the state of the payout protocol back into the deal. */
  function PutPay(c: Cell, release: bool, s: State): Cell {
    var book := Book(s.locks, s.pcs);
    c.(wallet := s.log,
       release := if release then book else c.release,
       refund := if release then c.refund else book,
       deal := if s.open then c.deal else SetStatusFrom(c.deal, Waiting(release), Confirmed(release)))
  }

  function DoPay(now: int, c: Cell, release: bool, e: Event): Cell {
    PutPay(c, release, Step(now, PayView(c, release), e))
  }

  // ----- the checker and the passed-message worker -----

  /** The channel has the ad, under the stored id. */
  predicate Found(c: Cell) {
    c.ads != [] && c.message.Some? && c.message.value.idKnown
  }

  function WriteCheck(c: Cell): Cell {
    if !c.checker.Looked? || c.message.None? then c
    else
      var k := c.checker;
      var next := k.nextCheck + HOUR;
      var c' := c.(checker := Off);
      if !k.live then
        c'.(message := Some(c.message.value.(status := Deleted)), checks := c.checks.(missed := true))
      else if next > k.untilTs then
        c'.(message := Some(c.message.value.(status := Passed)), checks := c.checks.(seen := c.checks.seen + [k.at]))
      else
        c'.(message := Some(c.message.value.(status := Exists, nextCheck := next)),
            checks := c.checks.(seen := c.checks.seen + [k.at]))
  }

  /** The bulk writes for this deal; neither looks at the status it overwrites. */
  function WritePassed(c: Cell): Cell {
    if c.message.None? then c.(passer := Unlisted)
    else
      match c.passer
      case Unlisted => c
      case ListedPassed =>
        c.(passer := Unlisted, message := Some(c.message.value.(status := MessageCompleted)),
           deal := c.deal.(status := WaitingEscrowRelease))
      case ListedDeleted =>
        c.(passer := Unlisted, message := Some(c.message.value.(status := MessageFailed)),
           deal := c.deal.(status := WaitingEscrowRefund))
  }

  // ----- one step -----

  function WithDeal(c: Cell, r: Result<Deal, MarketError>): Cell {
    if r.Ok? then c.(deal := r.value) else c
  }

  function DraftStep(cfg: Config, c: Cell, e: DraftEvent): Cell {
    match e
    case SignRead(user, userWallet) =>
      var r := PrepareSignature(cfg, c.deal, user, userWallet);
      if r.Ok? then c.(signRequests := c.signRequests + {SignRequest(user, r.value)}) else c
    case SignCommit(request) =>
      if request in c.signRequests then WithDeal(c, SignInTx(cfg, c.deal, request.user, request.sig)) else c
    case EditDraft(user, terms) => WithDeal(c, UpdateDraft(cfg, c.deal, user, terms))
    case EditPayout(user, address) => WithDeal(c, SetPayout(c.deal, user, address))
    case RejectDeal(user) => WithDeal(c, Reject(c.deal, user))
  }

  function EscrowStep(c: Cell, e: EscrowEvent): Cell {
    match e
    case CreatorRead(seed) => if c.creator.Resting? && c.deal.status == Approved then c.(creator := Made(seed)) else c
    case CreatorStore =>
      if c.creator.Made? then c.(creator := Stored(c.creator.seed), vault := Some(c.creator.seed)) else c
    case CreatorSet =>
      if c.creator.Stored? then c.(creator := Resting, deal := SetEscrowAddress(c.deal, Wallet(c.creator.seed))) else c
    case CreatorCrash => c.(creator := Resting)
    case Deposit(amount) => c.(deal := DepositSeen(c.deal, amount))
    case Expire => c.(deal := SetStatusFrom(c.deal, WaitingEscrowDeposit, Expired))
    case Complete => c.(deal := SetCompleted(c.deal))
  }

  function CheckStep(now: int, c: Cell, e: CheckEvent): Cell {
    match e
    case CheckPick =>
      if c.checker.Off? && c.message.Some? && c.message.value.status == Exists && c.message.value.nextCheck <= now
      then c.(checker := Picked(c.message.value.nextCheck, c.message.value.untilTs)) else c
    case CheckLook =>
      if c.checker.Picked? then c.(checker := Looked(c.checker.nextCheck, c.checker.untilTs, now, Found(c))) else c
    case CheckWrite => WriteCheck(c)
    case CheckCrash => c.(checker := Off)
    case PassList =>
      if c.message.None? then c
      else c.(passer := if c.message.value.status == Passed then ListedPassed
                        else if c.message.value.status == Deleted then ListedDeleted else Unlisted)
    case PassWrite => WritePassed(c)
    case PassCrash => c.(passer := Unlisted)
  }

  /** One step of the deal at time `now`; an event whose actor is not ready for it changes nothing. */
  function CellStep(cfg: Config, now: int, c: Cell, e: CellEvent): Cell {
    match e
    case OnDraft(d) => DraftStep(cfg, c, d)
    case OnEscrow(x) => EscrowStep(c, x)
    case OnCheck(k) => CheckStep(now, c, k)
    case PostBegin(w) => if MayPost(now, c) then DoPost(now, c, Begin(w, PostGoal(c), PostGoal(c)), NOTHING) else c
    case PostStep(e) => if PostingStep(e) then DoPost(now, c, e, NOTHING) else c
    case PostRecord(w, save) => DoPost(now, c, Record(w), save)
    case PayBegin(release, w) =>
      var r := PreparePayout(cfg, c.deal, c.vault, release);
      if r.Ok? then DoPay(now, c, release, Begin(w, r.value.order, r.value.key)) else c
    case PayStep(release, e) => if PayingStep(e) then DoPay(now, c, release, e) else c
  }

  // ----- runs of one deal -----

  datatype Moment = Wait(dt: nat) | At(e: CellEvent)

  datatype Timed = Timed(now: int, cell: Cell)

  function Next(cfg: Config, t: Timed, m: Moment): Timed {
    match m
    case Wait(dt) => Timed(t.now + dt, t.cell)
    case At(e) => Timed(t.now, CellStep(cfg, t.now, t.cell, e))
  }

  function Run(cfg: Config, t: Timed, run: seq<Moment>): Timed
    decreases |run|
  {
    if run == [] then t else Run(cfg, Next(cfg, t, run[0]), run[1..])
  }

  /** What the step relies on besides the code: the assumptions of the two do-it-once protocols, and nothing else. */
  function CellFaults(cfg: Config, now: int, c: Cell, e: CellEvent): set<Fault> {
    match e
    case PostStep(e) => if PostingStep(e) then Faults(now, PostGoal(c), PostView(c), e) else {}
    case PayStep(release, e) =>
      if PayingStep(e) then Faults(now, PayGoal(cfg, c.deal, release), PayView(c, release), e) else {}
    case _ => {}
  }

  function MomentFaults(cfg: Config, t: Timed, m: Moment): set<Fault> {
    if m.At? then CellFaults(cfg, t.now, t.cell, m.e) else {}
  }

  function RunFaults(cfg: Config, t: Timed, run: seq<Moment>): set<Fault>
    decreases |run|
  {
    if run == [] then {} else MomentFaults(cfg, t, run[0]) + RunFaults(cfg, Next(cfg, t, run[0]), run[1..])
  }
}
