/** The deal row: its fields, its signatures, and the guarded writes that the deal repository performs on it. */
module Deals {
  import opened DoOnce
  import opened Decimal

  datatype Result<+T, +E> = Ok(value: T) | Err(error: E)

  datatype DealStatus =
    | Draft
    | Approved
    | WaitingEscrowDeposit
    | EscrowDepositConfirmed
    | InProgress
    | WaitingEscrowRelease
    | EscrowReleaseConfirmed
    | Completed
    | WaitingEscrowRefund
    | EscrowRefundConfirmed
    | Expired
    | Rejected

  datatype MarketError = NotFound | NotDraft | UnauthorizedSide | WalletNotSet | PayoutNotSet | MessageRequired

  /** The details JSON: the stored bytes, and the two fields that are parsed out of them. */
  datatype Details = Details(raw: string, message: string, postedAt: Option<int>)

  datatype Terms = Terms(dealType: string, duration: int, price: int, details: Details)

  /** A hex digest. */
  type Signature = string

  /** A payout address that is not set is the empty string; the code treats NULL and "" alike. */
  datatype Deal = Deal(
    lessor: int,
    lessee: int,
    terms: Terms,
    escrowAmount: int,
    lessorSignature: Option<Signature>,
    lesseeSignature: Option<Signature>,
    status: DealStatus,
    escrowAddress: Option<Wallet>,
    lessorPayout: string,
    lesseePayout: string)

  /**
   What the deals are parametric in: the two amount computations of the escrow service, which payout addresses
   parse as raw addresses, and the signature hash over terms, user and both payout addresses.
   */
  datatype Config = Config(
    compute: int -> int,
    extract: int -> int,
    parses: string -> bool,
    sign: (Terms, int, string, string) -> Signature)

  // ----- signatures -----

  predicate DealSignaturesMatch(cfg: Config, d: Deal) {
    && d.lessorSignature == Some(cfg.sign(d.terms, d.lessor, d.lessorPayout, d.lesseePayout))
    && d.lesseeSignature == Some(cfg.sign(d.terms, d.lessee, d.lessorPayout, d.lesseePayout))
  }

  predicate PayoutsSet(d: Deal) {
    d.lessorPayout != "" && d.lesseePayout != ""
  }

  /** The white space of Unicode, as `strings.TrimSpace` knows it. */
  predicate IsSpace(c: char) {
    || c in {' ', '\t', '\n', '\r', '\U{0B}', '\U{0C}', '\U{85}', '\U{A0}'}
    || c in {'\U{1680}', '\U{2028}', '\U{2029}', '\U{202F}', '\U{205F}', '\U{3000}'}
    || '\U{2000}' <= c <= '\U{200A}'
  }

  predicate Blank(s: string) {
    forall i :: 0 <= i < |s| ==> IsSpace(s[i])
  }

  /** The reading half of signing: every check of the service, then the hash over what was read. */
  function PrepareSignature(cfg: Config, d: Deal, user: int, wallet: Option<string>): Result<Signature, MarketError> {
    if wallet.None? || wallet.value == "" then Err(WalletNotSet)
    else if !PayoutsSet(d) then Err(PayoutNotSet)
    else if Blank(d.terms.details.message) then Err(MessageRequired)
    else if wallet.value != (if user == d.lessor then d.lessorPayout else d.lesseePayout) then Err(WalletNotSet)
    else Ok(cfg.sign(d.terms, user, d.lessorPayout, d.lesseePayout))
  }

  /** The writing half, one serializable transaction on the row as it is by then. */
  function SignInTx(cfg: Config, d: Deal, user: int, sig: Signature): Result<Deal, MarketError> {
    if d.status != Draft then Err(NotDraft)
    else if user != d.lessor && user != d.lessee then Err(UnauthorizedSide)
    else
      var signed := if user == d.lessor then d.(lessorSignature := Some(sig)) else d.(lesseeSignature := Some(sig));
      Ok(if DealSignaturesMatch(cfg, signed) then signed.(status := Approved) else signed)
  }

  // ----- guarded writes -----

  function UpdateDraft(cfg: Config, d: Deal, user: int, terms: Terms): Result<Deal, MarketError> {
    if d.status != Draft then Err(NotDraft)
    else if user != d.lessor && user != d.lessee then Err(UnauthorizedSide)
    else Ok(d.(terms := terms, escrowAmount := cfg.compute(terms.price),
               lessorSignature := None, lesseeSignature := None))
  }

  function SetPayout(d: Deal, user: int, address: string): Result<Deal, MarketError> {
    if d.status != Draft then Err(NotDraft)
    else if user != d.lessor && user != d.lessee then Err(UnauthorizedSide)
    else if address == "" then Err(WalletNotSet)
    else Ok(d.(lessorPayout := if user == d.lessor then address else d.lessorPayout,
               lesseePayout := if user == d.lessee then address else d.lesseePayout))
  }

  function Reject(d: Deal, user: int): Result<Deal, MarketError> {
    if user != d.lessor && user != d.lessee then Err(UnauthorizedSide)
    else if d.status != Draft then Err(NotDraft)
    else Ok(d.(status := Rejected))
  }

  /** `UPDATE ... SET status = to WHERE status = from`. */
  function SetStatusFrom(d: Deal, from: DealStatus, to: DealStatus): Deal {
    if d.status == from then d.(status := to) else d
  }

  function SetEscrowAddress(d: Deal, address: Wallet): Deal {
    if d.status == Approved then d.(escrowAddress := Some(address), status := WaitingEscrowDeposit) else d
  }

  function DepositSeen(d: Deal, amount: int): Deal {
    if d.status == WaitingEscrowDeposit && amount >= d.escrowAmount then d.(status := EscrowDepositConfirmed) else d
  }

  function SetCompleted(d: Deal): Deal {
    if d.status == EscrowReleaseConfirmed || d.status == EscrowRefundConfirmed
    then d.(status := DealStatus.Completed) else d
  }

  // ----- the payout -----

  function Waiting(release: bool): DealStatus {
    if release then WaitingEscrowRelease else WaitingEscrowRefund
  }

  function Confirmed(release: bool): DealStatus {
    if release then EscrowReleaseConfirmed else EscrowRefundConfirmed
  }

  function PayoutOf(d: Deal, release: bool): string {
    if release then d.lessorPayout else d.lesseePayout
  }

  datatype ActionError = PayoutAddressNotSet | WrongStatus | NoEscrowAddress | BadPayoutAddress | NoSeed

  /** Where the money goes, or why it cannot be sent. */
  function PrepareAction(d: Deal, release: bool): Result<string, ActionError> {
    if PayoutOf(d, release) == "" then Err(PayoutAddressNotSet)
    else if d.status != Waiting(release) then Err(WrongStatus)
    else if d.escrowAddress.None? then Err(NoEscrowAddress)
    else Ok(PayoutOf(d, release))
  }

  /** The transfer to make, out of the wallet whose seed is in the vault, and the transfer to look for on recovery. */
  datatype PayOrder = PayOrder(order: Effect, key: Effect)

  function PreparePayout(cfg: Config, d: Deal, seed: Option<int>, release: bool): Result<PayOrder, ActionError> {
    match PrepareAction(d, release)
    case Err(e) => Err(e)
    case Ok(dest) =>
      if !cfg.parses(dest) then Err(BadPayoutAddress)
      else if seed.None? then Err(NoSeed)
      else
        var amount := cfg.extract(d.escrowAmount);
        Ok(PayOrder(Transfer(Wallet(seed.value), dest, amount), Transfer(d.escrowAddress.value, dest, amount)))
  }

  // ----- the status order -----

  /** Every status change of the protocol raises this rank; branches that exclude each other share a rank. */
  function Rank(s: DealStatus): nat {
    match s
    case Draft => 0
    case Approved => 1
    case Rejected => 1
    case WaitingEscrowDeposit => 2
    case EscrowDepositConfirmed => 3
    case Expired => 3
    case InProgress => 4
    case WaitingEscrowRelease => 5
    case WaitingEscrowRefund => 5
    case EscrowReleaseConfirmed => 6
    case EscrowRefundConfirmed => 6
    case Completed => 7
  }
}
