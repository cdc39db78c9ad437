/** The carbon credit token (contracts/carbon-credit-token/src/lib.rs): balances, retirements and their receipts. A call
    either fails, leaving everything as it was, or yields the new state. */
module CarbonModel {
  import opened Prelude
  import Decimal

  datatype CarbonError =
    | KycNotApproved
    | TransferBlocked
    | InsufficientBalance
    | CompliancePaused
    | Blocklisted
    | BatchTooLarge
    | InvalidAmount
    | FieldTooLong
    | InvalidBeneficiaryAddress
    | Trap  // an arithmetic overflow, a failed `expect`, a panic or a buffer overrun

  datatype Decision = Allow | DenyKyc | DenyPaused | DenyBlocklisted | DenyOther

  datatype Receipt = Receipt(
    retiree: Address,
    amount: int,
    timestamp: nat,
    beneficiary: seq<byte>,
    reason: seq<byte>,
    beneficiaryAddress: Option<Address>)

  datatype Token = Token(
    balances: map<Address, int>,
    supply: int,
    retired: int,
    receipts: seq<Receipt>,
    index: map<Address, seq<nat>>)  // per beneficiary, positions in `receipts`

  const EMPTY := Token(map[], 0, 0, [], map[])

  /** The compliance and registry answers, the clock and the project id seen by one call. */
  datatype Host = Host(
    decide: (Address, Address, int) -> Decision,
    kycApproved: Address -> bool,
    now: u64,
    project: seq<byte>)

  datatype Request = Request(beneficiary: Address, amount: i128, memo: seq<byte>)

  datatype Retirement = Retirement(amount: i128, beneficiary: seq<byte>, reason: seq<byte>)

  type Outcome = Result<Token, CarbonError>

  const MAX_FIELD_BYTES := 128
  const BATCH_CAP := 10

  // ---- Shared steps ---------------------------------------------------------------

  /** Mint and transfer name the pause and the blocklist; the batch names the blocklist; retirement names neither. */
  function Denied(d: Decision, namesPause: bool, namesBlocklist: bool): CarbonError
    requires !d.Allow?
  {
    if d.DenyKyc? then KycNotApproved
    else if d.DenyPaused? && namesPause then CompliancePaused
    else if d.DenyBlocklisted? && namesBlocklist then Blocklisted
    else TransferBlocked
  }

  /** The address a receipt is filed under. */
  function Attributed(r: Receipt): Address {
    if r.beneficiaryAddress.Some? then r.beneficiaryAddress.value else r.retiree
  }

  function IndexOf(t: Token, a: Address): seq<nat> {
    if a in t.index then t.index[a] else []
  }

  /** Files a position under an address unless a scan of the address's entries finds it there. */
  function FileUnder(t: Token, a: Address, position: nat): Token {
    if position in IndexOf(t, a) then t else t.(index := t.index[a := IndexOf(t, a) + [position]])
  }

  /** Records a receipt at the next position and files it. */
  function Record(t: Token, r: Receipt): Token {
    FileUnder(t.(receipts := t.receipts + [r]), Attributed(r), |t.receipts|)
  }

  function Burn(t: Token, retiree: Address, amount: int): Token {
    t.(balances := Credit(t.balances, retiree, -amount), supply := t.supply - amount, retired := t.retired + amount)
  }

  /** The burn that every retirement makes, with its checks. */
  function CheckedBurn(t: Token, retiree: Address, amount: int): Outcome {
    if Lookup(t.balances, retiree) < amount then Err(InsufficientBalance)
    else if !InI128(Lookup(t.balances, retiree) - amount) || !InI128(t.supply - amount)
            || !InI128(t.retired + amount) then
      Err(Trap)
    else Ok(Burn(t, retiree, amount))
  }

  /** Burns and records one receipt. */
  function RetireOne(t: Token, r: Receipt): Outcome {
    match CheckedBurn(t, r.retiree, r.amount)
    case Err(e) => Err(e)
    case Ok(burnt) => if |t.receipts| >= U32_MAX then Err(Trap) else Ok(Record(burnt, r))
  }

  // ---- Entry points ------------------------------------------------------------------

  function Mint(t: Token, host: Host, to: Address, amount: int): Outcome {
    var d := host.decide(to, to, amount);
    if !d.Allow? then Err(Denied(d, true, true))
    else if !InI128(Lookup(t.balances, to) + amount) || !InI128(t.supply + amount) then Err(Trap)
    else Ok(t.(balances := Credit(t.balances, to, amount), supply := t.supply + amount))
  }

  function Transfer(t: Token, host: Host, from: Address, to: Address, amount: int): Outcome {
    var d := host.decide(from, to, amount);
    if !d.Allow? then Err(Denied(d, true, true))
    else if Lookup(t.balances, from) < amount then Err(InsufficientBalance)
    else if !InI128(Lookup(t.balances, from) - amount) then Err(Trap)
    else
      var debited := Credit(t.balances, from, -amount);
      if !InI128(Lookup(debited, to) + amount) then Err(Trap)
      else Ok(t.(balances := Credit(debited, to, amount)))
  }

  function Retire(t: Token, host: Host, retiree: Address, amount: int, beneficiary: seq<byte>,
                  reason: seq<byte>): Outcome {
    var d := host.decide(retiree, retiree, amount);
    if amount <= 0 then Err(InvalidAmount)
    else if |beneficiary| > MAX_FIELD_BYTES || |reason| > MAX_FIELD_BYTES then Err(FieldTooLong)
    else if !d.Allow? then Err(Denied(d, false, false))
    else RetireOne(t, Receipt(retiree, amount, host.now, beneficiary, reason, None))
  }

  /** Unlike `Retire`, this entry point does not check the sign of the amount. */
  function RetireOnBehalf(t: Token, host: Host, retiree: Address, onBehalfOf: Address, amount: int,
                          reason: seq<byte>): Outcome {
    var d := host.decide(retiree, retiree, amount);
    if |reason| > MAX_FIELD_BYTES then Err(FieldTooLong)
    else if !d.Allow? then Err(Denied(d, false, false))
    else if !host.kycApproved(onBehalfOf) then Err(KycNotApproved)
    else RetireOne(t, Receipt(retiree, amount, host.now, [], reason, Some(onBehalfOf)))
  }

  /** Records a receipt without burning anything. */
  function AppendReceipt(t: Token, host: Host, retiree: Address, amount: int, beneficiary: seq<byte>, reason: seq<byte>,
                         beneficiaryAddress: Option<Address>): Outcome {
    if amount <= 0 then Err(InvalidAmount)
    else if |beneficiary| > MAX_FIELD_BYTES || |reason| > MAX_FIELD_BYTES then Err(FieldTooLong)
    else if beneficiaryAddress.Some? && !host.kycApproved(beneficiaryAddress.value) then Err(InvalidBeneficiaryAddress)
    else if |t.receipts| >= U32_MAX then Err(Trap)
    else Ok(Record(t, Receipt(retiree, amount, host.now, beneficiary, reason, beneficiaryAddress)))
  }

  // ---- Batches ----------------------------------------------------------------------------

  /** The validation pass of `batch_retire`: the total, or the first failure. */
  function CheckRetirements(items: seq<Retirement>): Result<int, CarbonError> {
    if items == [] then Ok(0)
    else
      match CheckRetirements(items[..|items| - 1])
      case Err(e) => Err(e)
      case Ok(total) =>
        var amount := items[|items| - 1].amount;
        if amount <= 0 then Err(InvalidAmount)
        else if !InI128(total + amount) then Err(Trap)
        else Ok(total + amount)
  }

  function PlainReceipts(host: Host, retiree: Address, items: seq<Retirement>): seq<Receipt> {
    seq(|items|, i requires 0 <= i < |items| =>
      Receipt(retiree, items[i].amount, host.now, items[i].beneficiary, items[i].reason, None))
  }

  /** Burns the total once and records one receipt per item, filing none of them. */
  function BatchRetire(t: Token, host: Host, retiree: Address, items: seq<Retirement>): Outcome {
    var d := host.decide(retiree, retiree, 1);
    if |items| > BATCH_CAP then Err(BatchTooLarge)
    else if !d.Allow? then Err(Denied(d, false, false))
    else
      match CheckRetirements(items)
      case Err(e) => Err(e)
      case Ok(total) =>
        match CheckedBurn(t, retiree, total)
        case Err(e) => Err(e)
        case Ok(burnt) =>
          if |t.receipts| + |items| > U32_MAX then Err(Trap)
          else Ok(burnt.(receipts := t.receipts + PlainReceipts(host, retiree, items)))
  }

  /** The validation pass of `batch_retire_on_behalf`. */
  function CheckRequests(host: Host, requests: seq<Request>): Result<int, CarbonError> {
    if requests == [] then Ok(0)
    else
      match CheckRequests(host, requests[..|requests| - 1])
      case Err(e) => Err(e)
      case Ok(total) =>
        var r := requests[|requests| - 1];
        if r.amount <= 0 then Err(InvalidAmount)
        else if r.memo == [] then Err(Trap)
        else if !host.kycApproved(r.beneficiary) then Err(KycNotApproved)
        else if !InI128(total + r.amount) then Err(Trap)
        else Ok(total + r.amount)
  }

  function RequestReceipt(host: Host, retiree: Address, r: Request): Receipt {
    Receipt(retiree, r.amount, host.now, [], r.memo, Some(r.beneficiary))
  }

  /** One receipt is stored, filed and given a serial number, which must fit its buffer. */
  function RecordRequest(t: Token, host: Host, retiree: Address, r: Request): Outcome {
    var position := |t.receipts|;
    if |Decimal.Serial(host.project, position)| > Decimal.SERIAL_BUFFER || position >= U32_MAX then Err(Trap)
    else Ok(Record(t, RequestReceipt(host, retiree, r)))
  }

  /** The recording pass. */
  function RecordAll(t: Token, host: Host, retiree: Address, requests: seq<Request>): Outcome {
    if requests == [] then Ok(t)
    else
      match RecordAll(t, host, retiree, requests[..|requests| - 1])
      case Err(e) => Err(e)
      case Ok(before) => RecordRequest(before, host, retiree, requests[|requests| - 1])
  }

  function BatchRetireOnBehalf(t: Token, host: Host, retiree: Address, requests: seq<Request>): Outcome {
    var d := host.decide(retiree, retiree, 1);
    if requests == [] || |requests| > BATCH_CAP then Err(BatchTooLarge)
    else if !d.Allow? then Err(Denied(d, false, true))
    else
      match CheckRequests(host, requests)
      case Err(e) => Err(e)
      case Ok(total) =>
        match CheckedBurn(t, retiree, total)
        case Err(e) => Err(e)
        case Ok(burnt) => RecordAll(burnt, host, retiree, requests)
  }

  // ---- Runs ----------------------------------------------------------------------------------

  datatype Call =
    | CallMint(host: Host, to: Address, amount: i128)
    | CallTransfer(host: Host, from: Address, to: Address, amount: i128)
    | CallRetire(host: Host, retiree: Address, amount: i128, beneficiary: seq<byte>, reason: seq<byte>)
    | CallRetireOnBehalf(host: Host, retiree: Address, onBehalfOf: Address, amount: i128, reason: seq<byte>)
    | CallAppendReceipt(host: Host, retiree: Address, amount: i128, beneficiary: seq<byte>, reason: seq<byte>,
                        beneficiaryAddress: Option<Address>)
    | CallBatchRetire(host: Host, retiree: Address, items: seq<Retirement>)
    | CallBatchRetireOnBehalf(host: Host, retiree: Address, requests: seq<Request>)

  function Apply(t: Token, call: Call): Outcome {
    match call
    case CallMint(host, to, amount) => Mint(t, host, to, amount)
    case CallTransfer(host, from, to, amount) => Transfer(t, host, from, to, amount)
    case CallRetire(host, retiree, amount, beneficiary, reason) => Retire(t, host, retiree, amount, beneficiary, reason)
    case CallRetireOnBehalf(host, retiree, onBehalfOf, amount, reason) =>
      RetireOnBehalf(t, host, retiree, onBehalfOf, amount, reason)
    case CallAppendReceipt(host, retiree, amount, beneficiary, reason, address) =>
      AppendReceipt(t, host, retiree, amount, beneficiary, reason, address)
    case CallBatchRetire(host, retiree, items) => BatchRetire(t, host, retiree, items)
    case CallBatchRetireOnBehalf(host, retiree, requests) => BatchRetireOnBehalf(t, host, retiree, requests)
  }

  function Next(t: Token, call: Call): Token {
    match Apply(t, call)
    case Ok(after) => after
    case Err(_) => t
  }

  function Run(t: Token, calls: seq<Call>): Token
    decreases |calls|
  {
    if calls == [] then t else Next(Run(t, calls[..|calls| - 1]), calls[|calls| - 1])
  }
}
