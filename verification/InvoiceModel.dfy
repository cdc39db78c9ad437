/** The invoice token (contracts/invoice-token/src/lib.rs): one record per invoice id, and what each entry point does
    to it. A call either fails with an error, leaving everything as it was, or yields the new record. */
module InvoiceModel {
  import opened Prelude

  datatype Status = Created | Issued | PartiallySettled | FullySettled | Redeemed

  datatype InvoiceError =
    | AlreadySettled
    | NotSettled
    | InsufficientBalance
    | NegativeAmount
    | InsufficientAllowance
    | AllowanceExpired
    | KycNotApproved
    | TransferBlocked
    | PastDueDate
    | InvoiceNotFound
    | InvoiceAlreadyExists
    | InvalidWebhook
    | InvalidLifecycleTransition
    | OverSettlement
    | UnderSettlement
    | LifecyclePaused
    | InvalidMetadata
    | EmptyEventTag
    | Trap  // an arithmetic overflow or a failed `expect`: the host rolls the call back

  datatype JournalEntry = JournalEntry(tag: string, from: Status, to: Status, ledger: nat, timestamp: nat)

  datatype Allowance = Allowance(amount: int, expiration: nat)

  /** The metadata that carries invariants; the text fields are represented by whether their validators accept them. */
  datatype Meta = Meta(
    invoiceId: string,
    faceValue: i128,
    discountBps: nat,
    dueDate: nat,
    feeBps: nat,
    feeRecipient: Option<Address>,
    webhookValid: bool,
    textValid: bool)

  datatype Invoice = Invoice(
    meta: Option<Meta>,
    balances: map<Address, int>,
    allowances: map<(Address, Address), Allowance>,
    supply: int,
    status: Status,
    settlement: int,
    journal: seq<JournalEntry>,
    entitlements: map<Address, int>,
    dust: Option<int>)

  /** What reading every key of an unknown invoice id yields. */
  const ABSENT := Invoice(None, map[], map[], 0, Created, 0, [], map[], None)

  datatype Decision = Allow | DenyKyc | DenyOther

  /** The registry and compliance answers and the ledger seen by one call. */
  datatype Host = Host(
    kycApproved: Address -> bool,
    decide: (Address, Address, int) -> Decision,
    ledger: nat,
    now: nat)

  type Outcome = Result<Invoice, InvoiceError>

  // ---- Shared steps ------------------------------------------------------------

  function Tag(to: Status): string {
    match to
    case Created => "created"
    case Issued => "issued"
    case PartiallySettled => "partially_settled"
    case FullySettled => "fully_settled"
    case Redeemed => "redeemed"
  }

  /** Records a journal entry and writes the new status. */
  function Transition(inv: Invoice, host: Host, to: Status): Invoice {
    inv.(status := to, journal := inv.journal + [JournalEntry(Tag(to), inv.status, to, host.ledger, host.now)])
  }

  predicate IsSettled(s: Status) {
    s.PartiallySettled? || s.FullySettled?
  }

  /** `x as u128` for a signed 128-bit value. */
  function AsU128(x: int): int {
    if x < 0 then x + U128_LIMIT else x
  }

  /** `x as i128` for an unsigned 128-bit value. */
  function WrapI128(x: int): int {
    if x > I128_MAX then x - U128_LIMIT else x
  }

  /** `checked_mul(..).and_then(checked_div(..))` on 128-bit unsigned values, zero when either fails. */
  function MulDiv(a: int, b: int, c: int): int {
    var product := AsU128(a) * AsU128(b);
    if product >= U128_LIMIT || AsU128(c) == 0 then 0 else product / AsU128(c)
  }

  function SaturatingSub(x: int, y: int): int {
    if x - y < I128_MIN then I128_MIN else if x - y > I128_MAX then I128_MAX else x - y
  }

  function Denied(d: Decision): InvoiceError
    requires !d.Allow?
  {
    if d.DenyKyc? then KycNotApproved else TransferBlocked
  }

  function CheckMeta(meta: Meta): Option<InvoiceError> {
    if !meta.webhookValid then Some(InvalidWebhook)
    else if !meta.textValid || meta.faceValue <= 0 || meta.discountBps > 10_000 || meta.feeBps > 10_000 then
      Some(InvalidMetadata)
    else None
  }

  // ---- Entry points --------------------------------------------------------------

  function Create(inv: Invoice, meta: Meta): Outcome {
    if CheckMeta(meta).Some? then Err(CheckMeta(meta).value)
    else if meta.invoiceId == "" then Err(InvalidMetadata)
    else if inv.meta.Some? then Err(InvoiceAlreadyExists)
    else Ok(inv.(meta := Some(meta), supply := 0, status := Created, journal := []))
  }

  function UpdateMeta(inv: Invoice, meta: Meta): Outcome {
    if CheckMeta(meta).Some? then Err(CheckMeta(meta).value)
    else if !(inv.status.Created? || inv.status.Issued?) then Err(AlreadySettled)
    else Ok(inv.(meta := Some(meta)))
  }

  function AppendJournal(inv: Invoice, host: Host, tag: string): Outcome {
    if tag == "" then Err(EmptyEventTag)
    else if inv.meta.None? then Err(InvoiceNotFound)
    else Ok(inv.(journal := inv.journal + [JournalEntry(tag, inv.status, inv.status, host.ledger, host.now)]))
  }

  function Issue(inv: Invoice, host: Host, to: Address, amount: int): Outcome {
    if !host.kycApproved(to) then Err(KycNotApproved)
    else if !(inv.status.Created? || inv.status.Issued?) then Err(AlreadySettled)
    else if inv.meta.None? || !InI128(inv.supply + amount) then Err(Trap)
    else if inv.supply + amount > inv.meta.value.faceValue then Err(OverSettlement)
    else if !InI128(Lookup(inv.balances, to) + amount) then Err(Trap)
    else
      var open := if inv.status.Created? then Transition(inv, host, Issued) else inv;
      Ok(open.(balances := Credit(inv.balances, to, amount), supply := inv.supply + amount))
  }

  function Settle(inv: Invoice, host: Host, paused: bool): Outcome {
    if paused then Err(LifecyclePaused)
    else if inv.meta.None? then Err(Trap)
    else if inv.meta.value.faceValue <= 0 then Err(UnderSettlement)
    else if inv.status.FullySettled? || inv.status.Redeemed? then Err(AlreadySettled)
    else
      var face := inv.meta.value.faceValue;
      Ok(Transition(inv, host, FullySettled).(settlement := face, dust := Some(face)))
  }

  /** The state that both forms of partial settlement write. */
  function PartiallySettle(inv: Invoice, host: Host, amount: int): Invoice
    requires inv.meta.Some?
  {
    var to := if amount == inv.meta.value.faceValue then FullySettled else PartiallySettled;
    Transition(inv, host, to).(settlement := amount, dust := Some(amount))
  }

  function PartialSettle(inv: Invoice, host: Host, paused: bool, amount: int): Outcome {
    if paused then Err(LifecyclePaused)
    else if amount <= 0 then Err(UnderSettlement)
    else if inv.meta.None? then Err(Trap)
    else if amount > inv.meta.value.faceValue then Err(OverSettlement)
    else if !(inv.status.Created? || inv.status.Issued?) then Err(AlreadySettled)
    else Ok(PartiallySettle(inv, host, amount))
  }

  /** The largest amount `from` may redeem. */
  function RedeemCap(inv: Invoice, from: Address): int {
    var bal := Lookup(inv.balances, from);
    if from in inv.entitlements then Min(inv.entitlements[from], bal)
    else if inv.settlement > 0 && inv.supply > 0 then
      var q := MulDiv(bal, inv.settlement, inv.supply);
      if q > I128_MAX then 0 else q
    else 0
  }

  /** A stored entitlement falls by what is redeemed; one that is used up is forgotten. */
  function Lowered(entitlements: map<Address, int>, from: Address, amount: int): map<Address, int> {
    var remaining := SaturatingSub(Lookup(entitlements, from), amount);
    if from !in entitlements then entitlements
    else if remaining == 0 then entitlements - {from}
    else entitlements[from := remaining]
  }

  /** What a redemption that passes its checks leaves. */
  function Paid(inv: Invoice, host: Host, from: Address, amount: int): Outcome {
    if !InI128(inv.supply - amount) then Err(Trap)
    else
      var paid := inv.(
        balances := Credit(inv.balances, from, -amount),
        supply := inv.supply - amount,
        entitlements := Lowered(inv.entitlements, from, amount),
        dust := if inv.dust.Some? then Some(SaturatingSub(inv.dust.value, amount)) else None);
      Ok(if paid.supply == 0 then Transition(paid, host, Redeemed) else paid)
  }

  function Redeem(inv: Invoice, host: Host, paused: bool, from: Address, amount: int): Outcome {
    if paused then Err(LifecyclePaused)
    else if amount <= 0 then Err(UnderSettlement)
    else if !IsSettled(inv.status) then Err(NotSettled)
    else if !host.decide(from, from, amount).Allow? then Err(Denied(host.decide(from, from, amount)))
    else if Lookup(inv.balances, from) < amount then Err(InsufficientBalance)
    else if amount > RedeemCap(inv, from) then Err(OverSettlement)
    else Paid(inv, host, from, amount)
  }

  /** The part that `burn` and `burn_from` share. */
  function BurnMove(inv: Invoice, host: Host, from: Address, amount: int): Outcome {
    if Lookup(inv.balances, from) < amount then Err(InsufficientBalance)
    else if !InI128(Lookup(inv.balances, from) - amount) || !InI128(inv.supply - amount) then Err(Trap)
    else
      var burnt := inv.(balances := Credit(inv.balances, from, -amount), supply := inv.supply - amount);
      Ok(if burnt.supply == 0 && IsSettled(inv.status) then Transition(burnt, host, Redeemed) else burnt)
  }

  function Burn(inv: Invoice, host: Host, from: Address, amount: int): Outcome {
    if !host.decide(from, from, amount).Allow? then Err(Denied(host.decide(from, from, amount)))
    else BurnMove(inv, host, from, amount)
  }

  function ReadAllowance(inv: Invoice, from: Address, spender: Address): Allowance {
    if (from, spender) in inv.allowances then inv.allowances[(from, spender)] else Allowance(0, 0)
  }

  function Spend(inv: Invoice, from: Address, spender: Address, amount: int): Invoice {
    var a := ReadAllowance(inv, from, spender);
    inv.(allowances := inv.allowances[(from, spender) := a.(amount := a.amount - amount)])
  }

  function BurnFrom(inv: Invoice, host: Host, spender: Address, from: Address, amount: int): Outcome {
    if !host.decide(from, from, amount).Allow? then Err(Denied(host.decide(from, from, amount)))
    else if ReadAllowance(inv, from, spender).amount < amount then Err(InsufficientAllowance)
    else if ReadAllowance(inv, from, spender).expiration < host.ledger then Err(AllowanceExpired)
    else if !InI128(ReadAllowance(inv, from, spender).amount - amount) then Err(Trap)
    else BurnMove(Spend(inv, from, spender, amount), host, from, amount)
  }

  function Approve(inv: Invoice, from: Address, spender: Address, amount: int, expiration: nat): Outcome {
    if amount < 0 then Err(NegativeAmount)
    else Ok(inv.(allowances := inv.allowances[(from, spender) := Allowance(amount, expiration)]))
  }

  // ---- Transfers -------------------------------------------------------------------

  predicate IsAsciiWhitespace(c: char) {
    c == ' ' || c == '\t' || c == '\n' || c == '\r' || c as int == 0x0C
  }

  /** The check on the invoice id, read through a 256-byte buffer. */
  function CheckReference(id: string): Option<InvoiceError> {
    if id == "" then Some(InvalidMetadata)
    else if |id| > 256 then Some(Trap)
    else if forall c :: c in id ==> IsAsciiWhitespace(c) then Some(InvalidMetadata)
    else None
  }

  /** The checks that `transfer` and `transfer_from` make before they touch state. */
  function CheckTransfer(inv: Invoice, host: Host, id: string, from: Address, to: Address,
                         amount: int): Option<InvoiceError> {
    if CheckReference(id).Some? then CheckReference(id)
    else if inv.status.FullySettled? || inv.status.Redeemed? then Some(AlreadySettled)
    else if inv.status.Created? then Some(InvalidLifecycleTransition)
    else if inv.meta.None? then Some(Trap)
    else if host.now > inv.meta.value.dueDate then Some(PastDueDate)
    else if amount < 0 then Some(NegativeAmount)
    else if !host.kycApproved(from) || !host.kycApproved(to) then Some(KycNotApproved)
    else if !host.decide(from, to, amount).Allow? then Some(Denied(host.decide(from, to, amount)))
    else None
  }

  predicate FeeApplies(meta: Meta) {
    meta.feeBps > 0 && meta.feeRecipient.Some?
  }

  /** Basis points of a non-negative amount, rounded down. */
  function Fee(meta: Meta, amount: int): int {
    if FeeApplies(meta) then amount * meta.feeBps / 10_000 else 0
  }

  /** In `PartiallySettled`, a sender's cap is fixed before its balance changes, and never raised again. */
  function Snapshot(inv: Invoice, from: Address): map<Address, int> {
    if inv.status.PartiallySettled? && inv.supply > 0 && inv.settlement > 0 then
      var computed := WrapI128(MulDiv(Lookup(inv.balances, from), inv.settlement, inv.supply));
      inv.entitlements[from := if from in inv.entitlements then Min(inv.entitlements[from], computed) else computed]
    else inv.entitlements
  }

  /** Snapshot, debit, credit and fee: each balance is read again after the writes before it. */
  function Move(inv: Invoice, host: Host, exempt: bool, from: Address, to: Address, amount: int): Outcome
    requires inv.meta.Some?
  {
    var meta := inv.meta.value;
    if FeeApplies(meta) && !InI128(amount * meta.feeBps) then Err(Trap)
    else
      var fee := Fee(meta, amount);
      if Lookup(inv.balances, from) < amount then Err(InsufficientBalance)
      else
        var debited := Credit(inv.balances, from, -amount);
        if !InI128(Lookup(debited, to) + (amount - fee)) then Err(Trap)
        else
          var credited := Credit(debited, to, amount - fee);
          if fee <= 0 then Ok(inv.(balances := credited, entitlements := Snapshot(inv, from)))
          else
            var recipient := meta.feeRecipient.value;
            var decision := host.decide(from, recipient, fee);
            if !exempt && !decision.Allow? then Err(Denied(decision))
            else if !InI128(Lookup(credited, recipient) + fee) then Err(Trap)
            else Ok(inv.(balances := Credit(credited, recipient, fee), entitlements := Snapshot(inv, from)))
  }

  function Transfer(inv: Invoice, host: Host, exempt: bool, id: string, from: Address, to: Address,
                    amount: int): Outcome {
    var failure := CheckTransfer(inv, host, id, from, to, amount);
    if failure.Some? then Err(failure.value) else Move(inv, host, exempt, from, to, amount)
  }

  function TransferFrom(inv: Invoice, host: Host, exempt: bool, id: string,
                        spender: Address, from: Address, to: Address, amount: int): Outcome {
    var failure := CheckTransfer(inv, host, id, from, to, amount);
    if failure.Some? then Err(failure.value)
    else if ReadAllowance(inv, from, spender).expiration < host.ledger then Err(AllowanceExpired)
    else if ReadAllowance(inv, from, spender).amount < amount then Err(InsufficientAllowance)
    else if !InI128(ReadAllowance(inv, from, spender).amount - amount) then Err(Trap)
    else Move(Spend(inv, from, spender, amount), host, exempt, from, to, amount)
  }

  // ---- Dispatch and runs --------------------------------------------------------------

  datatype Op =
    | OpCreate(meta: Meta)
    | OpUpdateMeta(meta: Meta)
    | OpAppendJournal(host: Host, tag: string)
    | OpIssue(host: Host, to: Address, amount: int)
    | OpSettle(host: Host)
    | OpPartialSettle(host: Host, amount: int)
    | OpRedeem(host: Host, from: Address, amount: int)
    | OpBurn(host: Host, from: Address, amount: int)
    | OpBurnFrom(host: Host, spender: Address, from: Address, amount: int)
    | OpTransfer(host: Host, from: Address, to: Address, amount: int)
    | OpTransferFrom(host: Host, spender: Address, from: Address, to: Address, amount: int)
    | OpApprove(from: Address, spender: Address, amount: int, expiration: nat)

  function Apply(inv: Invoice, id: string, paused: bool, exempt: bool, op: Op): Outcome {
    match op
    case OpCreate(meta) => Create(inv, meta)
    case OpUpdateMeta(meta) => UpdateMeta(inv, meta)
    case OpAppendJournal(host, tag) => AppendJournal(inv, host, tag)
    case OpIssue(host, to, amount) => Issue(inv, host, to, amount)
    case OpSettle(host) => Settle(inv, host, paused)
    case OpPartialSettle(host, amount) => PartialSettle(inv, host, paused, amount)
    case OpRedeem(host, from, amount) => Redeem(inv, host, paused, from, amount)
    case OpBurn(host, from, amount) => Burn(inv, host, from, amount)
    case OpBurnFrom(host, spender, from, amount) => BurnFrom(inv, host, spender, from, amount)
    case OpTransfer(host, from, to, amount) => Transfer(inv, host, exempt, id, from, to, amount)
    case OpTransferFrom(host, spender, from, to, amount) =>
      TransferFrom(inv, host, exempt, id, spender, from, to, amount)
    case OpApprove(from, spender, amount, expiration) => Approve(inv, from, spender, amount, expiration)
  }

  datatype Contract = Contract(invoices: map<string, Invoice>, list: seq<string>, paused: bool, feeExempt: bool)

  const EMPTY := Contract(map[], [], false, false)

  datatype Call =
    | Single(id: string, op: Op)
    | BatchSettle(host: Host, items: seq<(string, int)>)
    | SetPaused(paused: bool)
    | SetFeeExempt(exempt: bool)

  function Get(c: Contract, id: string): Invoice {
    if id in c.invoices then c.invoices[id] else ABSENT
  }

  /** The id under which a call is filed: creation uses the id in its metadata. */
  function Target(id: string, op: Op): string {
    if op.OpCreate? then op.meta.invoiceId else id
  }

  function ApplySingle(c: Contract, id: string, op: Op): Result<Contract, InvoiceError> {
    var key := Target(id, op);
    match Apply(Get(c, key), key, c.paused, c.feeExempt, op)
    case Err(e) => Err(e)
    case Ok(inv) => Ok(c.(invoices := c.invoices[key := inv], list := if op.OpCreate? then c.list + [key] else c.list))
  }

  /** The non-panicking form used by the batch: an error code instead of a panic. */
  function TryPartialSettle(inv: Invoice, host: Host, paused: bool, amount: int): (Option<InvoiceError>, Invoice) {
    if paused then (Some(LifecyclePaused), inv)
    else if amount <= 0 then (Some(UnderSettlement), inv)
    else if inv.meta.None? then (Some(InvoiceNotFound), inv)
    else if amount > inv.meta.value.faceValue then (Some(OverSettlement), inv)
    else if !(inv.status.Created? || inv.status.Issued?) then (Some(AlreadySettled), inv)
    else (None, PartiallySettle(inv, host, amount))
  }

  const BATCH_CAP := 10

  /** The batch over a prefix of the items: the last item is tried in the state that the earlier ones left. */
  function BatchState(c: Contract, host: Host, items: seq<(string, int)>): Contract {
    if items == [] then c
    else
      var before := BatchState(c, host, items[..|items| - 1]);
      var (id, amount) := items[|items| - 1];
      var (error, inv) := TryPartialSettle(Get(before, id), host, c.paused, amount);
      if error.Some? then before else before.(invoices := before.invoices[id := inv])
  }

  function Effective(items: seq<(string, int)>): seq<(string, int)> {
    items[..Min(|items|, BATCH_CAP)]
  }

  function ApplyCall(c: Contract, call: Call): Result<Contract, InvoiceError> {
    match call
    case Single(id, op) => ApplySingle(c, id, op)
    case BatchSettle(host, items) => Ok(BatchState(c, host, Effective(items)))
    case SetPaused(paused) => Ok(c.(paused := paused))
    case SetFeeExempt(exempt) => Ok(c.(feeExempt := exempt))
  }

  /** A failed call is rolled back. */
  function Next(c: Contract, call: Call): Contract {
    match ApplyCall(c, call)
    case Ok(after) => after
    case Err(_) => c
  }

  function Run(c: Contract, calls: seq<Call>): Contract
    decreases |calls|
  {
    if calls == [] then c else Next(Run(c, calls[..|calls| - 1]), calls[|calls| - 1])
  }
}
