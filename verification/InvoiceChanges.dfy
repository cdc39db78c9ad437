/** What a successful call of the invoice token changes: for every address and every field, and along runs where tokens
    come from. Fees and shares are stated without division. */
module InvoiceChanges {
  import opened Prelude
  import opened InvoiceModel
  import opened InvoiceProofs
  import opened Checklists
  import opened InvoiceSettlement
  import opened InvoiceAnswers
  import Entitlements = InvoiceEntitlements

  // ---- The fee of a transfer --------------------------------------------------------------

  /** What sender, recipient and fee recipient get when they are three addresses: the fee recipient gains the fee, the
      recipient the rest, and the sender loses the amount. */
  lemma TransferPays(inv: Invoice, host: Host, exempt: bool, id: string, from: Address, to: Address, amount: int)
    requires Transfer(inv, host, exempt, id, from, to, amount).Ok?
    ensures var after := Transfer(inv, host, exempt, id, from, to, amount).value;
            var meta := inv.meta.value;
            && (meta.feeBps > 0 && meta.feeRecipient.Some? && meta.feeRecipient.value !in {from, to} && from != to ==>
                  var gained := Lookup(after.balances, meta.feeRecipient.value)
                                - Lookup(inv.balances, meta.feeRecipient.value);
                  && 10_000 * gained <= amount * meta.feeBps < 10_000 * (gained + 1)
                  && Lookup(after.balances, to) == Lookup(inv.balances, to) + amount - gained
                  && Lookup(after.balances, from) == Lookup(inv.balances, from) - amount)
            && ((meta.feeBps == 0 || meta.feeRecipient.None?) && from != to ==>
                  && Lookup(after.balances, to) == Lookup(inv.balances, to) + amount
                  && Lookup(after.balances, from) == Lookup(inv.balances, from) - amount)
  {
    hide CheckReference, Move, Fee;
    var meta := inv.meta.value;
    TransferMoves(inv, host, exempt, id, from, to, amount);
    FeeSign(meta, amount);
    if meta.feeRecipient.Some? {
      Entitlements.MovedBalances(inv, host, exempt, from, to, amount, meta.feeRecipient.value);
    }
    Entitlements.MovedBalances(inv, host, exempt, from, to, amount, from);
    Entitlements.MovedBalances(inv, host, exempt, from, to, amount, to);
    FeeExactly(meta, amount, Fee(meta, amount));
  }

  lemma TransferMoves(inv: Invoice, host: Host, exempt: bool, id: string, from: Address, to: Address, amount: int)
    requires Transfer(inv, host, exempt, id, from, to, amount).Ok?
    ensures inv.meta.Some? && amount >= 0
    ensures Transfer(inv, host, exempt, id, from, to, amount) == Move(inv, host, exempt, from, to, amount)
  {
    hide CheckReference, Move;
  }

  lemma FeeSign(meta: Meta, amount: int)
    requires amount >= 0
    ensures Fee(meta, amount) >= 0
  {
  }

  /** Two and a half percent of ten thousand. */
  lemma FeeOfTenThousand(a: Address, b: Address, r: Address)
    requires a != b && a != r && b != r
    ensures var meta := Meta("INV-1", 10_000, 0, 0, 250, Some(r), true, true);
            var inv := ABSENT.(meta := Some(meta), status := Issued, balances := map[a := 10_000], supply := 10_000);
            Transfer(inv, OPEN_HOST, false, "INV-1", a, b, 10_000)
            == Ok(inv.(balances := map[a := 0, b := 9_750, r := 250]))
  {
    var meta := Meta("INV-1", 10_000, 0, 0, 250, Some(r), true, true);
    var inv := ABSENT.(meta := Some(meta), status := Issued, balances := map[a := 10_000], supply := 10_000);
    Entitlements.ReferenceOk();
    assert CheckTransfer(inv, OPEN_HOST, "INV-1", a, b, 10_000).None? by {
      hide CheckReference;
    }
    assert Fee(meta, 10_000) == 250;
    hide CheckReference;
    assert Credit(Credit(Credit(inv.balances, a, -10_000), b, 9_750), r, 250) == map[a := 0, b := 9_750, r := 250];
  }

  // ---- What a success changes ----------------------------------------------------------------

  /** What a successful call adds to the balance of an address. */
  function Gain(inv: Invoice, op: Op, fee: int, a: Address): int {
    match op
    case OpIssue(_, to, amount) => if a == to then amount else 0
    case OpRedeem(_, from, amount) => if a == from then -amount else 0
    case OpBurn(_, from, amount) => if a == from then -amount else 0
    case OpBurnFrom(_, _, from, amount) => if a == from then -amount else 0
    case OpTransfer(_, from, to, amount) => Shift(inv, from, to, amount, fee, a)
    case OpTransferFrom(_, _, from, to, amount) => Shift(inv, from, to, amount, fee, a)
    case _ => 0
  }

  function Shift(inv: Invoice, from: Address, to: Address, amount: int, fee: int, a: Address): int {
    (if a == to then amount - fee else 0)
    + (if inv.meta.Some? && inv.meta.value.feeRecipient == Some(a) then fee else 0)
    - (if a == from then amount else 0)
  }

  /** What it adds to the supply; creation is left to `Creates`. */
  function Mints(op: Op): int {
    match op
    case OpIssue(_, _, amount) => amount
    case OpRedeem(_, _, amount) => -amount
    case OpBurn(_, _, amount) => -amount
    case OpBurnFrom(_, _, _, amount) => -amount
    case _ => 0
  }

  /** The status that it writes and records, if any. */
  function Moves(inv: Invoice, op: Op): Option<Status> {
    var empties := inv.supply + Mints(op) == 0;
    match op
    case OpIssue(_, _, _) => if inv.status == Created then Some(Issued) else None
    case OpSettle(_) => Some(FullySettled)
    case OpPartialSettle(_, amount) =>
      Some(if inv.meta.Some? && amount == inv.meta.value.faceValue then FullySettled else PartiallySettled)
    case OpRedeem(_, _, _) => if empties then Some(Redeemed) else None
    case OpBurn(_, _, _) => if empties && inv.status in {PartiallySettled, FullySettled} then Some(Redeemed) else None
    case OpBurnFrom(_, _, _, _) =>
      if empties && inv.status in {PartiallySettled, FullySettled} then Some(Redeemed) else None
    case _ => None
  }

  function Word(s: Status): string {
    match s
    case Created => "created"
    case Issued => "issued"
    case PartiallySettled => "partially_settled"
    case FullySettled => "fully_settled"
    case Redeemed => "redeemed"
  }

  function HostOf(op: Op): Option<Host> {
    match op
    case OpAppendJournal(host, _) => Some(host)
    case OpIssue(host, _, _) => Some(host)
    case OpSettle(host) => Some(host)
    case OpPartialSettle(host, _) => Some(host)
    case OpRedeem(host, _, _) => Some(host)
    case OpBurn(host, _, _) => Some(host)
    case OpBurnFrom(host, _, _, _) => Some(host)
    case _ => None
  }

  /** The entries that it appends to the journal. */
  function Entries(inv: Invoice, op: Op): seq<JournalEntry> {
    var moves := Moves(inv, op);
    if HostOf(op).None? then []
    else
      var host := HostOf(op).value;
      if moves.Some? then [JournalEntry(Word(moves.value), inv.status, moves.value, host.ledger, host.now)]
      else if op.OpAppendJournal? then [JournalEntry(op.tag, inv.status, inv.status, host.ledger, host.now)]
      else []
  }

  /** What it makes the settlement, if it does. */
  function Settles(inv: Invoice, op: Op): Option<int> {
    match op
    case OpSettle(_) => if inv.meta.Some? then Some(inv.meta.value.faceValue) else None
    case OpPartialSettle(_, amount) => Some(amount)
    case _ => None
  }

  /** What an owner still grants a spender. */
  function GrantAfter(inv: Invoice, op: Op, owner: Address, spender: Address): (int, nat) {
    var granted, until := Granted(inv, owner, spender), GrantedUntil(inv, owner, spender);
    match op
    case OpApprove(from, to, amount, expiration) =>
      if (owner, spender) == (from, to) then (amount, expiration) else (granted, until)
    case OpBurnFrom(_, user, from, amount) =>
      (if (owner, spender) == (from, user) then granted - amount else granted, until)
    case OpTransferFrom(_, user, from, _, amount) =>
      (if (owner, spender) == (from, user) then granted - amount else granted, until)
    case _ => (granted, until)
  }

  /** The fields after a successful call other than creation, entitlements and dust aside. */
  ghost predicate Changed(inv: Invoice, op: Op, fee: int, after: Invoice) {
    && (forall a :: Lookup(after.balances, a) == Lookup(inv.balances, a) + Gain(inv, op, fee, a))
    && after.supply == inv.supply + Mints(op)
    && after.meta == (if op.OpUpdateMeta? then Some(op.meta) else inv.meta)
    && after.status == (if Moves(inv, op).Some? then Moves(inv, op).value else inv.status)
    && after.journal == inv.journal + Entries(inv, op)
    && after.settlement == (if Settles(inv, op).Some? then Settles(inv, op).value else inv.settlement)
    && forall owner, spender ::
         (Granted(after, owner, spender), GrantedUntil(after, owner, spender)) == GrantAfter(inv, op, owner, spender)
  }

  lemma SettlementChanges(inv: Invoice, id: string, paused: bool, exempt: bool, op: Op, fee: int)
    requires Apply(inv, id, paused, exempt, op).Ok?
    requires op.OpUpdateMeta? || op.OpAppendJournal? || op.OpSettle? || op.OpPartialSettle? || op.OpApprove?
    ensures Changed(inv, op, fee, Apply(inv, id, paused, exempt, op).value)
  {
  }

  lemma IssueChanges(inv: Invoice, id: string, paused: bool, exempt: bool, op: Op, fee: int)
    requires Apply(inv, id, paused, exempt, op).Ok? && op.OpIssue?
    ensures Changed(inv, op, fee, Apply(inv, id, paused, exempt, op).value)
  {
  }

  lemma RedeemChanges(inv: Invoice, id: string, paused: bool, exempt: bool, op: Op, fee: int)
    requires Apply(inv, id, paused, exempt, op).Ok? && op.OpRedeem?
    ensures Changed(inv, op, fee, Apply(inv, id, paused, exempt, op).value)
  {
    hide RedeemCap, Lowered, SaturatingSub;
  }

  lemma BurnMoves(inv: Invoice, host: Host, from: Address, amount: int)
    requires BurnMove(inv, host, from, amount).Ok?
    ensures var after := BurnMove(inv, host, from, amount).value;
            var moves := Moves(inv, OpBurn(host, from, amount));
            && (forall a :: Lookup(after.balances, a) == Lookup(inv.balances, a) - (if a == from then amount else 0))
            && after == inv.(balances := after.balances, supply := inv.supply - amount, status := after.status,
                             journal := inv.journal + Entries(inv, OpBurn(host, from, amount)))
            && after.status == (if moves.Some? then moves.value else inv.status)
  {
  }

  lemma BurnChanges(inv: Invoice, id: string, paused: bool, exempt: bool, op: Op, fee: int)
    requires Apply(inv, id, paused, exempt, op).Ok? && (op.OpBurn? || op.OpBurnFrom?)
    ensures Changed(inv, op, fee, Apply(inv, id, paused, exempt, op).value)
  {
    hide BurnMove, Denied;
    match op
    case OpBurn(host, from, amount) => BurnMoves(inv, host, from, amount);
    case OpBurnFrom(host, spender, from, amount) => BurnMoves(Spend(inv, from, spender, amount), host, from, amount);
  }

  lemma TransferChanges(inv: Invoice, id: string, paused: bool, exempt: bool, op: Op, fee: int)
    requires Apply(inv, id, paused, exempt, op).Ok? && (op.OpTransfer? || op.OpTransferFrom?) && FeeOf(inv, op, fee)
    ensures Changed(inv, op, fee, Apply(inv, id, paused, exempt, op).value)
  {
    hide CheckReference, Move, Fee, IsFee, Snapshot;
    var host, from, to, amount := op.host, op.from, op.to, op.amount;
    var spent := if op.OpTransfer? then inv else Spend(inv, from, op.spender, amount);
    FeeExactly(inv.meta.value, amount, fee);
    FeeSign(inv.meta.value, amount);
    Entitlements.FeeHasRecipient(inv.meta.value, amount);
    var after := Move(spent, host, exempt, from, to, amount).value;
    Entitlements.MovedBalances(spent, host, exempt, from, to, amount, from);
    assert Apply(inv, id, paused, exempt, op) == Ok(after);
    forall a
      ensures Lookup(after.balances, a) == Lookup(inv.balances, a) + Shift(inv, from, to, amount, fee, a)
    {
      Entitlements.MovedBalances(spent, host, exempt, from, to, amount, a);
    }
    assert Entries(inv, op) == [] && inv.journal + [] == inv.journal;
  }

  /** A successful call other than creation changes every balance and allowance, the supply, the metadata, the status,
      the journal and the settlement by exactly this. */
  lemma SuccessChanges(inv: Invoice, id: string, paused: bool, exempt: bool, op: Op, fee: int)
    requires Apply(inv, id, paused, exempt, op).Ok? && !op.OpCreate? && FeeOf(inv, op, fee)
    ensures Changed(inv, op, fee, Apply(inv, id, paused, exempt, op).value)
  {
    hide Apply, Changed, FeeOf;
    match op
    case OpIssue(_, _, _) => IssueChanges(inv, id, paused, exempt, op, fee);
    case OpRedeem(_, _, _) => RedeemChanges(inv, id, paused, exempt, op, fee);
    case OpBurn(_, _, _) => BurnChanges(inv, id, paused, exempt, op, fee);
    case OpBurnFrom(_, _, _, _) => BurnChanges(inv, id, paused, exempt, op, fee);
    case OpTransfer(_, _, _, _) => TransferChanges(inv, id, paused, exempt, op, fee);
    case OpTransferFrom(_, _, _, _, _) => TransferChanges(inv, id, paused, exempt, op, fee);
    case _ => SettlementChanges(inv, id, paused, exempt, op, fee);
  }

  /** Creation stores the metadata and starts supply, status and journal over; balances and allowances stay. */
  lemma Creates(inv: Invoice, id: string, paused: bool, exempt: bool, meta: Meta)
    requires Apply(inv, id, paused, exempt, OpCreate(meta)).Ok?
    ensures Apply(inv, id, paused, exempt, OpCreate(meta)).value
            == Invoice(Some(meta), inv.balances, inv.allowances, 0, Created, inv.settlement, [], inv.entitlements,
                       inv.dust)
    ensures Get(Next(EMPTY, Single(id, OpCreate(meta))), meta.invoiceId)
            == Invoice(Some(meta), map[], map[], 0, Created, 0, [], map[], None)
  {
  }

  // ---- Entitlements and dust ---------------------------------------------------------------------

  /** The entitlement that a transfer computes for a balance: the share, rounded down; zero where the 128-bit product
      overflows, and 2^128 less where the share does not fit. */
  predicate IsShare(bal: int, settlement: int, supply: int, share: int) {
    if bal * settlement >= 340282366920938463463374607431768211456 then share == 0
    else
      var q := if share < 0 then share + 340282366920938463463374607431768211456 else share;
      Fits(share) && q * supply <= bal * settlement < (q + 1) * supply
  }

  /** The entry after a successful call: a transfer between sender and recipient fixes or lowers the sender's while the
      invoice is partially settled, a redemption uses it up. */
  ghost predicate EntryChanged(inv: Invoice, op: Op, after: Invoice, a: Address) {
    if (op.OpTransfer? || op.OpTransferFrom?) && a == op.from && inv.status == PartiallySettled && inv.supply >= 1
       && inv.settlement >= 1 then
      && a in after.entitlements
      && exists share ::
           && IsShare(Lookup(inv.balances, a), inv.settlement, inv.supply, share)
           && after.entitlements[a]
              == if a in inv.entitlements && inv.entitlements[a] < share then inv.entitlements[a] else share
    else if op.OpRedeem? && a == op.from && a in inv.entitlements then
      && (a in after.entitlements <==> inv.entitlements[a] != op.amount)
      && (a in after.entitlements ==> after.entitlements[a] == inv.entitlements[a] - op.amount)
    else
      && (a in after.entitlements <==> a in inv.entitlements)
      && (a in inv.entitlements ==> after.entitlements[a] == inv.entitlements[a])
  }

  lemma ComputedShare(bal: int, settlement: int, supply: int)
    requires bal >= 0 && settlement >= 1 && supply >= 1
    ensures IsShare(bal, settlement, supply, WrapI128(MulDiv(bal, settlement, supply)))
  {
    var product := bal * settlement;
    assert AsU128(bal) * AsU128(settlement) == product;
    assert product >= 0;
    var q := product / supply;
    Quotient(product, supply, q);
    Quotient(product, supply, q + 1);
    Quotient(product, supply, 340282366920938463463374607431768211456);
  }

  lemma SnapshotChanges(inv: Invoice, from: Address, op: Op, after: Invoice, a: Address)
    requires (op.OpTransfer? || op.OpTransferFrom?) && op.from == from && Lookup(inv.balances, from) >= 0
    requires after.entitlements == Snapshot(inv, from)
    ensures EntryChanged(inv, op, after, a)
  {
    hide MulDiv, WrapI128, IsShare;
    if inv.settlement >= 1 && inv.supply >= 1 {
      ComputedShare(Lookup(inv.balances, from), inv.settlement, inv.supply);
    }
  }

  /** The entry of every address after a successful call. */
  lemma EntryChanges(inv: Invoice, id: string, paused: bool, exempt: bool, op: Op, a: Address)
    requires Apply(inv, id, paused, exempt, op).Ok?
    requires a in inv.entitlements ==> Fits(inv.entitlements[a])
    ensures EntryChanged(inv, op, Apply(inv, id, paused, exempt, op).value, a)
  {
    hide CheckReference, Move, Fee, Snapshot, MulDiv, IsShare, BurnMove, CheckMeta;
    match op
    case OpTransfer(host, from, to, amount) =>
      FeeSign(inv.meta.value, amount);
      Entitlements.MovedBalances(inv, host, exempt, from, to, amount, from);
      SendersBalance(inv, host, exempt, from, to, amount);
      SnapshotChanges(inv, from, op, Apply(inv, id, paused, exempt, op).value, a);
    case OpTransferFrom(host, spender, from, to, amount) =>
      FeeSign(inv.meta.value, amount);
      var spent := Spend(inv, from, spender, amount);
      Entitlements.MovedBalances(spent, host, exempt, from, to, amount, from);
      SendersBalance(spent, host, exempt, from, to, amount);
      SameSnapshot(inv, spent, from);
      SnapshotChanges(inv, from, op, Apply(inv, id, paused, exempt, op).value, a);
    case OpRedeem(_, from, amount) =>
    case OpBurn(host, from, amount) => BurnMoves(inv, host, from, amount);
    case OpBurnFrom(host, spender, from, amount) => BurnMoves(Spend(inv, from, spender, amount), host, from, amount);
    case _ =>
  }

  lemma SendersBalance(inv: Invoice, host: Host, exempt: bool, from: Address, to: Address, amount: int)
    requires inv.meta.Some? && Move(inv, host, exempt, from, to, amount).Ok?
    ensures Lookup(inv.balances, from) >= amount
  {
    hide Snapshot, Fee;
  }

  lemma SameSnapshot(inv: Invoice, spent: Invoice, from: Address)
    requires spent == inv.(allowances := spent.allowances)
    ensures Snapshot(spent, from) == Snapshot(inv, from)
  {
    hide MulDiv;
  }

  function Clamped(x: int): int {
    if x < -170141183460469231731687303715884105728 then -170141183460469231731687303715884105728
    else if x > 170141183460469231731687303715884105727 then 170141183460469231731687303715884105727
    else x
  }

  /** A settlement write makes the dust what was settled, a redemption lowers it, and nothing else touches it. */
  lemma DustChanges(inv: Invoice, id: string, paused: bool, exempt: bool, op: Op)
    requires Apply(inv, id, paused, exempt, op).Ok?
    ensures var after := Apply(inv, id, paused, exempt, op).value;
            after.dust == if Settles(inv, op).Some? then Settles(inv, op)
                          else if op.OpRedeem? && inv.dust.Some? then Some(Clamped(inv.dust.value - op.amount))
                          else inv.dust
  {
    hide CheckReference, Move, Fee, Snapshot, BurnMove, CheckMeta, RedeemCap, Lowered;
    match op
    case OpTransfer(host, from, to, amount) =>
      FeeSign(inv.meta.value, amount);
      Entitlements.MovedBalances(inv, host, exempt, from, to, amount, from);
    case OpTransferFrom(host, spender, from, to, amount) =>
      FeeSign(inv.meta.value, amount);
      Entitlements.MovedBalances(Spend(inv, from, spender, amount), host, exempt, from, to, amount, from);
    case OpBurn(host, from, amount) => BurnMoves(inv, host, from, amount);
    case OpBurnFrom(host, spender, from, amount) => BurnMoves(Spend(inv, from, spender, amount), host, from, amount);
    case _ =>
  }

  // ---- Where tokens come from ----------------------------------------------------------------------

  /** The call gives an address tokens, and the registry or compliance said yes to exactly that: to the issue, to the
      transfer from its sender to its recipient and, unless exempt, to its fee, or to a burn of less than nothing. */
  predicate GivenTo(inv: Invoice, exempt: bool, op: Op, fee: int, a: Address) {
    match op
    case OpIssue(host, to, amount) => a == to && amount > 0 && host.kycApproved(a)
    case OpBurn(host, from, amount) => a == from && amount < 0 && host.decide(a, a, amount).Allow?
    case OpBurnFrom(host, _, from, amount) => a == from && amount < 0 && host.decide(a, a, amount).Allow?
    case OpTransfer(host, from, to, amount) => PaidTo(inv, exempt, host, from, to, amount, fee, a)
    case OpTransferFrom(host, _, from, to, amount) => PaidTo(inv, exempt, host, from, to, amount, fee, a)
    case _ => false
  }

  predicate PaidTo(inv: Invoice, exempt: bool, host: Host, from: Address, to: Address, amount: int, fee: int,
                   a: Address) {
    && a != from && amount > 0 && host.kycApproved(from) && host.kycApproved(to) && host.decide(from, to, amount).Allow?
    && (a == to || (inv.meta.Some? && inv.meta.value.feeRecipient == Some(a) && 1 <= fee <= amount
                    && (exempt || host.decide(from, a, fee).Allow?)))
  }

  lemma FeeAsked(inv: Invoice, host: Host, exempt: bool, from: Address, to: Address, amount: int)
    requires inv.meta.Some? && Move(inv, host, exempt, from, to, amount).Ok? && Fee(inv.meta.value, amount) > 0
    ensures inv.meta.value.feeRecipient.Some?
    ensures exempt || host.decide(from, inv.meta.value.feeRecipient.value, Fee(inv.meta.value, amount)).Allow?
  {
    Entitlements.FeeHasRecipient(inv.meta.value, amount);
    hide Snapshot, Fee;
  }

  lemma RaisedOnlyIfAllowed(inv: Invoice, id: string, paused: bool, exempt: bool, op: Op, fee: int, a: Address)
    requires Basic(inv) && FeeOf(inv, op, fee) && Apply(inv, id, paused, exempt, op).Ok?
    requires Lookup(Apply(inv, id, paused, exempt, op).value.balances, a) > Lookup(inv.balances, a)
    ensures GivenTo(inv, exempt, op, fee, a)
  {
    hide JournalOk, Fee, IsFee, CheckReference, CheckMeta, Move, RedeemCap, BurnMove, Lowered, Entries, Moves;
    if op.OpCreate? {
      Creates(inv, id, paused, exempt, op.meta);
    } else {
      SuccessChanges(inv, id, paused, exempt, op, fee);
      if op.OpTransfer? || op.OpTransferFrom? {
        var spent := if op.OpTransfer? then inv else Spend(inv, op.from, op.spender, op.amount);
        FeeExactly(inv.meta.value, op.amount, fee);
        FeeBounds(inv.meta.value, op.amount);
        if fee > 0 {
          FeeAsked(spent, op.host, exempt, op.from, op.to, op.amount);
        }
      }
    }
  }

  /** One call of a run gives an address tokens of an invoice. */
  ghost predicate Gives(c: Contract, call: Call, id: string, a: Address) {
    && call.Single? && call.id == id && ApplyCall(c, call).Ok?
    && exists fee :: FeeOf(Get(c, id), call.op, fee) && GivenTo(Get(c, id), c.feeExempt, call.op, fee, a)
  }

  lemma SomeFee(inv: Invoice, op: Op) returns (fee: int)
    ensures FeeOf(inv, op, fee)
  {
    fee := 0;
    if inv.meta.Some? && (op.OpTransfer? || op.OpTransferFrom?) {
      fee := Fee(inv.meta.value, op.amount);
      FeeExactly(inv.meta.value, op.amount, fee);
    }
  }

  lemma NextGives(c: Contract, call: Call, id: string, a: Address)
    requires Basic(Get(c, id)) && Lookup(Get(Next(c, call), id).balances, a) > Lookup(Get(c, id).balances, a)
    ensures Gives(c, call, id, a)
  {
    hide Apply, Basic, GivenTo, FeeOf, BatchState;
    match call
    case Single(name, op) =>
      var fee := SomeFee(Get(c, id), op);
      RaisedOnlyIfAllowed(Get(c, id), id, c.paused, c.feeExempt, op, fee, a);
      if op.OpCreate? {
        NotGiven(Get(c, id), c.feeExempt, op, fee, a);
      }
    case BatchSettle(host, items) =>
      var amount := BatchTouchesOnce(c, host, Effective(items), id);
    case _ =>
  }

  lemma NotGiven(inv: Invoice, exempt: bool, op: Op, fee: int, a: Address)
    requires op.OpCreate?
    ensures !GivenTo(inv, exempt, op, fee, a)
  {
  }

  lemma CallSnoc(calls: seq<Call>, k: nat)
    requires k < |calls|
    ensures Run(EMPTY, calls[..k + 1]) == Next(Run(EMPTY, calls[..k]), calls[k])
  {
    hide Next;
    assert calls[..k + 1][..k] == calls[..k];
  }

  /** If an address has more tokens of an invoice at one moment of a run than at an earlier one, then one of the calls
      between them gave it tokens, and the registry or compliance allowed exactly that. */
  lemma {:induction false} RisesOnlyIfAllowed(calls: seq<Call>, j: nat, k: nat, id: string, a: Address)
    requires j <= k <= |calls|
    requires Lookup(Get(Run(EMPTY, calls[..j]), id).balances, a) < Lookup(Get(Run(EMPTY, calls[..k]), id).balances, a)
    ensures exists i :: j <= i < k && Gives(Run(EMPTY, calls[..i]), calls[i], id, a)
    decreases k
  {
    hide Next, Gives, Run, Basic, Get;
    CallSnoc(calls, k - 1);
    RunBasic(calls[..k - 1], id);
    var before := Run(EMPTY, calls[..k - 1]);
    if Lookup(Get(Next(before, calls[k - 1]), id).balances, a) > Lookup(Get(before, id).balances, a) {
      NextGives(before, calls[k - 1], id, a);
    } else {
      RisesOnlyIfAllowed(calls, j, k - 1, id, a);
    }
  }

  // ---- Batches ----------------------------------------------------------------------------------------

  /** A batch is the partial settlement of its first ten items, one after the other. */
  lemma BatchOfTen(c: Contract, host: Host, items: seq<(string, int)>)
    ensures var first := if |items| <= 10 then items else items[..10];
            Next(c, BatchSettle(host, items)) == Run(c, Singles(host, first))
  {
    hide BatchState, Run;
    BatchIsRunOfSingles(c, host, Effective(items));
    assert items[..|items|] == items;
  }
}
