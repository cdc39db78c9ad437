/** What every entry point of the invoice token checks, and in which order: the answers of all calls as lists of checks,
    with the numbers and the questions put to other contracts written out, and fees and shares without division. */
module InvoiceAnswers {
  import opened Prelude
  import opened Checklists
  import opened InvoiceModel

  // ---- Fees and shares without division ------------------------------------------------

  /** `fee` is what a transfer of an amount owes: so many basis points, rounded down, if there is someone to pay. */
  predicate IsFee(meta: Meta, amount: int, fee: int) {
    if meta.feeBps > 0 && meta.feeRecipient.Some? then 10_000 * fee <= amount * meta.feeBps < 10_000 * (fee + 1)
    else fee == 0
  }

  /** The fee is the one number that is the right one. */
  lemma FeeExactly(meta: Meta, amount: int, fee: int)
    ensures IsFee(meta, amount, fee) <==> fee == Fee(meta, amount)
  {
  }

  /** An amount is at most the share of the settlement that a balance has of the supply, where the 128-bit product of
      balance and settlement and the share fit. */
  predicate WithinShare(bal: int, settlement: int, supply: int, amount: int) {
    && settlement >= 1 && supply >= 1
    && bal * settlement < 340282366920938463463374607431768211456
    && bal * settlement < 170141183460469231731687303715884105728 * supply
    && amount * supply <= bal * settlement
  }

  lemma Quotient(x: int, y: int, q: int)
    requires y > 0 && x >= 0
    ensures q <= x / y <==> q * y <= x
    ensures x / y < q <==> x < q * y
  {
    var d, r := x / y, x % y;
    assert x == d * y + r && 0 <= r < y;
    if q <= d {
      assert q * y <= d * y by { Scaled(q, d, y); }
    } else {
      assert (d + 1) * y <= q * y by { Scaled(d + 1, q, y); }
      assert (d + 1) * y == d * y + y;
    }
  }

  lemma Scaled(a: int, b: int, y: int)
    requires a <= b && y >= 0
    ensures a * y <= b * y
  {
  }

  lemma CapExactly(inv: Invoice, from: Address, amount: int)
    requires 1 <= amount <= Lookup(inv.balances, from)
    ensures amount <= RedeemCap(inv, from) <==>
              if from in inv.entitlements then amount <= inv.entitlements[from]
              else WithinShare(Lookup(inv.balances, from), inv.settlement, inv.supply, amount)
  {
    var bal := Lookup(inv.balances, from);
    if from !in inv.entitlements && inv.settlement > 0 && inv.supply > 0 {
      assert AsU128(bal) * AsU128(inv.settlement) == bal * inv.settlement;
      assert bal * inv.settlement >= 0;
      Quotient(bal * inv.settlement, inv.supply, amount);
      Quotient(bal * inv.settlement, inv.supply, 170141183460469231731687303715884105728);
    }
  }

  // ---- The checks -----------------------------------------------------------------------

  type Checking = seq<Check<InvoiceError>>

  function Asked(answer: Decision): Checking {
    [Check(answer != DenyKyc, KycNotApproved), Check(answer != DenyOther, TransferBlocked)]
  }

  function MetaChecks(meta: Meta): Checking {
    [Check(meta.webhookValid, InvalidWebhook),
     Check(meta.textValid && meta.faceValue >= 1 && meta.discountBps <= 10_000 && meta.feeBps <= 10_000,
           InvalidMetadata)]
  }

  /** An id is not empty, fits a buffer of 256 bytes and is not blank. */
  function IdChecks(id: string): Checking {
    [Check(id != "", InvalidMetadata), Check(|id| <= 256, Trap),
     Check(exists i :: 0 <= i < |id| && id[i] !in [' ', '\t', '\n', '\r', 12 as char], InvalidMetadata)]
  }

  function BurnChecks(inv: Invoice, from: Address, amount: int): Checking {
    var bal := Lookup(inv.balances, from);
    [Check(bal >= amount, InsufficientBalance), Check(Fits(bal - amount), Trap), Check(Fits(inv.supply - amount), Trap)]
  }

  function Granted(inv: Invoice, from: Address, spender: Address): int {
    if (from, spender) in inv.allowances then inv.allowances[(from, spender)].amount else 0
  }

  function GrantedUntil(inv: Invoice, from: Address, spender: Address): nat {
    if (from, spender) in inv.allowances then inv.allowances[(from, spender)].expiration else 0
  }

  function TransferChecks(inv: Invoice, host: Host, id: string, from: Address, to: Address, amount: int): Checking {
    IdChecks(id)
    + ([Check(inv.status !in {FullySettled, Redeemed}, AlreadySettled),
        Check(inv.status != Created, InvalidLifecycleTransition), Check(inv.meta.Some?, Trap)]
       + ([Check(inv.meta.Some? ==> host.now <= inv.meta.value.dueDate, PastDueDate),
           Check(amount >= 0, NegativeAmount),
           Check(host.kycApproved(from) && host.kycApproved(to), KycNotApproved)]
          + Asked(host.decide(from, to, amount))))
  }

  /** The balance of an address once sender and recipient are written. */
  function Between(inv: Invoice, from: Address, to: Address, amount: int, fee: int, a: Address): int {
    Lookup(inv.balances, a) - (if a == from then amount else 0) + (if a == to then amount - fee else 0)
  }

  /** The rest of a transfer; the fee recipient is asked about only if there is a fee and no exemption. */
  function MoveChecks(inv: Invoice, meta: Meta, host: Host, exempt: bool, from: Address, to: Address, amount: int,
                      fee: int): Checking {
    [Check(meta.feeBps > 0 && meta.feeRecipient.Some? ==> Fits(amount * meta.feeBps), Trap),
     Check(Lookup(inv.balances, from) >= amount, InsufficientBalance),
     Check(Fits(Between(inv, from, to, amount, fee, to)), Trap)]
    + if fee >= 1 && meta.feeRecipient.Some? then
        var recipient := meta.feeRecipient.value;
        (if exempt then [] else Asked(host.decide(from, recipient, fee)))
        + [Check(Fits(Between(inv, from, to, amount, fee, recipient) + fee), Trap)]
      else []
  }

  /** Everything an entry point checks, in order. */
  function Checks(inv: Invoice, id: string, paused: bool, exempt: bool, op: Op, fee: int): Checking {
    match op
    case OpCreate(meta) =>
      MetaChecks(meta) + [Check(meta.invoiceId != "", InvalidMetadata), Check(inv.meta.None?, InvoiceAlreadyExists)]
    case OpUpdateMeta(meta) => MetaChecks(meta) + [Check(inv.status in {Created, Issued}, AlreadySettled)]
    case OpAppendJournal(_, tag) => [Check(tag != "", EmptyEventTag), Check(inv.meta.Some?, InvoiceNotFound)]
    case OpIssue(host, to, amount) =>
      [Check(host.kycApproved(to), KycNotApproved), Check(inv.status in {Created, Issued}, AlreadySettled)]
      + [Check(inv.meta.Some?, Trap), Check(Fits(inv.supply + amount), Trap),
         Check(inv.meta.Some? ==> inv.supply + amount <= inv.meta.value.faceValue, OverSettlement),
         Check(Fits(Lookup(inv.balances, to) + amount), Trap)]
    case OpSettle(_) =>
      [Check(!paused, LifecyclePaused), Check(inv.meta.Some?, Trap),
       Check(inv.meta.Some? ==> inv.meta.value.faceValue >= 1, UnderSettlement),
       Check(inv.status !in {FullySettled, Redeemed}, AlreadySettled)]
    case OpPartialSettle(_, amount) =>
      [Check(!paused, LifecyclePaused), Check(amount >= 1, UnderSettlement)]
      + [Check(inv.meta.Some?, Trap), Check(inv.meta.Some? ==> amount <= inv.meta.value.faceValue, OverSettlement),
         Check(inv.status in {Created, Issued}, AlreadySettled)]
    case OpRedeem(host, from, amount) =>
      [Check(!paused, LifecyclePaused), Check(amount >= 1, UnderSettlement),
       Check(inv.status in {PartiallySettled, FullySettled}, NotSettled)]
      + (Asked(host.decide(from, from, amount))
         + [Check(Lookup(inv.balances, from) >= amount, InsufficientBalance),
            Check(if from in inv.entitlements then amount <= inv.entitlements[from]
                  else WithinShare(Lookup(inv.balances, from), inv.settlement, inv.supply, amount), OverSettlement),
            Check(Fits(inv.supply - amount), Trap)])
    case OpBurn(host, from, amount) => Asked(host.decide(from, from, amount)) + BurnChecks(inv, from, amount)
    case OpBurnFrom(host, spender, from, amount) =>
      Asked(host.decide(from, from, amount))
      + ([Check(Granted(inv, from, spender) >= amount, InsufficientAllowance),
          Check(GrantedUntil(inv, from, spender) >= host.ledger, AllowanceExpired),
          Check(Fits(Granted(inv, from, spender) - amount), Trap)]
         + BurnChecks(inv, from, amount))
    case OpTransfer(host, from, to, amount) =>
      TransferChecks(inv, host, id, from, to, amount)
      + if inv.meta.Some? then MoveChecks(inv, inv.meta.value, host, exempt, from, to, amount, fee) else []
    case OpTransferFrom(host, spender, from, to, amount) =>
      TransferChecks(inv, host, id, from, to, amount)
      + ([Check(GrantedUntil(inv, from, spender) >= host.ledger, AllowanceExpired),
          Check(Granted(inv, from, spender) >= amount, InsufficientAllowance),
          Check(Fits(Granted(inv, from, spender) - amount), Trap)]
         + if inv.meta.Some? then MoveChecks(inv, inv.meta.value, host, exempt, from, to, amount, fee) else [])
    case OpApprove(_, _, amount, _) => [Check(amount >= 0, NegativeAmount)]
  }

  /** `fee` is the fee of the transfer, if the call is one. */
  predicate FeeOf(inv: Invoice, op: Op, fee: int) {
    && (op.OpTransfer? && inv.meta.Some? ==> IsFee(inv.meta.value, op.amount, fee))
    && (op.OpTransferFrom? && inv.meta.Some? ==> IsFee(inv.meta.value, op.amount, fee))
  }

  function Failure<T>(r: Result<T, InvoiceError>): Option<InvoiceError> {
    if r.Err? then Some(r.error) else None
  }

  // ---- The first failing check decides ---------------------------------------------------------

  lemma AskedFirst(answer: Decision)
    ensures First(Asked(answer)) == if answer.Allow? then None else Some(Denied(answer))
  {
    hide First;
    FirstOfTwo(Asked(answer)[0], Asked(answer)[1]);
  }

  lemma MetaFirst(meta: Meta)
    ensures First(MetaChecks(meta)) == CheckMeta(meta)
  {
    hide First;
    FirstOfTwo(MetaChecks(meta)[0], MetaChecks(meta)[1]);
  }

  lemma IdFirst(id: string)
    ensures First(IdChecks(id)) == CheckReference(id)
  {
    hide First;
    FirstOfThree(IdChecks(id)[0], IdChecks(id)[1], IdChecks(id)[2]);
    assert forall c: char :: IsAsciiWhitespace(c) <==> c in [' ', '\t', '\n', '\r', 12 as char];
    hide IsAsciiWhitespace;
    if forall c :: c in id ==> IsAsciiWhitespace(c) {
      assert forall i :: 0 <= i < |id| ==> id[i] in id;
    }
  }

  lemma BurnFirst(inv: Invoice, host: Host, from: Address, amount: int)
    ensures First(BurnChecks(inv, from, amount)) == Failure(BurnMove(inv, host, from, amount))
  {
    hide First;
    var cs := BurnChecks(inv, from, amount);
    FirstOfThree(cs[0], cs[1], cs[2]);
  }

  lemma TransferFirst(inv: Invoice, host: Host, id: string, from: Address, to: Address, amount: int)
    ensures First(TransferChecks(inv, host, id, from, to, amount)) == CheckTransfer(inv, host, id, from, to, amount)
  {
    hide First, IdChecks, CheckReference, Asked;
    var state := [Check(inv.status !in {FullySettled, Redeemed}, AlreadySettled),
                  Check(inv.status != Created, InvalidLifecycleTransition), Check(inv.meta.Some?, Trap)];
    var parties := [Check(inv.meta.Some? ==> host.now <= inv.meta.value.dueDate, PastDueDate),
                    Check(amount >= 0, NegativeAmount),
                    Check(host.kycApproved(from) && host.kycApproved(to), KycNotApproved)];
    var asked := Asked(host.decide(from, to, amount));
    IdFirst(id);
    AskedFirst(host.decide(from, to, amount));
    FirstOfThree(state[0], state[1], state[2]);
    FirstOfThree(parties[0], parties[1], parties[2]);
    FirstJoin(parties, asked);
    FirstJoin(state, parties + asked);
    FirstJoin(IdChecks(id), state + (parties + asked));
  }

  lemma FeeFirst(inv: Invoice, meta: Meta, host: Host, exempt: bool, from: Address, to: Address, amount: int, fee: int)
    requires fee >= 1 && meta.feeRecipient.Some?
    ensures var r := meta.feeRecipient.value;
            var answer := host.decide(from, r, fee);
            First((if exempt then [] else Asked(answer))
                  + [Check(Fits(Between(inv, from, to, amount, fee, r) + fee), Trap)])
            == if !exempt && !answer.Allow? then Some(Denied(answer))
               else if !InI128(Between(inv, from, to, amount, fee, r) + fee) then Some(Trap)
               else None
  {
    hide First, Between, Asked;
    var r := meta.feeRecipient.value;
    var asked: Checking := if exempt then [] else Asked(host.decide(from, r, fee));
    var sum := Check(Fits(Between(inv, from, to, amount, fee, r) + fee), Trap);
    AskedFirst(host.decide(from, r, fee));
    FirstOfOne(sum);
    FirstJoin(asked, [sum]);
    FirstOfNone<InvoiceError>();
  }

  lemma FirstOfNone<E>()
    ensures First<E>([]) == None
  {
  }

  lemma MoveFirst(inv: Invoice, host: Host, exempt: bool, from: Address, to: Address, amount: int, fee: int)
    requires inv.meta.Some? && IsFee(inv.meta.value, amount, fee)
    ensures First(MoveChecks(inv, inv.meta.value, host, exempt, from, to, amount, fee))
            == Failure(Move(inv, host, exempt, from, to, amount))
  {
    hide First, Asked, Snapshot, IsFee, Fee;
    var meta := inv.meta.value;
    FeeExactly(meta, amount, fee);
    var sums := [Check(meta.feeBps > 0 && meta.feeRecipient.Some? ==> Fits(amount * meta.feeBps), Trap),
                 Check(Lookup(inv.balances, from) >= amount, InsufficientBalance),
                 Check(Fits(Between(inv, from, to, amount, fee, to)), Trap)];
    FirstOfThree(sums[0], sums[1], sums[2]);
    if fee >= 1 && meta.feeRecipient.Some? {
      var r := meta.feeRecipient.value;
      FeeFirst(inv, meta, host, exempt, from, to, amount, fee);
      FirstJoin(sums, (if exempt then [] else Asked(host.decide(from, r, fee)))
                      + [Check(Fits(Between(inv, from, to, amount, fee, r) + fee), Trap)]);
      assert Lookup(Credit(Credit(inv.balances, from, -amount), to, amount - fee), r)
          == Between(inv, from, to, amount, fee, r);
    } else {
      NoFee(meta, amount);
      FirstJoin(sums, []);
      FirstOfNone<InvoiceError>();
    }
  }

  lemma NoFee(meta: Meta, amount: int)
    ensures meta.feeRecipient.None? ==> Fee(meta, amount) == 0
  {
  }

  lemma MetaAnswers(inv: Invoice, id: string, paused: bool, exempt: bool, op: Op, fee: int)
    requires op.OpCreate? || op.OpUpdateMeta? || op.OpAppendJournal? || op.OpApprove?
    ensures First(Checks(inv, id, paused, exempt, op, fee)) == Failure(Apply(inv, id, paused, exempt, op))
  {
    hide First, MetaChecks, CheckMeta;
    match op
    case OpCreate(meta) =>
      MetaFirst(meta);
      var rest: Checking := [Check(meta.invoiceId != "", InvalidMetadata), Check(inv.meta.None?, InvoiceAlreadyExists)];
      FirstOfTwo(rest[0], rest[1]);
      FirstJoin(MetaChecks(meta), rest);
    case OpUpdateMeta(meta) =>
      MetaFirst(meta);
      FirstOfOne(Check(inv.status in {Created, Issued}, AlreadySettled));
      FirstJoin(MetaChecks(meta), [Check(inv.status in {Created, Issued}, AlreadySettled)]);
    case OpAppendJournal(_, tag) =>
      FirstOfTwo(Check(tag != "", EmptyEventTag), Check(inv.meta.Some?, InvoiceNotFound));
    case OpApprove(_, _, amount, _) => FirstOfOne(Check(amount >= 0, NegativeAmount));
  }

  lemma IssueAnswer(inv: Invoice, host: Host, id: string, paused: bool, exempt: bool, to: Address, amount: int,
                    fee: int)
    ensures First(Checks(inv, id, paused, exempt, OpIssue(host, to, amount), fee))
            == Failure(Issue(inv, host, to, amount))
  {
    hide First;
    var gates: Checking := [Check(host.kycApproved(to), KycNotApproved),
                            Check(inv.status in {Created, Issued}, AlreadySettled)];
    var sums: Checking := [Check(inv.meta.Some?, Trap), Check(Fits(inv.supply + amount), Trap),
                           Check(inv.meta.Some? ==> inv.supply + amount <= inv.meta.value.faceValue, OverSettlement),
                           Check(Fits(Lookup(inv.balances, to) + amount), Trap)];
    FirstOfTwo(gates[0], gates[1]);
    FirstOfFour(sums[0], sums[1], sums[2], sums[3]);
    FirstJoin(gates, sums);
  }

  lemma SettleAnswers(inv: Invoice, id: string, paused: bool, exempt: bool, op: Op, fee: int)
    requires op.OpSettle? || op.OpPartialSettle?
    ensures First(Checks(inv, id, paused, exempt, op, fee)) == Failure(Apply(inv, id, paused, exempt, op))
  {
    hide First;
    match op
    case OpSettle(_) =>
      var cs := Checks(inv, id, paused, exempt, op, fee);
      FirstOfFour(cs[0], cs[1], cs[2], cs[3]);
    case OpPartialSettle(_, amount) =>
      var gates: Checking := [Check(!paused, LifecyclePaused), Check(amount >= 1, UnderSettlement)];
      var rest: Checking := [Check(inv.meta.Some?, Trap),
                             Check(inv.meta.Some? ==> amount <= inv.meta.value.faceValue, OverSettlement),
                             Check(inv.status in {Created, Issued}, AlreadySettled)];
      FirstOfTwo(gates[0], gates[1]);
      FirstOfThree(rest[0], rest[1], rest[2]);
      FirstJoin(gates, rest);
  }

  lemma RedeemAnswer(inv: Invoice, host: Host, id: string, paused: bool, exempt: bool, from: Address, amount: int,
                     fee: int)
    ensures First(Checks(inv, id, paused, exempt, OpRedeem(host, from, amount), fee))
            == Failure(Redeem(inv, host, paused, from, amount))
  {
    hide First, RedeemCap, WithinShare, Asked, Lowered, SaturatingSub;
    var gates: Checking := [Check(!paused, LifecyclePaused), Check(amount >= 1, UnderSettlement),
                            Check(inv.status in {PartiallySettled, FullySettled}, NotSettled)];
    var within := if from in inv.entitlements then amount <= inv.entitlements[from]
                  else WithinShare(Lookup(inv.balances, from), inv.settlement, inv.supply, amount);
    var sums: Checking := [Check(Lookup(inv.balances, from) >= amount, InsufficientBalance),
                           Check(within, OverSettlement), Check(Fits(inv.supply - amount), Trap)];
    FirstOfThree(gates[0], gates[1], gates[2]);
    AskedFirst(host.decide(from, from, amount));
    FirstOfThree(sums[0], sums[1], sums[2]);
    FirstJoin(Asked(host.decide(from, from, amount)), sums);
    FirstJoin(gates, Asked(host.decide(from, from, amount)) + sums);
    if 1 <= amount <= Lookup(inv.balances, from) {
      CapExactly(inv, from, amount);
    }
  }

  lemma BurnAnswers(inv: Invoice, id: string, paused: bool, exempt: bool, op: Op, fee: int)
    requires op.OpBurn? || op.OpBurnFrom?
    ensures First(Checks(inv, id, paused, exempt, op, fee)) == Failure(Apply(inv, id, paused, exempt, op))
  {
    hide First, Asked, BurnChecks, BurnMove;
    match op
    case OpBurn(host, from, amount) =>
      AskedFirst(host.decide(from, from, amount));
      BurnFirst(inv, host, from, amount);
      FirstJoin(Asked(host.decide(from, from, amount)), BurnChecks(inv, from, amount));
    case OpBurnFrom(host, spender, from, amount) =>
      var grant: Checking := [Check(Granted(inv, from, spender) >= amount, InsufficientAllowance),
                              Check(GrantedUntil(inv, from, spender) >= host.ledger, AllowanceExpired),
                              Check(Fits(Granted(inv, from, spender) - amount), Trap)];
      AskedFirst(host.decide(from, from, amount));
      FirstOfThree(grant[0], grant[1], grant[2]);
      var spent := Spend(inv, from, spender, amount);
      BurnFirst(spent, host, from, amount);
      assert BurnChecks(spent, from, amount) == BurnChecks(inv, from, amount) by {
        SameBurnChecks(inv, spent, from, amount);
      }
      FirstJoin(grant, BurnChecks(inv, from, amount));
      FirstJoin(Asked(host.decide(from, from, amount)), grant + BurnChecks(inv, from, amount));
  }

  lemma SameBurnChecks(inv: Invoice, spent: Invoice, from: Address, amount: int)
    requires spent.balances == inv.balances && spent.supply == inv.supply
    ensures BurnChecks(spent, from, amount) == BurnChecks(inv, from, amount)
  {
  }

  lemma SameMoveChecks(inv: Invoice, spent: Invoice, meta: Meta, host: Host, exempt: bool, from: Address, to: Address,
                       amount: int, fee: int)
    requires spent.balances == inv.balances
    ensures MoveChecks(spent, meta, host, exempt, from, to, amount, fee)
            == MoveChecks(inv, meta, host, exempt, from, to, amount, fee)
  {
    hide Asked;
  }

  lemma TransferAnswers(inv: Invoice, id: string, paused: bool, exempt: bool, op: Op, fee: int)
    requires (op.OpTransfer? || op.OpTransferFrom?) && FeeOf(inv, op, fee)
    ensures First(Checks(inv, id, paused, exempt, op, fee)) == Failure(Apply(inv, id, paused, exempt, op))
  {
    hide First, TransferChecks, MoveChecks, CheckTransfer, Move, IsFee;
    match op
    case OpTransfer(host, from, to, amount) =>
      TransferFirst(inv, host, id, from, to, amount);
      MetaNeeded(inv, host, id, from, to, amount);
      if inv.meta.Some? {
        MoveFirst(inv, host, exempt, from, to, amount, fee);
        FirstJoin(TransferChecks(inv, host, id, from, to, amount),
                  MoveChecks(inv, inv.meta.value, host, exempt, from, to, amount, fee));
      } else {
        FirstJoin<InvoiceError>(TransferChecks(inv, host, id, from, to, amount), []);
      }
    case OpTransferFrom(host, spender, from, to, amount) =>
      TransferFirst(inv, host, id, from, to, amount);
      MetaNeeded(inv, host, id, from, to, amount);
      var grant: Checking := [Check(GrantedUntil(inv, from, spender) >= host.ledger, AllowanceExpired),
                              Check(Granted(inv, from, spender) >= amount, InsufficientAllowance),
                              Check(Fits(Granted(inv, from, spender) - amount), Trap)];
      FirstOfThree(grant[0], grant[1], grant[2]);
      var move: Checking :=
        if inv.meta.Some? then MoveChecks(inv, inv.meta.value, host, exempt, from, to, amount, fee) else [];
      FirstJoin(grant, move);
      FirstJoin(TransferChecks(inv, host, id, from, to, amount), grant + move);
      if inv.meta.Some? {
        var spent := Spend(inv, from, spender, amount);
        MoveFirst(spent, host, exempt, from, to, amount, fee);
        SameMoveChecks(inv, spent, inv.meta.value, host, exempt, from, to, amount, fee);
      }
  }

  lemma MetaNeeded(inv: Invoice, host: Host, id: string, from: Address, to: Address, amount: int)
    ensures inv.meta.None? ==> CheckTransfer(inv, host, id, from, to, amount).Some?
  {
    hide CheckReference;
  }

  /** Every entry point fails with the error of the first check that fails, and succeeds exactly when all of them
      pass. */
  lemma FirstFailedCheckDecides(inv: Invoice, id: string, paused: bool, exempt: bool, op: Op, fee: int,
                                error: InvoiceError)
    requires FeeOf(inv, op, fee)
    ensures Apply(inv, id, paused, exempt, op) == Err(error)
            <==> FailsFirst(Checks(inv, id, paused, exempt, op, fee), error)
    ensures Apply(inv, id, paused, exempt, op).Ok? <==> AllPass(Checks(inv, id, paused, exempt, op, fee))
  {
    hide First, Checks, FailsFirst, AllPass, Issue, Redeem, Apply, FeeOf;
    FirstMeaning(Checks(inv, id, paused, exempt, op, fee), error);
    match op
    case OpIssue(host, to, amount) =>
      IssueAnswer(inv, host, id, paused, exempt, to, amount, fee);
      Dispatch(inv, id, paused, exempt, op);
    case OpRedeem(host, from, amount) =>
      RedeemAnswer(inv, host, id, paused, exempt, from, amount, fee);
      Dispatch(inv, id, paused, exempt, op);
    case OpSettle(_) => SettleAnswers(inv, id, paused, exempt, op, fee);
    case OpPartialSettle(_, _) => SettleAnswers(inv, id, paused, exempt, op, fee);
    case OpBurn(_, _, _) => BurnAnswers(inv, id, paused, exempt, op, fee);
    case OpBurnFrom(_, _, _, _) => BurnAnswers(inv, id, paused, exempt, op, fee);
    case OpTransfer(_, _, _, _) => TransferAnswers(inv, id, paused, exempt, op, fee);
    case OpTransferFrom(_, _, _, _, _) => TransferAnswers(inv, id, paused, exempt, op, fee);
    case _ => MetaAnswers(inv, id, paused, exempt, op, fee);
  }

  lemma Dispatch(inv: Invoice, id: string, paused: bool, exempt: bool, op: Op)
    ensures op.OpIssue? ==> Apply(inv, id, paused, exempt, op) == Issue(inv, op.host, op.to, op.amount)
    ensures op.OpRedeem? ==> Apply(inv, id, paused, exempt, op) == Redeem(inv, op.host, paused, op.from, op.amount)
  {
    hide Issue, Redeem;
  }

  /** What one item of a batch checks, in order. */
  function ItemChecks(inv: Invoice, paused: bool, amount: int): Checking {
    [Check(!paused, LifecyclePaused), Check(amount >= 1, UnderSettlement)]
    + [Check(inv.meta.Some?, InvoiceNotFound),
       Check(inv.meta.Some? ==> amount <= inv.meta.value.faceValue, OverSettlement),
       Check(inv.status in {Created, Issued}, AlreadySettled)]
  }

  /** An item of a batch reports the error of the first check that fails and then leaves the invoice alone. */
  lemma FirstFailedCheckIsReported(inv: Invoice, host: Host, paused: bool, amount: int, error: InvoiceError)
    ensures TryPartialSettle(inv, host, paused, amount) == (Some(error), inv)
            <==> FailsFirst(ItemChecks(inv, paused, amount), error)
    ensures TryPartialSettle(inv, host, paused, amount).0.None? <==> AllPass(ItemChecks(inv, paused, amount))
  {
    hide First, FailsFirst, AllPass, PartiallySettle;
    var gates: Checking := [Check(!paused, LifecyclePaused), Check(amount >= 1, UnderSettlement)];
    var rest: Checking := [Check(inv.meta.Some?, InvoiceNotFound),
                           Check(inv.meta.Some? ==> amount <= inv.meta.value.faceValue, OverSettlement),
                           Check(inv.status in {Created, Issued}, AlreadySettled)];
    FirstMeaning(ItemChecks(inv, paused, amount), error);
    FirstOfTwo(gates[0], gates[1]);
    FirstOfThree(rest[0], rest[1], rest[2]);
    FirstJoin(gates, rest);
  }
}
