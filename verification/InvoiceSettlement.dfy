/** Redemption: the dust ledger, full backing and pro-rata caps, over whole runs of calls. */
module InvoiceSettlement {
  import opened Prelude
  import opened InvoiceModel
  import opened InvoiceProofs

  // ---- The trail since the last settlement write ---------------------------------------

  /** What was redeemed since the settlement amount was last written, and whether that write covered the supply. */
  datatype Trail = Trail(redeemed: int, backed: bool)

  const NO_TRAIL := Trail(0, false)

  function Settling(inv: Invoice): Trail {
    Trail(0, inv.settlement >= inv.supply)
  }

  function TrailNext(t: Trail, after: Invoice, op: Op): Trail {
    if op.OpSettle? || op.OpPartialSettle? then Settling(after)
    else if op.OpRedeem? then t.(redeemed := t.redeemed + op.amount)
    else t
  }

  function TrailOf(calls: seq<Call>, id: string): Trail
    decreases |calls|
  {
    if calls == [] then NO_TRAIL
    else
      var init, call := calls[..|calls| - 1], calls[|calls| - 1];
      var before := Run(EMPTY, init);
      var t := TrailOf(init, id);
      match call
      case Single(name, op) =>
        if Target(name, op) == id && ApplyCall(before, call).Ok? then
          TrailNext(t, Get(Next(before, call), id), op)
        else t
      case BatchSettle(_, _) =>
        if Get(Next(before, call), id).status != Get(before, id).status then
          Settling(Get(Next(before, call), id))
        else t
      case _ => t
  }

  predicate NonNegativeOp(op: Op) {
    match op
    case OpIssue(_, _, amount) => amount >= 0
    case OpBurn(_, _, amount) => amount >= 0
    case OpBurnFrom(_, _, _, amount) => amount >= 0
    case _ => true
  }

  predicate NonNegativeCalls(calls: seq<Call>) {
    forall i :: 0 <= i < |calls| && calls[i].Single? ==> NonNegativeOp(calls[i].op)
  }

  // ---- The invariant ---------------------------------------------------------------------

  /** Balances are a partition of the supply, and a redeemed or uncreated invoice has none. */
  ghost predicate Holdings(inv: Invoice) {
    && NonNegative(inv.balances) && Conserved(inv) && inv.supply <= I128_MAX
    && (inv.meta.None? || inv.status.Redeemed? ==> inv.supply == 0)
  }

  /** The dust is what the settlement has left after the redemptions since it was written. */
  ghost predicate DustOk(inv: Invoice, t: Trail) {
    IsSettled(inv.status) || inv.status.Redeemed? ==>
      && 0 < inv.settlement <= I128_MAX && t.redeemed >= 0 && t.redeemed + inv.supply <= I128_MAX
      && inv.dust == Some(inv.settlement - t.redeemed)
      && (t.backed ==> inv.settlement >= inv.supply + t.redeemed)
  }

  ghost predicate Good(inv: Invoice, t: Trail) {
    Basic(inv) && Holdings(inv) && DustOk(inv, t)
  }

  lemma CreditNonNegative(balances: map<Address, int>, a: Address, amount: int)
    requires NonNegative(balances) && Lookup(balances, a) + amount >= 0
    ensures NonNegative(Credit(balances, a, amount))
  {
  }

  lemma MoveHoldings(inv: Invoice, host: Host, exempt: bool, from: Address, to: Address, amount: int)
    requires inv.meta.Some? && inv.meta.value.feeBps <= 10_000 && amount >= 0
    requires NonNegative(inv.balances) && Move(inv, host, exempt, from, to, amount).Ok?
    ensures var after := Move(inv, host, exempt, from, to, amount).value;
            NonNegative(after.balances) && Total(after.balances) == Total(inv.balances)
  {
    FeeBounds(inv.meta.value, amount);
    MoveConserves(inv, host, exempt, from, to, amount);
    hide Credit, Snapshot, NonNegative;
    var fee := Fee(inv.meta.value, amount);
    var debited := Credit(inv.balances, from, -amount);
    var credited := Credit(debited, to, amount - fee);
    CreditNonNegative(inv.balances, from, -amount);
    LookupNonNegative(debited, to);
    CreditNonNegative(debited, to, amount - fee);
    if fee > 0 {
      LookupNonNegative(credited, inv.meta.value.feeRecipient.value);
      CreditNonNegative(credited, inv.meta.value.feeRecipient.value, fee);
    }
  }

  lemma LookupNonNegative(balances: map<Address, int>, a: Address)
    requires NonNegative(balances)
    ensures Lookup(balances, a) >= 0
  {
  }

  lemma DebitHoldings(inv: Invoice, from: Address, amount: int)
    requires NonNegative(inv.balances) && Conserved(inv) && 0 <= amount <= Lookup(inv.balances, from)
    ensures NonNegative(Credit(inv.balances, from, -amount))
    ensures Total(Credit(inv.balances, from, -amount)) == inv.supply - amount && 0 <= inv.supply - amount
  {
    CreditTotal(inv.balances, from, -amount);
    TotalBounds(inv.balances, from);
  }

  lemma IssueHoldings(inv: Invoice, host: Host, to: Address, amount: int)
    requires Holdings(inv) && amount >= 0 && Issue(inv, host, to, amount).Ok?
    ensures Holdings(Issue(inv, host, to, amount).value)
  {
    hide Credit, NonNegative;
    CreditTotal(inv.balances, to, amount);
    LookupNonNegative(inv.balances, to);
    CreditNonNegative(inv.balances, to, amount);
  }

  lemma RedeemHoldings(inv: Invoice, host: Host, paused: bool, from: Address, amount: int)
    requires Holdings(inv) && Redeem(inv, host, paused, from, amount).Ok?
    ensures Holdings(Redeem(inv, host, paused, from, amount).value)
  {
    hide Credit, RedeemCap, NonNegative;
    DebitHoldings(inv, from, amount);
  }

  lemma BurnHoldings(inv: Invoice, host: Host, from: Address, amount: int)
    requires Holdings(inv) && amount >= 0 && BurnMove(inv, host, from, amount).Ok?
    ensures Holdings(BurnMove(inv, host, from, amount).value)
  {
    hide Credit, NonNegative;
    DebitHoldings(inv, from, amount);
  }

  lemma TransferHoldings(inv: Invoice, host: Host, exempt: bool, from: Address, to: Address, amount: int)
    requires Holdings(inv) && inv.meta.Some? && inv.meta.value.feeBps <= 10_000 && amount >= 0
    requires Move(inv, host, exempt, from, to, amount).Ok?
    ensures Holdings(Move(inv, host, exempt, from, to, amount).value)
  {
    hide Move, NonNegative;
    MoveHoldings(inv, host, exempt, from, to, amount);
    MoveFrame(inv, host, exempt, from, to, amount);
  }

  lemma SameHoldings(inv: Invoice, after: Invoice)
    requires Holdings(inv) && after.balances == inv.balances && after.supply == inv.supply
    requires (after.meta.None? || after.status.Redeemed?) ==> (inv.meta.None? || inv.status.Redeemed?)
    ensures Holdings(after)
  {
  }

  lemma CreateHoldings(inv: Invoice, meta: Meta)
    requires Holdings(inv) && Create(inv, meta).Ok?
    ensures Holdings(Create(inv, meta).value)
  {
  }

  lemma HoldingsStep(inv: Invoice, id: string, paused: bool, exempt: bool, op: Op)
    requires Basic(inv) && Holdings(inv) && NonNegativeOp(op) && Apply(inv, id, paused, exempt, op).Ok?
    ensures Holdings(Apply(inv, id, paused, exempt, op).value)
  {
    hide Holdings, JournalOk, Create, Issue, Redeem, BurnMove, Move, CheckTransfer;
    match op
    case OpIssue(host, to, amount) => IssueHoldings(inv, host, to, amount);
    case OpRedeem(host, from, amount) => RedeemHoldings(inv, host, paused, from, amount);
    case OpBurn(host, from, amount) => BurnHoldings(inv, host, from, amount);
    case OpBurnFrom(host, spender, from, amount) =>
      SameHoldings(inv, Spend(inv, from, spender, amount));
      BurnHoldings(Spend(inv, from, spender, amount), host, from, amount);
    case OpTransfer(host, from, to, amount) =>
      TransferChecked(inv, host, id, from, to, amount);
      TransferHoldings(inv, host, exempt, from, to, amount);
    case OpTransferFrom(host, spender, from, to, amount) =>
      TransferChecked(inv, host, id, from, to, amount);
      SameHoldings(inv, Spend(inv, from, spender, amount));
      TransferHoldings(Spend(inv, from, spender, amount), host, exempt, from, to, amount);
    case OpCreate(meta) => CreateHoldings(inv, meta);
    case OpUpdateMeta(_) => SameHoldings(inv, Apply(inv, id, paused, exempt, op).value);
    case OpAppendJournal(_, _) => SameHoldings(inv, Apply(inv, id, paused, exempt, op).value);
    case OpSettle(_) => SameHoldings(inv, Apply(inv, id, paused, exempt, op).value);
    case OpPartialSettle(_, _) => SameHoldings(inv, Apply(inv, id, paused, exempt, op).value);
    case OpApprove(_, _, _, _) => SameHoldings(inv, Apply(inv, id, paused, exempt, op).value);
  }

  lemma TransferChecked(inv: Invoice, host: Host, id: string, from: Address, to: Address, amount: int)
    ensures CheckTransfer(inv, host, id, from, to, amount).None? ==>
              inv.meta.Some? && amount >= 0 && (inv.status.Issued? || inv.status.PartiallySettled?)
  {
  }

  lemma MoveFrame(inv: Invoice, host: Host, exempt: bool, from: Address, to: Address, amount: int)
    requires inv.meta.Some? && Move(inv, host, exempt, from, to, amount).Ok?
    ensures var after := Move(inv, host, exempt, from, to, amount).value;
            after == inv.(balances := after.balances, entitlements := after.entitlements)
  {
  }

  lemma RedeemDust(inv: Invoice, host: Host, paused: bool, from: Address, amount: int, t: Trail)
    requires Holdings(inv) && DustOk(inv, t) && Redeem(inv, host, paused, from, amount).Ok?
    ensures DustOk(Redeem(inv, host, paused, from, amount).value, t.(redeemed := t.redeemed + amount))
  {
    hide Credit, RedeemCap, NonNegative;
    DebitHoldings(inv, from, amount);
  }

  lemma BurnDust(inv: Invoice, host: Host, from: Address, amount: int, t: Trail)
    requires Holdings(inv) && DustOk(inv, t) && amount >= 0 && BurnMove(inv, host, from, amount).Ok?
    ensures DustOk(BurnMove(inv, host, from, amount).value, t)
  {
    hide Credit, NonNegative;
    DebitHoldings(inv, from, amount);
  }

  lemma MoveDust(inv: Invoice, after: Invoice, t: Trail)
    requires DustOk(inv, t)
    requires after.(balances := inv.balances, entitlements := inv.entitlements, allowances := inv.allowances) == inv
    ensures DustOk(after, t)
  {
  }

  lemma DustStep(inv: Invoice, id: string, paused: bool, exempt: bool, op: Op, t: Trail)
    requires Good(inv, t) && NonNegativeOp(op) && Apply(inv, id, paused, exempt, op).Ok?
    ensures var after := Apply(inv, id, paused, exempt, op).value; DustOk(after, TrailNext(t, after, op))
  {
    hide Redeem, BurnMove, Credit, JournalOk, NonNegative, CheckTransfer, Move;
    match op
    case OpIssue(_, _, _) =>
    case OpRedeem(host, from, amount) => RedeemDust(inv, host, paused, from, amount, t);
    case OpBurn(host, from, amount) => BurnDust(inv, host, from, amount, t);
    case OpBurnFrom(host, spender, from, amount) => BurnDust(Spend(inv, from, spender, amount), host, from, amount, t);
    case OpTransfer(host, from, to, amount) =>
      TransferChecked(inv, host, id, from, to, amount);
      MoveFrame(inv, host, exempt, from, to, amount);
      MoveDust(inv, Move(inv, host, exempt, from, to, amount).value, t);
    case OpTransferFrom(host, spender, from, to, amount) =>
      TransferChecked(inv, host, id, from, to, amount);
      MoveFrame(Spend(inv, from, spender, amount), host, exempt, from, to, amount);
      MoveDust(inv, Move(Spend(inv, from, spender, amount), host, exempt, from, to, amount).value, t);
    case OpSettle(_) => SupplyNonNegative(inv);
    case OpPartialSettle(_, _) => SupplyNonNegative(inv);
    case _ =>
  }

  lemma SupplyNonNegative(inv: Invoice)
    requires Holdings(inv)
    ensures inv.supply >= 0
  {
    TotalBounds(inv.balances, Address(0));
  }

  lemma GoodStep(inv: Invoice, id: string, paused: bool, exempt: bool, op: Op, t: Trail)
    requires Good(inv, t) && NonNegativeOp(op) && Apply(inv, id, paused, exempt, op).Ok?
    ensures var after := Apply(inv, id, paused, exempt, op).value; Good(after, TrailNext(t, after, op))
  {
    hide Apply, Basic, Holdings, DustOk;
    LifecycleStep(inv, id, paused, exempt, op);
    HoldingsStep(inv, id, paused, exempt, op);
    DustStep(inv, id, paused, exempt, op, t);
  }

  // ---- Batches of partial settlements -----------------------------------------------------

  /** The batch form succeeds exactly when the single form would, with the same result. */
  lemma TryRefinesSingle(inv: Invoice, host: Host, paused: bool, amount: int)
    ensures TryPartialSettle(inv, host, paused, amount).0.None? <==> PartialSettle(inv, host, paused, amount).Ok?
    ensures PartialSettle(inv, host, paused, amount).Ok? ==>
              TryPartialSettle(inv, host, paused, amount).1 == PartialSettle(inv, host, paused, amount).value
    ensures PartialSettle(inv, host, paused, amount).Err? ==> TryPartialSettle(inv, host, paused, amount).1 == inv
  {
  }

  function Singles(host: Host, items: seq<(string, int)>): seq<Call> {
    seq(|items|, i requires 0 <= i < |items| => Single(items[i].0, OpPartialSettle(host, items[i].1)))
  }

  lemma SinglesPrefix(host: Host, items: seq<(string, int)>, n: nat)
    requires n <= |items|
    ensures Singles(host, items)[..n] == Singles(host, items[..n])
  {
  }

  /** The batch ends where the single calls, made in order with failures rolled back, end; repeated ids included. */
  lemma {:induction false} BatchIsRunOfSingles(c: Contract, host: Host, items: seq<(string, int)>)
    ensures BatchState(c, host, items) == Run(c, Singles(host, items))
    ensures BatchState(c, host, items).paused == c.paused && BatchState(c, host, items).feeExempt == c.feeExempt
    decreases |items|
  {
    hide TryPartialSettle, PartialSettle, Apply;
    if items != [] {
      var n := |items| - 1;
      BatchIsRunOfSingles(c, host, items[..n]);
      SinglesPrefix(host, items, n);
      var before := BatchState(c, host, items[..n]);
      var (id, amount) := items[n];
      TryRefinesSingle(Get(before, id), host, c.paused, amount);
      ApplyPartial(Get(before, id), id, c.paused, c.feeExempt, host, amount);
      assert Singles(host, items)[n] == Single(id, OpPartialSettle(host, amount));
    }
  }

  /** A batch leaves an invoice alone or settles it exactly once. */
  lemma {:induction false} BatchTouchesOnce(c: Contract, host: Host, items: seq<(string, int)>, id: string)
    returns (amount: int)
    ensures var after := Get(BatchState(c, host, items), id);
            if after.status == Get(c, id).status then after == Get(c, id)
            else PartialSettle(Get(c, id), host, c.paused, amount) == Ok(after) && IsSettled(after.status)
    decreases |items|
  {
    amount := 0;
    if items != [] {
      var n := |items| - 1;
      amount := BatchTouchesOnce(c, host, items[..n], id);
      var before := BatchState(c, host, items[..n]);
      TryRefinesSingle(Get(before, items[n].0), host, c.paused, items[n].1);
      if items[n].0 == id && Get(before, id) == Get(c, id)
         && PartialSettle(Get(c, id), host, c.paused, items[n].1).Ok? {
        amount := items[n].1;
      }
    }
  }

  // ---- Whole runs -----------------------------------------------------------------------------

  lemma {:induction false} RunGood(calls: seq<Call>, id: string)
    requires NonNegativeCalls(calls)
    ensures Good(Get(Run(EMPTY, calls), id), TrailOf(calls, id))
    decreases |calls|
  {
    hide Good, Apply, BatchState;
    if calls == [] {
      AbsentGood();
    } else {
      var init, call := calls[..|calls| - 1], calls[|calls| - 1];
      var before := Run(EMPTY, init);
      RunGood(init, id);
      match call
      case Single(name, op) =>
        if Target(name, op) == id && ApplyCall(before, call).Ok? {
          GoodStep(Get(before, id), id, before.paused, before.feeExempt, op, TrailOf(init, id));
        }
      case BatchSettle(host, items) =>
        var amount := BatchTouchesOnce(before, host, Effective(items), id);
        if Get(Next(before, call), id).status != Get(before, id).status {
          var op := OpPartialSettle(host, amount);
          ApplyPartial(Get(before, id), id, before.paused, before.feeExempt, host, amount);
          GoodStep(Get(before, id), id, before.paused, before.feeExempt, op, TrailOf(init, id));
        }
      case _ =>
    }
  }

  lemma ApplyPartial(inv: Invoice, id: string, paused: bool, exempt: bool, host: Host, amount: int)
    ensures Apply(inv, id, paused, exempt, OpPartialSettle(host, amount)) == PartialSettle(inv, host, paused, amount)
  {
  }

  lemma AbsentGood()
    ensures Good(ABSENT, NO_TRAIL)
  {
  }

  /** The journal and metadata hold up for all amounts, negative ones included. */
  lemma {:induction false} RunBasic(calls: seq<Call>, id: string)
    ensures Basic(Get(Run(EMPTY, calls), id))
    decreases |calls|
  {
    hide Basic, Apply, BatchState;
    if calls == [] {
      AbsentGood();
      assert Basic(ABSENT) by {
        assert Good(ABSENT, NO_TRAIL);
      }
    } else {
      var init, call := calls[..|calls| - 1], calls[|calls| - 1];
      var before := Run(EMPTY, init);
      RunBasic(init, id);
      match call
      case Single(name, op) =>
        if Target(name, op) == id && ApplyCall(before, call).Ok? {
          LifecycleStep(Get(before, id), id, before.paused, before.feeExempt, op);
        }
      case BatchSettle(host, items) =>
        var amount := BatchTouchesOnce(before, host, Effective(items), id);
        if Get(Next(before, call), id).status != Get(before, id).status {
          ApplyPartial(Get(before, id), id, before.paused, before.feeExempt, host, amount);
          LifecycleStep(Get(before, id), id, before.paused, before.feeExempt, OpPartialSettle(host, amount));
        }
      case _ =>
    }
  }

  /** In every reachable state the journal chains from `Created` to the current status, with at most four changes. */
  lemma LifecycleJournaled(calls: seq<Call>, id: string)
    ensures var inv := Get(Run(EMPTY, calls), id);
            && Changes(inv.journal) <= 4
            && (inv.journal != [] ==> inv.journal[0].from == Created && inv.journal[|inv.journal| - 1].to == inv.status)
            && (inv.journal == [] ==> inv.status == Created)
            && forall i :: 0 <= i < |inv.journal| - 1 ==> inv.journal[i].to == inv.journal[i + 1].from
  {
    RunBasic(calls, id);
  }

  /** Later calls only append to the journal and never lower the status. */
  lemma {:induction false} StatusMonotone(calls: seq<Call>, more: seq<Call>, id: string)
    ensures Rank(Get(Run(EMPTY, calls), id).status) <= Rank(Get(Run(EMPTY, calls + more), id).status)
    ensures Get(Run(EMPTY, calls), id).journal <= Get(Run(EMPTY, calls + more), id).journal
    decreases |more|
  {
    hide Basic, Apply, BatchState;
    if more == [] {
      assert calls + more == calls;
    } else {
      var all := calls + more;
      var init, call := all[..|all| - 1], all[|all| - 1];
      assert init == calls + more[..|more| - 1];
      StatusMonotone(calls, more[..|more| - 1], id);
      RunBasic(init, id);
      StepMonotone(Run(EMPTY, init), call, id);
    }
  }

  lemma StepMonotone(c: Contract, call: Call, id: string)
    requires Basic(Get(c, id))
    ensures Rank(Get(c, id).status) <= Rank(Get(Next(c, call), id).status)
    ensures Get(c, id).journal <= Get(Next(c, call), id).journal
  {
    hide Basic, Apply, BatchState, PartialSettle;
    match call
    case Single(name, op) =>
      if Target(name, op) == id && ApplyCall(c, call).Ok? {
        LifecycleStep(Get(c, id), id, c.paused, c.feeExempt, op);
      }
    case BatchSettle(host, items) =>
      var amount := BatchTouchesOnce(c, host, Effective(items), id);
      if Get(Next(c, call), id).status != Get(c, id).status {
        ApplyPartial(Get(c, id), id, c.paused, c.feeExempt, host, amount);
        LifecycleStep(Get(c, id), id, c.paused, c.feeExempt, OpPartialSettle(host, amount));
      }
    case _ =>
  }

  /** Once redeemed, the invoice stays redeemed and the supply and every balance stay zero. */
  lemma RedeemedIsFinal(calls: seq<Call>, more: seq<Call>, id: string, a: Address)
    requires NonNegativeCalls(calls + more) && Get(Run(EMPTY, calls), id).status.Redeemed?
    ensures var inv := Get(Run(EMPTY, calls + more), id);
            inv.status.Redeemed? && inv.supply == 0 && Lookup(inv.balances, a) == 0
  {
    StatusMonotone(calls, more, id);
    RunGood(calls + more, id);
    TotalZero(Get(Run(EMPTY, calls + more), id).balances);
  }

  /** Balances are non-negative and sum to the supply in every reachable state. */
  lemma BalancesPartitionSupply(calls: seq<Call>, id: string)
    requires NonNegativeCalls(calls)
    ensures var inv := Get(Run(EMPTY, calls), id); NonNegative(inv.balances) && Total(inv.balances) == inv.supply
  {
    RunGood(calls, id);
  }

  /** The supply that an id had just before its creation, zero before that. */
  function Forgotten(calls: seq<Call>, id: string): int
    decreases |calls|
  {
    if calls == [] then 0
    else
      var init, call := calls[..|calls| - 1], calls[|calls| - 1];
      if call.Single? && Target(call.id, call.op) == id && call.op.OpCreate?
         && ApplyCall(Run(EMPTY, init), call).Ok? then
        Get(Run(EMPTY, init), id).supply
      else Forgotten(init, id)
  }

  /** After any run, for all amounts, the balances of an id exceed its supply by exactly what was minted under it before
      its creation. */
  lemma {:induction false} DriftIsForgotten(calls: seq<Call>, id: string)
    ensures Drift(Get(Run(EMPTY, calls), id)) == Forgotten(calls, id)
    ensures Get(Run(EMPTY, calls), id).meta.None? ==> Forgotten(calls, id) == 0
    decreases |calls|
  {
    hide Basic, Apply, BatchState, Drift;
    if calls == [] {
      NoDrift();
    } else {
      var init, call := calls[..|calls| - 1], calls[|calls| - 1];
      var before := Run(EMPTY, init);
      RunBasic(init, id);
      DriftIsForgotten(init, id);
      match call
      case Single(name, op) =>
        if Target(name, op) == id && ApplyCall(before, call).Ok? {
          MetaStays(Get(before, id), id, before.paused, before.feeExempt, op);
          DriftStep(Get(before, id), id, before.paused, before.feeExempt, op);
        }
      case BatchSettle(host, items) =>
        var amount := BatchTouchesOnce(before, host, Effective(items), id);
        if Get(Next(before, call), id).status != Get(before, id).status {
          ApplyPartial(Get(before, id), id, before.paused, before.feeExempt, host, amount);
          DriftStep(Get(before, id), id, before.paused, before.feeExempt, OpPartialSettle(host, amount));
        }
      case _ =>
    }
  }

  lemma NoDrift()
    ensures Drift(ABSENT) == 0
  {
  }

  lemma DriftStep(inv: Invoice, id: string, paused: bool, exempt: bool, op: Op)
    requires Basic(inv) && Apply(inv, id, paused, exempt, op).Ok?
    requires op.OpCreate? ==> Drift(inv) == 0
    ensures var after := Apply(inv, id, paused, exempt, op).value;
            && Drift(after) == (if op.OpCreate? then inv.supply else Drift(inv))
            && (op.OpCreate? ==> inv.meta.None? && after.meta.Some?) && (after.meta.None? ==> inv.meta.None?)
  {
    MetaStays(inv, id, paused, exempt, op);
    hide Apply, Basic;
    if op.OpCreate? {
      ApplyCreate(inv, id, paused, exempt, op.meta);
      CreateConserves(inv, op.meta);
    } else {
      ConservationStep(inv, id, paused, exempt, op);
    }
  }

  lemma ApplyCreate(inv: Invoice, id: string, paused: bool, exempt: bool, meta: Meta)
    ensures Apply(inv, id, paused, exempt, OpCreate(meta)) == Create(inv, meta)
  {
  }

  lemma MetaStays(inv: Invoice, id: string, paused: bool, exempt: bool, op: Op)
    requires Apply(inv, id, paused, exempt, op).Ok?
    ensures var after := Apply(inv, id, paused, exempt, op).value;
            && (after.meta.None? ==> inv.meta.None?) && (op.OpCreate? ==> inv.meta.None? && after.meta.Some?)
  {
    hide CheckMeta, CheckTransfer, Fee, RedeemCap, Snapshot, Lowered, Credit;
  }

  /** Among the calls that change balances only an issue can make one negative, exactly when the amount, a negative
      one, is larger than the recipient's balance. */
  lemma IssueKeepsNonNegative(inv: Invoice, host: Host, to: Address, amount: int)
    requires NonNegative(inv.balances) && Issue(inv, host, to, amount).Ok?
    ensures NonNegative(Issue(inv, host, to, amount).value.balances) <==> Lookup(inv.balances, to) + amount >= 0
  {
    var after := Issue(inv, host, to, amount).value.balances;
    assert after[to] == Lookup(inv.balances, to) + amount;
  }

  /** A burn, of any amount, never makes a balance negative; in a redeemed invoice it keeps the supply at zero exactly
      when the amount is zero. */
  lemma BurnAfterRedemption(inv: Invoice, host: Host, from: Address, amount: int)
    requires Holdings(inv) && BurnMove(inv, host, from, amount).Ok?
    ensures NonNegative(BurnMove(inv, host, from, amount).value.balances)
    ensures inv.status.Redeemed? ==> (BurnMove(inv, host, from, amount).value.supply == 0 <==> amount == 0)
  {
    CreditNonNegative(inv.balances, from, -amount);
  }

  /** Issuing a negative amount can finish the lifecycle while balances remain. */
  lemma NegativeIssueLeavesBalances(a: Address, b: Address)
    requires a != b
    ensures var meta := Meta("INV-1", 100, 0, 0, 0, None, true, true);
            var inv := Apply(Apply(Apply(Apply(Apply(ABSENT,
              "INV-1", false, false, OpCreate(meta)).value,
              "INV-1", false, false, OpIssue(OPEN_HOST, a, 5)).value,
              "INV-1", false, false, OpIssue(OPEN_HOST, b, -5)).value,
              "INV-1", false, false, OpSettle(OPEN_HOST)).value,
              "INV-1", false, false, OpBurn(OPEN_HOST, a, 0)).value;
            inv.status.Redeemed? && inv.supply == 0 && Lookup(inv.balances, a) == 5
  {
  }

  // ---- Dust and full backing ---------------------------------------------------------------------

  /** A settlement that covered the supply when it was written always leaves at least the supply as dust. */
  lemma BackedDust(calls: seq<Call>, id: string)
    requires NonNegativeCalls(calls) && TrailOf(calls, id).backed
    ensures var inv := Get(Run(EMPTY, calls), id);
            IsSettled(inv.status) || inv.status.Redeemed? ==> inv.dust.Some? && inv.dust.value >= inv.supply >= 0
  {
    RunGood(calls, id);
    SupplyNonNegative(Get(Run(EMPTY, calls), id));
  }

  lemma FullCap(bal: int, settlement: int, supply: int)
    requires 0 < bal <= supply <= settlement <= I128_MAX
    ensures bal * settlement < U128_LIMIT ==> bal <= MulDiv(bal, settlement, supply) <= I128_MAX
    ensures bal * settlement >= U128_LIMIT ==> MulDiv(bal, settlement, supply) == 0
  {
    var product := bal * settlement;
    if product < U128_LIMIT {
      var q := product / supply;
      assert bal * supply <= product;
      assert product <= settlement * supply;
      DivideBounds(product, supply, bal, settlement);
    }
  }

  lemma OrderedFactors(x: int, y: int, d: int)
    requires d > 0
    ensures x * d <= y * d <==> x <= y
    ensures x * d < y * d <==> x < y
  {
    assert (y - x) * d == y * d - x * d;
  }

  lemma DivideBounds(n: int, d: int, low: int, high: int)
    requires d > 0 && low * d <= n <= high * d
    ensures low <= n / d <= high
  {
    var q := n / d;
    assert q * d <= n < q * d + d;
    OrderedFactors(low, q + 1, d);
    OrderedFactors(q, high, d);
  }

  /** With full backing, a holder is refused for over-settlement exactly when the amount exceeds a stored entitlement
      or, without one, when the 128-bit product overflows. */
  lemma FullyBackedRedemption(calls: seq<Call>, id: string, host: Host, from: Address, amount: int)
    requires NonNegativeCalls(calls) && TrailOf(calls, id).backed
    requires var inv := Get(Run(EMPTY, calls), id);
             IsSettled(inv.status) && 0 < amount <= Lookup(inv.balances, from)
    ensures var inv := Get(Run(EMPTY, calls), id);
            amount > RedeemCap(inv, from)
            <==> if from in inv.entitlements then amount > inv.entitlements[from]
                 else Lookup(inv.balances, from) * inv.settlement >= U128_LIMIT
    ensures var inv := Get(Run(EMPTY, calls), id);
            host.decide(from, from, amount).Allow? ==>
              (Redeem(inv, host, false, from, amount) == Err(OverSettlement) <==> amount > RedeemCap(inv, from))
  {
    RunGood(calls, id);
    var inv := Get(Run(EMPTY, calls), id);
    TotalBounds(inv.balances, from);
    if from !in inv.entitlements {
      FullCap(Lookup(inv.balances, from), inv.settlement, inv.supply);
    }
  }

  lemma CancelFactor(supply: int, settlement: int)
    requires supply > 0 && settlement > 0
    ensures supply * settlement / supply == settlement
  {
    DivideBounds(supply * settlement, supply, settlement, settlement);
  }

  // ---- Delegated transfers -------------------------------------------------------------------------

  /** With an unexpired and sufficient allowance a delegated transfer is the owner's own transfer plus the spending of
      the allowance; otherwise it fails, and a failed transfer spends nothing. */
  lemma DelegationRefinesTransfer(inv: Invoice, host: Host, exempt: bool, id: string,
                                  spender: Address, from: Address, to: Address, amount: int)
    ensures var own := Transfer(inv, host, exempt, id, from, to, amount);
            var delegated := TransferFrom(inv, host, exempt, id, spender, from, to, amount);
            var a := ReadAllowance(inv, from, spender);
            if a.expiration >= host.ledger && a.amount >= amount && InI128(a.amount - amount) then
              delegated == if own.Ok? then Ok(Spend(own.value, from, spender, amount)) else own
            else
              delegated.Err?
  {
    hide CheckReference, Fee, MulDiv;
    var spent := Spend(inv, from, spender, amount);
    if CheckTransfer(inv, host, id, from, to, amount).None? {
      MoveIgnoresAllowances(inv, spent.allowances, host, exempt, from, to, amount);
    }
  }

  lemma MoveIgnoresAllowances(inv: Invoice, allowances: map<(Address, Address), Allowance>, host: Host, exempt: bool,
                              from: Address, to: Address, amount: int)
    requires inv.meta.Some?
    ensures var own := Move(inv, host, exempt, from, to, amount);
            Move(inv.(allowances := allowances), host, exempt, from, to, amount)
            == if own.Ok? then Ok(own.value.(allowances := allowances)) else own
    ensures Move(inv, host, exempt, from, to, amount).Ok? ==>
              Move(inv, host, exempt, from, to, amount).value.allowances == inv.allowances
  {
  }
}
