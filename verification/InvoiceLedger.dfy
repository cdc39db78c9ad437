/** The dust ledger and the signs of balances over all runs, whatever amounts the callers pass. */
module InvoiceLedger {
  import opened Prelude
  import opened InvoiceModel
  import opened InvoiceProofs
  import opened InvoiceSettlement
  import Entitlements = InvoiceEntitlements

  // ---- One call as it touches one invoice ------------------------------------------------

  /** The operation by which a call changes an invoice, if it touches it. */
  lemma Touching(c: Contract, call: Call, id: string) returns (op: Option<Op>)
    ensures match op
            case None => Get(Next(c, call), id) == Get(c, id)
            case Some(o) => Apply(Get(c, id), id, c.paused, c.feeExempt, o) == Ok(Get(Next(c, call), id))
    ensures call.Single? && Target(call.id, call.op) == id && ApplyCall(c, call).Ok? ==> op == Some(call.op)
    ensures op.Some? && call.Single? ==> op.value == call.op && Target(call.id, call.op) == id && ApplyCall(c, call).Ok?
    ensures op.Some? && !call.Single? ==>
              call.BatchSettle? && op.value.OpPartialSettle? && Get(Next(c, call), id).status != Get(c, id).status
    ensures call.BatchSettle? && op.None? ==> Get(Next(c, call), id).status == Get(c, id).status
  {
    hide Apply, BatchState, PartialSettle;
    op := None;
    match call
    case Single(name, o) =>
      if Target(name, o) == id && ApplyCall(c, call).Ok? {
        op := Some(o);
      }
    case BatchSettle(host, items) =>
      var amount := BatchTouchesOnce(c, host, Effective(items), id);
      if Get(Next(c, call), id).status != Get(c, id).status {
        ApplyPartial(Get(c, id), id, c.paused, c.feeExempt, host, amount);
        op := Some(OpPartialSettle(host, amount));
      }
    case _ =>
  }

  // ---- The ledger ------------------------------------------------------------------------

  predicate Written(s: Status) {
    IsSettled(s) || s.Redeemed?
  }

  /** What saturating subtractions make of a difference. */
  function Saturated(x: int): int {
    if x < I128_MIN then I128_MIN else x
  }

  ghost predicate Ledger(inv: Invoice, t: Trail) {
    Written(inv.status) ==>
      && 0 < inv.settlement <= I128_MAX && t.redeemed >= 0
      && inv.dust == Some(Saturated(inv.settlement - t.redeemed))
  }

  lemma LedgerStep(inv: Invoice, id: string, paused: bool, exempt: bool, op: Op, t: Trail)
    requires Basic(inv) && Ledger(inv, t) && Apply(inv, id, paused, exempt, op).Ok?
    ensures var after := Apply(inv, id, paused, exempt, op).value; Ledger(after, TrailNext(t, after, op))
  {
    hide Credit, RedeemCap, JournalOk, CheckTransfer, CheckMeta, Move, Lowered;
    match op
    case OpTransfer(host, from, to, amount) =>
      TransferChecked(inv, host, id, from, to, amount);
      MoveFrame(inv, host, exempt, from, to, amount);
    case OpTransferFrom(host, spender, from, to, amount) =>
      TransferChecked(inv, host, id, from, to, amount);
      MoveFrame(Spend(inv, from, spender, amount), host, exempt, from, to, amount);
    case _ =>
  }

  lemma {:induction false} RunLedger(calls: seq<Call>, id: string)
    ensures Ledger(Get(Run(EMPTY, calls), id), TrailOf(calls, id))
    decreases |calls|
  {
    hide Apply, Basic, Ledger, Next, Get;
    if calls == [] {
      AbsentLedger();
    } else {
      var init, call := calls[..|calls| - 1], calls[|calls| - 1];
      var c := Run(EMPTY, init);
      RunLedger(init, id);
      RunBasic(init, id);
      var op := Touching(c, call, id);
      if op.Some? {
        LedgerStep(Get(c, id), id, c.paused, c.feeExempt, op.value, TrailOf(init, id));
      }
    }
  }

  lemma AbsentLedger()
    ensures Ledger(Get(EMPTY, ""), NO_TRAIL)
    ensures forall id :: Get(EMPTY, id) == Get(EMPTY, "")
  {
  }

  /** In every settled or redeemed state, for all amounts, the dust is the settlement less what was redeemed since it
      was written, saturated; so dust and redemptions add up to the settlement exactly when the difference is in range.
      */
  lemma DustLedger(calls: seq<Call>, id: string)
    ensures var inv, redeemed := Get(Run(EMPTY, calls), id), TrailOf(calls, id).redeemed;
            Written(inv.status) ==>
              && redeemed >= 0 && inv.dust == Some(Saturated(inv.settlement - redeemed))
              && (inv.dust.value + redeemed == inv.settlement <==> inv.settlement - redeemed >= I128_MIN)
  {
    hide Run, TrailOf, Get;
    RunLedger(calls, id);
  }

  // ---- Signs -----------------------------------------------------------------------------

  /** If the call issues to an address, the address is not taken below zero. */
  predicate IssueCovered(c: Contract, call: Call, id: string) {
    call.Single? && call.id == id && call.op.OpIssue? && ApplyCall(c, call).Ok? ==>
      Lookup(Get(c, id).balances, call.op.to) + call.op.amount >= 0
  }

  lemma SignStep(inv: Invoice, id: string, paused: bool, exempt: bool, op: Op)
    requires Basic(inv) && NonNegative(inv.balances) && Apply(inv, id, paused, exempt, op).Ok?
    ensures NonNegative(Apply(inv, id, paused, exempt, op).value.balances)
            <==> op.OpIssue? ==> Lookup(inv.balances, op.to) + op.amount >= 0
  {
    hide RedeemCap, JournalOk, CheckTransfer, CheckMeta, Move, Lowered, NonNegative, Credit;
    match op
    case OpIssue(host, to, amount) => IssueKeepsNonNegative(inv, host, to, amount);
    case OpRedeem(host, from, amount) => CreditNonNegative(inv.balances, from, -amount);
    case OpBurn(host, from, amount) => CreditNonNegative(inv.balances, from, -amount);
    case OpBurnFrom(host, spender, from, amount) => CreditNonNegative(inv.balances, from, -amount);
    case OpTransfer(host, from, to, amount) =>
      TransferChecked(inv, host, id, from, to, amount);
      MoveHoldings(inv, host, exempt, from, to, amount);
    case OpTransferFrom(host, spender, from, to, amount) =>
      TransferChecked(inv, host, id, from, to, amount);
      MoveHoldings(Spend(inv, from, spender, amount), host, exempt, from, to, amount);
    case _ =>
  }

  lemma SignCall(c: Contract, call: Call, id: string)
    requires Basic(Get(c, id)) && NonNegative(Get(c, id).balances)
    ensures NonNegative(Get(Next(c, call), id).balances) <==> IssueCovered(c, call, id)
  {
    hide Apply, Basic, Next, Get, NonNegative;
    var op := Touching(c, call, id);
    if op.Some? {
      SignStep(Get(c, id), id, c.paused, c.feeExempt, op.value);
    }
  }

  lemma NextMoment(calls: seq<Call>, k: nat)
    requires k < |calls|
    ensures Run(EMPTY, calls[..k + 1]) == Next(Run(EMPTY, calls[..k]), calls[k])
  {
    hide Next;
    assert calls[..k + 1] == calls[..k] + [calls[k]];
    Entitlements.RunSnoc(EMPTY, calls[..k], calls[k]);
  }

  lemma {:induction false} SignsSoFar(calls: seq<Call>, id: string, k: nat)
    requires k <= |calls| && forall j :: 0 <= j < k ==> IssueCovered(Run(EMPTY, calls[..j]), calls[j], id)
    ensures NonNegative(Get(Run(EMPTY, calls[..k]), id).balances)
  {
    hide Next, IssueCovered, Basic;
    if k == 0 {
      assert calls[..0] == [];
    } else {
      SignsSoFar(calls, id, k - 1);
      RunBasic(calls[..k - 1], id);
      NextMoment(calls, k - 1);
      SignCall(Run(EMPTY, calls[..k - 1]), calls[k - 1], id);
    }
  }

  /** Balances are non-negative at every moment of a run exactly when no issue ever takes its recipient below zero. */
  lemma BalancesOverRun(calls: seq<Call>, id: string)
    ensures (forall k :: 0 <= k <= |calls| ==> NonNegative(Get(Run(EMPTY, calls[..k]), id).balances))
            <==> forall k :: 0 <= k < |calls| ==> IssueCovered(Run(EMPTY, calls[..k]), calls[k], id)
  {
    hide *;
    if forall k :: 0 <= k <= |calls| ==> NonNegative(Get(Run(EMPTY, calls[..k]), id).balances) {
      forall k | 0 <= k < |calls|
        ensures IssueCovered(Run(EMPTY, calls[..k]), calls[k], id)
      {
        assert NonNegative(Get(Run(EMPTY, calls[..k + 1]), id).balances);
        RunBasic(calls[..k], id);
        NextMoment(calls, k);
        SignCall(Run(EMPTY, calls[..k]), calls[k], id);
      }
    }
    if forall k :: 0 <= k < |calls| ==> IssueCovered(Run(EMPTY, calls[..k]), calls[k], id) {
      forall k | 0 <= k <= |calls|
        ensures NonNegative(Get(Run(EMPTY, calls[..k]), id).balances)
      {
        SignsSoFar(calls, id, k);
      }
    }
  }

  // ---- After redemption ---------------------------------------------------------------------

  /** Redeemed, with nothing left. */
  ghost predicate Over(inv: Invoice) {
    inv.status.Redeemed? && inv.supply == 0 && forall a :: Lookup(inv.balances, a) == 0
  }

  function Burnt(op: Op): int {
    match op
    case OpBurn(_, _, amount) => amount
    case OpBurnFrom(_, _, _, amount) => amount
    case _ => 0
  }

  predicate BurnsNothing(c: Contract, call: Call, id: string) {
    call.Single? && call.id == id && ApplyCall(c, call).Ok? ==> Burnt(call.op) == 0
  }

  lemma OverBurn(inv: Invoice, host: Host, from: Address, amount: int)
    requires Over(inv) && BurnMove(inv, host, from, amount).Ok?
    ensures Over(BurnMove(inv, host, from, amount).value) <==> amount == 0
  {
    var after := BurnMove(inv, host, from, amount).value;
    assert after.balances == Credit(inv.balances, from, -amount) && after.supply == -amount;
    if amount == 0 {
      forall x
        ensures Lookup(after.balances, x) == 0
      {
        assert Lookup(inv.balances, x) == 0;
      }
    }
  }

  lemma OverStep(inv: Invoice, id: string, paused: bool, exempt: bool, op: Op)
    requires Basic(inv) && Over(inv) && Apply(inv, id, paused, exempt, op).Ok?
    ensures Over(Apply(inv, id, paused, exempt, op).value) <==> Burnt(op) == 0
  {
    hide RedeemCap, JournalOk, CheckMeta, Move, BurnMove;
    match op
    case OpBurn(host, from, amount) => OverBurn(inv, host, from, amount);
    case OpBurnFrom(host, spender, from, amount) => OverBurn(Spend(inv, from, spender, amount), host, from, amount);
    case OpTransfer(host, from, to, amount) => TransferChecked(inv, host, id, from, to, amount);
    case OpTransferFrom(host, spender, from, to, amount) => TransferChecked(inv, host, id, from, to, amount);
    case _ =>
  }

  lemma OverCall(c: Contract, call: Call, id: string)
    requires Basic(Get(c, id)) && Over(Get(c, id))
    ensures Over(Get(Next(c, call), id)) <==> BurnsNothing(c, call, id)
  {
    hide Apply, Basic, Next, Get, Over;
    var op := Touching(c, call, id);
    if op.Some? {
      OverStep(Get(c, id), id, c.paused, c.feeExempt, op.value);
    }
  }

  lemma {:induction false} OverSoFar(calls: seq<Call>, id: string, n: nat, k: nat)
    requires n <= k <= |calls| && Over(Get(Run(EMPTY, calls[..n]), id))
    requires forall j :: n <= j < k ==> BurnsNothing(Run(EMPTY, calls[..j]), calls[j], id)
    ensures Over(Get(Run(EMPTY, calls[..k]), id))
    decreases k
  {
    hide *;
    if k > n {
      OverSoFar(calls, id, n, k - 1);
      RunBasic(calls[..k - 1], id);
      NextMoment(calls, k - 1);
      OverCall(Run(EMPTY, calls[..k - 1]), calls[k - 1], id);
    }
  }

  /** From a redeemed state with nothing left, the supply and all balances stay zero at every later moment exactly when
      no later burn that succeeds burns anything other than zero. */
  lemma RedeemedOverRun(calls: seq<Call>, id: string, n: nat)
    requires n <= |calls| && Over(Get(Run(EMPTY, calls[..n]), id))
    ensures (forall k :: n <= k <= |calls| ==> Over(Get(Run(EMPTY, calls[..k]), id)))
            <==> forall k :: n <= k < |calls| ==> BurnsNothing(Run(EMPTY, calls[..k]), calls[k], id)
  {
    hide *;
    if forall k :: n <= k <= |calls| ==> Over(Get(Run(EMPTY, calls[..k]), id)) {
      forall k | n <= k < |calls|
        ensures BurnsNothing(Run(EMPTY, calls[..k]), calls[k], id)
      {
        assert Over(Get(Run(EMPTY, calls[..k + 1]), id));
        RunBasic(calls[..k], id);
        NextMoment(calls, k);
        OverCall(Run(EMPTY, calls[..k]), calls[k], id);
      }
    }
    if forall k :: n <= k < |calls| ==> BurnsNothing(Run(EMPTY, calls[..k]), calls[k], id) {
      forall k | n <= k <= |calls|
        ensures Over(Get(Run(EMPTY, calls[..k]), id))
      {
        OverSoFar(calls, id, n, k);
      }
    }
  }

  // ---- An input --------------------------------------------------------------------------------

  const HUGE := 0x4000_0000_0000_0000_0000_0000_0000_0000

  /** One address holds 2^126 units and another owes all of them but one, of an invoice that is settled with one unit.
      */
  ghost predicate Lopsided(c: Contract, a: Address, b: Address, dust: int) {
    var inv := Get(c, "INV-1");
    && !c.paused && inv.status.PartiallySettled? && inv.balances == map[a := HUGE, b := 1 - HUGE] && inv.supply == 1
    && inv.settlement == 1 && inv.entitlements == map[] && inv.dust == Some(dust)
  }

  function Opening(a: Address, b: Address): seq<Call> {
    [Single("INV-1", OpCreate(Meta("INV-1", HUGE, 0, 0, 0, None, true, true))),
     Single("INV-1", OpIssue(OPEN_HOST, a, HUGE)),
     Single("INV-1", OpIssue(OPEN_HOST, b, 1 - HUGE)),
     Single("INV-1", OpPartialSettle(OPEN_HOST, 1))]
  }

  function Out(a: Address): Call {
    Single("INV-1", OpRedeem(OPEN_HOST, a, HUGE))
  }

  function Back(a: Address): Call {
    Single("INV-1", OpBurn(OPEN_HOST, a, -HUGE))
  }

  lemma OpeningState(a: Address, b: Address)
    requires a != b
    ensures Lopsided(Run(EMPTY, Opening(a, b)), a, b, 1)
  {
    var calls := Opening(a, b);
    Entitlements.RunFour(calls[0], calls[1], calls[2], calls[3]);
    var c1 := Next(EMPTY, calls[0]);
    assert Get(c1, "INV-1") == ABSENT.(meta := Some(Meta("INV-1", HUGE, 0, 0, 0, None, true, true)));
    var c2 := Next(c1, calls[1]);
    assert Get(c2, "INV-1").balances == map[a := HUGE] && Get(c2, "INV-1").supply == HUGE;
    var c3 := Next(c2, calls[2]);
    assert Get(c3, "INV-1").balances == map[a := HUGE, b := 1 - HUGE] && Get(c3, "INV-1").supply == 1;
  }

  lemma RedeemHuge(c: Contract, a: Address, b: Address, dust: int)
    requires a != b && Lopsided(c, a, b, dust) && I128_MIN <= dust <= 1
    ensures var c' := Next(c, Out(a));
            var inv := Get(c', "INV-1");
            && inv.balances == map[a := 0, b := 1 - HUGE] && inv.supply == 1 - HUGE && inv.settlement == 1
            && inv.dust == Some(Saturated(dust - HUGE)) && !c'.paused && inv.status.PartiallySettled?
            && inv.entitlements == map[]
  {
    var inv := Get(c, "INV-1");
    assert MulDiv(HUGE, 1, 1) == HUGE;
    assert RedeemCap(inv, a) == HUGE;
    hide RedeemCap, MulDiv;
    assert Redeem(inv, OPEN_HOST, false, a, HUGE).Ok?;
  }

  lemma BurnHuge(c: Contract, a: Address, b: Address, dust: int)
    requires a != b && !c.paused
    requires var inv := Get(c, "INV-1");
             && inv.status.PartiallySettled? && inv.balances == map[a := 0, b := 1 - HUGE] && inv.supply == 1 - HUGE
             && inv.settlement == 1 && inv.entitlements == map[] && inv.dust == Some(dust)
    ensures Lopsided(Next(c, Back(a)), a, b, dust)
  {
  }

  lemma TrailSnoc(calls: seq<Call>, op: Op)
    requires !op.OpCreate? && ApplyCall(Run(EMPTY, calls), Single("INV-1", op)).Ok?
    ensures var all := calls + [Single("INV-1", op)];
            TrailOf(all, "INV-1") == TrailNext(TrailOf(calls, "INV-1"), Get(Run(EMPTY, all), "INV-1"), op)
  {
    hide Apply;
    var all := calls + [Single("INV-1", op)];
    assert all[..|calls|] == calls;
  }

  lemma LedgerOf(inv: Invoice, t: Trail, dust: int)
    requires Ledger(inv, t) && inv.status.PartiallySettled? && inv.dust == Some(dust) && dust > I128_MIN
    ensures t.redeemed == inv.settlement - dust
  {
  }

  lemma OutSucceeds(c: Contract, a: Address, b: Address, dust: int)
    requires a != b && Lopsided(c, a, b, dust) && I128_MIN <= dust <= 1
    ensures ApplyCall(c, Out(a)).Ok?
  {
    assert MulDiv(HUGE, 1, 1) == HUGE;
    assert RedeemCap(Get(c, "INV-1"), a) == HUGE;
    hide RedeemCap, MulDiv;
  }

  /** Three redemptions of 2^126 units with negative burns between them: the dust stops at the least 128-bit number, and
      dust and redemptions no longer add up to the settlement. */
  lemma DustSaturates(a: Address, b: Address)
    requires a != b
    ensures var calls := Opening(a, b) + [Out(a)] + [Back(a)] + [Out(a)] + [Back(a)] + [Out(a)];
            var inv, redeemed := Get(Run(EMPTY, calls), "INV-1"), TrailOf(calls, "INV-1").redeemed;
            && inv.status.PartiallySettled? && inv.settlement == 1 && inv.dust == Some(I128_MIN)
            && redeemed == 3 * HUGE && inv.dust.value + redeemed > inv.settlement
  {
    hide Opening, Next, Get, Lopsided, TrailOf, Run, ApplyCall;
    OpeningState(a, b);
    var c0 := Opening(a, b);
    Entitlements.RunSnoc(EMPTY, c0, Out(a));
    RedeemHuge(Run(EMPTY, c0), a, b, 1);
    var c1 := c0 + [Out(a)];
    Entitlements.RunSnoc(EMPTY, c1, Back(a));
    BurnHuge(Run(EMPTY, c1), a, b, 1 - HUGE);
    var c2 := c1 + [Back(a)];
    Entitlements.RunSnoc(EMPTY, c2, Out(a));
    RedeemHuge(Run(EMPTY, c2), a, b, 1 - HUGE);
    var c3 := c2 + [Out(a)];
    Entitlements.RunSnoc(EMPTY, c3, Back(a));
    BurnHuge(Run(EMPTY, c3), a, b, 1 - HUGE - HUGE);
    var c4 := c3 + [Back(a)];
    Entitlements.RunSnoc(EMPTY, c4, Out(a));
    RedeemHuge(Run(EMPTY, c4), a, b, 1 - HUGE - HUGE);
    LopsidedDust(Run(EMPTY, c4), a, b, 1 - HUGE - HUGE);
    RunLedger(c4, "INV-1");
    LedgerOf(Get(Run(EMPTY, c4), "INV-1"), TrailOf(c4, "INV-1"), 1 - HUGE - HUGE);
    OutSucceeds(Run(EMPTY, c4), a, b, 1 - HUGE - HUGE);
    TrailSnoc(c4, OpRedeem(OPEN_HOST, a, HUGE));
  }

  lemma LopsidedDust(c: Contract, a: Address, b: Address, dust: int)
    requires Lopsided(c, a, b, dust)
    ensures var inv := Get(c, "INV-1"); inv.dust == Some(dust) && inv.settlement == 1 && inv.status.PartiallySettled?
  {
  }
}
