/** When redemptions can take out more than the settlement: exactly the states from which the dust can become negative.
    */
module InvoiceOverdraw {
  import opened Prelude
  import opened InvoiceModel
  import opened InvoiceProofs
  import opened InvoiceSettlement
  import Entitlements = InvoiceEntitlements

  // ---- Continuations without a new settlement write -------------------------------------

  /** Issues and burns are non-negative and the settlement amount of the id is not written. */
  predicate Continues(calls: seq<Call>, id: string) {
    NonNegativeCalls(calls)
    && forall i :: 0 <= i < |calls| && calls[i].Single? && calls[i].id == id ==>
         !calls[i].op.OpSettle? && !calls[i].op.OpPartialSettle?
  }

  predicate Closed(s: Status) {
    IsSettled(s) || s.Redeemed?
  }

  ghost predicate Overdrawn(inv: Invoice) {
    inv.dust.Some? && inv.dust.value < 0
  }

  /** Some continuation takes the dust below zero. */
  ghost predicate CanOverdraw(c: Contract, id: string) {
    exists more :: Continues(more, id) && Overdrawn(Get(Run(c, more), id))
  }

  /** What the dust has beyond the supply. */
  function Cover(inv: Invoice): int {
    if inv.dust.Some? then inv.dust.value - inv.supply else 0
  }

  // ---- The cover never shrinks -----------------------------------------------------------

  lemma CoverStep(inv: Invoice, id: string, paused: bool, exempt: bool, op: Op, t: Trail)
    requires Good(inv, t) && Closed(inv.status) && NonNegativeOp(op) && !op.OpSettle? && !op.OpPartialSettle?
    requires Apply(inv, id, paused, exempt, op).Ok?
    ensures var after := Apply(inv, id, paused, exempt, op).value;
            Closed(after.status) && Cover(after) >= Cover(inv)
  {
    hide CheckTransfer, CheckMeta, Move, Credit, RedeemCap, Lowered, JournalOk, NonNegative, Conserved;
    match op
    case OpRedeem(host, from, amount) => RedeemCover(inv, host, paused, from, amount, t);
    case OpTransfer(host, from, to, amount) =>
      TransferChecked(inv, host, id, from, to, amount);
      MoveFrame(inv, host, exempt, from, to, amount);
    case OpTransferFrom(host, spender, from, to, amount) =>
      TransferChecked(inv, host, id, from, to, amount);
      MoveFrame(Spend(inv, from, spender, amount), host, exempt, from, to, amount);
    case _ =>
  }

  lemma RedeemCover(inv: Invoice, host: Host, paused: bool, from: Address, amount: int, t: Trail)
    requires Good(inv, t) && Redeem(inv, host, paused, from, amount).Ok?
    ensures var after := Redeem(inv, host, paused, from, amount).value;
            Closed(after.status) && Cover(after) == Cover(inv)
  {
    hide Credit, RedeemCap, Lowered, JournalOk, NonNegative;
    RedeemDust(inv, host, paused, from, amount, t);
  }

  /** One call of a continuation. */
  lemma ContinueStep(c: Contract, call: Call, id: string, t: Trail) returns (t': Trail)
    requires Good(Get(c, id), t) && Closed(Get(c, id).status) && Continues([call], id)
    ensures Good(Get(Next(c, call), id), t') && Closed(Get(Next(c, call), id).status)
    ensures Cover(Get(Next(c, call), id)) >= Cover(Get(c, id))
  {
    hide Good, Apply, BatchState, PartialSettle;
    assert [call][0] == call;
    t' := t;
    match call
    case Single(name, op) =>
      if Target(name, op) == id && ApplyCall(c, call).Ok? {
        NoNewSettlement(Get(c, id), id, c.paused, c.feeExempt, name, op, t);
        CoverStep(Get(c, id), id, c.paused, c.feeExempt, op, t);
        GoodStep(Get(c, id), id, c.paused, c.feeExempt, op, t);
        t' := TrailNext(t, Get(Next(c, call), id), op);
      }
    case BatchSettle(host, items) =>
      var amount := BatchTouchesOnce(c, host, Effective(items), id);
      ClosedNotSettled(Get(c, id), host, c.paused, amount);
    case _ =>
  }

  lemma NoNewSettlement(inv: Invoice, id: string, paused: bool, exempt: bool, name: string, op: Op, t: Trail)
    requires Continues([Single(name, op)], id) && Target(name, op) == id
    requires Good(inv, t) && Closed(inv.status) && Apply(inv, id, paused, exempt, op).Ok?
    ensures NonNegativeOp(op) && !op.OpSettle? && !op.OpPartialSettle?
  {
    hide Good;
    assert [Single(name, op)][0] == Single(name, op);
  }

  lemma ClosedNotSettled(inv: Invoice, host: Host, paused: bool, amount: int)
    requires Closed(inv.status)
    ensures PartialSettle(inv, host, paused, amount).Err?
  {
  }

  lemma {:induction false} ContinueRun(c: Contract, more: seq<Call>, id: string, t: Trail) returns (t': Trail)
    requires Good(Get(c, id), t) && Closed(Get(c, id).status) && Continues(more, id)
    ensures Good(Get(Run(c, more), id), t') && Closed(Get(Run(c, more), id).status)
    ensures Cover(Get(Run(c, more), id)) >= Cover(Get(c, id))
    decreases |more|
  {
    hide Good, Next, Cover, Closed;
    t' := t;
    if more != [] {
      var init, call := more[..|more| - 1], more[|more| - 1];
      t' := ContinueRun(c, init, id, t);
      t' := ContinueStep(Run(c, init), call, id, t');
    }
  }

  /** What is overdrawn was not covered. */
  lemma OverdrawnWasUncovered(c: Contract, more: seq<Call>, id: string, t: Trail)
    requires Good(Get(c, id), t) && Closed(Get(c, id).status) && Continues(more, id)
    requires Overdrawn(Get(Run(c, more), id))
    ensures Cover(Get(c, id)) < 0
  {
    var t' := ContinueRun(c, more, id, t);
    SupplyNonNegative(Get(Run(c, more), id));
  }

  // ---- A sole holder of the supply ---------------------------------------------------------

  /** The whole supply is at one address. */
  ghost predicate Sole(inv: Invoice, z: Address) {
    Lookup(inv.balances, z) == inv.supply
  }

  lemma SoleCap(inv: Invoice, z: Address)
    requires Sole(inv, z) && z !in inv.entitlements && 0 < inv.supply <= I128_MAX && 0 < inv.settlement <= I128_MAX
    requires inv.supply * inv.settlement < U128_LIMIT
    ensures RedeemCap(inv, z) == inv.settlement
  {
    CancelFactor(inv.supply, inv.settlement);
  }

  /** A redemption by a sole holder without an entry, up to the settlement. */
  lemma SoleRedeems(inv: Invoice, z: Address, amount: int, t: Trail)
    requires Good(inv, t) && IsSettled(inv.status) && Sole(inv, z) && z !in inv.entitlements
    requires inv.supply * inv.settlement < U128_LIMIT && 0 < amount <= Min(inv.supply, inv.settlement)
    ensures Redeem(inv, OPEN_HOST, false, z, amount).Ok?
    ensures var after := Redeem(inv, OPEN_HOST, false, z, amount).value;
            && after.dust == Some(inv.dust.value - amount) && after.supply == inv.supply - amount
            && Sole(after, z) && z !in after.entitlements && after.settlement == inv.settlement
            && (amount < inv.supply ==> after.status == inv.status)
            && Good(after, t.(redeemed := t.redeemed + amount))
  {
    SoleCap(inv, z);
    hide RedeemCap, JournalOk, NonNegative, Good;
    Facts(inv, t);
    var op := OpRedeem(OPEN_HOST, z, amount);
    RedeemDust(inv, OPEN_HOST, false, z, amount, t);
    GoodStep(inv, "", false, false, op, t);
  }

  lemma Facts(inv: Invoice, t: Trail)
    requires Good(inv, t)
    ensures Holdings(inv) && DustOk(inv, t) && 0 <= inv.supply <= I128_MAX
    ensures Closed(inv.status) ==> 0 < inv.settlement <= I128_MAX && inv.dust.Some? && inv.dust.value <= inv.settlement
  {
    SupplyNonNegative(inv);
  }

  lemma NextRedeem(c: Contract, id: string, z: Address, amount: int)
    requires !c.paused && Redeem(Get(c, id), OPEN_HOST, false, z, amount).Ok?
    ensures var after := Next(c, Single(id, OpRedeem(OPEN_HOST, z, amount)));
            Get(after, id) == Redeem(Get(c, id), OPEN_HOST, false, z, amount).value && after.paused == c.paused
  {
    hide Redeem;
  }

  // ---- Addresses and their balances --------------------------------------------------------

  lemma UnusedAddress(s: set<Address>) returns (z: Address)
    ensures forall a :: a in s ==> a.key < z.key
    decreases |s|
  {
    z := Address(0);
    if s != {} {
      var a :| a in s;
      var rest := UnusedAddress(s - {a});
      z := if a.key < rest.key then rest else Address(a.key + 1);
      assert s == (s - {a}) + {a};
    }
  }

  /** The other addresses that still hold something. */
  function Others(balances: map<Address, int>, z: Address): set<Address> {
    set a | a in balances && a != z && balances[a] != 0
  }

  lemma {:induction false} NoOthers(balances: map<Address, int>, z: Address)
    requires NonNegative(balances) && Others(balances, z) == {}
    ensures Total(balances) == Lookup(balances, z)
  {
    forall a | a in balances - {z}
      ensures balances[a] == 0
    {
      assert a !in Others(balances, z);
    }
    TotalOfZeros(balances - {z});
    TotalWithout(balances, z);
  }

  lemma TwoBalances(balances: map<Address, int>, a: Address, z: Address)
    requires NonNegative(balances) && a != z
    ensures Lookup(balances, a) + Lookup(balances, z) <= Total(balances)
  {
    TotalWithout(balances, a);
    TotalBounds(balances - {a}, z);
  }

  lemma ContinuesAppend(calls: seq<Call>, more: seq<Call>, id: string)
    requires Continues(calls, id) && Continues(more, id)
    ensures Continues(calls + more, id)
  {
  }

  lemma OtherHolder(balances: map<Address, int>, z: Address, a: Address)
    requires NonNegative(balances) && a in Others(balances, z)
    ensures a != z && Lookup(balances, a) >= 1
  {
  }

  lemma Unpause(c: Contract, more: seq<Call>, id: string)
    requires Continues(more, id)
    ensures Continues([SetPaused(false)] + more, id)
    ensures Run(c, [SetPaused(false)] + more) == Run(c.(paused := false), more)
  {
    Entitlements.RunConcat(c, [SetPaused(false)], more);
    Entitlements.RunSnoc(c, [], SetPaused(false));
    assert [] + [SetPaused(false)] == [SetPaused(false)];
    assert Continues([SetPaused(false)], id);
    ContinuesAppend([SetPaused(false)], more, id);
  }

  // ---- Inputs ----------------------------------------------------------------------------------

  /** Everything is issued to one holder, and less than that is settled. */
  function Owed(holder: Address, supply: i128, settlement: int): seq<Call> {
    [Single("INV-1", OpCreate(Meta("INV-1", supply, 0, 0, 0, None, true, true))),
     Single("INV-1", OpIssue(OPEN_HOST, holder, supply)),
     Single("INV-1", OpPartialSettle(OPEN_HOST, settlement))]
  }

  lemma OwedState(holder: Address, supply: i128, settlement: int)
    requires 0 < settlement < supply
    ensures NonNegativeCalls(Owed(holder, supply, settlement))
    ensures var c := Run(EMPTY, Owed(holder, supply, settlement));
            var inv := Get(c, "INV-1");
            && !c.paused && inv.balances == map[holder := supply] && inv.supply == supply
            && inv.status == PartiallySettled
            && inv.settlement == settlement && inv.entitlements == map[] && inv.dust == Some(settlement)
  {
    var calls := Owed(holder, supply, settlement);
    RunThree(calls[0], calls[1], calls[2]);
    var c1 := Next(EMPTY, calls[0]);
    assert Get(c1, "INV-1") == ABSENT.(meta := Some(Meta("INV-1", supply, 0, 0, 0, None, true, true)));
    var c2 := Next(c1, calls[1]);
    assert Get(c2, "INV-1").balances == map[holder := supply] && Get(c2, "INV-1").status == Issued;
  }

  /** A sole holder of more than a partial settlement redeems it and then one unit more. */
  lemma UnbackedOverdraws(holder: Address, supply: i128, settlement: int)
    requires 0 < settlement < supply && supply * settlement < U128_LIMIT
    ensures var more := [Single("INV-1", OpRedeem(OPEN_HOST, holder, settlement)),
                         Single("INV-1", OpRedeem(OPEN_HOST, holder, 1))];
            Get(Run(EMPTY, Owed(holder, supply, settlement) + more), "INV-1").dust == Some(-1)
  {
    hide Good, Redeem, Next, Owed, NonNegativeCalls;
    var calls := Owed(holder, supply, settlement);
    var first := Single("INV-1", OpRedeem(OPEN_HOST, holder, settlement));
    var second := Single("INV-1", OpRedeem(OPEN_HOST, holder, 1));
    OwedState(holder, supply, settlement);
    RunGood(calls, "INV-1");
    var c, t := Run(EMPTY, calls), TrailOf(calls, "INV-1");
    SoleRedeems(Get(c, "INV-1"), holder, settlement, t);
    NextRedeem(c, "INV-1", holder, settlement);
    var c1 := Next(c, first);
    OrderedFactors(supply - settlement, supply, settlement);
    SoleRedeems(Get(c1, "INV-1"), holder, 1, t.(redeemed := t.redeemed + settlement));
    NextRedeem(c1, "INV-1", holder, 1);
    Entitlements.RunSnoc(EMPTY, calls, first);
    Entitlements.RunSnoc(EMPTY, calls + [first], second);
    assert calls + [first] + [second] == calls + [first, second];
  }

  lemma RunThree(x: Call, y: Call, z: Call)
    ensures Run(EMPTY, [x, y, z]) == Next(Next(Next(EMPTY, x), y), z)
  {
    hide Next;
    Entitlements.RunSnoc(EMPTY, [], x);
    Entitlements.RunSnoc(EMPTY, [x], y);
    Entitlements.RunSnoc(EMPTY, [x, y], z);
    assert [] + [x] == [x] && [x] + [y] == [x, y] && [x, y] + [z] == [x, y, z];
  }

  /** A holder of 2^96 units, all of them issued and fully settled, has a cap of zero: the 128-bit product overflows and
      every redemption is refused. */
  lemma OverflowLocksOut(holder: Address)
    ensures var face := 0x1_0000_0000_0000_0000_0000_0000;
            var meta := Meta("INV-1", face, 0, 0, 0, None, true, true);
            var calls := [Single("INV-1", OpCreate(meta)), Single("INV-1", OpIssue(OPEN_HOST, holder, face)),
                          Single("INV-1", OpSettle(OPEN_HOST))];
            var inv := Get(Run(EMPTY, calls), "INV-1");
            && TrailOf(calls, "INV-1").backed && inv.settlement == inv.supply == face && RedeemCap(inv, holder) == 0
            && Redeem(inv, OPEN_HOST, false, holder, 1) == Err(OverSettlement)
  {
    var face := 0x1_0000_0000_0000_0000_0000_0000;
    var meta := Meta("INV-1", face, 0, 0, 0, None, true, true);
    var x, y := Single("INV-1", OpCreate(meta)), Single("INV-1", OpIssue(OPEN_HOST, holder, face));
    var z := Single("INV-1", OpSettle(OPEN_HOST));
    var calls := [x, y, z];
    RunThree(x, y, z);
    var c1 := Next(EMPTY, x);
    assert Get(c1, "INV-1") == ABSENT.(meta := Some(meta));
    var c2 := Next(c1, y);
    assert Get(c2, "INV-1").balances == map[holder := face] && Get(c2, "INV-1").supply == face;
    assert calls[..2] == [x, y];
    Entitlements.RunSnoc(EMPTY, [x], y);
    Entitlements.RunSnoc(EMPTY, [], x);
    assert [] + [x] == [x] && [x] + [y] == [x, y];
  }
}
