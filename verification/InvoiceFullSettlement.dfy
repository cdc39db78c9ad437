/** Settled invoices of which no balance can become redeemable through a transfer: which of them can be overdrawn by
    redemptions and burns. */
module InvoiceFullSettlement {
  import opened Prelude
  import opened InvoiceModel
  import opened InvoiceProofs
  import opened InvoiceSettlement
  import opened InvoiceOverdraw
  import opened InvoiceRedeemable
  import Entitlements = InvoiceEntitlements

  /** Every transfer goes to the fee recipient as a whole. */
  predicate WholeFee(meta: Meta) {
    FeeApplies(meta) && meta.feeBps == 10_000
  }

  /** No transfer makes anything redeemable: there is none, or all of it goes to a locked fee recipient. */
  predicate Immobile(inv: Invoice, id: string) {
    || inv.status.FullySettled? || inv.status.Redeemed?
    || (inv.status.PartiallySettled? && inv.meta.Some?
        && (CheckReference(id).Some? || (WholeFee(inv.meta.value) && Locked(inv, inv.meta.value.feeRecipient.value))))
  }

  /** The dust is negative, or it does not cover what is usable and a first unit has been redeemed or can be. */
  ghost predicate Overdrawable(inv: Invoice)
    requires inv.dust.Some?
  {
    || inv.dust.value < 0
    || (inv.dust.value < Total(Free(inv)) && (inv.dust.value < inv.settlement || exists a :: Spark(inv, a)))
  }

  // ---- What is not overdrawable stays so ----------------------------------------------------

  ghost predicate Safe(inv: Invoice, id: string) {
    Immobile(inv, id) && inv.meta.Some? && inv.dust.Some? && !Overdrawable(inv)
  }

  lemma NothingRedeemable(inv: Invoice, t: Trail, from: Address)
    requires Good(inv, t) && Closed(inv.status) && inv.settlement <= inv.dust.value < Total(Free(inv))
    requires !Spark(inv, from)
    ensures inv.settlement < inv.supply
    ensures RedeemCap(inv, from) <= 0 || Lookup(inv.balances, from) <= 0
  {
    hide JournalOk, Total, Free;
    FreeBounds(inv);
    LookupNonNegative(inv.balances, from);
    Facts(inv, t);
    SmallShare(Lookup(inv.balances, from), inv.settlement, inv.supply);
  }

  lemma SmallShare(bal: int, settlement: int, supply: int)
    requires 0 < settlement <= I128_MAX && 0 <= supply <= I128_MAX
    ensures bal == 1 && settlement < supply ==> MulDiv(bal, settlement, supply) == 0
  {
  }

  lemma SafeRedeem(inv: Invoice, id: string, host: Host, paused: bool, from: Address, amount: int, t: Trail)
    requires Good(inv, t) && Safe(inv, id) && Redeem(inv, host, paused, from, amount).Ok?
    ensures Safe(Redeem(inv, host, paused, from, amount).value, id)
  {
    var after := Redeem(inv, host, paused, from, amount).value;
    Facts(inv, t);
    TotalBounds(inv.balances, from);
    RedeemFree(inv, host, paused, from, amount);
    RedeemDust(inv, host, paused, from, amount, t);
    RedeemHoldings(inv, host, paused, from, amount);
    FreeBounds(after);
    hide RedeemCap, Credit, JournalOk, NonNegative, Free, Spark, Total, Locked, Paid, Usable;
    if inv.dust.value < Total(Free(inv)) {
      NothingRedeemable(inv, t, from);
    }
  }

  lemma SafeBurn(inv: Invoice, id: string, host: Host, from: Address, amount: int, t: Trail)
    requires Good(inv, t) && Safe(inv, id) && amount >= 0 && BurnMove(inv, host, from, amount).Ok?
    ensures Safe(BurnMove(inv, host, from, amount).value, id)
  {
    var after := BurnMove(inv, host, from, amount).value;
    BurnFree(inv, host, from, amount);
    NoNewSpark(inv, after, from, amount);
    SameLocks(inv, after);
    hide Credit, JournalOk, NonNegative, Free, Spark, Total, Locked, Usable, CheckReference, BurnMove;
  }

  lemma NoNewSpark(inv: Invoice, after: Invoice, from: Address, amount: int)
    requires amount >= 0 && after.entitlements == inv.entitlements
    requires after.balances == Credit(inv.balances, from, -amount)
    ensures forall a :: Spark(after, a) ==> Spark(inv, a)
  {
  }

  lemma SameLocks(inv: Invoice, after: Invoice)
    requires after.entitlements == inv.entitlements
    ensures forall a :: Locked(after, a) <==> Locked(inv, a)
  {
  }

  // ---- Transfers whose fee is the whole amount ------------------------------------------------

  lemma WholeFeeIsAll(meta: Meta, amount: int)
    requires WholeFee(meta)
    ensures Fee(meta, amount) == amount
  {
  }

  lemma SenderUsable(inv: Invoice, after: Invoice, from: Address, amount: int, t: Trail)
    requires Good(inv, t) && inv.status.PartiallySettled? && 0 <= amount <= Lookup(inv.balances, from)
    requires after.entitlements == Snapshot(inv, from) && after.settlement == inv.settlement
    requires Lookup(after.balances, from) == Lookup(inv.balances, from) - amount
    ensures Usable(after, from) <= Usable(inv, from) && (Locked(inv, from) ==> Locked(after, from))
    ensures inv.settlement < inv.supply && !Spark(inv, from) ==> !Spark(after, from)
  {
    SnapshotUsable(inv, from, t);
    Facts(inv, t);
    ReachNonNegative(inv.settlement);
    SmallShare(Lookup(inv.balances, from), inv.settlement, inv.supply);
    SnapshotLowers(inv, from);
    hide JournalOk, MulDiv, Snapshot, Reach, UsableOf;
    UsableOfLess(Entitlements.EntryOf(after, from), Lookup(inv.balances, from), Reach(inv.settlement), amount);
  }

  lemma SnapshotLowers(inv: Invoice, from: Address)
    requires inv.settlement > 0
    ensures from in inv.entitlements ==>
              from in Snapshot(inv, from) && Snapshot(inv, from)[from] <= inv.entitlements[from]
    ensures inv.status.PartiallySettled? && inv.supply > 0 ==> from in Snapshot(inv, from)
  {
    hide MulDiv;
  }

  /** What such a transfer does to one address, when the fee recipient is locked. */
  lemma WholeFeeMoves(inv: Invoice, host: Host, exempt: bool, from: Address, to: Address, amount: int, t: Trail,
                      x: Address)
    requires Good(inv, t) && inv.status.PartiallySettled? && inv.meta.Some? && amount >= 0
    requires WholeFee(inv.meta.value) && Locked(inv, inv.meta.value.feeRecipient.value)
    requires Move(inv, host, exempt, from, to, amount).Ok?
    ensures var after := Move(inv, host, exempt, from, to, amount).value;
            && Usable(after, x) <= Usable(inv, x) && (Locked(inv, x) ==> Locked(after, x))
            && (inv.settlement < inv.supply && !Spark(inv, x) ==> !Spark(after, x))
            && (x in inv.balances ==> x in after.balances)
            && after == inv.(balances := after.balances, entitlements := after.entitlements)
  {
    var after := Move(inv, host, exempt, from, to, amount).value;
    MoveChecksBalance(inv, host, exempt, from, to, amount);
    WholeFeeIsAll(inv.meta.value, amount);
    hide JournalOk, Fee, MulDiv, CheckReference, Reach, Move, Snapshot, UsableOf, NonNegative;
    Entitlements.MovedBalances(inv, host, exempt, from, to, amount, x);
    Facts(inv, t);
    UsableBounds(inv, x);
    if x != from {
      Entitlements.SnapshotElsewhere(inv, from, x);
      LockedUsable(after, x);
    } else if x == inv.meta.value.feeRecipient.value {
      SnapshotUsable(inv, from, t);
      LockedUsable(after, x);
    } else {
      SenderUsable(inv, after, from, amount, t);
    }
  }

  lemma LockedUsable(inv: Invoice, a: Address)
    ensures Locked(inv, a) ==> Usable(inv, a) == 0
  {
  }

  lemma MoveChecksBalance(inv: Invoice, host: Host, exempt: bool, from: Address, to: Address, amount: int)
    requires inv.meta.Some? && Move(inv, host, exempt, from, to, amount).Ok?
    ensures amount <= Lookup(inv.balances, from)
  {
  }

  lemma SafeMove(inv: Invoice, id: string, host: Host, exempt: bool, from: Address, to: Address, amount: int, t: Trail)
    requires Good(inv, t) && Safe(inv, id) && inv.status.PartiallySettled? && CheckReference(id).None? && amount >= 0
    requires Move(inv, host, exempt, from, to, amount).Ok?
    ensures Safe(Move(inv, host, exempt, from, to, amount).value, id)
  {
    hide Move, Fee, Free, Total, Usable, Spark, Good, CheckReference;
    var after := Move(inv, host, exempt, from, to, amount).value;
    WholeFeeMoves(inv, host, exempt, from, to, amount, t, inv.meta.value.feeRecipient.value);
    forall x
      ensures Usable(after, x) <= Usable(inv, x)
      ensures x in inv.balances ==> x in after.balances
    {
      WholeFeeMoves(inv, host, exempt, from, to, amount, t, x);
    }
    FreeLess(inv, after);
    if inv.dust.value < Total(Free(inv)) {
      forall x
        ensures !Spark(after, x)
      {
        NothingRedeemable(inv, t, x);
        WholeFeeMoves(inv, host, exempt, from, to, amount, t, x);
      }
    }
  }

  // ---- Every call ---------------------------------------------------------------------------

  lemma SafeStep(inv: Invoice, id: string, paused: bool, exempt: bool, op: Op, t: Trail)
    requires Good(inv, t) && Safe(inv, id) && Apply(inv, id, paused, exempt, op).Ok?
    requires NonNegativeOp(op) && !op.OpSettle? && !op.OpPartialSettle?
    ensures Safe(Apply(inv, id, paused, exempt, op).value, id)
  {
    hide CheckMeta, CheckReference, Move, Redeem, BurnMove, Good, Safe;
    SafeStatus(inv, id);
    match op
    case OpRedeem(host, from, amount) => SafeRedeem(inv, id, host, paused, from, amount, t);
    case OpBurn(host, from, amount) => SafeBurn(inv, id, host, from, amount, t);
    case OpBurnFrom(host, spender, from, amount) =>
      var spent := Spend(inv, from, spender, amount);
      SafeSame(inv, spent, id, t);
      SafeBurn(spent, id, host, from, amount, t);
    case OpTransfer(host, from, to, amount) => SafeMove(inv, id, host, exempt, from, to, amount, t);
    case OpTransferFrom(host, spender, from, to, amount) =>
      var spent := Spend(inv, from, spender, amount);
      SafeSame(inv, spent, id, t);
      SafeMove(spent, id, host, exempt, from, to, amount, t);
    case OpAppendJournal(_, _) => SafeSame(inv, Apply(inv, id, paused, exempt, op).value, id, t);
    case OpApprove(_, _, _, _) => SafeSame(inv, Apply(inv, id, paused, exempt, op).value, id, t);
    case _ =>
  }

  lemma SafeStatus(inv: Invoice, id: string)
    requires Safe(inv, id)
    ensures Closed(inv.status) && inv.meta.Some?
  {
  }

  lemma SafeSame(inv: Invoice, after: Invoice, id: string, t: Trail)
    requires Good(inv, t) && Safe(inv, id) && after == inv.(allowances := after.allowances, journal := after.journal)
    ensures Safe(after, id)
    ensures after.journal == inv.journal ==> Good(after, t)
  {
    assert Free(after) == Free(inv);
    assert forall a :: Spark(after, a) == Spark(inv, a);
  }

  lemma SafeCall(c: Contract, call: Call, id: string, t: Trail)
    requires Good(Get(c, id), t) && Safe(Get(c, id), id) && Continues([call], id)
    ensures Safe(Get(Next(c, call), id), id)
  {
    hide Good, Safe, Apply, BatchState, PartialSettle;
    assert [call][0] == call;
    SafeStatus(Get(c, id), id);
    match call
    case Single(name, op) =>
      if Target(name, op) == id && ApplyCall(c, call).Ok? {
        NoNewSettlement(Get(c, id), id, c.paused, c.feeExempt, name, op, t);
        SafeStep(Get(c, id), id, c.paused, c.feeExempt, op, t);
      }
    case BatchSettle(host, items) =>
      var amount := BatchTouchesOnce(c, host, Effective(items), id);
      ClosedNotSettled(Get(c, id), host, c.paused, amount);
    case _ =>
  }

  lemma {:induction false} SafeRun(c: Contract, more: seq<Call>, id: string, t: Trail) returns (t': Trail)
    requires Good(Get(c, id), t) && Safe(Get(c, id), id) && Continues(more, id)
    ensures Good(Get(Run(c, more), id), t') && Safe(Get(Run(c, more), id), id)
    decreases |more|
  {
    hide Good, Safe, Next, Closed, Cover;
    t' := t;
    if more != [] {
      var init, call := more[..|more| - 1], more[|more| - 1];
      t' := SafeRun(c, init, id, t);
      SafeCall(Run(c, init), call, id, t');
      SafeStatus(Get(Run(c, init), id), id);
      t' := ContinueStep(Run(c, init), call, id, t');
    }
  }

  lemma SafeCovers(inv: Invoice, id: string)
    requires Safe(inv, id)
    ensures !Overdrawn(inv)
  {
  }

  // ---- Redeeming everything, once something has been redeemed --------------------------------

  lemma FreeHolder(inv: Invoice) returns (a: Address)
    requires NonNegative(inv.balances) && Total(Free(inv)) > 0
    ensures !Locked(inv, a) && Lookup(inv.balances, a) >= 1
  {
    if forall x :: x in Free(inv) ==> Free(inv)[x] == 0 {
      TotalOfZeros(Free(inv));
    }
    a :| a in Free(inv) && Free(inv)[a] != 0;
    UsableBounds(inv, a);
  }

  /** The supply is one above the dust, all of it is usable, and something has been redeemed. */
  lemma {:induction false} Drain(c: Contract, id: string, t: Trail) returns (more: seq<Call>)
    requires Open(c, id, t)
    requires var inv := Get(c, id);
             inv.supply == inv.dust.value + 1 && Total(Free(inv)) == inv.supply && inv.dust.value < inv.settlement
    ensures Continues(more, id) && Overdrawn(Get(Run(c, more), id))
    decreases Get(c, id).supply
  {
    hide Good, Next, Free, Total, Continues, Redeem, RedeemCap, Usable;
    var inv := Get(c, id);
    Facts(inv, t);
    UnitContinues(id, Address(0));
    if inv.dust.value < 0 {
      more := [];
    } else {
      var a := FreeHolder(inv);
      AllUsable(inv, a);
      OrderedFactors(1, Lookup(inv.balances, a), inv.settlement);
      Redeemable(inv, a, t);
      UnitRedeem(c, id, a, t);
      UnitContinues(id, a);
      var call := Single(id, OpRedeem(OPEN_HOST, a, 1));
      var rest := [];
      if inv.supply > 1 {
        rest := Drain(Next(c, call), id, t.(redeemed := t.redeemed + 1));
      }
      more := [call] + rest;
      Prepend(c, call, rest, id);
    }
  }

  // ---- Burning down to one above the dust ----------------------------------------------------

  /** More than the dust is usable, and a first unit of it has been redeemed or can be, at `z`, once enough is burnt. */
  ghost predicate Fuelled(inv: Invoice, z: Address) {
    && inv.dust.Some? && 0 <= inv.dust.value < Total(Free(inv))
    && (inv.dust.value < inv.settlement || Spark(inv, z))
  }

  lemma FuelledBounds(inv: Invoice, z: Address)
    requires Holdings(inv) && Fuelled(inv, z)
    ensures inv.dust.Some? && 0 <= inv.dust.value && inv.dust.value + 1 <= Total(Free(inv)) <= inv.supply
  {
    FreeBounds(inv);
  }

  /** Someone has more than is usable, or all of the supply is. */
  lemma Excess(inv: Invoice) returns (a: Option<Address>)
    requires NonNegative(inv.balances)
    ensures a.Some? ==> Usable(inv, a.value) < Lookup(inv.balances, a.value)
    ensures a.None? ==> Total(Free(inv)) == Total(inv.balances)
  {
    hide Usable, Total;
    if x :| x in inv.balances && Usable(inv, x) < inv.balances[x] {
      a := Some(x);
    } else {
      a := None;
      forall x | x in inv.balances
        ensures Free(inv)[x] == inv.balances[x]
      {
        UsableBounds(inv, x);
      }
      assert Free(inv) == inv.balances;
    }
  }

  /** Whose unit to burn: one that is not usable, one of a holder other than `z`, or one of the many that `z` has. */
  lemma Victim(inv: Invoice, z: Address, t: Trail) returns (a: Address)
    requires Good(inv, t) && IsSettled(inv.status) && Fuelled(inv, z) && inv.supply >= inv.dust.value + 2
    ensures Lookup(inv.balances, a) >= 1
    ensures Usable(inv, a) < Lookup(inv.balances, a) || Total(Free(inv)) > inv.dust.value + 1
    ensures a == z && inv.dust.value == inv.settlement ==> Lookup(inv.balances, z) >= 3
  {
    Facts(inv, t);
    var excess := Excess(inv);
    if excess.Some? {
      a := excess.value;
      UsableBounds(inv, a);
      if Spark(inv, a) {
        SparkExcess(inv, a);
      }
    } else if Others(inv.balances, z) == {} {
      NoOthers(inv.balances, z);
      a := z;
    } else {
      a :| a in Others(inv.balances, z);
    }
  }

  lemma SparkExcess(inv: Invoice, a: Address)
    requires 0 < inv.settlement <= I128_MAX && Spark(inv, a) && Usable(inv, a) < Lookup(inv.balances, a)
    ensures Lookup(inv.balances, a) >= 3
  {
    ReachExact(0, inv.settlement);
  }

  lemma FuelledAfter(inv: Invoice, after: Invoice, z: Address, a: Address)
    requires Fuelled(inv, z) && after.dust == inv.dust && after.settlement == inv.settlement
    requires after.entitlements == inv.entitlements && after.balances == Credit(inv.balances, a, -1)
    requires Total(Free(after)) > after.dust.value
    requires a == z ==> inv.dust.value < inv.settlement || Lookup(inv.balances, z) >= 3
    ensures Fuelled(after, z)
  {
    hide Total, Free;
  }

  lemma {:induction false} Reduce(c: Contract, id: string, z: Address, t: Trail) returns (more: seq<Call>)
    requires Open(c, id, t) && Fuelled(Get(c, id), z)
    ensures Continues(more, id) && Open(Run(c, more), id, t) && Fuelled(Get(Run(c, more), id), z)
    ensures Get(Run(c, more), id).supply == Get(Run(c, more), id).dust.value + 1
    decreases Get(c, id).supply
  {
    hide Good, Next, Free, Total, Continues, Fuelled, Locked, Usable;
    var inv := Get(c, id);
    Facts(inv, t);
    UnitContinues(id, z);
    FuelledBounds(inv, z);
    if inv.supply == inv.dust.value + 1 {
      more := [];
    } else {
      var a := Victim(inv, z, t);
      UnitBurn(c, id, a, t);
      UnitContinues(id, a);
      var call := Single(id, OpBurn(OPEN_HOST, a, 1));
      FuelledAfter(inv, Get(Next(c, call), id), z, a);
      var rest := Reduce(Next(c, call), id, z, t);
      more := [call] + rest;
      Prepend(c, call, rest, id);
    }
  }

  /** One above the dust: the first unit, if none has been redeemed, and then everything. */
  lemma Ignite(c: Contract, id: string, z: Address, t: Trail) returns (more: seq<Call>)
    requires Open(c, id, t) && Fuelled(Get(c, id), z) && Get(c, id).supply == Get(c, id).dust.value + 1
    ensures Continues(more, id) && Overdrawn(Get(Run(c, more), id))
  {
    hide Good, Next, Free, Total, Continues, Redeem, RedeemCap, Usable;
    var inv := Get(c, id);
    Facts(inv, t);
    FuelledBounds(inv, z);
    if inv.dust.value < inv.settlement {
      more := Drain(c, id, t);
    } else {
      AllUsable(inv, z);
      OrderedFactors(2, Lookup(inv.balances, z), inv.settlement);
      Redeemable(inv, z, t);
      UnitRedeem(c, id, z, t);
      UnitContinues(id, z);
      var call := Single(id, OpRedeem(OPEN_HOST, z, 1));
      var rest := Drain(Next(c, call), id, t.(redeemed := t.redeemed + 1));
      more := [call] + rest;
      Prepend(c, call, rest, id);
    }
  }

  // ---- The exact condition --------------------------------------------------------------------

  lemma Overdraws(c: Contract, id: string, t: Trail) returns (more: seq<Call>)
    requires Open(c, id, t) && Get(c, id).dust.Some? && Overdrawable(Get(c, id))
    ensures Continues(more, id) && Overdrawn(Get(Run(c, more), id))
  {
    hide Good, Next, Free, Total, Continues, Spark;
    var inv := Get(c, id);
    if inv.dust.value < 0 {
      UnitContinues(id, Address(0));
      more := [];
    } else {
      var z := Address(0);
      if inv.dust.value >= inv.settlement {
        z :| Spark(inv, z);
      }
      var burns := Reduce(c, id, z, t);
      var redemptions := Ignite(Run(c, burns), id, z, t);
      more := burns + redemptions;
      Entitlements.RunConcat(c, burns, redemptions);
      ContinuesAppend(burns, redemptions, id);
    }
  }

  lemma SafeNow(inv: Invoice, id: string, t: Trail)
    requires Good(inv, t) && IsSettled(inv.status) && Immobile(inv, id) && inv.dust.Some? && !Overdrawable(inv)
    ensures Safe(inv, id)
  {
  }

  lemma ImmobileExactly(calls: seq<Call>, id: string)
    requires NonNegativeCalls(calls)
    requires var inv := Get(Run(EMPTY, calls), id); IsSettled(inv.status) && Immobile(inv, id)
    ensures var c := Run(EMPTY, calls);
            Get(c, id).dust.Some? && (CanOverdraw(c, id) <==> Overdrawable(Get(c, id)))
  {
    hide Good, Continues, Overdrawable, Safe, Immobile;
    var c, t := Run(EMPTY, calls), TrailOf(calls, id);
    RunGood(calls, id);
    var inv := Get(c, id);
    Facts(inv, t);
    if Overdrawable(inv) {
      var more := Overdraws(c.(paused := false), id, t);
      Unpause(c, more, id);
      assert Continues([SetPaused(false)] + more, id);
    } else if more :| Continues(more, id) && Overdrawn(Get(Run(c, more), id)) {
      SafeNow(inv, id, t);
      var t' := SafeRun(c, more, id, t);
      SafeCovers(Get(Run(c, more), id), id);
    }
  }

  /** In every reachable fully settled state, whoever the holders are, some continuation without a new settlement write
      takes the dust below zero exactly when it is there already, or the dust does not cover what is usable and either
      something has been redeemed or some holder can redeem a first unit once others have burnt enough: one with a
      positive entry, or one with at least two units. */
  lemma FullySettledOverdrawsExactly(calls: seq<Call>, id: string)
    requires NonNegativeCalls(calls) && Get(Run(EMPTY, calls), id).status.FullySettled?
    ensures var c := Run(EMPTY, calls);
            Get(c, id).dust.Some? && (CanOverdraw(c, id) <==> Overdrawable(Get(c, id)))
  {
    hide CanOverdraw, Overdrawable, Run, Get;
    ImmobileExactly(calls, id);
  }

  /** A sole holder overdraws exactly when the dust does not cover what it can redeem. */
  lemma SoleHolderOverdrawsExactly(calls: seq<Call>, id: string, a: Address)
    requires NonNegativeCalls(calls)
    requires var inv := Get(Run(EMPTY, calls), id); inv.status.FullySettled? && Sole(inv, a)
    ensures var c := Run(EMPTY, calls);
            Get(c, id).dust.Some? && (CanOverdraw(c, id) <==> Get(c, id).dust.value < Usable(Get(c, id), a))
  {
    hide Good, Continues, CanOverdraw, Total, Usable;
    FullySettledOverdrawsExactly(calls, id);
    var inv := Get(Run(EMPTY, calls), id);
    RunGood(calls, id);
    Facts(inv, TrailOf(calls, id));
    UsableBounds(inv, a);
    SoleUsable(inv, a);
    if 0 <= inv.dust.value < Usable(inv, a) && inv.dust.value >= inv.settlement {
      assert Spark(inv, a);
    }
  }

  lemma SoleUsable(inv: Invoice, a: Address)
    requires Holdings(inv) && Sole(inv, a)
    ensures Total(Free(inv)) == Usable(inv, a)
  {
    hide Usable, Total;
    forall x | x in inv.balances && x != a
      ensures Usable(inv, x) == 0
    {
      TwoBalances(inv.balances, x, a);
      UsableBounds(inv, x);
    }
    NothingUsable(inv, a);
    var rest := Free(inv) - {a};
    TotalWithout(Free(inv), a);
    TotalOfZeros(rest);
  }

  // ---- An input --------------------------------------------------------------------------------

  /** Three holders of one unit each, whose invoice is cut to a face value of one and then fully settled. */
  function Shared(a: Address, b: Address, d: Address): seq<Call> {
    [Single("INV-1", OpCreate(Meta("INV-1", 3, 0, 0, 0, None, true, true))),
     Single("INV-1", OpIssue(OPEN_HOST, a, 1)),
     Single("INV-1", OpIssue(OPEN_HOST, b, 1)),
     Single("INV-1", OpIssue(OPEN_HOST, d, 1)),
     Single("INV-1", OpUpdateMeta(Meta("INV-1", 1, 0, 0, 0, None, true, true))),
     Single("INV-1", OpSettle(OPEN_HOST))]
  }

  /** One unit is issued under a face value of three. */
  lemma NextUnit(c: Contract, a: Address)
    requires var inv := Get(c, "INV-1");
             && inv.meta == Some(Meta("INV-1", 3, 0, 0, 0, None, true, true)) && 0 <= inv.supply <= 2
             && (inv.status.Created? || inv.status.Issued?) && a !in inv.balances
    ensures var inv, next := Get(c, "INV-1"), Next(c, Single("INV-1", OpIssue(OPEN_HOST, a, 1)));
            var after := Get(next, "INV-1");
            && after.balances == inv.balances[a := 1] && after.supply == inv.supply + 1 && after.status == Issued
            && after.meta == inv.meta && after.entitlements == inv.entitlements && next.paused == c.paused
  {
  }

  lemma SharedIssued(a: Address, b: Address, d: Address)
    requires a != b && b != d && a != d
    ensures var inv := Get(Run(EMPTY, Shared(a, b, d)[..4]), "INV-1");
            && inv.balances == map[a := 1, b := 1, d := 1] && inv.supply == 3 && inv.entitlements == map[]
            && inv.status == Issued && inv.meta == Some(Meta("INV-1", 3, 0, 0, 0, None, true, true))
    ensures !Run(EMPTY, Shared(a, b, d)[..4]).paused
  {
    var calls := Shared(a, b, d);
    assert calls[..4] == [calls[0], calls[1], calls[2], calls[3]];
    Entitlements.RunFour(calls[0], calls[1], calls[2], calls[3]);
    var c1 := Next(EMPTY, calls[0]);
    assert Get(c1, "INV-1") == ABSENT.(meta := Some(Meta("INV-1", 3, 0, 0, 0, None, true, true)));
    hide Next, Run;
    var c2 := Next(c1, calls[1]);
    NextUnit(c1, a);
    var c3 := Next(c2, calls[2]);
    NextUnit(c2, b);
    NextUnit(c3, d);
  }

  lemma SharedSettled(a: Address, b: Address, d: Address)
    requires a != b && b != d && a != d
    ensures var inv := Get(Run(EMPTY, Shared(a, b, d)), "INV-1");
            && inv.balances == map[a := 1, b := 1, d := 1] && inv.supply == 3 && inv.entitlements == map[]
            && inv.status == FullySettled && inv.settlement == 1 && inv.dust == Some(1)
  {
    var calls := Shared(a, b, d);
    SharedIssued(a, b, d);
    assert calls[..5] == calls[..4] + [calls[4]] && calls == calls[..5] + [calls[5]];
    Entitlements.RunSnoc(EMPTY, calls[..4], calls[4]);
    Entitlements.RunSnoc(EMPTY, calls[..5], calls[5]);
  }

  /** The dust does not cover the supply, and yet nobody can redeem and no continuation overdraws. */
  lemma SharedIsNotOverdrawn(a: Address, b: Address, d: Address)
    requires a != b && b != d && a != d
    ensures var c := Run(EMPTY, Shared(a, b, d));
            var inv := Get(c, "INV-1");
            && inv.dust == Some(1) && inv.supply == 3 && (forall x :: RedeemCap(inv, x) == 0)
            && !CanOverdraw(c, "INV-1")
  {
    hide Shared, CanOverdraw, Total;
    SharedSettled(a, b, d);
    SharedNonNegative(a, b, d);
    FullySettledOverdrawsExactly(Shared(a, b, d), "INV-1");
    assert forall x :: !Spark(Get(Run(EMPTY, Shared(a, b, d)), "INV-1"), x);
  }

  lemma SharedNonNegative(a: Address, b: Address, d: Address)
    ensures NonNegativeCalls(Shared(a, b, d))
  {
  }
}
