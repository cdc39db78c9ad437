/** Partially settled invoices, whose tokens still move: an address that can receive units redeems them one by one. */
module InvoicePartialSettlement {
  import opened Prelude
  import opened InvoiceModel
  import opened InvoiceProofs
  import opened InvoiceSettlement
  import opened InvoiceOverdraw
  import opened InvoiceRedeemable
  import opened InvoiceFullSettlement
  import Entitlements = InvoiceEntitlements

  // ---- Moving units to one address ---------------------------------------------------------

  /** Units of every holder can be moved to `z`, which is not locked. */
  ghost predicate Funnel(inv: Invoice, id: string, z: Address) {
    && inv.status.PartiallySettled? && inv.meta.Some? && CheckReference(id).None? && !Locked(inv, z)
    && (WholeFee(inv.meta.value) ==> inv.meta.value.feeRecipient == Some(z))
  }

  /** What can be redeemed at `z`, its own balance and all that can be moved there. */
  function Potential(inv: Invoice, z: Address): int {
    inv.supply - Lookup(inv.balances, z) + Usable(inv, z)
  }

  lemma PotentialBounds(inv: Invoice, z: Address)
    requires Holdings(inv)
    ensures 0 <= Potential(inv, z) <= inv.supply
    ensures Potential(inv, z) == inv.supply <==> Usable(inv, z) == Lookup(inv.balances, z)
  {
    UsableBounds(inv, z);
    TotalBounds(inv.balances, z);
  }

  lemma UnitFee(meta: Meta)
    requires meta.feeBps <= 10_000
    ensures Fee(meta, 1) == if WholeFee(meta) then 1 else 0
  {
  }

  lemma MoveUnit(inv: Invoice, exempt: bool, id: string, a: Address, z: Address, t: Trail)
    requires Good(inv, t) && Funnel(inv, id, z) && a != z && Lookup(inv.balances, a) >= 1
    ensures var r := Transfer(inv, OPEN_HOST, exempt, id, a, z, 1);
            && r.Ok? && Good(r.value, t) && Funnel(r.value, id, z)
            && r.value == inv.(balances := r.value.balances, entitlements := r.value.entitlements)
            && Lookup(r.value.balances, z) == Lookup(inv.balances, z) + 1
            && Entitlements.EntryOf(r.value, z) == Entitlements.EntryOf(inv, z)
  {
    Facts(inv, t);
    TwoBalances(inv.balances, a, z);
    LookupNonNegative(inv.balances, z);
    FeeLimited(inv);
    UnitFee(inv.meta.value);
    UnitMoves(inv, exempt, id, a, z);
    hide MulDiv, JournalOk, NonNegative, CheckReference, Conserved, Fee, Snapshot, Move, CheckTransfer;
    Entitlements.MovedBalances(inv, OPEN_HOST, exempt, a, z, 1, z);
    Entitlements.SnapshotElsewhere(inv, a, z);
    GoodStep(inv, id, false, exempt, OpTransfer(OPEN_HOST, a, z, 1), t);
  }

  lemma FeeLimited(inv: Invoice)
    requires Basic(inv) && inv.meta.Some?
    ensures inv.meta.value.feeBps <= 10_000
  {
  }

  lemma UnitMoves(inv: Invoice, exempt: bool, id: string, a: Address, z: Address)
    requires Funnel(inv, id, z) && a != z && 1 <= Lookup(inv.balances, a) <= I128_MAX
    requires 0 <= Lookup(inv.balances, z) < I128_MAX && inv.meta.value.feeBps <= 10_000
    requires Fee(inv.meta.value, 1) == if WholeFee(inv.meta.value) then 1 else 0
    ensures CheckTransfer(inv, OPEN_HOST, id, a, z, 1).None? && Move(inv, OPEN_HOST, exempt, a, z, 1).Ok?
  {
    hide MulDiv, CheckReference, Fee, Snapshot;
  }

  lemma NextTransfer(c: Contract, id: string, a: Address, z: Address, amount: int)
    requires Transfer(Get(c, id), OPEN_HOST, c.feeExempt, id, a, z, amount).Ok?
    ensures var after := Next(c, Single(id, OpTransfer(OPEN_HOST, a, z, amount)));
            && Get(after, id) == Transfer(Get(c, id), OPEN_HOST, c.feeExempt, id, a, z, amount).value
            && after.paused == c.paused
  {
    hide Transfer;
  }

  lemma TransferContinues(id: string, a: Address, z: Address)
    ensures Continues([Single(id, OpTransfer(OPEN_HOST, a, z, 1))], id)
  {
  }

  /** Balances of at most two units are usable as a whole. */
  lemma SmallUsable(inv: Invoice, z: Address)
    requires 0 < inv.settlement <= I128_MAX && !Locked(inv, z) && 0 <= Lookup(inv.balances, z) <= 2
    ensures Usable(inv, z) == Lookup(inv.balances, z)
  {
    ReachExact(0, inv.settlement);
    hide Reach;
  }

  // ---- At the funnel --------------------------------------------------------------------------

  /** One above the dust, with all that `z` has usable. */
  ghost predicate Ready(inv: Invoice, id: string, z: Address) {
    && Funnel(inv, id, z) && inv.dust.Some? && inv.supply == inv.dust.value + 1
    && Usable(inv, z) == Lookup(inv.balances, z)
  }

  lemma OtherHas(inv: Invoice, z: Address) returns (a: Address)
    requires Holdings(inv) && Lookup(inv.balances, z) < inv.supply
    ensures a != z && Lookup(inv.balances, a) >= 1
  {
    if Others(inv.balances, z) == {} {
      NoOthers(inv.balances, z);
    }
    a :| a in Others(inv.balances, z);
    OtherHolder(inv.balances, z, a);
  }

  /** Moves one unit to a `z` that has at most one. */
  lemma Fetch(c: Contract, id: string, z: Address, t: Trail) returns (call: Call)
    requires Open(c, id, t) && Ready(Get(c, id), id, z)
    requires Lookup(Get(c, id).balances, z) <= 1 && Lookup(Get(c, id).balances, z) < Get(c, id).supply
    ensures Continues([call], id) && Open(Next(c, call), id, t) && Ready(Get(Next(c, call), id), id, z)
    ensures var inv, after := Get(c, id), Get(Next(c, call), id);
            && Lookup(after.balances, z) == Lookup(inv.balances, z) + 1 && after.supply == inv.supply
            && after.dust == inv.dust && after.settlement == inv.settlement
            && (z in after.entitlements <==> z in inv.entitlements)
  {
    hide Good, Next, Transfer, Usable, Continues, Locked;
    var inv := Get(c, id);
    Facts(inv, t);
    var a := OtherHas(inv, z);
    call := Single(id, OpTransfer(OPEN_HOST, a, z, 1));
    MoveUnit(inv, c.feeExempt, id, a, z, t);
    NextTransfer(c, id, a, z, 1);
    TransferContinues(id, a, z);
    LookupNonNegative(inv.balances, z);
    SmallUsable(Get(Next(c, call), id), z);
  }

  /** Redeems one unit at `z`. */
  lemma RedeemAt(c: Contract, id: string, z: Address, t: Trail)
    requires Open(c, id, t) && Ready(Get(c, id), id, z) && Lookup(Get(c, id).balances, z) >= 1
    requires var inv := Get(c, id);
             z in inv.entitlements || Lookup(inv.balances, z) * inv.settlement >= inv.supply
    ensures var call := Single(id, OpRedeem(OPEN_HOST, z, 1));
            var inv, after := Get(c, id), Get(Next(c, call), id);
            && Continues([call], id) && after.dust == Some(inv.dust.value - 1) && after.supply == inv.supply - 1
            && after.settlement == inv.settlement
            && (inv.supply > 1 ==> Open(Next(c, call), id, t.(redeemed := t.redeemed + 1)) && Ready(after, id, z))
  {
    hide Good, Next, Redeem, Usable, Continues, Locked, RedeemCap;
    var inv := Get(c, id);
    Redeemable(inv, z, t);
    UnitRedeem(c, id, z, t);
    UnitContinues(id, z);
  }

  lemma {:induction false} DrainAt(c: Contract, id: string, z: Address, t: Trail) returns (more: seq<Call>)
    requires Open(c, id, t) && Ready(Get(c, id), id, z) && Get(c, id).dust.value < Get(c, id).settlement
    ensures Continues(more, id) && Overdrawn(Get(Run(c, more), id))
    decreases Get(c, id).supply, if Lookup(Get(c, id).balances, z) >= 1 then 0 else 1
  {
    hide Good, Next, Usable, Continues, Ready, RedeemCap;
    var inv := Get(c, id);
    Facts(inv, t);
    ReadyFacts(inv, id, z);
    LookupNonNegative(inv.balances, z);
    UnitContinues(id, z);
    if inv.dust.value < 0 {
      more := [];
    } else if Lookup(inv.balances, z) == 0 {
      var call := Fetch(c, id, z, t);
      var rest := DrainAt(Next(c, call), id, z, t);
      more := [call] + rest;
      Prepend(c, call, rest, id);
    } else {
      OrderedFactors(1, Lookup(inv.balances, z), inv.settlement);
      RedeemAt(c, id, z, t);
      var call := Single(id, OpRedeem(OPEN_HOST, z, 1));
      var rest := [];
      if inv.supply > 1 {
        rest := DrainAt(Next(c, call), id, z, t.(redeemed := t.redeemed + 1));
      }
      more := [call] + rest;
      Prepend(c, call, rest, id);
    }
  }

  lemma ReadyFacts(inv: Invoice, id: string, z: Address)
    requires Ready(inv, id, z)
    ensures inv.dust.Some? && inv.supply == inv.dust.value + 1
  {
  }

  /** The first unit: moved to `z` if it has none, or no second one where it needs two. */
  lemma {:induction false} IgniteAt(c: Contract, id: string, z: Address, t: Trail) returns (more: seq<Call>)
    requires Open(c, id, t) && Ready(Get(c, id), id, z) && 0 <= Get(c, id).dust.value
    ensures Continues(more, id) && Overdrawn(Get(Run(c, more), id))
    decreases if Lookup(Get(c, id).balances, z) >= 2 then 0 else 2 - Lookup(Get(c, id).balances, z)
  {
    hide Good, Next, Usable, Continues, Ready, RedeemCap;
    var inv := Get(c, id);
    Facts(inv, t);
    ReadyFacts(inv, id, z);
    LookupNonNegative(inv.balances, z);
    UnitContinues(id, z);
    if inv.dust.value < inv.settlement {
      more := DrainAt(c, id, z, t);
    } else if Lookup(inv.balances, z) >= (if z in inv.entitlements then 1 else 2) {
      OrderedFactors(2, Lookup(inv.balances, z), inv.settlement);
      RedeemAt(c, id, z, t);
      var call := Single(id, OpRedeem(OPEN_HOST, z, 1));
      var rest := DrainAt(Next(c, call), id, z, t.(redeemed := t.redeemed + 1));
      more := [call] + rest;
      Prepend(c, call, rest, id);
    } else {
      var call := Fetch(c, id, z, t);
      var rest := IgniteAt(Next(c, call), id, z, t);
      more := [call] + rest;
      Prepend(c, call, rest, id);
    }
  }

  // ---- Burning down to one above the dust -------------------------------------------------------

  lemma AnyHolder(inv: Invoice) returns (a: Address)
    requires Holdings(inv) && inv.supply > 0
    ensures Lookup(inv.balances, a) >= 1
  {
    if forall x :: x in inv.balances ==> inv.balances[x] == 0 {
      TotalOfZeros(inv.balances);
    }
    a :| a in inv.balances && inv.balances[a] != 0;
  }

  lemma {:induction false} ReduceTo(c: Contract, id: string, z: Address, t: Trail) returns (more: seq<Call>)
    requires Open(c, id, t) && Funnel(Get(c, id), id, z)
    requires Get(c, id).dust.Some? && 0 <= Get(c, id).dust.value < Potential(Get(c, id), z)
    ensures Continues(more, id) && Open(Run(c, more), id, t) && Ready(Get(Run(c, more), id), id, z)
    ensures 0 <= Get(Run(c, more), id).dust.value
    decreases Get(c, id).supply
  {
    hide Good, Next, Usable, Continues, Free, Total;
    var inv := Get(c, id);
    Facts(inv, t);
    PotentialBounds(inv, z);
    UnitContinues(id, z);
    if inv.supply == inv.dust.value + 1 {
      more := [];
    } else {
      var a := z;
      UsableBounds(inv, z);
      if Usable(inv, z) == Lookup(inv.balances, z) {
        a := AnyHolder(inv);
      }
      UnitBurn(c, id, a, t);
      UnitContinues(id, a);
      var call := Single(id, OpBurn(OPEN_HOST, a, 1));
      FunnelStays(inv, Get(Next(c, call), id), id, z);
      var rest := ReduceTo(Next(c, call), id, z, t);
      more := [call] + rest;
      Prepend(c, call, rest, id);
    }
  }

  lemma FunnelStays(inv: Invoice, after: Invoice, id: string, z: Address)
    requires Funnel(inv, id, z) && after == inv.(balances := after.balances, supply := after.supply)
    ensures Funnel(after, id, z)
  {
  }

  lemma FunnelOverdraws(c: Contract, id: string, z: Address, t: Trail) returns (more: seq<Call>)
    requires Open(c, id, t) && Funnel(Get(c, id), id, z)
    requires Get(c, id).dust.Some? && Get(c, id).dust.value < Potential(Get(c, id), z)
    ensures Continues(more, id) && Overdrawn(Get(Run(c, more), id))
  {
    hide Good, Next, Usable, Continues, Ready, Funnel;
    UnitContinues(id, z);
    if Get(c, id).dust.value < 0 {
      more := [];
    } else {
      var burns := ReduceTo(c, id, z, t);
      var redemptions := IgniteAt(Run(c, burns), id, z, t);
      more := burns + redemptions;
      Entitlements.RunConcat(c, burns, redemptions);
      ContinuesAppend(burns, redemptions, id);
    }
  }

  // ---- What a whole fee leaves to the recipient -------------------------------------------------

  /** Every transfer pays `r`, and the dust covers what can be redeemed there. */
  ghost predicate Bounded(inv: Invoice, r: Address) {
    && (inv.status.PartiallySettled? || inv.status.Redeemed?) && inv.meta.Some?
    && WholeFee(inv.meta.value) && inv.meta.value.feeRecipient == Some(r)
    && inv.dust.Some? && Potential(inv, r) <= inv.dust.value
  }

  lemma BoundedRedeem(inv: Invoice, r: Address, host: Host, paused: bool, from: Address, amount: int, t: Trail)
    requires Good(inv, t) && Bounded(inv, r) && Redeem(inv, host, paused, from, amount).Ok?
    ensures Bounded(Redeem(inv, host, paused, from, amount).value, r)
  {
    Facts(inv, t);
    TotalBounds(inv.balances, from);
    RedeemFree(inv, host, paused, from, amount);
    RedeemDust(inv, host, paused, from, amount, t);
    hide RedeemCap, JournalOk, NonNegative, Free, Total, Locked, Paid, Usable;
  }

  lemma BoundedBurn(inv: Invoice, r: Address, host: Host, from: Address, amount: int, t: Trail)
    requires Good(inv, t) && Bounded(inv, r) && amount >= 0 && BurnMove(inv, host, from, amount).Ok?
    ensures Bounded(BurnMove(inv, host, from, amount).value, r)
  {
    BurnFree(inv, host, from, amount);
    hide JournalOk, NonNegative, Free, Total, Locked, Usable, BurnMove;
  }

  lemma BoundedMove(inv: Invoice, r: Address, host: Host, exempt: bool, from: Address, to: Address, amount: int,
                    t: Trail)
    requires Good(inv, t) && Bounded(inv, r) && inv.status.PartiallySettled? && amount >= 0
    requires Move(inv, host, exempt, from, to, amount).Ok?
    ensures Bounded(Move(inv, host, exempt, from, to, amount).value, r)
  {
    var after := Move(inv, host, exempt, from, to, amount).value;
    WholeFeeIsAll(inv.meta.value, amount);
    ReachNonNegative(inv.settlement);
    hide JournalOk, Fee, MulDiv, CheckReference, Reach, Move, Snapshot, UsableOf, NonNegative;
    Entitlements.MovedBalances(inv, host, exempt, from, to, amount, r);
    Facts(inv, t);
    LookupNonNegative(inv.balances, r);
    if from == r {
      SnapshotUsable(inv, from, t);
    } else {
      Entitlements.SnapshotElsewhere(inv, from, r);
      UsableOfLess(Entitlements.EntryOf(inv, r), Lookup(inv.balances, r) + amount, Reach(inv.settlement), amount);
    }
  }

  lemma BoundedStep(inv: Invoice, r: Address, id: string, paused: bool, exempt: bool, op: Op, t: Trail)
    requires Good(inv, t) && Bounded(inv, r) && Apply(inv, id, paused, exempt, op).Ok?
    requires NonNegativeOp(op) && !op.OpSettle? && !op.OpPartialSettle?
    ensures Bounded(Apply(inv, id, paused, exempt, op).value, r)
  {
    hide CheckMeta, Move, Redeem, BurnMove, Good, Bounded, CheckTransfer;
    BoundedStatus(inv, r);
    match op
    case OpRedeem(host, from, amount) => BoundedRedeem(inv, r, host, paused, from, amount, t);
    case OpBurn(host, from, amount) => BoundedBurn(inv, r, host, from, amount, t);
    case OpBurnFrom(host, spender, from, amount) =>
      var spent := Spend(inv, from, spender, amount);
      BoundedSame(inv, spent, r, t);
      BoundedBurn(spent, r, host, from, amount, t);
    case OpTransfer(host, from, to, amount) =>
      TransferChecked(inv, host, id, from, to, amount);
      BoundedMove(inv, r, host, exempt, from, to, amount, t);
    case OpTransferFrom(host, spender, from, to, amount) =>
      TransferChecked(inv, host, id, from, to, amount);
      var spent := Spend(inv, from, spender, amount);
      BoundedSame(inv, spent, r, t);
      BoundedMove(spent, r, host, exempt, from, to, amount, t);
    case OpAppendJournal(_, _) => BoundedSame(inv, Apply(inv, id, paused, exempt, op).value, r, t);
    case OpApprove(_, _, _, _) => BoundedSame(inv, Apply(inv, id, paused, exempt, op).value, r, t);
    case _ =>
  }

  lemma BoundedStatus(inv: Invoice, r: Address)
    requires Bounded(inv, r)
    ensures (inv.status.PartiallySettled? || inv.status.Redeemed?) && inv.meta.Some?
  {
  }

  lemma BoundedSame(inv: Invoice, after: Invoice, r: Address, t: Trail)
    requires Good(inv, t) && Bounded(inv, r) && after == inv.(allowances := after.allowances, journal := after.journal)
    ensures Bounded(after, r)
    ensures after.journal == inv.journal ==> Good(after, t)
  {
  }

  lemma BoundedCall(c: Contract, call: Call, id: string, r: Address, t: Trail)
    requires Good(Get(c, id), t) && Bounded(Get(c, id), r) && Continues([call], id)
    ensures Bounded(Get(Next(c, call), id), r)
  {
    hide Good, Bounded, Apply, BatchState, PartialSettle;
    assert [call][0] == call;
    BoundedStatus(Get(c, id), r);
    match call
    case Single(name, op) =>
      if Target(name, op) == id && ApplyCall(c, call).Ok? {
        NoNewSettlement(Get(c, id), id, c.paused, c.feeExempt, name, op, t);
        BoundedStep(Get(c, id), r, id, c.paused, c.feeExempt, op, t);
      }
    case BatchSettle(host, items) =>
      var amount := BatchTouchesOnce(c, host, Effective(items), id);
      ClosedNotSettled(Get(c, id), host, c.paused, amount);
    case _ =>
  }

  lemma {:induction false} BoundedRun(c: Contract, more: seq<Call>, id: string, r: Address, t: Trail)
    returns (t': Trail)
    requires Good(Get(c, id), t) && Bounded(Get(c, id), r) && Continues(more, id)
    ensures Good(Get(Run(c, more), id), t') && Bounded(Get(Run(c, more), id), r)
    decreases |more|
  {
    hide Good, Bounded, Next, Cover;
    t' := t;
    if more != [] {
      var init, call := more[..|more| - 1], more[|more| - 1];
      t' := BoundedRun(c, init, id, r, t);
      BoundedCall(Run(c, init), call, id, r, t');
      BoundedStatus(Get(Run(c, init), id), r);
      t' := ContinueStep(Run(c, init), call, id, t');
    }
  }

  lemma BoundedCovers(inv: Invoice, r: Address)
    requires Holdings(inv) && Bounded(inv, r)
    ensures !Overdrawn(inv)
  {
    PotentialBounds(inv, r);
  }

  // ---- The exact conditions ------------------------------------------------------------------------

  /** In every reachable partially settled state whose transfers are possible and whose fee is not the whole amount,
      some continuation without a new settlement write takes the dust below zero exactly when it does not cover the
      supply. */
  lemma OverdrawnExactlyWhenUncovered(calls: seq<Call>, id: string)
    requires NonNegativeCalls(calls)
    requires var inv := Get(Run(EMPTY, calls), id);
             inv.status.PartiallySettled? && CheckReference(id).None? && inv.meta.Some? && !WholeFee(inv.meta.value)
    ensures var c := Run(EMPTY, calls);
            Get(c, id).dust.Some? && (CanOverdraw(c, id) <==> Get(c, id).dust.value < Get(c, id).supply)
  {
    hide Good, Continues, CheckReference;
    var c, t := Run(EMPTY, calls), TrailOf(calls, id);
    RunGood(calls, id);
    var inv := Get(c, id);
    Facts(inv, t);
    if more :| Continues(more, id) && Overdrawn(Get(Run(c, more), id)) {
      OverdrawnWasUncovered(c, more, id, t);
    }
    if inv.dust.value < inv.supply {
      var z := UnusedAddress(inv.entitlements.Keys + inv.balances.Keys);
      NothingUsable(inv, z);
      var more := FunnelOverdraws(c.(paused := false), id, z, t);
      Unpause(c, more, id);
      assert Continues([SetPaused(false)] + more, id);
    }
  }

  /** Where every transfer goes to the fee recipient as a whole, and the recipient is not locked, exactly when the dust
      does not cover what can be redeemed there. */
  lemma WholeFeeOverdrawsExactly(calls: seq<Call>, id: string, r: Address)
    requires NonNegativeCalls(calls)
    requires var inv := Get(Run(EMPTY, calls), id);
             && inv.status.PartiallySettled? && CheckReference(id).None? && inv.meta.Some? && WholeFee(inv.meta.value)
             && inv.meta.value.feeRecipient == Some(r) && !Locked(inv, r)
    ensures var c := Run(EMPTY, calls);
            Get(c, id).dust.Some? && (CanOverdraw(c, id) <==> Get(c, id).dust.value < Potential(Get(c, id), r))
  {
    hide Good, Continues, CheckReference, Locked, Potential;
    var c, t := Run(EMPTY, calls), TrailOf(calls, id);
    RunGood(calls, id);
    var inv := Get(c, id);
    Facts(inv, t);
    if inv.dust.value < Potential(inv, r) {
      var more := FunnelOverdraws(c.(paused := false), id, r, t);
      Unpause(c, more, id);
      assert Continues([SetPaused(false)] + more, id);
    } else if more :| Continues(more, id) && Overdrawn(Get(Run(c, more), id)) {
      var t' := BoundedRun(c, more, id, r, t);
      Facts(Get(Run(c, more), id), t');
      BoundedCovers(Get(Run(c, more), id), r);
    }
  }

  /** What the dust must cover, in every kind of settled state. */
  ghost predicate Coverable(inv: Invoice, id: string)
    requires inv.dust.Some? && inv.meta.Some?
  {
    if Immobile(inv, id) then !Overdrawable(inv)
    else if WholeFee(inv.meta.value) then Potential(inv, inv.meta.value.feeRecipient.value) <= inv.dust.value
    else inv.supply <= inv.dust.value
  }

  /** In every reachable settled state, some continuation without a new settlement write takes the dust below zero
      exactly when the dust does not cover what it must. */
  lemma SettledOverdrawsExactly(calls: seq<Call>, id: string)
    requires NonNegativeCalls(calls) && IsSettled(Get(Run(EMPTY, calls), id).status)
    ensures var c := Run(EMPTY, calls);
            var inv := Get(c, id);
            inv.dust.Some? && inv.meta.Some? && (CanOverdraw(c, id) <==> !Coverable(inv, id))
  {
    hide CanOverdraw, Overdrawable, CheckReference, Locked, Potential;
    var inv := Get(Run(EMPTY, calls), id);
    SettledMeta(calls, id);
    if Immobile(inv, id) {
      ImmobileExactly(calls, id);
    } else if WholeFee(inv.meta.value) {
      WholeFeeOverdrawsExactly(calls, id, inv.meta.value.feeRecipient.value);
    } else {
      OverdrawnExactlyWhenUncovered(calls, id);
    }
  }

  lemma SettledMeta(calls: seq<Call>, id: string)
    requires IsSettled(Get(Run(EMPTY, calls), id).status)
    ensures Get(Run(EMPTY, calls), id).meta.Some?
  {
    RunBasic(calls, id);
  }
}
