/** How much of each balance can ever be redeemed, and the single steps of redeeming and burning. */
module InvoiceRedeemable {
  import opened Prelude
  import opened InvoiceModel
  import opened InvoiceProofs
  import opened InvoiceSettlement
  import opened InvoiceOverdraw
  import Entitlements = InvoiceEntitlements

  /** A stored entry of nothing is never used up and never replaced. */
  predicate Locked(inv: Invoice, a: Address) {
    a in inv.entitlements && inv.entitlements[a] <= 0
  }

  /** The largest balance whose product with the settlement is below 2^128. */
  function Reach(settlement: int): int {
    if settlement <= 0 then 0 else (U128_LIMIT - 1) / settlement
  }

  lemma ReachExact(bal: int, settlement: int)
    requires settlement > 0
    ensures bal <= Reach(settlement) <==> bal * settlement < U128_LIMIT
    ensures settlement <= I128_MAX ==> Reach(settlement) >= 2
  {
    var q := (U128_LIMIT - 1) / settlement;
    assert q * settlement <= U128_LIMIT - 1 < q * settlement + settlement;
    OrderedFactors(bal, q, settlement);
    OrderedFactors(q + 1, bal, settlement);
    OrderedFactors(2, q + 1, settlement);
  }

  /** A stored entry can be redeemed, and what is beyond it as far as the products reach. */
  function UsableOf(entry: Option<int>, bal: int, reach: int): int {
    var e := if entry.Some? then entry.value else 0;
    if entry.Some? && e <= 0 then 0 else if bal <= e then bal else e + Min(bal - e, reach)
  }

  function Usable(inv: Invoice, a: Address): int {
    UsableOf(Entitlements.EntryOf(inv, a), Lookup(inv.balances, a), Reach(inv.settlement))
  }

  function Free(inv: Invoice): map<Address, int> {
    map a | a in inv.balances :: Usable(inv, a)
  }

  /** The address can redeem one unit when the supply is one above the settlement. */
  predicate Spark(inv: Invoice, a: Address) {
    !Locked(inv, a) && Lookup(inv.balances, a) >= if a in inv.entitlements then 1 else 2
  }

  // ---- Sums of usable balances ------------------------------------------------------------

  lemma UsableBounds(inv: Invoice, a: Address)
    requires NonNegative(inv.balances)
    ensures 0 <= Usable(inv, a) <= Lookup(inv.balances, a)
    ensures Locked(inv, a) ==> Usable(inv, a) == 0
  {
    LookupNonNegative(inv.balances, a);
    ReachNonNegative(inv.settlement);
  }

  lemma ReachNonNegative(settlement: int)
    ensures Reach(settlement) >= 0
  {
  }

  lemma FreeBounds(inv: Invoice)
    requires NonNegative(inv.balances)
    ensures NonNegative(Free(inv)) && 0 <= Total(Free(inv)) <= Total(inv.balances)
  {
    hide Usable, Total;
    forall a | a in inv.balances
      ensures 0 <= Free(inv)[a] <= inv.balances[a]
    {
      UsableBounds(inv, a);
    }
    TotalMonotone(Free(inv), inv.balances);
    TotalBounds(Free(inv), Address(0));
  }

  /** When all of the supply can be redeemed, all of each balance can. */
  lemma AllUsable(inv: Invoice, a: Address)
    requires NonNegative(inv.balances) && Total(Free(inv)) >= Total(inv.balances)
    ensures Usable(inv, a) == Lookup(inv.balances, a)
  {
    hide Usable, Total;
    UsableBounds(inv, a);
    if a in inv.balances && Usable(inv, a) < inv.balances[a] {
      var less := inv.balances[a := Usable(inv, a)];
      forall x | x in inv.balances
        ensures Free(inv)[x] <= less[x]
      {
        UsableBounds(inv, x);
      }
      assert Free(inv).Keys == less.Keys;
      TotalMonotone(Free(inv), less);
      TotalUpdate(inv.balances, a, Usable(inv, a));
    }
  }

  /** Writing one balance, with the other entries as they were. */
  lemma FreeUpdate(inv: Invoice, after: Invoice, a: Address, v: int)
    requires after.balances == inv.balances[a := v] && after.settlement == inv.settlement
    requires forall x :: x != a ==> Entitlements.EntryOf(after, x) == Entitlements.EntryOf(inv, x)
    ensures Total(Free(after)) == Total(Free(inv)) - Usable(inv, a) + Usable(after, a)
    ensures forall x :: x != a ==> Usable(after, x) == Usable(inv, x)
  {
    hide Total, Entitlements.EntryOf, Reach;
    forall x | x != a
      ensures Usable(after, x) == Usable(inv, x)
    {
    }
    NothingUsable(inv, a);
    assert Free(after) == Free(inv)[a := Usable(after, a)];
    TotalUpdate(Free(inv), a, Usable(after, a));
  }

  lemma NothingUsable(inv: Invoice, a: Address)
    ensures a !in inv.balances ==> Usable(inv, a) == 0
  {
  }

  lemma UsableAfterRedeeming(entry: Option<int>, bal: int, reach: int, amount: int)
    requires 0 < amount <= bal && reach >= 0
    requires if entry.Some? then amount <= entry.value else bal <= reach
    ensures var left := if entry.Some? && entry.value > amount then Some(SaturatingSub(entry.value, amount)) else None;
            bal <= I128_MAX ==> UsableOf(left, bal - amount, reach) == UsableOf(entry, bal, reach) - amount
  {
  }

  /** A redemption takes from what is usable, and locks and unlocks nothing. */
  lemma RedeemFree(inv: Invoice, host: Host, paused: bool, from: Address, amount: int)
    requires Redeem(inv, host, paused, from, amount).Ok? && inv.settlement > 0
    requires Lookup(inv.balances, from) <= I128_MAX
    ensures var after := Redeem(inv, host, paused, from, amount).value;
            && Total(Free(after)) == Total(Free(inv)) - amount && Usable(after, from) == Usable(inv, from) - amount
            && !Locked(inv, from) && (forall x :: Locked(after, x) <==> Locked(inv, x))
            && (forall x :: x != from ==> Usable(after, x) == Usable(inv, x))
            && after.balances == Credit(inv.balances, from, -amount) && after.supply == inv.supply - amount
            && after.settlement == inv.settlement && after.meta == inv.meta
            && after.status == if after.supply == 0 then Redeemed else inv.status
  {
    var after := Redeem(inv, host, paused, from, amount).value;
    CapReaches(inv, from);
    ReachNonNegative(inv.settlement);
    UsableAfterRedeeming(Entitlements.EntryOf(inv, from), Lookup(inv.balances, from), Reach(inv.settlement), amount);
    hide MulDiv, Total, Free, Reach, UsableOf;
    FreeUpdate(inv, after, from, Lookup(inv.balances, from) - amount);
  }

  lemma CapReaches(inv: Invoice, a: Address)
    requires inv.settlement > 0 && RedeemCap(inv, a) > 0 && Lookup(inv.balances, a) >= 0
    ensures a !in inv.entitlements ==> Lookup(inv.balances, a) <= Reach(inv.settlement)
  {
    ReachExact(Lookup(inv.balances, a), inv.settlement);
  }

  lemma UsableOfLess(entry: Option<int>, bal: int, reach: int, amount: int)
    requires 0 <= amount <= bal && reach >= 0
    ensures UsableOf(entry, bal - amount, reach) <= UsableOf(entry, bal, reach)
    ensures UsableOf(entry, bal - amount, reach) >= UsableOf(entry, bal, reach) - amount
    ensures UsableOf(entry, bal, reach) + amount <= bal ==>
              UsableOf(entry, bal - amount, reach) == UsableOf(entry, bal, reach)
  {
  }

  lemma BurnFree(inv: Invoice, host: Host, from: Address, amount: int)
    requires Holdings(inv) && amount >= 0 && BurnMove(inv, host, from, amount).Ok?
    ensures var after := BurnMove(inv, host, from, amount).value;
            && Total(Free(after)) == Total(Free(inv)) - Usable(inv, from) + Usable(after, from)
            && Usable(inv, from) - amount <= Usable(after, from) <= Usable(inv, from)
            && (Usable(inv, from) + amount <= Lookup(inv.balances, from) ==> Usable(after, from) == Usable(inv, from))
            && (forall x :: x != from ==> Usable(after, x) == Usable(inv, x))
            && after.balances == Credit(inv.balances, from, -amount)
            && after == inv.(balances := after.balances, supply := inv.supply - amount,
                             status := after.status, journal := after.journal)
            && after.status == (if after.supply == 0 && IsSettled(inv.status) then Redeemed else inv.status)
            && (after.status == inv.status ==> after.journal == inv.journal) && amount <= Lookup(inv.balances, from)
  {
    var after := BurnMove(inv, host, from, amount).value;
    LookupNonNegative(inv.balances, from);
    ReachNonNegative(inv.settlement);
    UsableOfLess(Entitlements.EntryOf(inv, from), Lookup(inv.balances, from), Reach(inv.settlement), amount);
    hide Total, Free, NonNegative, Reach, UsableOf;
    FreeUpdate(inv, after, from, Lookup(inv.balances, from) - amount);
  }

  // ---- Transfers ------------------------------------------------------------------------------

  /** A smaller entry, or a first one for a balance within reach, makes no more usable. */
  lemma EntryMakesLess(entry: int, was: Option<int>, bal: int, reach: int)
    requires bal >= 0 && reach >= 0
    requires if was.Some? then entry <= was.value else entry > 0 ==> bal <= reach
    ensures UsableOf(Some(entry), bal, reach) <= UsableOf(was, bal, reach)
  {
  }

  lemma ShareBounds(bal: int, settlement: int, supply: int)
    requires 0 <= bal <= supply <= I128_MAX && 0 < settlement <= I128_MAX && 0 < supply
    ensures 0 <= MulDiv(bal, settlement, supply) <= settlement
    ensures MulDiv(bal, settlement, supply) > 0 ==> bal * settlement < U128_LIMIT
  {
    OrderedFactors(bal, supply, settlement);
    OrderedFactors(0, bal, settlement);
    assert settlement * supply == supply * settlement;
    DivideBounds(bal * settlement, supply, 0, settlement);
  }

  /** Fixing the sender's entry before a transfer makes no more of its balance usable and unlocks nothing. */
  lemma SnapshotUsable(inv: Invoice, from: Address, t: Trail)
    requires Good(inv, t) && inv.status.PartiallySettled?
    ensures var after := inv.(entitlements := Snapshot(inv, from));
            && Usable(after, from) <= Usable(inv, from) && (Locked(inv, from) ==> Locked(after, from))
            && (from !in inv.entitlements && from in after.entitlements ==>
                  after.entitlements[from] == MulDiv(Lookup(inv.balances, from), inv.settlement, inv.supply))
  {
    hide JournalOk, UsableOf, Reach;
    Facts(inv, t);
    TotalBounds(inv.balances, from);
    var bal := Lookup(inv.balances, from);
    ReachNonNegative(inv.settlement);
    ReachExact(bal, inv.settlement);
    if inv.supply > 0 {
      ShareBounds(bal, inv.settlement, inv.supply);
      var computed := MulDiv(bal, inv.settlement, inv.supply);
      var entry := if from in inv.entitlements then Min(inv.entitlements[from], computed) else computed;
      EntryMakesLess(entry, Entitlements.EntryOf(inv, from), bal, Reach(inv.settlement));
    }
  }

  /** If no balance becomes more usable, their sum does not grow. */
  lemma FreeLess(inv: Invoice, after: Invoice)
    requires inv.balances.Keys <= after.balances.Keys && forall x :: Usable(after, x) <= Usable(inv, x)
    ensures Total(Free(after)) <= Total(Free(inv))
  {
    hide Usable, Total;
    var zeros := map x | x in after.balances :: 0;
    var all := map x | x in after.balances :: Usable(inv, x);
    forall x | x in all
      ensures all[x] == Lookup(Free(inv), x) + Lookup(zeros, x)
    {
      NothingUsable(inv, x);
    }
    assert all.Keys == Free(inv).Keys + zeros.Keys;
    TotalAdd(all, Free(inv), zeros);
    TotalOfZeros(zeros);
    TotalMonotone(Free(after), all);
  }

  // ---- One unit at a time -------------------------------------------------------------------

  /** A settled state of an unpaused contract. */
  ghost predicate Open(c: Contract, id: string, t: Trail) {
    var inv := Get(c, id);
    !c.paused && Good(inv, t) && IsSettled(inv.status)
  }

  lemma UnitOk(inv: Invoice, a: Address, t: Trail)
    requires Good(inv, t) && IsSettled(inv.status) && Lookup(inv.balances, a) >= 1 && RedeemCap(inv, a) >= 1
    ensures Redeem(inv, OPEN_HOST, false, a, 1).Ok?
  {
    Facts(inv, t);
    hide RedeemCap, Good, Credit;
    assert InI128(inv.supply - 1);
  }

  lemma UnitRedeem(c: Contract, id: string, a: Address, t: Trail)
    requires Open(c, id, t) && Lookup(Get(c, id).balances, a) >= 1 && RedeemCap(Get(c, id), a) >= 1
    ensures var inv, next := Get(c, id), Next(c, Single(id, OpRedeem(OPEN_HOST, a, 1)));
            var after := Get(next, id);
            && after.dust == Some(inv.dust.value - 1) && after.supply == inv.supply - 1
            && after.balances == Credit(inv.balances, a, -1) && after.settlement == inv.settlement
            && after.meta == inv.meta && (forall x :: Locked(after, x) <==> Locked(inv, x))
            && Total(Free(after)) == Total(Free(inv)) - 1
            && Usable(after, a) == Usable(inv, a) - 1 && (forall x :: x != a ==> Usable(after, x) == Usable(inv, x))
            && after.status == (if after.supply == 0 then Redeemed else inv.status)
            && (inv.supply > 1 ==> Open(next, id, t.(redeemed := t.redeemed + 1)))
  {
    var c', inv := Next(c, Single(id, OpRedeem(OPEN_HOST, a, 1))), Get(c, id);
    hide Redeem, Good, Total, Free, Locked, RedeemCap, Usable, Credit;
    UnitOk(inv, a, t);
    Facts(inv, t);
    TotalBounds(inv.balances, a);
    NextRedeem(c, id, a, 1);
    RedeemFree(inv, OPEN_HOST, false, a, 1);
    GoodStep(inv, "", false, false, OpRedeem(OPEN_HOST, a, 1), t);
    Facts(Get(c', id), t.(redeemed := t.redeemed + 1));
  }

  lemma NextBurn(c: Contract, id: string, a: Address)
    requires Burn(Get(c, id), OPEN_HOST, a, 1).Ok?
    ensures var after := Next(c, Single(id, OpBurn(OPEN_HOST, a, 1)));
            Get(after, id) == Burn(Get(c, id), OPEN_HOST, a, 1).value && after.paused == c.paused
  {
    hide Burn;
  }

  lemma UnitBurnOk(inv: Invoice, a: Address)
    requires 1 <= Lookup(inv.balances, a) <= I128_MAX && 0 <= inv.supply <= I128_MAX
    ensures Burn(inv, OPEN_HOST, a, 1) == BurnMove(inv, OPEN_HOST, a, 1) && BurnMove(inv, OPEN_HOST, a, 1).Ok?
  {
  }

  lemma UnitBurn(c: Contract, id: string, a: Address, t: Trail)
    requires Open(c, id, t) && Lookup(Get(c, id).balances, a) >= 1 && Get(c, id).supply > 1
    ensures var inv, next := Get(c, id), Next(c, Single(id, OpBurn(OPEN_HOST, a, 1)));
            var after := Get(next, id);
            && Open(next, id, t) && after.balances == Credit(inv.balances, a, -1)
            && after == inv.(balances := after.balances, supply := inv.supply - 1)
            && Usable(inv, a) - 1 <= Usable(after, a) <= Usable(inv, a)
            && (Usable(inv, a) < Lookup(inv.balances, a) ==> Usable(after, a) == Usable(inv, a))
            && (forall x :: x != a ==> Usable(after, x) == Usable(inv, x))
            && Total(Free(after)) == Total(Free(inv)) - Usable(inv, a) + Usable(after, a)
  {
    var c', inv := Next(c, Single(id, OpBurn(OPEN_HOST, a, 1))), Get(c, id);
    Facts(inv, t);
    TotalBounds(inv.balances, a);
    UnitBurnOk(inv, a);
    hide BurnMove, Good, Total, Free, Usable, Credit;
    NextBurn(c, id, a);
    BurnFree(inv, OPEN_HOST, a, 1);
    GoodStep(inv, "", false, false, OpBurn(OPEN_HOST, a, 1), t);
  }

  lemma Prepend(c: Contract, call: Call, rest: seq<Call>, id: string)
    requires Continues([call], id) && Continues(rest, id)
    ensures Continues([call] + rest, id) && Run(c, [call] + rest) == Run(Next(c, call), rest)
  {
    hide Next, Continues;
    Entitlements.RunConcat(c, [call], rest);
    Entitlements.RunSnoc(c, [], call);
    assert [] + [call] == [call];
    ContinuesAppend([call], rest, id);
  }

  lemma UnitContinues(id: string, a: Address)
    ensures Continues([Single(id, OpRedeem(OPEN_HOST, a, 1))], id)
    ensures Continues([Single(id, OpBurn(OPEN_HOST, a, 1))], id)
    ensures Continues([], id)
  {
  }

  lemma Share(bal: int, settlement: int, supply: int)
    requires 0 < bal <= supply <= I128_MAX && 0 < settlement <= I128_MAX
    requires bal * settlement < U128_LIMIT && bal * settlement >= supply
    ensures 1 <= MulDiv(bal, settlement, supply) <= I128_MAX
  {
    OrderedFactors(bal, supply, settlement);
    assert settlement * supply == supply * settlement;
    DivideBounds(bal * settlement, supply, 1, settlement);
  }

  /** A holder of something, all of it usable, can redeem a unit if it has an entry or its balance times the settlement
      reaches the supply. */
  lemma Redeemable(inv: Invoice, a: Address, t: Trail)
    requires Good(inv, t) && IsSettled(inv.status) && !Locked(inv, a) && Lookup(inv.balances, a) >= 1
    requires a in inv.entitlements
             || (Usable(inv, a) == Lookup(inv.balances, a) && Lookup(inv.balances, a) * inv.settlement >= inv.supply)
    ensures RedeemCap(inv, a) >= 1
  {
    Facts(inv, t);
    TotalBounds(inv.balances, a);
    if a !in inv.entitlements {
      ReachExact(Lookup(inv.balances, a), inv.settlement);
      Share(Lookup(inv.balances, a), inv.settlement, inv.supply);
    }
  }
}
