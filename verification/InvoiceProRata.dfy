/** Pro-rata redemption: the caps of all holders, taken in one state, never exceed the settlement and fall short of it
    by less than one unit per holder. */
module InvoiceProRata {
  import opened Prelude
  import opened InvoiceModel
  import opened InvoiceProofs
  import Settlement = InvoiceSettlement

  function Holders(balances: map<Address, int>): set<Address> {
    set a | a in balances && balances[a] > 0
  }

  function Share(bal: int, settlement: int, supply: int): int
    requires supply > 0
  {
    bal * settlement / supply
  }

  function Shares(balances: map<Address, int>, settlement: int, supply: int): map<Address, int>
    requires supply > 0
  {
    map a | a in balances :: Share(balances[a], settlement, supply)
  }

  /** How much of `total * settlement` the shares, scaled back up by the supply, leave unpaid. */
  function Loss(total: int, shares: int, settlement: int, supply: int): int {
    total * settlement - shares * supply
  }

  lemma SplitLoss(bal: int, total: int, share: int, shares: int, settlement: int, supply: int)
    ensures Loss(bal + total, share + shares, settlement, supply)
            == Loss(bal, share, settlement, supply) + Loss(total, shares, settlement, supply)
  {
  }

  lemma ShareBounds(bal: int, settlement: int, supply: int)
    requires bal >= 0 && settlement > 0 && supply > 0
    ensures 0 <= Loss(bal, Share(bal, settlement, supply), settlement, supply) <= (if bal > 0 then supply - 1 else 0)
  {
    if bal == 0 {
      assert bal * settlement == 0;
    }
  }

  function Rounding(balances: map<Address, int>, supply: int): int {
    (supply - 1) * |Holders(balances)|
  }

  lemma RoundingSplit(m: map<Address, int>, a: Address, supply: int)
    requires a in m
    ensures Rounding(m, supply) == Rounding(m - {a}, supply) + (if m[a] > 0 then supply - 1 else 0)
  {
    var n := |Holders(m - {a})|;
    assert Holders(m - {a}) == Holders(m) - {a};
    assert |Holders(m)| == if m[a] > 0 then n + 1 else n;
    assert (supply - 1) * (n + 1) == (supply - 1) * n + (supply - 1);
  }

  lemma RestOfHolders(m: map<Address, int>, a: Address, settlement: int, supply: int)
    requires NonNegative(m) && a in m && supply > 0
    ensures NonNegative(m - {a}) && m[a] >= 0
    ensures Total(m) == m[a] + Total(m - {a})
    ensures Total(Shares(m, settlement, supply))
            == Share(m[a], settlement, supply) + Total(Shares(m - {a}, settlement, supply))
  {
    hide Share;
    var shares := Shares(m, settlement, supply);
    TotalRemove(m, a);
    TotalRemove(shares, a);
    assert shares - {a} == Shares(m - {a}, settlement, supply);
  }

  lemma NoShares(settlement: int, supply: int)
    requires supply > 0
    ensures Loss(Total<Address>(map[]), Total(Shares(map[], settlement, supply)), settlement, supply) == 0
    ensures Rounding(map[], supply) == 0
  {
    assert Holders(map[]) == {};
  }

  /** Rounding loses less than one unit of supply for each positive balance. */
  lemma {:induction false} SharesBounds(m: map<Address, int>, settlement: int, supply: int)
    requires NonNegative(m) && settlement > 0 && supply > 0
    ensures 0 <= Loss(Total(m), Total(Shares(m, settlement, supply)), settlement, supply) <= Rounding(m, supply)
    decreases |m|
  {
    hide *;
    if m == map[] {
      NoShares(settlement, supply);
    } else {
      var a :| a in m;
      var rest := m - {a};
      RestOfHolders(m, a, settlement, supply);
      SharesBounds(rest, settlement, supply);
      SplitLoss(m[a], Total(rest), Share(m[a], settlement, supply), Total(Shares(rest, settlement, supply)),
                settlement, supply);
      ShareBounds(m[a], settlement, supply);
      RoundingSplit(m, a, supply);
    }
  }

  /** Every holder's redemption cap. */
  function Caps(inv: Invoice): map<Address, int> {
    map a | a in inv.balances :: RedeemCap(inv, a)
  }

  /** A state with something to share out, whose 128-bit products do not overflow. */
  ghost predicate Divisible(inv: Invoice) {
    && NonNegative(inv.balances) && Conserved(inv)
    && 0 < inv.supply <= I128_MAX && 0 < inv.settlement <= I128_MAX
    && forall a :: a in inv.balances ==> inv.balances[a] * inv.settlement < U128_LIMIT
  }

  lemma CapIsShare(inv: Invoice, a: Address)
    requires Divisible(inv) && a in inv.balances && a !in inv.entitlements
    ensures RedeemCap(inv, a) == Share(inv.balances[a], inv.settlement, inv.supply)
  {
    TotalBounds(inv.balances, a);
    var bal := inv.balances[a];
    Settlement.OrderedFactors(0, bal, inv.settlement);
    Settlement.OrderedFactors(bal, inv.supply, inv.settlement);
    Settlement.DivideBounds(bal * inv.settlement, inv.supply, 0, inv.settlement);
  }

  /** The pro-rata shares sum to at most the settlement and fall short of it by less than the number of holders. */
  lemma SharesPartitionSettlement(inv: Invoice)
    requires Divisible(inv)
    ensures var shares := Total(Shares(inv.balances, inv.settlement, inv.supply));
            shares <= inv.settlement < shares + |Holders(inv.balances)|
  {
    SharesBounds(inv.balances, inv.settlement, inv.supply);
    if Holders(inv.balances) == {} {
      assert forall a :: a in inv.balances ==> a !in Holders(inv.balances);
      TotalOfZeros(inv.balances);
    }
    NearlyAll(Total(Shares(inv.balances, inv.settlement, inv.supply)), inv.settlement, inv.supply,
              |Holders(inv.balances)|);
  }

  lemma NearlyAll(paid: int, settlement: int, supply: int, holders: nat)
    requires supply > 0 && settlement > 0 && holders > 0
    requires 0 <= supply * settlement - paid * supply <= (supply - 1) * holders
    ensures paid <= settlement < paid + holders
  {
    Settlement.OrderedFactors(paid, settlement, supply);
    assert supply * settlement - paid * supply == (settlement - paid) * supply;
    assert (supply - 1) * holders == holders * supply - holders;
    Settlement.OrderedFactors(settlement - paid, holders, supply);
  }

  // ---- Stored entitlements -------------------------------------------------------------

  /** By how much each stored entry moves its holder's cap away from the share. */
  function Adjustments(inv: Invoice): map<Address, int>
    requires inv.supply > 0
  {
    map a | a in inv.balances && a in inv.entitlements ::
      Min(inv.entitlements[a], inv.balances[a]) - Share(inv.balances[a], inv.settlement, inv.supply)
  }

  /** The caps are the shares, adjusted by the stored entries; so they stay within the settlement exactly when the
      adjustments stay within what rounding left. */
  lemma CapsAreAdjustedShares(inv: Invoice)
    requires Divisible(inv)
    ensures var shares := Total(Shares(inv.balances, inv.settlement, inv.supply));
            && Total(Caps(inv)) == shares + Total(Adjustments(inv))
            && (Total(Caps(inv)) <= inv.settlement <==> Total(Adjustments(inv)) <= inv.settlement - shares)
  {
    hide Divisible, Share, RedeemCap;
    DivisibleSupply(inv);
    forall a | a in inv.balances && a !in inv.entitlements
      ensures RedeemCap(inv, a) == Share(inv.balances[a], inv.settlement, inv.supply)
    {
      CapIsShare(inv, a);
    }
    forall a | a in inv.balances && a in inv.entitlements
      ensures RedeemCap(inv, a) == Min(inv.entitlements[a], inv.balances[a])
    {
      StoredCap(inv, a);
    }
    TotalAdd(Caps(inv), Shares(inv.balances, inv.settlement, inv.supply), Adjustments(inv));
  }

  lemma DivisibleSupply(inv: Invoice)
    requires Divisible(inv)
    ensures inv.supply > 0
  {
  }

  lemma StoredCap(inv: Invoice, a: Address)
    requires a in inv.entitlements
    ensures RedeemCap(inv, a) == Min(inv.entitlements[a], Lookup(inv.balances, a))
  {
  }

  /** The caps of all holders stay within the settlement whenever every stored entry is at most its holder's current
      share; without entries they also fall short of it by less than the number of holders. */
  lemma CapsPartitionSettlement(inv: Invoice)
    requires Divisible(inv)
    ensures (forall a :: a in inv.entitlements && a in inv.balances ==>
               inv.entitlements[a] <= Share(inv.balances[a], inv.settlement, inv.supply)) ==>
              Total(Caps(inv)) <= inv.settlement
    ensures inv.entitlements == map[] ==>
              Total(Caps(inv)) <= inv.settlement < Total(Caps(inv)) + |Holders(inv.balances)|
  {
    SharesPartitionSettlement(inv);
    CapsAreAdjustedShares(inv);
    hide Share, Divisible;
    var adjustments := Adjustments(inv);
    if forall a :: a in inv.entitlements && a in inv.balances ==>
         inv.entitlements[a] <= Share(inv.balances[a], inv.settlement, inv.supply) {
      var zeros := map a | a in adjustments :: 0;
      TotalMonotone(adjustments, zeros);
      TotalOfZeros(zeros);
    }
    if inv.entitlements == map[] {
      assert adjustments == map[];
    }
  }
}
