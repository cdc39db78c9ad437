/** Stored entitlements: what a transfer does to the redemption caps of a partially settled invoice, and how the entries
    evolve over runs. */
module InvoiceEntitlements {
  import opened Prelude
  import opened InvoiceModel
  import opened InvoiceProofs
  import opened InvoiceSettlement
  import opened InvoiceProRata

  // ---- Runs, call by call --------------------------------------------------------------

  lemma RunSnoc(c: Contract, calls: seq<Call>, call: Call)
    ensures Run(c, calls + [call]) == Next(Run(c, calls), call)
  {
    assert (calls + [call])[..|calls|] == calls;
  }

  lemma {:induction false} RunConcat(c: Contract, calls: seq<Call>, more: seq<Call>)
    ensures Run(c, calls + more) == Run(Run(c, calls), more)
    decreases |more|
  {
    hide Next;
    if more == [] {
      assert calls + more == calls;
    } else {
      var init := more[..|more| - 1];
      RunConcat(c, calls, init);
      assert calls + more == (calls + init) + [more[|more| - 1]];
      RunSnoc(c, calls + init, more[|more| - 1]);
    }
  }

  // ---- What a transfer does to the caps ----------------------------------------------------

  /** The balance that a transfer leaves to an address, computed beforehand. */
  function NewBalance(inv: Invoice, from: Address, to: Address, amount: int, a: Address): int
    requires inv.meta.Some?
  {
    var fee := Fee(inv.meta.value, amount);
    Lookup(inv.balances, a)
    + (if a == from then -amount else 0)
    + (if a == to then amount - fee else 0)
    + (if fee > 0 && inv.meta.value.feeRecipient == Some(a) then fee else 0)
  }

  function CapFor(inv: Invoice, entry: Option<int>, bal: int): int {
    if entry.Some? then Min(entry.value, bal)
    else if inv.settlement > 0 && inv.supply > 0 then
      var q := MulDiv(bal, inv.settlement, inv.supply);
      if q > I128_MAX then 0 else q
    else 0
  }

  function EntryOf(inv: Invoice, a: Address): Option<int> {
    if a in inv.entitlements then Some(inv.entitlements[a]) else None
  }

  /** The cap that a transfer leaves to an address, computed beforehand: the sender's entry is fixed first. */
  function NewCap(inv: Invoice, from: Address, to: Address, amount: int, a: Address): int
    requires inv.meta.Some?
  {
    var snapshot := Snapshot(inv, from);
    CapFor(inv, if a in snapshot then Some(snapshot[a]) else None, NewBalance(inv, from, to, amount, a))
  }

  function Touched(inv: Invoice, from: Address, to: Address, amount: int): set<Address>
    requires inv.meta.Some?
  {
    {from, to}
    + (if Fee(inv.meta.value, amount) > 0 && inv.meta.value.feeRecipient.Some? then {inv.meta.value.feeRecipient.value}
       else {})
  }

  /** By how much a transfer raises the cap of each address that it touches, computed beforehand. */
  function Rises(inv: Invoice, from: Address, to: Address, amount: int): map<Address, int>
    requires inv.meta.Some?
  {
    map a | a in Touched(inv, from, to, amount) :: NewCap(inv, from, to, amount, a) - RedeemCap(inv, a)
  }

  /** Entries belong to addresses with a stored balance. */
  ghost predicate EntriesHeld(inv: Invoice) {
    inv.entitlements.Keys <= inv.balances.Keys
  }

  lemma MovedBalances(inv: Invoice, host: Host, exempt: bool, from: Address, to: Address, amount: int, a: Address)
    requires inv.meta.Some? && Fee(inv.meta.value, amount) >= 0 && Move(inv, host, exempt, from, to, amount).Ok?
    ensures var after := Move(inv, host, exempt, from, to, amount).value;
            && Lookup(after.balances, a) == NewBalance(inv, from, to, amount, a)
            && (a in after.balances <==> a in inv.balances || a in Touched(inv, from, to, amount))
            && after.entitlements == Snapshot(inv, from)
            && after == inv.(balances := after.balances, entitlements := after.entitlements)
  {
    FeeHasRecipient(inv.meta.value, amount);
    hide Snapshot, Fee;
  }

  lemma FeeHasRecipient(meta: Meta, amount: int)
    ensures Fee(meta, amount) > 0 ==> meta.feeRecipient.Some?
  {
  }

  lemma CapIsCapFor(inv: Invoice, a: Address)
    ensures RedeemCap(inv, a) == CapFor(inv, EntryOf(inv, a), Lookup(inv.balances, a))
  {
  }

  lemma NothingHeld(inv: Invoice, a: Address)
    requires EntriesHeld(inv) && a !in inv.balances
    ensures RedeemCap(inv, a) == 0
  {
    ZeroShare(inv.settlement, inv.supply);
  }

  lemma ZeroShare(settlement: int, supply: int)
    ensures MulDiv(0, settlement, supply) == 0
  {
    assert 0 * AsU128(settlement) == 0;
  }

  lemma SnapshotElsewhere(inv: Invoice, from: Address, a: Address)
    requires a != from
    ensures a in Snapshot(inv, from) <==> a in inv.entitlements
    ensures a in inv.entitlements ==> Snapshot(inv, from)[a] == inv.entitlements[a]
  {
    hide MulDiv;
  }

  /** One address: a transfer changes its cap by its computed rise, and by nothing when it is not touched. */
  lemma CapMoves(inv: Invoice, host: Host, exempt: bool, from: Address, to: Address, amount: int, a: Address)
    requires inv.meta.Some? && EntriesHeld(inv)
    requires Fee(inv.meta.value, amount) >= 0 && Move(inv, host, exempt, from, to, amount).Ok?
    ensures var after := Move(inv, host, exempt, from, to, amount).value;
            && RedeemCap(after, a) == NewCap(inv, from, to, amount, a)
            && (a !in Touched(inv, from, to, amount) ==> RedeemCap(after, a) == RedeemCap(inv, a))
  {
    var after := Move(inv, host, exempt, from, to, amount).value;
    MovedBalances(inv, host, exempt, from, to, amount, a);
    hide Move, Snapshot, Fee, MulDiv;
    CapIsCapFor(after, a);
    CapIsCapFor(inv, a);
    if a !in Touched(inv, from, to, amount) {
      SnapshotElsewhere(inv, from, a);
    }
  }

  /** A transfer changes the sum of all caps by exactly the computed rises, for every aliasing and with fees; so it
      keeps the caps within the settlement exactly when the rises stay within the slack that is left. */
  lemma TransferMovesCaps(inv: Invoice, host: Host, exempt: bool, from: Address, to: Address, amount: int)
    requires inv.meta.Some? && EntriesHeld(inv)
    requires Fee(inv.meta.value, amount) >= 0 && Move(inv, host, exempt, from, to, amount).Ok?
    ensures var after := Move(inv, host, exempt, from, to, amount).value;
            var rises := Total(Rises(inv, from, to, amount));
            && Total(Caps(after)) == Total(Caps(inv)) + rises
            && (Total(Caps(after)) <= inv.settlement <==> rises <= inv.settlement - Total(Caps(inv)))
  {
    var after := Move(inv, host, exempt, from, to, amount).value;
    hide Move, RedeemCap, NewCap, NewBalance, Touched;
    var rises := Rises(inv, from, to, amount);
    forall a
      ensures a in after.balances <==> a in inv.balances || a in Touched(inv, from, to, amount)
      ensures RedeemCap(after, a) == NewCap(inv, from, to, amount, a)
      ensures a !in Touched(inv, from, to, amount) ==> RedeemCap(after, a) == RedeemCap(inv, a)
      ensures a !in inv.balances ==> RedeemCap(inv, a) == 0
    {
      MovedBalances(inv, host, exempt, from, to, amount, a);
      CapMoves(inv, host, exempt, from, to, amount, a);
      if a !in inv.balances {
        NothingHeld(inv, a);
      }
    }
    TotalAdd(Caps(after), Caps(inv), rises);
  }

  /** Without a fee, between different addresses: the caps stay within the settlement exactly when the recipient's cap
      rises by no more than the slack and what the sender's cap gives up. */
  lemma FeelessTransferMovesCaps(inv: Invoice, host: Host, exempt: bool, from: Address, to: Address, amount: int)
    requires inv.meta.Some? && EntriesHeld(inv) && from != to && !FeeApplies(inv.meta.value)
    requires Move(inv, host, exempt, from, to, amount).Ok?
    ensures var after := Move(inv, host, exempt, from, to, amount).value;
            Total(Caps(after)) <= inv.settlement
            <==> NewCap(inv, from, to, amount, to) - RedeemCap(inv, to)
                 <= (inv.settlement - Total(Caps(inv))) + (RedeemCap(inv, from) - NewCap(inv, from, to, amount, from))
  {
    hide Move, RedeemCap, NewCap;
    TransferMovesCaps(inv, host, exempt, from, to, amount);
    var rises := Rises(inv, from, to, amount);
    var none: map<Address, int> := map[];
    TotalUpdate(none, from, rises[from]);
    TotalUpdate(none[from := rises[from]], to, rises[to]);
    assert rises == none[from := rises[from]][to := rises[to]];
    TotalNothing<Address>();
  }

  // ---- Entries over runs ---------------------------------------------------------------------

  /** One successful call, whatever its amounts: an entry that is stored keeps or lowers its value, or is forgotten by
      its holder's redemption of exactly what was left. */
  lemma EntryStep(inv: Invoice, id: string, paused: bool, exempt: bool, op: Op, a: Address)
    requires Apply(inv, id, paused, exempt, op).Ok? && a in inv.entitlements
    ensures var after := Apply(inv, id, paused, exempt, op).value;
            if a in after.entitlements then after.entitlements[a] <= inv.entitlements[a]
            else op.OpRedeem? && op.from == a && op.amount == inv.entitlements[a]
  {
    hide CheckTransfer, CheckMeta, MulDiv, Credit, RedeemCap, Fee;
    match op
    case OpRedeem(host, from, amount) => RedeemedEntry(inv, host, paused, from, amount, a);
    case OpTransfer(host, from, to, amount) =>
      CheckedMeta(inv, host, id, from, to, amount);
      MovedEntry(inv, host, exempt, from, to, amount, a);
    case OpTransferFrom(host, spender, from, to, amount) =>
      CheckedMeta(inv, host, id, from, to, amount);
      MovedEntry(Spend(inv, from, spender, amount), host, exempt, from, to, amount, a);
    case _ =>
  }

  lemma RedeemedEntry(inv: Invoice, host: Host, paused: bool, from: Address, amount: int, a: Address)
    requires Redeem(inv, host, paused, from, amount).Ok? && a in inv.entitlements
    ensures var after := Redeem(inv, host, paused, from, amount).value;
            if a in after.entitlements then after.entitlements[a] <= inv.entitlements[a]
            else from == a && amount == inv.entitlements[a]
  {
    hide Credit, MulDiv;
  }

  lemma MovedEntry(inv: Invoice, host: Host, exempt: bool, from: Address, to: Address, amount: int, a: Address)
    requires inv.meta.Some? && Move(inv, host, exempt, from, to, amount).Ok? && a in inv.entitlements
    ensures var after := Move(inv, host, exempt, from, to, amount).value;
            a in after.entitlements && after.entitlements[a] <= inv.entitlements[a]
  {
    hide Credit, MulDiv, Fee;
  }

  /** Call `k` of `more` succeeds in redeeming exactly the entry that its holder has left by then. */
  ghost predicate UsesUp(c: Contract, more: seq<Call>, id: string, a: Address, k: nat) {
    && k < |more| && more[k].Single? && more[k].op.OpRedeem? && more[k].id == id && more[k].op.from == a
    && var before := Run(c, more[..k]);
    && ApplyCall(before, more[k]).Ok?
    && a in Get(before, id).entitlements && Get(before, id).entitlements[a] == more[k].op.amount
  }

  /** Over any continuation of any run, a stored entry never rises while it is stored, and it disappears only by a
      redemption of exactly what is left. */
  lemma {:induction false} EntryOverRun(calls: seq<Call>, more: seq<Call>, id: string, a: Address)
    requires a in Get(Run(EMPTY, calls), id).entitlements
    ensures var was, now := Get(Run(EMPTY, calls), id).entitlements, Get(Run(EMPTY, calls + more), id).entitlements;
            || (a in now && now[a] <= was[a])
            || exists k: nat :: UsesUp(Run(EMPTY, calls), more, id, a, k)
    decreases |more|
  {
    hide Apply, BatchState;
    RunConcat(EMPTY, calls, more);
    var c := Run(EMPTY, calls);
    if more != [] {
      var init, call := more[..|more| - 1], more[|more| - 1];
      RunConcat(EMPTY, calls, init);
      EntryOverRun(calls, init, id, a);
      if exists k: nat :: UsesUp(c, init, id, a, k) {
        var k: nat :| UsesUp(c, init, id, a, k);
        assert init[..k] == more[..k];
        assert UsesUp(c, more, id, a, k);
      } else {
        EntryNext(Run(c, init), call, id, a);
        if a !in Get(Next(Run(c, init), call), id).entitlements {
          assert UsesUp(c, more, id, a, |more| - 1);
        }
      }
    }
  }

  lemma EntryNext(c: Contract, call: Call, id: string, a: Address)
    requires a in Get(c, id).entitlements
    ensures var was, now := Get(c, id).entitlements, Get(Next(c, call), id).entitlements;
            if a in now then now[a] <= was[a]
            else
              call.Single? && call.op.OpRedeem? && call.id == id && call.op.from == a && call.op.amount == was[a]
              && ApplyCall(c, call).Ok?
  {
    hide Apply, BatchState, PartialSettle;
    match call
    case Single(name, op) =>
      if Target(name, op) == id && ApplyCall(c, call).Ok? {
        EntryStep(Get(c, id), id, c.paused, c.feeExempt, op, a);
      }
    case BatchSettle(host, items) =>
      var amount := BatchTouchesOnce(c, host, Effective(items), id);
      if Get(Next(c, call), id).status != Get(c, id).status {
        ApplyPartial(Get(c, id), id, c.paused, c.feeExempt, host, amount);
        EntryStep(Get(c, id), id, c.paused, c.feeExempt, OpPartialSettle(host, amount), a);
      }
    case _ =>
  }

  lemma EntriesHeldStep(inv: Invoice, id: string, paused: bool, exempt: bool, op: Op)
    requires EntriesHeld(inv) && Apply(inv, id, paused, exempt, op).Ok?
    ensures EntriesHeld(Apply(inv, id, paused, exempt, op).value)
  {
    hide CheckTransfer, CheckMeta, MulDiv, RedeemCap, Move;
    match op
    case OpTransfer(host, from, to, amount) =>
      CheckedMeta(inv, host, id, from, to, amount);
      MovedEntriesHeld(inv, host, exempt, from, to, amount);
    case OpTransferFrom(host, spender, from, to, amount) =>
      CheckedMeta(inv, host, id, from, to, amount);
      MovedEntriesHeld(Spend(inv, from, spender, amount), host, exempt, from, to, amount);
    case _ =>
  }

  lemma MovedEntriesHeld(inv: Invoice, host: Host, exempt: bool, from: Address, to: Address, amount: int)
    requires EntriesHeld(inv) && inv.meta.Some? && Move(inv, host, exempt, from, to, amount).Ok?
    ensures EntriesHeld(Move(inv, host, exempt, from, to, amount).value)
  {
    hide MulDiv, Fee;
  }

  lemma {:induction false} RunEntriesHeld(calls: seq<Call>, id: string)
    ensures EntriesHeld(Get(Run(EMPTY, calls), id))
    decreases |calls|
  {
    hide Apply, BatchState, EntriesHeld, PartialSettle;
    if calls == [] {
      NoEntries();
    } else {
      var init, call := calls[..|calls| - 1], calls[|calls| - 1];
      var c := Run(EMPTY, init);
      RunEntriesHeld(init, id);
      match call
      case Single(name, op) =>
        if Target(name, op) == id && ApplyCall(c, call).Ok? {
          EntriesHeldStep(Get(c, id), id, c.paused, c.feeExempt, op);
        }
      case BatchSettle(host, items) =>
        var amount := BatchTouchesOnce(c, host, Effective(items), id);
        if Get(Next(c, call), id).status != Get(c, id).status {
          ApplyPartial(Get(c, id), id, c.paused, c.feeExempt, host, amount);
          EntriesHeldStep(Get(c, id), id, c.paused, c.feeExempt, OpPartialSettle(host, amount));
        }
      case _ =>
    }
  }

  lemma NoEntries()
    ensures EntriesHeld(ABSENT)
  {
  }

  // ---- In reachable states ---------------------------------------------------------------------

  /** A settled state with supply left, reached with non-negative issues and burns, can be shared out. */
  lemma ReachableDivisible(calls: seq<Call>, id: string)
    requires NonNegativeCalls(calls)
    requires var inv := Get(Run(EMPTY, calls), id);
             && IsSettled(inv.status) && inv.supply > 0
             && forall a :: a in inv.balances ==> inv.balances[a] * inv.settlement < U128_LIMIT
    ensures Divisible(Get(Run(EMPTY, calls), id))
  {
    RunGood(calls, id);
  }

  /** In every reachable state, a transfer that succeeds keeps the caps within the settlement exactly when the rises
      that can be computed before it stay within the slack. */
  lemma TransferKeepsCapsExactly(calls: seq<Call>, id: string, host: Host, from: Address, to: Address, amount: int)
    requires var c := Run(EMPTY, calls);
             Transfer(Get(c, id), host, c.feeExempt, id, from, to, amount).Ok?
    ensures var c := Run(EMPTY, calls);
            var inv, after := Get(c, id), Transfer(Get(c, id), host, c.feeExempt, id, from, to, amount).value;
            && inv.meta.Some?
            && (Total(Caps(after)) <= inv.settlement
                <==> Total(Rises(inv, from, to, amount)) <= inv.settlement - Total(Caps(inv)))
  {
    var c := Run(EMPTY, calls);
    var inv := Get(c, id);
    RunBasic(calls, id);
    RunEntriesHeld(calls, id);
    TransferChecked(inv, host, id, from, to, amount);
    hide Move, CheckTransfer, Rises, Caps, JournalOk;
    FeeBounds(inv.meta.value, amount);
    TransferMovesCaps(inv, host, c.feeExempt, from, to, amount);
  }

  // ---- Inputs for which the caps exceed the settlement ----------------------------------------

  const ID := "INV-1"
  const META := Meta(ID, 100, 0, 0, 0, None, true, true)

  /** Two holders of 50 each, and a settlement of half the face value. */
  function HalfSettled(a: Address, b: Address): seq<Call> {
    [Single(ID, OpCreate(META)), Single(ID, OpIssue(OPEN_HOST, a, 50)), Single(ID, OpIssue(OPEN_HOST, b, 50)),
     Single(ID, OpPartialSettle(OPEN_HOST, 50))]
  }

  lemma RunFour(x: Call, y: Call, z: Call, w: Call)
    ensures Run(EMPTY, [x, y, z, w]) == Next(Next(Next(Next(EMPTY, x), y), z), w)
  {
    hide Next;
    RunSnoc(EMPTY, [], x);
    RunSnoc(EMPTY, [x], y);
    RunSnoc(EMPTY, [x, y], z);
    RunSnoc(EMPTY, [x, y, z], w);
    assert [] + [x] == [x] && [x] + [y] == [x, y] && [x, y] + [z] == [x, y, z] && [x, y, z] + [w] == [x, y, z, w];
  }

  lemma HalfSettledState(a: Address, b: Address)
    requires a != b
    ensures var c := Run(EMPTY, HalfSettled(a, b));
            var inv := Get(c, ID);
            && !c.paused && !c.feeExempt && inv.meta == Some(META) && inv.balances == map[a := 50, b := 50]
            && inv.supply == 100
            && inv.status == PartiallySettled && inv.settlement == 50 && inv.entitlements == map[]
            && inv.dust == Some(50)
  {
    var calls := HalfSettled(a, b);
    RunFour(calls[0], calls[1], calls[2], calls[3]);
    var c1 := Next(EMPTY, calls[0]);
    assert Get(c1, ID) == ABSENT.(meta := Some(META));
    var c2 := Next(c1, calls[1]);
    assert Get(c2, ID).balances == map[a := 50] && Get(c2, ID).supply == 50 && Get(c2, ID).status == Issued;
    var c3 := Next(c2, calls[2]);
    assert Get(c3, ID).balances == map[a := 50, b := 50] && Get(c3, ID).supply == 100;
  }

  lemma ReferenceOk()
    ensures CheckReference(ID).None?
  {
    assert ID[0] in ID && !IsAsciiWhitespace(ID[0]);
  }

  function Overshooting(a: Address, b: Address): seq<Call> {
    HalfSettled(a, b) + [Single(ID, OpTransfer(OPEN_HOST, a, b, 10))]
  }

  /** After one transfer the sender's stored cap of 25 and the recipient's share of 30 exceed the settlement of 50. */
  lemma StoredCapsOvershoot(a: Address, b: Address)
    requires a != b
    ensures var c := Run(EMPTY, Overshooting(a, b));
            var inv := Get(c, ID);
            && !c.paused && inv.status == PartiallySettled && inv.settlement == 50 && inv.supply == 100
            && inv.balances == map[a := 40, b := 60] && inv.entitlements == map[a := 25] && inv.dust == Some(50)
            && RedeemCap(inv, a) == 25 && RedeemCap(inv, b) == 30 && Total(Caps(inv)) == 55
  {
    hide Transfer, HalfSettled, Total, RedeemCap, Caps;
    HalfSettledState(a, b);
    var half := Run(EMPTY, HalfSettled(a, b));
    RunSnoc(EMPTY, HalfSettled(a, b), Single(ID, OpTransfer(OPEN_HOST, a, b, 10)));
    TransferTen(Get(half, ID), a, b);
    OvershootingCaps(Get(Run(EMPTY, Overshooting(a, b)), ID), a, b);
  }

  lemma OvershootingCaps(inv: Invoice, a: Address, b: Address)
    requires a != b && inv.balances == map[a := 40, b := 60] && inv.entitlements == map[a := 25]
    requires inv.settlement == 50 && inv.supply == 100
    ensures RedeemCap(inv, a) == 25 && RedeemCap(inv, b) == 30 && Total(Caps(inv)) == 55
  {
    hide Total;
    assert MulDiv(60, 50, 100) == 30;
    assert RedeemCap(inv, a) == 25 && RedeemCap(inv, b) == 30;
    hide RedeemCap, MulDiv;
    assert Caps(inv) == map[a := 25, b := 30];
    SumOfTwo(a, b, 25, 30);
  }

  lemma SumOfTwo(a: Address, b: Address, x: int, y: int)
    requires a != b
    ensures Total(map[a := x, b := y]) == x + y
  {
    hide Total;
    var one: map<Address, int> := map[a := x];
    TotalUpdate(one, b, y);
    TotalUpdate(map[], a, x);
    TotalNothing<Address>();
    assert map[][a := x] == one && one[b := y] == map[a := x, b := y];
  }

  lemma TransferTen(inv: Invoice, a: Address, b: Address)
    requires a != b && inv.meta == Some(META) && inv.balances == map[a := 50, b := 50] && inv.supply == 100
    requires inv.status == PartiallySettled && inv.settlement == 50 && inv.entitlements == map[]
    ensures Transfer(inv, OPEN_HOST, false, ID, a, b, 10)
            == Ok(inv.(balances := map[a := 40, b := 60], entitlements := map[a := 25]))
  {
    ReferenceOk();
    hide CheckReference;
    assert MulDiv(50, 50, 100) == 25;
    assert Snapshot(inv, a) == map[a := 25];
    assert Credit(inv.balances, a, -10) == map[a := 40, b := 50];
    assert Credit(map[a := 40, b := 50], b, 10) == map[a := 40, b := 60];
  }

  /** Redeeming the stored entitlement in full forgets it, and the holder can redeem a share of the rest as well. */
  lemma UsedUpEntryIsForgotten(a: Address, b: Address)
    requires a != b
    ensures var calls := Overshooting(a, b) + [Single(ID, OpRedeem(OPEN_HOST, a, 25))];
            var c := Run(EMPTY, calls);
            && RedeemCap(Get(Run(EMPTY, Overshooting(a, b)), ID), a) == 25
            && a !in Get(c, ID).entitlements && Get(c, ID).dust == Some(25) && RedeemCap(Get(c, ID), a) == 10
            && ApplyCall(c, Single(ID, OpRedeem(OPEN_HOST, a, 10))).Ok?
  {
    hide Overshooting;
    StoredCapsOvershoot(a, b);
    var before := Run(EMPTY, Overshooting(a, b));
    var call := Single(ID, OpRedeem(OPEN_HOST, a, 25));
    RunSnoc(EMPTY, Overshooting(a, b), call);
    var inv := Get(before, ID);
    var after := Redeem(inv, OPEN_HOST, false, a, 25).value;
    assert after.entitlements == map[] && after.balances == map[a := 15, b := 60] && after.supply == 75;
  }
}
