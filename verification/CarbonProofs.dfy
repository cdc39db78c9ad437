/** What the carbon token keeps over every sequence of calls: its sums, and an index that agrees with a scan. */
module CarbonProofs {
  import opened Prelude
  import opened CarbonModel
  import Decimal

  /** What a run has done that its state does not record: positions written by `batch_retire`, credits minted, and
      amounts of receipts appended without a burn. */
  datatype Trail = Trail(unfiled: set<nat>, minted: int, appended: int)

  const NO_TRAIL := Trail({}, 0, 0)

  /** The positions from `from` on, `count` of them. */
  function Span(from: nat, count: nat): (s: set<nat>)
    ensures forall p: nat :: p in s <==> from <= p < from + count
  {
    if count == 0 then {} else Span(from, count - 1) + {from + count - 1}
  }

  function TrailNext(trail: Trail, t: Token, call: Call): Trail {
    if Apply(t, call).Err? then trail
    else
      match call
      case CallMint(_, _, amount) => trail.(minted := trail.minted + amount)
      case CallAppendReceipt(_, _, amount, _, _, _) => trail.(appended := trail.appended + amount)
      case CallBatchRetire(_, _, items) => trail.(unfiled := trail.unfiled + Span(|t.receipts|, |items|))
      case _ => trail
  }

  function TrailOf(calls: seq<Call>): Trail
    decreases |calls|
  {
    if calls == [] then NO_TRAIL
    else TrailNext(TrailOf(calls[..|calls| - 1]), Run(EMPTY, calls[..|calls| - 1]), calls[|calls| - 1])
  }

  // ---- Scans of the receipt log -----------------------------------------------------------

  /** The ordered positions of the receipts attributed to an address, leaving out those in `skip`. */
  function Positions(receipts: seq<Receipt>, skip: set<nat>, a: Address): seq<nat> {
    if receipts == [] then []
    else
      var last := |receipts| - 1;
      Positions(receipts[..last], skip, a)
      + (if last !in skip && Attributed(receipts[last]) == a then [last] else [])
  }

  ghost predicate Increasing(s: seq<nat>) {
    forall i, j :: 0 <= i < j < |s| ==> s[i] < s[j]
  }

  lemma {:induction false} PositionsAscend(receipts: seq<Receipt>, skip: set<nat>, a: Address)
    ensures Increasing(Positions(receipts, skip, a))
    ensures forall p: nat :: p in Positions(receipts, skip, a) <==>
              p < |receipts| && p !in skip && Attributed(receipts[p]) == a
  {
    if receipts != [] {
      var last := |receipts| - 1;
      PositionsAscend(receipts[..last], skip, a);
      var before := Positions(receipts[..last], skip, a);
      forall i | 0 <= i < |before|
        ensures before[i] < last
      {
        assert before[i] in before;
      }
    }
  }

  lemma {:induction false} SkipElsewhere(receipts: seq<Receipt>, skip: set<nat>, more: set<nat>, a: Address)
    requires forall p :: p in more && p < |receipts| && p !in skip ==> Attributed(receipts[p]) != a
    ensures Positions(receipts, skip + more, a) == Positions(receipts, skip, a)
  {
    if receipts != [] {
      SkipElsewhere(receipts[..|receipts| - 1], skip, more, a);
    }
  }

  lemma {:induction false} SkippedTail(receipts: seq<Receipt>, more: seq<Receipt>, skip: set<nat>, a: Address)
    requires Span(|receipts|, |more|) <= skip
    ensures Positions(receipts + more, skip, a) == Positions(receipts, skip, a)
    decreases |more|
  {
    if more == [] {
      assert receipts + more == receipts;
    } else {
      var init := more[..|more| - 1];
      SkippedTail(receipts, init, skip, a);
      assert (receipts + more)[..|receipts + more| - 1] == receipts + init;
      assert |receipts| + |more| - 1 in Span(|receipts|, |more|);
    }
  }

  function ReceiptSum(receipts: seq<Receipt>): int {
    if receipts == [] then 0 else ReceiptSum(receipts[..|receipts| - 1]) + receipts[|receipts| - 1].amount
  }

  lemma ReceiptSumSnoc(receipts: seq<Receipt>, r: Receipt)
    ensures ReceiptSum(receipts + [r]) == ReceiptSum(receipts) + r.amount
  {
    assert (receipts + [r])[..|receipts|] == receipts;
  }

  // ---- The invariant ------------------------------------------------------------------------

  ghost predicate Balanced(t: Token, trail: Trail) {
    && Total(t.balances) == t.supply
    && t.supply + t.retired == trail.minted
    && ReceiptSum(t.receipts) == t.retired + trail.appended
  }

  ghost predicate Filed(t: Token, trail: Trail) {
    && trail.unfiled <= Span(0, |t.receipts|)
    && forall a :: IndexOf(t, a) == Positions(t.receipts, trail.unfiled, a)
  }

  /** Every stored number is within its machine type. */
  ghost predicate Sized(t: Token) {
    && (forall a :: a in t.balances ==> InI128(t.balances[a]))
    && InI128(t.supply) && InI128(t.retired) && |t.receipts| <= U32_MAX
  }

  ghost predicate Good(t: Token, trail: Trail) {
    Balanced(t, trail) && Filed(t, trail) && Sized(t)
  }

  /** The position of a new receipt is never filed already, so the scan for duplicates never finds one. */
  lemma DuplicateScanMisses(t: Token, trail: Trail, a: Address)
    requires Filed(t, trail)
    ensures |t.receipts| !in IndexOf(t, a)
  {
    PositionsAscend(t.receipts, trail.unfiled, a);
  }

  lemma RecordFiled(t: Token, trail: Trail, r: Receipt)
    requires Filed(t, trail)
    ensures Filed(Record(t, r), trail)
  {
    var after := Record(t, r);
    DuplicateScanMisses(t, trail, Attributed(r));
    assert after.receipts[..|t.receipts|] == t.receipts;
    assert |t.receipts| !in trail.unfiled;
    forall a
      ensures IndexOf(after, a) == Positions(after.receipts, trail.unfiled, a)
    {
      assert IndexOf(after, a) == IndexOf(t, a) + (if Attributed(r) == a then [|t.receipts|] else []);
    }
  }

  lemma UnfiledTail(t: Token, trail: Trail, more: seq<Receipt>)
    requires Filed(t, trail)
    ensures Filed(t.(receipts := t.receipts + more), trail.(unfiled := trail.unfiled + Span(|t.receipts|, |more|)))
  {
    var span := Span(|t.receipts|, |more|);
    forall a
      ensures IndexOf(t, a) == Positions(t.receipts + more, trail.unfiled + span, a)
    {
      SkipElsewhere(t.receipts, trail.unfiled, span, a);
      SkippedTail(t.receipts, more, trail.unfiled + span, a);
    }
  }

  lemma FiledOnly(t: Token, after: Token, trail: Trail)
    requires Filed(t, trail) && after.receipts == t.receipts && after.index == t.index
    ensures Filed(after, trail)
  {
    forall a
      ensures IndexOf(after, a) == Positions(after.receipts, trail.unfiled, a)
    {
      assert IndexOf(after, a) == IndexOf(t, a);
    }
  }

  /** A burn moves credits from the supply to the retired total. */
  lemma BurnKeeps(t: Token, trail: Trail, retiree: Address, amount: int)
    requires Good(t, trail) && CheckedBurn(t, retiree, amount).Ok?
    ensures var after := Burn(t, retiree, amount);
            && Sized(after) && Filed(after, trail)
            && Total(after.balances) == after.supply && after.supply + after.retired == trail.minted
            && ReceiptSum(after.receipts) + amount == after.retired + trail.appended
  {
    hide Filed;
    CreditTotal(t.balances, retiree, -amount);
    FiledOnly(t, Burn(t, retiree, amount), trail);
  }

  lemma RecordSized(t: Token, r: Receipt)
    requires Sized(t) && |t.receipts| < U32_MAX
    ensures Sized(Record(t, r))
  {
  }

  lemma RetireOneKeeps(t: Token, trail: Trail, r: Receipt)
    requires Good(t, trail) && RetireOne(t, r).Ok?
    ensures Good(RetireOne(t, r).value, trail)
  {
    hide Filed, Sized, Burn;
    var burnt := Burn(t, r.retiree, r.amount);
    BurnKeeps(t, trail, r.retiree, r.amount);
    BurnFrame(t, r.retiree, r.amount);
    RecordFiled(burnt, trail, r);
    RecordSized(burnt, r);
    ReceiptSumSnoc(burnt.receipts, r);
  }

  lemma BurnFrame(t: Token, retiree: Address, amount: int)
    ensures Burn(t, retiree, amount).receipts == t.receipts
  {
  }

  lemma AppendKeeps(t: Token, trail: Trail, r: Receipt)
    requires Good(t, trail) && |t.receipts| < U32_MAX
    ensures Good(Record(t, r), trail.(appended := trail.appended + r.amount))
  {
    hide Filed, Sized;
    RecordFiled(t, trail, r);
    RecordSized(t, r);
    ReceiptSumSnoc(t.receipts, r);
    FiledIgnoresSums(Record(t, r), trail, trail.(appended := trail.appended + r.amount));
  }

  lemma FiledIgnoresSums(t: Token, trail: Trail, other: Trail)
    requires Filed(t, trail) && trail.unfiled == other.unfiled
    ensures Filed(t, other)
  {
  }

  lemma MintKeeps(t: Token, trail: Trail, host: Host, to: Address, amount: int)
    requires Good(t, trail) && Mint(t, host, to, amount).Ok?
    ensures Good(Mint(t, host, to, amount).value, trail.(minted := trail.minted + amount))
  {
    hide Filed;
    CreditTotal(t.balances, to, amount);
    FiledOnly(t, Mint(t, host, to, amount).value, trail);
    FiledIgnoresSums(Mint(t, host, to, amount).value, trail, trail.(minted := trail.minted + amount));
  }

  lemma TransferKeeps(t: Token, trail: Trail, host: Host, from: Address, to: Address, amount: int)
    requires Good(t, trail) && Transfer(t, host, from, to, amount).Ok?
    ensures Good(Transfer(t, host, from, to, amount).value, trail)
  {
    hide Filed;
    CreditTotal(t.balances, from, -amount);
    CreditTotal(Credit(t.balances, from, -amount), to, amount);
    FiledOnly(t, Transfer(t, host, from, to, amount).value, trail);
  }

  // ---- Batches ---------------------------------------------------------------------------------

  lemma {:induction false} CheckedTotal(host: Host, retiree: Address, items: seq<Retirement>)
    requires CheckRetirements(items).Ok?
    ensures ReceiptSum(PlainReceipts(host, retiree, items)) == CheckRetirements(items).value
  {
    if items != [] {
      var init := items[..|items| - 1];
      CheckedTotal(host, retiree, init);
      assert PlainReceipts(host, retiree, items)[..|items| - 1] == PlainReceipts(host, retiree, init);
    }
  }

  lemma {:induction false} ReceiptSumConcat(a: seq<Receipt>, b: seq<Receipt>)
    ensures ReceiptSum(a + b) == ReceiptSum(a) + ReceiptSum(b)
    decreases |b|
  {
    if b == [] {
      assert a + b == a;
    } else {
      ReceiptSumConcat(a, b[..|b| - 1]);
      assert (a + b)[..|a + b| - 1] == a + b[..|b| - 1];
    }
  }

  lemma PlainReceiptsLength(host: Host, retiree: Address, items: seq<Retirement>)
    ensures |PlainReceipts(host, retiree, items)| == |items|
  {
  }

  lemma ExtendSized(t: Token, more: seq<Receipt>)
    requires Sized(t) && |t.receipts| + |more| <= U32_MAX
    ensures Sized(t.(receipts := t.receipts + more))
  {
  }

  lemma BatchRetireKeeps(t: Token, trail: Trail, host: Host, retiree: Address, items: seq<Retirement>)
    requires Good(t, trail) && BatchRetire(t, host, retiree, items).Ok?
    ensures Good(BatchRetire(t, host, retiree, items).value,
                 trail.(unfiled := trail.unfiled + Span(|t.receipts|, |items|)))
  {
    hide Filed, Sized, Burn, CheckRetirements, PlainReceipts;
    var total := CheckRetirements(items).value;
    var burnt := Burn(t, retiree, total);
    var more := PlainReceipts(host, retiree, items);
    PlainReceiptsLength(host, retiree, items);
    BurnKeeps(t, trail, retiree, total);
    BurnFrame(t, retiree, total);
    UnfiledTail(burnt, trail, more);
    CheckedTotal(host, retiree, items);
    ReceiptSumConcat(t.receipts, more);
    ExtendSized(burnt, more);
  }

  function RequestReceipts(host: Host, retiree: Address, requests: seq<Request>): seq<Receipt> {
    seq(|requests|, i requires 0 <= i < |requests| => RequestReceipt(host, retiree, requests[i]))
  }

  lemma {:induction false} RequestedTotal(host: Host, retiree: Address, requests: seq<Request>)
    requires CheckRequests(host, requests).Ok?
    ensures ReceiptSum(RequestReceipts(host, retiree, requests)) == CheckRequests(host, requests).value
  {
    if requests != [] {
      var init := requests[..|requests| - 1];
      RequestedTotal(host, retiree, init);
      assert RequestReceipts(host, retiree, requests)[..|requests| - 1] == RequestReceipts(host, retiree, init);
    }
  }

  lemma {:induction false} RecordAllKeeps(t: Token, trail: Trail, host: Host, retiree: Address, requests: seq<Request>)
    requires Filed(t, trail) && Sized(t) && RecordAll(t, host, retiree, requests).Ok?
    ensures var after := RecordAll(t, host, retiree, requests).value;
            && Filed(after, trail) && Sized(after)
            && after.receipts == t.receipts + RequestReceipts(host, retiree, requests)
            && after == t.(receipts := after.receipts, index := after.index)
  {
    hide Filed, Sized, Decimal.Serial;
    if requests != [] {
      var init := requests[..|requests| - 1];
      RecordAllKeeps(t, trail, host, retiree, init);
      var before := RecordAll(t, host, retiree, init).value;
      var r := RequestReceipt(host, retiree, requests[|requests| - 1]);
      RecordFiled(before, trail, r);
      RecordSized(before, r);
      assert RequestReceipts(host, retiree, requests) == RequestReceipts(host, retiree, init) + [r];
    }
  }

  lemma BatchOnBehalfKeeps(t: Token, trail: Trail, host: Host, retiree: Address, requests: seq<Request>)
    requires Good(t, trail) && BatchRetireOnBehalf(t, host, retiree, requests).Ok?
    ensures Good(BatchRetireOnBehalf(t, host, retiree, requests).value, trail)
  {
    hide Filed, Sized, Burn, CheckRequests, RecordAll;
    var total := CheckRequests(host, requests).value;
    var burnt := Burn(t, retiree, total);
    BurnKeeps(t, trail, retiree, total);
    BurnFrame(t, retiree, total);
    RecordAllKeeps(burnt, trail, host, retiree, requests);
    RequestedTotal(host, retiree, requests);
    ReceiptSumConcat(t.receipts, RequestReceipts(host, retiree, requests));
  }

  // ---- Whole runs ----------------------------------------------------------------------------------

  lemma GoodStep(t: Token, trail: Trail, call: Call)
    requires Good(t, trail)
    ensures Good(Next(t, call), TrailNext(trail, t, call))
  {
    hide Good, RetireOne, Mint, Transfer, BatchRetire, BatchRetireOnBehalf, Record;
    if Apply(t, call).Ok? {
      match call
      case CallMint(host, to, amount) => MintKeeps(t, trail, host, to, amount);
      case CallTransfer(host, from, to, amount) => TransferKeeps(t, trail, host, from, to, amount);
      case CallRetire(host, retiree, amount, beneficiary, reason) =>
        RetireOneKeeps(t, trail, Receipt(retiree, amount, host.now, beneficiary, reason, None));
      case CallRetireOnBehalf(host, retiree, onBehalfOf, amount, reason) =>
        RetireOneKeeps(t, trail, Receipt(retiree, amount, host.now, [], reason, Some(onBehalfOf)));
      case CallAppendReceipt(host, retiree, amount, beneficiary, reason, address) =>
        AppendKeeps(t, trail, Receipt(retiree, amount, host.now, beneficiary, reason, address));
      case CallBatchRetire(host, retiree, items) => BatchRetireKeeps(t, trail, host, retiree, items);
      case CallBatchRetireOnBehalf(host, retiree, requests) => BatchOnBehalfKeeps(t, trail, host, retiree, requests);
    }
  }

  lemma RunSnoc(t: Token, calls: seq<Call>, k: nat)
    requires k < |calls|
    ensures Run(t, calls[..k + 1]) == Next(Run(t, calls[..k]), calls[k])
  {
    hide Next;
    assert calls[..k + 1][..k] == calls[..k];
  }

  lemma EmptyGood()
    ensures Good(EMPTY, NO_TRAIL)
  {
  }

  lemma {:induction false} RunGood(calls: seq<Call>)
    ensures Good(Run(EMPTY, calls), TrailOf(calls))
    decreases |calls|
  {
    hide Good, Next, TrailNext;
    if calls == [] {
      EmptyGood();
    } else {
      RunGood(calls[..|calls| - 1]);
      GoodStep(Run(EMPTY, calls[..|calls| - 1]), TrailOf(calls[..|calls| - 1]), calls[|calls| - 1]);
    }
  }

  /** Balances sum to the supply, supply and retired credits to what was minted, and receipts to what was retired or
      appended, in every reachable state and for all amounts. */
  lemma CreditsConserved(calls: seq<Call>)
    ensures var t, trail := Run(EMPTY, calls), TrailOf(calls);
            && Total(t.balances) == t.supply
            && t.supply + t.retired == trail.minted
            && ReceiptSum(t.receipts) == t.retired + trail.appended
  {
    RunGood(calls);
  }

  /** In every reachable state the index of an address lists, in order and once each, the positions of the receipts
      attributed to it, except those written by `batch_retire`. */
  lemma IndexAgreesWithScan(calls: seq<Call>, a: Address)
    ensures var t, trail := Run(EMPTY, calls), TrailOf(calls);
            && IndexOf(t, a) == Positions(t.receipts, trail.unfiled, a)
            && Increasing(IndexOf(t, a))
            && forall p: nat :: p in IndexOf(t, a) <==>
                 p < |t.receipts| && p !in trail.unfiled && Attributed(t.receipts[p]) == a
  {
    RunGood(calls);
    PositionsAscend(Run(EMPTY, calls).receipts, TrailOf(calls).unfiled, a);
  }

  /** The index equals a scan of the whole log exactly when no receipt of the address came from `batch_retire`. */
  lemma IndexIsFullScan(calls: seq<Call>, a: Address)
    ensures var t, trail := Run(EMPTY, calls), TrailOf(calls);
            IndexOf(t, a) == Positions(t.receipts, {}, a)
            <==> forall p :: p in trail.unfiled && p < |t.receipts| ==> Attributed(t.receipts[p]) != a
  {
    var t, trail := Run(EMPTY, calls), TrailOf(calls);
    IndexAgreesWithScan(calls, a);
    PositionsAscend(t.receipts, {}, a);
    if forall p :: p in trail.unfiled && p < |t.receipts| ==> Attributed(t.receipts[p]) != a {
      SkipElsewhere(t.receipts, {}, trail.unfiled, a);
      assert {} + trail.unfiled == trail.unfiled;
    }
  }

  const OPEN_HOST := Host((_, _, _) => Allow, _ => true, 0, [])

  /** One `batch_retire` of one credit: the log has a receipt of the address and its index is empty. */
  lemma BatchRetireIsNotIndexed(a: Address)
    ensures var calls := [CallMint(OPEN_HOST, a, 1), CallBatchRetire(OPEN_HOST, a, [Retirement(1, [], [])])];
            var t := Run(EMPTY, calls);
            |t.receipts| == 1 && Attributed(t.receipts[0]) == a && IndexOf(t, a) == []
  {
    var mint, batch := CallMint(OPEN_HOST, a, 1), CallBatchRetire(OPEN_HOST, a, [Retirement(1, [], [])]);
    var calls := [mint, batch];
    assert calls[..1] == [mint] && [mint][..0] == [];
    assert Run(EMPTY, []) == EMPTY;
    var minted := Next(EMPTY, mint);
    assert Run(EMPTY, [mint]) == minted;
    assert minted == EMPTY.(balances := map[a := 1], supply := 1);
    var items := [Retirement(1, [], [])];
    assert items[..0] == [] && CheckRetirements([]) == Ok(0);
    assert CheckRetirements(items) == Ok(1);
  }
}
