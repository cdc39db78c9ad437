/** Batch retirement against a sequence of single retirements in one transaction. */
module CarbonBatches {
  import opened Prelude
  import opened CarbonModel
  import opened CarbonProofs
  import Decimal

  // ---- The singles ------------------------------------------------------------------

  /** `retire_on_behalf` for each request in order; the first failure fails the whole sequence. */
  function OnBehalfInOrder(t: Token, host: Host, retiree: Address, requests: seq<Request>): Outcome {
    if requests == [] then Ok(t)
    else
      match OnBehalfInOrder(t, host, retiree, requests[..|requests| - 1])
      case Err(e) => Err(e)
      case Ok(before) =>
        var r := requests[|requests| - 1];
        RetireOnBehalf(before, host, retiree, r.beneficiary, r.amount, r.memo)
  }

  /** `retire` for each item in order. */
  function RetireInOrder(t: Token, host: Host, retiree: Address, items: seq<Retirement>): Outcome {
    if items == [] then Ok(t)
    else
      match RetireInOrder(t, host, retiree, items[..|items| - 1])
      case Err(e) => Err(e)
      case Ok(before) =>
        var r := items[|items| - 1];
        Retire(before, host, retiree, r.amount, r.beneficiary, r.reason)
  }

  /** The burns and records of a list of receipts, one by one. */
  function RetireEach(t: Token, receipts: seq<Receipt>): Outcome {
    if receipts == [] then Ok(t)
    else
      match RetireEach(t, receipts[..|receipts| - 1])
      case Err(e) => Err(e)
      case Ok(before) => RetireOne(before, receipts[|receipts| - 1])
  }

  function RecordEach(t: Token, receipts: seq<Receipt>): Token {
    if receipts == [] then t else Record(RecordEach(t, receipts[..|receipts| - 1]), receipts[|receipts| - 1])
  }

  predicate OneRetiree(receipts: seq<Receipt>, retiree: Address) {
    forall i :: 0 <= i < |receipts| ==> receipts[i].retiree == retiree && receipts[i].amount > 0
  }

  // ---- One burn of the total against a burn for each receipt ------------------------------

  lemma RecordAfterBurn(t: Token, retiree: Address, amount: int, r: Receipt)
    ensures Record(Burn(t, retiree, amount), r) == Burn(Record(t, r), retiree, amount)
  {
  }

  lemma {:induction false} RecordsAfterBurn(t: Token, retiree: Address, amount: int, receipts: seq<Receipt>)
    ensures RecordEach(Burn(t, retiree, amount), receipts) == Burn(RecordEach(t, receipts), retiree, amount)
  {
    hide Record, Burn;
    if receipts != [] {
      var init := receipts[..|receipts| - 1];
      RecordsAfterBurn(t, retiree, amount, init);
      RecordAfterBurn(RecordEach(t, init), retiree, amount, receipts[|receipts| - 1]);
    }
  }

  lemma {:induction false} RecordEachFrame(t: Token, receipts: seq<Receipt>)
    ensures var after := RecordEach(t, receipts);
            after == t.(receipts := t.receipts + receipts, index := after.index)
  {
    if receipts != [] {
      RecordEachFrame(t, receipts[..|receipts| - 1]);
      assert receipts == receipts[..|receipts| - 1] + [receipts[|receipts| - 1]];
    }
  }

  lemma BurnTwice(t: Token, retiree: Address, x: int, y: int)
    ensures Burn(Burn(t, retiree, x), retiree, y) == Burn(t, retiree, x + y)
  {
    assert Credit(Credit(t.balances, retiree, -x), retiree, -y) == Credit(t.balances, retiree, -(x + y));
  }

  /** Whether the total of some receipts can be burnt and recorded. */
  predicate Affordable(t: Token, retiree: Address, total: int, count: nat) {
    && total <= Lookup(t.balances, retiree) && InI128(t.supply - total) && InI128(t.retired + total)
    && |t.receipts| + count <= U32_MAX
  }

  lemma {:induction false} SumPositive(receipts: seq<Receipt>, retiree: Address)
    requires OneRetiree(receipts, retiree)
    ensures ReceiptSum(receipts) >= 0 && (receipts != [] ==> ReceiptSum(receipts) > 0)
  {
    if receipts != [] {
      SumPositive(receipts[..|receipts| - 1], retiree);
    }
  }

  /** Retiring one by one succeeds exactly when the total is affordable, and then is one burn of the total. */
  lemma {:induction false} EachIsTotal(t: Token, retiree: Address, receipts: seq<Receipt>)
    requires Sized(t) && OneRetiree(receipts, retiree) && receipts != []
    ensures RetireEach(t, receipts).Ok? <==> Affordable(t, retiree, ReceiptSum(receipts), |receipts|)
    ensures RetireEach(t, receipts).Ok? ==>
              RetireEach(t, receipts).value == Burn(RecordEach(t, receipts), retiree, ReceiptSum(receipts))
    decreases |receipts|
  {
    hide Sized, Record, RetireOne, Affordable, Burn;
    var init, r := receipts[..|receipts| - 1], receipts[|receipts| - 1];
    if init == [] {
      assert RetireEach(t, init) == Ok(t) && RecordEach(t, init) == t && ReceiptSum(init) == 0;
      FirstRetirement(t, r);
    } else {
      EachIsTotal(t, retiree, init);
      SumPositive(init, retiree);
      LaterRetirement(t, retiree, init, r);
    }
  }

  lemma FirstRetirement(t: Token, r: Receipt)
    requires Sized(t) && r.amount > 0
    ensures RetireOne(t, r).Ok? <==> Affordable(t, r.retiree, r.amount, 1)
    ensures RetireOne(t, r).Ok? ==> RetireOne(t, r).value == Burn(Record(t, r), r.retiree, r.amount)
  {
    RecordAfterBurn(t, r.retiree, r.amount, r);
    LookupSized(t, r.retiree);
  }

  lemma LookupSized(t: Token, a: Address)
    requires Sized(t)
    ensures InI128(Lookup(t.balances, a))
  {
  }

  lemma LaterRetirement(t: Token, retiree: Address, init: seq<Receipt>, r: Receipt)
    requires Sized(t) && r.retiree == retiree && r.amount > 0 && ReceiptSum(init) > 0
    ensures Affordable(t, retiree, ReceiptSum(init), |init|) ==>
              var before := Burn(RecordEach(t, init), retiree, ReceiptSum(init));
              var total := ReceiptSum(init) + r.amount;
              && (RetireOne(before, r).Ok? <==> Affordable(t, retiree, total, |init| + 1))
              && (RetireOne(before, r).Ok? ==>
                   RetireOne(before, r).value == Burn(Record(RecordEach(t, init), r), retiree, total))
    ensures Affordable(t, retiree, ReceiptSum(init) + r.amount, |init| + 1) ==>
              Affordable(t, retiree, ReceiptSum(init), |init|)
  {
    hide Sized, Record, RecordEach, ReceiptSum;
    var sum, recorded := ReceiptSum(init), RecordEach(t, init);
    RecordEachFrame(t, init);
    LookupSized(t, retiree);
    SizedRanges(t);
    RecordAfterBurn(Burn(recorded, retiree, sum), retiree, r.amount, r);
    RecordAfterBurn(recorded, retiree, sum, r);
    BurnTwice(Record(recorded, r), retiree, sum, r.amount);
  }

  lemma SizedRanges(t: Token)
    requires Sized(t)
    ensures InI128(t.supply) && InI128(t.retired)
  {
  }

  // ---- batch_retire_on_behalf ----------------------------------------------------------------

  /** Both forms ask whether the beneficiaries are approved. */
  predicate Approved(host: Host, requests: seq<Request>) {
    forall i :: 0 <= i < |requests| ==> host.kycApproved(requests[i].beneficiary)
  }

  /** What only the single calls check: compliance about each amount, and the length of each memo. */
  predicate SinglesPass(host: Host, retiree: Address, requests: seq<Request>) {
    forall i :: 0 <= i < |requests| ==>
      host.decide(retiree, retiree, requests[i].amount).Allow? && |requests[i].memo| <= MAX_FIELD_BYTES
  }

  predicate PositiveWithMemo(requests: seq<Request>) {
    forall i :: 0 <= i < |requests| ==> requests[i].amount > 0 && requests[i].memo != []
  }

  /** The serial number of the last of some receipts recorded next fits its buffer. */
  predicate SerialsFit(host: Host, first: nat, count: nat) {
    count > 0 ==> |Decimal.Serial(host.project, first + count - 1)| <= Decimal.SERIAL_BUFFER
  }

  /** What only the batch checks: its size, compliance about the amount one, positive amounts, memos that are not empty,
      and room for the serial numbers. */
  predicate BatchPasses(t: Token, host: Host, retiree: Address, requests: seq<Request>) {
    && 1 <= |requests| <= BATCH_CAP && host.decide(retiree, retiree, 1).Allow?
    && PositiveWithMemo(requests) && SerialsFit(host, |t.receipts|, |requests|)
  }

  lemma {:induction false} InOrderExactly(t: Token, host: Host, retiree: Address, requests: seq<Request>)
    ensures OnBehalfInOrder(t, host, retiree, requests).Ok? ==>
              SinglesPass(host, retiree, requests) && Approved(host, requests)
    ensures SinglesPass(host, retiree, requests) && Approved(host, requests) ==>
              OnBehalfInOrder(t, host, retiree, requests) == RetireEach(t, RequestReceipts(host, retiree, requests))
  {
    hide RetireOne;
    if requests != [] {
      var init := requests[..|requests| - 1];
      InOrderExactly(t, host, retiree, init);
      assert RequestReceipts(host, retiree, requests)[..|requests| - 1] == RequestReceipts(host, retiree, init);
    }
  }

  lemma {:induction false} ChecksExactly(host: Host, retiree: Address, requests: seq<Request>)
    ensures var sum := ReceiptSum(RequestReceipts(host, retiree, requests));
            var checks := CheckRequests(host, requests);
            && (checks.Ok? ==> PositiveWithMemo(requests) && Approved(host, requests))
            && (PositiveWithMemo(requests) && Approved(host, requests) ==>
                  sum >= 0 && checks == if sum <= I128_MAX then Ok(sum) else Err(Trap))
  {
    if requests != [] {
      var init := requests[..|requests| - 1];
      ChecksExactly(host, retiree, init);
      assert RequestReceipts(host, retiree, requests)[..|requests| - 1] == RequestReceipts(host, retiree, init);
    }
  }

  /** The recording pass succeeds exactly when the log and the last serial number have room. */
  lemma {:induction false} RecordAllIsEach(t: Token, host: Host, retiree: Address, requests: seq<Request>)
    requires |t.receipts| <= U32_MAX
    ensures RecordAll(t, host, retiree, requests)
            == if |t.receipts| + |requests| <= U32_MAX && SerialsFit(host, |t.receipts|, |requests|) then
                 Ok(RecordEach(t, RequestReceipts(host, retiree, requests)))
               else Err(Trap)
  {
    hide Record, Decimal.Serial;
    if requests != [] {
      var init := requests[..|requests| - 1];
      RecordAllIsEach(t, host, retiree, init);
      assert RequestReceipts(host, retiree, requests)[..|requests| - 1] == RequestReceipts(host, retiree, init);
      RecordEachFrame(t, RequestReceipts(host, retiree, init));
      if init != [] {
        Decimal.LaterSerials(host.project, |t.receipts| + |init| - 1, |t.receipts| + |init|);
      }
    }
  }

  lemma RequestsOfOne(host: Host, retiree: Address, requests: seq<Request>)
    requires PositiveWithMemo(requests)
    ensures OneRetiree(RequestReceipts(host, retiree, requests), retiree)
    ensures |RequestReceipts(host, retiree, requests)| == |requests|
  {
  }

  /** Under everything that only one of the forms checks, the batch is the singles. */
  lemma BatchIsSingles(t: Token, host: Host, retiree: Address, requests: seq<Request>)
    requires Sized(t) && SinglesPass(host, retiree, requests) && BatchPasses(t, host, retiree, requests)
    ensures var batch := BatchRetireOnBehalf(t, host, retiree, requests);
            var singles := OnBehalfInOrder(t, host, retiree, requests);
            (batch.Ok? <==> singles.Ok?) && (batch.Ok? ==> batch == singles)
  {
    hide Sized, OnBehalfInOrder, RetireEach, RecordEach, SinglesPass, RecordAll, CheckRequests, RequestReceipts;
    hide Burn, ReceiptSum, PositiveWithMemo, SerialsFit, Approved;
    var receipts := RequestReceipts(host, retiree, requests);
    var sum := ReceiptSum(receipts);
    RequestsOfOne(host, retiree, requests);
    InOrderExactly(t, host, retiree, requests);
    EachIsTotal(t, retiree, receipts);
    ChecksExactly(host, retiree, requests);
    LookupSized(t, retiree);
    var burnt := Burn(t, retiree, sum);
    BurnFrame(t, retiree, sum);
    SizedCount(t);
    RecordAllIsEach(burnt, host, retiree, requests);
    RecordsAfterBurn(t, retiree, sum, receipts);
  }

  lemma BatchChecks(t: Token, host: Host, retiree: Address, requests: seq<Request>)
    requires Sized(t) && BatchRetireOnBehalf(t, host, retiree, requests).Ok?
    ensures BatchPasses(t, host, retiree, requests)
  {
    hide Sized, RecordAll, CheckRequests, RequestReceipts, Burn, ReceiptSum, PositiveWithMemo, SerialsFit, Approved;
    ChecksExactly(host, retiree, requests);
    SizedCount(t);
    var total := CheckRequests(host, requests).value;
    BurnFrame(t, retiree, total);
    RecordAllIsEach(Burn(t, retiree, total), host, retiree, requests);
  }

  /** In every state, for every project id and all requests: the batch succeeds and the single calls' own checks pass
      exactly when the single calls in order all succeed and the batch's own checks pass. Each form passes its own
      checks when it succeeds, and when both succeed they end in the same state. */
  lemma BatchRefinesSingles(t: Token, host: Host, retiree: Address, requests: seq<Request>)
    requires Sized(t)
    ensures var batch := BatchRetireOnBehalf(t, host, retiree, requests);
            var singles := OnBehalfInOrder(t, host, retiree, requests);
            && (batch.Ok? && SinglesPass(host, retiree, requests)
                <==> singles.Ok? && BatchPasses(t, host, retiree, requests))
            && (batch.Ok? ==> BatchPasses(t, host, retiree, requests))
            && (singles.Ok? ==> SinglesPass(host, retiree, requests))
            && (batch.Ok? && singles.Ok? ==> batch == singles)
  {
    hide Sized, BatchRetireOnBehalf, OnBehalfInOrder, SinglesPass, BatchPasses;
    if BatchRetireOnBehalf(t, host, retiree, requests).Ok? {
      BatchChecks(t, host, retiree, requests);
    }
    InOrderExactly(t, host, retiree, requests);
    if SinglesPass(host, retiree, requests) && BatchPasses(t, host, retiree, requests) {
      BatchIsSingles(t, host, retiree, requests);
    }
  }

  lemma SizedCount(t: Token)
    requires Sized(t)
    ensures |t.receipts| <= U32_MAX
  {
  }

  // ---- batch_retire ---------------------------------------------------------------------------

  /** What only the single calls check: compliance about each amount, and the length of the texts. */
  predicate SingleItemsPass(host: Host, retiree: Address, items: seq<Retirement>) {
    forall i :: 0 <= i < |items| ==>
      && host.decide(retiree, retiree, items[i].amount).Allow?
      && |items[i].beneficiary| <= MAX_FIELD_BYTES && |items[i].reason| <= MAX_FIELD_BYTES
  }

  /** What only the batch checks: its size, compliance about the amount one and, if it is empty, the balance. */
  predicate ItemsBatchPasses(t: Token, host: Host, retiree: Address, items: seq<Retirement>) {
    && |items| <= BATCH_CAP && host.decide(retiree, retiree, 1).Allow?
    && (items == [] ==> Lookup(t.balances, retiree) >= 0)
  }

  predicate PositiveItems(items: seq<Retirement>) {
    forall i :: 0 <= i < |items| ==> items[i].amount > 0
  }

  lemma {:induction false} RetireInOrderExactly(t: Token, host: Host, retiree: Address, items: seq<Retirement>)
    ensures RetireInOrder(t, host, retiree, items).Ok? ==> SingleItemsPass(host, retiree, items) && PositiveItems(items)
    ensures SingleItemsPass(host, retiree, items) && PositiveItems(items) ==>
              RetireInOrder(t, host, retiree, items) == RetireEach(t, PlainReceipts(host, retiree, items))
  {
    hide RetireOne;
    if items != [] {
      var init := items[..|items| - 1];
      RetireInOrderExactly(t, host, retiree, init);
      assert PlainReceipts(host, retiree, items)[..|items| - 1] == PlainReceipts(host, retiree, init);
    }
  }

  lemma {:induction false} ItemChecksExactly(host: Host, retiree: Address, items: seq<Retirement>)
    ensures var sum := ReceiptSum(PlainReceipts(host, retiree, items));
            var checks := CheckRetirements(items);
            && (checks.Ok? ==> PositiveItems(items))
            && (PositiveItems(items) ==> sum >= 0 && checks == if sum <= I128_MAX then Ok(sum) else Err(Trap))
  {
    if items != [] {
      var init := items[..|items| - 1];
      ItemChecksExactly(host, retiree, init);
      assert PlainReceipts(host, retiree, items)[..|items| - 1] == PlainReceipts(host, retiree, init);
    }
  }

  lemma ItemsOfOne(host: Host, retiree: Address, items: seq<Retirement>)
    requires PositiveItems(items)
    ensures OneRetiree(PlainReceipts(host, retiree, items), retiree)
    ensures |PlainReceipts(host, retiree, items)| == |items|
  {
  }

  lemma ItemsBatchIsSingles(t: Token, host: Host, retiree: Address, items: seq<Retirement>)
    requires Sized(t) && SingleItemsPass(host, retiree, items) && ItemsBatchPasses(t, host, retiree, items)
    requires items != [] && PositiveItems(items)
    ensures var batch, singles := BatchRetire(t, host, retiree, items), RetireInOrder(t, host, retiree, items);
            (batch.Ok? <==> singles.Ok?) && (batch.Ok? ==> batch.value == singles.value.(index := t.index))
  {
    hide Sized, RetireInOrder, RetireEach, RecordEach, CheckRetirements, PlainReceipts, ReceiptSum, SingleItemsPass;
    hide PositiveItems;
    var receipts := PlainReceipts(host, retiree, items);
    ItemsOfOne(host, retiree, items);
    RetireInOrderExactly(t, host, retiree, items);
    EachIsTotal(t, retiree, receipts);
    ItemChecksExactly(host, retiree, items);
    LookupSized(t, retiree);
    RecordEachFrame(t, receipts);
  }

  /** The empty batch burns nothing, which a negative balance does not afford. */
  lemma EmptyBatch(t: Token, host: Host, retiree: Address)
    requires Sized(t) && host.decide(retiree, retiree, 1).Allow?
    ensures BatchRetire(t, host, retiree, [])
            == if Lookup(t.balances, retiree) >= 0 then Ok(t.(balances := Credit(t.balances, retiree, 0)))
               else Err(InsufficientBalance)
  {
    LookupSized(t, retiree);
    assert CheckRetirements([]) == Ok(0);
    assert t.receipts + PlainReceipts(host, retiree, []) == t.receipts;
  }

  /** The other batch, for all items: it succeeds and the single calls' own checks pass exactly when the single calls
      all succeed and the batch's own checks pass. When both succeed, it leaves the index as it was and differs from
      them in nothing else, except that the empty batch stores the balance it reads. */
  lemma BatchRetireRefinesSingles(t: Token, host: Host, retiree: Address, items: seq<Retirement>)
    requires Sized(t)
    ensures var batch, singles := BatchRetire(t, host, retiree, items), RetireInOrder(t, host, retiree, items);
            && (batch.Ok? && SingleItemsPass(host, retiree, items)
                <==> singles.Ok? && ItemsBatchPasses(t, host, retiree, items))
            && (batch.Ok? ==> ItemsBatchPasses(t, host, retiree, items))
            && (singles.Ok? ==> SingleItemsPass(host, retiree, items))
            && (batch.Ok? && singles.Ok? && items != [] ==> batch.value == singles.value.(index := t.index))
            && (batch.Ok? && items == [] ==> batch.value == t.(balances := Credit(t.balances, retiree, 0)))
  {
    hide Sized, RetireInOrder, SingleItemsPass, Credit, CheckRetirements, PlainReceipts, ReceiptSum, PositiveItems;
    RetireInOrderExactly(t, host, retiree, items);
    ItemChecksExactly(host, retiree, items);
    if items == [] {
      if host.decide(retiree, retiree, 1).Allow? {
        EmptyBatch(t, host, retiree);
      }
      NoRetirements(t, host, retiree);
    } else if SingleItemsPass(host, retiree, items) && ItemsBatchPasses(t, host, retiree, items)
              && PositiveItems(items) {
      ItemsBatchIsSingles(t, host, retiree, items);
    }
  }

  lemma NoRetirements(t: Token, host: Host, retiree: Address)
    ensures RetireInOrder(t, host, retiree, []) == Ok(t)
  {
  }

  // ---- Inputs ------------------------------------------------------------------------------------

  lemma OneRequest(t: Token, host: Host, retiree: Address, r: Request)
    ensures OnBehalfInOrder(t, host, retiree, [r]) == RetireOnBehalf(t, host, retiree, r.beneficiary, r.amount, r.memo)
    ensures CheckRequests(host, [r])
            == if r.amount <= 0 then Err(InvalidAmount)
               else if r.memo == [] then Err(Trap)
               else if !host.kycApproved(r.beneficiary) then Err(KycNotApproved)
               else if !InI128(r.amount) then Err(Trap)
               else Ok(r.amount)
    ensures RecordAll(t, host, retiree, [r]) == RecordRequest(t, host, retiree, r)
  {
    assert [r][..0] == [];
    assert OnBehalfInOrder(t, host, retiree, []) == Ok(t) && RecordAll(t, host, retiree, []) == Ok(t);
    assert CheckRequests(host, []) == Ok(0);
    hide RetireOnBehalf, RecordRequest;
  }

  lemma Minted(a: Address, amount: i128)
    ensures Run(EMPTY, [CallMint(OPEN_HOST, a, amount)]) == EMPTY.(balances := map[a := amount], supply := amount)
  {
    var mint := CallMint(OPEN_HOST, a, amount);
    assert [mint][..0] == [];
    assert Run(EMPTY, [mint]) == Next(EMPTY, mint);
    assert Credit(EMPTY.balances, a, amount) == map[a := amount];
  }

  /** A project id of 139 bytes, which the contract accepts, leaves no room for a serial number: every batch fails. */
  lemma LongProjectFailsBatch(a: Address)
    ensures var host := OPEN_HOST.(project := seq(139, _ => 65));
            var t := Run(EMPTY, [CallMint(OPEN_HOST, a, 1)]);
            var requests := [Request(a, 1, [65])];
            BatchRetireOnBehalf(t, host, a, requests).Err? && OnBehalfInOrder(t, host, a, requests).Ok?
  {
    var host := OPEN_HOST.(project := seq(139, _ => 65));
    var t := Run(EMPTY, [CallMint(OPEN_HOST, a, 1)]);
    Minted(a, 1);
    OneRequest(t, host, a, Request(a, 1, [65]));
    OneRequest(Burn(t, a, 1), host, a, Request(a, 1, [65]));
  }

  /** A request of nothing fails in a batch and succeeds alone, and so does one without a memo. */
  lemma ZeroAmountFailsBatch(a: Address)
    ensures var requests := [Request(a, 0, [65])];
            && BatchRetireOnBehalf(EMPTY, OPEN_HOST, a, requests).Err?
            && OnBehalfInOrder(EMPTY, OPEN_HOST, a, requests).Ok?
    ensures var t := Run(EMPTY, [CallMint(OPEN_HOST, a, 1)]);
            var requests := [Request(a, 1, [])];
            BatchRetireOnBehalf(t, OPEN_HOST, a, requests).Err? && OnBehalfInOrder(t, OPEN_HOST, a, requests).Ok?
  {
    Minted(a, 1);
    OneRequest(EMPTY, OPEN_HOST, a, Request(a, 0, [65]));
    OneRequest(Run(EMPTY, [CallMint(OPEN_HOST, a, 1)]), OPEN_HOST, a, Request(a, 1, []));
  }

  /** Compliance that allows single units only. */
  const CAPPED_HOST := OPEN_HOST.(decide := (_, _, amount: int) => if amount <= 1 then Allow else DenyOther)

  /** A batch asks compliance about one unit and retires two, which a single call is denied. */
  lemma CappedBatchPasses(a: Address)
    ensures var t := Run(EMPTY, [CallMint(OPEN_HOST, a, 2)]);
            var requests := [Request(a, 2, [65])];
            BatchRetireOnBehalf(t, CAPPED_HOST, a, requests).Ok? && OnBehalfInOrder(t, CAPPED_HOST, a, requests).Err?
  {
    var t := Run(EMPTY, [CallMint(OPEN_HOST, a, 2)]);
    Minted(a, 2);
    OneRequest(t, CAPPED_HOST, a, Request(a, 2, [65]));
    OneRequest(Burn(t, a, 2), CAPPED_HOST, a, Request(a, 2, [65]));
    Decimal.SerialFits(CAPPED_HOST.project, 0);
  }
}
