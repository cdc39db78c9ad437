/** What every call of the carbon token asks, in which order, and what it does to each address when it succeeds: the
    answers of all entry points as lists of checks and changes, with the numbers written out. */
module CarbonAnswers {
  import opened Prelude
  import opened Checklists
  import opened CarbonModel
  import Proofs = CarbonProofs
  import Batches = CarbonBatches
  import Decimal

  // ---- The checks -----------------------------------------------------------------------

  /** A denial by compliance; pause and blocklist have their own error in some calls only. */
  function Asked(answer: Decision, paused: CarbonError, blocklisted: CarbonError): seq<Check<CarbonError>> {
    [Check(answer != DenyKyc, KycNotApproved), Check(answer != DenyPaused, paused),
     Check(answer != DenyBlocklisted, blocklisted), Check(answer != DenyOther, TransferBlocked)]
  }

  function Affords(t: Token, retiree: Address, amount: int): seq<Check<CarbonError>> {
    [Check(Lookup(t.balances, retiree) >= amount, InsufficientBalance),
     Check(Fits(Lookup(t.balances, retiree) - amount), Trap),
     Check(Fits(t.supply - amount), Trap), Check(Fits(t.retired + amount), Trap)]
  }

  function Room(t: Token, count: nat): seq<Check<CarbonError>> {
    [Check(|t.receipts| + count <= 4294967295, Trap)]
  }

  function Texts(beneficiary: seq<byte>, reason: seq<byte>): seq<Check<CarbonError>> {
    [Check(|beneficiary| <= 128 && |reason| <= 128, FieldTooLong)]
  }

  function ItemSum(items: seq<Retirement>): int {
    if items == [] then 0 else ItemSum(items[..|items| - 1]) + items[|items| - 1].amount
  }

  function RequestSum(requests: seq<Request>): int {
    if requests == [] then 0 else RequestSum(requests[..|requests| - 1]) + requests[|requests| - 1].amount
  }

  /** Item by item: the amount, then the sum so far. */
  function ItemChecks(items: seq<Retirement>): seq<Check<CarbonError>> {
    if items == [] then []
    else
      ItemChecks(items[..|items| - 1])
      + [Check(items[|items| - 1].amount >= 1, InvalidAmount), Check(Fits(ItemSum(items)), Trap)]
  }

  /** Request by request: the amount, the memo, the beneficiary, then the sum so far. */
  function RequestChecks(host: Host, requests: seq<Request>): seq<Check<CarbonError>> {
    if requests == [] then []
    else
      var r := requests[|requests| - 1];
      RequestChecks(host, requests[..|requests| - 1])
      + [Check(r.amount >= 1, InvalidAmount), Check(|r.memo| >= 1, Trap),
         Check(host.kycApproved(r.beneficiary), KycNotApproved), Check(Fits(RequestSum(requests)), Trap)]
  }

  /** Everything a call checks, in order. */
  function Checks(t: Token, call: Call): seq<Check<CarbonError>> {
    match call
    case CallMint(host, to, amount) =>
      Asked(host.decide(to, to, amount), CompliancePaused, Blocklisted)
      + [Check(Fits(Lookup(t.balances, to) + amount), Trap), Check(Fits(t.supply + amount), Trap)]
    case CallTransfer(host, from, to, amount) =>
      var left := Lookup(t.balances, from) - amount;
      Asked(host.decide(from, to, amount), CompliancePaused, Blocklisted)
      + [Check(left >= 0, InsufficientBalance), Check(Fits(left), Trap),
         Check(Fits((if to == from then left else Lookup(t.balances, to)) + amount), Trap)]
    case CallRetire(host, retiree, amount, beneficiary, reason) =>
      [Check(amount >= 1, InvalidAmount)]
      + (Texts(beneficiary, reason)
         + (Asked(host.decide(retiree, retiree, amount), TransferBlocked, TransferBlocked)
            + (Affords(t, retiree, amount) + Room(t, 1))))
    case CallRetireOnBehalf(host, retiree, onBehalfOf, amount, reason) =>
      Texts([], reason)
      + (Asked(host.decide(retiree, retiree, amount), TransferBlocked, TransferBlocked)
         + ([Check(host.kycApproved(onBehalfOf), KycNotApproved)] + (Affords(t, retiree, amount) + Room(t, 1))))
    case CallAppendReceipt(host, retiree, amount, beneficiary, reason, address) =>
      [Check(amount >= 1, InvalidAmount)]
      + (Texts(beneficiary, reason)
         + ([Check(address.Some? ==> host.kycApproved(address.value), InvalidBeneficiaryAddress)] + Room(t, 1)))
    case CallBatchRetire(host, retiree, items) =>
      [Check(|items| <= 10, BatchTooLarge)]
      + (Asked(host.decide(retiree, retiree, 1), TransferBlocked, TransferBlocked)
         + (ItemChecks(items) + (Affords(t, retiree, ItemSum(items)) + Room(t, |items|))))
    case CallBatchRetireOnBehalf(host, retiree, requests) =>
      [Check(1 <= |requests| <= 10, BatchTooLarge)]
      + (Asked(host.decide(retiree, retiree, 1), TransferBlocked, Blocklisted)
         + (RequestChecks(host, requests)
            + (Affords(t, retiree, RequestSum(requests))
               + (Room(t, |requests|) + [Check(SerialFits(host, |t.receipts| + |requests| - 1), Trap)]))))
  }

  /** A serial number has at most 139 bytes. */
  predicate SerialFits(host: Host, index: int) {
    index >= 0 ==> |Decimal.Serial(host.project, index)| <= 139
  }

  // ---- The first failing check decides ---------------------------------------------------------

  lemma AskedFirst(answer: Decision, paused: CarbonError, blocklisted: CarbonError)
    ensures First(Asked(answer, paused, blocklisted))
            == match answer
               case Allow => None
               case DenyKyc => Some(KycNotApproved)
               case DenyPaused => Some(paused)
               case DenyBlocklisted => Some(blocklisted)
               case DenyOther => Some(TransferBlocked)
  {
    hide First;
    FirstOfFour(Check(answer != DenyKyc, KycNotApproved), Check(answer != DenyPaused, paused),
                Check(answer != DenyBlocklisted, blocklisted), Check(answer != DenyOther, TransferBlocked));
  }

  lemma AffordsFirst(t: Token, retiree: Address, amount: int)
    ensures First(Affords(t, retiree, amount))
            == match CheckedBurn(t, retiree, amount) case Err(e) => Some(e) case Ok(_) => None
  {
    hide First;
    var left := Lookup(t.balances, retiree) - amount;
    FirstOfFour(Check(left >= 0, InsufficientBalance), Check(Fits(left), Trap), Check(Fits(t.supply - amount), Trap),
                Check(Fits(t.retired + amount), Trap));
    assert Lookup(t.balances, retiree) >= amount <==> left >= 0;
  }

  lemma {:induction false} ItemsFirst(items: seq<Retirement>)
    ensures First(ItemChecks(items)) == match CheckRetirements(items) case Err(e) => Some(e) case Ok(_) => None
    ensures CheckRetirements(items).Ok? ==> CheckRetirements(items).value == ItemSum(items)
  {
    if items == [] {
    } else {
      var init, amount := items[..|items| - 1], items[|items| - 1].amount;
      ItemsFirst(init);
      hide First;
      FirstJoin(ItemChecks(init), [Check(amount >= 1, InvalidAmount), Check(Fits(ItemSum(items)), Trap)]);
      FirstOfTwo(Check(amount >= 1, InvalidAmount), Check(Fits(ItemSum(items)), Trap));
    }
  }

  lemma {:induction false} RequestsFirst(host: Host, requests: seq<Request>)
    ensures First(RequestChecks(host, requests))
            == match CheckRequests(host, requests) case Err(e) => Some(e) case Ok(_) => None
    ensures CheckRequests(host, requests).Ok? ==> CheckRequests(host, requests).value == RequestSum(requests)
  {
    if requests == [] {
    } else {
      var init, r := requests[..|requests| - 1], requests[|requests| - 1];
      RequestsFirst(host, init);
      hide First;
      FirstJoin(RequestChecks(host, init),
                [Check(r.amount >= 1, InvalidAmount), Check(|r.memo| >= 1, Trap),
                 Check(host.kycApproved(r.beneficiary), KycNotApproved), Check(Fits(RequestSum(requests)), Trap)]);
      FirstOfFour(Check(r.amount >= 1, InvalidAmount), Check(|r.memo| >= 1, Trap),
                  Check(host.kycApproved(r.beneficiary), KycNotApproved), Check(Fits(RequestSum(requests)), Trap));
    }
  }

  lemma MintAnswer(t: Token, host: Host, to: Address, amount: i128)
    ensures First(Checks(t, CallMint(host, to, amount)))
            == match Mint(t, host, to, amount) case Err(e) => Some(e) case Ok(_) => None
  {
    hide First, Asked;
    var sums := [Check(Fits(Lookup(t.balances, to) + amount), Trap), Check(Fits(t.supply + amount), Trap)];
    AskedFirst(host.decide(to, to, amount), CompliancePaused, Blocklisted);
    FirstOfTwo(sums[0], sums[1]);
    FirstJoin(Asked(host.decide(to, to, amount), CompliancePaused, Blocklisted), sums);
  }

  lemma TransferAnswer(t: Token, host: Host, from: Address, to: Address, amount: i128)
    ensures First(Checks(t, CallTransfer(host, from, to, amount)))
            == match Transfer(t, host, from, to, amount) case Err(e) => Some(e) case Ok(_) => None
  {
    hide First, Asked;
    var left := Lookup(t.balances, from) - amount;
    var sums := [Check(left >= 0, InsufficientBalance), Check(Fits(left), Trap),
                 Check(Fits((if to == from then left else Lookup(t.balances, to)) + amount), Trap)];
    AskedFirst(host.decide(from, to, amount), CompliancePaused, Blocklisted);
    FirstOfThree(sums[0], sums[1], sums[2]);
    FirstJoin(Asked(host.decide(from, to, amount), CompliancePaused, Blocklisted), sums);
  }

  lemma RetireOneFirst(t: Token, r: Receipt)
    ensures First(Affords(t, r.retiree, r.amount) + Room(t, 1))
            == match RetireOne(t, r) case Err(e) => Some(e) case Ok(_) => None
  {
    hide First, Affords, CheckedBurn, Record;
    AffordsFirst(t, r.retiree, r.amount);
    FirstOfOne(Room(t, 1)[0]);
    FirstJoin(Affords(t, r.retiree, r.amount), Room(t, 1));
  }

  lemma RetireAnswer(t: Token, host: Host, retiree: Address, amount: i128, beneficiary: seq<byte>, reason: seq<byte>)
    ensures First(Checks(t, CallRetire(host, retiree, amount, beneficiary, reason)))
            == match Retire(t, host, retiree, amount, beneficiary, reason) case Err(e) => Some(e) case Ok(_) => None
  {
    hide First, Affords, RetireOne, Asked, Room;
    var last := Affords(t, retiree, amount) + Room(t, 1);
    var asked := Asked(host.decide(retiree, retiree, amount), TransferBlocked, TransferBlocked);
    RetireOneFirst(t, Receipt(retiree, amount, host.now, beneficiary, reason, None));
    AskedFirst(host.decide(retiree, retiree, amount), TransferBlocked, TransferBlocked);
    FirstJoin(asked, last);
    FirstOfOne(Texts(beneficiary, reason)[0]);
    FirstJoin(Texts(beneficiary, reason), asked + last);
    FirstOfOne(Check(amount >= 1, InvalidAmount));
    FirstJoin([Check(amount >= 1, InvalidAmount)], Texts(beneficiary, reason) + (asked + last));
  }

  lemma OnBehalfAnswer(t: Token, host: Host, retiree: Address, onBehalfOf: Address, amount: i128, reason: seq<byte>)
    ensures First(Checks(t, CallRetireOnBehalf(host, retiree, onBehalfOf, amount, reason)))
            == match RetireOnBehalf(t, host, retiree, onBehalfOf, amount, reason)
               case Err(e) => Some(e) case Ok(_) => None
  {
    hide First, Affords, RetireOne, Asked, Room;
    var last := Affords(t, retiree, amount) + Room(t, 1);
    var asked := Asked(host.decide(retiree, retiree, amount), TransferBlocked, TransferBlocked);
    var approved := [Check(host.kycApproved(onBehalfOf), KycNotApproved)];
    RetireOneFirst(t, Receipt(retiree, amount, host.now, [], reason, Some(onBehalfOf)));
    AskedFirst(host.decide(retiree, retiree, amount), TransferBlocked, TransferBlocked);
    FirstOfOne(approved[0]);
    FirstJoin(approved, last);
    FirstJoin(asked, approved + last);
    FirstOfOne(Texts([], reason)[0]);
    FirstJoin(Texts([], reason), asked + (approved + last));
  }

  lemma AppendAnswer(t: Token, host: Host, retiree: Address, amount: i128, beneficiary: seq<byte>, reason: seq<byte>,
                     address: Option<Address>)
    ensures First(Checks(t, CallAppendReceipt(host, retiree, amount, beneficiary, reason, address)))
            == match AppendReceipt(t, host, retiree, amount, beneficiary, reason, address)
               case Err(e) => Some(e) case Ok(_) => None
  {
    hide First, Record;
    var approved := [Check(address.Some? ==> host.kycApproved(address.value), InvalidBeneficiaryAddress)];
    FirstOfOne(Room(t, 1)[0]);
    FirstOfOne(approved[0]);
    FirstJoin(approved, Room(t, 1));
    FirstOfOne(Texts(beneficiary, reason)[0]);
    FirstJoin(Texts(beneficiary, reason), approved + Room(t, 1));
    FirstOfOne(Check(amount >= 1, InvalidAmount));
    FirstJoin([Check(amount >= 1, InvalidAmount)], Texts(beneficiary, reason) + (approved + Room(t, 1)));
  }

  lemma BatchAnswer(t: Token, host: Host, retiree: Address, items: seq<Retirement>)
    ensures First(Checks(t, CallBatchRetire(host, retiree, items)))
            == match BatchRetire(t, host, retiree, items) case Err(e) => Some(e) case Ok(_) => None
  {
    hide First, Affords, Asked, CheckedBurn, CheckRetirements, PlainReceipts, ItemChecks, ItemSum;
    var last := Affords(t, retiree, ItemSum(items)) + Room(t, |items|);
    var asked := Asked(host.decide(retiree, retiree, 1), TransferBlocked, TransferBlocked);
    FirstOfOne(Room(t, |items|)[0]);
    AffordsFirst(t, retiree, ItemSum(items));
    FirstJoin(Affords(t, retiree, ItemSum(items)), Room(t, |items|));
    ItemsFirst(items);
    FirstJoin(ItemChecks(items), last);
    AskedFirst(host.decide(retiree, retiree, 1), TransferBlocked, TransferBlocked);
    FirstJoin(asked, ItemChecks(items) + last);
    FirstOfOne(Check(|items| <= 10, BatchTooLarge));
    FirstJoin([Check(|items| <= 10, BatchTooLarge)], asked + (ItemChecks(items) + last));
  }

  lemma RecordedFirst(t: Token, host: Host, retiree: Address, requests: seq<Request>)
    requires |t.receipts| <= U32_MAX && requests != []
    ensures First(Room(t, |requests|) + [Check(SerialFits(host, |t.receipts| + |requests| - 1), Trap)])
            == match RecordAll(t, host, retiree, requests) case Err(e) => Some(e) case Ok(_) => None
  {
    hide First, RecordAll, Decimal.Serial;
    var serial := Check(SerialFits(host, |t.receipts| + |requests| - 1), Trap);
    FirstOfOne(Room(t, |requests|)[0]);
    FirstOfOne(serial);
    FirstJoin(Room(t, |requests|), [serial]);
    Batches.RecordAllIsEach(t, host, retiree, requests);
  }

  lemma BatchOnBehalfAnswer(t: Token, host: Host, retiree: Address, requests: seq<Request>)
    requires |t.receipts| <= U32_MAX
    ensures First(Checks(t, CallBatchRetireOnBehalf(host, retiree, requests)))
            == match BatchRetireOnBehalf(t, host, retiree, requests) case Err(e) => Some(e) case Ok(_) => None
  {
    hide First, Affords, Asked, CheckedBurn, CheckRequests, RecordAll, RequestChecks, RequestSum, Room, SerialFits;
    var room := Room(t, |requests|) + [Check(SerialFits(host, |t.receipts| + |requests| - 1), Trap)];
    var last := Affords(t, retiree, RequestSum(requests)) + room;
    var asked := Asked(host.decide(retiree, retiree, 1), TransferBlocked, Blocklisted);
    RequestsFirst(host, requests);
    AskedFirst(host.decide(retiree, retiree, 1), TransferBlocked, Blocklisted);
    AffordsFirst(t, retiree, RequestSum(requests));
    FirstJoin(Affords(t, retiree, RequestSum(requests)), room);
    FirstJoin(RequestChecks(host, requests), last);
    FirstJoin(asked, RequestChecks(host, requests) + last);
    FirstOfOne(Check(1 <= |requests| <= 10, BatchTooLarge));
    FirstJoin([Check(1 <= |requests| <= 10, BatchTooLarge)], asked + (RequestChecks(host, requests) + last));
    BurntLog(t, retiree, RequestSum(requests));
    if requests != [] {
      RecordedFirst(Burn(t, retiree, RequestSum(requests)), host, retiree, requests);
      assert Room(Burn(t, retiree, RequestSum(requests)), |requests|) == Room(t, |requests|) by {
        BurntRoom(t, retiree, RequestSum(requests), |requests|);
      }
    }
  }

  lemma BurntLog(t: Token, retiree: Address, amount: int)
    ensures CheckedBurn(t, retiree, amount).Ok? ==> CheckedBurn(t, retiree, amount).value == Burn(t, retiree, amount)
    ensures Burn(t, retiree, amount).receipts == t.receipts
  {
  }

  lemma BurntRoom(t: Token, retiree: Address, amount: int, count: nat)
    ensures Room(Burn(t, retiree, amount), count) == Room(t, count)
  {
  }

  /** Every call fails with the error of the first check that fails, and succeeds exactly when all of them pass. */
  lemma FirstFailedCheckDecides(t: Token, call: Call, error: CarbonError)
    requires |t.receipts| <= U32_MAX
    ensures Apply(t, call) == Err(error) <==> FailsFirst(Checks(t, call), error)
    ensures Apply(t, call).Ok? <==> AllPass(Checks(t, call))
  {
    hide First, Checks, FailsFirst, AllPass, Mint, Transfer, Retire, RetireOnBehalf, AppendReceipt, BatchRetire;
    hide BatchRetireOnBehalf;
    FirstMeaning(Checks(t, call), error);
    match call
    case CallMint(host, to, amount) => MintAnswer(t, host, to, amount);
    case CallTransfer(host, from, to, amount) => TransferAnswer(t, host, from, to, amount);
    case CallRetire(host, retiree, amount, beneficiary, reason) =>
      RetireAnswer(t, host, retiree, amount, beneficiary, reason);
    case CallRetireOnBehalf(host, retiree, onBehalfOf, amount, reason) =>
      OnBehalfAnswer(t, host, retiree, onBehalfOf, amount, reason);
    case CallAppendReceipt(host, retiree, amount, beneficiary, reason, address) =>
      AppendAnswer(t, host, retiree, amount, beneficiary, reason, address);
    case CallBatchRetire(host, retiree, items) => BatchAnswer(t, host, retiree, items);
    case CallBatchRetireOnBehalf(host, retiree, requests) => BatchOnBehalfAnswer(t, host, retiree, requests);
  }

  // ---- What a transfer and a mint ask --------------------------------------------------------------

  /** The error of a denied transfer or mint. */
  function DenialError(answer: Decision): CarbonError {
    match answer
    case DenyKyc => KycNotApproved
    case DenyPaused => CompliancePaused
    case DenyBlocklisted => Blocklisted
    case _ => TransferBlocked
  }

  /** A transfer that compliance denies from its sender to its recipient leaves the token as it was, with the error of
      that denial; so does a mint that is denied from its recipient to itself. */
  lemma DeniedLeavesAll(t: Token, host: Host, from: Address, to: Address, amount: i128)
    ensures !host.decide(from, to, amount).Allow? ==>
              var call := CallTransfer(host, from, to, amount);
              Next(t, call) == t && Apply(t, call) == Err(DenialError(host.decide(from, to, amount)))
    ensures !host.decide(to, to, amount).Allow? ==>
              var call := CallMint(host, to, amount);
              Next(t, call) == t && Apply(t, call) == Err(DenialError(host.decide(to, to, amount)))
  {
  }

  /** No other answer matters: hosts that give the same one let the same transfer, or mint, through alike. */
  lemma OneQuestion(t: Token, host: Host, other: Host, from: Address, to: Address, amount: i128)
    ensures host.decide(from, to, amount) == other.decide(from, to, amount) ==>
              Apply(t, CallTransfer(host, from, to, amount)) == Apply(t, CallTransfer(other, from, to, amount))
    ensures host.decide(to, to, amount) == other.decide(to, to, amount) ==>
              Apply(t, CallMint(host, to, amount)) == Apply(t, CallMint(other, to, amount))
  {
  }

  /** Compliance that lets one address receive and not send, as a holding rule does. */
  function NoSending(a: Address): Host {
    Proofs.OPEN_HOST.(decide := (from: Address, _, _) => if from == a then DenyOther else Allow)
  }

  /** The holder of five credits that must not send cannot transfer them, and can still be given some. */
  lemma SenderIsAsked(a: Address, b: Address)
    requires a != b
    ensures var t := EMPTY.(balances := map[a := 5], supply := 5);
            && Apply(t, CallTransfer(NoSending(a), a, b, 5)) == Err(TransferBlocked)
            && Apply(t, CallTransfer(NoSending(b), a, b, 5)).Ok?
            && Apply(t, CallMint(NoSending(a), a, 5)) == Err(TransferBlocked)
            && Apply(t, CallMint(NoSending(a), b, 5)).Ok?
  {
  }

  // ---- What changes ---------------------------------------------------------------------------------

  /** What a successful call adds to the balance of an address. */
  function Gain(call: Call, a: Address): int {
    match call
    case CallMint(_, to, amount) => if a == to then amount else 0
    case CallTransfer(_, from, to, amount) => (if a == to then amount else 0) - (if a == from then amount else 0)
    case CallRetire(_, retiree, amount, _, _) => if a == retiree then -(amount as int) else 0
    case CallRetireOnBehalf(_, retiree, _, amount, _) => if a == retiree then -(amount as int) else 0
    case CallAppendReceipt(_, _, _, _, _, _) => 0
    case CallBatchRetire(_, retiree, items) => if a == retiree then -ItemSum(items) else 0
    case CallBatchRetireOnBehalf(_, retiree, requests) => if a == retiree then -RequestSum(requests) else 0
  }

  /** What it adds to the retired total. */
  function Retires(call: Call): int {
    match call
    case CallRetire(_, _, amount, _, _) => amount
    case CallRetireOnBehalf(_, _, _, amount, _) => amount
    case CallBatchRetire(_, _, items) => ItemSum(items)
    case CallBatchRetireOnBehalf(_, _, requests) => RequestSum(requests)
    case _ => 0
  }

  /** The receipts that it stores, as (retiree, amount, time, beneficiary, reason, beneficiary's address). */
  function Stores(call: Call): seq<Receipt> {
    match call
    case CallRetire(host, retiree, amount, beneficiary, reason) =>
      [Receipt(retiree, amount, host.now, beneficiary, reason, None)]
    case CallRetireOnBehalf(host, retiree, onBehalfOf, amount, reason) =>
      [Receipt(retiree, amount, host.now, [], reason, Some(onBehalfOf))]
    case CallAppendReceipt(host, retiree, amount, beneficiary, reason, address) =>
      [Receipt(retiree, amount, host.now, beneficiary, reason, address)]
    case CallBatchRetire(host, retiree, items) =>
      seq(|items|, i requires 0 <= i < |items| =>
        Receipt(retiree, items[i].amount, host.now, items[i].beneficiary, items[i].reason, None))
    case CallBatchRetireOnBehalf(host, retiree, requests) =>
      seq(|requests|, i requires 0 <= i < |requests| =>
        Receipt(retiree, requests[i].amount, host.now, [], requests[i].memo, Some(requests[i].beneficiary)))
    case _ => []
  }

  function Parties(requests: seq<Request>): seq<Address> {
    seq(|requests|, i requires 0 <= i < |requests| => requests[i].beneficiary)
  }

  /** The addresses under which it files them, none in a plain batch. */
  function Files(call: Call): seq<Address> {
    match call
    case CallRetire(_, retiree, _, _, _) => [retiree]
    case CallRetireOnBehalf(_, _, onBehalfOf, _, _) => [onBehalfOf]
    case CallAppendReceipt(_, retiree, _, _, _, address) => [if address.Some? then address.value else retiree]
    case CallBatchRetireOnBehalf(_, _, requests) => Parties(requests)
    case _ => []
  }

  /** The sums, the balances and the log after a successful call. */
  ghost predicate Changed(t: Token, call: Call, after: Token) {
    && (forall a :: Lookup(after.balances, a) == Lookup(t.balances, a) + Gain(call, a))
    && after.supply == t.supply + (if call.CallMint? then call.amount else -Retires(call))
    && after.retired == t.retired + Retires(call)
    && after.receipts == t.receipts + Stores(call)
  }

  lemma BurntChanges(t: Token, retiree: Address, amount: int)
    ensures var after := Burn(t, retiree, amount);
            && after == t.(balances := after.balances, supply := t.supply - amount, retired := t.retired + amount)
            && forall a :: Lookup(after.balances, a) == Lookup(t.balances, a) - (if a == retiree then amount else 0)
  {
  }

  lemma RecordFrame(t: Token, r: Receipt)
    ensures var after := Record(t, r); after == t.(receipts := t.receipts + [r], index := after.index)
  {
  }

  lemma {:induction false} RecordAllFrame(t: Token, host: Host, retiree: Address, requests: seq<Request>)
    requires RecordAll(t, host, retiree, requests).Ok?
    ensures var after := RecordAll(t, host, retiree, requests).value;
            after == t.(receipts := t.receipts + Stores(CallBatchRetireOnBehalf(host, retiree, requests)),
                        index := after.index)
  {
    hide Record, Decimal.Serial;
    if requests == [] {
    } else {
      var init, r := requests[..|requests| - 1], requests[|requests| - 1];
      RecordAllFrame(t, host, retiree, init);
      RecordFrame(RecordAll(t, host, retiree, init).value, RequestReceipt(host, retiree, r));
      assert Stores(CallBatchRetireOnBehalf(host, retiree, requests))
          == Stores(CallBatchRetireOnBehalf(host, retiree, init))
             + [Receipt(retiree, r.amount, host.now, [], r.memo, Some(r.beneficiary))];
    }
  }

  lemma BatchChanges(t: Token, call: Call)
    requires Apply(t, call).Ok? && (call.CallBatchRetire? || call.CallBatchRetireOnBehalf?)
    ensures Changed(t, call, Next(t, call))
  {
    hide RecordAll, CheckRequests, CheckRetirements, ItemSum, RequestSum, Burn;
    match call
    case CallBatchRetire(host, retiree, items) =>
      ItemsFirst(items);
      BurntChanges(t, retiree, ItemSum(items));
    case CallBatchRetireOnBehalf(host, retiree, requests) =>
      RequestsFirst(host, requests);
      BurntChanges(t, retiree, RequestSum(requests));
      RecordAllFrame(Burn(t, retiree, RequestSum(requests)), host, retiree, requests);
  }

  lemma RetirementChanges(t: Token, call: Call, r: Receipt)
    requires Apply(t, call).Ok? && Stores(call) == [r]
    requires call.CallRetire? || call.CallRetireOnBehalf?
    ensures Changed(t, call, Next(t, call))
  {
    hide Record, Burn;
    BurntChanges(t, r.retiree, r.amount);
    RecordFrame(Burn(t, r.retiree, r.amount), r);
  }

  /** A successful call changes every balance, the supply, the retired total and the log by exactly this. */
  lemma SuccessChanges(t: Token, call: Call)
    requires Apply(t, call).Ok?
    ensures Changed(t, call, Next(t, call))
  {
    hide Record, BatchRetire, BatchRetireOnBehalf, RetireOne;
    match call
    case CallMint(_, _, _) =>
    case CallTransfer(_, _, _, _) =>
    case CallAppendReceipt(host, retiree, amount, beneficiary, reason, address) =>
      RecordFrame(t, Receipt(retiree, amount, host.now, beneficiary, reason, address));
    case CallBatchRetire(_, _, _) => BatchChanges(t, call);
    case CallBatchRetireOnBehalf(_, _, _) => BatchChanges(t, call);
    case _ => RetirementChanges(t, call, Stores(call)[0]);
  }

  // ---- Where credits come from --------------------------------------------------------------------------

  /** The call gives an address credits, and compliance allowed it. */
  predicate GivenTo(call: Call, a: Address) {
    match call
    case CallMint(host, to, amount) => to == a && amount > 0 && host.decide(a, a, amount).Allow?
    case CallTransfer(host, from, to, amount) =>
      && from != to && host.decide(from, to, amount).Allow?
      && if amount > 0 then to == a else from == a && amount < 0
    case CallRetireOnBehalf(host, retiree, _, amount, _) =>
      retiree == a && amount < 0 && host.decide(a, a, amount).Allow?
    case _ => false
  }

  lemma {:induction false} SumsPositive(items: seq<Retirement>)
    requires CheckRetirements(items).Ok?
    ensures ItemSum(items) >= 0
  {
    if items != [] {
      SumsPositive(items[..|items| - 1]);
    }
  }

  lemma {:induction false} RequestSumsPositive(host: Host, requests: seq<Request>)
    requires CheckRequests(host, requests).Ok?
    ensures RequestSum(requests) >= 0
  {
    if requests != [] {
      RequestSumsPositive(host, requests[..|requests| - 1]);
    }
  }

  /** A call raises the balance of an address exactly when it succeeds and gives the address credits. */
  lemma RaisedExactly(t: Token, call: Call, a: Address)
    ensures Lookup(Next(t, call).balances, a) > Lookup(t.balances, a) <==> Apply(t, call).Ok? && GivenTo(call, a)
  {
    if Apply(t, call).Ok? {
      SuccessChanges(t, call);
      hide Record, Burn, CheckedBurn, RecordAll, CheckRequests, CheckRetirements, ItemSum, RequestSum;
      if call.CallBatchRetire? {
        SumsPositive(call.items);
      } else if call.CallBatchRetireOnBehalf? {
        RequestSumsPositive(call.host, call.requests);
      }
    }
  }

  /** If an address has more credits at one moment of a run than at an earlier one, then one of the calls between them
      gave it credits, and compliance allowed exactly that: the mint to it, the transfer from its sender to its
      recipient, or the retirement of less than nothing. */
  lemma {:induction false} RisesOnlyIfAllowed(calls: seq<Call>, j: nat, k: nat, a: Address)
    requires j <= k <= |calls|
    requires Lookup(Run(EMPTY, calls[..j]).balances, a) < Lookup(Run(EMPTY, calls[..k]).balances, a)
    ensures exists i :: j <= i < k && Apply(Run(EMPTY, calls[..i]), calls[i]).Ok? && GivenTo(calls[i], a)
    decreases k
  {
    hide Apply, Next, GivenTo, Run;
    Proofs.RunSnoc(EMPTY, calls, k - 1);
    RaisedExactly(Run(EMPTY, calls[..k - 1]), calls[k - 1], a);
    if !(Apply(Run(EMPTY, calls[..k - 1]), calls[k - 1]).Ok? && GivenTo(calls[k - 1], a)) {
      RisesOnlyIfAllowed(calls, j, k - 1, a);
    }
  }

  // ---- Where receipts are filed ----------------------------------------------------------------------------

  /** Positions that are in use only. */
  ghost predicate FiledBelow(t: Token) {
    forall a, p :: p in IndexOf(t, a) ==> p < |t.receipts|
  }

  /** The address's entries after filing new positions from `first` on. */
  function Filed(entries: seq<nat>, a: Address, files: seq<Address>, first: nat): seq<nat> {
    if files == [] then entries
    else
      var last := |files| - 1;
      Filed(entries, a, files[..last], first) + (if files[last] == a then [first + last] else [])
  }

  lemma RecordFiles(t: Token, r: Receipt)
    requires FiledBelow(t)
    ensures FiledBelow(Record(t, r))
    ensures forall a :: IndexOf(Record(t, r), a) == Filed(IndexOf(t, a), a, [Attributed(r)], |t.receipts|)
  {
    assert |t.receipts| !in IndexOf(t, Attributed(r));
    forall a
      ensures IndexOf(Record(t, r), a) == Filed(IndexOf(t, a), a, [Attributed(r)], |t.receipts|)
    {
      assert [Attributed(r)][..0] == [];
      assert Filed(IndexOf(t, a), a, [], |t.receipts|) == IndexOf(t, a);
    }
  }

  lemma FiledOne(entries: seq<nat>, a: Address, b: Address, first: nat)
    ensures Filed(entries, a, [b], first) == entries + (if a == b then [first] else [])
  {
    assert [b][..0] == [];
    assert Filed(entries, a, [], first) == entries;
  }

  lemma {:induction false} RecordAllFiles(t: Token, host: Host, retiree: Address, requests: seq<Request>)
    requires FiledBelow(t) && RecordAll(t, host, retiree, requests).Ok?
    ensures var after := RecordAll(t, host, retiree, requests).value;
            && FiledBelow(after)
            && forall a :: IndexOf(after, a) == Filed(IndexOf(t, a), a, Parties(requests), |t.receipts|)
  {
    hide Record, FiledBelow, IndexOf, Decimal.Serial;
    if requests == [] {
      assert Parties(requests) == [];
    } else {
      var init, r := requests[..|requests| - 1], requests[|requests| - 1];
      RecordAllFiles(t, host, retiree, init);
      RecordAllFrame(t, host, retiree, init);
      var before := RecordAll(t, host, retiree, init).value;
      RecordFiles(before, RequestReceipt(host, retiree, r));
      assert Parties(requests)[..|requests| - 1] == Parties(init);
      assert Attributed(RequestReceipt(host, retiree, r)) == r.beneficiary;
      assert |before.receipts| == |t.receipts| + |init|;
      forall a
        ensures IndexOf(Record(before, RequestReceipt(host, retiree, r)), a)
                == Filed(IndexOf(t, a), a, Parties(requests), |t.receipts|)
      {
        FiledOne(IndexOf(before, a), a, r.beneficiary, |before.receipts|);
      }
    }
  }

  lemma SameIndex(t: Token, after: Token)
    requires after.index == t.index
    ensures forall a :: IndexOf(after, a) == IndexOf(t, a)
    ensures FiledBelow(t) && |t.receipts| <= |after.receipts| ==> FiledBelow(after)
  {
  }

  lemma NothingFiled(t: Token, call: Call)
    requires Files(call) == [] && Next(t, call).index == t.index
    ensures forall a :: IndexOf(Next(t, call), a) == Filed(IndexOf(t, a), a, Files(call), |t.receipts|)
  {
    SameIndex(t, Next(t, call));
  }

  lemma BurntIndex(t: Token, retiree: Address, amount: int)
    ensures Burn(t, retiree, amount).index == t.index && Burn(t, retiree, amount).receipts == t.receipts
  {
  }

  lemma OneFiled(t: Token, call: Call, burnt: Token)
    requires FiledBelow(t) && Apply(t, call).Ok? && |Stores(call)| == |Files(call)| == 1
    requires burnt.index == t.index && burnt.receipts == t.receipts && Next(t, call) == Record(burnt, Stores(call)[0])
    requires Attributed(Stores(call)[0]) == Files(call)[0]
    ensures forall a :: IndexOf(Next(t, call), a) == Filed(IndexOf(t, a), a, Files(call), |t.receipts|)
  {
    hide Record, Filed, FiledBelow, IndexOf, Apply, Attributed;
    SameIndex(t, burnt);
    RecordFiles(burnt, Stores(call)[0]);
    assert Files(call) == [Attributed(Stores(call)[0])];
  }

  lemma FiledWhenGood(t: Token, trail: Proofs.Trail)
    requires Proofs.Filed(t, trail)
    ensures FiledBelow(t)
  {
    forall a, p | p in IndexOf(t, a)
      ensures p < |t.receipts|
    {
      Proofs.PositionsAscend(t.receipts, trail.unfiled, a);
    }
  }

  lemma CallFiles(t: Token, call: Call)
    requires FiledBelow(t) && Apply(t, call).Ok?
    ensures forall a :: IndexOf(Next(t, call), a) == Filed(IndexOf(t, a), a, Files(call), |t.receipts|)
  {
    hide Record, FiledBelow, IndexOf, Filed, RecordAll, CheckRequests, CheckRetirements, Burn;
    match call
    case CallRetire(_, retiree, amount, _, _) =>
      BurntIndex(t, retiree, amount);
      OneFiled(t, call, Burn(t, retiree, amount));
    case CallRetireOnBehalf(_, retiree, _, amount, _) =>
      BurntIndex(t, retiree, amount);
      OneFiled(t, call, Burn(t, retiree, amount));
    case CallAppendReceipt(_, _, _, _, _, _) => OneFiled(t, call, t);
    case CallBatchRetireOnBehalf(host, retiree, requests) =>
      var total := CheckRequests(host, requests).value;
      BurntIndex(t, retiree, total);
      SameIndex(t, Burn(t, retiree, total));
      RecordAllFiles(Burn(t, retiree, total), host, retiree, requests);
    case CallBatchRetire(_, retiree, items) =>
      BurntIndex(t, retiree, CheckRetirements(items).value);
      NothingFiled(t, call);
    case _ => NothingFiled(t, call);
  }

  /** In every reachable state a successful call appends the positions of its receipts to the entries of exactly the
      addresses that they are filed under. */
  lemma SuccessFiles(calls: seq<Call>, call: Call)
    requires Apply(Run(EMPTY, calls), call).Ok?
    ensures var t := Run(EMPTY, calls);
            forall a :: IndexOf(Next(t, call), a) == Filed(IndexOf(t, a), a, Files(call), |t.receipts|)
  {
    hide *;
    var t := Run(EMPTY, calls);
    RunFiledBelow(calls);
    CallFiles(t, call);
  }

  lemma RunFiledBelow(calls: seq<Call>)
    ensures FiledBelow(Run(EMPTY, calls))
  {
    hide FiledBelow, Proofs.Filed, Proofs.Balanced, Proofs.Sized, Run;
    Proofs.RunGood(calls);
    FiledWhenGood(Run(EMPTY, calls), Proofs.TrailOf(calls));
  }
}
