/** The carbon token's entry points over its stored keys: receipts by position, and per beneficiary a counter and
    numbered entries. Each one is tied to the specification in `CarbonModel`. */
module CarbonContract {
  import opened Prelude
  import opened CarbonModel
  import Proofs = CarbonProofs
  import Decimal

  const MAX_PAGE_SIZE := 100

  ghost predicate Follows(before: Token, call: Call, error: Option<CarbonError>, after: Token) {
    match Apply(before, call)
    case Err(e) => error == Some(e) && after == before
    case Ok(expected) => error.None? && after == expected
  }

  /** The receipts of one retiree, in order. */
  function OfRetiree(receipts: seq<Receipt>, retiree: Address): seq<Receipt> {
    if receipts == [] then []
    else
      OfRetiree(receipts[..|receipts| - 1], retiree)
      + (if receipts[|receipts| - 1].retiree == retiree then [receipts[|receipts| - 1]] else [])
  }

  lemma {:induction false} OfRetireePrefix(receipts: seq<Receipt>, retiree: Address, k: nat)
    requires k <= |receipts|
    ensures OfRetiree(receipts[..k], retiree) <= OfRetiree(receipts, retiree)
    decreases |receipts|
  {
    if k < |receipts| {
      var init := receipts[..|receipts| - 1];
      OfRetireePrefix(init, retiree, k);
      assert receipts[..k] == init[..k];
    } else {
      assert receipts[..k] == receipts;
    }
  }

  /** A strictly increasing list below a bound is no longer than the bound. */
  lemma {:induction false} IncreasingIsShort(s: seq<nat>, bound: nat)
    requires Proofs.Increasing(s) && forall i :: 0 <= i < |s| ==> s[i] < bound
    ensures |s| <= bound
    decreases |s|
  {
    if s != [] {
      IncreasingIsShort(s[..|s| - 1], s[|s| - 1]);
    }
  }

  /** Serial numbers of consecutive positions. */
  ghost predicate Numbered(serials: seq<seq<byte>>, project: seq<byte>, from: nat) {
    forall i :: 0 <= i < |serials| ==> serials[i] == Decimal.Serial(project, from + i)
  }

  /** Receipts are stored by position below a counter. */
  predicate LogStored(receipts: map<nat, Receipt>, count: nat) {
    forall i :: 0 <= i < count ==> i in receipts
  }

  function Log(receipts: map<nat, Receipt>, count: nat): seq<Receipt>
    requires LogStored(receipts, count)
  {
    seq(count, i requires 0 <= i < count => receipts[i])
  }

  function CountOf(counts: map<Address, nat>, a: Address): nat {
    if a in counts then counts[a] else 0
  }

  /** Positions are stored by address and entry number below the address's counter. */
  predicate EntriesStored(counts: map<Address, nat>, filed: map<(Address, nat), nat>, a: Address) {
    forall i :: 0 <= i < CountOf(counts, a) ==> (a, i) in filed
  }

  function Entries(counts: map<Address, nat>, filed: map<(Address, nat), nat>, a: Address): seq<nat>
    requires EntriesStored(counts, filed, a)
  {
    seq(CountOf(counts, a), i requires 0 <= i < CountOf(counts, a) => filed[(a, i)])
  }

  ghost predicate IndexStored(counts: map<Address, nat>, filed: map<(Address, nat), nat>) {
    forall a :: EntriesStored(counts, filed, a)
  }

  ghost function Index(counts: map<Address, nat>, filed: map<(Address, nat), nat>): map<Address, seq<nat>>
    requires IndexStored(counts, filed)
  {
    map a | a in counts :: Entries(counts, filed, a)
  }

  /** Entries ascend and point below a bound. */
  ghost predicate Below(index: map<Address, seq<nat>>, bound: nat) {
    forall a :: a in index ==> Proofs.Increasing(index[a]) && forall i :: 0 <= i < |index[a]| ==> index[a][i] < bound
  }

  lemma FileEntry(counts: map<Address, nat>, filed: map<(Address, nat), nat>, a: Address, position: nat)
    requires IndexStored(counts, filed)
    ensures var n := CountOf(counts, a);
            var counts', filed' := counts[a := n + 1], filed[(a, n) := position];
            && IndexStored(counts', filed')
            && Index(counts', filed') == Index(counts, filed)[a := Entries(counts, filed, a) + [position]]
  {
    var n := CountOf(counts, a);
    var counts', filed' := counts[a := n + 1], filed[(a, n) := position];
    forall b
      ensures EntriesStored(counts', filed', b)
      ensures Entries(counts', filed', b) == Entries(counts, filed, b) + (if b == a then [position] else [])
    {
      assert EntriesStored(counts, filed, b);
    }
    var target := Index(counts, filed)[a := Entries(counts, filed, a) + [position]];
    forall b | b in counts'
      ensures Index(counts', filed')[b] == target[b]
    {
      assert Entries(counts', filed', b) == Entries(counts, filed, b) + (if b == a then [position] else []);
    }
  }

  lemma BelowNext(index: map<Address, seq<nat>>, a: Address, entries: seq<nat>, position: nat)
    requires Below(index, position) && entries == (if a in index then index[a] else [])
    ensures position !in entries && |entries| <= position
    ensures Below(index[a := entries + [position]], position + 1)
  {
    IncreasingIsShort(entries, position);
  }

  class CarbonToken {
    var balances: map<Address, int>
    var supply: int
    var retired: int
    var receipts: map<nat, Receipt>
    var count: nat
    var filedCount: map<Address, nat>
    var filed: map<(Address, nat), nat>

    ghost predicate Valid()
      reads this
    {
      && LogStored(receipts, count) && IndexStored(filedCount, filed)
      && Below(Index(filedCount, filed), count) && count <= U32_MAX
    }

    ghost function View(): Token
      requires LogStored(receipts, count) && IndexStored(filedCount, filed)
      reads this
    {
      Token(balances, supply, retired, Log(receipts, count), Index(filedCount, filed))
    }

    constructor ()
      ensures Valid() && View() == EMPTY
    {
      balances, supply, retired, receipts, count, filedCount, filed := map[], 0, 0, map[], 0, map[], map[];
    }

    // ---- Balances -------------------------------------------------------------------

    method Mint(host: Host, to: Address, amount: i128) returns (error: Option<CarbonError>)
      requires Valid()
      modifies `balances, `supply
      ensures Valid() && Follows(old(View()), CallMint(host, to, amount), error, View())
    {
      var d := host.decide(to, to, amount);
      if !d.Allow? {
        return Some(Denied(d, true, true));
      }
      var bal := Lookup(balances, to);
      if !InI128(bal + amount) || !InI128(supply + amount) {
        return Some(Trap);
      }
      balances := balances[to := bal + amount];
      supply := supply + amount;
      error := None;
    }

    method Transfer(host: Host, from: Address, to: Address, amount: i128) returns (error: Option<CarbonError>)
      requires Valid()
      modifies `balances
      ensures Valid() && Follows(old(View()), CallTransfer(host, from, to, amount), error, View())
    {
      var d := host.decide(from, to, amount);
      if !d.Allow? {
        return Some(Denied(d, true, true));
      }
      var fromBal := Lookup(balances, from);
      if fromBal < amount {
        return Some(InsufficientBalance);
      }
      if !InI128(fromBal - amount) {
        return Some(Trap);
      }
      var debited := balances[from := fromBal - amount];
      var toBal := Lookup(debited, to);
      if !InI128(toBal + amount) {
        return Some(Trap);
      }
      balances := debited[to := toBal + amount];
      error := None;
    }

    // ---- Receipts -----------------------------------------------------------------------

    /** Files a position under an address, after scanning the address's entries for it. */
    method FileReceipt(a: Address, position: nat)
      requires LogStored(receipts, count) && IndexStored(filedCount, filed)
      requires Below(Index(filedCount, filed), position)
      modifies `filedCount, `filed
      ensures IndexStored(filedCount, filed) && Below(Index(filedCount, filed), position + 1)
      ensures View() == FileUnder(old(View()), a, position)
    {
      hide Below, Log;
      var n := CountOf(filedCount, a);
      ghost var entries := Entries(filedCount, filed, a);
      assert entries == IndexOf(View(), a);
      BelowNext(Index(filedCount, filed), a, entries, position);
      for i := 0 to n
        invariant forall j :: 0 <= j < i ==> filed[(a, j)] != position
      {
        assert entries[i] == filed[(a, i)];
        if filed[(a, i)] == position {
          assert false;
          return;
        }
      }
      FileEntry(filedCount, filed, a, position);
      filed := filed[(a, n) := position];
      filedCount := filedCount[a := n + 1];
    }
  
    /** Stores a receipt at the next position, moves the counter and files the position. */
    method RecordReceipt(r: Receipt)
      requires Valid() && count < U32_MAX
      modifies `receipts, `count, `filedCount, `filed
      ensures Valid() && View() == Record(old(View()), r) && count == old(count) + 1
    {
      hide Below, IndexStored, FileUnder;
      var position := count;
      LogNext(receipts, count, r);
      receipts := receipts[position := r];
      count := position + 1;
      FileReceipt(Attributed(r), position);
    }

    /** The balance, supply and retirement writes. */
    method BurnCredits(retiree: Address, amount: int) returns (error: Option<CarbonError>)
      requires Valid()
      modifies `balances, `supply, `retired
      ensures Valid()
      ensures match CheckedBurn(old(View()), retiree, amount)
              case Err(e) => error == Some(e) && View() == old(View())
              case Ok(burnt) => error.None? && View() == burnt
    {
      var bal := Lookup(balances, retiree);
      if bal < amount {
        return Some(InsufficientBalance);
      }
      if !InI128(bal - amount) || !InI128(supply - amount) || !InI128(retired + amount) {
        return Some(Trap);
      }
      balances := balances[retiree := bal - amount];
      supply := supply - amount;
      retired := retired + amount;
      error := None;
    }

    /** A full receipt counter traps, and the host rolls the burn back. */
    method BurnAndRecord(r: Receipt) returns (error: Option<CarbonError>)
      requires Valid()
      modifies this
      ensures Valid()
      ensures match RetireOne(old(View()), r)
              case Err(e) => error == Some(e) && View() == old(View())
              case Ok(after) => error.None? && View() == after
    {
      hide Record, Below, IndexStored;
      var balances0, supply0, retired0 := balances, supply, retired;
      error := BurnCredits(r.retiree, r.amount);
      if error.Some? {
        return;
      }
      if count == U32_MAX {
        balances, supply, retired := balances0, supply0, retired0;
        return Some(Trap);
      }
      RecordReceipt(r);
    }

    // ---- Single retirements -----------------------------------------------------------------

    method Retire(host: Host, retiree: Address, amount: i128, beneficiary: seq<byte>, reason: seq<byte>)
      returns (error: Option<CarbonError>)
      requires Valid()
      modifies this
      ensures Valid() && Follows(old(View()), CallRetire(host, retiree, amount, beneficiary, reason), error, View())
    {
      hide RetireOne, Below, IndexStored;
      if amount <= 0 {
        return Some(InvalidAmount);
      }
      if |beneficiary| > MAX_FIELD_BYTES || |reason| > MAX_FIELD_BYTES {
        return Some(FieldTooLong);
      }
      var d := host.decide(retiree, retiree, amount);
      if !d.Allow? {
        return Some(Denied(d, false, false));
      }
      error := BurnAndRecord(Receipt(retiree, amount, host.now, beneficiary, reason, None));
    }

    method RetireOnBehalf(host: Host, retiree: Address, onBehalfOf: Address, amount: i128, reason: seq<byte>)
      returns (error: Option<CarbonError>)
      requires Valid()
      modifies this
      ensures Valid()
              && Follows(old(View()), CallRetireOnBehalf(host, retiree, onBehalfOf, amount, reason), error, View())
    {
      hide RetireOne, Below, IndexStored;
      if |reason| > MAX_FIELD_BYTES {
        return Some(FieldTooLong);
      }
      var d := host.decide(retiree, retiree, amount);
      if !d.Allow? {
        return Some(Denied(d, false, false));
      }
      if !host.kycApproved(onBehalfOf) {
        return Some(KycNotApproved);
      }
      error := BurnAndRecord(Receipt(retiree, amount, host.now, [], reason, Some(onBehalfOf)));
    }

    method AppendReceipt(host: Host, retiree: Address, amount: i128, beneficiary: seq<byte>, reason: seq<byte>,
                         beneficiaryAddress: Option<Address>)
      returns (error: Option<CarbonError>)
      requires Valid()
      modifies this
      ensures Valid()
      ensures var call := CallAppendReceipt(host, retiree, amount, beneficiary, reason, beneficiaryAddress);
              Follows(old(View()), call, error, View())
    {
      hide Record, Below, IndexStored;
      if amount <= 0 {
        return Some(InvalidAmount);
      }
      if |beneficiary| > MAX_FIELD_BYTES || |reason| > MAX_FIELD_BYTES {
        return Some(FieldTooLong);
      }
      if beneficiaryAddress.Some? {
        if !host.kycApproved(beneficiaryAddress.value) {
          return Some(InvalidBeneficiaryAddress);
        }
      }
      if count == U32_MAX {
        return Some(Trap);
      }
      RecordReceipt(Receipt(retiree, amount, host.now, beneficiary, reason, beneficiaryAddress));
      error := None;
    }

    // ---- Batches ---------------------------------------------------------------------------------

    method BatchRetire(host: Host, retiree: Address, items: seq<Retirement>) returns (error: Option<CarbonError>)
      requires Valid()
      modifies this
      ensures Valid() && Follows(old(View()), CallBatchRetire(host, retiree, items), error, View())
    {
      hide CheckRetirements, PlainReceipts, CheckedBurn, Below, IndexStored, LogStored, Log;
      if |items| > BATCH_CAP {
        return Some(BatchTooLarge);
      }
      var d := host.decide(retiree, retiree, 1);
      if !d.Allow? {
        return Some(Denied(d, false, false));
      }
      var total;
      error, total := SumRetirements(items);
      if error.Some? {
        return;
      }
      var balances0, supply0, retired0 := balances, supply, retired;
      error := BurnCredits(retiree, total);
      if error.Some? {
        return;
      }
      error := StoreAll(host, retiree, items);
      if error.Some? {
        balances, supply, retired := balances0, supply0, retired0;
      }
    }

    method SumRetirements(items: seq<Retirement>) returns (error: Option<CarbonError>, total: int)
      ensures CheckRetirements(items) == if error.Some? then Err(error.value) else Ok(total)
    {
      total := 0;
      for i := 0 to |items|
        invariant CheckRetirements(items[..i]) == Ok(total)
      {
        var amount := items[i].amount;
        assert items[..i + 1][..i] == items[..i];
        if CheckRetirements(items[..i + 1]).Err? {
          FirstBadItem(items, i + 1);
        }
        if amount <= 0 {
          return Some(InvalidAmount), 0;
        }
        if !InI128(total + amount) {
          return Some(Trap), 0;
        }
        total := total + amount;
      }
      assert items[..|items|] == items;
      error := None;
    }

    /** The recording loop: it files nothing. */
    method StoreAll(host: Host, retiree: Address, items: seq<Retirement>) returns (error: Option<CarbonError>)
      requires Valid()
      modifies `receipts, `count
      ensures Valid()
      ensures error == if |old(View()).receipts| + |items| > U32_MAX then Some(Trap) else None
      ensures View() == if error.Some? then old(View())
                        else old(View()).(receipts := old(View()).receipts + PlainReceipts(host, retiree, items))
    {
      hide IndexStored, Index;
      var stored, index := receipts, count;
      ghost var log := Log(receipts, count);
      for i := 0 to |items|
        invariant receipts == old(receipts) && count == old(count) && index == count + i <= U32_MAX
        invariant LogStored(stored, index) && Log(stored, index) == log + PlainReceipts(host, retiree, items[..i])
      {
        if index == U32_MAX {
          return Some(Trap);
        }
        var r := Receipt(retiree, items[i].amount, host.now, items[i].beneficiary, items[i].reason, None);
        LogNext(stored, index, r);
        assert PlainReceipts(host, retiree, items[..i + 1]) == PlainReceipts(host, retiree, items[..i]) + [r];
        stored := stored[index := r];
        index := index + 1;
      }
      assert items[..|items|] == items;
      BelowWeaker(Index(filedCount, filed), count, index);
      receipts := stored;
      count := index;
      error := None;
    }

    method SumRequests(host: Host, requests: seq<Request>) returns (error: Option<CarbonError>, total: int)
      ensures CheckRequests(host, requests) == if error.Some? then Err(error.value) else Ok(total)
    {
      total := 0;
      for i := 0 to |requests|
        invariant CheckRequests(host, requests[..i]) == Ok(total)
      {
        var r := requests[i];
        assert requests[..i + 1][..i] == requests[..i];
        if CheckRequests(host, requests[..i + 1]).Err? {
          FirstBadRequest(host, requests, i + 1);
        }
        if r.amount <= 0 {
          return Some(InvalidAmount), 0;
        }
        if r.memo == [] {
          return Some(Trap), 0;
        }
        if !host.kycApproved(r.beneficiary) {
          return Some(KycNotApproved), 0;
        }
        if !InI128(total + r.amount) {
          return Some(Trap), 0;
        }
        total := total + r.amount;
      }
      assert requests[..|requests|] == requests;
      error := None;
    }

    method RecordNext(host: Host, retiree: Address, r: Request) returns (trap: bool, serial: seq<byte>)
      requires Valid()
      modifies `receipts, `count, `filedCount, `filed
      ensures Valid() && (trap ==> RecordRequest(old(View()), host, retiree, r) == Err(Trap))
      ensures !trap ==> RecordRequest(old(View()), host, retiree, r) == Ok(View()) && count == old(count) + 1
      ensures !trap ==> serial == Decimal.Serial(host.project, old(count))
    {
      hide Record, Below, IndexStored, Decimal.Serial;
      var printed := Decimal.PrintSerial(host.project, count);
      if printed.None? || count == U32_MAX {
        return true, [];
      }
      RecordReceipt(RequestReceipt(host, retiree, r));
      return false, printed.value;
    }

    /** The recording loop: every receipt is stored, filed and given its serial number. */
    method RecordAllRequests(host: Host, retiree: Address, requests: seq<Request>)
      returns (error: Option<CarbonError>, serials: seq<seq<byte>>)
      requires Valid()
      modifies this
      ensures Valid()
      ensures match RecordAll(old(View()), host, retiree, requests)
              case Err(e) => error == Some(e) && View() == old(View())
              case Ok(after) => error.None? && View() == after
      ensures error.None? ==> |serials| == |requests| && Numbered(serials, host.project, old(count))
    {
      hide RecordRequest, Below, IndexStored, LogStored, Log, Index, Decimal.Serial;
      var receipts0, count0, filedCount0, filed0 := receipts, count, filedCount, filed;
      serials := [];
      for i := 0 to |requests|
        invariant Valid() && count == old(count) + i
        invariant balances == old(balances) && supply == old(supply) && retired == old(retired)
        invariant RecordAll(old(View()), host, retiree, requests[..i]) == Ok(View())
        invariant |serials| == i && Numbered(serials, host.project, old(count))
      {
        assert requests[..i + 1][..i] == requests[..i];
        if RecordAll(old(View()), host, retiree, requests[..i + 1]).Err? {
          FirstTrap(old(View()), host, retiree, requests, i + 1);
        }
        var trap, serial := RecordNext(host, retiree, requests[i]);
        if trap {
          receipts, count, filedCount, filed := receipts0, count0, filedCount0, filed0;
          return Some(Trap), [];
        }
        serials := serials + [serial];
      }
      assert requests[..|requests|] == requests;
      error := None;
    }

    method BatchRetireOnBehalf(host: Host, retiree: Address, requests: seq<Request>)
      returns (error: Option<CarbonError>, serials: seq<seq<byte>>)
      requires Valid()
      modifies this
      ensures Valid() && Follows(old(View()), CallBatchRetireOnBehalf(host, retiree, requests), error, View())
      ensures error.None? ==> |serials| == |requests| && Numbered(serials, host.project, old(count))
    {
      hide CheckRequests, RecordAll, CheckedBurn, Below, IndexStored, LogStored, Log, Index;
      serials := [];
      if |requests| == 0 || |requests| > BATCH_CAP {
        return Some(BatchTooLarge), [];
      }
      var d := host.decide(retiree, retiree, 1);
      if !d.Allow? {
        return Some(Denied(d, false, true)), [];
      }
      var total;
      error, total := SumRequests(host, requests);
      if error.Some? {
        return;
      }
      var balances0, supply0, retired0 := balances, supply, retired;
      error := BurnCredits(retiree, total);
      if error.Some? {
        return;
      }
      error, serials := RecordAllRequests(host, retiree, requests);
      if error.Some? {
        balances, supply, retired := balances0, supply0, retired0;
      }
    }

    // ---- Pages ---------------------------------------------------------------------------------------

    /** A page of the log, at most 100 receipts; `None` when the end of the page overflows. */
    method GetReceipts(start: nat, limit: nat) returns (page: Option<seq<Receipt>>)
      requires Valid()
      ensures page == if start + Min(limit, 100) > U32_MAX then None
                      else Some(Slice(View().receipts, start, start + Min(limit, 100)))
    {
      hide Index, IndexStored, Below;
      var capped := Min(limit, MAX_PAGE_SIZE);
      if start + capped > U32_MAX {
        return None;
      }
      var end := Min(start + capped, count);
      var out: seq<Receipt> := [];
      var i := start;
      ghost var log := Log(receipts, count);
      while i < end
        invariant i == start || start < i <= end
        invariant out == Slice(log, start, i)
      {
        assert receipts[i] == log[i];
        assert Slice(log, start, i + 1) == Slice(log, start, i) + [log[i]];
        out := out + [receipts[i]];
        i := i + 1;
      }
      assert Slice(log, start, i) == Slice(log, start, start + capped);
      page := Some(out);
    }

    /** A page of the receipts filed under an address: a slice of its index. */
    method GetReceiptsByBeneficiary(a: Address, start: nat, limit: nat) returns (page: Option<seq<Receipt>>)
      requires Valid()
      ensures page == if start + Min(limit, 100) > U32_MAX then None
                      else Some(At(View().receipts, Slice(IndexOf(View(), a), start, start + Min(limit, 100))))
    {
      hide Below;
      var capped := Min(limit, MAX_PAGE_SIZE);
      if start + capped > U32_MAX {
        return None;
      }
      var end := Min(start + capped, CountOf(filedCount, a));
      var out: seq<Receipt> := [];
      var i := start;
      ghost var log, entries := Log(receipts, count), Entries(filedCount, filed, a);
      assert entries == IndexOf(View(), a);
      EntriesBelow(Index(filedCount, filed), count, a, entries);
      while i < end
        invariant i == start || start < i <= end
        invariant out == At(log, Slice(entries, start, i))
      {
        assert entries[i] == filed[(a, i)];
        var position := filed[(a, i)];
        assert receipts[position] == log[position];
        assert Slice(entries, start, i + 1) == Slice(entries, start, i) + [entries[i]];
        out := out + [receipts[position]];
        i := i + 1;
      }
      assert Slice(entries, start, i) == Slice(entries, start, start + capped);
      page := Some(out);
    }

    /** The first receipts of a retiree from a position on: a scan of the log that stops when the page is full. */
    method GetReceiptsByRetiree(retiree: Address, start: nat, limit: nat) returns (page: seq<Receipt>)
      requires Valid()
      ensures var all := OfRetiree(Slice(View().receipts, start, count), retiree);
              page == all[..Min(|all|, Min(limit, 100))]
    {
      hide Index, IndexStored, Below, OfRetiree, Slice;
      var capped := Min(limit, MAX_PAGE_SIZE);
      page := [];
      ghost var log := Log(receipts, count);
      var i := start;
      NothingScanned(log, start, retiree);
      while i < count && |page| < capped
        invariant i == start || start < i <= count
        invariant |page| <= capped && page == OfRetiree(Slice(log, start, i), retiree)
      {
        assert receipts[i] == log[i];
        ScanNext(log, start, i, retiree);
        if receipts[i].retiree == retiree {
          page := page + [receipts[i]];
        }
        i := i + 1;
      }
      ScanStops(log, start, i, retiree);
    }

    /** Whether a receipt exists with a positive amount and a time, and its serial number. */
    method VerifyReceipt(host: Host, position: nat) returns (valid: bool, serial: Option<seq<byte>>)
      requires Valid()
      ensures position >= count ==> !valid && serial == Some([])
      ensures position < count ==>
                && (valid <==> View().receipts[position].amount > 0 && View().receipts[position].timestamp > 0)
                && serial == if |Decimal.Serial(host.project, position)| <= 139
                             then Some(Decimal.Serial(host.project, position)) else None
    {
      hide Index, IndexStored, Below, Decimal.Serial;
      if position >= count {
        return false, Some([]);
      }
      var r := receipts[position];
      assert r == View().receipts[position];
      valid := r.amount > 0 && r.timestamp > 0;
      serial := Decimal.PrintSerial(host.project, position);
    }
  }

  /** The part of a list between two positions, empty where the list or the interval is. */
  function Slice<T>(s: seq<T>, start: nat, end: nat): seq<T> {
    if start < Min(end, |s|) then s[start..Min(end, |s|)] else []
  }

  /** A slice has the elements between its bounds, as far as there are any. */
  lemma SliceElements<T>(s: seq<T>, start: nat, end: nat)
    ensures |Slice(s, start, end)| == if start < end && start < |s| then (if end < |s| then end else |s|) - start else 0
    ensures forall k :: 0 <= k < |Slice(s, start, end)| ==> Slice(s, start, end)[k] == s[start + k]
  {
  }

  lemma {:induction false} OfRetireeConcat(receipts: seq<Receipt>, more: seq<Receipt>, retiree: Address)
    ensures OfRetiree(receipts + more, retiree) == OfRetiree(receipts, retiree) + OfRetiree(more, retiree)
    decreases |more|
  {
    if more == [] {
      assert receipts + more == receipts;
    } else {
      var init := more[..|more| - 1];
      OfRetireeConcat(receipts, init, retiree);
      assert (receipts + more)[..|receipts + more| - 1] == receipts + init;
    }
  }

  /** Exactly the receipts with this retiree are listed, each as often as it was stored, and those of a later part of
      the log after those of an earlier one. */
  lemma {:induction false} OfRetireeExactly(receipts: seq<Receipt>, more: seq<Receipt>, retiree: Address, r: Receipt)
    ensures multiset(OfRetiree(receipts, retiree))[r] == if r.retiree == retiree then multiset(receipts)[r] else 0
    ensures OfRetiree(receipts + more, retiree) == OfRetiree(receipts, retiree) + OfRetiree(more, retiree)
    decreases |receipts|
  {
    OfRetireeConcat(receipts, more, retiree);
    if receipts != [] {
      var init, last := receipts[..|receipts| - 1], receipts[|receipts| - 1];
      OfRetireeExactly(init, [], retiree, r);
      assert receipts == init + [last];
    }
  }

  lemma NothingScanned(log: seq<Receipt>, start: nat, retiree: Address)
    ensures OfRetiree(Slice(log, start, start), retiree) == []
  {
  }

  lemma ScanNext(log: seq<Receipt>, start: nat, i: nat, retiree: Address)
    requires start <= i < |log|
    ensures OfRetiree(Slice(log, start, i + 1), retiree)
            == OfRetiree(Slice(log, start, i), retiree) + (if log[i].retiree == retiree then [log[i]] else [])
  {
    assert Slice(log, start, i + 1) == Slice(log, start, i) + [log[i]];
    assert Slice(log, start, i + 1)[..i - start] == Slice(log, start, i);
  }

  /** What has been scanned is a prefix of everything, and all of it when the scan reached the end. */
  lemma ScanStops(log: seq<Receipt>, start: nat, i: nat, retiree: Address)
    requires i == start || start < i <= |log|
    ensures OfRetiree(Slice(log, start, i), retiree) <= OfRetiree(Slice(log, start, |log|), retiree)
    ensures i >= |log| ==> OfRetiree(Slice(log, start, i), retiree) == OfRetiree(Slice(log, start, |log|), retiree)
  {
    hide OfRetiree;
    var all := Slice(log, start, |log|);
    if i < |log| {
      assert Slice(log, start, i) == all[..i - start];
      OfRetireePrefix(all, retiree, i - start);
    } else {
      assert Slice(log, start, i) == all;
    }
  }

  function At(log: seq<Receipt>, positions: seq<nat>): seq<Receipt>
    requires forall i :: 0 <= i < |positions| ==> positions[i] < |log|
  {
    seq(|positions|, i requires 0 <= i < |positions| => log[positions[i]])
  }

  lemma EntriesBelow(index: map<Address, seq<nat>>, bound: nat, a: Address, entries: seq<nat>)
    requires Below(index, bound) && entries == (if a in index then index[a] else [])
    ensures forall i :: 0 <= i < |entries| ==> entries[i] < bound
  {
  }

  lemma {:induction false} FirstBadItem(items: seq<Retirement>, k: nat)
    requires k <= |items| && CheckRetirements(items[..k]).Err?
    ensures CheckRetirements(items) == CheckRetirements(items[..k])
    decreases |items|
  {
    if k < |items| {
      var init := items[..|items| - 1];
      assert init[..k] == items[..k];
      FirstBadItem(init, k);
    } else {
      assert items[..k] == items;
    }
  }

  lemma {:induction false} FirstBadRequest(host: Host, requests: seq<Request>, k: nat)
    requires k <= |requests| && CheckRequests(host, requests[..k]).Err?
    ensures CheckRequests(host, requests) == CheckRequests(host, requests[..k])
    decreases |requests|
  {
    if k < |requests| {
      var init := requests[..|requests| - 1];
      assert init[..k] == requests[..k];
      FirstBadRequest(host, init, k);
    } else {
      assert requests[..k] == requests;
    }
  }

  lemma {:induction false} FirstTrap(t: Token, host: Host, retiree: Address, requests: seq<Request>, k: nat)
    requires k <= |requests| && RecordAll(t, host, retiree, requests[..k]).Err?
    ensures RecordAll(t, host, retiree, requests) == RecordAll(t, host, retiree, requests[..k])
    decreases |requests|
  {
    hide RecordRequest;
    if k < |requests| {
      var init := requests[..|requests| - 1];
      assert init[..k] == requests[..k];
      FirstTrap(t, host, retiree, init, k);
    } else {
      assert requests[..k] == requests;
    }
  }

  lemma BelowWeaker(index: map<Address, seq<nat>>, bound: nat, more: nat)
    requires Below(index, bound) && bound <= more
    ensures Below(index, more)
  {
  }

  lemma LogNext(receipts: map<nat, Receipt>, count: nat, r: Receipt)
    requires LogStored(receipts, count)
    ensures LogStored(receipts[count := r], count + 1)
            && Log(receipts[count := r], count + 1) == Log(receipts, count) + [r]
  {
  }
}
