/** The invoice token's entry points as they run: single keys are read and overwritten in the order of the program, some
    of them before later checks, and a call that fails is rolled back by its host. */
module InvoiceContract {
  import opened Prelude
  import opened InvoiceModel
  import opened InvoiceStorage
  import Proofs = InvoiceProofs
  import Settlement = InvoiceSettlement

  /** A call either fails and leaves the contract as it was, or ends in the state that the specification gives. */
  ghost predicate Follows(before: Contract, call: Call, error: Option<InvoiceError>, after: Contract) {
    match ApplyCall(before, call)
    case Err(e) => error == Some(e) && after == before
    case Ok(expected) => error.None? && after == expected
  }

  /** An entry point reports the failure that the specification gives, whatever it wrote before, or has written the
      specified record. */
  ghost predicate Ends(s: Storage, s': Storage, id: string, outcome: Outcome, error: Option<InvoiceError>) {
    match outcome
    case Err(e) => error == Some(e)
    case Ok(inv) => error.None? && Wrote(s, s', id, inv)
  }

  datatype BatchResult = BatchResult(id: string, error: Option<InvoiceError>)

  /** Each item's result is what the batch helper reports in the state that the items before it left, and is empty
      exactly when a single partial settlement would succeed there. */
  ghost predicate Reported(c: Contract, host: Host, items: seq<(string, int)>, results: seq<BatchResult>) {
    && |results| <= |items|
    && forall i :: 0 <= i < |results| ==>
         && results[i].id == items[i].0
         && results[i].error
            == TryPartialSettle(Get(BatchState(c, host, items[..i]), items[i].0), host, c.paused, items[i].1).0
         && (results[i].error.None? <==>
               ApplyCall(BatchState(c, host, items[..i]), Single(items[i].0, OpPartialSettle(host, items[i].1))).Ok?)
  }

  lemma NoReports(c: Contract, host: Host, items: seq<(string, int)>)
    ensures Reported(c, host, items, [])
  {
  }

  lemma ReportNext(c: Contract, host: Host, items: seq<(string, int)>, results: seq<BatchResult>,
                   error: Option<InvoiceError>)
    requires Reported(c, host, items, results) && |results| < |items|
    requires var (id, amount) := items[|results|];
             error == TryPartialSettle(Get(BatchState(c, host, items[..|results|]), id), host, c.paused, amount).0
    ensures Reported(c, host, items, results + [BatchResult(items[|results|].0, error)])
  {
    hide BatchState, PartiallySettle;
    var (id, amount) := items[|results|];
    var before := BatchState(c, host, items[..|results|]);
    Settlement.BatchIsRunOfSingles(c, host, items[..|results|]);
    Settlement.TryRefinesSingle(Get(before, id), host, c.paused, amount);
    Settlement.ApplyPartial(Get(before, id), id, c.paused, c.feeExempt, host, amount);
  }

  lemma SameList(s: Storage, s': Storage, id: string, inv: Invoice)
    requires Wrote(s, s', id, inv)
    ensures s'.list == s.list && Wrote(s, s'.(list := s.list), id, inv)
  {
    hide RecordAt;
    assert s'.(list := s.list) == s';
  }

  lemma Committed(s: Storage, s': Storage, c: Contract, id: string, op: Op, inv: Invoice)
    requires var key := Target(id, op);
             && Represents(s, c) && Apply(RecordAt(s, key), key, s.paused, s.feeExempt, op) == Ok(inv)
             && s'.list == (if op.OpCreate? then s.list + [key] else s.list)
             && Wrote(s, s'.(list := s.list), key, inv)
    ensures Represents(s', Next(c, Single(id, op)))
  {
    hide Apply, RecordAt;
    var key := Target(id, op);
    RepresentsWrote(s, s'.(list := s.list), c, key, inv);
    ListIrrelevant(s', s.list);
  }

  lemma ListIrrelevant(s: Storage, list: seq<string>)
    ensures forall id :: RecordAt(s.(list := list), id) == RecordAt(s, id)
  {
  }

  lemma FlagsIrrelevant(s: Storage, paused: bool, feeExempt: bool)
    ensures forall id :: RecordAt(s.(paused := paused, feeExempt := feeExempt), id) == RecordAt(s, id)
    ensures s.(paused := s.paused, feeExempt := feeExempt) == s.(feeExempt := feeExempt)
    ensures s.(paused := paused, feeExempt := s.feeExempt) == s.(paused := paused)
  {
  }

  class InvoiceToken {
    var storage: Storage

    /** The contract state that the storage stands for. */
    ghost var contents: Contract

    ghost predicate Valid()
      reads this
    {
      Represents(storage, contents)
    }

    constructor ()
      ensures Valid() && contents == EMPTY
    {
      storage, contents := NOTHING, EMPTY;
      NothingRepresentsEmpty();
    }

    // ---- The host ------------------------------------------------------------------------

    /** One call: the entry point runs on the storage, and the host rolls back everything it wrote when it fails. */
    method Invoke(id: string, op: Op) returns (error: Option<InvoiceError>)
      requires Valid()
      modifies this
      ensures Valid() && Follows(old(contents), Single(id, op), error, contents)
    {
      hide RecordAt, Apply, Wrote;
      var saved := storage;
      error := Dispatch(id, op);
      if error.Some? {
        storage := saved;
      } else {
        Committed(saved, storage, contents, id, op,
                  Apply(RecordAt(saved, Target(id, op)), Target(id, op), saved.paused, saved.feeExempt, op).value);
      }
      contents := Next(contents, Single(id, op));
    }

    method Dispatch(id: string, op: Op) returns (error: Option<InvoiceError>)
      modifies `storage
      ensures var key := Target(id, op); var s := old(storage);
              match Apply(RecordAt(s, key), key, s.paused, s.feeExempt, op)
              case Err(e) => error == Some(e)
              case Ok(inv) =>
                error.None? && storage.list == (if op.OpCreate? then s.list + [key] else s.list)
                && Wrote(s, storage.(list := s.list), key, inv)
    {
      hide RecordAt, InvoiceModel.Create, InvoiceModel.UpdateMeta, InvoiceModel.AppendJournal, InvoiceModel.Issue;
      hide InvoiceModel.Settle, InvoiceModel.PartialSettle, InvoiceModel.Redeem, InvoiceModel.Burn;
      hide InvoiceModel.BurnFrom;
      hide InvoiceModel.Transfer, InvoiceModel.TransferFrom, InvoiceModel.Approve;
      match op {
        case OpCreate(meta) => error := Create(meta);
        case OpUpdateMeta(meta) => error := UpdateMeta(id, meta);
        case OpAppendJournal(host, tag) => error := AppendJournal(id, host, tag);
        case OpIssue(host, to, amount) => error := Issue(id, host, to, amount);
        case OpSettle(host) => error := Settle(id, host);
        case OpPartialSettle(host, amount) => error := PartialSettle(id, host, amount);
        case OpRedeem(host, from, amount) => error := Redeem(id, host, from, amount);
        case OpBurn(host, from, amount) => error := Burn(id, host, from, amount);
        case OpBurnFrom(host, spender, from, amount) => error := BurnFrom(id, host, spender, from, amount);
        case OpTransfer(host, from, to, amount) => error := Transfer(id, host, from, to, amount);
        case OpTransferFrom(host, spender, from, to, amount) =>
          error := TransferFrom(id, host, spender, from, to, amount);
        case OpApprove(from, spender, amount, expiration) => error := Approve(id, from, spender, amount, expiration);
      }
      if error.None? && !op.OpCreate? {
        ghost var s := old(storage);
        SameList(s, storage, id, Apply(RecordAt(s, id), id, s.paused, s.feeExempt, op).value);
      }
    }

    method SetPaused(value: bool)
      requires Valid()
      modifies this
      ensures Valid() && contents == Next(old(contents), Call.SetPaused(value))
    {
      hide RecordAt;
      FlagsIrrelevant(storage, value, storage.feeExempt);
      storage := storage.(paused := value);
      contents := contents.(paused := value);
    }

    method SetFeeExempt(value: bool)
      requires Valid()
      modifies this
      ensures Valid() && contents == Next(old(contents), Call.SetFeeExempt(value))
    {
      hide RecordAt;
      FlagsIrrelevant(storage, storage.paused, value);
      storage := storage.(feeExempt := value);
      contents := contents.(feeExempt := value);
    }

    // ---- Keys ------------------------------------------------------------------------------

    function ReadStatus(id: string): (v: Status)
      reads this
      ensures v == RecordAt(storage, id).status
    {
      if id in storage.statuses then storage.statuses[id] else Created
    }

    function ReadBalance(a: Address, id: string): (v: int)
      reads this
      ensures v == Lookup(RecordAt(storage, id).balances, a)
    {
      if (a, id) in storage.balances then storage.balances[(a, id)] else 0
    }

    function ReadEntitlement(a: Address, id: string): (v: Option<int>)
      reads this
      ensures v == if a in RecordAt(storage, id).entitlements then Some(RecordAt(storage, id).entitlements[a]) else None
    {
      if (a, id) in storage.entitlements then Some(storage.entitlements[(a, id)]) else None
    }

    function ReadSupply(id: string): (v: int)
      reads this
      ensures v == RecordAt(storage, id).supply
    {
      if id in storage.supplies then storage.supplies[id] else 0
    }

    function ReadSettlement(id: string): (v: int)
      reads this
      ensures v == RecordAt(storage, id).settlement
    {
      if id in storage.settlements then storage.settlements[id] else 0
    }

    function ReadStoredAllowance(from: Address, spender: Address, id: string): (v: Allowance)
      reads this
      ensures v == ReadAllowance(RecordAt(storage, id), from, spender)
    {
      if ((from, spender), id) in storage.allowances then storage.allowances[((from, spender), id)] else Allowance(0, 0)
    }

    method WriteBalance(a: Address, id: string, v: int)
      modifies `storage
      ensures var inv := RecordAt(old(storage), id);
              Wrote(old(storage), storage, id, inv.(balances := inv.balances[a := v]))
    {
      BalanceWritten(storage, a, id, v);
      storage := storage.(balances := storage.balances[(a, id) := v]);
    }

    method WriteSupply(id: string, v: int)
      modifies `storage
      ensures Wrote(old(storage), storage, id, RecordAt(old(storage), id).(supply := v))
    {
      SupplyWritten(storage, id, v);
      storage := storage.(supplies := storage.supplies[id := v]);
    }

    method WriteSettlement(id: string, v: int)
      modifies `storage
      ensures Wrote(old(storage), storage, id, RecordAt(old(storage), id).(settlement := v))
    {
      SettlementWritten(storage, id, v);
      storage := storage.(settlements := storage.settlements[id := v]);
    }

    method WriteDust(id: string, v: int)
      modifies `storage
      ensures Wrote(old(storage), storage, id, RecordAt(old(storage), id).(dust := Some(v)))
    {
      DustWritten(storage, id, v);
      storage := storage.(dust := storage.dust[id := v]);
    }

    method WriteMeta(id: string, v: Meta)
      modifies `storage
      ensures Wrote(old(storage), storage, id, RecordAt(old(storage), id).(meta := Some(v)))
    {
      MetaWritten(storage, id, v);
      storage := storage.(metas := storage.metas[id := v]);
    }

    method WriteStatus(id: string, v: Status)
      modifies `storage
      ensures Wrote(old(storage), storage, id, RecordAt(old(storage), id).(status := v))
    {
      StatusWritten(storage, id, v);
      storage := storage.(statuses := storage.statuses[id := v]);
    }

    method WriteJournal(id: string, v: seq<JournalEntry>)
      modifies `storage
      ensures Wrote(old(storage), storage, id, RecordAt(old(storage), id).(journal := v))
    {
      JournalWritten(storage, id, v);
      storage := storage.(journals := storage.journals[id := v]);
    }

    method WriteAllowance(from: Address, spender: Address, id: string, v: Allowance)
      modifies `storage
      ensures var inv := RecordAt(old(storage), id);
              Wrote(old(storage), storage, id, inv.(allowances := inv.allowances[(from, spender) := v]))
    {
      AllowanceWritten(storage, (from, spender), id, v);
      storage := storage.(allowances := storage.allowances[((from, spender), id) := v]);
    }

    /** Stores an entitlement, or removes it. */
    method WriteEntitlement(a: Address, id: string, v: Option<int>)
      modifies `storage
      ensures var inv := RecordAt(old(storage), id);
              Wrote(old(storage), storage, id,
                    inv.(entitlements := if v.Some? then inv.entitlements[a := v.value] else inv.entitlements - {a}))
    {
      if v.Some? {
        EntitlementWritten(storage, a, id, v.value);
        storage := storage.(entitlements := storage.entitlements[(a, id) := v.value]);
      } else {
        EntitlementRemoved(storage, a, id);
        storage := storage.(entitlements := storage.entitlements - {(a, id)});
      }
    }

    /** Records a journal entry and writes the new status. */
    method TransitionStatus(id: string, host: Host, from: Status, to: Status)
      requires from == RecordAt(storage, id).status
      modifies `storage
      ensures Wrote(old(storage), storage, id, Transition(RecordAt(old(storage), id), host, to))
    {
      hide RecordAt;
      var entry := JournalEntry(Tag(to), from, to, host.ledger, host.now);
      var journal := ReadJournal(id);
      WriteJournal(id, journal + [entry]);
      WriteStatus(id, to);
    }

    function ReadJournal(id: string): (v: seq<JournalEntry>)
      reads this
      ensures v == RecordAt(storage, id).journal
    {
      if id in storage.journals then storage.journals[id] else []
    }

    function ReadMeta(id: string): (v: Option<Meta>)
      reads this
      ensures v == RecordAt(storage, id).meta
    {
      Find(storage.metas, id)
    }

    function ReadDust(id: string): (v: Option<int>)
      reads this
      ensures v == RecordAt(storage, id).dust
    {
      Find(storage.dust, id)
    }

    // ---- Checks ------------------------------------------------------------------------------

    /** What passes keeps every transfer fee between nothing and the amount. */
    method ValidateMeta(meta: Meta) returns (error: Option<InvoiceError>)
      ensures error == CheckMeta(meta)
      ensures error.None? ==> meta.faceValue > 0 && forall amount :: amount >= 0 ==> 0 <= Fee(meta, amount) <= amount
    {
      if !meta.webhookValid {
        return Some(InvalidWebhook);
      }
      if !meta.textValid {
        return Some(InvalidMetadata);
      }
      if meta.faceValue <= 0 {
        return Some(InvalidMetadata);
      }
      if meta.discountBps > 10_000 {
        return Some(InvalidMetadata);
      }
      if meta.feeBps > 10_000 {
        return Some(InvalidMetadata);
      }
      forall amount | amount >= 0
        ensures 0 <= Fee(meta, amount) <= amount
      {
        Proofs.FeeBounds(meta, amount);
      }
      error := None;
    }

    /** The id is copied into a 256-byte buffer and must hold something other than white space. */
    method ValidateReference(id: string) returns (error: Option<InvoiceError>)
      ensures error == CheckReference(id)
    {
      if |id| == 0 {
        return Some(InvalidMetadata);
      }
      if |id| > 256 {
        return Some(Trap);
      }
      for i := 0 to |id|
        invariant forall j :: 0 <= j < i ==> IsAsciiWhitespace(id[j])
      {
        if !IsAsciiWhitespace(id[i]) {
          assert id[i] in id;
          return None;
        }
      }
      error := Some(InvalidMetadata);
    }

    /** The checks before a transfer; what passes is an existing invoice in one of the two transferable states. */
    method ValidateTransfer(id: string, host: Host, from: Address, to: Address, amount: int)
      returns (error: Option<InvoiceError>)
      ensures error == CheckTransfer(RecordAt(storage, id), host, id, from, to, amount)
      ensures error.None? ==>
                ReadMeta(id).Some? && amount >= 0 && (ReadStatus(id).Issued? || ReadStatus(id).PartiallySettled?)
    {
      hide CheckReference, RecordAt;
      error := ValidateReference(id);
      if error.Some? {
        return;
      }
      match ReadStatus(id) {
        case FullySettled => return Some(AlreadySettled);
        case Redeemed => return Some(AlreadySettled);
        case Created => return Some(InvalidLifecycleTransition);
        case _ =>
      }
      var meta := ReadMeta(id);
      if meta.None? {
        return Some(Trap);
      }
      if host.now > meta.value.dueDate {
        return Some(PastDueDate);
      }
      if amount < 0 {
        return Some(NegativeAmount);
      }
      if !host.kycApproved(from) {
        return Some(KycNotApproved);
      }
      if !host.kycApproved(to) {
        return Some(KycNotApproved);
      }
      var decision := host.decide(from, to, amount);
      if !decision.Allow? {
        return Some(Denied(decision));
      }
      error := None;
    }

    // ---- Metadata and journal ----------------------------------------------------------

    method Create(meta: Meta) returns (error: Option<InvoiceError>)
      modifies `storage
      ensures match InvoiceModel.Create(RecordAt(old(storage), meta.invoiceId), meta)
              case Err(e) => error == Some(e)
              case Ok(inv) =>
                error.None? && storage.list == old(storage).list + [meta.invoiceId]
                && Wrote(old(storage), storage.(list := old(storage).list), meta.invoiceId, inv)
    {
      hide RecordAt, CheckMeta;
      var id := meta.invoiceId;
      error := ValidateMeta(meta);
      if error.Some? {
        return;
      }
      if |id| == 0 {
        return Some(InvalidMetadata);
      }
      if ReadMeta(id).Some? {
        return Some(InvoiceAlreadyExists);
      }
      WriteMeta(id, meta);
      WriteSupply(id, 0);
      WriteStatus(id, Created);
      WriteJournal(id, []);
      ghost var written := storage;
      storage := storage.(list := storage.list + [id]);
      assert storage.(list := old(storage).list) == written;
    }

    method UpdateMeta(id: string, meta: Meta) returns (error: Option<InvoiceError>)
      modifies `storage
      ensures Ends(old(storage), storage, id, InvoiceModel.UpdateMeta(RecordAt(old(storage), id), meta), error)
    {
      hide RecordAt, CheckMeta;
      error := ValidateMeta(meta);
      if error.Some? {
        return;
      }
      var status := ReadStatus(id);
      if status != Created && status != Issued {
        return Some(AlreadySettled);
      }
      WriteMeta(id, meta);
    }

    method AppendJournal(id: string, host: Host, tag: string) returns (error: Option<InvoiceError>)
      modifies `storage
      ensures Ends(old(storage), storage, id, InvoiceModel.AppendJournal(RecordAt(old(storage), id), host, tag), error)
    {
      hide RecordAt;
      if |tag| == 0 {
        return Some(EmptyEventTag);
      }
      if ReadMeta(id).None? {
        return Some(InvoiceNotFound);
      }
      var status := ReadStatus(id);
      WriteJournal(id, ReadJournal(id) + [JournalEntry(tag, status, status, host.ledger, host.now)]);
      error := None;
    }

    // ---- Lifecycle -----------------------------------------------------------------------

    /** The first issue opens the lifecycle before the supply is checked. */
    method Issue(id: string, host: Host, to: Address, amount: int) returns (error: Option<InvoiceError>)
      modifies `storage
      ensures Ends(old(storage), storage, id, InvoiceModel.Issue(RecordAt(old(storage), id), host, to, amount), error)
    {
      hide RecordAt;
      if !host.kycApproved(to) {
        return Some(KycNotApproved);
      }
      var status := ReadStatus(id);
      if status == Created {
        TransitionStatus(id, host, Created, Issued);
      } else if status != Issued {
        return Some(AlreadySettled);
      }
      var meta := ReadMeta(id);
      var supply := ReadSupply(id);
      if meta.None? || !InI128(supply + amount) {
        return Some(Trap);
      }
      if supply + amount > meta.value.faceValue {
        return Some(OverSettlement);
      }
      var bal := ReadBalance(to, id);
      if !InI128(bal + amount) {
        return Some(Trap);
      }
      WriteBalance(to, id, bal + amount);
      WriteSupply(id, supply + amount);
      error := None;
    }

    method Settle(id: string, host: Host) returns (error: Option<InvoiceError>)
      modifies `storage
      ensures Ends(old(storage), storage, id,
                   InvoiceModel.Settle(RecordAt(old(storage), id), host, old(storage).paused), error)
    {
      hide RecordAt;
      if storage.paused {
        return Some(LifecyclePaused);
      }
      var meta := ReadMeta(id);
      if meta.None? {
        return Some(Trap);
      }
      var face := meta.value.faceValue;
      if face <= 0 {
        return Some(UnderSettlement);
      }
      var status := ReadStatus(id);
      if status == FullySettled || status == Redeemed {
        return Some(AlreadySettled);
      }
      TransitionStatus(id, host, status, FullySettled);
      WriteSettlement(id, face);
      WriteDust(id, face);
      error := None;
    }

    /** The writes of a partial settlement. */
    method WritePartial(id: string, host: Host, amount: int)
      requires ReadMeta(id).Some?
      modifies `storage
      ensures Wrote(old(storage), storage, id, PartiallySettle(RecordAt(old(storage), id), host, amount))
    {
      hide RecordAt;
      var to := if amount == ReadMeta(id).value.faceValue then FullySettled else PartiallySettled;
      TransitionStatus(id, host, ReadStatus(id), to);
      WriteSettlement(id, amount);
      WriteDust(id, amount);
    }

    method PartialSettle(id: string, host: Host, amount: int) returns (error: Option<InvoiceError>)
      modifies `storage
      ensures Ends(old(storage), storage, id,
                   InvoiceModel.PartialSettle(RecordAt(old(storage), id), host, old(storage).paused, amount), error)
    {
      hide RecordAt, PartiallySettle;
      if storage.paused {
        return Some(LifecyclePaused);
      }
      if amount <= 0 {
        return Some(UnderSettlement);
      }
      var meta := ReadMeta(id);
      if meta.None? {
        return Some(Trap);
      }
      if amount > meta.value.faceValue {
        return Some(OverSettlement);
      }
      var status := ReadStatus(id);
      if status != Created && status != Issued {
        return Some(AlreadySettled);
      }
      WritePartial(id, host, amount);
      error := None;
    }

    /** The form that does not panic: it has written nothing when it returns an error code. */
    method TrySettle(id: string, host: Host, amount: int) returns (error: Option<InvoiceError>)
      modifies `storage
      ensures var (expected, inv) := TryPartialSettle(RecordAt(old(storage), id), host, old(storage).paused, amount);
              && error == expected
              && (error.Some? ==> storage == old(storage))
              && (error.None? ==> Wrote(old(storage), storage, id, inv))
    {
      hide RecordAt, PartiallySettle;
      if storage.paused {
        return Some(LifecyclePaused);
      }
      if amount <= 0 {
        return Some(UnderSettlement);
      }
      var meta := ReadMeta(id);
      if meta.None? {
        return Some(InvoiceNotFound);
      }
      if amount > meta.value.faceValue {
        return Some(OverSettlement);
      }
      var status := ReadStatus(id);
      if status != Created && status != Issued {
        return Some(AlreadySettled);
      }
      WritePartial(id, host, amount);
      error := None;
    }

    /** Each of the first ten items is tried in the state that the items before it left; its result is empty exactly
        when a single partial settlement would succeed there. */
    method BatchSettle(host: Host, items: seq<(string, int)>) returns (results: seq<BatchResult>)
      requires Valid()
      modifies this
      ensures Valid() && |results| == Min(|items|, 10) && Reported(old(contents), host, items, results)
      ensures contents == Next(old(contents), Call.BatchSettle(host, items))
    {
      hide Reported, TryPartialSettle, RecordAt, Wrote;
      var effective := if |items| > BATCH_CAP then BATCH_CAP else |items|;
      results := [];
      NoReports(contents, host, items);
      for i := 0 to effective
        invariant |results| == i && Reported(old(contents), host, items, results)
        invariant Valid() && contents == BatchState(old(contents), host, items[..i])
        invariant contents.paused == old(contents).paused
      {
        var (id, amount) := items[i];
        assert items[..i + 1][..i] == items[..i];
        ghost var before := storage;
        var error := TrySettle(id, host, amount);
        ReportNext(old(contents), host, items, results, error);
        if error.None? {
          ghost var inv := TryPartialSettle(Get(contents, id), host, contents.paused, amount).1;
          RepresentsWrote(before, storage, contents, id, inv);
          contents := contents.(invoices := contents.invoices[id := inv]);
        }
        results := results + [BatchResult(id, error)];
      }
    }

    // ---- Redemption and burning -------------------------------------------------------------

    /** A stored entitlement, within the balance, or the pro-rata share, zero when the product overflows. */
    method MaxRedeemable(id: string, from: Address) returns (cap: int)
      ensures cap == RedeemCap(RecordAt(storage, id), from)
    {
      hide RecordAt, MulDiv;
      var bal := ReadBalance(from, id);
      var stored := ReadEntitlement(from, id);
      var settlement, supply := ReadSettlement(id), ReadSupply(id);
      cap := 0;
      if stored.Some? {
        cap := Min(stored.value, bal);
      } else if settlement > 0 && supply > 0 {
        var quotient := MulDiv(bal, settlement, supply);
        if quotient <= I128_MAX {
          cap := quotient;
        }
      }
    }

    method Redeem(id: string, host: Host, from: Address, amount: int) returns (error: Option<InvoiceError>)
      modifies `storage
      ensures Ends(old(storage), storage, id,
                   InvoiceModel.Redeem(RecordAt(old(storage), id), host, old(storage).paused, from, amount), error)
    {
      hide RecordAt, RedeemCap;
      if storage.paused {
        return Some(LifecyclePaused);
      }
      if amount <= 0 {
        return Some(UnderSettlement);
      }
      var status := ReadStatus(id);
      if status != PartiallySettled && status != FullySettled {
        return Some(NotSettled);
      }
      var decision := host.decide(from, from, amount);
      if !decision.Allow? {
        return Some(Denied(decision));
      }
      var bal := ReadBalance(from, id);
      if bal < amount {
        return Some(InsufficientBalance);
      }
      var cap := MaxRedeemable(id, from);
      if amount > cap {
        return Some(OverSettlement);
      }
      error := PayOut(id, host, status, from, bal, amount);
    }

    /** The writes of a redemption: balance, supply, entitlement, dust and, at zero supply, the status. */
    method PayOut(id: string, host: Host, status: Status, from: Address, bal: int, amount: int)
      returns (error: Option<InvoiceError>)
      requires status == ReadStatus(id) && bal == ReadBalance(from, id)
      modifies `storage
      ensures Ends(old(storage), storage, id, Paid(RecordAt(old(storage), id), host, from, amount), error)
    {
      hide RecordAt, Lowered;
      WriteBalance(from, id, bal - amount);
      var newSupply := ReadSupply(id) - amount;
      if !InI128(newSupply) {
        return Some(Trap);
      }
      WriteSupply(id, newSupply);
      LowerEntitlement(id, from, amount);
      LowerDust(id, amount);
      if newSupply == 0 {
        TransitionStatus(id, host, status, Redeemed);
      }
      error := None;
    }

    /** A stored entitlement falls by the amount and is removed at zero. */
    method LowerEntitlement(id: string, from: Address, amount: int)
      modifies `storage
      ensures var inv := RecordAt(old(storage), id);
              Wrote(old(storage), storage, id, inv.(entitlements := Lowered(inv.entitlements, from, amount)))
    {
      hide RecordAt;
      Unwritten(storage, id);
      var stored := ReadEntitlement(from, id);
      if stored.Some? {
        var remaining := SaturatingSub(stored.value, amount);
        WriteEntitlement(from, id, if remaining == 0 then None else Some(remaining));
      }
    }

    method LowerDust(id: string, amount: int)
      modifies `storage
      ensures var inv := RecordAt(old(storage), id);
              Wrote(old(storage), storage, id,
                    inv.(dust := if inv.dust.Some? then Some(SaturatingSub(inv.dust.value, amount)) else None))
    {
      hide RecordAt;
      Unwritten(storage, id);
      var dust := ReadDust(id);
      if dust.Some? {
        WriteDust(id, SaturatingSub(dust.value, amount));
      }
    }

    /** The balance, supply and status writes shared by both burns. */
    method FinishBurn(id: string, host: Host, from: Address, amount: int) returns (error: Option<InvoiceError>)
      modifies `storage
      ensures Ends(old(storage), storage, id, BurnMove(RecordAt(old(storage), id), host, from, amount), error)
    {
      hide RecordAt, Transition;
      var bal := ReadBalance(from, id);
      if bal < amount {
        return Some(InsufficientBalance);
      }
      if !InI128(bal - amount) {
        return Some(Trap);
      }
      WriteBalance(from, id, bal - amount);
      var newSupply := ReadSupply(id) - amount;
      if !InI128(newSupply) {
        return Some(Trap);
      }
      WriteSupply(id, newSupply);
      if newSupply == 0 {
        var status := ReadStatus(id);
        if status == PartiallySettled || status == FullySettled {
          TransitionStatus(id, host, status, Redeemed);
        }
      }
      error := None;
    }

    method Burn(id: string, host: Host, from: Address, amount: int) returns (error: Option<InvoiceError>)
      modifies `storage
      ensures Ends(old(storage), storage, id, InvoiceModel.Burn(RecordAt(old(storage), id), host, from, amount), error)
    {
      hide RecordAt, BurnMove;
      var decision := host.decide(from, from, amount);
      if !decision.Allow? {
        return Some(Denied(decision));
      }
      error := FinishBurn(id, host, from, amount);
    }

    /** The allowance is spent before the balance is checked. */
    method BurnFrom(id: string, host: Host, spender: Address, from: Address, amount: int)
      returns (error: Option<InvoiceError>)
      modifies `storage
      ensures Ends(old(storage), storage, id,
                   InvoiceModel.BurnFrom(RecordAt(old(storage), id), host, spender, from, amount), error)
    {
      hide RecordAt, BurnMove;
      var decision := host.decide(from, from, amount);
      if !decision.Allow? {
        return Some(Denied(decision));
      }
      var allowance := ReadStoredAllowance(from, spender, id);
      if allowance.amount < amount {
        return Some(InsufficientAllowance);
      }
      if allowance.expiration < host.ledger {
        return Some(AllowanceExpired);
      }
      if !InI128(allowance.amount - amount) {
        return Some(Trap);
      }
      WriteAllowance(from, spender, id, allowance.(amount := allowance.amount - amount));
      error := FinishBurn(id, host, from, amount);
    }

    // ---- Transfers ---------------------------------------------------------------------------

    method Approve(id: string, from: Address, spender: Address, amount: int, expiration: nat)
      returns (error: Option<InvoiceError>)
      modifies `storage
      ensures Ends(old(storage), storage, id,
                   InvoiceModel.Approve(RecordAt(old(storage), id), from, spender, amount, expiration), error)
    {
      hide RecordAt;
      if amount < 0 {
        return Some(NegativeAmount);
      }
      WriteAllowance(from, spender, id, Allowance(amount, expiration));
      error := None;
    }

    /** Fixes the sender's entitlement before balances change; one that is stored already does not rise. */
    method TakeSnapshot(id: string, from: Address)
      modifies `storage
      ensures var inv := RecordAt(old(storage), id);
              Wrote(old(storage), storage, id, inv.(entitlements := Snapshot(inv, from)))
    {
      hide RecordAt, MulDiv;
      Unwritten(storage, id);
      if ReadStatus(id) == PartiallySettled {
        var settlement, supply := ReadSettlement(id), ReadSupply(id);
        var balNow := ReadBalance(from, id);
        if supply > 0 && settlement > 0 {
          var toStore := WrapI128(MulDiv(balNow, settlement, supply));
          var existing := ReadEntitlement(from, id);
          if existing.Some? {
            toStore := Min(existing.value, toStore);
          }
          WriteEntitlement(from, id, Some(toStore));
        }
      }
    }

    /** The fee, the snapshot and the balance writes shared by both transfers; the fee recipient is checked after the
        sender and the recipient were written. */
    method MoveTokens(id: string, host: Host, from: Address, to: Address, amount: int)
      returns (error: Option<InvoiceError>)
      requires ReadMeta(id).Some? && amount >= 0
      modifies `storage
      ensures Ends(old(storage), storage, id,
                   Move(RecordAt(old(storage), id), host, old(storage).feeExempt, from, to, amount),
                   error)
    {
      hide RecordAt, Snapshot, Fee, Credit;
      var meta := ReadMeta(id).value;
      var computed := ComputeFee(meta, amount);
      if computed.None? {
        return Some(Trap);
      }
      var fee := computed.value;
      TakeSnapshot(id, from);
      error := MoveBalance(id, from, to, amount, amount - fee);
      if error.Some? {
        return;
      }
      if fee > 0 {
        error := CreditFee(id, host, from, meta.feeRecipient.value, fee);
      }
    }

    /** The debit of the sender and the credit of the recipient, whose balance is read after the debit. */
    method MoveBalance(id: string, from: Address, to: Address, amount: int, received: int)
      returns (error: Option<InvoiceError>)
      modifies `storage
      ensures var inv := RecordAt(old(storage), id);
              var debited := Credit(inv.balances, from, -amount);
              if Lookup(inv.balances, from) < amount then error == Some(InsufficientBalance)
              else if !InI128(Lookup(debited, to) + received) then error == Some(Trap)
              else
                error.None?
                && Wrote(old(storage), storage, id, inv.(balances := Credit(debited, to, received)))
    {
      hide RecordAt;
      var fromBal := ReadBalance(from, id);
      if fromBal < amount {
        return Some(InsufficientBalance);
      }
      WriteBalance(from, id, fromBal - amount);
      var toBal := ReadBalance(to, id);
      if !InI128(toBal + received) {
        return Some(Trap);
      }
      WriteBalance(to, id, toBal + received);
      error := None;
    }

    method ComputeFee(meta: Meta, amount: int) returns (fee: Option<int>)
      ensures fee == if FeeApplies(meta) && !InI128(amount * meta.feeBps) then None else Some(Fee(meta, amount))
      ensures fee.Some? && fee.value > 0 ==> meta.feeRecipient.Some?
    {
      if meta.feeBps > 0 {
        if meta.feeRecipient.Some? {
          if !InI128(amount * meta.feeBps) {
            return None;
          }
          return Some(amount * meta.feeBps / 10_000);
        }
      }
      fee := Some(0);
    }

    /** The compliance check of the fee recipient, unless exempt, and its credit. */
    method CreditFee(id: string, host: Host, from: Address, recipient: Address, fee: int)
      returns (error: Option<InvoiceError>)
      modifies `storage
      ensures var inv := RecordAt(old(storage), id);
              var decision := host.decide(from, recipient, fee);
              if !old(storage).feeExempt && !decision.Allow? then error == Some(Denied(decision))
              else if !InI128(Lookup(inv.balances, recipient) + fee) then error == Some(Trap)
              else
                error.None?
                && Wrote(old(storage), storage, id, inv.(balances := Credit(inv.balances, recipient, fee)))
    {
      hide RecordAt;
      if !storage.feeExempt {
        var decision := host.decide(from, recipient, fee);
        if !decision.Allow? {
          return Some(Denied(decision));
        }
      }
      var recipientBal := ReadBalance(recipient, id);
      if !InI128(recipientBal + fee) {
        return Some(Trap);
      }
      WriteBalance(recipient, id, recipientBal + fee);
      error := None;
    }

    method Transfer(id: string, host: Host, from: Address, to: Address, amount: int)
      returns (error: Option<InvoiceError>)
      modifies `storage
      ensures Ends(old(storage), storage, id,
                   InvoiceModel.Transfer(RecordAt(old(storage), id), host, old(storage).feeExempt, id, from, to,
                                         amount),
                   error)
    {
      hide RecordAt, Move, CheckTransfer;
      error := ValidateTransfer(id, host, from, to, amount);
      if error.Some? {
        return;
      }
      error := MoveTokens(id, host, from, to, amount);
    }

    /** The allowance is spent before the balance is checked. */
    method TransferFrom(id: string, host: Host, spender: Address, from: Address, to: Address, amount: int)
      returns (error: Option<InvoiceError>)
      modifies `storage
      ensures var s := old(storage);
              Ends(s, storage, id,
                   InvoiceModel.TransferFrom(RecordAt(s, id), host, s.feeExempt, id, spender, from, to, amount), error)
    {
      hide RecordAt, Move, CheckTransfer;
      error := ValidateTransfer(id, host, from, to, amount);
      if error.Some? {
        return;
      }
      var allowance := ReadStoredAllowance(from, spender, id);
      if allowance.expiration < host.ledger {
        return Some(AllowanceExpired);
      }
      if allowance.amount < amount {
        return Some(InsufficientAllowance);
      }
      if !InI128(allowance.amount - amount) {
        return Some(Trap);
      }
      WriteAllowance(from, spender, id, allowance.(amount := allowance.amount - amount));
      error := MoveTokens(id, host, from, to, amount);
    }
  }

  lemma Unwritten(s: Storage, id: string)
    ensures Wrote(s, s, id, RecordAt(s, id))
  {
  }
}
