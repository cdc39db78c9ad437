/** What every invoice keeps over every sequence of calls. */
module InvoiceProofs {
  import opened Prelude
  import opened InvoiceModel

  // ---- Lifecycle and journal ------------------------------------------------------

  function Rank(s: Status): nat {
    match s
    case Created => 0
    case Issued => 1
    case PartiallySettled => 2
    case FullySettled => 3
    case Redeemed => 4
  }

  function Changes(journal: seq<JournalEntry>): nat {
    if journal == [] then 0
    else
      var last := journal[|journal| - 1];
      Changes(journal[..|journal| - 1]) + (if last.from != last.to then 1 else 0)
  }

  /** The entries chain from `Created` to `status`, never descend, and carry a tag. */
  ghost predicate Chained(journal: seq<JournalEntry>, status: Status) {
    && (if journal == [] then status == Created
        else journal[0].from == Created && journal[|journal| - 1].to == status)
    && (forall i :: 0 <= i < |journal| - 1 ==> journal[i].to == journal[i + 1].from)
    && (forall i :: 0 <= i < |journal| ==> Rank(journal[i].from) <= Rank(journal[i].to) && journal[i].tag != "")
  }

  ghost predicate JournalOk(inv: Invoice) {
    Chained(inv.journal, inv.status) && Changes(inv.journal) <= Rank(inv.status)
  }

  lemma AppendEntry(journal: seq<JournalEntry>, status: Status, e: JournalEntry)
    requires Chained(journal, status) && Changes(journal) <= Rank(status)
    requires e.from == status && Rank(e.from) <= Rank(e.to) && e.tag != ""
    ensures Chained(journal + [e], e.to) && Changes(journal + [e]) <= Rank(e.to)
  {
    assert (journal + [e])[..|journal|] == journal;
  }

  /** Metadata is only ever stored after its checks, and an invoice without metadata is untouched by its lifecycle. */
  ghost predicate MetaOk(inv: Invoice) {
    && (inv.meta.Some? ==>
          inv.meta.value.faceValue > 0 && inv.meta.value.discountBps <= 10_000 && inv.meta.value.feeBps <= 10_000)
    && (inv.meta.None? ==> inv.status == Created && inv.journal == [])
  }

  /** What holds of every invoice, whatever amounts the callers pass. */
  ghost predicate Basic(inv: Invoice) {
    JournalOk(inv) && MetaOk(inv)
  }

  lemma TransitionKeeps(inv: Invoice, host: Host, to: Status)
    requires JournalOk(inv) && Rank(inv.status) <= Rank(to)
    ensures JournalOk(Transition(inv, host, to))
  {
    AppendEntry(inv.journal, inv.status, JournalEntry(Tag(to), inv.status, to, host.ledger, host.now));
  }

  /** The journal is kept or gains one entry; a change of status is one recorded step up. */
  ghost predicate Recorded(inv: Invoice, after: Invoice) {
    && inv.journal <= after.journal && |after.journal| <= |inv.journal| + 1
    && (after.status != inv.status ==>
          Rank(after.status) > Rank(inv.status) && |after.journal| == |inv.journal| + 1
          && after.journal[|inv.journal|].from == inv.status && after.journal[|inv.journal|].to == after.status)
  }

  lemma RecordedTransition(inv: Invoice, host: Host, to: Status, after: Invoice)
    requires Basic(inv) && Rank(inv.status) < Rank(to) && inv.meta.Some?
    requires after.status == to && after.journal == Transition(inv, host, to).journal && after.meta == inv.meta
    ensures Basic(after) && Recorded(inv, after)
  {
    hide JournalOk;
    TransitionKeeps(inv, host, to);
    BalancesIrrelevant(Transition(inv, host, to), after);
  }

  lemma RecordedNothing(inv: Invoice, after: Invoice)
    requires Basic(inv) && after.status == inv.status && after.journal == inv.journal
    requires MetaOk(after)
    ensures Basic(after) && Recorded(inv, after)
  {
    hide JournalOk;
    BalancesIrrelevant(inv, after);
  }

  /** One successful call: the status does not fall, a change of status is a single recorded step up, and nothing
      recorded before is altered. */
  lemma LifecycleStep(inv: Invoice, id: string, paused: bool, exempt: bool, op: Op)
    requires Basic(inv) && Apply(inv, id, paused, exempt, op).Ok?
    ensures Basic(Apply(inv, id, paused, exempt, op).value) && Recorded(inv, Apply(inv, id, paused, exempt, op).value)
  {
    hide Basic, Redeem, BurnMove, Move, CheckTransfer, Recorded, Issue, Settle, PartialSettle, Create, UpdateMeta;
    hide AppendJournal;
    match op
    case OpAppendJournal(host, tag) => JournalLifecycle(inv, host, tag);
    case OpIssue(host, to, amount) => IssueLifecycle(inv, host, to, amount);
    case OpSettle(host) => SettleLifecycle(inv, host, paused);
    case OpPartialSettle(host, amount) => PartialLifecycle(inv, host, paused, amount);
    case OpRedeem(host, from, amount) => RedeemLifecycle(inv, host, paused, from, amount);
    case OpBurn(host, from, amount) => BurnLifecycle(inv, inv, host, from, amount);
    case OpBurnFrom(host, spender, from, amount) =>
      BurnLifecycle(inv, Spend(inv, from, spender, amount), host, from, amount);
    case OpTransfer(host, from, to, amount) =>
      CheckedMeta(inv, host, id, from, to, amount);
      MoveLifecycle(inv, inv, host, exempt, from, to, amount);
    case OpTransferFrom(host, spender, from, to, amount) =>
      CheckedMeta(inv, host, id, from, to, amount);
      MoveLifecycle(inv, Spend(inv, from, spender, amount), host, exempt, from, to, amount);
    case OpCreate(meta) => CreateLifecycle(inv, meta);
    case OpUpdateMeta(meta) => UpdateLifecycle(inv, meta);
    case OpApprove(_, _, _, _) => ApproveLifecycle(inv, Apply(inv, id, paused, exempt, op).value);
  }

  lemma CheckedMeta(inv: Invoice, host: Host, id: string, from: Address, to: Address, amount: int)
    ensures CheckTransfer(inv, host, id, from, to, amount).None? ==> inv.meta.Some?
  {
  }

  lemma ApproveLifecycle(inv: Invoice, after: Invoice)
    requires Basic(inv) && after == inv.(allowances := after.allowances)
    ensures Basic(after) && Recorded(inv, after)
  {
    RecordedNothing(inv, after);
  }

  lemma MoveLifecycle(inv: Invoice, spent: Invoice, host: Host, exempt: bool, from: Address, to: Address, amount: int)
    requires Basic(inv) && spent == inv.(allowances := spent.allowances) && inv.meta.Some?
    requires Move(spent, host, exempt, from, to, amount).Ok?
    ensures var after := Move(spent, host, exempt, from, to, amount).value; Basic(after) && Recorded(inv, after)
  {
    hide JournalOk, Credit, Snapshot, Fee, Recorded;
    RecordedNothing(inv, Move(spent, host, exempt, from, to, amount).value);
  }

  lemma CreateLifecycle(inv: Invoice, meta: Meta)
    requires Basic(inv) && Create(inv, meta).Ok?
    ensures Basic(Create(inv, meta).value) && Recorded(inv, Create(inv, meta).value)
  {
    EmptyJournal(Create(inv, meta).value);
  }

  lemma UpdateLifecycle(inv: Invoice, meta: Meta)
    requires Basic(inv) && UpdateMeta(inv, meta).Ok?
    ensures Basic(UpdateMeta(inv, meta).value) && Recorded(inv, UpdateMeta(inv, meta).value)
  {
    hide JournalOk, Recorded;
    RecordedNothing(inv, UpdateMeta(inv, meta).value);
  }

  lemma JournalLifecycle(inv: Invoice, host: Host, tag: string)
    requires Basic(inv) && AppendJournal(inv, host, tag).Ok?
    ensures Basic(AppendJournal(inv, host, tag).value) && Recorded(inv, AppendJournal(inv, host, tag).value)
  {
    hide JournalOk;
    CustomEntry(inv, host, tag);
  }

  lemma IssueLifecycle(inv: Invoice, host: Host, to: Address, amount: int)
    requires Basic(inv) && Issue(inv, host, to, amount).Ok?
    ensures Basic(Issue(inv, host, to, amount).value) && Recorded(inv, Issue(inv, host, to, amount).value)
  {
    hide JournalOk, Recorded, Credit;
    var after := Issue(inv, host, to, amount).value;
    if inv.status.Created? {
      RecordedTransition(inv, host, Issued, after);
    } else {
      RecordedNothing(inv, after);
    }
  }

  lemma SettleLifecycle(inv: Invoice, host: Host, paused: bool)
    requires Basic(inv) && Settle(inv, host, paused).Ok?
    ensures Basic(Settle(inv, host, paused).value) && Recorded(inv, Settle(inv, host, paused).value)
  {
    hide JournalOk, Recorded;
    RecordedTransition(inv, host, FullySettled, Settle(inv, host, paused).value);
  }

  lemma PartialLifecycle(inv: Invoice, host: Host, paused: bool, amount: int)
    requires Basic(inv) && PartialSettle(inv, host, paused, amount).Ok?
    ensures Basic(PartialSettle(inv, host, paused, amount).value)
            && Recorded(inv, PartialSettle(inv, host, paused, amount).value)
  {
    hide JournalOk, Recorded;
    var after := PartialSettle(inv, host, paused, amount).value;
    RecordedTransition(inv, host, after.status, after);
  }

  lemma EmptyJournal(inv: Invoice)
    requires inv.journal == [] && inv.status == Created
    ensures JournalOk(inv)
  {
  }

  lemma BalancesIrrelevant(inv: Invoice, other: Invoice)
    ensures other.journal == inv.journal && other.status == inv.status ==> (JournalOk(other) <==> JournalOk(inv))
  {
  }

  lemma CustomEntry(inv: Invoice, host: Host, tag: string)
    requires JournalOk(inv) && tag != ""
    ensures JournalOk(inv.(journal := inv.journal + [JournalEntry(tag, inv.status, inv.status, host.ledger, host.now)]))
  {
    AppendEntry(inv.journal, inv.status, JournalEntry(tag, inv.status, inv.status, host.ledger, host.now));
  }

  lemma RedeemLifecycle(inv: Invoice, host: Host, paused: bool, from: Address, amount: int)
    requires Basic(inv) && Redeem(inv, host, paused, from, amount).Ok?
    ensures Basic(Redeem(inv, host, paused, from, amount).value)
            && Recorded(inv, Redeem(inv, host, paused, from, amount).value)
  {
    hide Credit, RedeemCap, JournalOk, Recorded;
    var after := Redeem(inv, host, paused, from, amount).value;
    if after.supply == 0 {
      RecordedTransition(inv, host, Redeemed, after);
    } else {
      RecordedNothing(inv, after);
    }
  }

  lemma BurnLifecycle(inv: Invoice, spent: Invoice, host: Host, from: Address, amount: int)
    requires Basic(inv) && spent == inv.(allowances := spent.allowances) && BurnMove(spent, host, from, amount).Ok?
    ensures var after := BurnMove(spent, host, from, amount).value; Basic(after) && Recorded(inv, after)
  {
    hide Credit, JournalOk, Recorded;
    var after := BurnMove(spent, host, from, amount).value;
    if after.supply == 0 && IsSettled(inv.status) {
      RecordedTransition(inv, host, Redeemed, after);
    } else {
      RecordedNothing(inv, after);
    }
  }

  // ---- Conservation -------------------------------------------------------------------

  ghost predicate Conserved(inv: Invoice) {
    Total(inv.balances) == inv.supply
  }

  /** Moving conserves the sum for every aliasing of sender, recipient and fee recipient. */
  lemma MoveConserves(inv: Invoice, host: Host, exempt: bool, from: Address, to: Address, amount: int)
    requires inv.meta.Some? && Move(inv, host, exempt, from, to, amount).Ok? && Fee(inv.meta.value, amount) >= 0
    ensures Total(Move(inv, host, exempt, from, to, amount).value.balances) == Total(inv.balances)
    ensures Move(inv, host, exempt, from, to, amount).value.supply == inv.supply
  {
    hide Credit, Snapshot;
    var fee := Fee(inv.meta.value, amount);
    var debited := Credit(inv.balances, from, -amount);
    var credited := Credit(debited, to, amount - fee);
    CreditTotal(inv.balances, from, -amount);
    CreditTotal(debited, to, amount - fee);
    if fee > 0 {
      CreditTotal(credited, inv.meta.value.feeRecipient.value, fee);
    }
  }

  /** The fee is between nothing and the whole amount. */
  lemma FeeBounds(meta: Meta, amount: int)
    requires meta.feeBps <= 10_000 && amount >= 0
    ensures 0 <= Fee(meta, amount) <= amount
  {
    assert amount * meta.feeBps <= amount * 10_000;
    assert amount * meta.feeBps >= 0;
  }

  /** How far the balances of an invoice are from its supply. */
  ghost function Drift(inv: Invoice): int {
    Total(inv.balances) - inv.supply
  }

  lemma BurnConserves(inv: Invoice, host: Host, from: Address, amount: int)
    requires BurnMove(inv, host, from, amount).Ok?
    ensures Drift(BurnMove(inv, host, from, amount).value) == Drift(inv)
  {
    hide Credit;
    CreditTotal(inv.balances, from, -amount);
  }

  lemma RedeemConserves(inv: Invoice, host: Host, paused: bool, from: Address, amount: int)
    requires Redeem(inv, host, paused, from, amount).Ok?
    ensures Drift(Redeem(inv, host, paused, from, amount).value) == Drift(inv)
  {
    hide Credit, RedeemCap, Lowered;
    CreditTotal(inv.balances, from, -amount);
  }

  lemma IssueConserves(inv: Invoice, host: Host, to: Address, amount: int)
    requires Issue(inv, host, to, amount).Ok?
    ensures Drift(Issue(inv, host, to, amount).value) == Drift(inv)
  {
    hide Credit;
    CreditTotal(inv.balances, to, amount);
  }

  /** Every call other than creation moves balances and supply by the same amount, for all amounts. */
  lemma ConservationStep(inv: Invoice, id: string, paused: bool, exempt: bool, op: Op)
    requires Basic(inv) && !op.OpCreate? && Apply(inv, id, paused, exempt, op).Ok?
    ensures Drift(Apply(inv, id, paused, exempt, op).value) == Drift(inv)
  {
    hide Issue, Redeem, BurnMove, Move, JournalOk, Fee;
    match op
    case OpIssue(host, to, amount) => IssueConserves(inv, host, to, amount);
    case OpRedeem(host, from, amount) => RedeemConserves(inv, host, paused, from, amount);
    case OpBurn(host, from, amount) => BurnConserves(inv, host, from, amount);
    case OpBurnFrom(host, spender, from, amount) =>
      BurnConserves(Spend(inv, from, spender, amount), host, from, amount);
    case OpTransfer(host, from, to, amount) =>
      FeeBounds(inv.meta.value, amount);
      MoveConserves(inv, host, exempt, from, to, amount);
    case OpTransferFrom(host, spender, from, to, amount) =>
      FeeBounds(inv.meta.value, amount);
      MoveConserves(Spend(inv, from, spender, amount), host, exempt, from, to, amount);
    case _ =>
  }

  /** Creation resets the supply to zero, so it conserves exactly when nothing was minted under the id beforehand. */
  lemma CreateConserves(inv: Invoice, meta: Meta)
    requires Conserved(inv) && Create(inv, meta).Ok?
    ensures Conserved(Create(inv, meta).value) <==> inv.supply == 0
    ensures Drift(Create(inv, meta).value) == inv.supply
  {
  }

  const OPEN_HOST := Host(_ => true, (_, _, _) => Allow, 0, 0)

  /** Burning a negative amount before creation leaves balances that the supply forgets. */
  lemma NegativeBurnBreaksConservation(a: Address)
    ensures var meta := Meta("INV-1", 100, 0, 0, 0, None, true, true);
            var calls := [Single("INV-1", OpBurn(OPEN_HOST, a, -5)), Single("INV-1", OpCreate(meta))];
            var inv := Get(Run(EMPTY, calls), "INV-1");
            inv.meta.Some? && Total(inv.balances) == 5 && inv.supply == 0
  {
    var meta := Meta("INV-1", 100, 0, 0, 0, None, true, true);
    var burn := Single("INV-1", OpBurn(OPEN_HOST, a, -5));
    var create := Single("INV-1", OpCreate(meta));
    var calls := [burn, create];
    assert calls[..1] == [burn] && [burn][..0] == [];
    var c1 := Next(EMPTY, burn);
    assert Run(EMPTY, [burn]) == c1 by {
      assert Run(EMPTY, []) == EMPTY;
    }
    assert Get(c1, "INV-1").balances == map[a := 5] && Get(c1, "INV-1").meta.None?;
    CreditTotal(map[], a, 5);
    assert Credit(map[], a, 5) == map[a := 5];
  }
}
