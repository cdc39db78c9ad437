/** The invoice token's storage: one map for each kind of key, holding only what was written, and the record of an
    invoice that these keys stand for. */
module InvoiceStorage {
  import opened Prelude
  import opened InvoiceModel

  datatype Storage = Storage(
    metas: map<string, Meta>,
    balances: map<(Address, string), int>,
    allowances: map<((Address, Address), string), Allowance>,
    supplies: map<string, int>,
    statuses: map<string, Status>,
    settlements: map<string, int>,
    journals: map<string, seq<JournalEntry>>,
    entitlements: map<(Address, string), int>,
    dust: map<string, int>,
    list: seq<string>,
    paused: bool,
    feeExempt: bool)

  const NOTHING := Storage(map[], map[], map[], map[], map[], map[], map[], map[], map[], [], false, false)

  /** The entries of one invoice id. */
  function Under<A(==, !new), V>(m: map<(A, string), V>, id: string): (u: map<A, V>)
    ensures forall a :: a in u <==> (a, id) in m
    ensures forall a :: a in u ==> u[a] == m[(a, id)]
  {
    map k | k in m && k.1 == id :: k.0 := m[k]
  }

  lemma UnderWrite<A(!new), V>(m: map<(A, string), V>, a: A, id: string, v: V, other: string)
    ensures Under(m[(a, id) := v], other) == if other == id then Under(m, id)[a := v] else Under(m, other)
  {
  }

  lemma UnderRemove<A(!new), V>(m: map<(A, string), V>, a: A, id: string, other: string)
    ensures Under(m - {(a, id)}, other) == if other == id then Under(m, id) - {a} else Under(m, other)
  {
  }

  function Find<V>(m: map<string, V>, id: string): Option<V> {
    if id in m then Some(m[id]) else None
  }

  /** What reading every key of an invoice id yields, with the defaults for keys that were never written. */
  function RecordAt(s: Storage, id: string): Invoice {
    Invoice(
      Find(s.metas, id),
      Under(s.balances, id),
      Under(s.allowances, id),
      Lookup(s.supplies, id),
      if id in s.statuses then s.statuses[id] else Created,
      Lookup(s.settlements, id),
      if id in s.journals then s.journals[id] else [],
      Under(s.entitlements, id),
      Find(s.dust, id))
  }

  /** Only keys of one invoice id were written, and they now stand for this record. */
  ghost predicate Wrote(s: Storage, s': Storage, id: string, inv: Invoice) {
    && RecordAt(s', id) == inv
    && (forall other :: other != id ==> RecordAt(s', other) == RecordAt(s, other))
    && s'.list == s.list && s'.paused == s.paused && s'.feeExempt == s.feeExempt
  }

  /** The storage stands for the contract state of the specification. */
  ghost predicate Represents(s: Storage, c: Contract) {
    && s.list == c.list && s.paused == c.paused && s.feeExempt == c.feeExempt
    && forall id :: RecordAt(s, id) == Get(c, id)
  }

  lemma NothingRepresentsEmpty()
    ensures Represents(NOTHING, EMPTY)
  {
  }

  lemma RepresentsWrote(s: Storage, s': Storage, c: Contract, id: string, inv: Invoice)
    requires Represents(s, c) && Wrote(s, s', id, inv)
    ensures Represents(s', c.(invoices := c.invoices[id := inv]))
  {
    hide RecordAt;
  }

  // ---- Writing one key ---------------------------------------------------------------

  lemma MetaWritten(s: Storage, id: string, meta: Meta)
    ensures Wrote(s, s.(metas := s.metas[id := meta]), id, RecordAt(s, id).(meta := Some(meta)))
  {
  }

  lemma BalanceWritten(s: Storage, a: Address, id: string, v: int)
    ensures Wrote(s, s.(balances := s.balances[(a, id) := v]), id,
                  RecordAt(s, id).(balances := RecordAt(s, id).balances[a := v]))
  {
    hide Under;
    forall other
      ensures Under(s.balances[(a, id) := v], other)
              == if other == id then Under(s.balances, id)[a := v] else Under(s.balances, other)
    {
      UnderWrite(s.balances, a, id, v, other);
    }
  }

  lemma AllowanceWritten(s: Storage, pair: (Address, Address), id: string, v: Allowance)
    ensures Wrote(s, s.(allowances := s.allowances[(pair, id) := v]), id,
                  RecordAt(s, id).(allowances := RecordAt(s, id).allowances[pair := v]))
  {
    hide Under;
    forall other
      ensures Under(s.allowances[(pair, id) := v], other)
              == if other == id then Under(s.allowances, id)[pair := v] else Under(s.allowances, other)
    {
      UnderWrite(s.allowances, pair, id, v, other);
    }
  }

  lemma EntitlementWritten(s: Storage, a: Address, id: string, v: int)
    ensures Wrote(s, s.(entitlements := s.entitlements[(a, id) := v]), id,
                  RecordAt(s, id).(entitlements := RecordAt(s, id).entitlements[a := v]))
  {
    hide Under;
    forall other
      ensures Under(s.entitlements[(a, id) := v], other)
              == if other == id then Under(s.entitlements, id)[a := v] else Under(s.entitlements, other)
    {
      UnderWrite(s.entitlements, a, id, v, other);
    }
  }

  lemma EntitlementRemoved(s: Storage, a: Address, id: string)
    ensures Wrote(s, s.(entitlements := s.entitlements - {(a, id)}), id,
                  RecordAt(s, id).(entitlements := RecordAt(s, id).entitlements - {a}))
  {
    hide Under;
    forall other
      ensures Under(s.entitlements - {(a, id)}, other)
              == if other == id then Under(s.entitlements, id) - {a} else Under(s.entitlements, other)
    {
      UnderRemove(s.entitlements, a, id, other);
    }
  }

  lemma SupplyWritten(s: Storage, id: string, v: int)
    ensures Wrote(s, s.(supplies := s.supplies[id := v]), id, RecordAt(s, id).(supply := v))
  {
  }

  lemma SettlementWritten(s: Storage, id: string, v: int)
    ensures Wrote(s, s.(settlements := s.settlements[id := v]), id, RecordAt(s, id).(settlement := v))
  {
  }

  lemma DustWritten(s: Storage, id: string, v: int)
    ensures Wrote(s, s.(dust := s.dust[id := v]), id, RecordAt(s, id).(dust := Some(v)))
  {
  }

  lemma StatusWritten(s: Storage, id: string, v: Status)
    ensures Wrote(s, s.(statuses := s.statuses[id := v]), id, RecordAt(s, id).(status := v))
  {
  }

  lemma JournalWritten(s: Storage, id: string, v: seq<JournalEntry>)
    ensures Wrote(s, s.(journals := s.journals[id := v]), id, RecordAt(s, id).(journal := v))
  {
  }
}
