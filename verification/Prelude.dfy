/** Shared datatypes, machine-integer ranges and finite sums over balance maps. */
module Prelude {

  datatype Option<+T> = None | Some(value: T)

  datatype Result<+T, +E> = Ok(value: T) | Err(error: E)

  type byte = b: int | 0 <= b < 256

  datatype Address = Address(key: nat)

  const U32_MAX := 0xFFFF_FFFF
  const U64_MAX := 0xFFFF_FFFF_FFFF_FFFF
  const U128_LIMIT := 0x1_0000_0000_0000_0000_0000_0000_0000_0000
  const I128_MAX := 0x7FFF_FFFF_FFFF_FFFF_FFFF_FFFF_FFFF_FFFF
  const I128_MIN := -0x8000_0000_0000_0000_0000_0000_0000_0000

  /** Signed 128-bit range; the contracts are built with overflow checks, so leaving it traps. */
  predicate InI128(x: int) {
    I128_MIN <= x <= I128_MAX
  }

  type i128 = x: int | InI128(x) witness 0

  type u32 = x: int | 0 <= x <= U32_MAX

  type u64 = x: int | 0 <= x <= U64_MAX

  function Min(x: int, y: int): int {
    if x <= y then x else y
  }

  /** A storage read with the default value zero. */
  function Lookup<K>(m: map<K, int>, k: K): int {
    if k in m then m[k] else 0
  }

  /** The sum of all values of a map. */
  ghost function Total<K>(m: map<K, int>): int
    decreases |m|
  {
    if m == map[] then 0
    else
      var k :| k in m;
      m[k] + Total(m - {k})
  }

  /** The sum does not depend on which key is taken first. */
  lemma {:induction false} TotalRemove<K>(m: map<K, int>, k: K)
    requires k in m
    ensures Total(m) == m[k] + Total(m - {k})
    decreases |m|
  {
    var j :| j in m && Total(m) == m[j] + Total(m - {j});
    if j != k {
      assert (m - {j}) - {k} == (m - {k}) - {j};
      TotalRemove(m - {j}, k);
      TotalRemove(m - {k}, j);
    }
  }

  lemma TotalUpdate<K>(m: map<K, int>, k: K, v: int)
    ensures Total(m[k := v]) == Total(m) - Lookup(m, k) + v
  {
    var n := m[k := v];
    TotalRemove(n, k);
    if k in m {
      TotalRemove(m, k);
      assert n - {k} == m - {k};
    } else {
      assert n - {k} == m;
    }
  }

  /** Sums of maps add up key by key. */
  lemma {:induction false} TotalAdd<K>(f: map<K, int>, g: map<K, int>, h: map<K, int>)
    requires f.Keys == g.Keys + h.Keys
    requires forall k :: k in f ==> f[k] == Lookup(g, k) + Lookup(h, k)
    ensures Total(f) == Total(g) + Total(h)
    decreases |f|
  {
    hide Total;
    if f == map[] {
      assert g.Keys == {} && h.Keys == {};
      assert g == map[] && h == map[];
      TotalNothing<K>();
    } else {
      var k :| k in f;
      RemovedKeys(f, g, h, k);
      TotalAdd(f - {k}, g - {k}, h - {k});
      TotalRemove(f, k);
      TotalWithout(g, k);
      TotalWithout(h, k);
    }
  }

  lemma TotalNothing<K>()
    ensures Total<K>(map[]) == 0
  {
  }

  lemma RemovedKeys<K>(f: map<K, int>, g: map<K, int>, h: map<K, int>, k: K)
    requires f.Keys == g.Keys + h.Keys && k in f
    ensures (f - {k}).Keys == (g - {k}).Keys + (h - {k}).Keys && |f - {k}| < |f|
  {
    KeysWithout(f, k);
    KeysWithout(g, k);
    KeysWithout(h, k);
  }

  lemma KeysWithout<K>(m: map<K, int>, k: K)
    ensures (m - {k}).Keys == m.Keys - {k}
    ensures k in m ==> |m - {k}| < |m|
  {
  }

  lemma TotalWithout<K>(m: map<K, int>, k: K)
    ensures Total(m) == Lookup(m, k) + Total(m - {k})
  {
    if k in m {
      TotalRemove(m, k);
    } else {
      assert m - {k} == m;
    }
  }

  lemma {:induction false} TotalMonotone<K>(f: map<K, int>, g: map<K, int>)
    requires f.Keys == g.Keys && forall k :: k in f ==> f[k] <= g[k]
    ensures Total(f) <= Total(g)
    decreases |f|
  {
    if f == map[] {
      assert g == map[];
    } else {
      var k :| k in f;
      TotalMonotone(f - {k}, g - {k});
      TotalRemove(f, k);
      TotalRemove(g, k);
    }
  }

  /** Reads a balance and writes it back, raised by an amount. */
  function Credit(balances: map<Address, int>, a: Address, amount: int): map<Address, int> {
    balances[a := Lookup(balances, a) + amount]
  }

  lemma CreditTotal(balances: map<Address, int>, a: Address, amount: int)
    ensures Total(Credit(balances, a, amount)) == Total(balances) + amount
  {
    TotalUpdate(balances, a, Lookup(balances, a) + amount);
  }

  ghost predicate NonNegative<K>(m: map<K, int>) {
    forall k :: k in m ==> m[k] >= 0
  }

  /** One non-negative entry never exceeds the sum. */
  lemma {:induction false} TotalBounds<K>(m: map<K, int>, k: K)
    requires NonNegative(m)
    ensures 0 <= Lookup(m, k) <= Total(m)
    decreases |m|, k !in m
  {
    if k in m {
      TotalRemove(m, k);
      if m - {k} != map[] {
        var j :| j in m - {k};
        TotalBounds(m - {k}, j);
      }
    } else if m != map[] {
      var j :| j in m;
      TotalBounds(m, j);
    }
  }

  lemma {:induction false} TotalZero<K>(m: map<K, int>)
    requires NonNegative(m) && Total(m) == 0
    ensures forall k :: k in m ==> m[k] == 0
  {
    forall k | k in m
      ensures m[k] == 0
    {
      TotalBounds(m, k);
    }
  }

  lemma {:induction false} TotalOfZeros<K>(m: map<K, int>)
    requires forall k :: k in m ==> m[k] == 0
    ensures Total(m) == 0
    decreases |m|
  {
    if m != map[] {
      var k :| k in m;
      TotalRemove(m, k);
      TotalOfZeros(m - {k});
    }
  }
}
