/** The block and allow lists of the compliance engine (contracts/compliance-engine/src/lib.rs): an entry flag for each
    address, and numbered slots kept dense by moving the last member into the slot of a removed one. */
module MemberLists {
  import opened Prelude

  // ---- Lists of distinct addresses ----------------------------------------------------

  ghost predicate Distinct(s: seq<Address>) {
    forall i, j :: 0 <= i < j < |s| ==> s[i] != s[j]
  }

  function Elements(s: seq<Address>): set<Address> {
    set a | a in s
  }

  function Added(s: seq<Address>, a: Address): seq<Address> {
    if a in s then s else s + [a]
  }

  function Position(s: seq<Address>, a: Address): (i: nat)
    requires a in s
    ensures i < |s| && s[i] == a
  {
    if s[0] == a then 0 else 1 + Position(s[1..], a)
  }

  /** The last member takes the place of the removed one. */
  function Removed(s: seq<Address>, a: Address): seq<Address> {
    if a in s then s[Position(s, a) := s[|s| - 1]][..|s| - 1] else s
  }

  /** The members followed by the legacy list, each address once. */
  function Migrated(s: seq<Address>, legacy: seq<Address>): seq<Address> {
    if legacy == [] then s else Added(Migrated(s, legacy[..|legacy| - 1]), legacy[|legacy| - 1])
  }

  lemma AddedElements(s: seq<Address>, a: Address)
    requires Distinct(s)
    ensures Distinct(Added(s, a)) && Elements(Added(s, a)) == Elements(s) + {a}
  {
  }

  lemma RemovedElements(s: seq<Address>, a: Address)
    requires Distinct(s)
    ensures Distinct(Removed(s, a)) && Elements(Removed(s, a)) == Elements(s) - {a}
    ensures |Removed(s, a)| == if a in s then |s| - 1 else |s|
  {
    if a in s {
      var p, last := Position(s, a), |s| - 1;
      var r := Removed(s, a);
      forall b
        ensures b in r <==> b in s && b != a
      {
        if b in s && b != a {
          var i :| 0 <= i < |s| && s[i] == b;
          assert r[if i == last then p else i] == b;
        }
      }
    }
  }

  /** The migration yields the old members in place, then exactly the legacy addresses that were missing. */
  lemma {:induction false} MigratedElements(s: seq<Address>, legacy: seq<Address>)
    requires Distinct(s)
    ensures Distinct(Migrated(s, legacy)) && s <= Migrated(s, legacy)
    ensures Elements(Migrated(s, legacy)) == Elements(s) + Elements(legacy)
    decreases |legacy|
  {
    if legacy != [] {
      var init, a := legacy[..|legacy| - 1], legacy[|legacy| - 1];
      MigratedElements(s, init);
      AddedElements(Migrated(s, init), a);
      assert Elements(legacy) == Elements(init) + {a};
    }
  }

  // ---- Pages ---------------------------------------------------------------------------

  function Page(s: seq<Address>, page: nat, size: nat): seq<Address> {
    var start := page * size;
    if start < |s| then s[start..Min(start + size, |s|)] else []
  }

  function Pages(s: seq<Address>, count: nat, size: nat): seq<Address> {
    if count == 0 then [] else Pages(s, count - 1, size) + Page(s, count - 1, size)
  }

  /** The first pages, one after the other, are a prefix of the list: the whole list once they cover it. */
  lemma {:induction false} PagesConcatenate(s: seq<Address>, count: nat, size: nat)
    ensures Pages(s, count, size) == s[..Min(count * size, |s|)]
  {
    if count > 0 {
      PagesConcatenate(s, count - 1, size);
      assert count * size == (count - 1) * size + size;
    }
  }

  // ---- Storage ----------------------------------------------------------------------------

  class MemberList {
    var entries: set<Address>
    var size: nat
    var members: map<nat, Address>

    /** The members in slot order. */
    ghost var contents: seq<Address>

    /** The slots below `size` hold the contents and nothing else is stored; flags are set for exactly these. */
    ghost predicate Valid()
      reads this
    {
      && size == |contents| <= U32_MAX && Distinct(contents) && entries == Elements(contents)
      && (forall i :: 0 <= i < size ==> i in members && members[i] == contents[i])
      && (forall i: nat :: i in members ==> i < size)
    }

    constructor ()
      ensures Valid() && contents == []
    {
      entries, size, members, contents := {}, 0, map[], [];
    }

    /** A flag is set exactly when the address sits in exactly one slot, which is below the size. */
    lemma FlagMeansOneSlot(a: Address)
      requires Valid()
      ensures a in entries <==> exists i :: i in members && members[i] == a
      ensures forall i, j :: i in members && j in members && members[i] == a && members[j] == a ==> i == j
      ensures forall i: nat :: i in members <==> i < size
    {
      if a in entries {
        assert a in contents;
        var i :| 0 <= i < size && contents[i] == a;
        assert members[i] == a;
      }
    }

    /** Traps when the counter is full. */
    method Add(a: Address) returns (trap: bool)
      requires Valid() && a !in entries
      modifies this
      ensures Valid() && trap == (|old(contents)| == U32_MAX)
      ensures contents == if trap then old(contents) else Added(old(contents), a)
    {
      if size == U32_MAX {
        return true;
      }
      AddedElements(contents, a);
      entries := entries + {a};
      members := members[size := a];
      size := size + 1;
      contents := contents + [a];
      trap := false;
    }

    /** Finds the slot by a scan, whose reads never fail, and moves the last member there. */
    method Remove(a: Address)
      requires Valid() && a in entries
      modifies this
      ensures Valid() && contents == Removed(old(contents), a)
    {
      RemovedElements(contents, a);
      entries := entries - {a};
      var pos: nat := U32_MAX;
      for i := 0 to size
        invariant pos == U32_MAX && forall j :: 0 <= j < i ==> contents[j] != a
        invariant members == old(members) && size == old(size) && contents == old(contents)
        invariant entries == old(entries) - {a}
      {
        if members[i] == a {
          pos := i;
          break;
        }
      }
      OnlyPosition(contents, a, pos);
      var newSize := size - 1;
      if pos < newSize {
        members := members[pos := members[newSize]];
      }
      members := members - {newSize};
      size := newSize;
      contents := Removed(contents, a);
    }

    lemma OnlyPosition(s: seq<Address>, a: Address, pos: nat)
      requires Distinct(s) && pos < |s| && s[pos] == a
      ensures Position(s, a) == pos
    {
    }

    /** The host's rollback of a failed call: puts back what was stored before it. */
    method Restore(entries0: set<Address>, size0: nat, members0: map<nat, Address>, ghost contents0: seq<Address>)
      modifies this
      ensures entries == entries0 && size == size0 && members == members0 && contents == contents0
    {
      entries, size, members, contents := entries0, size0, members0, contents0;
    }

    /** One page; `None` when its bounds overflow. */
    method GetPage(page: nat, pageSize: nat) returns (r: Option<seq<Address>>)
      requires Valid()
      ensures r == if (page + 1) * pageSize > U32_MAX then None else Some(Page(contents, page, pageSize))
    {
      var start := page * pageSize;
      assert (page + 1) * pageSize == start + pageSize;
      if start > U32_MAX || start + pageSize > U32_MAX {
        return None;
      }
      var end := Min(start + pageSize, size);
      var out := [];
      var i := start;
      while i < end
        invariant i == start || start < i <= end
        invariant out == if start < i then contents[start..i] else []
      {
        if i in members {
          out := out + [members[i]];
        }
        i := i + 1;
      }
      r := Some(out);
    }

    /** The loop of the version 2 migration; addresses that have a flag already are skipped. */
    method Migrate(legacy: seq<Address>) returns (trap: bool)
      requires Valid()
      modifies this
      ensures trap == (|Migrated(old(contents), legacy)| > U32_MAX)
      ensures !trap ==> Valid() && contents == Migrated(old(contents), legacy)
    {
      for i := 0 to |legacy|
        invariant Valid() && contents == Migrated(old(contents), legacy[..i])
      {
        var a := legacy[i];
        assert legacy[..i + 1][..i] == legacy[..i];
        if a !in entries {
          MigratedGrows(old(contents), legacy, i + 1);
          trap := Add(a);
          if trap {
            return;
          }
        }
      }
      assert legacy[..|legacy|] == legacy;
      trap := false;
    }
  }

  lemma {:induction false} MigratedGrows(s: seq<Address>, legacy: seq<Address>, k: nat)
    requires k <= |legacy|
    ensures |Migrated(s, legacy[..k])| <= |Migrated(s, legacy)|
    decreases |legacy|
  {
    if k < |legacy| {
      var init := legacy[..|legacy| - 1];
      assert init[..k] == legacy[..k];
      MigratedGrows(s, init, k);
    } else {
      assert legacy[..k] == legacy;
    }
  }
}
