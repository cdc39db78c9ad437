/** The numbers of the binary format that the reader relies on (sections 5.2.2, 5.5.2 and 5.5.10 of the WebAssembly Core
    Specification), stated without the names that encoder and grammar share. */
module WasmFormat {
  import opened Prelude
  import opened Checklists
  import opened WasmModule
  import WasmReader
  import Leb128
  import Utf8

  // ---- Which entries are functions ---------------------------------------------------------

  /** The entries of one name whose kind byte is zero. */
  function FunctionEntries(es: seq<Export>, name: string): set<nat> {
    set i: nat | i < |es| && es[i].name == name && es[i].kind == 0
  }

  lemma FunctionEntriesSplit(es: seq<Export>, name: string)
    requires es != []
    ensures |FunctionEntries(es, name)|
            == (if es[0].name == name && es[0].kind == 0 then 1 else 0) + |FunctionEntries(es[1..], name)|
  {
    var here := if es[0].name == name && es[0].kind == 0 then {0} else {};
    var later := set i: nat | i in FunctionEntries(es[1..], name) :: i + 1;
    assert FunctionEntries(es, name) == here + later by {
      forall i: nat | i in FunctionEntries(es, name)
        ensures i in here + later
      {
        if i > 0 {
          assert i - 1 in FunctionEntries(es[1..], name);
        }
      }
    }
    SameSize(FunctionEntries(es[1..], name), later);
  }

  lemma {:induction false} SameSize(s: set<nat>, t: set<nat>)
    requires t == set i: nat | i in s :: i + 1
    ensures |t| == |s|
    decreases s
  {
    if s != {} {
      var x :| x in s;
      var rest := set i: nat | i in s - {x} :: i + 1;
      assert x + 1 in t;
      forall y | y in t
        ensures y in rest + {x + 1}
      {
        var i: nat :| i in s && i + 1 == y;
        assert i == x || i in s - {x};
      }
      assert t == rest + {x + 1} && x + 1 !in rest;
      SameSize(s - {x}, rest);
    }
  }

  /** A name is reported exactly as often as there are entries of that name and of kind zero. */
  lemma {:induction false} ReportedAsOften(es: seq<Export>, name: string)
    ensures multiset(FunctionNames(es))[name] == |FunctionEntries(es, name)|
    decreases |es|
  {
    if es != [] {
      ReportedAsOften(es[1..], name);
      FunctionEntriesSplit(es, name);
      assert FunctionNames(es) == (if es[0].kind == 0 then [es[0].name] else []) + FunctionNames(es[1..]);
    }
  }

  /** The names are those of the last export section, whatever comes before it. */
  lemma {:induction false} LastSectionDecides(ss: seq<Section>, k: nat, names: seq<string>)
    requires k < |ss| && ss[k].Exports? && forall i :: k < i < |ss| ==> ss[i].Other?
    ensures LastExported(ss, names) == FunctionNames(ss[k].entries)
    decreases |ss|
  {
    if k == 0 {
      forall s | s in ss[1..]
        ensures s.Other?
      {
        var i :| 0 <= i < |ss| - 1 && ss[1..][i] == s;
        assert ss[i + 1] == s;
      }
      LastExportedOfOthers(ss[1..], FunctionNames(ss[0].entries));
    } else {
      LastSectionDecides(ss[1..], k - 1, if ss[0].Exports? then FunctionNames(ss[0].entries) else names);
    }
  }

  // ---- The first bytes ------------------------------------------------------------------------

  /** A module starts with a zero byte and "asm"; in a well-formed one a section starts with byte seven exactly if it is
      an export section. */
  lemma FirstBytes(m: Module, s: Section)
    requires WellFormed(m) && s in m.sections
    ensures EncodeModule(m)[..4] == [0x00, 0x61, 0x73, 0x6D]
    ensures |EncodeSection(s)| > 0 && (EncodeSection(s)[0] == 7 <==> s.Exports?)
  {
  }

  // ---- Integers ---------------------------------------------------------------------------------

  /** The little-endian value of groups of seven bits. */
  function GroupsOfSeven(bs: seq<byte>): nat {
    if bs == [] then 0 else bs[0] % 128 + 128 * GroupsOfSeven(bs[1..])
  }

  /** An integer is read from the bytes up to the first one below 128, seven bits of each, the lowest first. */
  lemma {:induction false} DecodedValue(data: seq<byte>, offset: nat)
    requires Leb128.Decode(data, offset).Some?
    ensures var d := Leb128.Decode(data, offset).value;
            && d.value == GroupsOfSeven(data[offset..d.next]) && data[d.next - 1] < 128
            && forall i :: offset <= i < d.next - 1 ==> data[i] >= 128
    decreases |data| - offset
  {
    var d := Leb128.Decode(data, offset).value;
    assert data[offset..d.next][0] == data[offset] && data[offset..d.next][1..] == data[offset + 1..d.next];
    if data[offset] >= 128 {
      DecodedValue(data, offset + 1);
    } else {
      assert GroupsOfSeven(data[offset + 1..d.next]) == 0;
    }
  }

  /** It fails exactly when every byte from there on is at least 128. */
  lemma {:induction false} DecodeFails(data: seq<byte>, offset: nat)
    ensures Leb128.Decode(data, offset).None? <==> forall i :: offset <= i < |data| ==> data[i] >= 128
    decreases |data| - offset
  {
    if offset < |data| && data[offset] >= 128 {
      DecodeFails(data, offset + 1);
    }
  }

  // ---- Names --------------------------------------------------------------------------------------

  /** One text with a character of each encoded length. */
  lemma EncodedLengths()
    ensures Utf8.Encode("$\U{00A2}\U{20AC}\U{10348}") == [0x24, 0xC2, 0xA2, 0xE2, 0x82, 0xAC, 0xF0, 0x90, 0x8D, 0x88]
  {
    var text := "$\U{00A2}\U{20AC}\U{10348}";
    assert text[1..] == "\U{00A2}\U{20AC}\U{10348}" && text[1..][1..] == "\U{20AC}\U{10348}";
    assert text[1..][1..][1..] == "\U{10348}" && text[1..][1..][1..][1..] == "";
    assert Utf8.Encode("\U{10348}") == [0xF0, 0x90, 0x8D, 0x88];
    assert Utf8.Encode("\U{20AC}\U{10348}") == [0xE2, 0x82, 0xAC] + [0xF0, 0x90, 0x8D, 0x88];
    assert Utf8.Encode("\U{00A2}\U{20AC}\U{10348}") == [0xC2, 0xA2] + [0xE2, 0x82, 0xAC, 0xF0, 0x90, 0x8D, 0x88];
  }

  /** `i` is the first place where both texts differ, and there `a` has the smaller character. */
  predicate DiffersBelow(a: string, b: string, i: nat) {
    i < |a| && i < |b| && a[..i] == b[..i] && a[i] < b[i]
  }

  lemma SameStart(a: string, b: string, i: nat)
    requires DiffersBelow(a, b, i) && i > 0
    ensures a[0] == b[0]
  {
    assert a[..i][0] == a[0] && b[..i][0] == b[0];
  }

  /** The order of the report: a prefix first, otherwise by the first character that differs. */
  lemma {:induction false} OrderOfNames(a: string, b: string)
    ensures WasmReader.LexLeq(a, b) <==> a <= b || exists i: nat :: DiffersBelow(a, b, i)
    decreases |a|
  {
    if a != [] && b != [] {
      if a[0] == b[0] {
        OrderOfNames(a[1..], b[1..]);
        assert a == [a[0]] + a[1..] && b == [b[0]] + b[1..];
        if a <= b {
          assert a[1..] <= b[1..];
        }
        if a[1..] <= b[1..] {
          assert a <= b;
        }
        if i: nat :| DiffersBelow(a[1..], b[1..], i) {
          assert a[..i + 1] == [a[0]] + a[1..][..i] && b[..i + 1] == [b[0]] + b[1..][..i];
          assert DiffersBelow(a, b, i + 1);
        }
        if i: nat :| DiffersBelow(a, b, i) {
          assert i > 0;
          assert a[1..][..i - 1] == a[..i][1..] && b[1..][..i - 1] == b[..i][1..];
          assert DiffersBelow(a[1..], b[1..], i - 1);
        }
      } else {
        if a[0] < b[0] {
          assert DiffersBelow(a, b, 0);
        }
        if i: nat :| DiffersBelow(a, b, i) {
          if i > 0 {
            SameStart(a, b, i);
          }
        }
      }
    }
  }

  // ---- Malformed data ----------------------------------------------------------------------------

  /** An integer starts at a place exactly if there is a byte below 128 from there on. */
  ghost predicate HasInteger(data: seq<byte>, offset: nat) {
    exists i: nat :: offset <= i < |data| && data[i] < 128
  }

  /** The place after the integer: behind the first byte below 128. */
  function IntegerEnd(data: seq<byte>, offset: nat): (end: nat)
    requires HasInteger(data, offset)
    ensures offset < end <= |data| && data[end - 1] < 128 && forall i :: offset <= i < end - 1 ==> data[i] >= 128
    decreases |data| - offset
  {
    if data[offset] < 128 then offset + 1 else IntegerEnd(data, offset + 1)
  }

  function IntegerValue(data: seq<byte>, offset: nat): nat
    requires HasInteger(data, offset)
  {
    GroupsOfSeven(data[offset..IntegerEnd(data, offset)])
  }

  lemma IntegerIsDecoded(data: seq<byte>, offset: nat)
    ensures HasInteger(data, offset) <==> Leb128.Decode(data, offset).Some?
    ensures HasInteger(data, offset) ==>
              var d := Leb128.Decode(data, offset).value;
              d.next == IntegerEnd(data, offset) && d.value == IntegerValue(data, offset)
  {
    hide Leb128.Decode, GroupsOfSeven;
    DecodeFails(data, offset);
    if HasInteger(data, offset) {
      DecodedValue(data, offset);
      var d, end := Leb128.Decode(data, offset).value, IntegerEnd(data, offset);
      assert d.next <= |data| && data[d.next - 1] < 128;
      assert d.next == end;
    }
  }

  ghost predicate IsText(bytes: seq<byte>) {
    exists text: string :: Utf8.Encode(text) == bytes
  }

  lemma TextIsDecoded(bytes: seq<byte>)
    ensures IsText(bytes) <==> Utf8.Decode(bytes).Some?
  {
    if Utf8.Decode(bytes).Some? {
      Utf8.EncodeDecode(bytes);
    }
    if IsText(bytes) {
      var text: string :| Utf8.Encode(text) == bytes;
      Utf8.DecodeEncode(text);
    }
  }

  /** What an export entry needs, in the order in which it is read: the length of its name, a name, a kind byte and an
      index. A name that runs past the end of the data is cut there. */
  ghost function EntryChecks(data: seq<byte>, offset: nat): seq<Check<WasmError>> {
    if !HasInteger(data, offset) then [Check(false, Truncated)]
    else
      var at := IntegerEnd(data, offset);
      var kindAt := at + IntegerValue(data, offset);
      [Check(IsText(data[at..if kindAt <= |data| then kindAt else |data|]), NameNotUtf8),
       Check(kindAt < |data|, KindMissing), Check(HasInteger(data, kindAt + 1), Truncated)]
  }

  /** An entry fails with the error of the first thing that is missing. */
  lemma EntryFails(data: seq<byte>, offset: nat, error: WasmError)
    ensures ParseExport(data, offset) == Err(error) <==> FailsFirst(EntryChecks(data, offset), error)
    ensures ParseExport(data, offset).Ok? <==> AllPass(EntryChecks(data, offset))
  {
    hide First, FailsFirst, AllPass, HasInteger, IsText, IntegerValue, Leb128.Decode, Utf8.Decode;
    var cs := EntryChecks(data, offset);
    FirstMeaning(cs, error);
    IntegerIsDecoded(data, offset);
    if HasInteger(data, offset) {
      var at := IntegerEnd(data, offset);
      var kindAt := at + IntegerValue(data, offset);
      FirstOfThree(cs[0], cs[1], cs[2]);
      TextIsDecoded(data[at..if kindAt <= |data| then kindAt else |data|]);
      IntegerIsDecoded(data, kindAt + 1);
    } else {
      FirstOfOne(cs[0]);
    }
  }

  /** Entries fail with the error of the first one that fails. */
  lemma {:induction false} EntriesFail(data: seq<byte>, offset: nat, count: nat, error: WasmError)
    ensures ParseExports(data, offset, count) == Err(error)
            <==> exists k: nat :: FirstBadEntry(data, offset, count, k, error)
    decreases count
  {
    hide ParseExport;
    if count > 0 {
      match ParseExport(data, offset)
      case Err(e) =>
        assert FirstBadEntry(data, offset, count, 0, e);
        assert forall k: nat :: FirstBadEntry(data, offset, count, k, error) ==> k == 0;
      case Ok((first, next)) =>
        var fewer := count - 1;
        EntriesFail(data, next, fewer, error);
        if k: nat :| FirstBadEntry(data, next, fewer, k, error) {
          assert FirstBadEntry(data, offset, count, k + 1, error);
        }
        if k: nat :| FirstBadEntry(data, offset, count, k, error) {
          assert k > 0 && FirstBadEntry(data, next, fewer, k - 1, error);
        }
    }
  }

  /** Entry `k` is reached and fails. */
  predicate FirstBadEntry(data: seq<byte>, offset: nat, count: nat, k: nat, error: WasmError) {
    k < count && ParseExports(data, offset, k).Ok?
    && ParseExport(data, ParseExports(data, offset, k).value.1) == Err(error)
  }

  /** An export section fails without a count, at its first bad entry, or if its entries do not end where it does. */
  lemma SectionFails(data: seq<byte>, offset: nat, end: nat, sizePad: nat, error: WasmError)
    ensures ParseExportSection(data, offset, end, sizePad) == Err(error) <==>
              if !HasInteger(data, offset) then error == Truncated
              else
                var entries := ParseExports(data, IntegerEnd(data, offset), IntegerValue(data, offset));
                entries == Err(error) || (entries.Ok? && entries.value.1 != end && error == SizeMismatch)
  {
    hide Leb128.Decode, ParseExports, IntegerEnd, IntegerValue, HasInteger;
    IntegerIsDecoded(data, offset);
  }

  /** The sections from a place on fail if the first has no size, overruns the data or is a bad export section, and
      otherwise as those behind it do. */
  lemma SectionsFail(data: seq<byte>, offset: nat, error: WasmError)
    requires offset < |data|
    ensures ParseSections(data, offset) == Err(error) <==>
              if !HasInteger(data, offset + 1) then error == Truncated
              else
                var at := IntegerEnd(data, offset + 1);
                var end := at + IntegerValue(data, offset + 1);
                if end > |data| then error == SectionOverrun
                else
                  || (data[offset] == 7 && exists pad: nat :: ParseExportSection(data, at, end, pad) == Err(error))
                  || ((data[offset] == 7 ==> exists pad: nat :: ParseExportSection(data, at, end, pad).Ok?)
                      && ParseSections(data, end) == Err(error))
  {
    hide Leb128.Decode, ParseExportSection, IntegerEnd, IntegerValue, HasInteger;
    IntegerIsDecoded(data, offset + 1);
    if HasInteger(data, offset + 1) {
      var at := IntegerEnd(data, offset + 1);
      var end := at + IntegerValue(data, offset + 1);
      forall pad: nat, other: nat
        ensures SameAnswer(ParseExportSection(data, at, end, pad), ParseExportSection(data, at, end, other))
      {
        PaddingIrrelevant(data, at, end, pad, other);
      }
    }
  }

  predicate SameAnswer(r: Result<Section, WasmError>, other: Result<Section, WasmError>) {
    r.Ok? == other.Ok? && (r.Err? ==> r == other)
  }

  lemma PaddingIrrelevant(data: seq<byte>, offset: nat, end: nat, pad: nat, other: nat)
    ensures SameAnswer(ParseExportSection(data, offset, end, pad), ParseExportSection(data, offset, end, other))
  {
    hide Leb128.Decode, ParseExports;
  }

  /** Data that is no module is told from a module that is malformed. */
  lemma ModuleFails(data: seq<byte>, error: WasmError)
    ensures ParseModule(data) == Err(error) <==>
              if |data| >= 8 && data[..4] == [0x00, 0x61, 0x73, 0x6D] then ParseSections(data, 8) == Err(error)
              else error == NotAModule
  {
    hide ParseSections;
  }

  // ---- A module ------------------------------------------------------------------------------------

  predicate IsAscii(s: string) {
    forall i :: 0 <= i < |s| ==> s[i] as int < 128
  }

  function Ascii(s: string): seq<byte>
    requires IsAscii(s)
  {
    seq(|s|, i requires 0 <= i < |s| => s[i] as byte)
  }

  lemma {:induction false} AsciiIsItself(s: string)
    requires IsAscii(s)
    ensures Utf8.Encode(s) == Ascii(s)
  {
    if s != [] {
      AsciiIsItself(s[1..]);
      assert Ascii(s) == [s[0] as byte] + Ascii(s[1..]);
    }
  }

  const TRANSFER: seq<byte> := [0x74, 0x72, 0x61, 0x6E, 0x73, 0x66, 0x65, 0x72]
  const MEMORY: seq<byte> := [0x6D, 0x65, 0x6D, 0x6F, 0x72, 0x79]

  /** Magic number, version 1, and an export section of 21 bytes: a function "transfer" and a memory "memory". */
  const BYTES: seq<byte> :=
    [0x00, 0x61, 0x73, 0x6D, 0x01, 0x00, 0x00, 0x00]
    + ([0x07, 0x15, 0x02] + ([0x08] + TRANSFER + [0x00, 0x00]) + ([0x06] + MEMORY + [0x02, 0x00]))

  lemma EncodedPair()
    ensures var transfer, memory := Export("transfer", 0, 0, 0, 0), Export("memory", 0, 2, 0, 0);
            && EncodeExport(transfer) == [0x08] + TRANSFER + [0x00, 0x00]
            && EncodeExport(memory) == [0x06] + MEMORY + [0x02, 0x00]
  {
    hide Utf8.Encode, Ascii;
    Spelled();
    AsciiIsItself("transfer");
    AsciiIsItself("memory");
  }

  lemma Spelled()
    ensures IsAscii("transfer") && Ascii("transfer") == TRANSFER
    ensures IsAscii("memory") && Ascii("memory") == MEMORY
  {
  }

  function Pair(): seq<Export> {
    [Export("transfer", 0, 0, 0, 0), Export("memory", 0, 2, 0, 0)]
  }

  lemma EncodedSection()
    ensures EncodeSection(Exports(0, 0, Pair())) == BYTES[8..]
  {
    var es := Pair();
    EncodedPair();
    hide EncodeExport;
    assert es[1..] == [es[1]] && es[1..][1..] == [];
    assert EncodeExports([]) == [];
    assert EncodeExports([es[1]]) == EncodeExport(es[1]) + [];
    assert EncodeExports(es) == EncodeExport(es[0]) + EncodeExports([es[1]]);
    var body := SectionBody(Exports(0, 0, es));
    assert body == [0x02] + EncodeExports(es) && |body| == 21;
    assert Leb128.Encode(21, 0) == [0x15];
  }

  lemma PairNames()
    ensures FunctionNames(Pair()) == ["transfer"]
  {
    var es := Pair();
    assert es[1..] == [es[1]] && es[1..][1..] == [];
    assert FunctionNames([es[1]]) == [];
  }

  /** The reader reports the function, and nothing else. */
  lemma TransferIsReported()
    ensures |BYTES| == 31 && BYTES[..4] == [0x00, 0x61, 0x73, 0x6D]
    ensures WasmReader.Reported(BYTES, 8, []) == Ok(["transfer"])
  {
    var section := Exports(0, 0, Pair());
    EncodedSection();
    PairNames();
    hide EncodeSection, FunctionNames, ParseSections;
    assert [section][1..] == [];
    assert EncodeSections([section]) == EncodeSection(section) + EncodeSections([]);
    assert BYTES[8..] == EncodeSections([section]);
    ParseEncodedSections([section], BYTES, 8);
    assert LastExported([section], []) == FunctionNames(Pair());
  }
}
