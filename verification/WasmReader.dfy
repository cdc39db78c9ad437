/** The export reader itself: its three loops, proved against the module layer. */
module WasmReader {
  import opened Prelude
  import opened WasmModule
  import Leb128
  import Utf8

  // ---- Bit accumulation ------------------------------------------------------

  function Pow2(n: nat): (p: nat)
    ensures p > 0
  {
    if n == 0 then 1 else 2 * Pow2(n - 1)
  }

  /** `result | (bits << shift)`: the shifted bits lie above `result`, so or-ing adds. */
  function OrShifted(result: nat, bits: nat, shift: nat): nat
    requires result < Pow2(shift)
  {
    result + Pow2(shift) * bits
  }

  lemma ShiftBySeven(shift: nat, result: nat, bits: nat, rest: nat)
    requires result < Pow2(shift) && bits < 128
    ensures OrShifted(result, bits, shift) < Pow2(shift + 7)
    ensures OrShifted(result, bits, shift) + Pow2(shift + 7) * rest == result + Pow2(shift) * (bits + 128 * rest)
  {
    var p := Pow2(shift);
    assert Pow2(shift + 7) == 128 * p by {
      assert Pow2(shift + 1) == 2 * p && Pow2(shift + 2) == 4 * p && Pow2(shift + 3) == 8 * p;
      assert Pow2(shift + 4) == 16 * p && Pow2(shift + 5) == 32 * p && Pow2(shift + 6) == 64 * p;
    }
    assert p * bits <= p * 127;
    assert p * (bits + 128 * rest) == p * bits + (128 * p) * rest;
  }

  /** Reads one integer; fails exactly when the data ends before a byte with a clear top bit. */
  method ReadUleb128(data: seq<byte>, offset: nat) returns (r: Result<(nat, nat), WasmError>)
    ensures match Leb128.Decode(data, offset)
            case None => r == Err(Truncated)
            case Some(d) => r == Ok((d.value, d.next))
  {
    var result: nat, shift: nat, pos: nat := 0, 0, offset;
    while true
      invariant offset <= pos && result < Pow2(shift)
      invariant match Leb128.Decode(data, pos)
                case None => Leb128.Decode(data, offset).None?
                case Some(d) =>
                  Leb128.Decode(data, offset).Some?
                  && Leb128.Decode(data, offset).value.value == result + Pow2(shift) * d.value
                  && Leb128.Decode(data, offset).value.next == d.next
      decreases |data| - pos
    {
      if pos >= |data| {
        return Err(Truncated);
      }
      var b: int := data[pos];
      pos := pos + 1;
      ghost var rest := Leb128.Decode(data, pos);
      ShiftBySeven(shift, result, b % 128, if b < 128 || rest.None? then 0 else rest.value.value);
      result := OrShifted(result, b % 128, shift);
      if b < 128 {
        return Ok((result, pos));
      }
      shift := shift + 7;
    }
  }

  // ---- Export section --------------------------------------------------------

  lemma {:induction false} FunctionNamesAppend(es: seq<Export>, e: Export)
    ensures FunctionNames(es + [e])
            == FunctionNames(es) + (if e.kind == EXPORT_KIND_FUNCTION then [e.name] else [])
    decreases |es|
  {
    if es == [] {
      assert es + [e] == [e];
    } else {
      assert (es + [e])[1..] == es[1..] + [e];
      FunctionNamesAppend(es[1..], e);
    }
  }

  /** How the parse of the remaining entries completes the entries already read. */
  function Prepend(done: seq<Export>, rest: Result<(seq<Export>, nat), WasmError>): Result<(seq<Export>, nat),
                   WasmError> {
    match rest
    case Err(e) => Err(e)
    case Ok((es, end)) => Ok((done + es, end))
  }

  /** The body of the loop over export entries. */
  method ReadExport(data: seq<byte>, offset: nat) returns (r: Result<(string, byte, nat), WasmError>)
    ensures match ParseExport(data, offset)
            case Err(e) => r == Err(e)
            case Ok((e, next)) => r == Ok((e.name, e.kind, next))
  {
    hide Leb128.Decode, Utf8.Decode;
    var lenResult := ReadUleb128(data, offset);
    if lenResult.Err? {
      return Err(lenResult.error);
    }
    var (nameLen, nameAt) := lenResult.value;
    var name := Utf8.Decode(data[nameAt..Min(nameAt + nameLen, |data|)]);
    if name.None? {
      return Err(NameNotUtf8);
    }
    var kindAt := nameAt + nameLen;
    if kindAt >= |data| {
      return Err(KindMissing);
    }
    var indexResult := ReadUleb128(data, kindAt + 1);
    if indexResult.Err? {
      return Err(indexResult.error);
    }
    return Ok((name.value, data[kindAt], indexResult.value.1));
  }

  method ReadExportSection(data: seq<byte>, offset: nat, end: nat, ghost sizePad: nat)
    returns (r: Result<seq<string>, WasmError>)
    ensures match ParseExportSection(data, offset, end, sizePad)
            case Err(e) => r == Err(e)
            case Ok(s) => s.Exports? && r == Ok(FunctionNames(s.entries))
  {
    hide Leb128.Decode, ParseExport;
    var head := ReadUleb128(data, offset);
    if head.Err? {
      return Err(head.error);
    }
    var (count, start) := head.value;
    var pos := start;
    ghost var done: seq<Export> := [];
    var names := [];
    PrependNothing(ParseExports(data, start, count));
    for i := 0 to count
      invariant names == FunctionNames(done)
      invariant ParseExports(data, start, count) == Prepend(done, ParseExports(data, pos, count - i))
    {
      var entry := ReadExport(data, pos);
      if entry.Err? {
        return Err(entry.error);
      }
      var (name, kind, next) := entry.value;
      if kind == EXPORT_KIND_FUNCTION {
        names := names + [name];
      }
      ghost var e := ParseExport(data, pos).value.0;
      FunctionNamesAppend(done, e);
      PrependStep(data, pos, count - i, done);
      done := done + [e];
      pos := next;
    }
    assert done + [] == done;
    if pos != end {
      return Err(SizeMismatch);
    }
    return Ok(names);
  }

  lemma PrependNothing(rest: Result<(seq<Export>, nat), WasmError>)
    ensures Prepend([], rest) == rest
  {
    if rest.Ok? {
      assert [] + rest.value.0 == rest.value.0;
    }
  }

  lemma PrependStep(data: seq<byte>, pos: nat, left: nat, done: seq<Export>)
    requires left > 0 && ParseExport(data, pos).Ok?
    ensures var (e, next) := ParseExport(data, pos).value;
            Prepend(done, ParseExports(data, pos, left)) == Prepend(done + [e], ParseExports(data, next, left - 1))
  {
    hide ParseExport;
    var (e, next) := ParseExport(data, pos).value;
    if ParseExports(data, next, left - 1).Ok? {
      var rest := ParseExports(data, next, left - 1).value.0;
      assert done + ([e] + rest) == done + [e] + rest;
    }
  }

  // ---- Sorting ---------------------------------------------------------------

  predicate LexLeq(a: string, b: string) {
    a == [] || (b != [] && (a[0] < b[0] || (a[0] == b[0] && LexLeq(a[1..], b[1..]))))
  }

  lemma {:induction false} LexTotal(a: string, b: string)
    ensures LexLeq(a, b) || LexLeq(b, a)
    decreases |a|
  {
    if a != [] && b != [] && a[0] == b[0] {
      LexTotal(a[1..], b[1..]);
    }
  }

  lemma {:induction false} LexTransitive(a: string, b: string, c: string)
    requires LexLeq(a, b) && LexLeq(b, c)
    ensures LexLeq(a, c)
    decreases |a|
  {
    if a != [] && a[0] == b[0] == c[0] {
      LexTransitive(a[1..], b[1..], c[1..]);
    }
  }

  ghost predicate Sorted(s: seq<string>) {
    forall i, j :: 0 <= i <= j < |s| ==> LexLeq(s[i], s[j])
  }

  /** `sorted` puts one more name into a sorted list. */
  method Insert(s: seq<string>, x: string) returns (r: seq<string>)
    requires Sorted(s)
    ensures Sorted(r) && multiset(r) == multiset(s) + multiset{x}
  {
    var i := 0;
    while i < |s| && LexLeq(s[i], x)
      invariant 0 <= i <= |s|
      invariant forall j :: 0 <= j < i ==> LexLeq(s[j], x)
    {
      i := i + 1;
    }
    r := s[..i] + [x] + s[i..];
    LexTotal(x, x);
    if i < |s| {
      LexTotal(x, s[i]);
      forall j | i <= j < |s|
        ensures LexLeq(x, s[j])
      {
        LexTransitive(x, s[i], s[j]);
      }
    }
    assert s == s[..i] + s[i..];
  }

  method SortNames(names: seq<string>) returns (r: seq<string>)
    ensures Sorted(r) && multiset(r) == multiset(names)
  {
    r := [];
    for i := 0 to |names|
      invariant Sorted(r) && multiset(r) == multiset(names[..i])
    {
      r := Insert(r, names[i]);
      assert names[..i + 1] == names[..i] + [names[i]];
    }
    assert names[..|names|] == names;
  }

  ghost predicate SortedNamesOf(r: seq<string>, m: Module) {
    Sorted(r) && multiset(r) == multiset(LastExported(m.sections, []))
  }

  // ---- Module walk -----------------------------------------------------------

  /** The names that reading from `offset` on will report, when `names` is the latest list read so far. */
  function Reported(data: seq<byte>, offset: nat, names: seq<string>): Result<seq<string>, WasmError> {
    match ParseSections(data, offset)
    case Err(e) => Err(e)
    case Ok(ss) => Ok(LastExported(ss, names))
  }

  lemma ReportedStep(data: seq<byte>, offset: nat, names: seq<string>)
    requires offset < |data|
    ensures match Leb128.Decode(data, offset + 1)
            case None => Reported(data, offset, names) == Err(Truncated)
            case Some(size) =>
              var end := size.next + size.value;
              if end > |data| then Reported(data, offset, names) == Err(SectionOverrun)
              else if data[offset] != EXPORT_SECTION_ID then Reported(data, offset, names) == Reported(data, end, names)
              else
                match ParseExportSection(data, size.next, end, size.pad)
                case Err(e) => Reported(data, offset, names) == Err(e)
                case Ok(s) =>
                  s.Exports? && Reported(data, offset, names) == Reported(data, end, FunctionNames(s.entries))
  {
    hide Leb128.Decode, ParseExports, FunctionNames;
    if ParseSections(data, offset).Ok? {
      var ss := ParseSections(data, offset).value;
      var size := Leb128.Decode(data, offset + 1).value;
      assert ss == [ss[0]] + ss[1..] && ss[1..] == ParseSections(data, size.next + size.value).value;
    }
  }

  method WalkSections(data: seq<byte>) returns (r: Result<seq<string>, WasmError>)
    requires |data| >= 8
    ensures r == Reported(data, 8, [])
  {
    hide Leb128.Decode, Reported, ParseExportSection, ParseSections, FunctionNames;
    var offset := 8;
    var names: seq<string> := [];
    while offset < |data|
      invariant 8 <= offset <= |data|
      invariant Reported(data, offset, names) == Reported(data, 8, [])
      decreases |data| - offset
    {
      ReportedStep(data, offset, names);
      var sizeResult := ReadUleb128(data, offset + 1);
      if sizeResult.Err? {
        return Err(sizeResult.error);
      }
      var (size, bodyAt) := sizeResult.value;
      var sectionEnd := bodyAt + size;
      if sectionEnd > |data| {
        return Err(SectionOverrun);
      }
      if data[offset] == EXPORT_SECTION_ID {
        var section := ReadExportSection(data, bodyAt, sectionEnd, Leb128.Decode(data, offset + 1).value.pad);
        if section.Err? {
          return Err(section.error);
        }
        names := section.value;
      }
      offset := sectionEnd;
    }
    ReportedAtEnd(data, offset, names);
    return Ok(names);
  }

  lemma ReportedAtEnd(data: seq<byte>, offset: nat, names: seq<string>)
    requires offset >= |data|
    ensures Reported(data, offset, names) == Ok(names)
  {
  }

  /** `extract_function_exports`: succeeds exactly on the encodings of well-formed modules, and then
      returns the sorted function names of the module's (last) export section. */
  method ExtractFunctionExports(data: seq<byte>) returns (r: Result<seq<string>, WasmError>)
    ensures ParseModule(data).Err? ==> r == Err(ParseModule(data).error)
    ensures forall m :: WellFormed(m) && data == EncodeModule(m) ==> r.Ok? && SortedNamesOf(r.value, m)
    ensures r.Ok? ==> exists m :: WellFormed(m) && data == EncodeModule(m) && SortedNamesOf(r.value, m)
  {
    hide ParseSections, EncodeModule, LastExported, WellFormed, Sorted;
    forall m | WellFormed(m) && data == EncodeModule(m)
      ensures ParseModule(data) == Ok(m)
    {
      ParseEncoded(m);
    }
    if |data| < 8 || data[..4] != MAGIC {
      return Err(NotAModule);
    }
    var names := WalkSections(data);
    if names.Err? {
      return Err(names.error);
    }
    EncodeParsed(data);
    var sorted := SortNames(names.value);
    return Ok(sorted);
  }
}
