/** The module and export-section layer (sections 5.5.2 and 5.5.10 of the WebAssembly Core Specification): an
    encoder, the reader's grammar, and the proof that they undo each other. */
module WasmModule {
  import opened Prelude
  import Leb128
  import Utf8

  datatype Export = Export(name: string, namePad: nat, kind: byte, index: nat, indexPad: nat)

  datatype Section =
    | Other(id: byte, sizePad: nat, payload: seq<byte>)
    | Exports(sizePad: nat, countPad: nat, entries: seq<Export>)

  datatype Module = Module(version: seq<byte>, sections: seq<Section>)

  datatype WasmError = NotAModule | Truncated | SectionOverrun | SizeMismatch | NameNotUtf8 | KindMissing

  const MAGIC: seq<byte> := [0x00, 0x61, 0x73, 0x6D]
  const EXPORT_SECTION_ID: byte := 7
  const EXPORT_KIND_FUNCTION: byte := 0

  // ---- Encoder -------------------------------------------------------------

  predicate WellFormed(m: Module) {
    |m.version| == 4 && forall s :: s in m.sections && s.Other? ==> s.id != EXPORT_SECTION_ID
  }

  function EncodeName(name: string, pad: nat): seq<byte> {
    Leb128.Encode(|Utf8.Encode(name)|, pad) + Utf8.Encode(name)
  }

  function EncodeExport(e: Export): seq<byte> {
    EncodeName(e.name, e.namePad) + ([e.kind] + Leb128.Encode(e.index, e.indexPad))
  }

  function EncodeExports(es: seq<Export>): seq<byte> {
    if es == [] then [] else EncodeExport(es[0]) + EncodeExports(es[1..])
  }

  function SectionId(s: Section): byte {
    if s.Exports? then EXPORT_SECTION_ID else s.id
  }

  function SectionBody(s: Section): seq<byte> {
    match s
    case Other(_, _, payload) => payload
    case Exports(_, countPad, entries) => Leb128.Encode(|entries|, countPad) + EncodeExports(entries)
  }

  function EncodeSection(s: Section): seq<byte> {
    [SectionId(s)] + (Leb128.Encode(|SectionBody(s)|, s.sizePad) + SectionBody(s))
  }

  function EncodeSections(ss: seq<Section>): seq<byte> {
    if ss == [] then [] else EncodeSection(ss[0]) + EncodeSections(ss[1..])
  }

  function EncodeModule(m: Module): seq<byte> {
    MAGIC + m.version + EncodeSections(m.sections)
  }

  /** The names of the function exports, in the order of the section. */
  function FunctionNames(es: seq<Export>): seq<string> {
    if es == [] then []
    else (if es[0].kind == EXPORT_KIND_FUNCTION then [es[0].name] else []) + FunctionNames(es[1..])
  }

  /** The function names of the last export section, or none: a later section replaces an earlier one. */
  function LastExported(ss: seq<Section>, names: seq<string>): seq<string> {
    if ss == [] then names
    else LastExported(ss[1..], if ss[0].Exports? then FunctionNames(ss[0].entries) else names)
  }

  // ---- Grammar of the reader -----------------------------------------------

  /** One export entry. A name running past the end of the data is clamped by the slice, as in Python. */
  function ParseExport(data: seq<byte>, offset: nat): (r: Result<(Export, nat), WasmError>)
    ensures r.Ok? ==> offset < r.value.1 <= |data|
  {
    match Leb128.Decode(data, offset)
    case None => Err(Truncated)
    case Some(len) =>
      var nameEnd := len.next + len.value;
      match Utf8.Decode(data[len.next..Min(nameEnd, |data|)])
      case None => Err(NameNotUtf8)
      case Some(name) =>
        if nameEnd >= |data| then Err(KindMissing)
        else
          match Leb128.Decode(data, nameEnd + 1)
          case None => Err(Truncated)
          case Some(index) =>
            Ok((Export(name, len.pad, data[nameEnd], index.value, index.pad), index.next))
  }

  function ParseExports(data: seq<byte>, offset: nat, count: nat): (r: Result<(seq<Export>, nat), WasmError>)
    ensures r.Ok? ==> |r.value.0| == count && offset <= r.value.1
    ensures r.Ok? && offset <= |data| ==> r.value.1 <= |data|
    decreases count
  {
    if count == 0 then Ok(([], offset))
    else
      match ParseExport(data, offset)
      case Err(e) => Err(e)
      case Ok((first, next)) =>
        match ParseExports(data, next, count - 1)
        case Err(e) => Err(e)
        case Ok((rest, end)) => Ok(([first] + rest, end))
  }

  function ParseExportSection(data: seq<byte>, offset: nat, end: nat, sizePad: nat): Result<Section, WasmError> {
    match Leb128.Decode(data, offset)
    case None => Err(Truncated)
    case Some(count) =>
      match ParseExports(data, count.next, count.value)
      case Err(e) => Err(e)
      case Ok((entries, reached)) =>
        if reached != end then Err(SizeMismatch) else Ok(Exports(sizePad, count.pad, entries))
  }

  function ParseSections(data: seq<byte>, offset: nat): Result<seq<Section>, WasmError>
    decreases |data| - offset
  {
    if offset >= |data| then Ok([])
    else
      match Leb128.Decode(data, offset + 1)
      case None => Err(Truncated)
      case Some(size) =>
        var end := size.next + size.value;
        if end > |data| then Err(SectionOverrun)
        else
          var section := if data[offset] == EXPORT_SECTION_ID
            then ParseExportSection(data, size.next, end, size.pad)
            else Ok(Other(data[offset], size.pad, data[size.next..end]));
          match section
          case Err(e) => Err(e)
          case Ok(s) =>
            match ParseSections(data, end)
            case Err(e) => Err(e)
            case Ok(rest) => Ok([s] + rest)
  }

  function ParseModule(data: seq<byte>): Result<Module, WasmError> {
    if |data| < 8 || data[..4] != MAGIC then Err(NotAModule)
    else
      match ParseSections(data, 8)
      case Err(e) => Err(e)
      case Ok(ss) => Ok(Module(data[4..8], ss))
  }

  // ---- The reader accepts every encoded module and returns it ---------------

  lemma ParseEncodedExport(e: Export, data: seq<byte>, offset: nat)
    requires Leb128.At(data, offset, EncodeExport(e))
    ensures ParseExport(data, offset) == Ok((e, offset + |EncodeExport(e)|))
  {
    hide Leb128.At, Leb128.Encode, Leb128.Decode, Utf8.Encode, Utf8.Decode;
    var text := Utf8.Encode(e.name);
    var len := Leb128.Encode(|text|, e.namePad);
    var index := Leb128.Encode(e.index, e.indexPad);
    var kindAt := offset + |len| + |text|;
    Leb128.AtSplit(data, offset, len + text, [e.kind] + index);
    Leb128.AtSplit(data, offset, len, text);
    Leb128.AtFirst(data, kindAt, e.kind, index);
    Leb128.AtSlice(data, offset + |len|, text);
    Leb128.DecodeEncode(|text|, e.namePad, data, offset);
    Leb128.DecodeEncode(e.index, e.indexPad, data, kindAt + 1);
    Utf8.DecodeEncode(e.name);
  }

  lemma {:induction false} ParseEncodedExports(es: seq<Export>, data: seq<byte>, offset: nat)
    requires Leb128.At(data, offset, EncodeExports(es))
    ensures ParseExports(data, offset, |es|) == Ok((es, offset + |EncodeExports(es)|))
    decreases |es|
  {
    hide Leb128.At, EncodeExport, ParseExport;
    if es != [] {
      Leb128.AtSplit(data, offset, EncodeExport(es[0]), EncodeExports(es[1..]));
      ParseEncodedExport(es[0], data, offset);
      ParseEncodedExports(es[1..], data, offset + |EncodeExport(es[0])|);
      assert [es[0]] + es[1..] == es;
    }
  }

  lemma ParseEncodedExportSection(s: Section, data: seq<byte>, offset: nat)
    requires s.Exports? && Leb128.At(data, offset, SectionBody(s))
    ensures ParseExportSection(data, offset, offset + |SectionBody(s)|, s.sizePad) == Ok(s)
  {
    hide Leb128.At, Leb128.Encode, Leb128.Decode, EncodeExports, ParseExports;
    var count := Leb128.Encode(|s.entries|, s.countPad);
    Leb128.AtSplit(data, offset, count, EncodeExports(s.entries));
    Leb128.DecodeEncode(|s.entries|, s.countPad, data, offset);
    ParseEncodedExports(s.entries, data, offset + |count|);
  }

  /** The size and the content of one encoded section, as the reader finds them. */
  lemma ParseEncodedSection(s: Section, data: seq<byte>, offset: nat)
    requires Leb128.At(data, offset, EncodeSection(s))
    ensures offset < |data| && data[offset] == SectionId(s)
    ensures Leb128.Decode(data, offset + 1).Some?
    ensures var size := Leb128.Decode(data, offset + 1).value;
            && size.pad == s.sizePad && size.next + size.value == offset + |EncodeSection(s)| <= |data|
            && (s.Exports? ==> ParseExportSection(data, size.next, size.next + size.value, size.pad) == Ok(s))
            && (s.Other? ==> data[size.next..size.next + size.value] == s.payload)
  {
    hide Leb128.At, Leb128.Encode, Leb128.Decode, SectionBody, ParseExportSection;
    var body := SectionBody(s);
    var size := Leb128.Encode(|body|, s.sizePad);
    var bodyAt := offset + 1 + |size|;
    Leb128.AtFirst(data, offset, SectionId(s), size + body);
    Leb128.AtSplit(data, offset + 1, size, body);
    Leb128.DecodeEncode(|body|, s.sizePad, data, offset + 1);
    Leb128.AtSlice(data, bodyAt, body);
    if s.Exports? {
      ParseEncodedExportSection(s, data, bodyAt);
    } else {
      OtherBody(s);
    }
  }

  lemma {:induction false} ParseEncodedSections(ss: seq<Section>, data: seq<byte>, offset: nat)
    requires offset <= |data| && data[offset..] == EncodeSections(ss)
    requires forall s :: s in ss && s.Other? ==> s.id != EXPORT_SECTION_ID
    ensures ParseSections(data, offset) == Ok(ss)
    decreases |ss|
  {
    hide Leb128.At, Leb128.Decode, EncodeSection, ParseExportSection;
    if ss == [] {
      assert offset == |data|;
    } else {
      var s, rest := ss[0], EncodeSections(ss[1..]);
      Leb128.AtSlice(data, offset, EncodeSection(s) + rest);
      Leb128.AtSplit(data, offset, EncodeSection(s), rest);
      ParseEncodedSection(s, data, offset);
      assert s in ss;
      var end := offset + |EncodeSection(s)|;
      assert data[end..] == data[offset..][|EncodeSection(s)|..];
      ParseEncodedSections(ss[1..], data, end);
      assert [s] + ss[1..] == ss;
    }
  }

  lemma OtherBody(s: Section)
    requires s.Other?
    ensures SectionBody(s) == s.payload
  {
  }

  lemma ParseEncoded(m: Module)
    requires WellFormed(m)
    ensures ParseModule(EncodeModule(m)) == Ok(m)
  {
    var data := EncodeModule(m);
    assert data == MAGIC + (m.version + EncodeSections(m.sections));
    assert data[4..8] == m.version;
    assert data[8..] == EncodeSections(m.sections);
    ParseEncodedSections(m.sections, data, 8);
  }

  // ---- The reader accepts nothing else --------------------------------------

  lemma EncodeParsedExport(data: seq<byte>, offset: nat)
    requires ParseExport(data, offset).Ok?
    ensures Leb128.At(data, offset, EncodeExport(ParseExport(data, offset).value.0))
    ensures ParseExport(data, offset).value.1 == offset + |EncodeExport(ParseExport(data, offset).value.0)|
  {
    hide Leb128.At, Leb128.Encode, Leb128.Decode, Utf8.Encode, Utf8.Decode;
    var (e, next) := ParseExport(data, offset).value;
    var len := Leb128.Decode(data, offset).value;
    var kindAt := len.next + len.value;
    var text := data[len.next..kindAt];
    var lenBytes := Leb128.Encode(len.value, len.pad);
    var index := Leb128.Encode(e.index, e.indexPad);
    Leb128.EncodeDecode(data, offset);
    Utf8.EncodeDecode(text);
    Leb128.EncodeDecode(data, kindAt + 1);
    Leb128.AtFirst(data, kindAt, e.kind, index);
    Leb128.AtSlice(data, len.next, text);
    Leb128.AtSplit(data, offset, lenBytes, text);
    Leb128.AtSplit(data, offset, lenBytes + text, [e.kind] + index);
  }

  lemma {:induction false} EncodeParsedExports(data: seq<byte>, offset: nat, count: nat)
    requires offset <= |data| && ParseExports(data, offset, count).Ok?
    ensures Leb128.At(data, offset, EncodeExports(ParseExports(data, offset, count).value.0))
    ensures ParseExports(data, offset, count).value.1
            == offset + |EncodeExports(ParseExports(data, offset, count).value.0)|
    decreases count
  {
    hide Leb128.At, EncodeExport, ParseExport;
    if count == 0 {
      Leb128.AtSlice(data, offset, []);
    } else {
      var (first, next) := ParseExport(data, offset).value;
      var rest := ParseExports(data, next, count - 1).value.0;
      EncodeParsedExport(data, offset);
      EncodeParsedExports(data, next, count - 1);
      Leb128.AtSplit(data, offset, EncodeExport(first), EncodeExports(rest));
      var es := [first] + rest;
      assert es[0] == first && es[1..] == rest;
    }
  }

  lemma EncodeParsedExportSection(data: seq<byte>, offset: nat, end: nat, sizePad: nat)
    requires ParseExportSection(data, offset, end, sizePad).Ok?
    ensures var s := ParseExportSection(data, offset, end, sizePad).value;
            && s.Exports? && s.sizePad == sizePad && Leb128.At(data, offset, SectionBody(s))
            && end == offset + |SectionBody(s)|
  {
    hide Leb128.At, Leb128.Encode, Leb128.Decode, EncodeExports, ParseExports;
    var s := ParseExportSection(data, offset, end, sizePad).value;
    var count := Leb128.Decode(data, offset).value;
    Leb128.EncodeDecode(data, offset);
    EncodeParsedExports(data, count.next, count.value);
    Leb128.AtSplit(data, offset, Leb128.Encode(count.value, count.pad), EncodeExports(s.entries));
  }

  /** The bytes of one section that was read are its encoding. */
  lemma EncodeParsedSection(data: seq<byte>, offset: nat, s: Section)
    requires offset < |data| && Leb128.Decode(data, offset + 1).Some?
    requires var size := Leb128.Decode(data, offset + 1).value;
             var end := size.next + size.value;
             && end <= |data| && s.sizePad == size.pad
             && if data[offset] == EXPORT_SECTION_ID then ParseExportSection(data, size.next, end, size.pad) == Ok(s)
                else s == Other(data[offset], size.pad, data[size.next..end])
    ensures var size := Leb128.Decode(data, offset + 1).value;
            offset < size.next + size.value && data[offset..size.next + size.value] == EncodeSection(s)
    ensures s.Other? ==> s.id != EXPORT_SECTION_ID
  {
    hide Leb128.At, Leb128.Encode, Leb128.Decode, SectionBody, ParseExportSection;
    var size := Leb128.Decode(data, offset + 1).value;
    var end := size.next + size.value;
    var sizeBytes := Leb128.Encode(size.value, size.pad);
    Leb128.EncodeDecode(data, offset + 1);
    if data[offset] == EXPORT_SECTION_ID {
      EncodeParsedExportSection(data, size.next, end, size.pad);
    } else {
      OtherBody(s);
      Leb128.AtSlice(data, size.next, s.payload);
    }
    Leb128.AtSplit(data, offset + 1, sizeBytes, SectionBody(s));
    Leb128.AtFirst(data, offset, SectionId(s), sizeBytes + SectionBody(s));
    Leb128.AtSlice(data, offset, EncodeSection(s));
  }

  lemma {:induction false} EncodeParsedSections(data: seq<byte>, offset: nat)
    requires offset <= |data| && ParseSections(data, offset).Ok?
    ensures data[offset..] == EncodeSections(ParseSections(data, offset).value)
    ensures forall s :: s in ParseSections(data, offset).value && s.Other? ==> s.id != EXPORT_SECTION_ID
    decreases |data| - offset
  {
    hide Leb128.Decode, EncodeSection, ParseExportSection;
    if offset < |data| {
      var ss := ParseSections(data, offset).value;
      var size := Leb128.Decode(data, offset + 1).value;
      var end := size.next + size.value;
      SizePads(data, size.next, end, size.pad);
      EncodeParsedSection(data, offset, ss[0]);
      EncodeParsedSections(data, end);
      assert ss[1..] == ParseSections(data, end).value;
      assert data[offset..] == data[offset..end] + data[end..];
    }
  }

  lemma SizePads(data: seq<byte>, offset: nat, end: nat, sizePad: nat)
    ensures var r := ParseExportSection(data, offset, end, sizePad); r.Ok? ==> r.value.sizePad == sizePad
  {
  }

  /** Accepted data is the encoding of the module it is read as. */
  lemma EncodeParsed(data: seq<byte>)
    requires ParseModule(data).Ok?
    ensures WellFormed(ParseModule(data).value) && EncodeModule(ParseModule(data).value) == data
  {
    hide ParseSections, EncodeSections;
    EncodeParsedSections(data, 8);
    assert data == data[..4] + data[4..8] + data[8..];
  }

  lemma {:induction false} LastExportedOfOthers(ss: seq<Section>, names: seq<string>)
    requires forall s :: s in ss ==> s.Other?
    ensures LastExported(ss, names) == names
    decreases |ss|
  {
    if ss != [] {
      assert ss[0] in ss;
      LastExportedOfOthers(ss[1..], names);
    }
  }

  /** With at most one export section, its function names are the ones reported. */
  lemma {:induction false} SingleExportSection(before: seq<Section>, s: Section, after: seq<Section>,
                                               names: seq<string>)
    requires s.Exports?
    requires forall o :: o in before || o in after ==> o.Other?
    ensures LastExported(before + [s] + after, names) == FunctionNames(s.entries)
    decreases |before|
  {
    var ss := before + [s] + after;
    if before == [] {
      assert ss[0] == s && ss[1..] == after;
      LastExportedOfOthers(after, FunctionNames(s.entries));
    } else {
      assert before[0] in before && ss[0] == before[0] && ss[1..] == before[1..] + [s] + after;
      SingleExportSection(before[1..], s, after, names);
    }
  }
}
