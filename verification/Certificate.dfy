/** Retirement certificates (contracts/carbon-credit-token/src/lib.rs): JSON written byte by byte into one fixed
    buffer, read back by the reader in `Json`. */
module Certificate {
  import opened Prelude
  import opened CarbonModel
  import Decimal
  import opened Json

  const CERTIFICATE_BUFFER := 8192

  /** No literal of the printer is longer. */
  const MAX_LITERAL := 30

  /** What a certificate prints: fields of the project metadata and of one receipt. */
  datatype Certificate = Certificate(
    projectId: seq<byte>,
    standard: seq<byte>,
    vintageYear: nat,
    retiree: seq<byte>,
    amount: int,
    timestamp: nat,
    beneficiary: seq<byte>,
    reason: seq<byte>,
    registryUrl: seq<byte>,
    registryProjectId: seq<byte>)

  /** An address in its textual form: 56 characters of base 32. */
  predicate IsAddressText(s: seq<byte>) {
    |s| == 56 && forall i :: 0 <= i < |s| ==> 65 <= s[i] <= 90 || 50 <= s[i] <= 55
  }

  /** The values that the field types allow. */
  predicate WellTyped(c: Certificate) {
    IsAddressText(c.retiree) && c.vintageYear <= U32_MAX && c.timestamp <= U64_MAX && InI128(c.amount)
  }

  predicate FieldPrints(s: seq<byte>) {
    |s| <= MAX_FIELD_BYTES && Escapable(s)
  }

  predicate Prints(c: Certificate) {
    && FieldPrints(c.projectId) && FieldPrints(c.standard) && FieldPrints(c.beneficiary) && FieldPrints(c.reason)
    && FieldPrints(c.registryUrl) && FieldPrints(c.registryProjectId)
  }

  /** A certificate prints exactly when each of its six texts has at most 128 bytes, each of which is at least 32 or one
      of the five control characters with a short escape. */
  lemma PrintsExactly(c: Certificate)
    ensures Prints(c) <==>
              var texts := [c.projectId, c.standard, c.beneficiary, c.reason, c.registryUrl, c.registryProjectId];
              forall s :: s in texts ==>
                |s| <= 128 && forall i :: 0 <= i < |s| ==> s[i] >= 32 || s[i] in [8, 9, 10, 12, 13]
  {
    var texts := [c.projectId, c.standard, c.beneficiary, c.reason, c.registryUrl, c.registryProjectId];
    assert Prints(c) <==> forall s :: s in texts ==> FieldPrints(s) by {
      hide FieldPrints;
      assert texts[0] in texts && texts[1] in texts && texts[2] in texts && texts[3] in texts && texts[4] in texts;
      assert texts[5] in texts;
    }
    forall s: seq<byte>
      ensures FieldPrints(s) <==>
                |s| <= 128 && forall i :: 0 <= i < |s| ==> s[i] >= 32 || s[i] in [8, 9, 10, 12, 13]
    {
    }
  }

  predicate IsAscii(s: string) {
    forall i :: 0 <= i < |s| ==> s[i] as int < 128
  }

  function Ascii(s: string): (b: seq<byte>)
    requires IsAscii(s)
    ensures |b| == |s|
  {
    seq(|s|, i requires 0 <= i < |s| => s[i] as int)
  }

  const PROJECT_ID := Ascii("project_id")
  const STANDARD := Ascii("standard")
  const VINTAGE_YEAR := Ascii("vintage_year")
  const RETIREE := Ascii("retiree")
  const AMOUNT := Ascii("amount")
  const TIMESTAMP := Ascii("timestamp")
  const BENEFICIARY := Ascii("beneficiary")
  const RETIREMENT_REASON := Ascii("retirement_reason")
  const REGISTRY_URL := Ascii("registry_url")
  const REGISTRY_PROJECT_ID := Ascii("registry_project_id")

  /** The members of a certificate, in the order in which they are printed. */
  function Members(c: Certificate): (ms: seq<Member>)
    ensures |ms| == 10
  {
    [Member(PROJECT_ID, Str(c.projectId)),
     Member(STANDARD, Str(c.standard)),
     Member(VINTAGE_YEAR, Num(c.vintageYear)),
     Member(RETIREE, Str(c.retiree)),
     Member(AMOUNT, Num(c.amount)),
     Member(TIMESTAMP, Num(c.timestamp)),
     Member(BENEFICIARY, Str(c.beneficiary)),
     Member(RETIREMENT_REASON, Str(c.reason)),
     Member(REGISTRY_URL, Str(c.registryUrl)),
     Member(REGISTRY_PROJECT_ID, Str(c.registryProjectId))]
  }

  lemma KeyIsPlain(s: string)
    requires forall i :: 0 <= i < |s| ==> 'a' <= s[i] <= 'z' || s[i] == '_'
    ensures IsAscii(s) && Plain(Ascii(s))
  {
  }

  lemma KeysArePlain()
    ensures Plain(PROJECT_ID) && Plain(STANDARD) && Plain(VINTAGE_YEAR) && Plain(RETIREE) && Plain(AMOUNT)
    ensures Plain(TIMESTAMP) && Plain(BENEFICIARY) && Plain(RETIREMENT_REASON) && Plain(REGISTRY_URL)
    ensures Plain(REGISTRY_PROJECT_ID)
  {
    hide Plain, Ascii;
    KeyIsPlain("project_id");
    KeyIsPlain("standard");
    KeyIsPlain("vintage_year");
    KeyIsPlain("retiree");
    KeyIsPlain("amount");
    KeyIsPlain("timestamp");
    KeyIsPlain("beneficiary");
    KeyIsPlain("retirement_reason");
    KeyIsPlain("registry_url");
    KeyIsPlain("registry_project_id");
  }

  lemma AddressIsPlain(s: seq<byte>)
    requires IsAddressText(s)
    ensures Plain(s)
  {
  }

  lemma PlainIsEscapable(s: seq<byte>)
    requires Plain(s)
    ensures Escapable(s)
  {
  }

  lemma MembersPrintable(c: Certificate)
    requires Prints(c) && WellTyped(c)
    ensures AllPrintable(Members(c))
  {
    hide Plain, Escapable, IsAddressText;
    KeysArePlain();
    AddressIsPlain(c.retiree);
    var ms := Members(c);
    forall i | 0 <= i < |ms|
      ensures Printable(ms[i])
    {
      PlainIsEscapable(ms[i].key);
      if i == 3 {
        PlainIsEscapable(c.retiree);
      }
    }
  }

  function Text(c: Certificate): seq<byte>
    requires Prints(c) && WellTyped(c)
  {
    MembersPrintable(c);
    PrintObject(Members(c))
  }

  /** Reading a printed certificate as JSON returns its members, every field unescaped, in order. */
  lemma CertificateRoundTrip(c: Certificate)
    requires Prints(c) && WellTyped(c)
    ensures ReadObject(Text(c)) == Some(Members(c))
  {
    MembersPrintable(c);
    ObjectRoundTrip(Members(c));
  }

  /** Different certificates have different texts. */
  lemma CertificateInjective(c: Certificate, d: Certificate)
    ensures Prints(c) && WellTyped(c) && Prints(d) && WellTyped(d) && Text(c) == Text(d) ==> c == d
  {
    hide PrintObject, ReadObject, Prints, WellTyped;
    if Prints(c) && WellTyped(c) && Prints(d) && WellTyped(d) && Text(c) == Text(d) {
      CertificateRoundTrip(c);
      CertificateRoundTrip(d);
      var ms, ns := Members(c), Members(d);
      assert ms[0] == ns[0] && ms[1] == ns[1] && ms[2] == ns[2] && ms[3] == ns[3] && ms[4] == ns[4];
      assert ms[5] == ns[5] && ms[6] == ns[6] && ms[7] == ns[7] && ms[8] == ns[8] && ms[9] == ns[9];
    }
  }

  // ---- The printer ----------------------------------------------------------------------

  /** Copies bytes into the buffer at `pos`. */
  method Push(out: array<byte>, pos: nat, bytes: seq<byte>) returns (end: nat)
    requires pos + |bytes| <= out.Length
    modifies out
    ensures end == pos + |bytes| && out[..end] == old(out[..pos]) + bytes
  {
    forall i | 0 <= i < |bytes| {
      out[pos + i] := bytes[i];
    }
    end := pos + |bytes|;
    assert out[pos..end] == bytes;
    assert out[..end] == out[..pos] + out[pos..end];
  }

  /** Writes one byte of a field, escaped; `None` is the trap on a control byte without a short form. */
  method WriteEscape(out: array<byte>, pos: nat, b: byte) returns (end: Option<nat>)
    requires pos + 2 <= out.Length
    modifies out
    ensures end.None? <==> Escape(b).None?
    ensures end.Some? ==> end.value == pos + |Escape(b).value| <= pos + 2
                          && out[..end.value] == old(out[..pos]) + Escape(b).value
  {
    if b == QUOTE || b == BACKSLASH {
      out[pos] := BACKSLASH;
      out[pos + 1] := b;
      assert out[..pos + 2] == out[..pos] + [BACKSLASH, b];
      end := Some(pos + 2);
    } else if b == 10 {
      var e := Push(out, pos, [BACKSLASH, 110]);
      end := Some(e);
    } else if b == 13 {
      var e := Push(out, pos, [BACKSLASH, 114]);
      end := Some(e);
    } else if b == 9 {
      var e := Push(out, pos, [BACKSLASH, 116]);
      end := Some(e);
    } else if b == 8 {
      var e := Push(out, pos, [BACKSLASH, 98]);
      end := Some(e);
    } else if b == 12 {
      var e := Push(out, pos, [BACKSLASH, 102]);
      end := Some(e);
    } else if b < 0x20 {
      end := None;
    } else {
      out[pos] := b;
      assert out[..pos + 1] == out[..pos] + [b];
      end := Some(pos + 1);
    }
  }

  lemma EscapableNext(s: seq<byte>, i: nat)
    requires i < |s| && Escapable(s[..i])
    ensures Escape(s[i]).Some? <==> Escapable(s[..i + 1])
    ensures Escape(s[i]).Some? ==> Escaped(s[..i + 1]) == Escaped(s[..i]) + Escape(s[i]).value
    ensures Escape(s[i]).None? ==> !Escapable(s)
  {
    assert s[..i + 1] == s[..i] + [s[i]];
    if Escape(s[i]).Some? {
      EscapedSnoc(s[..i], s[i]);
    } else {
      assert s[..i + 1][i] == s[i];
    }
  }

  /** Writes a field of at most 128 bytes, escaping it; a longer field does not fit the temporary buffer and traps. */
  method WriteJsonEscaped(out: array<byte>, pos: nat, value: seq<byte>) returns (end: Option<nat>)
    requires pos + 2 * MAX_FIELD_BYTES <= out.Length
    modifies out
    ensures end.Some? <==> FieldPrints(value)
    ensures end.Some? ==> end.value == pos + |Escaped(value)| && out[..end.value] == old(out[..pos]) + Escaped(value)
  {
    hide Escapable, Escape;
    if |value| > MAX_FIELD_BYTES {
      return None;
    }
    var p := pos;
    EmptyEscapable();
    assert value[..0] == [];
    for i := 0 to |value|
      invariant Escapable(value[..i])
      invariant p == pos + |Escaped(value[..i])| && out[..p] == old(out[..pos]) + Escaped(value[..i])
    {
      EscapableNext(value, i);
      var written := WriteEscape(out, p, value[i]);
      if written.None? {
        return None;
      }
      p := written.value;
    }
    assert value[..|value|] == value;
    end := Some(p);
  }

  lemma EmptyEscapable()
    ensures Escapable([]) && Escaped([]) == []
  {
  }

  /** The quote that ends a string value, which the printer leaves to the next literal. */
  function Close(v: Value): seq<byte> {
    if v.Str? then [QUOTE] else []
  }

  /** `text` is a printed prefix of the members, without the quote that closes a string value. */
  ghost predicate Written(text: seq<byte>, ms: seq<Member>) {
    && AllPrintable(ms) && ms != []
    && text + Close(ms[|ms| - 1].value) == [OPEN] + PrintMembers(ms)
  }

  function Header(key: seq<byte>, value: Value): seq<byte> {
    [QUOTE] + key + [QUOTE, COLON] + Close(value)
  }

  function Body(value: Value): seq<byte>
    requires value.Str? ==> Escapable(value.bytes)
  {
    if value.Str? then Escaped(value.bytes) else Decimal.Signed(value.number)
  }

  /** What stands between the value of one member and the value of the next. */
  function Glue(ms: seq<Member>, key: seq<byte>, value: Value): seq<byte> {
    (if ms == [] then [OPEN] else Close(ms[|ms| - 1].value) + [COMMA]) + Header(key, value)
  }

  lemma PlainMember(m: Member)
    requires Plain(m.key) && Printable(m)
    ensures PrintMember(m) == Header(m.key, m.value) + Body(m.value) + Close(m.value)
  {
    hide Plain, Escapable, Escaped, Decimal.Signed;
    PlainEscaped(m.key);
    var key := [QUOTE] + m.key + [QUOTE];
    assert Quoted(m.key) == key;
    if m.value.Str? {
      assert Header(m.key, m.value) == key + [COLON] + [QUOTE];
      assert key + [COLON] + ([QUOTE] + Body(m.value) + [QUOTE]) == Header(m.key, m.value) + Body(m.value) + [QUOTE];
    } else {
      assert Header(m.key, m.value) == key + [COLON];
      assert key + [COLON] + Body(m.value) == Header(m.key, m.value) + Body(m.value) + [];
    }
  }

  lemma Regroup(text: seq<byte>, close: seq<byte>, sofar: seq<byte>, header: seq<byte>, body: seq<byte>, end: seq<byte>)
    requires text + close == sofar
    ensures text + (close + [COMMA] + header) + body + end == sofar + [COMMA] + (header + body + end)
  {
    assert text + (close + [COMMA] + header) == (text + close) + [COMMA] + header;
  }

  lemma WrittenNext(text: seq<byte>, ms: seq<Member>, m: Member)
    requires (if ms == [] then text == [] else Written(text, ms)) && Plain(m.key) && Printable(m)
    ensures Written(text + Glue(ms, m.key, m.value) + Body(m.value), ms + [m])
  {
    hide Plain, Escapable, PrintMember, Header, Body, Close;
    PlainMember(m);
    var all := ms + [m];
    assert all[..|all| - 1] == ms;
    var header, body, close := Header(m.key, m.value), Body(m.value), Close(m.value);
    if ms == [] {
      assert text + ([OPEN] + header) + body + close == [OPEN] + (header + body + close);
    } else {
      var sofar := [OPEN] + PrintMembers(ms);
      Regroup(text, Close(ms[|ms| - 1].value), sofar, header, body, close);
      assert sofar + [COMMA] + PrintMember(m) == [OPEN] + PrintMembers(all);
    }
  }

  predicate IsName(name: string) {
    forall i :: 0 <= i < |name| ==> 'a' <= name[i] <= 'z' || name[i] == '_'
  }

  /** What ends the value of the last member and starts the next key. */
  function Lead(ms: seq<Member>): string {
    if ms == [] then "{\"" else if ms[|ms| - 1].value.Str? then "\",\"" else ",\""
  }

  lemma AsciiConcat(a: string, b: string)
    requires IsAscii(a) && IsAscii(b)
    ensures IsAscii(a + b) && Ascii(a + b) == Ascii(a) + Ascii(b)
  {
  }

  /** The bytes of the punctuation around a name. */
  lemma Punctuation(ms: seq<Member>)
    ensures IsAscii(Lead(ms)) && IsAscii("\":\"") && IsAscii("\":")
    ensures Ascii(Lead(ms)) == (if ms == [] then [OPEN] else Close(ms[|ms| - 1].value) + [COMMA]) + [QUOTE]
    ensures Ascii("\":\"") == [QUOTE, COLON] + [QUOTE] && Ascii("\":") == [QUOTE, COLON] + []
  {
  }

  lemma NameIsAscii(name: string)
    requires IsName(name)
    ensures IsAscii(name)
  {
  }

  /** The literals of the printer are the glue between members. */
  lemma Literals(ms: seq<Member>, name: string, value: Value)
    requires IsName(name)
    ensures var literal := Lead(ms) + name + (if value.Str? then "\":\"" else "\":");
            IsAscii(name) && IsAscii(literal) && Ascii(literal) == Glue(ms, Ascii(name), value)
  {
    hide Ascii, IsAscii, IsName, Lead;
    var tail := if value.Str? then "\":\"" else "\":";
    NameIsAscii(name);
    Punctuation(ms);
    AsciiConcat(Lead(ms), name);
    AsciiConcat(Lead(ms) + name, tail);
    var front := if ms == [] then [OPEN] else Close(ms[|ms| - 1].value) + [COMMA];
    assert Ascii(tail) == [QUOTE, COLON] + Close(value);
    assert front + [QUOTE] + Ascii(name) + ([QUOTE, COLON] + Close(value)) == front + Header(Ascii(name), value);
  }

  /** One literal and the escaped field that follows it. */
  method PushString(out: array<byte>, pos: nat, ghost ms: seq<Member>, ghost name: string, literal: string,
                    value: seq<byte>)
    returns (end: Option<nat>)
    requires pos + |literal| + 2 * MAX_FIELD_BYTES <= out.Length
    requires IsName(name) && literal == Lead(ms) + name + "\":\""
    requires if ms == [] then pos == 0 else Written(out[..pos], ms)
    modifies out
    ensures end.Some? <==> FieldPrints(value)
    ensures end.Some? ==> pos <= end.value <= pos + |literal| + 2 * MAX_FIELD_BYTES
    ensures end.Some? ==> IsAscii(name) && Written(out[..end.value], ms + [Member(Ascii(name), Str(value))])
  {
    hide Written, Glue, Plain, Escapable, Ascii, IsAscii, IsName, Lead;
    Literals(ms, name, Str(value));
    var p := Push(out, pos, Ascii(literal));
    end := WriteJsonEscaped(out, p, value);
    if end.Some? {
      NamedMember(name, Str(value));
      WrittenNext(old(out[..pos]), ms, Member(Ascii(name), Str(value)));
    }
  }

  /** One literal and the digits that follow it. */
  method PushNumber(out: array<byte>, pos: nat, ghost ms: seq<Member>, ghost name: string, literal: string,
                    digits: seq<byte>, ghost n: int)
    returns (end: nat)
    requires pos + |literal| + |digits| <= out.Length && digits == Decimal.Signed(n)
    requires IsName(name) && literal == Lead(ms) + name + "\":" && ms != [] && Written(out[..pos], ms)
    modifies out
    ensures end == pos + |literal| + |digits|
    ensures IsAscii(name) && Written(out[..end], ms + [Member(Ascii(name), Num(n))])
  {
    hide Written, Glue, Plain, Escapable, Ascii, IsAscii, IsName, Lead, Decimal.Signed;
    Literals(ms, name, Num(n));
    var p := Push(out, pos, Ascii(literal));
    end := Push(out, p, digits);
    NamedMember(name, Num(n));
    WrittenNext(old(out[..pos]), ms, Member(Ascii(name), Num(n)));
  }

  lemma NamedMember(name: string, value: Value)
    requires IsName(name) && (value.Str? ==> Escapable(value.bytes))
    ensures IsAscii(name) && Plain(Ascii(name)) && Printable(Member(Ascii(name), value))
  {
  }

  /** An address is written as it is: none of its characters needs an escape. */
  method PushAddress(out: array<byte>, pos: nat, ghost ms: seq<Member>, ghost name: string, literal: string,
                     text: seq<byte>)
    returns (end: nat)
    requires pos + |literal| + |text| <= out.Length && IsAddressText(text)
    requires IsName(name) && literal == Lead(ms) + name + "\":\"" && ms != [] && Written(out[..pos], ms)
    modifies out
    ensures end == pos + |literal| + |text|
    ensures IsAscii(name) && Written(out[..end], ms + [Member(Ascii(name), Str(text))])
  {
    hide Written, Glue, Plain, Escapable, Ascii, IsAscii, IsName, Lead, IsAddressText;
    Literals(ms, name, Str(text));
    var p := Push(out, pos, Ascii(literal));
    end := Push(out, p, text);
    AddressIsPlain(text);
    PlainEscaped(text);
    NamedMember(name, Str(text));
    WrittenNext(old(out[..pos]), ms, Member(Ascii(name), Str(text)));
  }

  lemma Completed(text: seq<byte>, c: Certificate)
    requires Prints(c) && WellTyped(c) && Written(text, Members(c)[..10])
    ensures text + [QUOTE, CLOSE] == Text(c)
  {
    hide Prints, WellTyped, AllPrintable, PrintMembers;
    var ms := Members(c);
    assert ms[..10] == ms;
    assert Close(ms[9].value) == [QUOTE];
    assert text + [QUOTE, CLOSE] == text + [QUOTE] + [CLOSE];
  }

  /** Member `k` has this name and value, and this literal stands before its value. */
  predicate FieldAt(c: Certificate, k: nat, name: string, literal: string, value: Value) {
    && k < 10 && IsName(name) && IsAscii(name) && Members(c)[k] == Member(Ascii(name), value)
    && literal == Lead(Members(c)[..k]) + name + (if value.Str? then "\":\"" else "\":")
    && |literal| <= MAX_LITERAL
  }

  lemma ProjectLayout(c: Certificate)
    ensures FieldAt(c, 0, "project_id", "{\"project_id\":\"", Str(c.projectId))
    ensures FieldAt(c, 1, "standard", "\",\"standard\":\"", Str(c.standard))
  {
    hide Ascii, IsAscii;
    NameIsAscii("project_id");
    NameIsAscii("standard");
  }

  lemma VintageLayout(c: Certificate)
    ensures FieldAt(c, 2, "vintage_year", "\",\"vintage_year\":", Num(c.vintageYear))
  {
    hide Ascii, IsAscii;
    NameIsAscii("vintage_year");
  }

  lemma RetirementLayout(c: Certificate)
    ensures FieldAt(c, 3, "retiree", ",\"retiree\":\"", Str(c.retiree))
    ensures FieldAt(c, 4, "amount", "\",\"amount\":", Num(c.amount))
  {
    hide Ascii, IsAscii;
    NameIsAscii("retiree");
    NameIsAscii("amount");
  }

  lemma TimestampLayout(c: Certificate)
    ensures FieldAt(c, 5, "timestamp", ",\"timestamp\":", Num(c.timestamp))
  {
    hide Ascii, IsAscii;
    NameIsAscii("timestamp");
  }

  lemma BeneficiaryLayout(c: Certificate)
    ensures FieldAt(c, 6, "beneficiary", ",\"beneficiary\":\"", Str(c.beneficiary))
  {
    hide Ascii, IsAscii;
    NameIsAscii("beneficiary");
  }

  lemma ReasonLayout(c: Certificate)
    ensures FieldAt(c, 7, "retirement_reason", "\",\"retirement_reason\":\"", Str(c.reason))
  {
    hide Ascii, IsAscii;
    NameIsAscii("retirement_reason");
  }

  lemma RegistryUrlLayout(c: Certificate)
    ensures FieldAt(c, 8, "registry_url", "\",\"registry_url\":\"", Str(c.registryUrl))
  {
    hide Ascii, IsAscii;
    NameIsAscii("registry_url");
  }

  lemma RegistryProjectLayout(c: Certificate)
    ensures FieldAt(c, 9, "registry_project_id", "\",\"registry_project_id\":\"", Str(c.registryProjectId))
  {
    hide Ascii, IsAscii;
    NameIsAscii("registry_project_id");
  }

  lemma NextMember(c: Certificate, k: nat, name: string, literal: string, value: Value)
    requires FieldAt(c, k, name, literal, value)
    ensures IsAscii(name) && Members(c)[..k + 1] == Members(c)[..k] + [Member(Ascii(name), value)]
    ensures Members(c)[..k] == [] <==> k == 0
  {
  }

  /** What the printer has written before member `k`. */
  ghost predicate Before(c: Certificate, k: nat, text: seq<byte>) {
    k <= 10 && if k == 0 then text == [] else Written(text, Members(c)[..k])
  }

  // ---- The text, spelled out ------------------------------------------------------------------

  lemma SpellNext(c: Certificate, k: nat, name: string, literal: string, value: Value, text: seq<byte>)
    requires FieldAt(c, k, name, literal, value) && Before(c, k, text) && (value.Str? ==> Escapable(value.bytes))
    ensures IsAscii(literal) && Before(c, k + 1, text + Ascii(literal) + Body(value))
  {
    hide Members, Written, IsName, IsAscii, Ascii, Lead, Body, Escapable;
    NextMember(c, k, name, literal, value);
    Literals(Members(c)[..k], name, value);
    NamedMember(name, value);
    WrittenNext(text, Members(c)[..k], Member(Ascii(name), value));
  }

  lemma SpelledAscii(s: string)
    requires forall i :: 0 <= i < |s| ==> ' ' <= s[i] <= '~'
    ensures IsAscii(s)
  {
  }

  /** The text of a certificate up to and with the time. */
  function FirstHalf(c: Certificate): seq<byte>
    requires Prints(c)
  {
    Ascii("{\"project_id\":\"") + Escaped(c.projectId) + Ascii("\",\"standard\":\"") + Escaped(c.standard)
    + Ascii("\",\"vintage_year\":") + Decimal.Signed(c.vintageYear) + Ascii(",\"retiree\":\"") + c.retiree
    + Ascii("\",\"amount\":") + Decimal.Signed(c.amount) + Ascii(",\"timestamp\":") + Decimal.Signed(c.timestamp)
  }

  lemma FirstHalfSpelled(c: Certificate)
    requires Prints(c) && WellTyped(c)
    ensures Before(c, 6, FirstHalf(c))
  {
    hide Before, FieldAt, Escaped, Escapable, Decimal.Signed, IsAddressText, Ascii;
    ProjectLayout(c);
    VintageLayout(c);
    RetirementLayout(c);
    TimestampLayout(c);
    AddressIsPlain(c.retiree);
    PlainEscaped(c.retiree);
    StartsEmpty(c);
    var text := [];
    SpellNext(c, 0, "project_id", "{\"project_id\":\"", Str(c.projectId), text);
    text := text + Ascii("{\"project_id\":\"") + Escaped(c.projectId);
    SpellNext(c, 1, "standard", "\",\"standard\":\"", Str(c.standard), text);
    text := text + Ascii("\",\"standard\":\"") + Escaped(c.standard);
    SpellNext(c, 2, "vintage_year", "\",\"vintage_year\":", Num(c.vintageYear), text);
    text := text + Ascii("\",\"vintage_year\":") + Decimal.Signed(c.vintageYear);
    SpellNext(c, 3, "retiree", ",\"retiree\":\"", Str(c.retiree), text);
    text := text + Ascii(",\"retiree\":\"") + c.retiree;
    SpellNext(c, 4, "amount", "\",\"amount\":", Num(c.amount), text);
    text := text + Ascii("\",\"amount\":") + Decimal.Signed(c.amount);
    SpellNext(c, 5, "timestamp", ",\"timestamp\":", Num(c.timestamp), text);
    text := text + Ascii(",\"timestamp\":") + Decimal.Signed(c.timestamp);
    assert text == FirstHalf(c);
  }

  lemma StartsEmpty(c: Certificate)
    ensures Before(c, 0, [])
  {
  }

  /** The text of a certificate, character by character around its fields. */
  lemma CertificateSpelled(c: Certificate)
    requires Prints(c) && WellTyped(c)
    ensures Text(c) == FirstHalf(c)
              + Ascii(",\"beneficiary\":\"") + Escaped(c.beneficiary)
              + Ascii("\",\"retirement_reason\":\"") + Escaped(c.reason)
              + Ascii("\",\"registry_url\":\"") + Escaped(c.registryUrl)
              + Ascii("\",\"registry_project_id\":\"") + Escaped(c.registryProjectId) + Ascii("\"}")
  {
    hide Before, FieldAt, Escaped, Escapable, Ascii, FirstHalf, Text, WellTyped;
    FirstHalfSpelled(c);
    BeneficiaryLayout(c);
    ReasonLayout(c);
    RegistryUrlLayout(c);
    RegistryProjectLayout(c);
    var text := FirstHalf(c);
    SpellNext(c, 6, "beneficiary", ",\"beneficiary\":\"", Str(c.beneficiary), text);
    text := text + Ascii(",\"beneficiary\":\"") + Escaped(c.beneficiary);
    SpellNext(c, 7, "retirement_reason", "\",\"retirement_reason\":\"", Str(c.reason), text);
    text := text + Ascii("\",\"retirement_reason\":\"") + Escaped(c.reason);
    SpellNext(c, 8, "registry_url", "\",\"registry_url\":\"", Str(c.registryUrl), text);
    text := text + Ascii("\",\"registry_url\":\"") + Escaped(c.registryUrl);
    SpellNext(c, 9, "registry_project_id", "\",\"registry_project_id\":\"", Str(c.registryProjectId), text);
    text := text + Ascii("\",\"registry_project_id\":\"") + Escaped(c.registryProjectId);
    LastBefore(c, text);
    Completed(text, c);
    LastLiteral();
  }

  lemma LastBefore(c: Certificate, text: seq<byte>)
    requires Before(c, 10, text)
    ensures Written(text, Members(c)[..10])
  {
  }

  lemma LastLiteral()
    ensures IsAscii("\"}") && Ascii("\"}") == [QUOTE, CLOSE]
  {
  }

  /** Prints string member `k`. */
  method PushField(out: array<byte>, start: nat, ghost c: Certificate, ghost k: nat, ghost name: string,
                   literal: string, value: seq<byte>)
    returns (end: Option<nat>)
    requires FieldAt(c, k, name, literal, Str(value)) && start + MAX_LITERAL + 2 * MAX_FIELD_BYTES <= out.Length
    requires Before(c, k, out[..start])
    modifies out
    ensures end.Some? <==> FieldPrints(value)
    ensures end.Some? ==> end.value <= start + MAX_LITERAL + 2 * MAX_FIELD_BYTES && Before(c, k + 1, out[..end.value])
  {
    hide Members, Written, FieldPrints, IsName, IsAscii, Ascii, Lead;
    NextMember(c, k, name, literal, Str(value));
    end := PushString(out, start, Members(c)[..k], name, literal, value);
  }

  /** Prints number member `k`, given its digits. */
  method PushDigits(out: array<byte>, start: nat, ghost c: Certificate, ghost k: nat, ghost name: string,
                    literal: string, digits: seq<byte>, ghost n: int)
    returns (end: nat)
    requires 0 < k && FieldAt(c, k, name, literal, Num(n)) && digits == Decimal.Signed(n)
    requires start + MAX_LITERAL + |digits| <= out.Length && Before(c, k, out[..start])
    modifies out
    ensures end <= start + MAX_LITERAL + |digits| && Before(c, k + 1, out[..end])
  {
    hide Members, Written, IsName, IsAscii, Ascii, Lead, Decimal.Signed;
    NextMember(c, k, name, literal, Num(n));
    end := PushNumber(out, start, Members(c)[..k], name, literal, digits, n);
  }

  /** Prints the address member. */
  method PushRetiree(out: array<byte>, start: nat, ghost c: Certificate, ghost k: nat, ghost name: string,
                     literal: string, text: seq<byte>)
    returns (end: nat)
    requires 0 < k && FieldAt(c, k, name, literal, Str(text)) && IsAddressText(text)
    requires start + MAX_LITERAL + |text| <= out.Length && Before(c, k, out[..start])
    modifies out
    ensures end <= start + MAX_LITERAL + |text| && Before(c, k + 1, out[..end])
  {
    hide Members, Written, IsName, IsAscii, Ascii, Lead, IsAddressText;
    NextMember(c, k, name, literal, Str(text));
    end := PushAddress(out, start, Members(c)[..k], name, literal, text);
  }

  method PrintProject(out: array<byte>, c: Certificate) returns (end: Option<nat>)
    requires out.Length == CERTIFICATE_BUFFER
    modifies out
    ensures end.Some? <==> FieldPrints(c.projectId) && FieldPrints(c.standard)
    ensures end.Some? ==> end.value <= 600 && Before(c, 2, out[..end.value])
  {
    hide FieldPrints, Written, FieldAt, Members;
    ProjectLayout(c);
    end := PushField(out, 0, c, 0, "project_id", "{\"project_id\":\"", c.projectId);
    if end.Some? {
      end := PushField(out, end.value, c, 1, "standard", "\",\"standard\":\"", c.standard);
    }
  }

  method PrintRetirement(out: array<byte>, start: nat, c: Certificate) returns (end: nat)
    requires WellTyped(c) && out.Length == CERTIFICATE_BUFFER && start <= 600 && Before(c, 2, out[..start])
    modifies out
    ensures end <= 1000 && Before(c, 6, out[..end])
  {
    hide Written, FieldAt, Members, Decimal.Signed, IsAddressText, Before;
    SignedLengths(c);
    VintageLayout(c);
    RetirementLayout(c);
    TimestampLayout(c);
    var year := Decimal.PrintU32(c.vintageYear);
    end := PushDigits(out, start, c, 2, "vintage_year", "\",\"vintage_year\":", year, c.vintageYear);
    end := PushRetiree(out, end, c, 3, "retiree", ",\"retiree\":\"", c.retiree);
    var amount := Decimal.PrintI128(c.amount);
    end := PushDigits(out, end, c, 4, "amount", "\",\"amount\":", amount, c.amount);
    var timestamp := Decimal.PrintU64(c.timestamp);
    end := PushDigits(out, end, c, 5, "timestamp", ",\"timestamp\":", timestamp, c.timestamp);
  }

  method PrintPurpose(out: array<byte>, start: nat, c: Certificate) returns (end: Option<nat>)
    requires out.Length == CERTIFICATE_BUFFER && start <= 1000 && Before(c, 6, out[..start])
    modifies out
    ensures end.Some? <==> FieldPrints(c.beneficiary) && FieldPrints(c.reason)
    ensures end.Some? ==> end.value <= 1600 && Before(c, 8, out[..end.value])
  {
    hide FieldPrints, Written, FieldAt, Members, Before;
    BeneficiaryLayout(c);
    ReasonLayout(c);
    end := PushField(out, start, c, 6, "beneficiary", ",\"beneficiary\":\"", c.beneficiary);
    if end.Some? {
      end := PushField(out, end.value, c, 7, "retirement_reason", "\",\"retirement_reason\":\"", c.reason);
    }
  }

  method PrintRegistry(out: array<byte>, start: nat, c: Certificate) returns (end: Option<nat>)
    requires out.Length == CERTIFICATE_BUFFER && start <= 1600 && Before(c, 8, out[..start])
    modifies out
    ensures end.Some? <==> FieldPrints(c.registryUrl) && FieldPrints(c.registryProjectId)
    ensures end.Some? ==> end.value <= 2200 && Before(c, 10, out[..end.value])
  {
    hide FieldPrints, Written, FieldAt, Members, Before;
    RegistryUrlLayout(c);
    RegistryProjectLayout(c);
    end := PushField(out, start, c, 8, "registry_url", "\",\"registry_url\":\"", c.registryUrl);
    if end.Some? {
      end :=
        PushField(out, end.value, c, 9, "registry_project_id", "\",\"registry_project_id\":\"", c.registryProjectId);
    }
  }

  lemma SignedLengths(c: Certificate)
    requires WellTyped(c)
    ensures |Decimal.Signed(c.vintageYear)| <= 10 && |Decimal.Signed(c.amount)| <= 40
    ensures |Decimal.Signed(c.timestamp)| <= 20 && |c.retiree| == 56
  {
    hide Decimal.Digits;
    Decimal.MachineWidths(c.vintageYear);
    Decimal.MachineWidths(c.timestamp);
    Decimal.MachineWidths(if c.amount < 0 then -c.amount else c.amount);
  }

  /** The whole certificate, or `None` when the printer traps: exactly when some field is longer than 128 bytes or
      holds a control byte without a short escape. The buffer is never overrun. */
  method ToCertificateJson(c: Certificate) returns (text: Option<seq<byte>>)
    requires WellTyped(c)
    ensures text == if Prints(c) then Some(Text(c)) else None
  {
    hide FieldPrints, Written, WellTyped, Text, Members;
    var out := new byte[CERTIFICATE_BUFFER];
    var end := PrintProject(out, c);
    if end.None? {
      return None;
    }
    var pos := PrintRetirement(out, end.value, c);
    end := PrintPurpose(out, pos, c);
    if end.None? {
      return None;
    }
    end := PrintRegistry(out, end.value, c);
    if end.None? {
      return None;
    }
    Completed(out[..end.value], c);
    pos := Push(out, end.value, [QUOTE, CLOSE]);
    text := Some(out[..pos]);
  }
}
