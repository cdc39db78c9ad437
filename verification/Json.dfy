/** JSON texts: the escaping that the certificate printer does, and an independent reader of objects after RFC 8259
    (sections 4, 6 and 7, without insignificant whitespace and without fractions or exponents). */
module Json {
  import opened Prelude
  import Decimal
  import Utf8

  const QUOTE: byte := 34
  const BACKSLASH: byte := 92
  const COLON: byte := 58
  const COMMA: byte := 44
  const OPEN: byte := 123
  const CLOSE: byte := 125

  datatype Value = Str(bytes: seq<byte>) | Num(number: int)

  datatype Member = Member(key: seq<byte>, value: Value)

  datatype Parsed<T> = Parsed(value: T, rest: seq<byte>)

  // ---- Escaping ----------------------------------------------------------------------

  /** The printer's table. It has no working entry for the other control bytes: it copies four bytes into a six-byte
      slice there, which traps. */
  function Escape(b: byte): Option<seq<byte>> {
    if b == QUOTE || b == BACKSLASH then Some([BACKSLASH, b])
    else if b == 10 then Some([BACKSLASH, 110])
    else if b == 13 then Some([BACKSLASH, 114])
    else if b == 9 then Some([BACKSLASH, 116])
    else if b == 8 then Some([BACKSLASH, 98])
    else if b == 12 then Some([BACKSLASH, 102])
    else if b < 0x20 then None
    else Some([b])
  }

  /** The short escapes of section 7 of RFC 8259, as bytes; every other byte from 32 on is written as it is, and the
      remaining control bytes are not written at all. */
  lemma EscapeTable(b: byte)
    ensures Escape(b) == match b
                         case 34 => Some([92, 34])
                         case 92 => Some([92, 92])
                         case 8 => Some([92, 98])
                         case 9 => Some([92, 116])
                         case 10 => Some([92, 110])
                         case 12 => Some([92, 102])
                         case 13 => Some([92, 114])
                         case _ => if b >= 32 then Some([b]) else None
  {
  }

  predicate Escapable(s: seq<byte>) {
    forall i :: 0 <= i < |s| ==> s[i] >= 0x20 || s[i] in {8, 9, 10, 12, 13}
  }

  function Escaped(s: seq<byte>): (e: seq<byte>)
    requires Escapable(s)
    ensures |s| <= |e| <= 2 * |s|
  {
    if s == [] then [] else Escape(s[0]).value + Escaped(s[1..])
  }

  lemma EscapableSnoc(s: seq<byte>, b: byte)
    requires Escapable(s) && Escape(b).Some?
    ensures Escapable(s + [b])
  {
  }

  lemma {:induction false} EscapedSnoc(s: seq<byte>, b: byte)
    requires Escapable(s) && Escape(b).Some?
    ensures Escapable(s + [b]) && Escaped(s + [b]) == Escaped(s) + Escape(b).value
  {
    hide Escape, Escapable;
    EscapableSnoc(s, b);
    var all := s + [b];
    if s == [] {
      assert all == [b] && [b][1..] == [];
    } else {
      EscapableHead(s);
      EscapedSnoc(s[1..], b);
      assert all[1..] == s[1..] + [b];
    }
  }

  predicate Plain(s: seq<byte>) {
    forall i :: 0 <= i < |s| ==> s[i] >= 0x20 && s[i] != QUOTE && s[i] != BACKSLASH
  }

  lemma {:induction false} PlainEscaped(s: seq<byte>)
    requires Plain(s)
    ensures Escapable(s) && Escaped(s) == s
  {
    if s != [] {
      PlainEscaped(s[1..]);
    }
  }

  // ---- Reading strings -----------------------------------------------------------------

  function Hex(b: byte): Option<nat> {
    if 48 <= b <= 57 then Some(b as int - 48)
    else if 65 <= b <= 70 then Some(b as int - 55)
    else if 97 <= b <= 102 then Some(b as int - 87)
    else None
  }

  function Hex4(s: seq<byte>): (r: Option<nat>)
    requires |s| == 4
    ensures r.Some? ==> r.value < 0x1_0000
  {
    if Hex(s[0]).Some? && Hex(s[1]).Some? && Hex(s[2]).Some? && Hex(s[3]).Some? then
      Some(((Hex(s[0]).value * 16 + Hex(s[1]).value) * 16 + Hex(s[2]).value) * 16 + Hex(s[3]).value)
    else None
  }

  /** `\uXXXX`, or two of them for a code point outside the basic plane. */
  function ReadUnicode(s: seq<byte>): (r: Option<Parsed<seq<byte>>>)
    requires |s| >= 2
    ensures r.Some? ==> |r.value.rest| < |s|
  {
    if |s| < 6 || Hex4(s[2..6]).None? then None
    else
      var high := Hex4(s[2..6]).value;
      if Utf8.IsScalar(high) then Some(Parsed(Utf8.EncodeChar(high as char), s[6..]))
      else if high < 0xDC00 && |s| >= 12 && s[6] == BACKSLASH && s[7] == 117 && Hex4(s[8..12]).Some? then
        var low := Hex4(s[8..12]).value;
        if 0xDC00 <= low < 0xE000 then
          Some(Parsed(Utf8.EncodeChar((0x1_0000 + (high - 0xD800) * 0x400 + (low - 0xDC00)) as char), s[12..]))
        else None
      else None
  }

  function ReadEscape(s: seq<byte>): (r: Option<Parsed<seq<byte>>>)
    requires |s| >= 2
    ensures r.Some? ==> |r.value.rest| < |s|
  {
    var b := s[1];
    if b == QUOTE || b == BACKSLASH || b == 47 then Some(Parsed([b], s[2..]))
    else if b == 98 then Some(Parsed([8], s[2..]))
    else if b == 102 then Some(Parsed([12], s[2..]))
    else if b == 110 then Some(Parsed([10], s[2..]))
    else if b == 114 then Some(Parsed([13], s[2..]))
    else if b == 116 then Some(Parsed([9], s[2..]))
    else if b == 117 then ReadUnicode(s)
    else None
  }

  /** One character of a string, escaped or not. */
  function ReadChar(s: seq<byte>): (r: Option<Parsed<seq<byte>>>)
    requires s != []
    ensures r.Some? ==> |r.value.rest| < |s|
  {
    if s[0] == BACKSLASH then
      if |s| < 2 then None else ReadEscape(s)
    else if s[0] < 0x20 || s[0] == QUOTE then None
    else Some(Parsed([s[0]], s[1..]))
  }

  /** The content of a string whose opening quote has been read. */
  function ReadString(s: seq<byte>): (r: Option<Parsed<seq<byte>>>)
    ensures r.Some? ==> |r.value.rest| < |s|
    decreases |s|
  {
    if s == [] then None
    else if s[0] == QUOTE then Some(Parsed([], s[1..]))
    else if ReadChar(s).None? then None
    else
      var Parsed(head, rest) := ReadChar(s).value;
      match ReadString(rest)
      case None => None
      case Some(Parsed(tail, after)) => Some(Parsed(head + tail, after))
  }

  lemma ReadEscapedChar(b: byte, rest: seq<byte>)
    requires Escape(b).Some?
    ensures ReadChar(Escape(b).value + rest) == Some(Parsed([b], rest))
    ensures (Escape(b).value + rest)[0] != QUOTE
  {
    var e := Escape(b).value;
    assert (e + rest)[|e|..] == rest;
  }

  /** Unescaping returns the field. */
  lemma {:induction false} ReadEscaped(s: seq<byte>, rest: seq<byte>)
    requires Escapable(s)
    ensures ReadString(Escaped(s) + [QUOTE] + rest) == Some(Parsed(s, rest))
  {
    hide ReadChar, Escape;
    if s == [] {
      assert Escaped(s) + [QUOTE] + rest == [QUOTE] + rest;
    } else {
      EscapableHead(s);
      var tail := Escaped(s[1..]) + [QUOTE] + rest;
      ReadEscaped(s[1..], rest);
      ReadEscapedChar(s[0], tail);
      assert Escaped(s) + [QUOTE] + rest == Escape(s[0]).value + tail;
      assert [s[0]] + s[1..] == s;
    }
  }

  lemma EscapableHead(s: seq<byte>)
    requires Escapable(s) && s != []
    ensures Escape(s[0]).Some? && Escapable(s[1..])
  {
  }

  // ---- Reading numbers -----------------------------------------------------------------------

  function DigitRun(s: seq<byte>): (n: nat)
    ensures n <= |s| && Decimal.AllDigits(s[..n])
  {
    if s == [] || !Decimal.IsDigit(s[0]) then 0
    else
      var n := DigitRun(s[1..]);
      assert s[..n + 1] == [s[0]] + s[1..][..n];
      n + 1
  }

  function ReadNumber(s: seq<byte>): (r: Option<Parsed<int>>)
    ensures r.Some? ==> |r.value.rest| < |s|
  {
    var negative := s != [] && s[0] == Decimal.DASH;
    var t := if negative then s[1..] else s;
    var n := DigitRun(t);
    if n == 0 || (n > 1 && t[0] == Decimal.ZERO) then None
    else
      var magnitude: int := Decimal.Value(t[..n]);
      Some(Parsed(if negative then -magnitude else magnitude, t[n..]))
  }

  predicate EndsNumber(rest: seq<byte>) {
    rest == [] || !Decimal.IsDigit(rest[0])
  }

  lemma {:induction false} RunOfDigits(digits: seq<byte>, rest: seq<byte>)
    requires Decimal.AllDigits(digits) && EndsNumber(rest)
    ensures DigitRun(digits + rest) == |digits|
  {
    if digits == [] {
      assert digits + rest == rest;
    } else {
      RunOfDigits(digits[1..], rest);
      assert (digits + rest)[1..] == digits[1..] + rest;
    }
  }

  lemma ReadDigits(n: nat, rest: seq<byte>)
    requires EndsNumber(rest)
    ensures var t := Decimal.Digits(n) + rest; var k := DigitRun(t);
            k > 0 && (k > 1 ==> t[0] != Decimal.ZERO) && Decimal.Value(t[..k]) == n && t[k..] == rest
  {
    hide Decimal.Digits, DigitRun;
    var digits := Decimal.Digits(n);
    RunOfDigits(digits, rest);
    Decimal.ValueDigits(n);
    Decimal.LeadingDigit(n);
    assert (digits + rest)[..|digits|] == digits && (digits + rest)[|digits|..] == rest;
  }

  lemma ReadUnsigned(n: int, rest: seq<byte>)
    requires n >= 0 && EndsNumber(rest)
    ensures ReadNumber(Decimal.Digits(n) + rest) == Some(Parsed(n, rest))
  {
    hide Decimal.Digits, DigitRun, Decimal.Value, EndsNumber;
    var s := Decimal.Digits(n) + rest;
    ReadDigits(n, rest);
    assert Decimal.IsDigit(s[0]);
  }

  lemma ReadNegative(n: int, rest: seq<byte>)
    requires n >= 0 && EndsNumber(rest)
    ensures ReadNumber([Decimal.DASH] + Decimal.Digits(n) + rest) == Some(Parsed(-n, rest))
  {
    hide Decimal.Digits, DigitRun, Decimal.Value, EndsNumber;
    var s := [Decimal.DASH] + Decimal.Digits(n) + rest;
    ReadDigits(n, rest);
    assert s[1..] == Decimal.Digits(n) + rest;
  }

  lemma ReadPrinted(n: int, rest: seq<byte>)
    requires EndsNumber(rest)
    ensures ReadNumber(Decimal.Signed(n) + rest) == Some(Parsed(n, rest))
  {
    hide Decimal.Digits, ReadNumber, EndsNumber;
    if n < 0 {
      ReadNegative(-n, rest);
    } else {
      ReadUnsigned(n, rest);
    }
  }

  // ---- Objects ---------------------------------------------------------------------------------

  predicate Printable(m: Member) {
    Escapable(m.key) && (m.value.Str? ==> Escapable(m.value.bytes))
  }

  predicate AllPrintable(ms: seq<Member>) {
    forall i :: 0 <= i < |ms| ==> Printable(ms[i])
  }

  function Quoted(s: seq<byte>): seq<byte>
    requires Escapable(s)
  {
    [QUOTE] + Escaped(s) + [QUOTE]
  }

  function PrintMember(m: Member): seq<byte>
    requires Printable(m)
  {
    Quoted(m.key) + [COLON] + (if m.value.Str? then Quoted(m.value.bytes) else Decimal.Signed(m.value.number))
  }

  /** The members separated by commas; the last one is printed after the others, as the printer does. */
  function PrintMembers(ms: seq<Member>): seq<byte>
    requires AllPrintable(ms)
  {
    if ms == [] then []
    else if |ms| == 1 then PrintMember(ms[0])
    else PrintMembers(ms[..|ms| - 1]) + [COMMA] + PrintMember(ms[|ms| - 1])
  }

  function PrintObject(ms: seq<Member>): seq<byte>
    requires AllPrintable(ms)
  {
    [OPEN] + PrintMembers(ms) + [CLOSE]
  }

  function ReadValue(s: seq<byte>): (r: Option<Parsed<Value>>)
    ensures r.Some? ==> |r.value.rest| < |s|
  {
    if s != [] && s[0] == QUOTE then
      match ReadString(s[1..])
      case None => None
      case Some(Parsed(bytes, rest)) => Some(Parsed(Str(bytes), rest))
    else
      match ReadNumber(s)
      case None => None
      case Some(Parsed(number, rest)) => Some(Parsed(Num(number), rest))
  }

  function ReadMember(s: seq<byte>): (r: Option<Parsed<Member>>)
    ensures r.Some? ==> |r.value.rest| < |s|
  {
    if s == [] || s[0] != QUOTE then None
    else
      match ReadString(s[1..])
      case None => None
      case Some(Parsed(key, afterKey)) =>
        if afterKey == [] || afterKey[0] != COLON then None
        else
          match ReadValue(afterKey[1..])
          case None => None
          case Some(Parsed(value, rest)) => Some(Parsed(Member(key, value), rest))
  }

  /** The members up to the closing brace. */
  function ReadMembers(s: seq<byte>): Option<Parsed<seq<Member>>>
    decreases |s|
  {
    match ReadMember(s)
    case None => None
    case Some(Parsed(m, rest)) =>
      if rest == [] then None
      else if rest[0] == CLOSE then Some(Parsed([m], rest[1..]))
      else if rest[0] != COMMA then None
      else
        match ReadMembers(rest[1..])
        case None => None
        case Some(Parsed(ms, after)) => Some(Parsed([m] + ms, after))
  }

  function ReadObject(s: seq<byte>): Option<seq<Member>> {
    if s == [] || s[0] != OPEN then None
    else if s == [OPEN, CLOSE] then Some([])
    else
      match ReadMembers(s[1..])
      case None => None
      case Some(Parsed(ms, rest)) => if rest == [] then Some(ms) else None
  }

  lemma ReadQuoted(s: seq<byte>, rest: seq<byte>)
    requires Escapable(s)
    ensures Quoted(s) != [] && (Quoted(s) + rest)[0] == QUOTE
            && ReadString((Quoted(s) + rest)[1..]) == Some(Parsed(s, rest))
  {
    hide ReadString, Escaped;
    ReadEscaped(s, rest);
    assert (Quoted(s) + rest)[1..] == Escaped(s) + [QUOTE] + rest;
  }

  lemma ReadPrintedMember(m: Member, rest: seq<byte>)
    requires Printable(m) && EndsNumber(rest)
    ensures ReadMember(PrintMember(m) + rest) == Some(Parsed(m, rest))
  {
    hide Quoted, Decimal.Signed, ReadString, ReadValue;
    var value := if m.value.Str? then Quoted(m.value.bytes) else Decimal.Signed(m.value.number);
    var tail := [COLON] + (value + rest);
    ReadQuoted(m.key, tail);
    assert PrintMember(m) + rest == Quoted(m.key) + tail;
    assert tail[1..] == value + rest;
    ReadPrintedValue(m.value, rest);
  }

  lemma ReadPrintedValue(v: Value, rest: seq<byte>)
    requires (v.Str? ==> Escapable(v.bytes)) && EndsNumber(rest)
    ensures ReadValue((if v.Str? then Quoted(v.bytes) else Decimal.Signed(v.number)) + rest) == Some(Parsed(v, rest))
  {
    hide Quoted, Decimal.Signed, ReadString, ReadNumber;
    if v.Str? {
      ReadQuoted(v.bytes, rest);
    } else {
      ReadPrinted(v.number, rest);
      SignedStart(v.number, rest);
    }
  }

  lemma SignedStart(n: int, rest: seq<byte>)
    ensures (Decimal.Signed(n) + rest)[0] != QUOTE
  {
    if n >= 0 {
      assert Decimal.IsDigit(Decimal.Digits(n)[0]);
    }
  }

  lemma {:induction false} PrintFirst(m: Member, ms: seq<Member>)
    requires Printable(m) && AllPrintable(ms) && ms != []
    ensures AllPrintable([m] + ms) && PrintMembers([m] + ms) == PrintMember(m) + [COMMA] + PrintMembers(ms)
  {
    hide Printable, PrintMember;
    var all := [m] + ms;
    assert all[..|all| - 1] == [m] + ms[..|ms| - 1];
    if |ms| == 1 {
      assert all[..1] == [m];
    } else {
      PrintFirst(m, ms[..|ms| - 1]);
    }
  }

  lemma {:induction false} ReadPrintedMembers(ms: seq<Member>)
    requires AllPrintable(ms) && ms != []
    ensures ReadMembers(PrintMembers(ms) + [CLOSE]) == Some(Parsed(ms, []))
    decreases |ms|
  {
    hide Printable, PrintMember, ReadMember;
    var m, rest := ms[0], ms[1..];
    if rest == [] {
      ReadPrintedMember(m, [CLOSE]);
      assert ms == [m];
      assert PrintMembers(ms) == PrintMember(m);
      assert [CLOSE][1..] == [];
    } else {
      assert ms == [m] + rest;
      PrintFirst(m, rest);
      var tail := PrintMembers(rest) + [CLOSE];
      ReadPrintedMembers(rest);
      ReadPrintedMember(m, [COMMA] + tail);
      assert PrintMembers(ms) + [CLOSE] == PrintMember(m) + ([COMMA] + tail);
      assert ([COMMA] + tail)[1..] == tail;
    }
  }

  /** Reading a printed object returns its members in order. */
  lemma ObjectRoundTrip(ms: seq<Member>)
    requires AllPrintable(ms)
    ensures ReadObject(PrintObject(ms)) == Some(ms)
  {
    hide AllPrintable, PrintMembers, ReadMembers;
    NoMembers();
    if ms != [] {
      ReadPrintedMembers(ms);
      assert PrintObject(ms)[1..] == PrintMembers(ms) + [CLOSE];
      StartsWithQuote(ms);
    }
  }

  lemma NoMembers()
    ensures PrintMembers([]) == []
  {
  }

  lemma {:induction false} StartsWithQuote(ms: seq<Member>)
    requires AllPrintable(ms) && ms != []
    ensures PrintMembers(ms) != [] && PrintMembers(ms)[0] == QUOTE
  {
    if |ms| > 1 {
      StartsWithQuote(ms[..|ms| - 1]);
    }
  }
}
