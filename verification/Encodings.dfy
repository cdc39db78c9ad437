/** LEB128 integers and UTF-8 names of the WebAssembly binary format (sections 5.2.2 and 5.2.4 of the WebAssembly Core
    Specification), each as an encoder next to the decoder that the export reader implements. */
module Leb128 {
  import opened Prelude

  /** `n` in unsigned LEB128, followed by `pad` redundant continuation bytes. */
  function Encode(n: nat, pad: nat): (bs: seq<byte>)
    ensures |bs| > 0
    decreases n, pad
  {
    if n >= 128 then [128 + n % 128] + Encode(n / 128, pad)
    else if pad > 0 then [128 + n] + Encode(0, pad - 1)
    else [n]
  }

  datatype Decoded = Decoded(value: nat, pad: nat, next: nat)

  function Decode(data: seq<byte>, offset: nat): (r: Option<Decoded>)
    ensures r.Some? ==> offset < r.value.next <= |data|
    decreases |data| - offset
  {
    if offset >= |data| then None
    else if data[offset] < 128 then Some(Decoded(data[offset], 0, offset + 1))
    else
      match Decode(data, offset + 1)
      case None => None
      case Some(d) =>
        Some(Decoded(data[offset] - 128 + 128 * d.value, if d.value == 0 then d.pad + 1 else d.pad, d.next))
  }

  /** `part` sits in `data` at `offset`. */
  predicate At(data: seq<byte>, offset: nat, part: seq<byte>) {
    offset + |part| <= |data| && forall i :: 0 <= i < |part| ==> data[offset + i] == part[i]
  }

  lemma AtSplit(data: seq<byte>, offset: nat, a: seq<byte>, b: seq<byte>)
    ensures At(data, offset, a + b) <==> At(data, offset, a) && At(data, offset + |a|, b)
  {
    if At(data, offset, a + b) {
      assert forall i :: 0 <= i < |a| ==> a[i] == (a + b)[i];
      assert forall i :: 0 <= i < |b| ==> b[i] == (a + b)[|a| + i];
    }
  }

  lemma AtFirst(data: seq<byte>, offset: nat, b: byte, rest: seq<byte>)
    ensures At(data, offset, [b] + rest) <==> offset < |data| && data[offset] == b && At(data, offset + 1, rest)
  {
    AtSplit(data, offset, [b], rest);
    assert [b][0] == b;
    if At(data, offset, [b]) {
      assert data[offset + 0] == b;
    }
  }

  lemma AtSlice(data: seq<byte>, offset: nat, part: seq<byte>)
    ensures At(data, offset, part) <==> offset + |part| <= |data| && data[offset..offset + |part|] == part
  {
  }

  /** Decoding inverts encoding for every natural number and every amount of padding. */
  lemma {:induction false} DecodeEncode(n: nat, pad: nat, data: seq<byte>, offset: nat)
    requires At(data, offset, Encode(n, pad))
    ensures Decode(data, offset) == Some(Decoded(n, pad, offset + |Encode(n, pad)|))
    decreases n, pad
  {
    hide At;
    if n >= 128 {
      AtFirst(data, offset, 128 + n % 128, Encode(n / 128, pad));
      DecodeEncode(n / 128, pad, data, offset + 1);
    } else if pad > 0 {
      AtFirst(data, offset, 128 + n, Encode(0, pad - 1));
      DecodeEncode(0, pad - 1, data, offset + 1);
    } else {
      AtFirst(data, offset, n, []);
      assert [n] + [] == [n];
    }
  }

  /** Whatever decodes is exactly the encoding of what it decodes to. */
  lemma {:induction false} EncodeDecode(data: seq<byte>, offset: nat)
    requires Decode(data, offset).Some?
    ensures var d := Decode(data, offset).value;
            At(data, offset, Encode(d.value, d.pad)) && d.next == offset + |Encode(d.value, d.pad)|
    decreases |data| - offset
  {
    hide At;
    var d := Decode(data, offset).value;
    if data[offset] >= 128 {
      EncodeDecode(data, offset + 1);
      var rest := Decode(data, offset + 1).value;
      AtFirst(data, offset, data[offset], Encode(rest.value, rest.pad));
      assert Encode(d.value, d.pad) == [data[offset]] + Encode(rest.value, rest.pad);
    } else {
      AtFirst(data, offset, data[offset], []);
      AtSlice(data, offset + 1, []);
      assert [data[offset]] + [] == [data[offset]];
    }
  }
}

module Utf8 {
  import opened Prelude

  function EncodeChar(c: char): (bs: seq<byte>)
    ensures 1 <= |bs| <= 4
  {
    var n := c as int;
    var n1 := n / 0x40;
    var n2 := n1 / 0x40;
    if n < 0x80 then [n]
    else if n < 0x800 then [0xC0 + n1, 0x80 + n % 0x40]
    else if n < 0x1_0000 then [0xE0 + n2, 0x80 + n1 % 0x40, 0x80 + n % 0x40]
    else [0xF0 + n2 / 0x40, 0x80 + n2 % 0x40, 0x80 + n1 % 0x40, 0x80 + n % 0x40]
  }

  function Encode(s: string): seq<byte> {
    if s == [] then [] else EncodeChar(s[0]) + Encode(s[1..])
  }

  predicate IsScalar(n: int) {
    0 <= n < 0xD800 || 0xE000 <= n < 0x11_0000
  }

  predicate Continues(bs: seq<byte>, count: nat) {
    count < |bs| && forall i :: 1 <= i <= count ==> 0x80 <= bs[i] < 0xC0
  }

  /** `hi` extended by the six payload bits of a continuation byte. */
  function Extend(hi: int, b: byte): int {
    hi * 0x40 + (b as int - 0x80)
  }

  /** The leading scalar value, strictly: overlong forms, surrogates and truncation are refused. */
  function LeadingScalar(bs: seq<byte>): (r: Option<int>)
    requires bs != []
    ensures r.Some? ==> IsScalar(r.value)
  {
    var b: int := bs[0];
    if b < 0x80 then Some(b)
    else if 0xC2 <= b < 0xE0 && Continues(bs, 1) then
      Some(Extend(b - 0xC0, bs[1]))
    else if 0xE0 <= b < 0xF0 && Continues(bs, 2) then
      var n := Extend(Extend(b - 0xE0, bs[1]), bs[2]);
      if n >= 0x800 && IsScalar(n) then Some(n) else None
    else if 0xF0 <= b < 0xF5 && Continues(bs, 3) then
      var n := Extend(Extend(Extend(b - 0xF0, bs[1]), bs[2]), bs[3]);
      if n >= 0x1_0000 && IsScalar(n) then Some(n) else None
    else None
  }

  function Decode(bs: seq<byte>): Option<string>
    decreases |bs|
  {
    if bs == [] then Some("")
    else
      match LeadingScalar(bs)
      case None => None
      case Some(n) =>
        var c := n as char;
        if |EncodeChar(c)| > |bs| then None
        else
          match Decode(bs[|EncodeChar(c)|..])
          case None => None
          case Some(s) => Some([c] + s)
  }

  lemma LeadingOfEncoding(c: char, rest: seq<byte>)
    ensures LeadingScalar(EncodeChar(c) + rest) == Some(c as int)
  {
    var n := c as int;
    var e := EncodeChar(c);
    var bs := e + rest;
    assert IsScalar(n);
    assert bs[0] == e[0];
    if |e| > 1 { assert bs[1] == e[1]; }
    if |e| > 2 { assert bs[2] == e[2]; }
    if |e| > 3 { assert bs[3] == e[3]; }
  }

  lemma TwoByteChar(bs: seq<byte>)
    requires |bs| >= 2 && 0xC2 <= bs[0] < 0xE0 && Continues(bs, 1)
    ensures EncodeChar(Extend(bs[0] as int - 0xC0, bs[1]) as char) == [bs[0], bs[1]]
  {
  }

  lemma ThreeByteChar(bs: seq<byte>)
    requires |bs| >= 3 && 0xE0 <= bs[0] < 0xF0 && Continues(bs, 2)
    requires var n := Extend(Extend(bs[0] as int - 0xE0, bs[1]), bs[2]); n >= 0x800 && IsScalar(n)
    ensures EncodeChar(Extend(Extend(bs[0] as int - 0xE0, bs[1]), bs[2]) as char) == [bs[0], bs[1], bs[2]]
  {
  }

  lemma FourByteChar(bs: seq<byte>)
    requires |bs| >= 4 && 0xF0 <= bs[0] < 0xF5 && Continues(bs, 3)
    requires var n := Extend(Extend(Extend(bs[0] as int - 0xF0, bs[1]), bs[2]), bs[3]); n >= 0x1_0000 && IsScalar(n)
    ensures EncodeChar(Extend(Extend(Extend(bs[0] as int - 0xF0, bs[1]), bs[2]), bs[3]) as char)
            == [bs[0], bs[1], bs[2], bs[3]]
  {
  }

  lemma EncodingOfLeading(bs: seq<byte>)
    requires bs != [] && LeadingScalar(bs).Some?
    ensures EncodeChar(LeadingScalar(bs).value as char) <= bs
  {
    hide EncodeChar, Extend;
    if bs[0] < 0x80 {
      OneByteChar(bs[0]);
    } else if bs[0] < 0xE0 {
      TwoByteChar(bs);
    } else if bs[0] < 0xF0 {
      ThreeByteChar(bs);
    } else {
      FourByteChar(bs);
    }
  }

  lemma OneByteChar(b: byte)
    requires b < 0x80
    ensures EncodeChar(b as char) == [b]
  {
  }

  /** Strict decoding inverts encoding. */
  lemma {:induction false} DecodeEncode(s: string)
    ensures Decode(Encode(s)) == Some(s)
  {
    if s != [] {
      var head, tail := EncodeChar(s[0]), Encode(s[1..]);
      LeadingOfEncoding(s[0], tail);
      assert (head + tail)[|head|..] == tail;
      DecodeEncode(s[1..]);
      assert [s[0]] + s[1..] == s;
    }
  }

  /** Only the encoding of a text decodes to it. */
  lemma {:induction false} EncodeDecode(bs: seq<byte>)
    requires Decode(bs).Some?
    ensures Encode(Decode(bs).value) == bs
    decreases |bs|
  {
    hide LeadingScalar, EncodeChar;
    if bs != [] {
      var c := LeadingScalar(bs).value as char;
      var head := EncodeChar(c);
      var s := Decode(bs).value;
      EncodingOfLeading(bs);
      var rest := bs[|head|..];
      EncodeDecode(rest);
      assert s == [c] + Decode(rest).value;
      assert s[1..] == Decode(rest).value;
      assert bs == head + rest;
    }
  }
}
