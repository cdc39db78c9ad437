/** Decimal numbers as the carbon token prints them (contracts/carbon-credit-token/src/lib.rs): digits are written into
    a fixed buffer, from its end or backwards in place. */
module Decimal {
  import opened Prelude

  const ZERO: byte := 48
  const DASH: byte := 45

  predicate IsDigit(b: byte) {
    48 <= b <= 57
  }

  predicate AllDigits(s: seq<byte>) {
    forall i :: 0 <= i < |s| ==> IsDigit(s[i])
  }

  function Digit(d: nat): byte
    requires d < 10
  {
    48 + d
  }

  /** The decimal digits of `n`, most significant first. */
  function Digits(n: nat): (s: seq<byte>)
    ensures |s| > 0 && AllDigits(s)
  {
    if n < 10 then [Digit(n)] else Digits(n / 10) + [Digit(n % 10)]
  }

  /** The number that a string of digits denotes. */
  function Value(s: seq<byte>): nat
    requires AllDigits(s)
  {
    if s == [] then 0 else 10 * Value(s[..|s| - 1]) + (s[|s| - 1] as int - 48)
  }

  lemma {:induction false} ValueDigits(n: nat)
    ensures Value(Digits(n)) == n
  {
    var s := Digits(n);
    if n >= 10 {
      ValueDigits(n / 10);
      assert s[..|s| - 1] == Digits(n / 10);
    } else {
      assert s[..0] == [];
    }
  }

  /** No leading zeros. */
  lemma {:induction false} LeadingDigit(n: nat)
    ensures Digits(n)[0] == ZERO <==> n == 0
    ensures n == 0 ==> |Digits(n)| == 1
  {
    if n >= 10 {
      LeadingDigit(n / 10);
    }
  }

  function Pow10(k: nat): nat {
    if k == 0 then 1 else 10 * Pow10(k - 1)
  }

  lemma {:induction false} DigitsLength(n: nat, k: nat)
    requires n < Pow10(k) && k > 0
    ensures |Digits(n)| <= k
  {
    if n >= 10 {
      DigitsLength(n / 10, k - 1);
    }
  }

  /** The digit buffers are wide enough for their types. */
  lemma MachineWidths(n: nat)
    ensures n <= U32_MAX ==> |Digits(n)| <= 10
    ensures n <= U64_MAX ==> |Digits(n)| <= 20
    ensures n <= -I128_MIN ==> |Digits(n)| <= 39
  {
    assert Pow10(5) == 100_000;
    assert Pow10(10) == 10_000_000_000;
    assert Pow10(15) == 1_000_000_000_000_000;
    assert Pow10(20) == 100_000_000_000_000_000_000;
    assert Pow10(25) == 10_000_000_000_000_000_000_000_000;
    assert Pow10(30) == 1_000_000_000_000_000_000_000_000_000_000;
    assert Pow10(35) == 100_000_000_000_000_000_000_000_000_000_000_000;
    assert Pow10(39) == 1_000_000_000_000_000_000_000_000_000_000_000_000_000;
    if n <= U32_MAX {
      DigitsLength(n, 10);
    }
    if n <= U64_MAX {
      DigitsLength(n, 20);
    }
    if n <= -I128_MIN {
      DigitsLength(n, 39);
    }
  }

  // ---- Signed numbers -------------------------------------------------------------

  function Signed(n: int): seq<byte> {
    if n < 0 then [DASH] + Digits(-n) else Digits(n)
  }

  function SignedValue(s: seq<byte>): Option<int> {
    if s != [] && AllDigits(s) then Some(Value(s))
    else if |s| > 1 && s[0] == DASH && AllDigits(s[1..]) then Some(0 - Value(s[1..]))
    else None
  }

  /** Printing is undone by reading, for every integer. */
  lemma SignedRoundTrip(n: int)
    ensures SignedValue(Signed(n)) == Some(n)
  {
    if n < 0 {
      ValueDigits(-n);
      assert Signed(n)[1..] == Digits(-n);
      assert !IsDigit(Signed(n)[0]);
    } else {
      ValueDigits(n);
    }
  }

  // ---- The printers -----------------------------------------------------------------

  /** What is still to be printed. */
  function Pending(n: nat): seq<byte> {
    if n == 0 then [] else Digits(n)
  }

  lemma PendingStep(n: nat)
    requires n > 0
    ensures Pending(n) == Pending(n / 10) + [Digit(n % 10)]
  {
  }

  /** One round of a digit loop, with what is printed already on the right. */
  lemma PrintStep(n: nat, printed: seq<byte>)
    requires n > 0
    ensures Pending(n) + printed == Pending(n / 10) + ([Digit(n % 10)] + printed)
    ensures |Pending(n)| > 0
  {
    hide Pending;
    PendingStep(n);
    assert Pending(n) + printed == Pending(n / 10) + [Digit(n % 10)] + printed;
  }

  /** The digit loop of the three printers: right to left from the end of the buffer. */
  method FillDigits(buf: array<byte>, number: nat) returns (pos: nat)
    requires 0 < number && |Digits(number)| <= buf.Length
    modifies buf
    ensures pos + |Digits(number)| == buf.Length && buf[pos..] == Digits(number)
  {
    hide Digits, Pending;
    var n := number;
    pos := buf.Length;
    NothingPending(number);
    while n > 0
      invariant pos <= buf.Length && Pending(n) + buf[pos..] == Digits(number)
    {
      ghost var printed := buf[pos..];
      PrintStep(n, printed);
      assert |Pending(n)| + |printed| == |Digits(number)|;
      pos := pos - 1;
      buf[pos] := Digit(n % 10);
      assert buf[pos..] == [Digit(n % 10)] + printed;
      n := n / 10;
    }
    NothingPending(0);
    assert |buf[pos..]| == |Digits(number)|;
  }

  lemma NothingPending(n: nat)
    ensures Pending(0) == []
    ensures n > 0 ==> Pending(n) == Digits(n)
  {
  }

  method PrintU32(n: nat) returns (s: seq<byte>)
    requires n <= U32_MAX
    ensures s == Signed(n)
  {
    if n == 0 {
      return [ZERO];
    }
    MachineWidths(n);
    var buf := new byte[10];
    var pos := FillDigits(buf, n);
    s := buf[pos..];
  }

  method PrintU64(n: nat) returns (s: seq<byte>)
    requires n <= U64_MAX
    ensures s == Signed(n)
  {
    if n == 0 {
      return [ZERO];
    }
    MachineWidths(n);
    var buf := new byte[20];
    var pos := FillDigits(buf, n);
    s := buf[pos..];
  }

  /** The magnitude of the least value is written out, since it has no 128-bit negation. */
  method PrintI128(n: int) returns (s: seq<byte>)
    requires InI128(n)
    ensures s == Signed(n)
  {
    hide Digits;
    if n == 0 {
      OneDigit();
      return [ZERO];
    }
    var abs: nat := 0;
    if n == I128_MIN {
      abs := 170_141_183_460_469_231_731_687_303_715_884_105_728;
    } else if n < 0 {
      abs := -n;
    } else {
      abs := n;
    }
    MachineWidths(abs);
    var buf := new byte[40];
    var pos := FillDigits(buf, abs);
    if n < 0 {
      var signPos := pos - 1;
      buf[signPos] := DASH;
      assert buf[signPos..] == [DASH] + buf[pos..];
      s := buf[signPos..40];
    } else {
      s := buf[pos..40];
    }
  }

  // ---- Serial numbers -----------------------------------------------------------------

  const SERIAL_BUFFER := 139

  function Serial(project: seq<byte>, index: nat): seq<byte> {
    project + [DASH] + Digits(index)
  }

  /** Numbers and serials consist of the characters that a reader expects: digits from '0' to '9', a minus sign and a
      dash that are both 45, and no leading zero. */
  lemma Characters(n: nat, project: seq<byte>)
    ensures forall i :: 0 <= i < |Digits(n)| ==> 48 <= Digits(n)[i] <= 57
    ensures n > 0 ==> Digits(n)[0] != 48
    ensures |Serial(project, n)| == |project| + 1 + |Digits(n)| && Serial(project, n)[..|project|] == project
    ensures Serial(project, n)[|project|] == 45 && Serial(project, n)[|project| + 1..] == Digits(n)
    ensures Signed(n) == Digits(n)
    ensures n > 0 ==> var s := Signed(-(n as int)); |s| > 0 && s[0] == 45 && s[1..] == Digits(n)
  {
    hide Digits;
    LeadingDigit(n);
    assert forall b :: IsDigit(b) ==> 48 <= b <= 57;
  }

  /** Splits a serial at its last dash. */
  function ParseSerial(s: seq<byte>): Option<(seq<byte>, nat)> {
    SplitSerial(s, |s|)
  }

  function SplitSerial(s: seq<byte>, end: nat): Option<(seq<byte>, nat)>
    requires end <= |s|
  {
    if end == 0 then None
    else if s[end - 1] == DASH then
      if end < |s| && AllDigits(s[end..]) then Some((s[..end - 1], Value(s[end..]))) else None
    else SplitSerial(s, end - 1)
  }

  lemma {:induction false} SplitAtDash(s: seq<byte>, dash: nat, end: nat)
    requires dash < end <= |s| && dash + 1 < |s| && s[dash] == DASH && AllDigits(s[dash + 1..])
    ensures SplitSerial(s, end) == Some((s[..dash], Value(s[dash + 1..])))
  {
    if end - 1 != dash {
      assert s[end - 1] == s[dash + 1..][end - 1 - (dash + 1)];
      assert IsDigit(s[dash + 1..][end - 1 - (dash + 1)]);
      SplitAtDash(s, dash, end - 1);
    }
  }

  /** A serial determines its project id, dashes included, and its index. */
  lemma SerialRoundTrip(project: seq<byte>, index: nat)
    ensures ParseSerial(Serial(project, index)) == Some((project, index))
  {
    var s := Serial(project, index);
    assert s[..|project|] == project;
    assert s[|project| + 1..] == Digits(index);
    SplitAtDash(s, |project|, |s|);
    ValueDigits(index);
  }

  lemma SerialInjective(project: seq<byte>, index: nat, project': seq<byte>, index': nat)
    requires Serial(project, index) == Serial(project', index')
    ensures project == project' && index == index'
  {
    SerialRoundTrip(project, index);
    SerialRoundTrip(project', index');
  }

  function Reversed(s: seq<byte>): (r: seq<byte>)
    ensures |r| == |s| && forall i :: 0 <= i < |s| ==> r[i] == s[|s| - 1 - i]
  {
    if s == [] then [] else Reversed(s[1..]) + [s[0]]
  }

  /** Reverses `buf[lo..hi]` in place. */
  method ReverseRange(buf: array<byte>, lo: nat, hi: nat)
    requires lo <= hi <= buf.Length
    modifies buf
    ensures buf[lo..hi] == Reversed(old(buf[lo..hi])) && buf[..lo] == old(buf[..lo])
  {
    ghost var was := buf[..];
    var i, j := lo, hi;
    while i + 1 < j
      invariant lo <= i <= j + 1 && j <= hi && i - lo == hi - j
      invariant forall k :: lo <= k < i || j <= k < hi ==> buf[k] == was[lo + hi - 1 - k]
      invariant forall k :: i <= k < j || 0 <= k < lo ==> buf[k] == was[k]
      decreases j - i
    {
      j := j - 1;
      buf[i], buf[j] := buf[j], buf[i];
      i := i + 1;
    }
    ghost var now := buf[..];
    assert forall k :: lo <= k < hi ==> now[k] == was[lo + hi - 1 - k];
    MirroredIsReversed(was, now, lo, hi);
    assert now[..lo] == was[..lo];
  }

  lemma MirroredIsReversed(was: seq<byte>, now: seq<byte>, lo: nat, hi: nat)
    requires lo <= hi <= |was| == |now|
    requires forall k :: lo <= k < hi ==> now[k] == was[lo + hi - 1 - k]
    ensures now[lo..hi] == Reversed(was[lo..hi])
  {
    hide *;
    var mirror := Reversed(was[lo..hi]);
    forall i | 0 <= i < hi - lo
      ensures now[lo..hi][i] == mirror[i]
    {
      assert now[lo + i] == was[hi - 1 - i];
    }
  }

  lemma ReversedSnoc(s: seq<byte>, b: byte)
    ensures Reversed(s + [b]) == [b] + Reversed(s)
  {
  }

  /** The digit loop of the serial printers: least significant first, then turned around in place; writing past the
      buffer traps. */
  method AppendDigits(buf: array<byte>, start: nat, index: nat) returns (end: Option<nat>)
    requires start <= buf.Length
    modifies buf
    ensures end == if start + |Digits(index)| <= buf.Length then Some(start + |Digits(index)|) else None
    ensures end.Some? ==> buf[start..end.value] == Digits(index) && buf[..start] == old(buf[..start])
  {
    hide Digits, Reversed, Pending;
    var pos := start;
    if index == 0 {
      OneDigit();
      if pos == buf.Length {
        return None;
      }
      buf[pos] := ZERO;
      return Some(pos + 1);
    }
    var n := index;
    NothingReversed();
    NothingPending(index);
    while n > 0
      invariant start <= pos <= buf.Length
      invariant buf[..start] == old(buf[..start])
      invariant Pending(n) + Reversed(buf[start..pos]) == Digits(index)
    {
      ghost var printed := buf[start..pos];
      PrintStep(n, Reversed(printed));
      assert |Pending(n)| + (pos - start) == |Digits(index)|;
      if pos == buf.Length {
        return None;
      }
      ReversedSnoc(printed, Digit(n % 10));
      buf[pos] := Digit(n % 10);
      pos := pos + 1;
      assert buf[start..pos] == printed + [Digit(n % 10)];
      n := n / 10;
    }
    NothingPending(0);
    ReverseRange(buf, start, pos);
    end := Some(pos);
  }

  lemma OneDigit()
    ensures Digits(0) == [ZERO]
  {
  }

  lemma NothingReversed()
    ensures Reversed([]) == []
  {
  }

  method PrintSerial(project: seq<byte>, index: nat) returns (serial: Option<seq<byte>>)
    ensures serial == if |Serial(project, index)| <= SERIAL_BUFFER then Some(Serial(project, index)) else None
  {
    hide Digits;
    if |project| >= SERIAL_BUFFER {
      return None;
    }
    var buf := new byte[SERIAL_BUFFER];
    forall i | 0 <= i < |project| {
      buf[i] := project[i];
    }
    buf[|project|] := DASH;
    var start := |project| + 1;
    assert buf[..start] == project + [DASH];
    var end := AppendDigits(buf, start, index);
    if end.None? {
      return None;
    }
    assert buf[..end.value] == buf[..start] + buf[start..end.value];
    serial := Some(buf[..end.value]);
  }

  /** Project ids of at most 128 bytes always leave room for the digits of a 32-bit index. */
  lemma SerialFits(project: seq<byte>, index: nat)
    requires |project| <= 128 && index <= U32_MAX
    ensures |Serial(project, index)| <= SERIAL_BUFFER
  {
    MachineWidths(index);
  }

  lemma {:induction false} LongerNumbers(m: nat, n: nat)
    requires m <= n
    ensures |Digits(m)| <= |Digits(n)|
    decreases n
  {
    if m >= 10 {
      LongerNumbers(m / 10, n / 10);
    }
  }

  /** Serials do not get shorter as the index grows. */
  lemma LaterSerials(project: seq<byte>, index: nat, later: nat)
    requires index <= later
    ensures |Serial(project, index)| <= |Serial(project, later)|
  {
    LongerNumbers(index, later);
  }
}
