/** The encodings and packets of the GDB Remote Serial Protocol (GDB manual, appendix "GDB Remote Serial
    Protocol", section "Overview") as debug/gdb/protocol.cc implements them. */
module GdbCodec {
  import opened Common

  import opened MemUtil

  const DOLLAR: byte := 0x24
  const HASH: byte := 0x23
  const STAR: byte := 0x2A
  const BRACE: byte := 0x7D
  const PLUS: byte := 0x2B
  const MINUS: byte := 0x2D

  /** A `char`, which is signed, as an `int`. */
  function Signed(b: byte): int {
    if b < 128 then b else b - 256
  }

  /** The byte that an `int` is stored as in a `char`. */
  function Unsigned(c: int): byte
    requires -128 <= c < 128
  {
    if c < 0 then c + 256 else c
  }

  // ---- hexadecimal ----

  /** `get_digit` of a value below 16. */
  function GetDigit(v: int): (b: byte)
    requires 0 <= v < 16
  {
    if v < 10 then 0x30 + v else 0x61 + v - 10
  }

  /** `get_val`: the value of a digit, or -1. */
  function GetVal(digit: byte, base: int): int {
    var value := if 0x30 <= digit <= 0x39 then digit - 0x30
                 else if 0x61 <= digit <= 0x66 then digit - 0x61 + 10
                 else if 0x41 <= digit <= 0x46 then digit - 0x41 + 10
                 else -1;
    if value < base then value else -1
  }

  lemma DigitRoundTrip(v: int)
    requires 0 <= v < 16
    ensures GetVal(GetDigit(v), 16) == v && GetDigit(v) != HASH && GetDigit(v) < 128
  {
  }

  function HexPair(b: byte): seq<byte> {
    [GetDigit(b / 16), GetDigit(b % 16)]
  }

  function Hex(data: seq<byte>): (h: seq<byte>)
    ensures |h| == 2 * |data|
  {
    if data == [] then [] else Hex(data[..|data| - 1]) + HexPair(data[|data| - 1])
  }

  /** Every byte becomes two digits of the table, the high one first ... */
  lemma HexDigits(b: byte, digits: seq<byte>)
    requires digits ==
      [0x30, 0x31, 0x32, 0x33, 0x34, 0x35, 0x36, 0x37, 0x38, 0x39, 0x61, 0x62, 0x63, 0x64, 0x65, 0x66]
    ensures Hex([b]) == [digits[b / 16], digits[b % 16]]
  {
    HexOne(b);
    DigitFromTable(b / 16, digits);
    DigitFromTable(b % 16, digits);
  }

  lemma DigitFromTable(v: nat, digits: seq<byte>)
    requires v < 16
    requires digits ==
      [0x30, 0x31, 0x32, 0x33, 0x34, 0x35, 0x36, 0x37, 0x38, 0x39, 0x61, 0x62, 0x63, 0x64, 0x65, 0x66]
    ensures GetDigit(v) == digits[v]
  {
  }

  /** ... and the pairs follow each other. */
  lemma {:induction false} HexConcat(a: seq<byte>, b: seq<byte>)
    ensures Hex(a + b) == Hex(a) + Hex(b)
    decreases |b|
  {
    if b == [] {
      assert a + b == a;
    } else {
      var front := b[..|b| - 1];
      assert (a + b)[..|a + b| - 1] == a + front;
      HexConcat(a, front);
    }
  }

  function PairValue(hi: byte, lo: byte): Option<byte> {
    var h, l := GetVal(hi, 16), GetVal(lo, 16);
    if h < 0 || l < 0 then None else Some(h * 16 + l)
  }

  /** What hexadecimal text stands for, if it is that. */
  function UnHex(text: seq<byte>): Option<seq<byte>>
    requires |text| % 2 == 0
  {
    if text == [] then Some([]) else
    var n := |text|;
    var front, last := UnHex(text[..n - 2]), PairValue(text[n - 2], text[n - 1]);
    if front.None? || last.None? then None else Some(front.value + [last.value])
  }

  /** Capital letters are read as digits too. */
  lemma HexCapitals(b: byte, digits: seq<byte>)
    requires digits ==
      [0x30, 0x31, 0x32, 0x33, 0x34, 0x35, 0x36, 0x37, 0x38, 0x39, 0x41, 0x42, 0x43, 0x44, 0x45, 0x46]
    ensures UnHex([digits[b / 16], digits[b % 16]]) == Some([b])
  {
    CapitalValue(b / 16, digits);
    CapitalValue(b % 16, digits);
    var text := [digits[b / 16], digits[b % 16]];
    assert text[..0] == [] && [] + [b] == [b];
  }

  lemma CapitalValue(v: nat, digits: seq<byte>)
    requires v < 16
    requires digits ==
      [0x30, 0x31, 0x32, 0x33, 0x34, 0x35, 0x36, 0x37, 0x38, 0x39, 0x41, 0x42, 0x43, 0x44, 0x45, 0x46]
    ensures GetVal(digits[v], 16) == v
  {
  }

  lemma PairRoundTrip(b: byte)
    ensures PairValue(GetDigit(b / 16), GetDigit(b % 16)) == Some(b)
  {
    DigitRoundTrip(b / 16);
    DigitRoundTrip(b % 16);
  }

  lemma {:induction false} HexRoundTrip(data: seq<byte>)
    ensures UnHex(Hex(data)) == Some(data)
  {
    if data != [] {
      var front, last := data[..|data| - 1], data[|data| - 1];
      HexRoundTrip(front);
      PairRoundTrip(last);
      var h := Hex(data);
      assert h[..|h| - 2] == Hex(front);
      assert front + [last] == data;
    }
  }

  /** `enc_hex` into `buf` from position `at`, of which `bufLen` bytes may be used. */
  method EncHex(buf: array<byte>, at: nat, bufLen: nat, data: seq<byte>) returns (r: int)
    requires at + bufLen <= buf.Length
    modifies buf
    ensures r == if bufLen < 2 * |data| then -1 else 2 * |data|
    ensures r == -1 ==> buf[..] == old(buf[..])
    ensures r >= 0 ==> buf[..] == old(buf[..at]) + Hex(data) + old(buf[at + 2 * |data|..])
  {
    if bufLen < 2 * |data| { return -1; }
    var pos := 0;
    while pos < |data|
      invariant 0 <= pos <= |data|
      invariant buf[..at] == old(buf[..at]) && buf[at + 2 * pos..] == old(buf[at + 2 * pos..])
      invariant buf[at..at + 2 * pos] == Hex(data[..pos])
    {
      PutPair(buf, at + 2 * pos, data[pos]);
      assert data[..pos + 1][..pos] == data[..pos];
      assert buf[at..at + 2 * pos + 2] == buf[at..at + 2 * pos] + HexPair(data[pos]);
      pos := pos + 1;
    }
    assert data[..pos] == data;
    return 2 * |data|;
  }

  method PutPair(buf: array<byte>, at: nat, b: byte)
    requires at + 2 <= buf.Length
    modifies buf
    ensures buf[..at] == old(buf[..at]) && buf[at..at + 2] == HexPair(b) && buf[at + 2..] == old(buf[at + 2..])
    ensures forall i :: 0 <= i < at ==> buf[i] == old(buf[i])
  {
    buf[at] := GetDigit(b / 16);
    buf[at + 1] := GetDigit(b % 16);
  }

  lemma {:induction false} NoPair(text: seq<byte>, k: nat)
    requires |text| % 2 == 0 && 2 * k <= |text| && UnHex(text[..2 * k]).None?
    ensures UnHex(text).None?
    decreases |text|
  {
    if 2 * k == |text| {
      assert text[..2 * k] == text;
    } else {
      var front := text[..|text| - 2];
      assert front[..2 * k] == text[..2 * k];
      NoPair(front, k);
    }
  }

  /** `dec_hex`: 0 for success, contrary to its comment, which promises the number of bytes. */
  method DecHex(text: seq<byte>, data: array<byte>) returns (r: int)
    modifies data
    ensures r == 0 || r == -1
    ensures r == 0 <==> |text| == 2 * data.Length && UnHex(text).Some?
    ensures r == 0 ==> UnHex(text) == Some(data[..])
  {
    if |text| != 2 * data.Length { return -1; }
    var pos := 0;
    while pos < data.Length
      invariant 0 <= pos <= data.Length
      invariant UnHex(text[..2 * pos]) == Some(data[..pos])
    {
      assert text[..2 * pos + 2][..2 * pos] == text[..2 * pos];
      var ok := DecPair(text, data, pos);
      if !ok {
        NoPair(text, pos + 1);
        return -1;
      }
      pos := pos + 1;
    }
    assert text[..2 * pos] == text && data[..pos] == data[..];
    return 0;
  }

  method DecPair(text: seq<byte>, data: array<byte>, pos: nat) returns (ok: bool)
    requires |text| == 2 * data.Length && pos < data.Length
    modifies data
    ensures ok <==> PairValue(text[2 * pos], text[2 * pos + 1]).Some?
    ensures ok ==> data[..pos + 1] == old(data[..pos]) + [PairValue(text[2 * pos], text[2 * pos + 1]).value]
  {
    var high := GetVal(text[2 * pos], 16);
    if high == -1 { return false; }
    data[pos] := high * 16;
    var low := GetVal(text[2 * pos + 1], 16);
    if low == -1 { return false; }
    data[pos] := data[pos] + low;
    ok := true;
  }

  // ---- binary ----

  /** Exclusive or with 0x20. */
  function Flip(b: byte): byte {
    if b / 32 % 2 == 1 then b - 32 else b + 32
  }

  lemma FlipTwice(b: byte)
    ensures Flip(Flip(b)) == b
  {
  }

  /** It changes the bit of value 32 and no other; and what becomes of `$`, `#`, `}` and `*`. */
  lemma FlipBits(b: byte)
    ensures Flip(b) % 32 == b % 32 && Flip(b) / 64 == b / 64 && Flip(b) / 32 % 2 == 1 - b / 32 % 2
    ensures Flip(0x24) == 0x04 && Flip(0x23) == 0x03 && Flip(0x7D) == 0x5D && Flip(0x2A) == 0x0A
  {
  }

  predicate Special(b: byte) {
    b == DOLLAR || b == HASH || b == BRACE || b == STAR
  }

  function EscapeByte(b: byte): seq<byte> {
    if Special(b) then [BRACE, Flip(b)] else [b]
  }

  function Escape(data: seq<byte>): seq<byte> {
    if data == [] then [] else Escape(data[..|data| - 1]) + EscapeByte(data[|data| - 1])
  }

  /** What escaped text stands for; an escape at the very end is an error. */
  function Unescape(text: seq<byte>): Option<seq<byte>> {
    if text == [] then Some([])
    else if text[0] != BRACE then
      var rest := Unescape(text[1..]);
      if rest.None? then None else Some([text[0]] + rest.value)
    else if |text| == 1 then None
    else
      var rest := Unescape(text[2..]);
      if rest.None? then None else Some([Flip(text[1])] + rest.value)
  }

  lemma {:induction false} EscapeSplits(a: seq<byte>, b: seq<byte>)
    ensures Escape(a + b) == Escape(a) + Escape(b)
    decreases |b|
  {
    if b == [] {
      assert a + b == a;
    } else {
      var front := b[..|b| - 1];
      assert (a + b)[..|a + b| - 1] == a + front;
      EscapeSplits(a, front);
    }
  }

  lemma {:induction false} EscapeRoundTrip(data: seq<byte>)
    ensures Unescape(Escape(data)) == Some(data)
  {
    if data != [] {
      var first, rest := data[0], data[1..];
      assert data == [first] + rest;
      EscapeSplits([first], rest);
      assert Escape([first]) == EscapeByte(first) by { assert [first][..0] == []; }
      EscapeRoundTrip(rest);
      FlipTwice(first);
      var e := Escape(data);
      assert e == EscapeByte(first) + Escape(rest);
      assert e[|EscapeByte(first)|..] == Escape(rest);
    }
  }

  /** Escaping in numbers: `$`, `#`, `}` and `*` become `}` and the byte with bit 32 changed, every other
      byte stays, and the pieces follow each other. */
  lemma EscapedText(a: seq<byte>, b: seq<byte>, c: byte)
    ensures Escape([]) == [] && Escape(a + b) == Escape(a) + Escape(b)
    ensures Escape([c]) == if c == 0x24 then [0x7D, 0x04] else if c == 0x23 then [0x7D, 0x03]
                           else if c == 0x7D then [0x7D, 0x5D] else if c == 0x2A then [0x7D, 0x0A] else [c]
  {
    EscapeSplits(a, b);
    FlipBits(c);
    assert [c][..0] == [];
  }

  /** Escaped data holds none of the characters with a meaning in packets, but for the escapes. */
  lemma {:induction false} EscapeClean(data: seq<byte>)
    ensures forall b :: b in Escape(data) ==> b != DOLLAR && b != HASH && b != STAR
    ensures 0xFF in Escape(data) <==> 0xFF in data
  {
    if data != [] {
      var front, last := data[..|data| - 1], data[|data| - 1];
      assert data == front + [last];
      EscapeClean(front);
      EscapedByte(last);
    }
  }

  lemma EscapedByte(b: byte)
    ensures forall c :: c in EscapeByte(b) ==> c != DOLLAR && c != HASH && c != STAR
    ensures 0xFF in EscapeByte(b) <==> b == 0xFF
  {
  }

  /** `enc_bin`: the number of bytes written, or -1 if they do not fit. */
  method EncBin(buf: array<byte>, data: seq<byte>) returns (r: int)
    modifies buf
    ensures r == if |Escape(data)| <= buf.Length then |Escape(data)| else -1
    ensures r >= 0 ==> buf[..r] == Escape(data) && buf[r..] == old(buf[r..])
  {
    var used, pos := 0, 0;
    while pos < |data|
      invariant 0 <= pos <= |data| && 0 <= used <= buf.Length
      invariant buf[..used] == Escape(data[..pos])
      invariant forall i :: used <= i < buf.Length ==> buf[i] == old(buf[i])
    {
      EscapeStep(data, pos);
      EscapeGrows(data, pos + 1);
      var next := EncByte(buf, used, data[pos]);
      if next == -1 { return -1; }
      used := next;
      pos := pos + 1;
    }
    assert data[..pos] == data;
    return used;
  }

  method EncByte(buf: array<byte>, used: nat, b: byte) returns (next: int)
    requires used <= buf.Length
    modifies buf
    ensures next == if used + |EscapeByte(b)| <= buf.Length then used + |EscapeByte(b)| else -1
    ensures next >= 0 ==> buf[..next] == old(buf[..used]) + EscapeByte(b)
    ensures next >= 0 ==> forall i :: next <= i < buf.Length ==> buf[i] == old(buf[i])
  {
    if Special(b) {
      if used + 1 >= buf.Length { return -1; }
      next := PutByte(buf, used, BRACE);
      next := PutByte(buf, next, Flip(b));
    } else {
      if used >= buf.Length { return -1; }
      next := PutByte(buf, used, b);
    }
  }

  method PutByte(buf: array<byte>, used: nat, b: byte) returns (next: nat)
    requires used < buf.Length
    modifies buf
    ensures next == used + 1 && buf[..next] == old(buf[..used]) + [b]
    ensures forall i :: next <= i < buf.Length ==> buf[i] == old(buf[i])
  {
    buf[used] := b;
    next := used + 1;
  }

  lemma EscapeStep(data: seq<byte>, pos: nat)
    requires pos < |data|
    ensures Escape(data[..pos + 1]) == Escape(data[..pos]) + EscapeByte(data[pos])
  {
    assert data[..pos + 1][..pos] == data[..pos];
  }

  lemma {:induction false} EscapeGrows(data: seq<byte>, pos: nat)
    requires pos <= |data|
    ensures |Escape(data[..pos])| <= |Escape(data)|
    decreases |data|
  {
    if pos == |data| {
      assert data[..pos] == data;
    } else {
      var front := data[..|data| - 1];
      assert front[..pos] == data[..pos];
      EscapeGrows(front, pos);
    }
  }

  /** `dec_bin`: the number of bytes decoded, or -1 if they do not fit or the last escape is cut off. */
  method DecBin(text: seq<byte>, data: array<byte>) returns (r: int)
    modifies data
    ensures -1 <= r <= data.Length
    ensures r >= 0 <==> Unescape(text).Some? && |Unescape(text).value| <= data.Length
    ensures r >= 0 ==> Unescape(text) == Some(data[..r]) && data[r..] == old(data[r..])
  {
    var pos, used := 0, 0;
    assert text[0..] == text;
    PrependNothing(Unescape(text));
    while pos < |text|
      invariant 0 <= pos <= |text| && 0 <= used <= data.Length
      invariant Unescape(text) == Prepend(data[..used], Unescape(text[pos..]))
      invariant forall i :: used <= i < data.Length ==> data[i] == old(data[i])
    {
      UnescapeStep(text, pos, data[..used]);
      if used >= data.Length { return -1; }
      if text[pos] == BRACE {
        if pos + 1 >= |text| { return -1; }
        pos := pos + 1;
        used := PutByte(data, used, Flip(text[pos]));
      } else {
        used := PutByte(data, used, text[pos]);
      }
      pos := pos + 1;
    }
    assert text[pos..] == [] && data[..used] + [] == data[..used];
    return used;
  }

  function Prepend(s: seq<byte>, o: Option<seq<byte>>): Option<seq<byte>> {
    if o.None? then None else Some(s + o.value)
  }

  lemma PrependNothing(o: Option<seq<byte>>)
    ensures Prepend([], o) == o
  {
    if o.Some? { assert [] + o.value == o.value; }
  }

  lemma UnescapeStep(text: seq<byte>, pos: nat, done: seq<byte>)
    requires pos < |text|
    ensures Unescape(text[pos..]).Some? ==> |Unescape(text[pos..]).value| > 0
    ensures text[pos] == BRACE && pos + 1 == |text| ==> Unescape(text[pos..]).None?
    ensures text[pos] == BRACE && pos + 1 < |text| ==>
      Prepend(done, Unescape(text[pos..])) == Prepend(done + [Flip(text[pos + 1])], Unescape(text[pos + 2..]))
    ensures text[pos] != BRACE ==>
      Prepend(done, Unescape(text[pos..])) == Prepend(done + [text[pos]], Unescape(text[pos + 1..]))
  {
    var t := text[pos..];
    assert t[1..] == text[pos + 1..];
    if |t| > 1 { assert t[2..] == text[pos + 2..]; }
    var next := if t[0] == BRACE && |t| > 1 then Unescape(t[2..]) else Unescape(t[1..]);
    if next.Some? && (t[0] != BRACE || |t| > 1) {
      var b := if t[0] == BRACE then Flip(t[1]) else t[0];
      assert done + ([b] + next.value) == (done + [b]) + next.value;
    }
  }

  // ---- packets ----

  function Checksum(s: seq<byte>): byte {
    if s == [] then 0 else (Checksum(s[..|s| - 1]) + s[|s| - 1]) % 256
  }

  /** The checksum is the sum of the bytes modulo 256. */
  lemma {:induction false} ChecksumAdds(a: seq<byte>, b: seq<byte>, c: byte)
    ensures Checksum([]) == 0 && Checksum([c]) == c
    ensures Checksum(a + b) == (Checksum(a) + Checksum(b)) % 256
    decreases |b|
  {
    assert [c][..0] == [];
    if b == [] {
      assert a + b == a;
    } else {
      var front := b[..|b| - 1];
      assert (a + b)[..|a + b| - 1] == a + front;
      ChecksumAdds(a, front, c);
      AddAgain(Checksum(a), Checksum(front), b[|b| - 1]);
    }
  }

  lemma AddAgain(x: byte, y: byte, z: byte)
    ensures ((x + y) % 256 + z) % 256 == (x + (y + z) % 256) % 256
  {
  }

  function Packet(payload: seq<byte>): seq<byte> {
    [DOLLAR] + payload + [HASH] + HexPair(Checksum(payload))
  }

  /** What goes over the line: `write` returns the character as a signed number, so 0xFF looks like an
      error and is the last byte sent. */
  function Sent(s: seq<byte>): seq<byte> {
    if s == [] then [] else if s[0] == 0xFF then [s[0]] else [s[0]] + Sent(s[1..])
  }

  /** Reading up to `#`, with room for `n` bytes. */
  datatype Scanned = Complete(payload: seq<byte>, rest: seq<byte>) | Broken(rest: seq<byte>) | Open

  function Scan(s: seq<byte>, n: nat): Scanned {
    if s == [] then Open
    else if s[0] == 0xFF then Broken(s[1..])
    else if s[0] == HASH then Complete([], s[1..])
    else if n == 0 then Broken(s[1..])
    else
      var more := Scan(s[1..], n - 1);
      if more.Complete? then Complete([s[0]] + more.payload, more.rest) else more
  }

  /** The outcome of `recv_packet`: a payload, or a failure with the answer sent, or waiting for input; and
      what has not been read yet. */
  datatype Reception =
    | Accepted(payload: seq<byte>, rest: seq<byte>)
    | Failed(answer: seq<byte>, rest: seq<byte>)
    | Waiting

  function Receive(s: seq<byte>, n: nat): Reception {
    if s == [] then Waiting
    else if s[0] != DOLLAR then Receive(s[1..], n)
    else ReceiveBody(Scan(s[1..], n))
  }

  function ReceiveBody(body: Scanned): Reception {
    match body
    case Open => Waiting
    case Broken(rest) => Failed([], rest)
    case Complete(payload, rest) => CheckSum(payload, rest)
  }

  function CheckSum(payload: seq<byte>, s: seq<byte>): Reception {
    if s == [] then Waiting
    else if s[0] == 0xFF then Failed([], s[1..])
    else if |s| == 1 then Waiting
    else if s[1] == 0xFF then Failed([], s[2..])
    else if PairValue(s[0], s[1]).None? then Failed([], s[2..])
    else if PairValue(s[0], s[1]).value != Checksum(payload) then Failed([MINUS], s[2..])
    else Accepted(payload, s[2..])
  }

  // ---- what gets through ----

  predicate Clean(s: seq<byte>) {
    forall i :: 0 <= i < |s| ==> s[i] != HASH && s[i] != 0xFF
  }

  lemma {:induction false} ScanPayload(p: seq<byte>, rest: seq<byte>, n: nat)
    requires Clean(p) && |p| <= n
    ensures Scan(p + [HASH] + rest, n) == Complete(p, rest)
  {
    var s := p + [HASH] + rest;
    if p == [] {
      assert s == [HASH] + rest;
    } else {
      assert s[1..] == p[1..] + [HASH] + rest;
      assert p == [p[0]] + p[1..];
      ScanPayload(p[1..], rest, n - 1);
    }
  }

  lemma {:induction false} ScanIsClean(s: seq<byte>, n: nat)
    requires Scan(s, n).Complete?
    ensures Clean(Scan(s, n).payload) && |Scan(s, n).payload| <= n
  {
    if s[0] != HASH { ScanIsClean(s[1..], n - 1); }
  }

  lemma {:induction false} SkipNoise(noise: seq<byte>, s: seq<byte>, n: nat)
    requires DOLLAR !in noise
    ensures Receive(noise + s, n) == Receive(s, n)
  {
    if noise == [] {
      assert noise + s == s;
    } else {
      assert (noise + s)[1..] == noise[1..] + s;
      SkipNoise(noise[1..], s, n);
    }
  }

  lemma {:induction false} SentWhole(s: seq<byte>)
    requires 0xFF !in s
    ensures Sent(s) == s
  {
    if s != [] {
      assert s == [s[0]] + s[1..];
      SentWhole(s[1..]);
    }
  }

  lemma {:induction false} AcceptedIsClean(s: seq<byte>, n: nat)
    requires Receive(s, n).Accepted?
    ensures Clean(Receive(s, n).payload) && |Receive(s, n).payload| <= n
  {
    if s[0] == DOLLAR { ScanIsClean(s[1..], n); } else { AcceptedIsClean(s[1..], n); }
  }

  lemma ReceiveIntact(p: seq<byte>, sum: byte, rest: seq<byte>, n: nat)
    requires Clean(p) && |p| <= n
    ensures Receive([DOLLAR] + p + [HASH] + HexPair(sum) + rest, n) ==
      if sum == Checksum(p) then Accepted(p, rest) else Failed([MINUS], rest)
  {
    var s := [DOLLAR] + p + [HASH] + HexPair(sum) + rest;
    var tail := HexPair(sum) + rest;
    assert s[1..] == p + [HASH] + tail;
    ScanPayload(p, tail, n);
    PairRoundTrip(sum);
    DigitRoundTrip(sum / 16);
    DigitRoundTrip(sum % 16);
    assert tail[2..] == rest;
  }

  /** A packet that was sent is accepted, whatever noise precedes it and whatever follows, with the payload
      that was sent, exactly if the payload fits and has neither `#` nor the byte 0xFF. */
  lemma PacketRoundTrip(payload: seq<byte>, noise: seq<byte>, rest: seq<byte>, n: nat)
    requires DOLLAR !in noise
    ensures Clean(payload) && |payload| <= n ==>
      Receive(noise + (Sent(Packet(payload)) + rest), n) == Accepted(payload, rest)
    ensures !(Clean(payload) && |payload| <= n) ==>
      !(Receive(noise + (Sent(Packet(payload)) + rest), n).Accepted? &&
        Receive(noise + (Sent(Packet(payload)) + rest), n).payload == payload)
  {
    var s := Sent(Packet(payload)) + rest;
    SkipNoise(noise, s, n);
    if Clean(payload) && |payload| <= n {
      PacketWithout255(payload);
      SentWhole(Packet(payload));
      assert s == [DOLLAR] + payload + [HASH] + HexPair(Checksum(payload)) + rest;
      ReceiveIntact(payload, Checksum(payload), rest, n);
    } else if Receive(s, n).Accepted? {
      AcceptedIsClean(s, n);
    }
  }

  /** One packet on the line, byte by byte: `OK` is sent as `$OK#9a`, and that is accepted as `OK`. */
  lemma PacketOfOk(line: seq<byte>, ok: seq<byte>, n: nat)
    requires ok == [0x4F, 0x4B] && line == [0x24, 0x4F, 0x4B, 0x23, 0x39, 0x61] && n >= 2
    ensures Sent(Packet(ok)) == line && Receive(line, n) == Accepted(ok, [])
  {
    assert ok == [0x4F] + [0x4B];
    ChecksumAdds([0x4F], [0x4B], 0x4F);
    ChecksumAdds([0x4F], [0x4B], 0x4B);
    assert Packet(ok) == line;
    SentWhole(line);
    PacketRoundTrip(ok, [], [], n);
    assert [] + (line + []) == line;
  }

  lemma PacketWithout255(payload: seq<byte>)
    requires 0xFF !in payload
    ensures 0xFF !in Packet(payload)
  {
    DigitRoundTrip(Checksum(payload) / 16);
    DigitRoundTrip(Checksum(payload) % 16);
  }

  lemma {:induction false} HexClean(data: seq<byte>)
    ensures Clean(Hex(data))
  {
    if data != [] {
      var b := data[|data| - 1];
      HexClean(data[..|data| - 1]);
      DigitRoundTrip(b / 16);
      DigitRoundTrip(b % 16);
    }
  }

  /** Any bytes at all survive the way through hexadecimal and a packet, if there is room. */
  lemma HexTransfer(data: seq<byte>, noise: seq<byte>, rest: seq<byte>, n: nat)
    requires DOLLAR !in noise && 2 * |data| <= n
    ensures Receive(noise + (Sent(Packet(Hex(data))) + rest), n) == Accepted(Hex(data), rest)
    ensures UnHex(Hex(data)) == Some(data)
  {
    HexClean(data);
    PacketRoundTrip(Hex(data), noise, rest, n);
    HexRoundTrip(data);
  }

  /** Escaped bytes, which `EscapeRoundTrip` decodes, survive a packet exactly if 0xFF is not among them:
      escaping does not cover it. */
  lemma BinaryTransfer(data: seq<byte>, noise: seq<byte>, rest: seq<byte>, n: nat)
    requires DOLLAR !in noise && |Escape(data)| <= n
    ensures 0xFF !in data ==> Receive(noise + (Sent(Packet(Escape(data))) + rest), n) == Accepted(Escape(data), rest)
    ensures 0xFF in data ==> Receive(noise + (Sent(Packet(Escape(data))) + rest), n) != Accepted(Escape(data), rest)
  {
    EscapeClean(data);
    assert Clean(Escape(data)) <==> 0xFF !in data by {
      assert forall i :: 0 <= i < |Escape(data)| ==> Escape(data)[i] in Escape(data);
    }
    PacketRoundTrip(Escape(data), noise, rest, n);
  }

  lemma {:induction false} ChecksumDiffers(p: seq<byte>, q: seq<byte>, k: nat)
    requires |p| == |q| && k < |p| && p[k] != q[k] && forall i :: 0 <= i < |p| && i != k ==> p[i] == q[i]
    ensures Checksum(p) != Checksum(q)
    decreases |p|
  {
    var front, back := p[..|p| - 1], q[..|q| - 1];
    if k == |p| - 1 {
      assert front == back;
      Apart(p[k], q[k], Checksum(front));
    } else {
      ChecksumDiffers(front, back, k);
      Apart(Checksum(front), Checksum(back), p[|p| - 1]);
    }
  }

  lemma Apart(a: byte, b: byte, x: byte)
    requires a != b
    ensures (a + x) % 256 != (b + x) % 256
  {
  }

  /** A payload with one byte damaged on the way, other than into `#` or 0xFF, is refused with `-`, 0x2D. */
  lemma DamageRefused(p: seq<byte>, q: seq<byte>, k: nat, noise: seq<byte>, rest: seq<byte>, n: nat)
    requires DOLLAR !in noise && Clean(q) && |q| <= n
    requires |p| == |q| && k < |p| && p[k] != q[k] && forall i :: 0 <= i < |p| && i != k ==> p[i] == q[i]
    ensures Receive(noise + ([DOLLAR] + q + [HASH] + HexPair(Checksum(p)) + rest), n) == Failed([0x2D], rest)
  {
    ChecksumDiffers(p, q, k);
    SkipNoise(noise, [DOLLAR] + q + [HASH] + HexPair(Checksum(p)) + rest, n);
    ReceiveIntact(q, Checksum(p), rest, n);
  }

  // ---- the stub ----

  /** What a call that reads from the line came back with, if the line had enough for it. */
  datatype Answer = Code(code: int) | Blocked

  class Stub {
    var incoming: seq<byte>
    var outgoing: seq<byte>

    constructor (incoming: seq<byte>)
      ensures this.incoming == incoming && outgoing == []
    {
      this.incoming, outgoing := incoming, [];
    }

    method Write(b: byte) returns (r: int)
      modifies this`outgoing
      ensures outgoing == old(outgoing) + [b] && r == Signed(b)
    {
      outgoing := outgoing + [b];
      r := Signed(b);
    }

    method Read() returns (r: int)
      requires incoming != []
      modifies this`incoming
      ensures incoming == old(incoming)[1..] && r == Signed(old(incoming)[0])
    {
      r := Signed(incoming[0]);
      incoming := incoming[1..];
    }

    method WriteString(s: seq<byte>) returns (r: int)
      modifies this`outgoing
      ensures outgoing == old(outgoing) + Sent(s) && r == if 0xFF in s then -1 else 0
    {
      var i := 0;
      while i < |s|
        invariant 0 <= i <= |s| && 0xFF !in s[..i]
        invariant outgoing + Sent(s[i..]) == old(outgoing) + Sent(s)
      {
        assert s[i..][1..] == s[i + 1..];
        var w := Write(s[i]);
        if w == -1 { return -1; }
        i := i + 1;
      }
      assert s[i..] == [];
      r := 0;
    }

    /** `checksum`, an `unsigned char` that wraps. */
    method ChecksumOf(s: seq<byte>) returns (sum: byte)
      ensures sum == Checksum(s)
    {
      sum := 0;
      var i := 0;
      while i < |s|
        invariant 0 <= i <= |s| && sum == Checksum(s[..i])
      {
        assert s[..i + 1][..i] == s[..i];
        sum := (sum + s[i]) % 256;
        i := i + 1;
      }
      assert s[..i] == s;
    }

    /** `send_packet`: -1 if a byte 0xFF cut it short or the answer makes no sense, else what was answered. */
    method SendPacket(payload: seq<byte>) returns (answer: Answer)
      modifies this
      ensures outgoing == old(outgoing) + Sent(Packet(payload))
      ensures answer ==
        if 0xFF in payload then Code(-1)
        else if old(incoming) == [] then Blocked
        else Code(if old(incoming)[0] == 0x2B then 0 else if old(incoming)[0] == 0x2D then 1 else -1)
      ensures incoming == if answer == Blocked || 0xFF in payload then old(incoming) else old(incoming)[1..]
    {
      var r := WritePacket(payload);
      if r == -1 { return Code(-1); }
      answer := ReceiveAck();
    }

    method WritePacket(payload: seq<byte>) returns (r: int)
      modifies this`outgoing
      ensures outgoing == old(outgoing) + Sent(Packet(payload)) && r == if 0xFF in payload then -1 else 0
    {
      SentPacket(payload);
      r := Write(DOLLAR);
      r := WriteString(payload);
      if r == -1 { return; }
      r := WriteChecksum(payload);
    }

    method WriteChecksum(payload: seq<byte>) returns (r: int)
      modifies this`outgoing
      ensures outgoing == old(outgoing) + Sent(Trailer(payload)) && r == 0
    {
      var text := TrailerOf(payload);
      TrailerClean(payload);
      r := WriteString(text);
    }

    method TrailerOf(payload: seq<byte>) returns (text: seq<byte>)
      ensures text == Trailer(payload)
    {
      var sum := ChecksumOf(payload);
      var buf := new byte[3];
      buf[0] := HASH;
      var r := EncHex(buf, 1, 2, [sum]);
      HexOne(sum);
      text := buf[..];
    }

    /** `recv_ack`. */
    method ReceiveAck() returns (answer: Answer)
      modifies this`incoming
      ensures incoming == if old(incoming) == [] then [] else old(incoming)[1..]
      ensures answer ==
        if old(incoming) == [] then Blocked
        else Code(if old(incoming)[0] == PLUS then 0 else if old(incoming)[0] == MINUS then 1 else -1)
    {
      if incoming == [] { return Blocked; }
      var response := Read();
      return Code(if response == Signed(PLUS) then 0 else if response == Signed(MINUS) then 1 else -1);
    }

    /** `recv_packet`, into `buf`.  The line blocks when it has nothing more; what is to be read then is
        not consumed here. */
    method RecvPacket(buf: array<byte>) returns (outcome: Reception)
      modifies this, buf
      ensures outcome == Receive(old(incoming), buf.Length)
      ensures outcome.Accepted? ==>
        && |outcome.payload| <= buf.Length && buf[..|outcome.payload|] == outcome.payload
        && incoming == outcome.rest && outgoing == old(outgoing) + [0x2B]
      ensures outcome.Failed? ==> incoming == outcome.rest && outgoing == old(outgoing) + outcome.answer
      ensures outcome.Waiting? ==> outgoing == old(outgoing)
    {
      var started := SkipToStart();
      if !started { return Waiting; }
      var len, more := ReadBody(buf);
      if more != 0 {
        return if more < 0 then Waiting else Failed([], incoming);
      }
      outcome := ReadChecksum(buf, len);
    }

    method ReadChecksum(buf: array<byte>, len: nat) returns (outcome: Reception)
      requires len <= buf.Length
      modifies this
      ensures outcome == CheckSum(buf[..len], old(incoming))
      ensures outcome.Accepted? ==> incoming == outcome.rest && outgoing == old(outgoing) + [PLUS]
      ensures outcome.Failed? ==> incoming == outcome.rest && outgoing == old(outgoing) + outcome.answer
      ensures outcome.Waiting? ==> outgoing == old(outgoing)
    {
      var digits, status := ReadTwo();
      if status != 0 {
        return if status < 0 then Waiting else Failed([], incoming);
      }
      var expected := new byte[1];
      var ok := DecHex(digits, expected);
      if ok == -1 { return Failed([], incoming); }
      var actual := ChecksumOf(buf[..len]);
      if Signed(actual) != Signed(expected[0]) {
        var w := Write(MINUS);
        return Failed([MINUS], incoming);
      }
      var w := Write(PLUS);
      return Accepted(buf[..len], incoming);
    }

    method ReadTwo() returns (digits: seq<byte>, status: int)
      modifies this`incoming
      ensures ReadTwoDone(old(incoming), digits, status, incoming)
    {
      digits := [];
      while |digits| < 2
        invariant |digits| <= 2 && |digits| <= |old(incoming)| && digits == old(incoming)[..|digits|]
        invariant incoming == old(incoming)[|digits|..] && 0xFF !in digits
      {
        if incoming == [] { return digits, -1; }
        var c := Read();
        if c == -1 { return digits, 1; }
        digits := digits + [Unsigned(c)];
      }
      status := 0;
    }

    method SkipToStart() returns (started: bool)
      modifies this`incoming
      ensures started ==> forall n :: Receive(old(incoming), n) == ReceiveBody(Scan(incoming, n))
      ensures !started ==> forall n :: Receive(old(incoming), n) == Waiting
    {
      started := false;
      while incoming != [] && !started
        invariant !started ==> forall n :: Receive(old(incoming), n) == Receive(incoming, n)
        invariant started ==> forall n :: Receive(old(incoming), n) == ReceiveBody(Scan(incoming, n))
        decreases |incoming|
      {
        var data := Read();
        started := data == Signed(DOLLAR);
      }
    }

    /** Reading into the buffer up to `#`: 0 if that came, 1 for an error, -1 if the line ran dry. */
    method ReadBody(buf: array<byte>) returns (len: nat, status: int)
      modifies this`incoming, buf
      ensures len <= buf.Length
      ensures match Scan(old(incoming), buf.Length)
        case Complete(payload, rest) => status == 0 && incoming == rest && buf[..len] == payload
        case Broken(rest) => status == 1 && incoming == rest
        case Open => status == -1
    {
      len := 0;
      while incoming != []
        invariant len <= buf.Length
        invariant Scan(old(incoming), buf.Length) == Extend(buf[..len], Scan(incoming, buf.Length - len))
        decreases |incoming|
      {
        ScanStep(incoming, buf.Length - len, buf[..len]);
        var data := Read();
        if data == -1 { return len, 1; }
        if data == Signed(HASH) { return len, 0; }
        if len >= buf.Length { return len, 1; }
        len := PutByte(buf, len, Unsigned(data));
      }
      status := -1;
    }
  }

  /** Two characters from `s`: 0 if they came, 1 if one was 0xFF, -1 if the line ran dry. */
  ghost predicate ReadTwoDone(s: seq<byte>, digits: seq<byte>, status: int, rest: seq<byte>) {
    if s == [] then status == -1
    else if s[0] == 0xFF then status == 1 && rest == s[1..]
    else if |s| == 1 then status == -1
    else if s[1] == 0xFF then status == 1 && rest == s[2..]
    else status == 0 && digits == s[..2] && rest == s[2..]
  }

  lemma ScanStep(s: seq<byte>, n: nat, front: seq<byte>)
    requires s != []
    ensures s[0] == 0xFF ==> Extend(front, Scan(s, n)) == Broken(s[1..])
    ensures s[0] == HASH ==> Extend(front, Scan(s, n)) == Complete(front, s[1..])
    ensures s[0] != 0xFF && s[0] != HASH && n == 0 ==> Extend(front, Scan(s, n)) == Broken(s[1..])
    ensures s[0] != 0xFF && s[0] != HASH && n > 0 ==>
      Extend(front, Scan(s, n)) == Extend(front + [s[0]], Scan(s[1..], n - 1))
  {
    assert front + [] == front;
    if n > 0 && Scan(s[1..], n - 1).Complete? {
      var p := Scan(s[1..], n - 1).payload;
      assert front + ([s[0]] + p) == (front + [s[0]]) + p;
    }
  }

  function Extend(front: seq<byte>, s: Scanned): Scanned {
    if s.Complete? then Complete(front + s.payload, s.rest) else s
  }

  /** `#` and the checksum. */
  function Trailer(payload: seq<byte>): seq<byte> {
    [HASH] + HexPair(Checksum(payload))
  }

  lemma TrailerClean(payload: seq<byte>)
    ensures 0xFF !in Trailer(payload)
  {
    DigitRoundTrip(Checksum(payload) / 16);
    DigitRoundTrip(Checksum(payload) % 16);
  }

  lemma HexOne(b: byte)
    ensures Hex([b]) == HexPair(b)
  {
    assert [b][..0] == [];
  }

  lemma SentPacket(payload: seq<byte>)
    ensures Sent(Packet(payload)) ==
      if 0xFF in payload then [DOLLAR] + Sent(payload) else [DOLLAR] + Sent(payload) + Sent(Trailer(payload))
  {
    assert Packet(payload) == [DOLLAR] + (payload + Trailer(payload));
    assert Packet(payload)[1..] == payload + Trailer(payload);
    SentConcat(payload, Trailer(payload));
  }

  lemma {:induction false} SentConcat(s: seq<byte>, t: seq<byte>)
    ensures Sent(s + t) == if 0xFF in s then Sent(s) else Sent(s) + Sent(t)
  {
    if s == [] {
      assert s + t == t;
    } else {
      assert (s + t)[1..] == s[1..] + t;
      assert s == [s[0]] + s[1..];
      SentConcat(s[1..], t);
    }
  }
}
