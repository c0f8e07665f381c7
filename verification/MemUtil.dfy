/** Bytes, little-endian words, and the copy loops of utils/memutil.cc. */
module MemUtil {
  import opened Common

  type byte = x: int | 0 <= x < 256

  function Compose(b0: int, b1: int, b2: int, b3: int): int {
    b0 + 0x100 * b1 + 0x1_0000 * b2 + 0x100_0000 * b3
  }

  /** The 32-bit little-endian word at offset `x`. */
  function WordAt(m: seq<byte>, x: int): (w: int)
    requires 0 <= x && x + 4 <= |m|
    ensures 0 <= w < BITS32
  {
    Compose(m[x], m[x + 1], m[x + 2], m[x + 3])
  }

  function ByteOf(w: int, k: int): byte
    requires 0 <= w < BITS32 && 0 <= k < 4
  {
    if k == 0 then w % 0x100
    else if k == 1 then w / 0x100 % 0x100
    else if k == 2 then w / 0x1_0000 % 0x100
    else w / 0x100_0000
  }

  /** Splitting a word into bytes loses nothing. */
  lemma BytesMakeWord(w: int)
    requires 0 <= w < BITS32
    ensures Compose(ByteOf(w, 0), ByteOf(w, 1), ByteOf(w, 2), ByteOf(w, 3)) == w
  {
    var a, b := w / 0x100, w / 0x1_0000;
    assert b == a / 0x100 && w / 0x100_0000 == b / 0x100;
  }

  lemma LowByte(a: int, highA: int, b: int, highB: int)
    requires 0 <= a < 0x100 && 0 <= b < 0x100 && a + 0x100 * highA == b + 0x100 * highB
    ensures a == b && highA == highB
  {
  }

  lemma ComposeInjective(a0: int, a1: int, a2: int, a3: int, b0: int, b1: int, b2: int, b3: int)
    requires 0 <= a0 < 0x100 && 0 <= a1 < 0x100 && 0 <= a2 < 0x100
    requires 0 <= b0 < 0x100 && 0 <= b1 < 0x100 && 0 <= b2 < 0x100
    requires Compose(a0, a1, a2, a3) == Compose(b0, b1, b2, b3)
    ensures a0 == b0 && a1 == b1 && a2 == b2 && a3 == b3
  {
    LowByte(a0, a1 + 0x100 * (a2 + 0x100 * a3), b0, b1 + 0x100 * (b2 + 0x100 * b3));
    LowByte(a1, a2 + 0x100 * a3, b1, b2 + 0x100 * b3);
    LowByte(a2, a3, b2, b3);
  }

  /** A word determines its bytes. */
  lemma WordMakesBytes(m: seq<byte>, m': seq<byte>, x: int)
    requires 0 <= x && x + 4 <= |m| && x + 4 <= |m'| && WordAt(m, x) == WordAt(m', x)
    ensures m[x] == m'[x] && m[x + 1] == m'[x + 1] && m[x + 2] == m'[x + 2] && m[x + 3] == m'[x + 3]
  {
    ComposeInjective(m[x], m[x + 1], m[x + 2], m[x + 3], m'[x], m'[x + 1], m'[x + 2], m'[x + 3]);
  }

  /** memcpy: byte by byte, upwards.  A source running past the end of `a` reads bytes this object
      does not determine.  Byte i is the old source byte, unless an earlier step has already
      overwritten it. */
  method MemCpy(a: array<byte>, dst: int, src: int, size: nat)
    requires 0 <= dst && dst + size <= a.Length && 0 <= src
    modifies a
    ensures forall x :: 0 <= x < a.Length && !(dst <= x < dst + size) ==> a[x] == old(a[x])
    ensures forall x :: dst <= x < dst + size && x - dst + src < a.Length ==>
              a[x] == if dst <= x - dst + src < x then a[x - dst + src] else old(a[x - dst + src])
  {
    var i := 0;
    while i != size
      invariant 0 <= i <= size
      invariant forall x :: 0 <= x < a.Length && !(dst <= x < dst + i) ==> a[x] == old(a[x])
      invariant forall x :: dst <= x < dst + i && x - dst + src < a.Length ==>
                  a[x] == if dst <= x - dst + src < x then a[x - dst + src] else old(a[x - dst + src])
    {
      var b: byte := *;
      if src + i < a.Length { b := a[src + i]; }
      a[dst + i] := b;
      i := i + 1;
    }
  }

  /** memmove: the direction of the loop makes every byte the old source byte, however the two
      ranges overlap. */
  method MemMove(a: array<byte>, dst: int, src: int, size: nat)
    requires 0 <= dst && dst + size <= a.Length && 0 <= src
    modifies a
    ensures forall x :: 0 <= x < a.Length && !(dst <= x < dst + size) ==> a[x] == old(a[x])
    ensures forall x :: dst <= x < dst + size && x - dst + src < a.Length ==> a[x] == old(a[x - dst + src])
  {
    if src > dst {
      var i := 0;
      while i != size
        invariant 0 <= i <= size
        invariant forall x :: 0 <= x < a.Length && !(dst <= x < dst + i) ==> a[x] == old(a[x])
        invariant forall x :: dst <= x < dst + i && x - dst + src < a.Length ==> a[x] == old(a[x - dst + src])
      {
        var b: byte := *;
        if src + i < a.Length { b := a[src + i]; }
        a[dst + i] := b;
        i := i + 1;
      }
    } else {
      var i := size;
      while i != 0
        invariant 0 <= i <= size
        invariant forall x :: 0 <= x < a.Length && !(dst + i <= x < dst + size) ==> a[x] == old(a[x])
        invariant forall x :: dst + i <= x < dst + size && x - dst + src < a.Length ==> a[x] == old(a[x - dst + src])
      {
        var b: byte := *;
        if src + i - 1 < a.Length { b := a[src + i - 1]; }
        a[dst + i - 1] := b;
        i := i - 1;
      }
    }
  }
}
