/** What several of the modules use. */
module Common {

  /** The number of values of a 32-bit word. */
  const BITS32: int := 0x1_0000_0000

  datatype Option<T> = None | Some(value: T)

  // ---- sequences ----

  ghost predicate Distinct<T>(s: seq<T>) {
    forall i, j :: 0 <= i < j < |s| ==> s[i] != s[j]
  }

  ghost predicate Before<T>(s: seq<T>, x: T, y: T) {
    exists i, j :: 0 <= i < j < |s| && s[i] == x && s[j] == y
  }

  /** `s` without the element at position `k`. */
  function Drop<T>(s: seq<T>, k: int): seq<T>
    requires 0 <= k < |s|
  {
    s[..k] + s[k + 1..]
  }

  function Position<T(==)>(s: seq<T>, x: T): (k: nat)
    requires x in s
    ensures k < |s| && s[k] == x
  {
    if s[0] == x then 0 else 1 + Position(s[1..], x)
  }

  /** Deletion by identity. */
  function Delete<T(==)>(s: seq<T>, x: T): seq<T> {
    if x in s then Drop(s, Position(s, x)) else s
  }

  lemma PositionIs<T>(s: seq<T>, k: nat)
    requires Distinct(s) && k < |s|
    ensures Position(s, s[k]) == k && Delete(s, s[k]) == Drop(s, k)
  {
  }

  lemma DropFacts<T>(s: seq<T>, k: nat)
    requires Distinct(s) && k < |s|
    ensures Distinct(Drop(s, k)) && |Drop(s, k)| == |s| - 1
    ensures forall y :: y in Drop(s, k) <==> y in s && y != s[k]
  {
    var d := Drop(s, k);
    forall y ensures y in d <==> y in s && y != s[k] {
      if y in s && y != s[k] {
        var i :| 0 <= i < |s| && s[i] == y;
        assert d[if i < k then i else i - 1] == y;
      }
    }
  }

  lemma DeleteFacts<T>(s: seq<T>, x: T)
    requires Distinct(s)
    ensures Distinct(Delete(s, x))
    ensures forall y :: y in Delete(s, x) <==> y in s && y != x
    ensures |Delete(s, x)| == if x in s then |s| - 1 else |s|
  {
    if x in s { DropFacts(s, Position(s, x)); }
  }

  lemma DropKeepsOrder<T>(s: seq<T>, k: nat, x: T, y: T)
    requires k < |s| && Before(s, x, y) && s[k] != x && s[k] != y
    ensures Before(Drop(s, k), x, y)
  {
    var i, j :| 0 <= i < j < |s| && s[i] == x && s[j] == y;
    assert Drop(s, k)[if i < k then i else i - 1] == x && Drop(s, k)[if j < k then j else j - 1] == y;
  }

  // ---- numbers ----

  function Min(a: int, b: int): int { if a < b then a else b }

  function Max(a: int, b: int): int { if a < b then b else a }

  function Power(base: int, exp: nat): int {
    if exp == 0 then 1 else base * Power(base, exp - 1)
  }

  lemma Distribute(a: int, d: int)
    ensures (a + 1) * d == a * d + d
  {
  }
}
