/** Arithmetic of utils/math.h, and the timer setting of device/watch.cc that rests on it. */
module Arithmetic {
  import opened Common

  const BITS63 := 0x8000_0000_0000_0000
  const BITS64 := 0x1_0000_0000_0000_0000

  function Pow2(n: nat): (p: nat)
    ensures p >= 1
  {
    if n == 0 then 1 else 2 * Pow2(n - 1)
  }

  // ---- division ----

  lemma Product(d: nat, q: nat)
    ensures d * (2 * q) == 2 * (d * q)
  {
  }

  lemma FactorBelow(d: nat, q: nat)
    requires d >= 1
    ensures q <= d * q
  {
  }

  lemma Half(n: nat)
    ensures 2 * n / 2 == n
  {
  }

  lemma Euclid(num: nat, den: nat, quot: nat, rem: nat)
    requires den > 0 && quot * den + rem == num && rem < den
    ensures quot == num / den && rem == num % den
  {
    var q, r := num / den, num % den;
    assert q * den + r == num;
    if q < quot {
      ProductGap(quot, q, den);
    } else if q > quot {
      ProductGap(q, quot, den);
    }
  }

  lemma {:induction false} ProductGap(a: int, b: int, d: int)
    requires a > b && d > 0
    ensures a * d >= b * d + d
    decreases a - b
  {
    Distribute(a - 1, d);
    if a - 1 > b { ProductGap(a - 1, b, d); }
  }

  /** `den`, doubled until its highest bit is set, with the weight that this gives a quotient bit. */
  method Align(den: nat) returns (d: nat, qbit: nat, ghost k: nat)
    requires 0 < den < BITS64
    ensures BITS63 <= d < BITS64 && d == den * qbit && qbit == Pow2(k)
  {
    d, qbit, k := den, 1, 0;
    while d < BITS63
      invariant 0 < d < BITS64 && d == den * qbit && qbit == Pow2(k)
      decreases BITS64 - d
    {
      Product(den, qbit);
      FactorBelow(den, qbit);
      d := d * 2 % BITS64;
      qbit := qbit * 2 % BITS64;
      k := k + 1;
    }
  }

  lemma QuotientBit(quot: nat, qbit: nat, den: nat)
    ensures (quot + qbit) * den == quot * den + den * qbit
  {
  }

  /** What the quotient bits found so far account for. */
  ghost predicate Accounts(num: nat, den: nat, quot: nat, rem: nat) {
    quot * den + rem == num
  }

  lemma TakeBit(num: nat, den: nat, quot: nat, rem: nat, d: nat, qbit: nat)
    requires num < BITS64 && den > 0 && Accounts(num, den, quot, rem) && d == den * qbit && d <= rem
    ensures quot + qbit < BITS64 && Accounts(num, den, quot + qbit, rem - d)
  {
    QuotientBit(quot, qbit, den);
    FactorBelow(den, quot + qbit);
  }

  ghost predicate Weighs(d: nat, den: nat, qbit: nat, k: nat) {
    qbit == Pow2(k) && d == den * qbit
  }

  lemma Halve(d: nat, den: nat, qbit: nat, k: nat)
    requires Weighs(d, den, qbit, k)
    ensures if k == 0 then qbit / 2 == 0 && d == den
            else Weighs(d / 2, den, qbit / 2, k - 1) && qbit / 2 >= 1 && d == 2 * (d / 2)
  {
    if k > 0 {
      Product(den, Pow2(k - 1));
      Half(den * Pow2(k - 1));
      Half(Pow2(k - 1));
    }
  }

  /** `Math::div64`: the exact quotient and remainder of any two 64-bit numbers, the second not 0. */
  method Div64(num: nat, den: nat) returns (quot: nat, rem: nat)
    requires num < BITS64 && 0 < den < BITS64
    ensures quot == num / den && rem == num % den
  {
    var d, qbit;
    ghost var k;
    d, qbit, k := Align(den);
    quot, rem := 0, num;
    while qbit != 0
      invariant qbit != 0 ==> Weighs(d, den, qbit, k) && rem < 2 * d
      invariant qbit == 0 ==> rem < den
      invariant Accounts(num, den, quot, rem) && quot < BITS64
      decreases qbit
    {
      quot, rem := Subtract(num, den, quot, rem, d, qbit, k);
      Halve(d, den, qbit, k);
      if k > 0 { k := k - 1; }
      d := d / 2;
      qbit := qbit / 2;
    }
    Euclid(num, den, quot, rem);
  }

  method Subtract(ghost num: nat, ghost den: nat, quot: nat, rem: nat, d: nat, qbit: nat, ghost k: nat)
    returns (quot': nat, rem': nat)
    requires num < BITS64 && den > 0 && Accounts(num, den, quot, rem) && quot < BITS64
    requires Weighs(d, den, qbit, k) && rem < 2 * d
    ensures Accounts(num, den, quot', rem') && quot' < BITS64 && rem' < d
  {
    quot', rem' := quot, rem;
    if d <= rem {
      TakeBit(num, den, quot, rem, d, qbit);
      rem' := rem - d;
      quot' := (quot + qbit) % BITS64;
    }
  }

  // ---- powers ----

  lemma {:induction false} PowerSquares(base: int, n: nat)
    ensures Power(base * base, n) == Power(base, 2 * n)
  {
    if n > 0 {
      PowerSquares(base, n - 1);
      assert Power(base, 2 * n) == base * Power(base, 2 * n - 1);
      assert Power(base, 2 * n - 1) == base * Power(base, 2 * (n - 1));
      Regroup(base, base, Power(base, 2 * (n - 1)));
    }
  }

  /** The laws of powers. */
  lemma {:induction false} PowerLaws(base: int, m: nat, n: nat)
    ensures Power(base, 0) == 1 && Power(base, 1) == base
    ensures Power(base, m + n) == Power(base, m) * Power(base, n)
    decreases m
  {
    if m > 0 {
      PowerLaws(base, m - 1, n);
      Regroup(base, Power(base, m - 1), Power(base, n));
    }
  }

  lemma Regroup(a: int, b: int, c: int)
    ensures a * (b * c) == (a * b) * c
  {
  }

  /** Equality up to multiples of 2^32, with the multiple. */
  ghost predicate Same(x: int, y: int) {
    exists k: int :: Differ(x, y, k)
  }

  ghost predicate Differ(x: int, y: int, k: int) {
    x == y + k * BITS32
  }

  lemma SameProduct(a: int, b: int, x: int, y: int)
    requires Same(a, x) && Same(b, y)
    ensures Same(a * b, x * y)
  {
    var k: int :| Differ(a, x, k);
    var l: int :| Differ(b, y, l);
    ProductDiffers(x, y, k, l);
    assert Differ(a * b, x * y, x * l + k * y + k * l * BITS32);
  }

  lemma ProductDiffers(x: int, y: int, k: int, l: int)
    ensures (x + k * BITS32) * (y + l * BITS32) == x * y + (x * l + k * y + k * l * BITS32) * BITS32
  {
  }

  lemma SameReduced(x: int)
    ensures Same(x % BITS32, x)
  {
    assert Differ(x % BITS32, x, -(x / BITS32));
  }

  lemma SameTransitive(x: int, y: int, z: int)
    requires Same(x, y) && Same(y, z)
    ensures Same(x, z)
  {
    var k: int :| Differ(x, y, k);
    var l: int :| Differ(y, z, l);
    assert Differ(x, z, k + l);
  }

  lemma SameRemainder(x: int, y: int)
    requires Same(x, y) && 0 <= x < BITS32
    ensures x == y % BITS32
  {
    var k: int :| Differ(x, y, k);
  }

  /** What squaring and multiplying have still to do: `result * base^exp` is the power asked for. */
  ghost predicate Owes(result: nat, base: nat, exp: nat, target: int) {
    Same(result * Power(base, exp), target)
  }

  lemma OddStep(result: nat, base: nat, exp: nat, target: int)
    requires Owes(result, base, exp, target) && exp % 2 == 1
    ensures Owes(result * base % BITS32, base, exp - 1, target)
  {
    SameReduced(result * base);
    SameReflexive(Power(base, exp - 1));
    SameProduct(result * base % BITS32, Power(base, exp - 1), result * base, Power(base, exp - 1));
    Regroup(result, base, Power(base, exp - 1));
    SameTransitive((result * base % BITS32) * Power(base, exp - 1), result * Power(base, exp), target);
  }

  lemma SameReflexive(x: int)
    ensures Same(x, x)
  {
    assert Differ(x, x, 0);
  }

  lemma {:induction false} SamePower(x: int, y: int, n: nat)
    requires Same(x, y)
    ensures Same(Power(x, n), Power(y, n))
  {
    if n == 0 {
      SameReflexive(1);
    } else {
      SamePower(x, y, n - 1);
      SameProduct(x, Power(x, n - 1), y, Power(y, n - 1));
    }
  }

  lemma EvenStep(result: nat, base: nat, half: nat, target: int)
    requires Owes(result, base, 2 * half, target)
    ensures Owes(result, base * base % BITS32, half, target)
  {
    SameReduced(base * base);
    SamePower(base * base % BITS32, base * base, half);
    PowerSquares(base, half);
    SameReflexive(result);
    SameProduct(result, Power(base * base % BITS32, half), result, Power(base, 2 * half));
    SameTransitive(result * Power(base * base % BITS32, half), result * Power(base, 2 * half), target);
  }

  /** `Math::pow`: the power modulo 2^32. */
  method Pow(base: nat, exp: nat) returns (result: nat)
    requires base < BITS32 && exp < BITS32
    ensures result == Power(base, exp) % BITS32
  {
    var b: nat, e: nat := base, exp;
    result := 1;
    SameReflexive(Power(base, exp));
    ghost var target := Power(base, exp);
    var more := true;
    while more
      invariant 0 <= result < BITS32 && Owes(result, b, e, target)
      invariant !more ==> e == 0
      decreases more, e
    {
      if e % 2 == 1 {
        OddStep(result, b, e, target);
        result := result * b % BITS32;
      }
      ghost var half := e / 2;
      e := e / 2;
      if e == 0 {
        more := false;
      } else {
        EvenStep(result, b, half, target);
        b := b * b % BITS32;
      }
    }
    SameRemainder(result, target);
  }

  // ---- the timer ----

  predicate Divider(d: nat) {
    d == 1 || d == 2 || d == 4 || d == 8 || d == 16 || d == 32 || d == 64 || d == 128
  }

  /** Divided by `d`, the ticks fit into the 32-bit counter of the timer. */
  predicate Fits(ticks: nat, d: nat)
    requires d > 0
  {
    ticks / d < BITS32
  }

  lemma FitsBelow(ticks: nat, d: nat)
    requires d > 0
    ensures Fits(ticks, d) <==> ticks < d * BITS32
  {
    var q, r := ticks / d, ticks % d;
    assert ticks == q * d + r;
    if q < BITS32 {
      ProductGap(BITS32, q, d);
    } else if q > BITS32 {
      ProductGap(q, BITS32, d);
    }
  }

  lemma Powers(d: nat)
    requires Divider(d)
    ensures exists n: nat :: n <= 7 && d == Pow2(n)
  {
    assert Pow2(3) == 8;
    assert Pow2(7) == 128;
    var n: nat := if d == 1 then 0 else if d == 2 then 1 else if d == 4 then 2 else if d == 8 then 3
                  else if d == 16 then 4 else if d == 32 then 5 else if d == 64 then 6 else 7;
    assert d == Pow2(n);
  }

  lemma {:induction false} PowersGrow(m: nat, n: nat)
    requires m <= n
    ensures Pow2(m) <= Pow2(n)
    decreases n
  {
    if m < n { PowersGrow(m, n - 1); }
  }

  class Watch {
    var irqInterval: nat
    var initialCount: nat
    var divide: nat

    constructor ()
      ensures irqInterval == initialCount == divide == 0
    {
      irqInterval, initialCount, divide := 0, 0, 0;
    }

    /** `Watch::windup` succeeds exactly if some power of two that the hardware knows brings the interval
        into 32 bits, that is, if it has fewer than 2^39 ticks, and then takes the smallest. */
    method Windup(us: nat, ticksPerMs: nat) returns (ok: bool)
      requires us < BITS32 && ticksPerMs < BITS32
      modifies this
      ensures ok <==> us * ticksPerMs / 1000 < 0x80_0000_0000
      ensures !ok ==> unchanged(this)
      ensures ok ==> irqInterval == us && Divider(divide)
      ensures ok ==> initialCount == us * ticksPerMs / 1000 / divide && initialCount < 0x1_0000_0000
      ensures forall d: nat :: Divider(d) && us * ticksPerMs / 1000 / d < 0x1_0000_0000 ==> ok && divide <= d
    {
      ProductBelow(us, ticksPerMs);
      var ticks, rest := Div64(us * ticksPerMs, 1000);
      var shift;
      ok, shift := Scale(ticks);
      ghost var scale := Pow2(shift);
      forall d: nat | Divider(d) && Fits(ticks, d)
        ensures ok && scale <= d
      {
        Powers(d);
        FitsBelow(ticks, d);
        var n: nat :| n <= 7 && d == Pow2(n);
        PowersGrow(n, 7);
        assert n >= shift;
        PowersGrow(shift, n);
      }
      if !ok { return; }
      FitsBelow(ticks, Pow2(shift));
      irqInterval := us;
      initialCount := ticks / Pow2(shift);
      divide := Pow2(shift);
    }
  }

  lemma ProductBelow(x: nat, y: nat)
    requires x < BITS32 && y < BITS32
    ensures x * y < BITS64
  {
    if y > 0 { ProductGap(BITS32, x, y); }
  }

  lemma ShiftedOut(ticks: nat, scale: nat)
    requires scale > 0
    ensures ticks / (BITS32 * scale) == 0 <==> ticks < scale * BITS32
  {
    var n := BITS32 * scale;
    var q, r := ticks / n, ticks % n;
    assert ticks == q * n + r;
    if q > 0 { ProductGap(q, 0, n); }
  }

  lemma Divides(shift: nat)
    requires shift <= 7
    ensures Divider(Pow2(shift)) && (shift == 7 ==> Pow2(shift) == 128)
  {
    assert Pow2(3) == 8;
    assert Pow2(7) == 128;
  }

  /** The loop of `windup`. */
  method Scale(ticks: nat) returns (ok: bool, shift: nat)
    ensures ok <==> ticks < 128 * BITS32
    ensures ok ==> Divider(Pow2(shift)) && ticks < Pow2(shift) * BITS32
    ensures forall n: nat {:trigger Pow2(n)} :: n < shift && n <= 7 ==> ticks >= Pow2(n) * BITS32
    ensures !ok ==> shift == 8
  {
    shift := 0;
    ok := true;
    ShiftedOut(ticks, Pow2(shift));
    while ticks / (BITS32 * Pow2(shift)) != 0
      invariant shift <= 7
      invariant ticks / (BITS32 * Pow2(shift)) == 0 <==> ticks < Pow2(shift) * BITS32
      invariant forall n: nat {:trigger Pow2(n)} :: n < shift ==> ticks >= Pow2(n) * BITS32
      decreases 8 - shift
    {
      Divides(shift);
      shift := shift + 1;
      if shift > 7 { return false, shift; }
      ShiftedOut(ticks, Pow2(shift));
    }
    Divides(shift);
    PowersGrow(shift, 7);
    Divides(7);
  }
}
