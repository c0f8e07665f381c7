/** Numbers as text: the integer output of object/o_stream.cc and the input of user/string/string.cc, and
    that the second undoes the first. */
module NumberText {
  import opened Common

  const SSIZE_MAX := 0x7FFF_FFFF

  lemma {:induction false} PowerPositive(base: nat, k: nat)
    requires base > 0
    ensures Power(base, k) > 0
  {
    if k > 0 { PowerPositive(base, k - 1); }
  }

  // ---- digits ----

  function DigitChar(d: nat): char
    requires d < 36
  {
    if d < 10 then '0' + d as char else 'a' + (d - 10) as char
  }

  /** The value of a digit in `base`, or -1. */
  function DigitValue(c: char, base: nat): int {
    if '0' <= c && (c as int) <= ('0' as int) + Min(base, 10) - 1 then c as int - '0' as int
    else if base > 10 && 'a' <= c && (c as int) <= ('a' as int) + base - 11 then 10 + c as int - 'a' as int
    else if base > 10 && 'A' <= c && (c as int) <= ('A' as int) + base - 11 then 10 + c as int - 'A' as int
    else -1
  }

  lemma DigitRoundTrip(d: nat, base: nat)
    requires d < base <= 36
    ensures DigitValue(DigitChar(d), base) == d
  {
  }

  lemma SmallDigits(d: nat, small: string)
    requires d < 36 && small == "0123456789abcdefghijklmnopqrstuvwxyz"
    ensures |small| == 36 && small[d] as int == if d < 10 then 48 + d else 87 + d
  {
  }

  lemma CapitalDigits(d: nat, capital: string)
    requires d < 36 && capital == "0123456789ABCDEFGHIJKLMNOPQRSTUVWXYZ"
    ensures |capital| == 36 && capital[d] as int == if d < 10 then 48 + d else 55 + d
  {
  }

  lemma DigitCodes(d: nat, c: char, base: nat)
    requires d < 36 && base <= 36
    ensures DigitChar(d) as int == if d < 10 then 48 + d else 87 + d
    ensures c as int == (if d < 10 then 48 + d else 87 + d) || c as int == (if d < 10 then 48 + d else 55 + d) ==>
      DigitValue(c, base) == if d < base then d else -1
    ensures var v := DigitValue(c, base);
      v == -1 || (0 <= v < base && (c as int == (if v < 10 then 48 + v else 87 + v) || c as int == 55 + v))
    ensures DigitValue(c, base) < 10 ==> c as int == 48 + DigitValue(c, base) || DigitValue(c, base) == -1
  {
  }

  /** The digits are ten figures and the letters, small or capital, each with its place in the table as
      its value, and no other character is one. */
  lemma DigitTable(d: nat, c: char, base: nat, small: string, capital: string)
    requires d < 36 && base <= 36
    requires small == "0123456789abcdefghijklmnopqrstuvwxyz" && capital == "0123456789ABCDEFGHIJKLMNOPQRSTUVWXYZ"
    ensures |small| == |capital| == 36 && DigitChar(d) == small[d]
    ensures DigitValue(small[d], base) == DigitValue(capital[d], base) == if d < base then d else -1
    ensures var v := DigitValue(c, base); v == -1 || (0 <= v < base && (c == small[v] || c == capital[v]))
  {
    hide DigitChar;
    hide DigitValue;
    SmallDigits(d, small);
    CapitalDigits(d, capital);
    DigitCodes(d, small[d], base);
    DigitCodes(d, capital[d], base);
    DigitCodes(d, c, base);
    var v := DigitValue(c, base);
    if v != -1 {
      SmallDigits(v, small);
      CapitalDigits(v, capital);
    }
  }

  // ---- numerals ----

  function Value(s: string, base: nat): int {
    if s == "" then 0 else Value(s[..|s| - 1], base) * base + DigitValue(s[|s| - 1], base)
  }

  predicate AllDigits(s: string, base: nat) {
    forall i :: 0 <= i < |s| ==> DigitValue(s[i], base) >= 0
  }

  /** `s` is the one way of writing `n` without leading zeros. */
  ghost predicate IsNumeral(s: string, n: int, base: nat) {
    && s != ""
    && AllDigits(s, base)
    && Value(s, base) == n
    && (s[0] == '0' ==> |s| == 1)
  }

  lemma ValueAppend(s: string, c: char, base: nat)
    ensures Value(s + [c], base) == Value(s, base) * base + DigitValue(c, base)
  {
    assert (s + [c])[..|s + [c]| - 1] == s;
  }

  /** The first digit counts most. */
  lemma {:induction false} ValueConcat(s: string, t: string, c: char, base: nat)
    ensures Value("", base) == 0 && Value([c], base) == DigitValue(c, base)
    ensures Value(s + t, base) == Value(s, base) * Power(base, |t|) + Value(t, base)
    decreases |t|
  {
    assert [c][..0] == "";
    if t == "" {
      assert s + t == s;
    } else {
      var front, last := t[..|t| - 1], t[|t| - 1];
      assert s + t == (s + front) + [last] && t == front + [last];
      ValueConcat(s, front, c, base);
      ValueAppend(s + front, last, base);
      ValueAppend(front, last, base);
      Distributed(Value(s, base), Power(base, |front|), Value(front, base), base, DigitValue(last, base));
    }
  }

  lemma Distributed(v: int, p: int, w: int, base: nat, d: int)
    ensures (v * p + w) * base + d == v * (base * p) + (w * base + d)
  {
  }

  function Prefix(base: nat): string {
    if base == 2 then "0b" else if base == 8 then "0" else if base == 16 then "0x" else ""
  }

  // ---- writing ----

  lemma Division(n: nat, d: nat) returns (q: nat, r: nat)
    requires d > 0
    ensures q == n / d && r == n % d && n == q * d + r && r < d
  {
    q, r := n / d, n % d;
  }

  lemma {:induction false} ProductGrows(a: nat, b: nat, d: nat)
    requires a <= b
    ensures a * d <= b * d
    decreases b
  {
    if a < b {
      ProductGrows(a, b - 1, d);
      Distribute(b - 1, d);
    }
  }

  lemma Commute(a: int, b: int)
    ensures a * b == b * a
  {
  }

  lemma QuotientAtLeast(n: nat, d: nat, b: nat)
    requires d > 0
    ensures n / d >= b <==> n >= d * b
  {
    var q, r := Division(n, d);
    Commute(d, b);
    if q >= b {
      ProductGrows(b, q, d);
    } else {
      ProductGrows(q + 1, b, d);
      Distribute(q, d);
    }
  }

  /** Half-way through writing `n`: the digits in `s`, then what `rest` has at the weights up to `div`. */
  ghost predicate Writing(n: nat, s: string, rest: nat, div: nat, base: nat) {
    && AllDigits(s, base)
    && n == Value(s, base) * (div * base) + rest
    && rest < div * base
  }

  lemma NextDigit(n: nat, s: string, rest: nat, div: nat, base: nat, q: nat, r: nat)
    requires 2 <= base <= 16 && div > 0 && Writing(n, s, rest, div, base)
    requires q == rest / div && r == rest % div
    ensures q < base && r < div
    ensures var t := s + [DigitChar(q)]; AllDigits(t, base) && n == Value(t, base) * div + r
  {
    var q', r' := Division(rest, div);
    QuotientAtLeast(rest, div, base);
    DigitRoundTrip(q, base);
    ValueAppend(s, DigitChar(q), base);
    ShiftIn(Value(s, base), div, base, q);
  }

  lemma ShiftIn(v: int, d: int, b: int, q: int)
    ensures v * (d * b) + q * d == (v * b + q) * d
  {
  }

  lemma DivideBack(d: nat, base: nat)
    requires base > 0
    ensures d * base / base == d
  {
    var q, r := Division(d * base, base);
    if q < d {
      ProductGrows(q + 1, d, base);
      Distribute(q, base);
    } else if q > d {
      ProductGrows(d + 1, q, base);
      Distribute(d, base);
    }
  }

  /** The loop that writes the digits: all of `n` is in the digits written and the rest, and a zero leads
      only if it is the whole numeral. */
  ghost predicate Progress(n: nat, digits: string, rest: nat, weight: nat, base: nat, k: nat) {
    && (weight > 0 ==> weight == Power(base, k) && Writing(n, digits, rest, weight, base))
    && (weight == 0 ==> digits != "" && AllDigits(digits, base) && Value(digits, base) == n)
    && (digits == "" ==> rest == n && (weight <= n || k == 0))
    && (digits != "" && digits[0] == '0' ==> |digits| == 1 && weight == 0)
  }

  lemma ProgressStep(n: nat, digits: string, rest: nat, weight: nat, base: nat, k: nat, q: nat, r: nat, next: nat)
    requires 2 <= base <= 16 && weight > 0 && Progress(n, digits, rest, weight, base, k)
    requires q == rest / weight && r == rest % weight && next == weight / base
    ensures q < base
    ensures Progress(n, digits + [DigitChar(q)], r, next, base, if k > 0 then k - 1 else 0)
  {
    NextDigit(n, digits, rest, weight, base, q, r);
    QuotientAtLeast(rest, weight, 1);
    NextWeight(weight, base, k);
    Shifted(n, digits, rest, q, r, weight, next, base, k);
  }

  lemma Shifted(n: nat, digits: string, rest: nat, q: nat, r: nat, weight: nat, next: nat, base: nat, k: nat)
    requires q < base <= 16 && weight > 0 && Progress(n, digits, rest, weight, base, k)
    requires var t := digits + [DigitChar(q)]; AllDigits(t, base) && n == Value(t, base) * weight + r && r < weight
    requires q >= 1 <==> rest >= weight
    requires if k == 0 then weight == 1 && next == 0 else next == Power(base, k - 1) && weight == next * base && next > 0
    ensures Progress(n, digits + [DigitChar(q)], r, next, base, if k > 0 then k - 1 else 0)
  {
    var t := digits + [DigitChar(q)];
    assert t[0] == if digits == "" then DigitChar(q) else digits[0];
  }

  method DivMod(n: nat, d: nat) returns (q: nat, r: nat)
    requires d > 0
    ensures q == n / d && r == n % d
    ensures d >= 2 && n > 0 ==> q < n
  {
    q, r := n / d, n % d;
    QuotientAtLeast(n, d, n);
    if n > 0 && d >= 2 { ProductGrows(2, d, n); }
  }

  class Output {
    var text: string
    var base: nat

    constructor ()
      ensures text == "" && base == 10
    {
      text, base := "", 10;
    }

    ghost predicate Usable()
      reads this
    {
      base == 2 || base == 8 || base == 10 || base == 16
    }

    method Put(c: char)
      modifies this`text
      ensures text == old(text) + [c]
    {
      text := text + [c];
    }

    method PutPrefix()
      requires Usable()
      modifies this`text
      ensures text == old(text) + Prefix(base)
    {
      if base == 2 {
        Put('0'); Put('b');
      } else if base == 8 {
        Put('0');
      } else if base == 16 {
        Put('0'); Put('x');
      }
    }

    /** The weight of the leading digit: the largest power of the base that is not above `n`, or 1. */
    method LeadingWeight(n: nat) returns (div: nat, ghost k: nat)
      requires Usable() && n < BITS32
      ensures div == Power(base, k) && 0 < div < BITS32 && n < div * base && (div <= n || k == 0)
    {
      div, k := 1, 0;
      QuotientAtLeast(n, div, base);
      while n / div >= base
        invariant div == Power(base, k) && 0 < div < BITS32 && (div <= n || k == 0)
        invariant n / div >= base <==> n >= div * base
        decreases BITS32 - div
      {
        div := NextHigher(div, n, k);
        k := k + 1;
        QuotientAtLeast(n, div, base);
      }
    }

    method NextHigher(div: nat, ghost n: nat, ghost k: nat) returns (next: nat)
      requires Usable() && 0 < div && div == Power(base, k) && div * base <= n < BITS32
      ensures next == Power(base, k + 1) && div < next <= n
    {
      ProductGrows(2, base, div);
      Commute(base, div);
      next := div * base % BITS32;
    }

    /** `operator <<(unsigned long)`. */
    method WriteUnsigned(n: nat) returns (ghost digits: string)
      requires Usable() && n < BITS32
      modifies this`text
      ensures IsNumeral(digits, n, base) && text == old(text) + Prefix(base) + digits
    {
      PutPrefix();
      ghost var start := text;
      var weight: nat;
      ghost var k: nat;
      weight, k := LeadingWeight(n);
      digits := "";
      var rest: nat := n;
      while weight > 0
        invariant text == start + digits && Progress(n, digits, rest, weight, base, k)
        decreases weight
      {
        var digit, lower := DivMod(rest, weight);
        var next, zero := DivMod(weight, base);
        ProgressStep(n, digits, rest, weight, base, k, digit, lower, next);
        Put(DigitChar(digit));
        digits := digits + [DigitChar(digit)];
        rest := lower;
        weight := next;
        if k > 0 { k := k - 1; }
      }
    }

    /** `operator <<(long)`. */
    method WriteSigned(n: int) returns (ghost digits: string)
      requires Usable() && -0x8000_0000 <= n < 0x8000_0000
      modifies this`text
      ensures IsNumeral(digits, Magnitude(n, base), base)
      ensures Magnitude(n, base) == if n >= 0 then n else if base == 10 then -n else n + 0x1_0000_0000
      ensures text == old(text) + Sign(n, base) + Prefix(base) + digits
    {
      var m := n;
      if base == 10 && m < 0 {
        Put('-');
        m := -m;
      }
      digits := WriteUnsigned(m % BITS32);
    }
  }

  lemma NextWeight(weight: nat, base: nat, k: nat)
    requires base >= 2 && weight == Power(base, k)
    ensures if k == 0 then weight == 1 && weight / base == 0
            else weight / base == Power(base, k - 1) && weight == weight / base * base && weight / base > 0
  {
    if k > 0 {
      PowerPositive(base, k - 1);
      Commute(base, Power(base, k - 1));
      DivideBack(Power(base, k - 1), base);
    }
  }

  /** What is written for a number: its absolute value in base 10, its two's complement in any other. */
  function Magnitude(n: int, base: nat): int {
    if base == 10 && n < 0 then -n else n % BITS32
  }

  function Sign(n: int, base: nat): string {
    if base == 10 && n < 0 then "-" else ""
  }

  // ---- reading ----

  /** `String::compare`: does `t` stand at position `pos` of `s`? */
  method Compare(s: string, pos: nat, t: string) returns (same: bool)
    ensures same <==> pos + |t| <= |s| && s[pos..pos + |t|] == t
  {
    if pos + |t| > |s| { return false; }
    var i := pos;
    while i < Min(|s|, |t| + pos)
      invariant pos <= i <= pos + |t|
      invariant s[pos..i] == t[..i - pos]
    {
      if s[i] != t[i - pos] {
        assert s[pos..pos + |t|][i - pos] != t[i - pos];
        return false;
      }
      i := i + 1;
    }
    return true;
  }

  function Blanks(s: string): (n: nat)
    ensures n <= |s| && (n < |s| ==> s[n] != ' ') && forall i :: 0 <= i < n ==> s[i] == ' '
  {
    if s == "" || s[0] != ' ' then 0 else 1 + Blanks(s[1..])
  }

  predicate StartsWith(s: string, t: string) {
    |t| <= |s| && s[..|t|] == t
  }

  /** The base of what follows the sign, and how many characters its prefix takes; a lone "0" is decimal. */
  function BaseOf(s: string, base: nat): (nat, nat) {
    if (base == 0 || base == 2) && (StartsWith(s, "0b") || StartsWith(s, "0B")) then (2, 2)
    else if (base == 0 || base == 16) && (StartsWith(s, "0x") || StartsWith(s, "0X")) then (16, 2)
    else if (base == 0 || base == 8) && StartsWith(s, "0") && |s| > 1 then (8, 1)
    else if base == 0 then (10, 0)
    else (base, 0)
  }

  /** The number of characters at the front that are digits. */
  function Run(s: string, base: nat): (n: nat)
    ensures n <= |s| && AllDigits(s[..n], base) && (n < |s| ==> DigitValue(s[n], base) < 0)
  {
    if s == "" || DigitValue(s[0], base) < 0 then 0 else
    var n := Run(s[1..], base);
    assert s[..1 + n] == [s[0]] + s[1..][..n];
    1 + n
  }

  /** A text as `strtol` sees it: blanks, a sign, a prefix, and the digits up to the end. */
  datatype Number = Number(negative: bool, base: nat, digits: string)

  function Dissect(s: string, base: nat): Number {
    var t := s[Blanks(s)..];
    var negative := StartsWith(t, "-");
    var u := if negative then t[1..] else t;
    var (b, skip) := BaseOf(u, base);
    Number(negative, b, if skip <= |u| then u[skip..] else "")
  }

  /** The number that the digits at the front stand for. */
  function Meant(d: Number): int {
    Value(d.digits[..Run(d.digits, d.base)], d.base)
  }

  function Malformed(d: Number): bool {
    d.digits == "" || Run(d.digits, d.base) < |d.digits|
  }

  method Matches(s: string, i: nat, t: string) returns (same: bool)
    requires i <= |s|
    ensures same <==> StartsWith(s[i..], t)
  {
    assert i + |t| <= |s| ==> s[i..][..|t|] == s[i..i + |t|];
    same := Compare(s, i, t);
  }

  lemma {:induction false} BlanksAre(s: string, n: nat)
    requires n <= |s| && (forall i :: 0 <= i < n ==> s[i] == ' ') && (n < |s| ==> s[n] != ' ')
    ensures Blanks(s) == n
    decreases n
  {
    if n > 0 { BlanksAre(s[1..], n - 1); }
  }

  method SkipBlanks(s: string) returns (i: nat)
    ensures i == Blanks(s)
  {
    i := 0;
    while i < |s| && s[i] == ' '
      invariant i <= |s| && forall k :: 0 <= k < i ==> s[k] == ' '
    {
      i := i + 1;
    }
    BlanksAre(s, i);
  }

  /** The chain of prefix tests at position `i`. */
  method DetectBase(s: string, i: nat, base: nat) returns (b: nat, skip: nat)
    requires i <= |s|
    ensures BaseOf(s[i..], base) == (b, skip) && i + skip <= |s|
    ensures if base == 0 then b == 2 || b == 8 || b == 10 || b == 16 else b == base
  {
    var binary := Matches(s, i, "0b");
    if !binary { binary := Matches(s, i, "0B"); }
    if (base == 0 || base == 2) && binary { return 2, 2; }
    var hexadecimal := Matches(s, i, "0x");
    if !hexadecimal { hexadecimal := Matches(s, i, "0X"); }
    if (base == 0 || base == 16) && hexadecimal { return 16, 2; }
    var zero := Matches(s, i, "0");
    if (base == 0 || base == 8) && zero && |s| > i + 1 { return 8, 1; }
    return if base == 0 then 10 else base, 0;
  }

  lemma DissectParts(s: string, base: nat, i: nat, u: string, b: nat, skip: nat)
    requires i == Blanks(s) && u == (if StartsWith(s[i..], "-") then s[i..][1..] else s[i..])
    requires BaseOf(u, base) == (b, skip) && skip <= |u|
    ensures Dissect(s, base) == Number(StartsWith(s[i..], "-"), b, u[skip..])
  {
  }

  method ReadSign(s: string, i: nat) returns (negative: bool, next: nat)
    requires i <= |s|
    ensures negative == StartsWith(s[i..], "-") && next <= |s|
    ensures s[next..] == if negative then s[i..][1..] else s[i..]
  {
    negative := i < |s| && s[i] == '-';
    next := if negative then i + 1 else i;
    assert negative ==> s[i..][..1] == "-";
  }

  lemma DropTwice(s: string, k: nat, n: nat)
    requires k + n <= |s|
    ensures s[k..][n..] == s[k + n..]
  {
  }

  method Header(s: string, base: nat) returns (i: nat, negative: bool, b: nat)
    ensures i <= |s| && Dissect(s, base) == Number(negative, b, s[i..])
    ensures if base == 0 then b == 2 || b == 8 || b == 10 || b == 16 else b == base
  {
    var start := SkipBlanks(s);
    var next, skip;
    negative, next := ReadSign(s, start);
    b, skip := DetectBase(s, next, base);
    DropTwice(s, next, skip);
    i := next + skip;
    DissectParts(s, base, start, s[next..], b, skip);
  }

  lemma {:induction false} ValueNotNegative(s: string, base: nat)
    requires AllDigits(s, base)
    ensures Value(s, base) >= 0
  {
    if s != "" { ValueNotNegative(s[..|s| - 1], base); }
  }

  // ---- conversion ----

  /** What the conversion loop makes of a run of digits: it works modulo 2^32, and gives up when a step
      makes the result smaller. */
  function Fold32(s: string, base: nat): Option<int> {
    if s == "" then Some(0) else
    var before := Fold32(s[..|s| - 1], base);
    if before.None? then None else
    var next := Step32(before.value, s[|s| - 1], base);
    if next < before.value then None else Some(next)
  }

  function Step32(res: int, c: char, base: nat): int {
    (base * res + DigitValue(c, base)) % BITS32
  }

  lemma FoldAppend(s: string, c: char, base: nat)
    ensures Fold32(s + [c], base) ==
      if Fold32(s, base).None? || Step32(Fold32(s, base).value, c, base) < Fold32(s, base).value then None
      else Some(Step32(Fold32(s, base).value, c, base))
  {
    assert (s + [c])[..|s + [c]| - 1] == s;
  }

  lemma DivideShrinks(n: int, base: nat)
    requires n > 0 && base >= 2
    ensures 0 <= n / base < n
  {
    var q, r := Division(n, base);
    ProductGrows(2, base, q);
    Commute(base, q);
  }

  /** Striking off the last digits of `n` one by one never leaves a larger remainder modulo 2^32. */
  predicate Rises(n: int, base: nat) {
    if n <= 0 || base < 2 then true else
    DivideShrinks(n, base);
    Rises(n / base, base) && (n / base) % BITS32 <= n % BITS32
  }

  lemma LastDigit(v: int, d: int, base: nat)
    requires v >= 0 && 0 <= d < base
    ensures (v * base + d) / base == v
  {
    var q, r := Division(v * base + d, base);
    if q < v {
      ProductGrows(q + 1, v, base);
      Distribute(q, base);
    } else if q > v {
      ProductGrows(v + 1, q, base);
      Distribute(v, base);
    }
  }

  lemma RisesAppend(v: int, d: int, n: int, base: nat)
    requires v >= 0 && 0 <= d < base && base >= 2 && n == v * base + d
    ensures Rises(n, base) <==> Rises(v, base) && v % BITS32 <= n % BITS32
  {
    LastDigit(v, d, base);
    ProductGrows(0, v, base);
    if n == 0 && v > 0 { ProductGrows(1, v, base); }
  }

  lemma Multiple(x: int, k: int)
    ensures (x + k * BITS32) % BITS32 == x % BITS32
  {
  }

  lemma StepIsResidue(res: int, v: int, c: char, base: nat)
    requires res == v % BITS32
    ensures Step32(res, c, base) == (v * base + DigitValue(c, base)) % BITS32
  {
    var k := v / BITS32;
    ShiftIn(k, BITS32, base, res);
    Commute(base, res);
    Multiple(base * res + DigitValue(c, base), k * base);
    Carried(k, res, base, v);
  }

  lemma Carried(k: int, res: int, base: int, v: int)
    requires v == k * BITS32 + res
    ensures v * base == base * res + k * base * BITS32
  {
  }

  lemma DigitBelow(c: char, base: nat)
    ensures DigitValue(c, base) < base
  {
  }

  function Residue(n: int, base: nat): Option<int> {
    if Rises(n, base) then Some(n % BITS32) else None
  }

  lemma ResidueAppend(init: string, c: char, base: nat, v: int, d: int)
    requires base >= 2 && v >= 0 && d == DigitValue(c, base) && d >= 0
    requires Fold32(init, base) == Residue(v, base)
    ensures Fold32(init + [c], base) == Residue(v * base + d, base)
  {
    hide Fold32;
    hide Rises;
    DigitBelow(c, base);
    RisesAppend(v, d, v * base + d, base);
    FoldAppend(init, c, base);
    StepIsResidue(v % BITS32, v, c, base);
  }

  /** The loop computes the number modulo 2^32, and gets through exactly if no step makes it smaller. */
  lemma {:induction false} FoldIsResidue(s: string, base: nat)
    requires base >= 2 && AllDigits(s, base)
    ensures Fold32(s, base) == Residue(Value(s, base), base)
  {
    if s != "" {
      var init, c := s[..|s| - 1], s[|s| - 1];
      FoldIsResidue(init, base);
      ValueNotNegative(init, base);
      ResidueAppend(init, c, base, Value(init, base), DigitValue(c, base));
      assert s == init + [c];
    }
  }

  ghost predicate RisesAt(s: string, base: nat, j: int)
    requires 0 < j <= |s|
  {
    Value(s[..j - 1], base) % BITS32 <= Value(s[..j], base) % BITS32
  }

  lemma PrefixRises(s: string, base: nat, init: string)
    requires s != "" && init == s[..|s| - 1]
    ensures RisesAt(s, base, |s|) <==> Value(init, base) % BITS32 <= Value(s, base) % BITS32
    ensures forall j :: 0 < j <= |init| ==> RisesAt(init, base, j) == RisesAt(s, base, j)
  {
    assert s[..|s|] == s;
    forall j | 0 < j <= |init| ensures RisesAt(init, base, j) == RisesAt(s, base, j) {
      assert init[..j] == s[..j] && init[..j - 1] == s[..j - 1];
    }
  }

  lemma LastRises(s: string, base: nat, init: string)
    requires base >= 2 && AllDigits(s, base) && s != "" && init == s[..|s| - 1]
    ensures Rises(Value(s, base), base) <==>
      Rises(Value(init, base), base) && Value(init, base) % BITS32 <= Value(s, base) % BITS32
  {
    ValueNotNegative(init, base);
    DigitBelow(s[|s| - 1], base);
    RisesAppend(Value(init, base), DigitValue(s[|s| - 1], base), Value(s, base), base);
  }

  /** The same said of the text: no digit makes what is left of the number read so far smaller. */
  lemma {:induction false} RisesByPrefix(s: string, base: nat)
    requires base >= 2 && AllDigits(s, base)
    ensures Rises(Value(s, base), base) <==> forall j :: 0 < j <= |s| ==> RisesAt(s, base, j)
  {
    if s != "" {
      var init := s[..|s| - 1];
      RisesByPrefix(init, base);
      LastRises(s, base, init);
      PrefixRises(s, base, init);
    }
  }

  /** A number for which `strtol` reports an overflow. */
  predicate Reported(n: int, base: nat) {
    !Rises(n, base) || n % BITS32 > SSIZE_MAX
  }

  /** What is read: the largest number and an error if an overflow is noticed; else what is left of the
      number modulo 2^32, with the sign, and whether anything but digits follows. */
  function ReadOutcome(d: Number): (int, bool) {
    var n := Meant(d);
    if Reported(n, d.base) then (SSIZE_MAX, true)
    else (if d.negative then -(n % BITS32) else n % BITS32, Malformed(d))
  }

  method Strtol(s: string, base: nat) returns (value: int, error: bool)
    requires base == 0 || 2 <= base <= 36
    ensures (value, error) == ReadOutcome(Dissect(s, base))
  {
    var i, negative, b := Header(s, base);
    value, error := Convert(s, i, negative, b);
  }

  method Advance(ghost done: string, res: int, c: char, b: nat) returns (next: int)
    requires Fold32(done, b) == Some(res)
    ensures 0 <= next < BITS32
    ensures Fold32(done + [c], b) == if next < res then None else Some(next)
  {
    FoldAppend(done, c, b);
    next := (b * res + DigitValue(c, b)) % BITS32;
  }

  method Convert(s: string, i: nat, negative: bool, b: nat) returns (value: int, error: bool)
    requires i <= |s| && 2 <= b <= 36
    ensures (value, error) == ReadOutcome(Number(negative, b, s[i..]))
  {
    var res, overflow;
    res, error, overflow := ReadDigits(s, i, b);
    if overflow || res > SSIZE_MAX { return SSIZE_MAX, true; }
    value := if negative then -res else res;
  }

  /** The loop of `strtol`, from the first digit at `i`. */
  method ReadDigits(s: string, i: nat, b: nat) returns (res: int, error: bool, overflow: bool)
    requires i <= |s| && 2 <= b <= 36
    ensures var n := Value(s[i..][..Run(s[i..], b)], b);
            overflow == !Rises(n, b) && (!overflow ==> res == n % BITS32)
    ensures !overflow ==> (error <==> s[i..] == "" || Run(s[i..], b) < |s[i..]|)
  {
    ghost var digits := s[i..];
    ghost var n := Run(digits, b);
    ghost var m := 0;
    FoldIsResidue(digits[..n], b);
    error := true;
    res, overflow := 0, false;
    var k := i;
    while k < |s|
      invariant m == k - i && m <= n && k <= |s|
      invariant Fold32(digits[..m], b) == Some(res)
      invariant error <==> m == 0
    {
      error := false;
      assert s[k] == digits[m];
      if DigitValue(s[k], b) < 0 {
        error := true;
        break;
      }
      var before := res;
      res := Advance(digits[..m], res, s[k], b);
      assert digits[..m + 1] == digits[..m] + [digits[m]];
      k, m := k + 1, m + 1;
      if res < before {
        FoldFails(digits, m, n, b);
        overflow := true;
        return;
      }
    }
  }

  lemma {:induction false} FoldFails(digits: string, m: nat, n: nat, b: nat)
    requires m <= n <= |digits| && Fold32(digits[..m], b) == None
    ensures Fold32(digits[..n], b) == None
    decreases n
  {
    if m < n {
      assert digits[..n][..n - 1] == digits[..n - 1];
      FoldFails(digits, m, n - 1, b);
    }
  }

  // ---- which overflows are noticed ----

  lemma SmallRises(n: int, base: nat)
    requires 0 <= n < BITS32
    ensures Rises(n, base)
    decreases n
  {
    if n > 0 && base >= 2 {
      DivideShrinks(n, base);
      SmallRises(n / base, base);
    }
  }

  /** Below 2^32 exactly the numbers above the largest are reported, so all others are read as they are. */
  lemma ReadFitting(n: int, base: nat)
    requires 0 <= n < BITS32
    ensures Reported(n, base) <==> n > SSIZE_MAX
    ensures n % BITS32 == n
  {
    SmallRises(n, base);
  }

  /** A number that outgrows 32 bits with its last digit is reported exactly if what is left of it is
      below what it was before, or above the largest number. */
  lemma FirstExcess(n: int, base: nat)
    requires base >= 2 && n >= BITS32 && n / base < BITS32
    ensures Reported(n, base) <==> n % BITS32 < n / base || n % BITS32 > SSIZE_MAX
  {
    DivideShrinks(n, base);
    SmallRises(n / base, base);
  }

  lemma DoubledResidue(v: int, d: int)
    requires v >= BITS32 / 2 && 0 <= d < 2 && v % BITS32 <= (2 * v + d) % BITS32
    requires v >= BITS32 ==> v % BITS32 == BITS32 - 1
    ensures (2 * v + d) % BITS32 == BITS32 - 1
  {
    Multiple(2 * (v % BITS32) + d - BITS32, 2 * (v / BITS32) + 1);
  }

  /** In base 2 an overflow leaves all bits set, or it is noticed. */
  lemma {:induction false} BinaryExcess(n: int)
    requires n >= BITS32 && Rises(n, 2)
    ensures n % BITS32 == BITS32 - 1
    decreases n
  {
    var v, d := n / 2, n % 2;
    assert n == 2 * v + d;
    if v >= BITS32 { BinaryExcess(v); }
    DoubledResidue(v, d);
  }

  /** A number whose overflow goes unnoticed in `base`. */
  lemma Unnoticed(base: nat) returns (n: int)
    requires 3 <= base <= 36
    ensures n >= BITS32 && !Reported(n, base)
  {
    var v, d := SSIZE_MAX, 2;
    if base > 3 {
      var q, r := Division(BITS32 + base - 2, base - 1);
      v, d := q, 0;
      Distribute(base - 1, q);
      Commute(base - 1, q);
      Commute(base, q);
      ProductGrows(3, base - 1, q);
    }
    n := v * base + d;
    LastDigit(v, d, base);
    FirstExcess(n, base);
  }

  /** Every overflow is reported in base 2, and in no other base. */
  lemma OnlyBinaryIsSafe(base: nat)
    requires 2 <= base <= 36
    ensures (forall n :: n > SSIZE_MAX ==> Reported(n, base)) <==> base == 2
  {
    if base == 2 {
      forall n | n > SSIZE_MAX ensures Reported(n, 2) {
        if n < BITS32 { ReadFitting(n, 2); } else if Rises(n, 2) { BinaryExcess(n); }
      }
    } else {
      var n := Unnoticed(base);
    }
  }

  lemma NextFigure(s: string, k: nat, v: int, d: int)
    requires 0 <= d < 10 && k < |s| && Value(s[..k], 10) == v && s[k] == DigitChar(d)
    ensures Value(s[..k + 1], 10) == v * 10 + d
  {
    assert s[..k + 1] == s[..k] + [s[k]];
    ValueAppend(s[..k], s[k], 10);
  }

  lemma FirstFigures(s: string)
    requires s == "14316557660"
    ensures Value(s[..6], 10) == 143165
  {
    NextFigure(s, 0, 0, 1);
    NextFigure(s, 1, 1, 4);
    NextFigure(s, 2, 14, 3);
    NextFigure(s, 3, 143, 1);
    NextFigure(s, 4, 1431, 6);
    NextFigure(s, 5, 14316, 5);
  }

  lemma Figures(s: string)
    requires s == "14316557660"
    ensures Value(s, 10) == 14316557660
  {
    FirstFigures(s);
    NextFigure(s, 6, 143165, 5);
    NextFigure(s, 7, 1431655, 7);
    NextFigure(s, 8, 14316557, 6);
    NextFigure(s, 9, 143165576, 6);
    NextFigure(s, 10, 1431655766, 0);
    assert s[..11] == s;
  }

  /** 14316557660 is read as 1431655772, without an error. */
  lemma WrapUnnoticed(s: string, n: int, base: nat)
    requires s == "14316557660" && n == 14316557660 && base == 10
    ensures Meant(Dissect(s, 0)) == n && ReadOutcome(Dissect(s, 0)) == (1431655772, false)
  {
    Figures(s);
    FirstExcess(n, base);
    assert AllDigits(s, base);
    assert "" + Prefix(base) + s == s;
    DissectWritten(false, base, s);
    ReadsNumeral(false, base, s, n);
  }

  lemma TwoFigures(s: string, base: nat, x: int, y: int)
    requires |s| == 2 && x == DigitValue(s[0], base) > 0 && y == DigitValue(s[1], base) >= 0
    ensures AllDigits(s, base) && Value(s, base) == x * base + y
  {
    assert s == "" + [s[0]] + [s[1]];
    ValueAppend("", s[0], base);
    ValueAppend([s[0]], s[1], base);
  }

  lemma TwoFiguresRead(s: string, negative: bool, base: nat, x: int, y: int)
    requires |s| == 2 && x == DigitValue(s[0], base) > 0 && y == DigitValue(s[1], base) >= 0
    requires base == 2 || base == 8 || base == 10 || base == 16
    ensures ReadOutcome(Number(negative, base, s)) == (if negative then -(x * base + y) else x * base + y, false)
  {
    TwoFigures(s, base, x, y);
    DigitBelow(s[0], base);
    DigitBelow(s[1], base);
    ReadsNumeral(negative, base, s, x * base + y);
    ReadFitting(x * base + y, base);
  }

  lemma NegativeText(s: string)
    requires s == "  -42"
    ensures Dissect(s, 0) == Number(true, 10, "42")
  {
    BlanksAre(s, 2);
    var t := s[2..];
    var u := t[1..];
    assert t == "-42" && t[..1] == "-" && u == "42" && u[..2] == "42" && u[..1] == "4" && u[0..] == "42";
  }

  lemma HexText(s: string)
    requires s == "0x2A"
    ensures Dissect(s, 0) == Number(false, 16, "2A")
  {
    NoBlanks(s);
    assert s[..1] == "0" && s[..2] == "0x" && s[2..] == "2A";
  }

  lemma OctalText(s: string)
    requires s == "017"
    ensures Dissect(s, 0) == Number(false, 8, "17")
  {
    NoBlanks(s);
    assert s[..1] == "0" && s[..2] == "01" && s[1..] == "17";
  }

  lemma BinaryText(s: string)
    requires s == "0b11"
    ensures Dissect(s, 0) == Number(false, 2, "11")
  {
    NoBlanks(s);
    assert s[..1] == "0" && s[..2] == "0b" && s[2..] == "11";
  }

  /** Blanks, a sign and every prefix, in some texts. */
  lemma SomeTexts(a: string, b: string, c: string, d: string)
    requires a == "  -42" && b == "0x2A" && c == "017" && d == "0b11"
    ensures ReadOutcome(Dissect(a, 0)) == (-42, false)
    ensures ReadOutcome(Dissect(b, 0)) == (42, false)
    ensures ReadOutcome(Dissect(c, 0)) == (15, false)
    ensures ReadOutcome(Dissect(d, 0)) == (3, false)
  {
    hide Dissect;
    NegativeText(a);
    TwoFiguresRead("42", true, 10, 4, 2);
    HexText(b);
    TwoFiguresRead("2A", false, 16, 2, 10);
    OctalText(c);
    TwoFiguresRead("17", false, 8, 1, 7);
    BinaryText(d);
    TwoFiguresRead("11", false, 2, 1, 1);
  }

  // ---- round trip ----

  lemma {:induction false} RunOfDigits(s: string, base: nat)
    requires AllDigits(s, base)
    ensures Run(s, base) == |s|
  {
    if s != "" { RunOfDigits(s[1..], base); }
  }

  lemma NoBlanks(s: string)
    requires s != "" && s[0] != ' '
    ensures Blanks(s) == 0 && s[0..] == s
  {
  }

  lemma SignedStarts(negative: bool, u: string, s: string)
    requires u != "" && u[0] != ' ' && u[0] != '-' && s == (if negative then "-" + u else u)
    ensures Blanks(s) == 0 && s[0..] == s
    ensures StartsWith(s, "-") == negative && u == (if negative then s[1..] else s)
  {
    NoBlanks(s);
    assert s[..1] == [s[0]];
  }

  lemma DissectWritten(negative: bool, base: nat, digits: string)
    requires base == 2 || base == 8 || base == 10 || base == 16
    requires negative ==> base == 10
    requires digits != "" && AllDigits(digits, base) && (digits[0] == '0' ==> |digits| == 1)
    ensures Dissect((if negative then "-" else "") + Prefix(base) + digits, 0) == Number(negative, base, digits)
  {
    var u := Prefix(base) + digits;
    var s := (if negative then "-" else "") + Prefix(base) + digits;
    assert DigitValue(digits[0], base) >= 0;
    assert s == if negative then "-" + u else u;
    SignedStarts(negative, u, s);
    BaseOfWritten(base, digits);
    assert u[|Prefix(base)|..] == digits;
    DissectParts(s, 0, 0, u, base, |Prefix(base)|);
  }

  lemma BaseOfWritten(base: nat, digits: string)
    requires base == 2 || base == 8 || base == 10 || base == 16
    requires digits != "" && AllDigits(digits, base) && (digits[0] == '0' ==> |digits| == 1)
    ensures BaseOf(Prefix(base) + digits, 0) == (base, |Prefix(base)|)
  {
    var u := Prefix(base) + digits;
    assert DigitValue(digits[0], base) >= 0;
    assert |u| >= 2 ==> u[..2] == [u[0], u[1]];
    assert u[..1] == [u[0]];
  }

  lemma MagnitudeReads(n: int, base: nat)
    requires -0x8000_0000 <= n < 0x8000_0000
    ensures 0 <= Magnitude(n, base) < BITS32
    ensures Magnitude(n, base) <= SSIZE_MAX <==> if base == 10 then n > -0x8000_0000 else n >= 0
    ensures Magnitude(n, base) <= SSIZE_MAX ==> n == if base == 10 && n < 0 then -Magnitude(n, base) else Magnitude(n, base)
  {
  }

  /** Reading what was written, with the base detected from the prefix, gives the number back without an
      error exactly if it is not the least in base 10, and not negative in another base. */
  lemma RoundTrip(n: int, base: nat, digits: string)
    requires -0x8000_0000 <= n < 0x8000_0000
    requires base == 2 || base == 8 || base == 10 || base == 16
    requires IsNumeral(digits, Magnitude(n, base), base)
    ensures ReadOutcome(Dissect(Sign(n, base) + Prefix(base) + digits, 0)) == (n, false) <==>
      if base == 10 then n > -0x8000_0000 else n >= 0
  {
    MagnitudeReads(n, base);
    DissectWritten(base == 10 && n < 0, base, digits);
    ReadsNumeral(base == 10 && n < 0, base, digits, Magnitude(n, base));
    ReadFitting(Magnitude(n, base), base);
  }

  lemma ReadsNumeral(negative: bool, base: nat, digits: string, m: int)
    requires base >= 2 && IsNumeral(digits, m, base)
    ensures var d := Number(negative, base, digits);
            Meant(d) == m && !Malformed(d)
  {
    RunOfDigits(digits, base);
    assert digits[..|digits|] == digits;
  }

  method WriteAndRead(out: Output, n: int) returns (value: int, error: bool)
    requires out.Usable() && out.text == "" && -0x8000_0000 <= n < 0x8000_0000
    modifies out
    ensures value == n && !error <==> if out.base == 10 then n > -0x8000_0000 else n >= 0
  {
    ghost var digits := out.WriteSigned(n);
    RoundTrip(n, out.base, digits);
    assert out.text == Sign(n, out.base) + Prefix(out.base) + digits;
    value, error := Strtol(out.text, 0);
  }
}
