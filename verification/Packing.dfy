/** Eight nibbles or four bytes in a 32-bit word: two packers, and the shift-and-mask unpacker that undoes both. */
module Packing {

  function Pow(base: nat, n: nat): nat { if n == 0 then 1 else base * Pow(base, n - 1) }

  const WORD: nat := 0x1_0000_0000

  /** The same 32 bits read as a signed or an unsigned word. */
  function ToSigned(u: nat): int
    requires u < WORD
  {
    if u >= 0x8000_0000 then u - WORD else u
  }

  function ToUnsigned(i: int): (u: nat)
    requires -0x8000_0000 <= i < 0x8000_0000
  {
    if i < 0 then i + WORD else i
  }

  predicate Digits(ds: seq<nat>, base: nat) { forall i | 0 <= i < |ds| :: ds[i] < base }

  /** Each digit shifted to its place, added up in 32 bits. */
  function ShiftSum(ds: seq<nat>, base: nat, place: nat): nat {
    if ds == [] then 0 else (ds[0] * Pow(base, place) + ShiftSum(ds[1..], base, place + 1)) % WORD
  }

  /** The bytes of a little-endian word, lowest first. */
  function LittleEndian(ds: seq<nat>, base: nat): nat {
    if ds == [] then 0 else ds[0] + base * LittleEndian(ds[1..], base)
  }

  /** Digit `i`: shift right, then mask. */
  function DigitAt(u: nat, base: nat, i: nat): nat
    requires base > 0
  {
    PowPositive(base, i);
    u / Pow(base, i) % base
  }

  lemma {:induction false} PowPositive(base: nat, n: nat)
    requires base > 0
    ensures Pow(base, n) > 0
  {
    if n > 0 { PowPositive(base, n - 1); }
  }

  lemma {:induction false} PowAdd(base: nat, a: nat, b: nat)
    ensures Pow(base, a + b) == Pow(base, a) * Pow(base, b)
  {
    if a > 0 {
      PowAdd(base, a - 1, b);
      Assoc(base, Pow(base, a - 1), Pow(base, b));
    }
  }

  lemma {:induction false} LittleEndianBound(ds: seq<nat>, base: nat)
    requires base > 0 && Digits(ds, base)
    ensures LittleEndian(ds, base) < Pow(base, |ds|)
  {
    if ds != [] {
      LittleEndianBound(ds[1..], base);
      Room(ds[0], base, LittleEndian(ds[1..], base), Pow(base, |ds| - 1));
    }
  }

  lemma Room(d: nat, base: nat, r: nat, p: nat)
    requires d < base && r < p
    ensures d + base * r < base * p
  {
    assert base * (r + 1) <= base * p;
  }

  lemma Assoc(a: int, b: int, c: int)
    ensures a * (b * c) == (a * b) * c
  {
  }

  lemma Positive(a: nat, b: nat)
    requires a > 0 && b > 0
    ensures a * b > 0
  {
  }

  lemma Regroup(a: nat, b: nat, q: nat, r: nat, s: nat)
    ensures a * (b * q + r) + s == (a * b) * q + (a * r + s)
  {
    Distribute(a, b * q, r);
    Assoc(a, b, q);
  }

  lemma DivTwice(u: nat, a: nat, b: nat)
    requires a > 0 && b > 0
    ensures a * b > 0 && u / (a * b) == u / a / b
  {
    Positive(a, b);
    var q, r := u / a, u % a;
    var q', r' := q / b, q % b;
    Regroup(a, b, q', r', r);
    Room(r, a, r', b);
    QuotientIs(u, a * b, q', a * r' + r);
  }

  lemma Distribute(a: int, x: int, y: int)
    ensures a * (x + y) == a * x + a * y
  {
  }

  lemma Ordered(a: nat, b: nat, d: nat)
    ensures a <= b ==> d * a <= d * b
  {
  }

  lemma QuotientIs(u: nat, d: nat, q: nat, r: nat)
    requires d > 0 && u == d * q + r && r < d
    ensures u / d == q
  {
    var q2, r2 := u / d, u % d;
    assert u == d * q2 + r2;
    Ordered(q2 + 1, q, d);
    Ordered(q + 1, q2, d);
  }

  /** Unpacking a little-endian word gives back its digits. */
  lemma {:induction false} UnpackLittleEndian(ds: seq<nat>, base: nat, i: nat)
    requires base > 0 && Digits(ds, base) && i < |ds|
    ensures DigitAt(LittleEndian(ds, base), base, i) == ds[i]
  {
    var rest := LittleEndian(ds[1..], base);
    var u := ds[0] + base * rest;
    QuotientIs(u, base, rest, ds[0]);
    if i == 0 {
      assert u % base == ds[0];
    } else {
      UnpackLittleEndian(ds[1..], base, i - 1);
      PowPositive(base, i - 1);
      DivTwice(u, base, Pow(base, i - 1));
    }
  }

  lemma ShiftStep(d: nat, base: nat, rest: nat, p: nat)
    ensures d * p + rest * (base * p) == (d + base * rest) * p
  {
    Distribute(p, d, base * rest);
    Assoc(rest, base, p);
  }

  /** Adding shifted digits cannot wrap and is the little-endian word. */
  lemma {:induction false} ShiftSumIs(ds: seq<nat>, base: nat, place: nat)
    requires base > 0 && Digits(ds, base) && Pow(base, place + |ds|) <= WORD
    ensures ShiftSum(ds, base, place) == LittleEndian(ds, base) * Pow(base, place)
    ensures LittleEndian(ds, base) * Pow(base, place) < WORD
  {
    LittleEndianBound(ds, base);
    PowAdd(base, |ds|, place);
    PowPositive(base, place);
    Grow(LittleEndian(ds, base), Pow(base, |ds|), Pow(base, place));
    if ds != [] {
      assert place + 1 + |ds[1..]| == place + |ds|;
      ShiftSumIs(ds[1..], base, place + 1);
      ShiftStep(ds[0], base, LittleEndian(ds[1..], base), Pow(base, place));
    }
  }

  lemma Grow(a: nat, b: nat, k: nat)
    requires a < b && k > 0
    ensures a * k < b * k
  {
  }

  datatype Format = Int4 | Int8

  function Bits(f: Format): nat { if f.Int4? then 4 else 8 }

  function PerWord(f: Format): (n: nat)
    ensures n > 0
  {
    if f.Int4? then 8 else 4
  }

  function Base(f: Format): nat { if f.Int4? then 16 else 256 }

  /** What one format stores in a signed word. */
  function PackWord(f: Format, ds: seq<nat>): int
    requires |ds| == PerWord(f) && Digits(ds, Base(f))
  {
    WordFits(f, ds);
    ToSigned(if f.Int4? then ShiftSum(ds, 16, 0) else LittleEndian(ds, 256))
  }

  lemma WordFits(f: Format, ds: seq<nat>)
    requires |ds| == PerWord(f) && Digits(ds, Base(f))
    ensures LittleEndian(ds, Base(f)) < WORD
    ensures f.Int4? ==> ShiftSum(ds, 16, 0) == LittleEndian(ds, 16)
  {
    assert Pow(16, 8) == 0x1_0000_0000 by { assert Pow(16, 4) == 0x1_0000; PowAdd(16, 4, 4); }
    assert Pow(256, 4) == 0x1_0000_0000;
    LittleEndianBound(ds, Base(f));
    if f.Int4? {
      ShiftSumIs(ds, 16, 0);
      assert Pow(16, 0) == 1;
    }
  }

  /** Both packers are undone by shifting and masking the unsigned word, even where the stored word is negative. */
  lemma UnpackPackWord(f: Format, ds: seq<nat>, i: nat)
    requires |ds| == PerWord(f) && Digits(ds, Base(f)) && i < |ds|
    ensures -0x8000_0000 <= PackWord(f, ds) < 0x8000_0000
    ensures DigitAt(ToUnsigned(PackWord(f, ds)), Base(f), i) == ds[i]
  {
    WordFits(f, ds);
    UnpackLittleEndian(ds, Base(f), i);
  }
}
