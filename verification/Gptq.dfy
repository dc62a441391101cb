/** Group quantisation to 4 or 8 bits and back: what the codes are, how far a restored weight can be off, and that
    quantising the restored weights changes nothing. Weights are reals; rounding a scale to half precision is a
    parameter. */
module Gptq {
  import opened Packing

  function Abs(x: real): real { if x < 0.0 then -x else x }

  /** Round to the nearest integer, ties to the even one. */
  function RoundEven(x: real): (r: int)
    ensures Abs(x - r as real) <= 0.5
    ensures Abs(x - r as real) == 0.5 ==> r % 2 == 0
  {
    var f := x.Floor;
    if x - f as real < 0.5 then f
    else if x - f as real > 0.5 then f + 1
    else if f % 2 == 0 then f else f + 1
  }

  lemma RoundInteger(n: int)
    ensures RoundEven(n as real) == n
  {
  }

  /** Up to the tie itself, rounding does not pass an even number. */
  lemma RoundBelow(x: real, n: int)
    requires x <= n as real + 0.5 && n % 2 == 0
    ensures RoundEven(x) <= n
  {
  }

  function Clamp(x: int, lo: int, hi: int): int
    requires lo <= hi
  {
    if x < lo then lo else if x > hi then hi else x
  }

  // ---------------------------------------------------------------- products of reals

  function Product(a: real, b: real): real { a * b }

  lemma ProductAbs(a: real, b: real)
    ensures Abs(Product(a, b)) == Product(Abs(a), Abs(b))
  {
  }

  lemma ProductMono(a: real, b: real, k: real)
    requires a <= b && k >= 0.0
    ensures Product(a, k) <= Product(b, k)
  {
  }

  lemma ProductStrict(a: real, b: real, k: real)
    requires a < b && k > 0.0
    ensures Product(a, k) < Product(b, k)
  {
  }

  lemma ProductSub(a: real, b: real, k: real)
    ensures Product(a - b, k) == Product(a, k) - Product(b, k)
  {
  }

  lemma ProductSwap(a: real, b: real)
    ensures Product(a, b) == Product(b, a)
  {
  }

  lemma ProductNeg(a: real, k: real)
    ensures Product(-a, k) == -Product(a, k) == Product(a, -k)
  {
  }

  lemma DivideBack(w: real, s: real)
    requires s != 0.0
    ensures Product(w / s, s) == w
  {
  }

  lemma MultiplyBack(a: real, s: real)
    requires s != 0.0
    ensures Product(a, s) / s == a
  {
  }

  // ---------------------------------------------------------------- one weight

  /** Half the number of codes: code `half` stands for zero. */
  function Half(f: Format): nat { Base(f) / 2 }

  function Guard(s: real): real { if s == 0.0 then 1.0 else s }

  /** How many steps of the scale the weight is away from zero. */
  function Steps(w: real, s: real): real { w / Guard(s) }

  function Code(w: real, s: real, half: nat): (c: nat)
    requires half > 0
    ensures c < 2 * half
  {
    Clamp(RoundEven(Steps(w, s)) + half, 0, 2 * half - 1)
  }

  function Value(code: int, zero: int, s: real): real { Product((code - zero) as real, s) }

  /** The weight's nearest step has a code. */
  predicate HasStep(w: real, s: real, half: nat) { 0 <= RoundEven(Steps(w, s)) + half < 2 * half }

  lemma StepsBack(w: real, s: real)
    requires s != 0.0
    ensures Product(Steps(w, s), s) == w
  {
    DivideBack(w, s);
  }

  /** The error is the distance to the code's step, times the step. */
  lemma OffBy(w: real, s: real, half: nat)
    requires half > 0 && s != 0.0
    ensures Abs(w - Value(Code(w, s, half), half, s)) ==
              Product(Abs(Steps(w, s) - (Code(w, s, half) - half) as real), Abs(s))
  {
    var y, n := Steps(w, s), (Code(w, s, half) - half) as real;
    StepsBack(w, s);
    ProductSub(y, n, s);
    ProductAbs(y - n, s);
  }

  /** A weight whose nearest step has a code is off by at most half a step. */
  lemma HalfStep(w: real, s: real, half: nat)
    requires half > 0 && s != 0.0 && HasStep(w, s, half)
    ensures Abs(w - Value(Code(w, s, half), half, s)) <= Product(0.5, Abs(s))
  {
    OffBy(w, s, half);
    ProductMono(Abs(Steps(w, s) - (Code(w, s, half) - half) as real), 0.5, Abs(s));
  }

  /** No weight of the group outweighs the lowest code at the exact scale. */
  predicate Bounded(w: real, x: real, half: nat) { Abs(w) <= Product(half as real, Abs(x)) }

  /** `v` is off by at most one step `s` and the slack from rounding the scale `x` to `s`. */
  predicate OffByStep(w: real, v: real, s: real, x: real, half: nat) {
    Abs(w - v) <= Abs(s) + Product(half as real, Abs(s - x))
  }

  /** A step without a code lies beyond the last one by less than the slack allows. */
  lemma StepsBound(w: real, s: real, x: real, half: nat)
    requires s != 0.0 && Bounded(w, x, half)
    ensures Product(Abs(Steps(w, s)), Abs(s)) <= Product(half as real, Abs(s)) + Product(half as real, Abs(s - x))
  {
    StepsBack(w, s);
    ProductAbs(Steps(w, s), s);
    var h := half as real;
    ProductSwap(h, Abs(x));
    ProductSwap(h, Abs(s));
    ProductSwap(h, Abs(s - x));
    ProductMono(Abs(x), Abs(s) + Abs(s - x), h);
    ProductSub(Abs(s) + Abs(s - x), Abs(s - x), h);
  }

  lemma ClampedStep(w: real, s: real, x: real, half: nat)
    requires half > 0 && s != 0.0 && !HasStep(w, s, half) && Bounded(w, x, half)
    ensures OffByStep(w, Value(Code(w, s, half), half, s), s, x, half)
  {
    var y, c, h := Steps(w, s), Code(w, s, half), half as real;
    OffBy(w, s, half);
    StepsBound(w, s, x, half);
    var off := Abs(y - (c - half) as real);
    assert off <= Abs(y) - (h - 1.0);
    ProductMono(off, Abs(y) - (h - 1.0), Abs(s));
    ProductSub(Abs(y), h - 1.0, Abs(s));
    ProductSub(h, 1.0, Abs(s));
  }

  /** However the scale was rounded, a weight no larger than the largest of its group comes back within one step plus
      the slack `half * |s - x|`, where `x` is the scale before rounding. */
  lemma OneStep(w: real, s: real, x: real, half: nat)
    requires half > 0 && Bounded(w, x, half)
    ensures OffByStep(w, Value(Code(w, s, half), half, s), s, x, half)
  {
    ProductMono(0.0, half as real, Abs(s - x));
    ProductMono(0.5, 1.0, Abs(s));
    if s == 0.0 {
      ZeroValue(Code(w, s, half), half);
    } else if HasStep(w, s, half) {
      HalfStep(w, s, half);
    } else {
      ClampedStep(w, s, x, half);
    }
  }

  lemma ZeroValue(code: int, zero: int)
    ensures Value(code, zero, 0.0) == 0.0
  {
  }

  // ---------------------------------------------------------------- one group

  /** The element the scale is taken from: some element of largest magnitude. */
  ghost predicate IsPick(group: seq<real>, p: real) {
    p in group && forall i | 0 <= i < |group| :: Abs(group[i]) <= Abs(p)
  }

  /** The first element of largest magnitude. */
  function PickFirst(group: seq<real>): real
    requires group != []
  {
    if |group| == 1 then group[0]
    else
      var rest := PickFirst(group[1..]);
      if Abs(group[0]) >= Abs(rest) then group[0] else rest
  }

  function Smallest(group: seq<real>): real
    requires group != []
  {
    if |group| == 1 then group[0]
    else if group[0] <= Smallest(group[1..]) then group[0] else Smallest(group[1..])
  }

  function Largest(group: seq<real>): real
    requires group != []
  {
    if |group| == 1 then group[0]
    else if group[0] >= Largest(group[1..]) then group[0] else Largest(group[1..])
  }

  /** The smallest element if it outweighs the largest, else the largest. */
  function PickEnd(group: seq<real>): real
    requires group != []
  {
    if -Smallest(group) > Largest(group) then Smallest(group) else Largest(group)
  }

  function Pick(f: Format, group: seq<real>): real
    requires group != []
  {
    if f.Int4? then PickFirst(group) else PickEnd(group)
  }

  lemma {:induction false} PickFirstIs(group: seq<real>)
    requires group != []
    ensures IsPick(group, PickFirst(group))
  {
    if |group| > 1 {
      PickFirstIs(group[1..]);
      assert group == [group[0]] + group[1..];
    }
  }

  lemma {:induction false} EndsAre(group: seq<real>)
    requires group != []
    ensures Smallest(group) in group && Largest(group) in group
    ensures forall i | 0 <= i < |group| :: Smallest(group) <= group[i] <= Largest(group)
  {
    if |group| > 1 {
      EndsAre(group[1..]);
      assert group == [group[0]] + group[1..];
    }
  }

  /** Both pickers choose an element of largest magnitude. */
  lemma PickIs(f: Format, group: seq<real>)
    requires group != []
    ensures IsPick(group, Pick(f, group))
  {
    if f.Int4? { PickFirstIs(group); } else { EndsAre(group); }
  }

  /** Which of several elements of largest magnitude: the 4-bit quantiser takes the first of them, the 8-bit one a
      positive one if there is any. */
  lemma PickTies(f: Format, group: seq<real>)
    requires group != []
    ensures f.Int4? ==> exists i :: 0 <= i < |group| && FirstOfLargest(group, i) && group[i] == Pick(f, group)
    ensures f.Int8? && Pick(f, group) < 0.0 ==> forall i | 0 <= i < |group| :: group[i] < -Pick(f, group)
  {
    if f.Int4? { FirstIsFirst(group); } else { EndsAre(group); }
  }

  /** Nothing before `i` is as large, nothing after it is larger. */
  ghost predicate FirstOfLargest(group: seq<real>, i: nat)
    requires i < |group|
  {
    && (forall j | 0 <= j < i :: Abs(group[j]) < Abs(group[i]))
    && (forall j | i <= j < |group| :: Abs(group[j]) <= Abs(group[i]))
  }

  lemma {:induction false} FirstIsFirst(group: seq<real>)
    requires group != []
    ensures exists i :: 0 <= i < |group| && FirstOfLargest(group, i) && group[i] == PickFirst(group)
  {
    if |group| == 1 {
      assert FirstOfLargest(group, 0);
    } else {
      var tail := group[1..];
      FirstIsFirst(tail);
      var i :| 0 <= i < |tail| && FirstOfLargest(tail, i) && tail[i] == PickFirst(tail);
      assert group == [group[0]] + tail;
      if Abs(group[0]) >= Abs(tail[i]) {
        forall j | 0 <= j < |group| ensures Abs(group[j]) <= Abs(group[0]) {
          if j > 0 { assert group[j] == tail[j - 1]; }
        }
        assert FirstOfLargest(group, 0);
      } else {
        forall j | 0 <= j < i + 1 ensures Abs(group[j]) < Abs(group[i + 1]) {
          if j > 0 { assert group[j] == tail[j - 1]; }
        }
        assert FirstOfLargest(group, i + 1);
      }
    }
  }

  /** The scale before rounding: the picked element falls on the lowest code. */
  function RawScale(f: Format, group: seq<real>): real
    requires group != []
  {
    Pick(f, group) / -(Half(f) as real)
  }

  function Scale(f: Format, group: seq<real>, f16: real -> real): real
    requires group != []
  {
    f16(RawScale(f, group))
  }

  lemma PickIsRaw(f: Format, group: seq<real>)
    requires group != []
    ensures Pick(f, group) == Product(RawScale(f, group), -(Half(f) as real))
  {
    DivideBack(Pick(f, group), -(Half(f) as real));
  }

  lemma GroupBounded(f: Format, group: seq<real>, i: nat)
    requires i < |group|
    ensures Bounded(group[i], RawScale(f, group), Half(f))
  {
    PickIs(f, group);
    PickIsRaw(f, group);
    ProductAbs(RawScale(f, group), -(Half(f) as real));
    ProductSwap(Abs(RawScale(f, group)), Half(f) as real);
  }

  /** Every weight of a group comes back within one step plus the slack of the rounded scale, and within half a step
      unless it lies near the missing top code. */
  lemma GroupError(f: Format, group: seq<real>, f16: real -> real, i: nat)
    requires i < |group|
    ensures var s, c := Scale(f, group, f16), Code(group[i], Scale(f, group, f16), Half(f));
            && OffByStep(group[i], Value(c, Half(f), s), s, RawScale(f, group), Half(f))
            && (s != 0.0 && HasStep(group[i], s, Half(f)) ==>
                  Abs(group[i] - Value(c, Half(f), s)) <= Product(0.5, Abs(s)))
  {
    var s := Scale(f, group, f16);
    GroupBounded(f, group, i);
    OneStep(group[i], s, RawScale(f, group), Half(f));
    if s != 0.0 && HasStep(group[i], s, Half(f)) { HalfStep(group[i], s, Half(f)); }
  }

  /** The rounded scale is off by at most half a code in the lowest slot. */
  predicate Close(s: real, x: real, half: nat) { Product(Abs(s - x), 2.0 * half as real) <= Abs(s) }

  /** And it survives another rounding. */
  ghost predicate ScaleHolds(f: Format, group: seq<real>, f16: real -> real)
    requires group != []
  {
    f16(Scale(f, group, f16)) == Scale(f, group, f16) && Close(Scale(f, group, f16), RawScale(f, group), Half(f))
  }

  /** The group as restored from its codes. */
  function Restored(f: Format, group: seq<real>, s: real): (r: seq<real>)
    ensures |r| == |group|
  {
    seq(|group|, i requires 0 <= i < |group| => Value(Code(group[i], s, Half(f)), Half(f), s))
  }

  lemma StepsAtMost(a: real, s: real, b: real)
    requires s != 0.0 && (s > 0.0 ==> a <= Product(b, s)) && (s < 0.0 ==> a >= Product(b, s))
    ensures Steps(a, s) <= b
  {
    StepsBack(a, s);
    var y := Steps(a, s);
    if y > b {
      if s > 0.0 {
        ProductStrict(b, y, s);
      } else {
        ProductStrict(b, y, -s);
        ProductNeg(b, s);
        ProductNeg(y, s);
      }
    }
  }

  /** At the rounded scale the picked element is at most half a step above the lowest code. */
  lemma LowEnough(s: real, x: real, half: nat)
    requires half > 0 && s != 0.0 && Close(s, x, half)
    ensures Steps(Product(x, -(half as real)), s) <= -(half as real) + 0.5
  {
    var h := half as real;
    ProductNeg(x, h);
    ProductNeg(h, s);
    ProductSwap(s, h);
    ProductSub(s, x, h);
    ProductSub(-h + 0.5, 0.5, s);
    HalfOf(Abs(s - x), h);
    ProductMono(s - x, Abs(s - x), h);
    ProductMono(-(s - x), Abs(s - x), h);
    ProductNeg(s - x, h);
    HalfIs(s);
    StepsAtMost(Product(x, -h), s, -h + 0.5);
  }

  lemma HalfOf(a: real, h: real)
    ensures Product(a, 2.0 * h) == 2.0 * Product(a, h)
  {
  }

  lemma HalfIs(s: real)
    ensures 2.0 * Product(0.5, s) == s
  {
  }

  /** The picked element gets the lowest code. */
  lemma LowestCode(s: real, x: real, half: nat)
    requires half > 0 && half % 2 == 0 && s != 0.0 && Close(s, x, half)
    ensures Code(Product(x, -(half as real)), s, half) == 0
  {
    LowEnough(s, x, half);
    BelowLowest(Steps(Product(x, -(half as real)), s), half);
  }

  lemma BelowLowest(y: real, half: nat)
    requires half % 2 == 0 && y <= -(half as real) + 0.5
    ensures RoundEven(y) + half <= 0
  {
    var lowest: int := half;
    assert (-lowest) % 2 == 0;
    RoundBelow(y, -lowest);
  }

  lemma PickAt(f: Format, group: seq<real>) returns (i: nat)
    requires group != []
    ensures i < |group| && group[i] == Pick(f, group)
  {
    PickIs(f, group);
    i :| i < |group| && group[i] == Pick(f, group);
  }

  lemma LowestOutweighs(c: nat, half: nat, s: real)
    requires 0 < c < 2 * half && s != 0.0
    ensures Abs(Value(c, half, s)) < Abs(Value(0, half, s))
  {
    ProductAbs((c - half) as real, s);
    ProductAbs((0 - half) as real, s);
    ProductStrict(Abs((c - half) as real), Abs((0 - half) as real), Abs(s));
  }

  /** Among restored weights only the lowest code reaches the largest magnitude, so either picker finds that value. */
  lemma RestoredPick(f: Format, group: seq<real>, s: real, i: nat)
    requires i < |group| && s != 0.0 && Code(group[i], s, Half(f)) == 0
    ensures Pick(f, Restored(f, group, s)) == Value(0, Half(f), s)
  {
    var r := Restored(f, group, s);
    PickIs(f, r);
    var j :| 0 <= j < |r| && r[j] == Pick(f, r);
    var c := Code(group[j], s, Half(f));
    assert r[j] == Value(c, Half(f), s) && r[i] == Value(0, Half(f), s);
    assert Abs(r[i]) <= Abs(r[j]);
    if c > 0 { LowestOutweighs(c, Half(f), s); }
  }

  lemma ScaleBack(half: nat, s: real)
    requires half > 0
    ensures Value(0, half, s) / -(half as real) == s
  {
    var h := half as real;
    assert (0 - half) as real == -h;
    ProductSwap(-h, s);
    MultiplyBack(s, -h);
  }

  lemma ValueBack(c: nat, s: real, half: nat)
    requires half > 0 && c < 2 * half && s != 0.0
    ensures Code(Value(c, half, s), s, half) == c
  {
    MultiplyBack((c - half) as real, s);
    RoundInteger(c - half);
  }

  /** Quantising the restored group gives the same scale and the same codes. */
  lemma RequantiseSame(f: Format, group: seq<real>, f16: real -> real)
    requires group != [] && ScaleHolds(f, group, f16) && f16(0.0) == 0.0
    ensures var s := Scale(f, group, f16); var r := Restored(f, group, s);
            && Scale(f, r, f16) == s
            && forall i | 0 <= i < |group| :: Code(r[i], s, Half(f)) == Code(group[i], s, Half(f))
  {
    var s, h := Scale(f, group, f16), Half(f);
    var r := Restored(f, group, s);
    if s == 0.0 {
      ZeroScale(f, group, f16);
    } else {
      PickIsRaw(f, group);
      var i := PickAt(f, group);
      LowestCode(s, RawScale(f, group), h);
      RestoredPick(f, group, s, i);
      ScaleBack(h, s);
      forall j | 0 <= j < |group| ensures Code(r[j], s, h) == Code(group[j], s, h) {
        ValueBack(Code(group[j], s, h), s, h);
      }
    }
  }

  lemma ZeroGroup(f: Format, group: seq<real>)
    requires group != [] && RawScale(f, group) == 0.0
    ensures forall i | 0 <= i < |group| :: group[i] == 0.0
  {
    forall i | 0 <= i < |group| ensures group[i] == 0.0 {
      GroupBounded(f, group, i);
    }
  }

  lemma ZeroPick(f: Format, group: seq<real>)
    requires group != [] && forall i | 0 <= i < |group| :: group[i] == 0.0
    ensures RawScale(f, group) == 0.0
  {
    PickIs(f, group);
    assert Pick(f, group) == 0.0;
  }

  lemma ZeroCode(half: nat)
    requires half > 0
    ensures Code(0.0, 0.0, half) == half
  {
    RoundInteger(0);
    assert 0.0 / 1.0 == 0.0;
  }

  lemma CloseToZero(x: real, half: nat)
    requires half > 0 && Close(0.0, x, half)
    ensures x == 0.0
  {
    if x != 0.0 {
      ProductStrict(0.0, 2.0 * half as real, Abs(0.0 - x));
      ProductSwap(Abs(0.0 - x), 2.0 * half as real);
    }
  }

  /** An all-zero group is stored with scale zero and the zero code, and comes back as zeros. */
  lemma ZeroGroupComesBack(f: Format, group: seq<real>, f16: real -> real)
    requires group != [] && (forall i | 0 <= i < |group| :: group[i] == 0.0) && f16(0.0) == 0.0
    ensures Scale(f, group, f16) == 0.0
    ensures forall i | 0 <= i < |group| :: Code(group[i], 0.0, Half(f)) == Half(f) && Restored(f, group, 0.0)[i] == 0.0
  {
    ZeroPick(f, group);
    ZeroCode(Half(f));
  }

  /** With a close scale of zero every weight was zero. */
  lemma ZeroScale(f: Format, group: seq<real>, f16: real -> real)
    requires group != [] && ScaleHolds(f, group, f16) && Scale(f, group, f16) == 0.0 && f16(0.0) == 0.0
    ensures var r := Restored(f, group, 0.0);
            && Scale(f, r, f16) == 0.0
            && forall i | 0 <= i < |group| ::
                 Code(group[i], 0.0, Half(f)) == Half(f) && Code(r[i], 0.0, Half(f)) == Half(f)
  {
    CloseToZero(RawScale(f, group), Half(f));
    ZeroGroup(f, group);
    ZeroGroupComesBack(f, group, f16);
    ZeroGroupComesBack(f, Restored(f, group, 0.0), f16);
  }
}
