/** Whole weight matrices: what the two quantisers write, and the row reader that finds its layout from the shapes. */
module GptqHead {
  import opened Packing
  import opened Gptq

  datatype Option<T> = None | Some(value: T)

  const GROUP: nat := 128

  /** `qweight` has a row per word of input features, `scales` one per group; both have a column per output.
      `zeroCols` is the width of `qzeros`, `zeros` the word it is filled with. */
  datatype Packed = Packed(out: nat, zeroCols: nat, zeros: int, qweight: seq<seq<int>>, scales: seq<seq<real>>)

  /** `w` has a row of `inF` weights per output. */
  predicate Matrix(w: seq<seq<real>>, inF: nat) { inF % GROUP == 0 && forall o | 0 <= o < |w| :: |w[o]| == inF }

  function Group(w: seq<seq<real>>, o: nat, g: nat): (r: seq<real>)
    requires o < |w| && (g + 1) * GROUP <= |w[o]|
    ensures |r| == GROUP
  {
    w[o][g * GROUP..(g + 1) * GROUP]
  }

  function ScaleAt(f: Format, w: seq<seq<real>>, inF: nat, o: nat, g: nat, f16: real -> real): real
    requires Matrix(w, inF) && o < |w| && g < inF / GROUP
  {
    Scale(f, Group(w, o, g), f16)
  }

  function CodeAt(f: Format, w: seq<seq<real>>, inF: nat, o: nat, k: nat, f16: real -> real): (c: nat)
    requires Matrix(w, inF) && o < |w| && k < inF
    ensures c < Base(f)
  {
    Code(w[o][k], ScaleAt(f, w, inF, o, k / GROUP, f16), Half(f))
  }

  function Codes(f: Format, w: seq<seq<real>>, inF: nat, o: nat, r: nat, f16: real -> real): (ds: seq<nat>)
    requires Matrix(w, inF) && o < |w| && r < inF / PerWord(f)
    ensures |ds| == PerWord(f) && Digits(ds, Base(f))
  {
    var ds := seq<nat>(PerWord(f), i requires 0 <= i < PerWord(f) => CodeAt(f, w, inF, o, r * PerWord(f) + i, f16));
    assert Digits(ds, Base(f)) by {
      forall i | 0 <= i < |ds| ensures ds[i] < Base(f) {
        assert ds[i] == CodeAt(f, w, inF, o, r * PerWord(f) + i, f16);
      }
    }
    ds
  }

  /** Seven, or 127, in every digit: the zero point minus one. */
  function ZeroWord(f: Format): int { if f.Int4? then 0x7777_7777 else 0x7F7F_7F7F }

  /** What the quantiser asserts about the shape; the 8-bit one asks nothing of the outputs. */
  predicate Accepts(f: Format, out: nat, inF: nat) { inF % GROUP == 0 && (f.Int4? ==> out % 8 == 0) }

  function Quantize(f: Format, w: seq<seq<real>>, inF: nat, f16: real -> real): Option<Packed>
    requires forall o | 0 <= o < |w| :: |w[o]| == inF
  {
    if !Accepts(f, |w|, inF) then None
    else Some(Packed(|w|, |w| / PerWord(f), ZeroWord(f),
                     seq(inF / PerWord(f), r requires 0 <= r < inF / PerWord(f) =>
                       seq(|w|, o requires 0 <= o < |w| => PackWord(f, Codes(f, w, inF, o, r, f16)))),
                     seq(inF / GROUP, g requires 0 <= g < inF / GROUP =>
                       seq(|w|, o requires 0 <= o < |w| => ScaleAt(f, w, inF, o, g, f16)))))
  }

  // ---------------------------------------------------------------- the reader

  /** Digits a word, bits a digit, input features, features a group, zero point. */
  datatype Layout = Layout(pack: nat, bits: nat, inF: nat, group: nat, zero: int)

  /** The layout the reader derives from the shapes alone; none where it would divide by zero. */
  function LayoutOf(p: Packed): Option<Layout> {
    if p.zeroCols == 0 || p.out / p.zeroCols == 0 || p.scales == [] then None
    else
      var pack := p.out / p.zeroCols;
      var bits := 32 / pack;
      var inF := |p.qweight| * pack;
      var group := inF / |p.scales|;
      if group * |p.scales| != inF || !(-0x8000_0000 <= p.zeros < 0x8000_0000) then None
      else Some(Layout(pack, bits, inF, group, DigitAt(ToUnsigned(p.zeros), Radix(bits), 0) + 1))
  }

  function Radix(bits: nat): (r: nat)
    ensures r > 0
  {
    PowPositive(2, bits);
    Pow(2, bits)
  }

  /** Whether the arrays really have the shapes the reader relies on, with 32-bit words. */
  ghost predicate WellShaped(p: Packed) {
    && (forall r | 0 <= r < |p.qweight| ::
          |p.qweight[r]| == p.out && forall o | 0 <= o < p.out :: -0x8000_0000 <= p.qweight[r][o] < 0x8000_0000)
    && (forall g | 0 <= g < |p.scales| :: |p.scales[g]| == p.out)
  }

  /** Weight `k` of output `o` as the reader restores it. */
  function WeightAt(p: Packed, l: Layout, o: nat, k: nat): real
    requires WellShaped(p) && o < p.out && l.pack > 0 && l.group > 0
    requires k / l.pack < |p.qweight| && k / l.group < |p.scales|
  {
    Value(DigitAt(ToUnsigned(p.qweight[k / l.pack][o]), Radix(l.bits), k % l.pack), l.zero, p.scales[k / l.group][o])
  }

  lemma Inside(k: nat, n: nat, d: nat)
    requires d > 0 && k < n * d
    ensures k / d < n
  {
    var q := k / d;
    assert k == q * d + k % d;
    Ordered(n, q, d);
  }

  lemma LayoutFits(p: Packed, l: Layout, k: nat)
    requires LayoutOf(p) == Some(l) && k < l.inF
    ensures l.pack > 0 && l.group > 0 && k / l.pack < |p.qweight| && k / l.group < |p.scales|
  {
    Inside(k, |p.qweight|, l.pack);
    Ordered(0, |p.scales|, l.group);
    assert l.group * |p.scales| == |p.scales| * l.group;
    Inside(k, |p.scales|, l.group);
  }

  /** Every entry in the precision of the result. */
  function Rounded(row: seq<real>, bf16: real -> real): (r: seq<real>)
    ensures |r| == |row|
  {
    seq(|row|, k requires 0 <= k < |row| => bf16(row[k]))
  }

  /** The selected rows, restored and converted; an error for a row the matrix does not have. */
  ghost function Rows(p: Packed, sel: seq<nat>, bf16: real -> real): Option<seq<seq<real>>>
    requires WellShaped(p)
  {
    if LayoutOf(p).None? || exists j :: 0 <= j < |sel| && sel[j] >= p.out then None
    else
      var l := LayoutOf(p).value;
      Some(seq(|sel|, j requires 0 <= j < |sel| =>
             Rounded(seq(l.inF, k requires 0 <= k < l.inF => (LayoutFits(p, l, k); WeightAt(p, l, sel[j], k))), bf16)))
  }

  // ---------------------------------------------------------------- the shapes tell the right layout, mostly

  lemma QuantizeShaped(f: Format, w: seq<seq<real>>, inF: nat, f16: real -> real)
    requires Matrix(w, inF) && Quantize(f, w, inF, f16).Some?
    ensures WellShaped(Quantize(f, w, inF, f16).value)
  {
    var p := Quantize(f, w, inF, f16).value;
    forall r, o | 0 <= r < |p.qweight| && 0 <= o < p.out ensures -0x8000_0000 <= p.qweight[r][o] < 0x8000_0000 {
      UnpackPackWord(f, Codes(f, w, inF, o, r, f16), 0);
    }
  }

  predicate ShapeTells(f: Format, out: nat) { if f.Int4? then out > 0 else out % 4 < out / 4 }

  lemma FourFits(out: nat)
    requires out >= 4
    ensures out / (out / 4) == 4 <==> out % 4 < out / 4
  {
    var q := out / 4;
    assert out == 4 * q + out % 4;
    var d, m := out / q, out % q;
    assert out == q * d + m;
    if out % 4 < q {
      QuotientIs(out, q, 4, out % 4);
    }
  }

  lemma EightFits(out: nat)
    requires out > 0 && out % 8 == 0
    ensures out / 8 > 0 && out / (out / 8) == 8
  {
    QuotientIs(out, out / 8, 8, 0);
  }

  lemma ZeroPoint(f: Format)
    ensures DigitAt(ToUnsigned(ZeroWord(f)), Base(f), 0) + 1 == Half(f)
  {
    assert Pow(Base(f), 0) == 1;
  }

  /** The word of zero points is the packed form of seven, or 127, in each of its digits: the code of zero minus one,
      wherever a reader looks it up. */
  lemma ZeroDigits(f: Format, i: nat)
    requires i < PerWord(f)
    ensures DigitAt(ToUnsigned(ZeroWord(f)), Base(f), i) == if f.Int4? then 7 else 127
    ensures Half(f) == if f.Int4? then 8 else 128
  {
    var seven := if f.Int4? then [7, 7, 7, 7, 7, 7, 7, 7] else [127, 127, 127, 127];
    ZeroPacked(f, seven);
    UnpackPackWord(f, seven, i);
  }

  lemma ZeroPacked(f: Format, ds: seq<nat>)
    requires ds == if f.Int4? then [7, 7, 7, 7, 7, 7, 7, 7] else [127, 127, 127, 127]
    ensures |ds| == PerWord(f) && Digits(ds, Base(f)) && PackWord(f, ds) == ZeroWord(f)
  {
    WordFits(f, ds);
    if f.Int4? { Sevens(); } else { Bytes127(); }
  }

  lemma Sevens()
    ensures LittleEndian([7, 7, 7, 7, 7, 7, 7, 7], 16) == 0x7777_7777
  {
    assert LittleEndian([7, 7, 7, 7], 16) == 0x7777 by {
      assert [7, 7, 7, 7][1..] == [7, 7, 7] && [7, 7, 7][1..] == [7, 7] && [7, 7][1..] == [7];
    }
    assert [7, 7, 7, 7, 7, 7, 7, 7][1..] == [7, 7, 7, 7, 7, 7, 7];
    assert [7, 7, 7, 7, 7, 7, 7][1..] == [7, 7, 7, 7, 7, 7];
    assert [7, 7, 7, 7, 7, 7][1..] == [7, 7, 7, 7, 7];
    assert [7, 7, 7, 7, 7][1..] == [7, 7, 7, 7];
  }

  lemma Bytes127()
    ensures LittleEndian([127, 127, 127, 127], 256) == 0x7F7F_7F7F
  {
    var three, two, one: seq<nat> := [127, 127, 127], [127, 127], [127];
    assert [127, 127, 127, 127][1..] == three && three[1..] == two && two[1..] == one && one[1..] == [];
  }

  lemma RadixIs()
    ensures Radix(4) == 16 && Radix(8) == 256
  {
    assert Pow(2, 4) == 16;
    PowAdd(2, 4, 4);
  }

  lemma LayoutNumbers(f: Format, out: nat, inF: nat)
    requires inF > 0 && Accepts(f, out, inF) && ShapeTells(f, out)
    ensures out / PerWord(f) > 0 && out / (out / PerWord(f)) == PerWord(f) && 32 / PerWord(f) == Bits(f)
    ensures inF / PerWord(f) * PerWord(f) == inF && inF / GROUP > 0 && inF / (inF / GROUP) == GROUP
    ensures GROUP * (inF / GROUP) == inF
  {
    GroupsFit(inF);
    if f.Int4? { EightFits(out); } else { FourFits(out); }
  }

  lemma GroupsFit(inF: nat)
    requires inF > 0 && inF % GROUP == 0
    ensures inF / GROUP > 0 && inF / (inF / GROUP) == GROUP && GROUP * (inF / GROUP) == inF
    ensures inF / 8 * 8 == inF && inF / 4 * 4 == inF
  {
    WholeWords(inF);
    Quotient128(inF, inF / 128);
  }

  lemma WholeWords(inF: nat)
    requires inF > 0 && inF % 128 == 0
    ensures inF == 128 * (inF / 128) && inF / 128 > 0 && inF / 8 * 8 == inF && inF / 4 * 4 == inF
  {
    var g := inF / 128;
    assert inF == 128 * g;
    QuotientIs(inF, 8, 16 * g, 0);
    QuotientIs(inF, 4, 32 * g, 0);
  }

  lemma Quotient128(n: nat, g: nat)
    requires n == 128 * g && g > 0
    ensures n / g == 128
  {
    QuotientIs(n, g, 128, 0);
  }

  /** The layout the reader finds is the one that was written. */
  lemma LayoutFound(f: Format, w: seq<seq<real>>, inF: nat, f16: real -> real)
    requires Matrix(w, inF) && inF > 0 && Accepts(f, |w|, inF) && ShapeTells(f, |w|)
    ensures LayoutOf(Quantize(f, w, inF, f16).value) == Some(Layout(PerWord(f), Bits(f), inF, GROUP, Half(f)))
  {
    LayoutNumbers(f, |w|, inF);
    RadixIs();
    ZeroPoint(f);
  }

  lemma EightLayout(w: seq<seq<real>>, inF: nat, f16: real -> real)
    requires Matrix(w, inF)
    ensures var l := LayoutOf(Quantize(Int8, w, inF, f16).value);
            l.Some? ==> |w| >= 4 && l.value.pack == |w| / (|w| / 4) && l.value.inF == inF / 4 * l.value.pack
  {
  }

  lemma FourAWord(inF: nat, pack: nat)
    requires inF > 0 && inF % 4 == 0 && inF / 4 * pack == inF
    ensures pack == 4
  {
    SameFactor(inF / 4, pack, 4);
  }

  /** For 8 bits the shapes are ambiguous: the reader gets the number of input features right if and only if the
      outputs left over after groups of four are fewer than those groups. */
  lemma EightBitShape(w: seq<seq<real>>, inF: nat, f16: real -> real)
    requires Matrix(w, inF) && inF > 0
    ensures var l := LayoutOf(Quantize(Int8, w, inF, f16).value);
            l.Some? && l.value.inF == inF <==> |w| % 4 < |w| / 4
  {
    var l := LayoutOf(Quantize(Int8, w, inF, f16).value);
    EightLayout(w, inF, f16);
    if |w| >= 4 { FourFits(|w|); }
    if |w| % 4 < |w| / 4 {
      LayoutFound(Int8, w, inF, f16);
    } else if l.Some? && l.value.inF == inF {
      FourAWord(inF, l.value.pack);
    }
  }

  /** Five outputs and 128 inputs: the reader takes a word for five 6-bit codes and finds 160 inputs. */
  lemma FiveOutputs(w: seq<seq<real>>, f16: real -> real)
    requires Matrix(w, 128) && |w| == 5
    ensures var l := LayoutOf(Quantize(Int8, w, 128, f16).value);
            l.Some? && l.value.pack == 5 && l.value.bits == 6 && l.value.inF == 160 == l.value.group
  {
    var p := Quantize(Int8, w, 128, f16).value;
    assert p.out == 5 && p.zeroCols == 1 && |p.qweight| == 32 && |p.scales| == 1;
  }

  lemma SameFactor(a: nat, x: nat, y: nat)
    requires a > 0 && a * x == a * y
    ensures x == y
  {
  }

  // ---------------------------------------------------------------- reading back what was written

  lemma WordBack(f: Format, w: seq<seq<real>>, inF: nat, f16: real -> real, o: nat, r: nat, i: nat)
    requires Matrix(w, inF) && Accepts(f, |w|, inF) && o < |w| && r < inF / PerWord(f) && i < PerWord(f)
    ensures var p := Quantize(f, w, inF, f16).value;
            && r < |p.qweight| && -0x8000_0000 <= p.qweight[r][o] < 0x8000_0000
            && DigitAt(ToUnsigned(p.qweight[r][o]), Base(f), i) == Codes(f, w, inF, o, r, f16)[i]
  {
    UnpackPackWord(f, Codes(f, w, inF, o, r, f16), i);
  }

  lemma WordOf(f: Format, inF: nat, k: nat)
    requires inF % GROUP == 0 && k < inF
    ensures k / PerWord(f) < inF / PerWord(f) && k / PerWord(f) * PerWord(f) + k % PerWord(f) == k
  {
    WholeWords(inF);
    Inside(k, inF / PerWord(f), PerWord(f));
  }

  lemma DigitBack(f: Format, w: seq<seq<real>>, inF: nat, f16: real -> real, o: nat, k: nat)
    requires Matrix(w, inF) && Accepts(f, |w|, inF) && o < |w| && k < inF
    ensures var p := Quantize(f, w, inF, f16).value;
            && k / PerWord(f) < |p.qweight| && -0x8000_0000 <= p.qweight[k / PerWord(f)][o] < 0x8000_0000
            && DigitAt(ToUnsigned(p.qweight[k / PerWord(f)][o]), Base(f), k % PerWord(f)) ==
                 CodeAt(f, w, inF, o, k, f16)
  {
    WordOf(f, inF, k);
    DigitOfWord(f, w, inF, f16, o, k / PerWord(f), k % PerWord(f), k);
  }

  lemma DigitOfWord(f: Format, w: seq<seq<real>>, inF: nat, f16: real -> real, o: nat, r: nat, i: nat, k: nat)
    requires Matrix(w, inF) && Accepts(f, |w|, inF) && o < |w| && r < inF / PerWord(f) && i < PerWord(f)
    requires k == r * PerWord(f) + i && k < inF
    ensures var p := Quantize(f, w, inF, f16).value;
            && r < |p.qweight| && -0x8000_0000 <= p.qweight[r][o] < 0x8000_0000
            && DigitAt(ToUnsigned(p.qweight[r][o]), Base(f), i) == CodeAt(f, w, inF, o, k, f16)
  {
    WordBack(f, w, inF, f16, o, r, i);
  }

  /** What one weight becomes: its code's value under the scale of its group. */
  function RestoredAt(f: Format, w: seq<seq<real>>, inF: nat, o: nat, k: nat, f16: real -> real): real
    requires Matrix(w, inF) && o < |w| && k < inF
  {
    Value(CodeAt(f, w, inF, o, k, f16), Half(f), ScaleAt(f, w, inF, o, k / GROUP, f16))
  }

  /** The matrix the reader restores. */
  function RestoredMatrix(f: Format, w: seq<seq<real>>, inF: nat, f16: real -> real): (r: seq<seq<real>>)
    requires Matrix(w, inF)
    ensures Matrix(r, inF) && |r| == |w|
  {
    seq(|w|, o requires 0 <= o < |w| => seq(inF, k requires 0 <= k < inF => RestoredAt(f, w, inF, o, k, f16)))
  }

  /** One weight read back: the value of the code and the scale that were written for it. */
  lemma WeightBack(f: Format, w: seq<seq<real>>, inF: nat, f16: real -> real, o: nat, k: nat)
    requires Matrix(w, inF) && Accepts(f, |w|, inF) && o < |w| && k < inF
    ensures var p, l := Quantize(f, w, inF, f16).value, Layout(PerWord(f), Bits(f), inF, GROUP, Half(f));
            && WellShaped(p) && k / PerWord(f) < |p.qweight| && WeightAt(p, l, o, k) == RestoredAt(f, w, inF, o, k, f16)
  {
    QuantizeShaped(f, w, inF, f16);
    RadixIs();
    DigitBack(f, w, inF, f16, o, k);
  }

  /** And it is within one step of the weight plus the slack of the rounded scale. */
  lemma RestoredError(f: Format, w: seq<seq<real>>, inF: nat, f16: real -> real, o: nat, k: nat)
    requires Matrix(w, inF) && o < |w| && k < inF
    ensures var s, x := ScaleAt(f, w, inF, o, k / GROUP, f16), RawScale(f, Group(w, o, k / GROUP));
            OffByStep(w[o][k], RestoredAt(f, w, inF, o, k, f16), s, x, Half(f))
  {
    assert Group(w, o, k / GROUP)[k % GROUP] == w[o][k];
    GroupError(f, Group(w, o, k / GROUP), f16, k % GROUP);
  }

  /** In numbers: where no weight of the group exceeds `largest` in magnitude, an unrounded scale gives back every
      weight within an eighth, or a 128th, of it. */
  lemma ExactScaleError(f: Format, w: seq<seq<real>>, inF: nat, o: nat, k: nat, largest: real)
    requires Matrix(w, inF) && o < |w| && k < inF
    requires forall j: nat | j < inF && j / 128 == k / 128 :: -largest <= w[o][j] <= largest
    ensures var error := w[o][k] - RestoredAt(f, w, inF, o, k, x => x); var bound := if f.Int4? then 8.0 else 128.0;
            -largest / bound <= error <= largest / bound
  {
    var s := ScaleAt(f, w, inF, o, k / GROUP, x => x);
    RestoredError(f, w, inF, x => x, o, k);
    ExactScaleAtMost(f, w, inF, o, k / GROUP, largest);
    StepOnly(w[o][k], RestoredAt(f, w, inF, o, k, x => x), s, Half(f));
  }

  /** Without rounding there is no slack. */
  lemma StepOnly(w: real, v: real, s: real, half: nat)
    requires OffByStep(w, v, s, s, half)
    ensures Abs(w - v) <= Abs(s)
  {
    assert Product(half as real, 0.0) == 0.0;
  }

  lemma ExactScaleAtMost(f: Format, w: seq<seq<real>>, inF: nat, o: nat, g: nat, largest: real)
    requires Matrix(w, inF) && o < |w| && g < inF / GROUP
    requires forall j: nat | j < inF && j / 128 == g :: -largest <= w[o][j] <= largest
    ensures Abs(ScaleAt(f, w, inF, o, g, x => x)) <= largest / if f.Int4? then 8.0 else 128.0
  {
    var group := Group(w, o, g);
    PickIs(f, group);
    var j :| 0 <= j < GROUP && group[j] == Pick(f, group);
    InGroup(g, j);
    assert w[o][g * GROUP + j] == Pick(f, group);
    assert -largest <= Pick(f, group) <= largest;
    assert Half(f) == if f.Int4? then 8 else 128;
  }

  lemma InGroup(g: nat, j: nat)
    requires j < GROUP
    ensures (g * GROUP + j) / GROUP == g
  {
  }

  /** Reading any rows of a quantised matrix gives, for every weight, the converted value of exactly the code and
      scale that were written for it: the matrix restored, each weight within the bound above before the conversion. */
  lemma RowsOfQuantized(f: Format, w: seq<seq<real>>, inF: nat, f16: real -> real, sel: seq<nat>, bf16: real -> real)
    requires Matrix(w, inF) && inF > 0 && Accepts(f, |w|, inF) && ShapeTells(f, |w|)
    requires forall i | 0 <= i < |sel| :: sel[i] < |w|
    ensures WellShaped(Quantize(f, w, inF, f16).value)
    ensures Rows(Quantize(f, w, inF, f16).value, sel, bf16) ==
            Some(seq(|sel|, j requires 0 <= j < |sel| => Rounded(RestoredMatrix(f, w, inF, f16)[sel[j]], bf16)))
  {
    var p := Quantize(f, w, inF, f16).value;
    QuantizeShaped(f, w, inF, f16);
    LayoutFound(f, w, inF, f16);
    var r := Rows(p, sel, bf16).value;
    forall j | 0 <= j < |sel| ensures r[j] == Rounded(RestoredMatrix(f, w, inF, f16)[sel[j]], bf16) {
      forall k | 0 <= k < inF ensures r[j][k] == bf16(RestoredAt(f, w, inF, sel[j], k, f16)) {
        WeightBack(f, w, inF, f16, sel[j], k);
      }
    }
    assert r == seq(|sel|, j requires 0 <= j < |sel| => Rounded(RestoredMatrix(f, w, inF, f16)[sel[j]], bf16));
  }

  // ---------------------------------------------------------------- quantising what was read

  lemma RestoredGroup(f: Format, w: seq<seq<real>>, inF: nat, f16: real -> real, o: nat, g: nat)
    requires Matrix(w, inF) && o < |w| && g < inF / GROUP
    ensures Group(RestoredMatrix(f, w, inF, f16), o, g) == Restored(f, Group(w, o, g), ScaleAt(f, w, inF, o, g, f16))
  {
    var a, b := Group(RestoredMatrix(f, w, inF, f16), o, g), Restored(f, Group(w, o, g), ScaleAt(f, w, inF, o, g, f16));
    forall i | 0 <= i < GROUP ensures a[i] == b[i] {
      assert (g * GROUP + i) / GROUP == g;
      assert a[i] == RestoredAt(f, w, inF, o, g * GROUP + i, f16);
      assert Group(w, o, g)[i] == w[o][g * GROUP + i];
    }
  }

  ghost predicate ScalesHold(f: Format, w: seq<seq<real>>, inF: nat, f16: real -> real)
    requires Matrix(w, inF)
  {
    f16(0.0) == 0.0 && forall o, g | 0 <= o < |w| && 0 <= g < inF / GROUP :: ScaleHolds(f, Group(w, o, g), f16)
  }

  lemma SameScale(f: Format, w: seq<seq<real>>, inF: nat, f16: real -> real, o: nat, g: nat)
    requires Matrix(w, inF) && o < |w| && g < inF / GROUP && ScalesHold(f, w, inF, f16)
    ensures ScaleAt(f, RestoredMatrix(f, w, inF, f16), inF, o, g, f16) == ScaleAt(f, w, inF, o, g, f16)
  {
    RestoredGroup(f, w, inF, f16, o, g);
    RequantiseSame(f, Group(w, o, g), f16);
  }

  lemma SameCode(f: Format, w: seq<seq<real>>, inF: nat, f16: real -> real, o: nat, k: nat)
    requires Matrix(w, inF) && o < |w| && k < inF && ScalesHold(f, w, inF, f16)
    ensures CodeAt(f, RestoredMatrix(f, w, inF, f16), inF, o, k, f16) == CodeAt(f, w, inF, o, k, f16)
  {
    var g, i := k / GROUP, k % GROUP;
    SameScale(f, w, inF, f16, o, g);
    RequantiseSame(f, Group(w, o, g), f16);
    assert Group(w, o, g)[i] == w[o][k];
  }

  lemma SameWord(f: Format, w: seq<seq<real>>, inF: nat, f16: real -> real, o: nat, r: nat)
    requires Matrix(w, inF) && o < |w| && r < inF / PerWord(f) && ScalesHold(f, w, inF, f16)
    ensures Codes(f, RestoredMatrix(f, w, inF, f16), inF, o, r, f16) == Codes(f, w, inF, o, r, f16)
  {
    forall i | 0 <= i < PerWord(f)
      ensures Codes(f, RestoredMatrix(f, w, inF, f16), inF, o, r, f16)[i] == Codes(f, w, inF, o, r, f16)[i]
    {
      assert r * PerWord(f) + i < inF;
      SameCode(f, w, inF, f16, o, r * PerWord(f) + i);
    }
  }

  /** Quantising the restored matrix writes the same words, zeros and scales again, when every rounded scale is a
      fixpoint of the rounding and within half a lowest-slot code of the exact one; exact scales always are. */
  lemma RequantiseIsFixpoint(f: Format, w: seq<seq<real>>, inF: nat, f16: real -> real)
    requires Matrix(w, inF) && Accepts(f, |w|, inF) && ScalesHold(f, w, inF, f16)
    ensures Quantize(f, RestoredMatrix(f, w, inF, f16), inF, f16) == Quantize(f, w, inF, f16)
  {
    var m := RestoredMatrix(f, w, inF, f16);
    var p, q := Quantize(f, w, inF, f16).value, Quantize(f, m, inF, f16).value;
    forall r | 0 <= r < inF / PerWord(f) ensures q.qweight[r] == p.qweight[r] {
      forall o | 0 <= o < |w| ensures q.qweight[r][o] == p.qweight[r][o] {
        SameWord(f, w, inF, f16, o, r);
      }
    }
    forall g | 0 <= g < inF / GROUP ensures q.scales[g] == p.scales[g] {
      forall o | 0 <= o < |w| ensures q.scales[g][o] == p.scales[g][o] {
        SameScale(f, w, inF, f16, o, g);
      }
    }
    assert q.qweight == p.qweight && q.scales == p.scales;
  }

  /** Unrounded scales meet the hypothesis. */
  lemma ExactScalesHold(f: Format, w: seq<seq<real>>, inF: nat)
    requires Matrix(w, inF)
    ensures ScalesHold(f, w, inF, x => x)
  {
  }
}
