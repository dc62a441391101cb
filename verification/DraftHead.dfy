/** The drafter's private head: which vocabulary rows it keeps, how it is built in chunks and how its scores are spread
    over the full vocabulary. */
module DraftHead {

  datatype Option<T> = None | Some(value: T)

  type Row = seq<real>

  const CHUNK: nat := 16384

  // ---------------------------------------------------------------- which rows

  /** The ids of the file that name a word of the vocabulary, in file order. */
  function Kept(ids: seq<int>, vocab: nat): (r: seq<nat>)
    ensures forall v :: v in r <==> v in ids && 0 <= v < vocab
  {
    if ids == [] then []
    else
      assert ids == [ids[0]] + ids[1..];
      (if 0 <= ids[0] < vocab then [ids[0] as nat] else []) + Kept(ids[1..], vocab)
  }

  function Repeat(v: nat, n: nat): (r: seq<nat>)
    ensures |r| == n && forall i | 0 <= i < n :: r[i] == v
  {
    seq<nat>(n, i => v)
  }

  /** Filled up to a multiple of 64 with copies of the last id. */
  function Padded(ids: seq<nat>): (r: seq<nat>)
    ensures |r| % 64 == 0 && |ids| <= |r| < |ids| + 64 && r[..|ids|] == ids
    ensures forall v :: v in r <==> v in ids
  {
    if |ids| % 64 == 0 then ids
    else
      var last := ids[|ids| - 1];
      var pad := Repeat(last, 64 - |ids| % 64);
      assert last in ids;
      ids + pad
  }

  // ---------------------------------------------------------------- spreading the scores

  /** Column `v` of a row of scores: the score of the head row that carries `v`, else minus infinity (none). */
  ghost predicate Spread(full: seq<Option<real>>, ids: seq<nat>, red: seq<real>, vocab: nat)
    requires |red| == |ids|
  {
    && |full| == vocab
    && (forall j | 0 <= j < |ids| :: ids[j] < vocab && full[ids[j]] == Some(red[j]))
    && (forall v | 0 <= v < vocab && v !in ids :: full[v] == None)
  }

  /** Head rows with the same id carry the same score. */
  ghost predicate Consistent(ids: seq<nat>, red: seq<real>)
    requires |red| == |ids|
  {
    forall i, j | 0 <= i < |ids| && 0 <= j < |ids| && ids[i] == ids[j] :: red[i] == red[j]
  }

  /** Column copies made in the given order. */
  function Copies(full: seq<Option<real>>, ids: seq<nat>, red: seq<real>, order: seq<nat>): (r: seq<Option<real>>)
    requires |red| == |ids| && (forall j | 0 <= j < |ids| :: ids[j] < |full|)
    requires forall i | 0 <= i < |order| :: order[i] < |ids|
    ensures |r| == |full|
  {
    if order == [] then full
    else Copies(full, ids, red, order[..|order| - 1])[ids[order[|order| - 1]] := Some(red[order[|order| - 1]])]
  }

  lemma {:induction false} CopiesAre(full: seq<Option<real>>, ids: seq<nat>, red: seq<real>, order: seq<nat>)
    requires |red| == |ids| && (forall j | 0 <= j < |ids| :: ids[j] < |full|)
    requires forall i | 0 <= i < |order| :: order[i] < |ids|
    requires Consistent(ids, red)
    ensures var r := Copies(full, ids, red, order);
            && (forall i | 0 <= i < |order| :: r[ids[order[i]]] == Some(red[order[i]]))
            && (forall v | 0 <= v < |full| && v !in ids :: r[v] == full[v])
  {
    if order != [] {
      CopiesAre(full, ids, red, order[..|order| - 1]);
    }
  }

  /** However the column copies are ordered, and although padding repeats an id, the result is the same. */
  lemma AnyOrderSpreads(full: seq<Option<real>>, ids: seq<nat>, red: seq<real>, order: seq<nat>)
    requires |red| == |ids| && (forall j | 0 <= j < |ids| :: ids[j] < |full|) && Consistent(ids, red)
    requires (forall v | 0 <= v < |full| :: full[v] == None)
    requires (forall i | 0 <= i < |order| :: order[i] < |ids|) && forall j: nat | j < |ids| :: j in order
    ensures Spread(Copies(full, ids, red, order), ids, red, |full|)
  {
    CopiesAre(full, ids, red, order);
    var r := Copies(full, ids, red, order);
    forall j: nat | j < |ids| ensures r[ids[j]] == Some(red[j]) {
      assert j in order;
    }
  }

  /** The copies in index order, into a buffer of minus infinities. */
  method SpreadScores(ids: seq<nat>, red: seq<real>, vocab: nat) returns (full: seq<Option<real>>)
    requires |red| == |ids| && (forall j | 0 <= j < |ids| :: ids[j] < vocab) && Consistent(ids, red)
    ensures Spread(full, ids, red, vocab)
  {
    full := seq(vocab, v => None);
    for j := 0 to |ids|
      invariant |full| == vocab
      invariant forall i | 0 <= i < j :: full[ids[i]] == Some(red[i])
      invariant forall v | 0 <= v < vocab && v !in ids :: full[v] == None
    {
      full := full[ids[j] := Some(red[j])];
    }
  }

  // ---------------------------------------------------------------- the head

  datatype Head = Head(ids: Option<seq<nat>>, rows: seq<Row>)

  /** `weight(v)` is row `v` of the shared head, `encode` what the private copy stores of a row (its int4 rounding, or
      the row itself), `score` the product with a hidden state. */
  class Drafter {
    const vocab: nat
    const outF: nat
    const file: Option<seq<int>>
    const int4: bool
    const weight: nat -> Row
    const encode: Row -> Row
    const score: (Row, Row) -> real
    var head: Option<Head>

    constructor (vocab: nat, outF: nat, file: Option<seq<int>>, int4: bool, weight: nat -> Row, encode: Row -> Row,
                 score: (Row, Row) -> real)
      ensures head == None && Valid()
      ensures this.vocab == vocab && this.outF == outF && this.file == file && this.int4 == int4
      ensures this.weight == weight && this.encode == encode && this.score == score
    {
      this.vocab, this.outF, this.file, this.int4 := vocab, outF, file, int4;
      this.weight, this.encode, this.score, head := weight, encode, score, None;
    }

    /** The words the head scores. */
    ghost predicate Scored(v: nat) {
      if file.Some? then v in file.value && v < vocab else v < outF && v < vocab
    }

    /** Building fails when no row is left or one lies beyond the shared head. */
    ghost predicate Buildable() {
      if file.Some? then (exists v: nat :: Scored(v)) && forall v: nat :: Scored(v) ==> v < outF else outF > 0
    }

    ghost predicate Holds(h: Head) {
      && (h.ids.Some? <==> file.Some?)
      && (h.ids.Some? ==> && |h.ids.value| == |h.rows| && (int4 ==> |h.rows| % 64 == 0)
                          && (forall v :: v in h.ids.value <==> Scored(v))
                          && forall j | 0 <= j < |h.rows| :: h.rows[j] == encode(weight(h.ids.value[j])))
      && (h.ids.None? ==> |h.rows| == outF && forall j: nat | j < |h.rows| :: h.rows[j] == encode(weight(j)))
    }

    /** A head, once built, is the one this model asks for. */
    ghost predicate Valid()
      reads this
    {
      head.Some? ==> Buildable() && Holds(head.value)
    }

    /** Copies the selected rows, a chunk at a time. */
    method CopyRows(sel: seq<nat>) returns (rows: seq<Row>)
      ensures |rows| == |sel| && forall j | 0 <= j < |sel| :: rows[j] == encode(weight(sel[j]))
    {
      rows := [];
      var i := 0;
      while i < |sel|
        invariant 0 <= i && |rows| == if i <= |sel| then i else |sel|
        invariant forall j | 0 <= j < |rows| :: rows[j] == encode(weight(sel[j]))
        decreases |sel| - i
      {
        var chunk := sel[i..if i + CHUNK <= |sel| then i + CHUNK else |sel|];
        rows := rows + seq(|chunk|, j requires 0 <= j < |chunk| => encode(weight(chunk[j])));
        i := i + CHUNK;
      }
    }

    method Build() returns (h: Option<Head>)
      ensures h.Some? <==> Buildable()
      ensures h.Some? ==> Holds(h.value)
    {
      var ids, sel := None, seq<nat>(outF, i => i);
      if file.Some? {
        var kept := Kept(file.value, vocab);
        if int4 { kept := Padded(kept); }
        ids, sel := Some(kept), kept;
      }
      if sel == [] {
        assert file.Some? ==> forall v: nat :: Scored(v) ==> v in sel;
        return None;
      }
      assert file.Some? ==> Scored(sel[0]) by { assert sel[0] in sel; }
      if j :| 0 <= j < |sel| && sel[j] >= outF {
        assert file.Some? && sel[j] in sel;
        assert Scored(sel[j]);
        return None;
      }
      var rows := CopyRows(sel);
      return Some(Head(ids, rows));
    }

    /** The scores of one hidden state over the vocabulary. */
    method Logits(h: Head, hidden: Row) returns (full: seq<Option<real>>)
      requires Buildable() && Holds(h)
      ensures IsLogits(hidden, full)
    {
      var red := seq(|h.rows|, j requires 0 <= j < |h.rows| => score(hidden, h.rows[j]));
      if h.ids.None? {
        full := seq(|red|, j requires 0 <= j < |red| => Some(red[j]));
        if |full| > vocab { full := full[..vocab]; }
        return;
      }
      var ids := h.ids.value;
      forall j | 0 <= j < |ids| ensures ids[j] < vocab { assert ids[j] in ids && Scored(ids[j]); }
      full := SpreadScores(ids, red, vocab);
      forall v: nat | v < vocab ensures full[v] == if Scored(v) then Some(score(hidden, encode(weight(v)))) else None {
        if Scored(v) {
          assert v in ids;
          var j :| 0 <= j < |ids| && ids[j] == v;
          assert full[ids[j]] == Some(red[j]);
        }
      }
    }

    /** Every scored word has its own score, every other word minus infinity. */
    ghost predicate IsLogits(hidden: Row, full: seq<Option<real>>) {
      && |full| == (if file.Some? || outF > vocab then vocab else outF)
      && forall v: nat | v < |full| :: full[v] == if Scored(v) then Some(score(hidden, encode(weight(v)))) else None
    }

    /** Builds the head at the first call, and uses the same head ever after. */
    method ComputeLogits(hidden: seq<Row>) returns (r: Option<seq<seq<Option<real>>>>)
      requires Valid()
      modifies this
      ensures Valid() && (old(head).Some? ==> head == old(head))
      ensures r.Some? <==> Buildable()
      ensures r.Some? ==> |r.value| == |hidden| && forall i | 0 <= i < |hidden| :: IsLogits(hidden[i], r.value[i])
    {
      if head.None? {
        var built := Build();
        if built.None? { return None; }
        head := built;
      }
      var h := head.value;
      var out := [];
      for i := 0 to |hidden|
        invariant |out| == i && head == Some(h) && (old(head).Some? ==> head == old(head)) && Valid()
        invariant forall j | 0 <= j < i :: IsLogits(hidden[j], out[j])
      {
        var full := Logits(h, hidden[i]);
        out := out + [full];
      }
      return Some(out);
    }
  }
}
