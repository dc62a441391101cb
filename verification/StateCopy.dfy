/** The shared device function that copies one (layer, state) block between block-table columns,
    with the guard that skips a copy whose block id lies outside the state's pool. */
module StateCopy {
  import opened LaneMachine
  import opened TiledCopy
  import opened ConvShift

  /** Layout of one state tensor. `convWidth` is 0 for temporal states. */
  datatype StateMeta = StateMeta(base: int, stride: nat, elem: nat, inner: nat, convWidth: nat,
                                 rows: nat, rowStride: nat, numBlocks: nat)

  function TokenBytes(meta: StateMeta): nat { meta.inner * meta.elem }

  /** The bytes that a block itself holds. The stride from block to block is that of a page, which may hold the
      blocks of other states as well. */
  function Payload(meta: StateMeta, dimFirst: bool): nat {
    if meta.convWidth == 0 then TokenBytes(meta)
    else if dimFirst then meta.rows * meta.rowStride
    else meta.convWidth * TokenBytes(meta)
  }

  /** What the tensor shapes guarantee: a block's payload fits in its stride. */
  predicate MetaOk(meta: StateMeta, dimFirst: bool) {
    && meta.elem > 0 && Payload(meta, dimFirst) <= meta.stride
    && (meta.convWidth > 0 && dimFirst ==> meta.convWidth * meta.elem <= meta.rowStride)
  }

  predicate InPool(meta: StateMeta, id: int) { 0 <= id < meta.numBlocks }

  function BlockAddr(meta: StateMeta, id: int): int { meta.base + id * meta.stride }

  /** The columns of the block-table row that the copy looks at are readable; their contents are arbitrary. */
  predicate Readable(table: seq<int>, srcCol: int, dstCol: int, bias: nat) {
    0 <= srcCol && srcCol + bias < |table| && 0 <= dstCol < |table|
  }

  // ---------------------------------------------------------------- the guard, tile by tile

  /** A tile counts a guard hit and stops, has nothing to do, or runs its lanes of the copy. */
  datatype Outcome = GuardHit | Idle | Runs

  /** Convolution states look at the source column itself, temporal states at the accepted speculative column. */
  function SourceCol(meta: StateMeta, srcCol: int, bias: nat): int {
    if meta.convWidth > 0 then srcCol else srcCol + bias
  }

  function TileOutcome(meta: StateMeta, table: seq<int>, srcCol: int, dstCol: int, bias: nat, tile: nat): Outcome
    requires Readable(table, srcCol, dstCol, bias)
  {
    if !InPool(meta, table[dstCol]) then GuardHit
    else if meta.convWidth > 0 then
      if tile > 0 then Idle
      else if !InPool(meta, table[srcCol]) then GuardHit else Runs
    else if !InPool(meta, table[srcCol + bias]) then GuardHit else Runs
  }

  function Hits(meta: StateMeta, table: seq<int>, srcCol: int, dstCol: int, bias: nat, tiles: nat): (hits: nat)
    requires Readable(table, srcCol, dstCol, bias)
  {
    if tiles == 0 then 0
    else Hits(meta, table, srcCol, dstCol, bias, tiles - 1)
         + if TileOutcome(meta, table, srcCol, dstCol, bias, tiles - 1) == GuardHit then 1 else 0
  }

  predicate BothInPool(meta: StateMeta, table: seq<int>, srcCol: int, dstCol: int, bias: nat)
    requires Readable(table, srcCol, dstCol, bias)
  {
    InPool(meta, table[dstCol]) && InPool(meta, table[SourceCol(meta, srcCol, bias)])
  }

  /** A copy happens completely or not at all, whatever the block ids are: either every tile that has lanes
      of the copy runs them and no tile counts, or no tile runs and at least one counts. */
  lemma AllTilesOrNone(meta: StateMeta, table: seq<int>, srcCol: int, dstCol: int, bias: nat, tiles: nat)
    requires Readable(table, srcCol, dstCol, bias) && tiles > 0
    ensures var ok := BothInPool(meta, table, srcCol, dstCol, bias);
            && (ok <==> Hits(meta, table, srcCol, dstCol, bias, tiles) == 0)
            && forall t: nat | t < tiles ::
                 TileOutcome(meta, table, srcCol, dstCol, bias, t) == Runs <==> ok && (meta.convWidth > 0 ==> t == 0)
  {
    HitCount(meta, table, srcCol, dstCol, bias, tiles);
  }

  lemma {:induction false} HitCount(meta: StateMeta, table: seq<int>, srcCol: int, dstCol: int, bias: nat, tiles: nat)
    requires Readable(table, srcCol, dstCol, bias) && tiles > 0
    ensures Hits(meta, table, srcCol, dstCol, bias, tiles) ==
            if BothInPool(meta, table, srcCol, dstCol, bias) then 0
            else if InPool(meta, table[dstCol]) && meta.convWidth > 0 then 1 else tiles
  {
    if tiles > 1 {
      HitCount(meta, table, srcCol, dstCol, bias, tiles - 1);
    } else {
      assert Hits(meta, table, srcCol, dstCol, bias, 0) == 0;
    }
  }

  // ---------------------------------------------------------------- the lanes of a copy

  /** All lanes of all tiles that copy block `srcId` to block `dstId`. */
  function CopyProgram(meta: StateMeta, dimFirst: bool, srcId: int, dstId: int, bias: nat): Program<Lane> {
    var src, dst := BlockAddr(meta, srcId), BlockAddr(meta, dstId);
    if meta.convWidth == 0 then
      TiledProgram(src, dst, TokenBytes(meta))
    else if dimFirst then
      RowsProgram(RowsOf(meta, srcId, dstId, bias))
    else if srcId != dstId || bias == 0 then
      TiledProgram(src + bias * TokenBytes(meta), dst, SlideSize(meta, bias))
    else
      SlideProgram(dst, TokenBytes(meta), meta.convWidth, bias)
  }

  function RowsOf(meta: StateMeta, srcId: int, dstId: int, bias: nat): Rows {
    Rows(BlockAddr(meta, srcId), BlockAddr(meta, dstId), meta.rows, meta.rowStride, meta.elem, meta.convWidth, bias)
  }

  function SlideSize(meta: StateMeta, bias: nat): nat {
    if bias <= meta.convWidth then (meta.convWidth - bias) * TokenBytes(meta) else 0
  }

  /** The contiguous stretches the copy moves. */
  function CopyRegions(meta: StateMeta, dimFirst: bool, srcId: int, dstId: int, bias: nat): set<Region> {
    var src, dst := BlockAddr(meta, srcId), BlockAddr(meta, dstId);
    if meta.convWidth == 0 then {Region(src, dst, TokenBytes(meta))}
    else if dimFirst then RowRegions(RowsOf(meta, srcId, dstId, bias))
    else {Region(src + bias * TokenBytes(meta), dst, SlideSize(meta, bias))}
  }

  ghost predicate CopyOk(meta: StateMeta, dimFirst: bool, srcId: int, dstId: int, bias: nat) {
    MetaOk(meta, dimFirst) && InPool(meta, srcId) && InPool(meta, dstId) &&
      (meta.convWidth > 0 ==> bias <= meta.convWidth)
  }

  lemma BlocksApart(meta: StateMeta, a: int, b: int)
    requires a != b
    ensures Apart(BlockAddr(meta, a), meta.stride, BlockAddr(meta, b), meta.stride)
  {
    if a < b { Scale(a, b, meta.stride); } else { Scale(b, a, meta.stride); }
  }

  lemma SlideFits(meta: StateMeta, bias: nat)
    requires MetaOk(meta, false) && 0 < meta.convWidth && bias <= meta.convWidth
    ensures bias * TokenBytes(meta) + SlideSize(meta, bias) == Payload(meta, false) <= meta.stride
  {
    assert bias * TokenBytes(meta) + (meta.convWidth - bias) * TokenBytes(meta) == meta.convWidth * TokenBytes(meta);
  }

  lemma RowsFine(meta: StateMeta, srcId: int, dstId: int, bias: nat)
    requires CopyOk(meta, true, srcId, dstId, bias) && meta.convWidth > 0
    ensures RowsOk(RowsOf(meta, srcId, dstId, bias))
  {
    if srcId != dstId { BlocksApart(meta, srcId, dstId); }
  }

  /** The kept tokens of the source window and the place they go to do not meet, unless they are one and the same. */
  lemma AcrossApart(meta: StateMeta, srcId: int, dstId: int, bias: nat)
    requires CopyOk(meta, false, srcId, dstId, bias) && meta.convWidth > 0 && (srcId != dstId || bias == 0)
    ensures var src := BlockAddr(meta, srcId) + bias * TokenBytes(meta);
            var dst, size := BlockAddr(meta, dstId), SlideSize(meta, bias);
            Apart(src, size, dst, size) || src == dst
  {
    SlideFits(meta, bias);
    Scale(0, bias, TokenBytes(meta));
    if srcId != dstId { BlocksApart(meta, srcId, dstId); }
    ShiftApart(BlockAddr(meta, srcId), BlockAddr(meta, dstId), bias * TokenBytes(meta), SlideSize(meta, bias),
               meta.stride);
  }

  lemma ShiftApart(src: int, dst: int, shift: int, size: int, stride: int)
    requires 0 <= shift && 0 <= size && shift + size <= stride
    requires Apart(src, stride, dst, stride) || (src == dst && shift == 0)
    ensures Apart(src + shift, size, dst, size) || src + shift == dst
  {
  }

  lemma TiledSafe(p: Program<Lane>, src: int, dst: int, size: nat)
    requires p == TiledProgram(src, dst, size) && (Apart(src, size, dst, size) || src == dst)
    ensures NonInterfering(p)
  {
    TiledNonInterfering(src, dst, size);
  }

  lemma RowsSafe(p: Program<Lane>, r: Rows)
    requires p == RowsProgram(r) && RowsOk(r)
    ensures NonInterfering(p)
  {
    RowsNonInterfering(r);
  }

  lemma SlideSafe(p: Program<Lane>, block: int, tokenBytes: nat, width: nat, bias: nat)
    requires p == SlideProgram(block, tokenBytes, width, bias) && 0 < bias <= width
    ensures NonInterfering(p)
  {
    SlideNonInterfering(block, tokenBytes, width, bias);
  }

  lemma CopyNonInterfering(meta: StateMeta, dimFirst: bool, srcId: int, dstId: int, bias: nat)
    requires CopyOk(meta, dimFirst, srcId, dstId, bias)
    ensures NonInterfering(CopyProgram(meta, dimFirst, srcId, dstId, bias))
  {
    var p, src, dst := CopyProgram(meta, dimFirst, srcId, dstId, bias), BlockAddr(meta, srcId), BlockAddr(meta, dstId);
    if meta.convWidth == 0 {
      if srcId != dstId { BlocksApart(meta, srcId, dstId); }
      TiledSafe(p, src, dst, TokenBytes(meta));
    } else if dimFirst {
      RowsFine(meta, srcId, dstId, bias);
      RowsSafe(p, RowsOf(meta, srcId, dstId, bias));
    } else if srcId == dstId && bias > 0 {
      SlideSafe(p, dst, TokenBytes(meta), meta.convWidth, bias);
    } else {
      AcrossApart(meta, srcId, dstId, bias);
      TiledSafe(p, src + bias * TokenBytes(meta), dst, SlideSize(meta, bias));
    }
  }

  lemma CopyImplements(meta: StateMeta, dimFirst: bool, srcId: int, dstId: int, bias: nat)
    requires CopyOk(meta, dimFirst, srcId, dstId, bias)
    ensures Implements(CopyProgram(meta, dimFirst, srcId, dstId, bias), CopyRegions(meta, dimFirst, srcId, dstId, bias))
  {
    var src, dst := BlockAddr(meta, srcId), BlockAddr(meta, dstId);
    if meta.convWidth == 0 {
      TiledImplements(src, dst, TokenBytes(meta));
    } else if dimFirst {
      RowsFine(meta, srcId, dstId, bias);
      RowsImplements(RowsOf(meta, srcId, dstId, bias));
    } else if srcId != dstId || bias == 0 {
      TiledImplements(src + bias * TokenBytes(meta), dst, SlideSize(meta, bias));
    } else {
      SlideImplements(dst, TokenBytes(meta), meta.convWidth, bias);
    }
  }

  /** Every stretch of a copy starts and ends inside the payloads of its source and destination block. */
  lemma RegionsInPayloads(meta: StateMeta, dimFirst: bool, srcId: int, dstId: int, bias: nat, r: Region)
    requires CopyOk(meta, dimFirst, srcId, dstId, bias) && r in CopyRegions(meta, dimFirst, srcId, dstId, bias)
    ensures InPayload(meta, dimFirst, srcId, r.src, r.size) && InPayload(meta, dimFirst, dstId, r.dst, r.size)
  {
    if meta.convWidth > 0 {
      if dimFirst {
        var rows := RowsOf(meta, srcId, dstId, bias);
        var row: nat :| row < rows.count && r == RowRegion(rows, row);
        assert bias * meta.elem + (meta.convWidth - bias) * meta.elem == meta.convWidth * meta.elem;
        Scale(0, bias, meta.elem);
        Scale(0, row, meta.rowStride);
        Scale(row, meta.rows, meta.rowStride);
      } else {
        SlideFits(meta, bias);
        Scale(0, bias, TokenBytes(meta));
      }
    }
  }

  /** The `size` bytes from `x` belong to block `id`. */
  predicate InPayload(meta: StateMeta, dimFirst: bool, id: int, x: int, size: int) {
    BlockAddr(meta, id) <= x && x + size <= BlockAddr(meta, id) + Payload(meta, dimFirst)
  }

  /** An access loads from the payload of the source block and stores to that of the destination block. */
  lemma AccessInPayloads(meta: StateMeta, dimFirst: bool, srcId: int, dstId: int, bias: nat, l: Lane, n: nat)
    requires CopyOk(meta, dimFirst, srcId, dstId, bias)
    requires Issued(CopyProgram(meta, dimFirst, srcId, dstId, bias), l, n)
    ensures var a := CopyProgram(meta, dimFirst, srcId, dstId, bias).op(l, n);
            a.width > 0 ==> InPayload(meta, dimFirst, srcId, a.src, a.width)
                            && InPayload(meta, dimFirst, dstId, a.dst, a.width)
  {
    var p := CopyProgram(meta, dimFirst, srcId, dstId, bias);
    if p.op(l, n).width > 0 {
      CopyImplements(meta, dimFirst, srcId, dstId, bias);
      assert InSomeRegion(p, CopyRegions(meta, dimFirst, srcId, dstId, bias), l, n);
      var r :| r in CopyRegions(meta, dimFirst, srcId, dstId, bias) && PartOf(p, l, n, r);
      RegionsInPayloads(meta, dimFirst, srcId, dstId, bias, r);
    }
  }

  /** The bytes of one payload, from the shape numbers alone. */
  lemma PayloadIs(meta: StateMeta, dimFirst: bool)
    ensures Payload(meta, dimFirst) ==
            if meta.convWidth == 0 then meta.inner * meta.elem
            else if dimFirst then meta.rows * meta.rowStride
            else meta.convWidth * (meta.inner * meta.elem)
  {
  }

  /** The guard, in numbers: a tile counts a hit if and only if the destination id is no block of the pool, or the
      tile has lanes of the copy and the source id is none; it runs if and only if both ids are blocks of the pool and
      it has lanes. */
  lemma GuardExactly(meta: StateMeta, table: seq<int>, srcCol: int, dstCol: int, bias: nat, tile: nat)
    requires Readable(table, srcCol, dstCol, bias)
    ensures var src, dst := table[if meta.convWidth > 0 then srcCol else srcCol + bias], table[dstCol];
            var outcome := TileOutcome(meta, table, srcCol, dstCol, bias, tile);
            && (outcome == GuardHit <==>
                  dst < 0 || dst >= meta.numBlocks
                  || ((meta.convWidth == 0 || tile == 0) && (src < 0 || src >= meta.numBlocks)))
            && (outcome == Runs <==>
                  && 0 <= dst < meta.numBlocks && (meta.convWidth == 0 || tile == 0) && 0 <= src < meta.numBlocks)
  {
  }

  /** Confinement: for arbitrary block-table contents, whenever a tile passes the guard both ids are below the number
      of blocks, and every byte that any lane of the copy loads or stores lies in the payloads of these blocks: not in
      the rest of a page, which may hold other states, and not behind the last payload of the pool. */
  lemma GuardConfines(meta: StateMeta, dimFirst: bool, table: seq<int>, srcCol: int, dstCol: int, bias: nat,
                      tile: nat, l: Lane, n: nat)
    requires MetaOk(meta, dimFirst) && (meta.convWidth > 0 ==> bias <= meta.convWidth)
    requires Readable(table, srcCol, dstCol, bias)
    requires TileOutcome(meta, table, srcCol, dstCol, bias, tile) == Runs
    requires var srcId, dstId := table[SourceCol(meta, srcCol, bias)], table[dstCol];
             Issued(CopyProgram(meta, dimFirst, srcId, dstId, bias), l, n)
    ensures var srcId, dstId := table[SourceCol(meta, srcCol, bias)], table[dstCol];
            var a := CopyProgram(meta, dimFirst, srcId, dstId, bias).op(l, n);
            && 0 <= srcId < meta.numBlocks && 0 <= dstId < meta.numBlocks
            && (a.width > 0 ==> && InPayload(meta, dimFirst, srcId, a.src, a.width)
                                && InPayload(meta, dimFirst, dstId, a.dst, a.width)
                                && InSpan(meta, dimFirst, a.src, a.width) && InSpan(meta, dimFirst, a.dst, a.width))
  {
    var srcId, dstId := table[SourceCol(meta, srcCol, bias)], table[dstCol];
    AccessInPayloads(meta, dimFirst, srcId, dstId, bias, l, n);
    if CopyProgram(meta, dimFirst, srcId, dstId, bias).op(l, n).width > 0 {
      var a := CopyProgram(meta, dimFirst, srcId, dstId, bias).op(l, n);
      PayloadInSpan(meta, dimFirst, srcId, a.src, a.width);
      PayloadInSpan(meta, dimFirst, dstId, a.dst, a.width);
    }
  }

  /** From the first byte of the pool to the last payload byte of its last block. */
  predicate InSpan(meta: StateMeta, dimFirst: bool, x: int, size: int) {
    var payload := if meta.convWidth == 0 then meta.inner * meta.elem
                   else if dimFirst then meta.rows * meta.rowStride
                   else meta.convWidth * (meta.inner * meta.elem);
    meta.base <= x && x + size <= meta.base + (meta.numBlocks - 1) * meta.stride + payload
  }

  lemma PayloadInSpan(meta: StateMeta, dimFirst: bool, id: int, x: int, size: int)
    requires 0 <= id < meta.numBlocks && InPayload(meta, dimFirst, id, x, size)
    ensures InSpan(meta, dimFirst, x, size)
  {
    PayloadIs(meta, dimFirst);
    Scale(0, id, meta.stride);
    Scale(id, meta.numBlocks - 1, meta.stride);
  }

  /** Every complete schedule of the lanes of all tiles moves exactly the regions of the copy. */
  lemma CopyAnySchedule(meta: StateMeta, dimFirst: bool, srcId: int, dstId: int, bias: nat, m0: Memory,
                        schedule: seq<Lane>)
    requires CopyOk(meta, dimFirst, srcId, dstId, bias)
    requires var p := CopyProgram(meta, dimFirst, srcId, dstId, bias); Done(p, Exec(p, Init(p, m0), schedule))
    ensures var p := CopyProgram(meta, dimFirst, srcId, dstId, bias);
            Copied(CopyRegions(meta, dimFirst, srcId, dstId, bias), m0, Exec(p, Init(p, m0), schedule).mem)
  {
    var p := CopyProgram(meta, dimFirst, srcId, dstId, bias);
    CopyNonInterfering(meta, dimFirst, srcId, dstId, bias);
    AnyScheduleMoves(p, m0, schedule);
    CopyImplements(meta, dimFirst, srcId, dstId, bias);
    MovedIsCopied(p, CopyRegions(meta, dimFirst, srcId, dstId, bias), m0, Exec(p, Init(p, m0), schedule).mem);
  }

  // ---------------------------------------------------------------- what a block holds

  /** Offset in its block of byte `j` of the payload (temporal) or of token `t` of the window (convolution).
      In the dim-first layout a token is spread over the dimension rows. */
  function SlotOffset(meta: StateMeta, dimFirst: bool, t: nat, j: nat): int
    requires meta.elem > 0
  {
    if meta.convWidth > 0 && dimFirst then RowCell(meta, j / meta.elem, t, j % meta.elem)
    else t * TokenBytes(meta) + j
  }

  function RowCell(meta: StateMeta, row: nat, t: nat, o: nat): int { row * meta.rowStride + t * meta.elem + o }

  function ByteAddr(meta: StateMeta, dimFirst: bool, id: int, t: nat, j: nat): int
    requires meta.elem > 0
  {
    BlockAddr(meta, id) + SlotOffset(meta, dimFirst, t, j)
  }

  function SlotBytes(meta: StateMeta, dimFirst: bool): nat {
    if meta.convWidth > 0 && dimFirst then meta.rows * meta.elem else TokenBytes(meta)
  }

  /** Contents of one token slot of a window, or of a temporal block (slot 0). */
  function Slot(meta: StateMeta, dimFirst: bool, m: Memory, id: int, t: nat): seq<Byte>
    requires meta.elem > 0
  {
    seq(SlotBytes(meta, dimFirst), (j: nat) => m(ByteAddr(meta, dimFirst, id, t, j)))
  }

  function Slots(meta: StateMeta): nat { if meta.convWidth > 0 then meta.convWidth else 1 }

  function Block(meta: StateMeta, dimFirst: bool, m: Memory, id: int): (b: seq<seq<Byte>>)
    requires meta.elem > 0
  {
    seq(Slots(meta), (t: nat) => Slot(meta, dimFirst, m, id, t))
  }

  /** What the copy means for the contents: a temporal block is replaced, a window is shifted by `bias` tokens
      and keeps its own last `bias` tokens. */
  function Shifted(meta: StateMeta, src: seq<seq<Byte>>, dst: seq<seq<Byte>>, bias: nat): seq<seq<Byte>>
    requires |src| == |dst| == Slots(meta) && (meta.convWidth > 0 ==> bias <= meta.convWidth)
  {
    if meta.convWidth > 0 then src[bias..] + dst[|dst| - bias..] else src
  }

  lemma RowOfByte(meta: StateMeta, j: nat)
    requires meta.elem > 0 && j < meta.rows * meta.elem
    ensures j / meta.elem < meta.rows && j % meta.elem < meta.elem
  {
    assert j == (j / meta.elem) * meta.elem + j % meta.elem;
    if j / meta.elem >= meta.rows { Scale(meta.rows, j / meta.elem, meta.elem); }
  }

  lemma RowCellBounds(meta: StateMeta, row: nat, t: nat, o: nat)
    requires MetaOk(meta, true) && 0 < meta.convWidth && row < meta.rows && t < meta.convWidth && o < meta.elem
    ensures 0 <= t * meta.elem && t * meta.elem + o < meta.convWidth * meta.elem
    ensures 0 <= RowCell(meta, row, t, o) < Payload(meta, true)
  {
    Scale(0, t, meta.elem);
    Scale(t, meta.convWidth, meta.elem);
    Scale(0, row, meta.rowStride);
    Scale(row, meta.rows, meta.rowStride);
  }

  lemma TokenBounds(meta: StateMeta, t: nat, j: nat)
    requires t < Slots(meta) && j < TokenBytes(meta)
    ensures 0 <= t * TokenBytes(meta) + j < Payload(meta, false)
  {
    Scale(0, t, TokenBytes(meta));
    if meta.convWidth > 0 { Scale(t, meta.convWidth, TokenBytes(meta)); }
  }

  /** The bytes of a slot are payload. */
  lemma SlotByteInPayload(meta: StateMeta, dimFirst: bool, t: nat, j: nat)
    requires MetaOk(meta, dimFirst) && t < Slots(meta) && j < SlotBytes(meta, dimFirst)
    ensures 0 <= SlotOffset(meta, dimFirst, t, j) < Payload(meta, dimFirst)
  {
    if meta.convWidth > 0 && dimFirst {
      RowOfByte(meta, j);
      RowCellBounds(meta, j / meta.elem, t, j % meta.elem);
    } else {
      TokenBounds(meta, t, j);
    }
  }

  /** A byte of a rewritten slot lies in a region of the copy, opposite the same byte of the source slot. */
  lemma RewrittenByte(meta: StateMeta, dimFirst: bool, srcId: int, dstId: int, bias: nat, t: nat, j: nat)
    returns (r: Region)
    requires CopyOk(meta, dimFirst, srcId, dstId, bias) && j < SlotBytes(meta, dimFirst)
    requires if meta.convWidth > 0 then t + bias < meta.convWidth else t == 0
    ensures var x := ByteAddr(meta, dimFirst, dstId, t, j);
            r in CopyRegions(meta, dimFirst, srcId, dstId, bias) && Within(x, r.dst, r.size)
            && r.src + (x - r.dst) == ByteAddr(meta, dimFirst, srcId, if meta.convWidth > 0 then t + bias else 0, j)
  {
    if meta.convWidth > 0 && dimFirst {
      RowOfByte(meta, j);
      r := RewrittenCell(meta, srcId, dstId, bias, t, j / meta.elem, j % meta.elem);
    } else if meta.convWidth > 0 {
      r := RewrittenToken(meta, srcId, dstId, bias, t, j);
    } else {
      r := Region(BlockAddr(meta, srcId), BlockAddr(meta, dstId), TokenBytes(meta));
    }
  }

  lemma RewrittenCell(meta: StateMeta, srcId: int, dstId: int, bias: nat, t: nat, row: nat, o: nat) returns (r: Region)
    requires CopyOk(meta, true, srcId, dstId, bias) && t + bias < meta.convWidth && row < meta.rows && o < meta.elem
    ensures r in RowRegions(RowsOf(meta, srcId, dstId, bias))
    ensures var x := BlockAddr(meta, dstId) + RowCell(meta, row, t, o);
            Within(x, r.dst, r.size) && r.src + (x - r.dst) == BlockAddr(meta, srcId) + RowCell(meta, row, t + bias, o)
  {
    r := RowRegion(RowsOf(meta, srcId, dstId, bias), row);
    Scale(0, t, meta.elem);
    Scale(t, meta.convWidth - bias, meta.elem);
    assert (t + bias) * meta.elem == t * meta.elem + bias * meta.elem;
  }

  lemma RewrittenToken(meta: StateMeta, srcId: int, dstId: int, bias: nat, t: nat, j: nat) returns (r: Region)
    requires CopyOk(meta, false, srcId, dstId, bias) && meta.convWidth > 0 && t + bias < meta.convWidth
    requires j < TokenBytes(meta)
    ensures r == Region(BlockAddr(meta, srcId) + bias * TokenBytes(meta), BlockAddr(meta, dstId), SlideSize(meta, bias))
    ensures var x := BlockAddr(meta, dstId) + (t * TokenBytes(meta) + j);
            && Within(x, r.dst, r.size)
            && r.src + (x - r.dst) == BlockAddr(meta, srcId) + ((t + bias) * TokenBytes(meta) + j)
  {
    var size := TokenBytes(meta);
    r := Region(BlockAddr(meta, srcId) + bias * size, BlockAddr(meta, dstId), SlideSize(meta, bias));
    Scale(0, t, size);
    Scale(t, meta.convWidth - bias, size);
    assert (t + bias) * size == t * size + bias * size;
  }

  /** No region of the copy reaches another block or the last `bias` slots of the destination window. */
  lemma KeptByte(meta: StateMeta, dimFirst: bool, srcId: int, dstId: int, bias: nat, id: int, t: nat, j: nat, r: Region)
    requires CopyOk(meta, dimFirst, srcId, dstId, bias) && t < Slots(meta) && j < SlotBytes(meta, dimFirst)
    requires id != dstId || (meta.convWidth > 0 && t + bias >= meta.convWidth)
    requires r in CopyRegions(meta, dimFirst, srcId, dstId, bias)
    ensures !Within(ByteAddr(meta, dimFirst, id, t, j), r.dst, r.size)
  {
    if id != dstId {
      SlotByteInPayload(meta, dimFirst, t, j);
      RegionsInPayloads(meta, dimFirst, srcId, dstId, bias, r);
      BlocksApart(meta, id, dstId);
    } else if dimFirst {
      RowOfByte(meta, j);
      var row: nat :| row < meta.rows && r == RowRegion(RowsOf(meta, srcId, dstId, bias), row);
      KeptCell(meta, bias, t, j / meta.elem, j % meta.elem, row);
    } else {
      Scale(meta.convWidth - bias, t, TokenBytes(meta));
    }
  }

  lemma KeptCell(meta: StateMeta, bias: nat, t: nat, row: nat, o: nat, row': nat)
    requires MetaOk(meta, true) && bias <= meta.convWidth && t < meta.convWidth <= t + bias
    requires row < meta.rows && row' < meta.rows && o < meta.elem
    ensures !Within(RowCell(meta, row, t, o), row' * meta.rowStride, (meta.convWidth - bias) * meta.elem)
  {
    RowCellBounds(meta, row, t, o);
    Scale(meta.convWidth - bias, t, meta.elem);
    Scale(meta.convWidth - bias, meta.convWidth, meta.elem);
    if row != row' { TokensApart(row, row', meta.rowStride); }
  }

  /** Slot `t` of the destination holds what the copy means it to hold. */
  ghost predicate SlotMoved(meta: StateMeta, dimFirst: bool, m0: Memory, m1: Memory, src: int, dst: int, bias: nat,
                            t: nat)
    requires meta.elem > 0
  {
    Slot(meta, dimFirst, m1, dst, t) ==
    if meta.convWidth > 0 && t + bias >= meta.convWidth then Slot(meta, dimFirst, m0, dst, t)
    else Slot(meta, dimFirst, m0, src, if meta.convWidth > 0 then t + bias else 0)
  }

  lemma ShiftedAt(meta: StateMeta, src: seq<seq<Byte>>, dst: seq<seq<Byte>>, bias: nat, t: nat)
    requires |src| == |dst| == Slots(meta) && (meta.convWidth > 0 ==> bias <= meta.convWidth) && t < Slots(meta)
    ensures |Shifted(meta, src, dst, bias)| == Slots(meta)
    ensures Shifted(meta, src, dst, bias)[t] ==
            if meta.convWidth > 0 && t + bias >= meta.convWidth then dst[t]
            else src[if meta.convWidth > 0 then t + bias else 0]
  {
  }

  lemma BlockSlot(meta: StateMeta, dimFirst: bool, m0: Memory, m1: Memory, src: int, dst: int, bias: nat, t: nat)
    requires meta.elem > 0 && (meta.convWidth > 0 ==> bias <= meta.convWidth)
    requires t < Slots(meta) && SlotMoved(meta, dimFirst, m0, m1, src, dst, bias, t)
    ensures Block(meta, dimFirst, m1, dst)[t] ==
            Shifted(meta, Block(meta, dimFirst, m0, src), Block(meta, dimFirst, m0, dst), bias)[t]
  {
    ShiftedAt(meta, Block(meta, dimFirst, m0, src), Block(meta, dimFirst, m0, dst), bias, t);
  }

  lemma BlockFromSlots(meta: StateMeta, dimFirst: bool, m0: Memory, m1: Memory, src: int, dst: int, bias: nat)
    requires meta.elem > 0 && (meta.convWidth > 0 ==> bias <= meta.convWidth)
    requires forall t: nat | t < Slots(meta) :: SlotMoved(meta, dimFirst, m0, m1, src, dst, bias, t)
    ensures Block(meta, dimFirst, m1, dst) ==
            Shifted(meta, Block(meta, dimFirst, m0, src), Block(meta, dimFirst, m0, dst), bias)
  {
    forall t: nat | t < Slots(meta)
      ensures Block(meta, dimFirst, m1, dst)[t] ==
              Shifted(meta, Block(meta, dimFirst, m0, src), Block(meta, dimFirst, m0, dst), bias)[t]
    {
      BlockSlot(meta, dimFirst, m0, m1, src, dst, bias, t);
    }
  }

  lemma MovedByte(meta: StateMeta, dimFirst: bool, srcId: int, dstId: int, bias: nat, m0: Memory, m1: Memory,
                  t: nat, j: nat)
    requires CopyOk(meta, dimFirst, srcId, dstId, bias) && t < Slots(meta) && j < SlotBytes(meta, dimFirst)
    requires Copied(CopyRegions(meta, dimFirst, srcId, dstId, bias), m0, m1)
    ensures m1(ByteAddr(meta, dimFirst, dstId, t, j)) ==
            if meta.convWidth > 0 && t + bias >= meta.convWidth then m0(ByteAddr(meta, dimFirst, dstId, t, j))
            else m0(ByteAddr(meta, dimFirst, srcId, if meta.convWidth > 0 then t + bias else 0, j))
  {
    if meta.convWidth > 0 && t + bias >= meta.convWidth {
      OutsideByte(meta, dimFirst, srcId, dstId, bias, m0, m1, dstId, t, j);
    } else {
      var r := RewrittenByte(meta, dimFirst, srcId, dstId, bias, t, j);
    }
  }

  lemma OutsideByte(meta: StateMeta, dimFirst: bool, srcId: int, dstId: int, bias: nat, m0: Memory, m1: Memory,
                    id: int, t: nat, j: nat)
    requires CopyOk(meta, dimFirst, srcId, dstId, bias) && t < Slots(meta) && j < SlotBytes(meta, dimFirst)
    requires id != dstId || (meta.convWidth > 0 && t + bias >= meta.convWidth)
    requires Copied(CopyRegions(meta, dimFirst, srcId, dstId, bias), m0, m1)
    ensures m1(ByteAddr(meta, dimFirst, id, t, j)) == m0(ByteAddr(meta, dimFirst, id, t, j))
  {
    forall r | r in CopyRegions(meta, dimFirst, srcId, dstId, bias)
      ensures !Within(ByteAddr(meta, dimFirst, id, t, j), r.dst, r.size)
    {
      KeptByte(meta, dimFirst, srcId, dstId, bias, id, t, j, r);
    }
  }

  lemma MovedSlot(meta: StateMeta, dimFirst: bool, srcId: int, dstId: int, bias: nat, m0: Memory, m1: Memory, t: nat)
    requires CopyOk(meta, dimFirst, srcId, dstId, bias) && t < Slots(meta)
    requires Copied(CopyRegions(meta, dimFirst, srcId, dstId, bias), m0, m1)
    ensures SlotMoved(meta, dimFirst, m0, m1, srcId, dstId, bias, t)
  {
    forall j: nat | j < SlotBytes(meta, dimFirst) { MovedByte(meta, dimFirst, srcId, dstId, bias, m0, m1, t, j); }
  }

  lemma OtherSlot(meta: StateMeta, dimFirst: bool, srcId: int, dstId: int, bias: nat, m0: Memory, m1: Memory,
                  id: int, t: nat)
    requires CopyOk(meta, dimFirst, srcId, dstId, bias) && t < Slots(meta) && id != dstId
    requires Copied(CopyRegions(meta, dimFirst, srcId, dstId, bias), m0, m1)
    ensures Slot(meta, dimFirst, m1, id, t) == Slot(meta, dimFirst, m0, id, t)
  {
    forall j: nat | j < SlotBytes(meta, dimFirst) { OutsideByte(meta, dimFirst, srcId, dstId, bias, m0, m1, id, t, j); }
  }

  /** Contents after the copy, for both layouts and both kinds of state: the destination block is the shifted
      source block, every other block of the pool is untouched. */
  lemma CopyMeaning(meta: StateMeta, dimFirst: bool, srcId: int, dstId: int, bias: nat, m0: Memory, m1: Memory, id: int)
    requires CopyOk(meta, dimFirst, srcId, dstId, bias) && InPool(meta, id)
    requires Copied(CopyRegions(meta, dimFirst, srcId, dstId, bias), m0, m1)
    ensures Block(meta, dimFirst, m1, id) ==
            if id == dstId then Shifted(meta, Block(meta, dimFirst, m0, srcId), Block(meta, dimFirst, m0, dstId), bias)
            else Block(meta, dimFirst, m0, id)
  {
    if id == dstId {
      forall t: nat | t < Slots(meta) ensures SlotMoved(meta, dimFirst, m0, m1, srcId, dstId, bias, t) {
        MovedSlot(meta, dimFirst, srcId, dstId, bias, m0, m1, t);
      }
      BlockFromSlots(meta, dimFirst, m0, m1, srcId, dstId, bias);
    } else {
      forall t: nat | t < Slots(meta) ensures Slot(meta, dimFirst, m1, id, t) == Slot(meta, dimFirst, m0, id, t) {
        OtherSlot(meta, dimFirst, srcId, dstId, bias, m0, m1, id, t);
      }
    }
  }

  // ---------------------------------------------------------------- the same, byte for byte

  /** A temporal block is its whole payload, byte after byte. */
  lemma TemporalIsBytes(meta: StateMeta, dimFirst: bool, m: Memory, id: int, j: nat)
    requires meta.elem > 0 && meta.convWidth == 0 && j < meta.inner * meta.elem
    ensures var b := Block(meta, dimFirst, m, id);
            |b| == 1 && |b[0]| == meta.inner * meta.elem && b[0][j] == m(meta.base + id * meta.stride + j)
  {
    assert ByteAddr(meta, dimFirst, id, 0, j) == meta.base + id * meta.stride + j;
  }

  /** A token-contiguous window is its tokens, one after another. */
  lemma WindowIsBytes(meta: StateMeta, m: Memory, id: int, t: nat, o: nat)
    requires meta.elem > 0 && t < meta.convWidth && o < meta.inner * meta.elem
    ensures var b, token := Block(meta, false, m, id), meta.inner * meta.elem;
            |b| == meta.convWidth && |b[t]| == token && b[t][o] == m(meta.base + id * meta.stride + (t * token + o))
  {
    assert ByteAddr(meta, false, id, t, o) == meta.base + id * meta.stride + (t * (meta.inner * meta.elem) + o);
  }

  /** Dim-first a token is spread over the rows, one element in each. */
  lemma RowsAreBytes(meta: StateMeta, m: Memory, id: int, t: nat, row: nat, o: nat)
    requires meta.elem > 0 && t < meta.convWidth && row < meta.rows && o < meta.elem
    ensures var b := Block(meta, true, m, id);
            && |b| == meta.convWidth && |b[t]| == meta.rows * meta.elem && 0 <= row * meta.elem + o < |b[t]|
            && b[t][row * meta.elem + o] == m(meta.base + id * meta.stride + (row * meta.rowStride + t * meta.elem + o))
  {
    Scale(row, meta.rows, meta.elem);
    Scale(0, row, meta.elem);
    RowAt(row, meta.elem, o);
    var j := row * meta.elem + o;
    assert ByteAddr(meta, true, id, t, j) == meta.base + id * meta.stride + (row * meta.rowStride + t * meta.elem + o);
  }

  lemma RowAt(row: nat, elem: nat, o: nat)
    requires o < elem
    ensures (row * elem + o) / elem == row && (row * elem + o) % elem == o
  {
    var j := row * elem + o;
    assert j == (j / elem) * elem + j % elem;
    if j / elem < row { Scale(j / elem, row, elem); }
    if row < j / elem { Scale(row, j / elem, elem); }
  }

  /** Block ids, shape and bias of a copy, in numbers: what the source's callers and the guard establish. */
  predicate CopyNumbers(meta: StateMeta, dimFirst: bool, srcId: int, dstId: int, bias: nat) {
    && meta.elem > 0 && 0 <= srcId < meta.numBlocks && 0 <= dstId < meta.numBlocks
    && if meta.convWidth == 0 then meta.inner * meta.elem <= meta.stride
       else
         && bias <= meta.convWidth
         && if dimFirst then meta.convWidth * meta.elem <= meta.rowStride && meta.rows * meta.rowStride <= meta.stride
            else meta.convWidth * (meta.inner * meta.elem) <= meta.stride
  }

  lemma NumbersSuffice(meta: StateMeta, dimFirst: bool, srcId: int, dstId: int, bias: nat)
    requires CopyNumbers(meta, dimFirst, srcId, dstId, bias)
    ensures CopyOk(meta, dimFirst, srcId, dstId, bias)
  {
    PayloadIs(meta, dimFirst);
  }

  /** The copy in every complete schedule of all lanes of all tiles. */
  ghost predicate CopyLeaves(meta: StateMeta, dimFirst: bool, srcId: int, dstId: int, bias: nat, m0: Memory,
                             schedule: seq<Lane>, m1: Memory) {
    var p := CopyProgram(meta, dimFirst, srcId, dstId, bias);
    var s := Exec(p, Init(p, m0), schedule);
    Done(p, s) && s.mem == m1
  }

  lemma CopyDone(meta: StateMeta, dimFirst: bool, srcId: int, dstId: int, bias: nat, m0: Memory,
                 schedule: seq<Lane>, m1: Memory)
    requires CopyNumbers(meta, dimFirst, srcId, dstId, bias)
    requires CopyLeaves(meta, dimFirst, srcId, dstId, bias, m0, schedule, m1)
    ensures Copied(CopyRegions(meta, dimFirst, srcId, dstId, bias), m0, m1)
  {
    NumbersSuffice(meta, dimFirst, srcId, dstId, bias);
    CopyAnySchedule(meta, dimFirst, srcId, dstId, bias, m0, schedule);
  }

  lemma OneRegionCopied(regions: set<Region>, r: Region, m0: Memory, m1: Memory, j: int)
    requires regions == {r} && Copied(regions, m0, m1)
    ensures m1(r.dst + j) == if 0 <= j < r.size then m0(r.src + j) else m0(r.dst + j)
  {
    assert r in regions;
  }

  /** A temporal copy moves every byte of the state and no other. */
  lemma TemporalBytes(meta: StateMeta, dimFirst: bool, srcId: int, dstId: int, bias: nat, m0: Memory,
                      schedule: seq<Lane>, m1: Memory, j: int)
    requires CopyNumbers(meta, dimFirst, srcId, dstId, bias) && meta.convWidth == 0
    requires CopyLeaves(meta, dimFirst, srcId, dstId, bias, m0, schedule, m1)
    ensures var src, dst := meta.base + srcId * meta.stride, meta.base + dstId * meta.stride;
            m1(dst + j) == if 0 <= j < meta.inner * meta.elem then m0(src + j) else m0(dst + j)
  {
    CopyDone(meta, dimFirst, srcId, dstId, bias, m0, schedule, m1);
    var r := Region(meta.base + srcId * meta.stride, meta.base + dstId * meta.stride, meta.inner * meta.elem);
    OneRegionCopied(CopyRegions(meta, dimFirst, srcId, dstId, bias), r, m0, m1, j);
  }

  /** A token-contiguous window copy moves token t + bias to token t, whole, and no other byte. */
  lemma WindowBytes(meta: StateMeta, srcId: int, dstId: int, bias: nat, m0: Memory, schedule: seq<Lane>, m1: Memory,
                    t: nat, o: nat, x: int)
    requires CopyNumbers(meta, false, srcId, dstId, bias) && meta.convWidth > 0
    requires CopyLeaves(meta, false, srcId, dstId, bias, m0, schedule, m1)
    ensures var src, dst := meta.base + srcId * meta.stride, meta.base + dstId * meta.stride;
            var token := meta.inner * meta.elem;
            && (t + bias < meta.convWidth && o < token ==>
                  m1(dst + (t * token + o)) == m0(src + ((t + bias) * token + o)))
            && (!(dst <= x < dst + (meta.convWidth - bias) * token) ==> m1(x) == m0(x))
  {
    CopyDone(meta, false, srcId, dstId, bias, m0, schedule, m1);
    var src, dst, token := meta.base + srcId * meta.stride, meta.base + dstId * meta.stride, meta.inner * meta.elem;
    var r := Region(src + bias * token, dst, (meta.convWidth - bias) * token);
    var regions := CopyRegions(meta, false, srcId, dstId, bias);
    assert regions == {r};
    OneRegionCopied(regions, r, m0, m1, x - dst);
    if t + bias < meta.convWidth && o < token {
      TokenInWindow(t, bias, meta.convWidth, token);
      OneRegionCopied(regions, r, m0, m1, t * token + o);
    }
  }

  lemma TokenInWindow(t: nat, bias: nat, width: nat, token: nat)
    requires t + bias < width
    ensures 0 <= t * token && t * token + token <= (width - bias) * token
    ensures (t + bias) * token == t * token + bias * token
  {
    Scale(0, t, token);
    Scale(t, width - bias, token);
  }

  /** Dim-first, every row moves element t + bias to element t, whole, and no other byte. */
  lemma RowBytes(meta: StateMeta, srcId: int, dstId: int, bias: nat, m0: Memory, schedule: seq<Lane>, m1: Memory,
                 row: nat, t: nat, o: nat)
    requires CopyNumbers(meta, true, srcId, dstId, bias) && meta.convWidth > 0
    requires CopyLeaves(meta, true, srcId, dstId, bias, m0, schedule, m1)
    requires row < meta.rows && t + bias < meta.convWidth && o < meta.elem
    ensures var src, dst := meta.base + srcId * meta.stride, meta.base + dstId * meta.stride;
            m1(dst + (row * meta.rowStride + t * meta.elem + o)) ==
              m0(src + (row * meta.rowStride + (t + bias) * meta.elem + o))
  {
    CopyDone(meta, true, srcId, dstId, bias, m0, schedule, m1);
    var dst := meta.base + dstId * meta.stride;
    var r := RowRegion(RowsOf(meta, srcId, dstId, bias), row);
    TokenInWindow(t, bias, meta.convWidth, meta.elem);
    assert r in CopyRegions(meta, true, srcId, dstId, bias);
    assert Within(dst + (row * meta.rowStride + t * meta.elem + o), r.dst, r.size);
  }

  /** `x` is none of the bytes that the dim-first copy writes in this row. */
  predicate OutsideRow(meta: StateMeta, dstId: int, row: nat, bias: nat, x: int) {
    var at := meta.base + dstId * meta.stride + row * meta.rowStride;
    x < at || x >= at + (meta.convWidth - bias) * meta.elem
  }

  lemma OtherRowBytes(meta: StateMeta, srcId: int, dstId: int, bias: nat, m0: Memory, schedule: seq<Lane>, m1: Memory,
                      x: int)
    requires CopyNumbers(meta, true, srcId, dstId, bias) && meta.convWidth > 0
    requires CopyLeaves(meta, true, srcId, dstId, bias, m0, schedule, m1)
    requires forall row: nat | row < meta.rows :: OutsideRow(meta, dstId, row, bias, x)
    ensures m1(x) == m0(x)
  {
    CopyDone(meta, true, srcId, dstId, bias, m0, schedule, m1);
    forall r | r in CopyRegions(meta, true, srcId, dstId, bias) ensures !Within(x, r.dst, r.size) {
      var row: nat :| row < meta.rows && r == RowRegion(RowsOf(meta, srcId, dstId, bias), row);
      assert OutsideRow(meta, dstId, row, bias, x);
    }
  }
}
