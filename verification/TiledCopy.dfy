/** The head/body/tail memcpy whose 64-bit body is split across several CTAs ("tiles"). */
module TiledCopy {
  import opened LaneMachine

  datatype Part = Head | Body | Tail | Bytewise | Row

  /** One lane moves one piece of a contiguous copy: a byte of the head or tail, one 64-bit word of the
      body, or, when the two addresses disagree modulo 8, one byte. A `Row` lane walks along dimension
      row `index` of a dim-first convolution window; `sub` counts the bytes of an odd-sized element. */
  datatype Lane = Lane(part: Part, index: nat, sub: nat)

  datatype Layout = Layout(head: nat, body: nat, tail: nat, bytes: nat)

  datatype Piece = Piece(offset: int, width: nat)

  function Min(a: int, b: int): int { if a <= b then a else b }

  function CeilDiv(a: int, b: int): int
    requires b > 0
  {
    (a + b - 1) / b
  }

  /** The parts of a layout add up to the copy: either bytes around whole words, or bytes only. */
  predicate Cut(lay: Layout, size: nat) {
    if lay.bytes > 0 then lay == Layout(0, 0, 0, size) else lay.head + 8 * lay.body + lay.tail == size
  }

  /** How a copy of `size` bytes is cut, from the alignment of its two addresses. */
  function LayoutOf(src: int, dst: int, size: nat): (lay: Layout)
    ensures Cut(lay, size)
  {
    if src % 8 == dst % 8 then
      var head := Min(-dst % 8, size);
      var body := (size - head) / 8;
      Layout(head, body, size - head - 8 * body, 0)
    else Layout(0, 0, 0, size)
  }

  /** The bytes a lane moves; a lane past the end of its part is masked off. */
  function PieceOf(lay: Layout, l: Lane): Piece {
    if l.sub != 0 then Piece(0, 0) else
    match l.part
    case Row => Piece(0, 0)
    case Head => if l.index < lay.head then Piece(l.index, 1) else Piece(0, 0)
    case Body => if l.index < lay.body then Piece(lay.head + 8 * l.index, 8) else Piece(0, 0)
    case Tail => if l.index < lay.tail then Piece(lay.head + 8 * lay.body + l.index, 1) else Piece(0, 0)
    case Bytewise => if l.index < lay.bytes then Piece(l.index, 1) else Piece(0, 0)
  }

  /** The lane that moves the byte at offset `o`. */
  function LaneAt(lay: Layout, o: nat): Lane {
    if lay.bytes > 0 then Lane(Bytewise, o, 0)
    else if o < lay.head then Lane(Head, o, 0)
    else if o < lay.head + 8 * lay.body then Lane(Body, (o - lay.head) / 8, 0)
    else Lane(Tail, o - lay.head - 8 * lay.body, 0)
  }

  /** The pieces partition the copy: each byte belongs to exactly one lane, and no lane reaches outside. */
  lemma PiecesPartition(lay: Layout, size: nat, l: Lane, o: int)
    requires Cut(lay, size)
    ensures Within(o, PieceOf(lay, l).offset, PieceOf(lay, l).width) <==> (0 <= o < size && l == LaneAt(lay, o))
  {
  }

  lemma PiecesApart(lay: Layout, size: nat, l: Lane, k: Lane)
    requires Cut(lay, size) && l != k
    ensures var a, b := PieceOf(lay, l), PieceOf(lay, k); Apart(a.offset, a.width, b.offset, b.width)
  {
  }

  lemma PieceInside(lay: Layout, size: nat, l: Lane)
    requires Cut(lay, size)
    ensures var a := PieceOf(lay, l); 0 <= a.offset && a.offset + a.width <= size
  {
  }

  /** Whole-word accesses are aligned at both ends; this is what keeps the fast path legal. */
  lemma WordsAligned(src: int, dst: int, size: nat, l: Lane)
    requires PieceOf(LayoutOf(src, dst, size), l).width > 1
    ensures var p := PieceOf(LayoutOf(src, dst, size), l);
            p.width == 8 && (src + p.offset) % 8 == 0 && (dst + p.offset) % 8 == 0
  {
    var lay := LayoutOf(src, dst, size);
    assert lay.head == -dst % 8;
    assert (dst + lay.head) % 8 == 0;
  }

  // ---------------------------------------------------------------- tiles

  /** Items per tile: the even share, rounded up to whole vectors. */
  function PerTile(items: nat, tiles: nat, vector: nat): nat
    requires tiles > 0 && vector > 0
  {
    CeilDiv(CeilDiv(items, tiles), vector) * vector
  }

  /** The tile that moves lane `l`: tile 0 owns head and tail. */
  function TileOf(lay: Layout, l: Lane, tiles: nat, vector: nat): int
    requires tiles > 0 && vector > 0
  {
    match l.part
    case Head => 0
    case Tail => 0
    case Row => 0
    case Body => if l.index < lay.body then TileIndex(lay.body, l.index, tiles, vector) else 0
    case Bytewise => if l.index < lay.bytes then TileIndex(lay.bytes, l.index, tiles, vector) else 0
  }

  function TileIndex(items: nat, k: nat, tiles: nat, vector: nat): (t: nat)
    requires tiles > 0 && vector > 0 && k < items
  {
    PerTileEnough(items, tiles, vector);
    k / PerTile(items, tiles, vector)
  }

  lemma CeilDivBounds(a: nat, b: nat)
    requires b > 0
    ensures CeilDiv(a, b) >= 0 && CeilDiv(a, b) * b >= a && (a > 0 ==> CeilDiv(a, b) > 0)
  {
    var q := (a + b - 1) / b;
    assert a + b - 1 == q * b + (a + b - 1) % b;
  }

  lemma PerTileEnough(items: nat, tiles: nat, vector: nat)
    requires tiles > 0 && vector > 0
    ensures tiles * PerTile(items, tiles, vector) >= items
    ensures items > 0 ==> PerTile(items, tiles, vector) > 0
  {
    var raw := CeilDiv(items, tiles);
    CeilDivBounds(items, tiles);
    CeilDivBounds(raw, vector);
    var per := PerTile(items, tiles, vector);
    assert per >= raw;
    assert tiles * per >= tiles * raw by { Monotone(raw, per, tiles); }
  }

  lemma Monotone(a: nat, b: nat, c: nat)
    requires a <= b
    ensures c * a <= c * b
  {
  }

  lemma QuotientBounds(k: nat, per: nat, tiles: nat)
    requires per > 0 && k < tiles * per
    ensures k / per < tiles && (k / per) * per <= k < (k / per) * per + per
  {
    assert k == (k / per) * per + k % per;
    if k / per >= tiles {
      Monotone(tiles, k / per, per);
    }
  }

  lemma TileIndexBounds(items: nat, k: nat, tiles: nat, vector: nat)
    requires tiles > 0 && vector > 0 && k < items
    ensures var t, per := TileIndex(items, k, tiles, vector), PerTile(items, tiles, vector);
            t < tiles && t * per <= k < t * per + per
  {
    PerTileEnough(items, tiles, vector);
    var per := PerTile(items, tiles, vector);
    QuotientBounds(k, per, tiles);
  }

  /** The owner of a lane is one of the tiles. */
  lemma OwnerIsTile(lay: Layout, l: Lane, tiles: nat, vector: nat)
    requires tiles > 0 && vector > 0
    ensures 0 <= TileOf(lay, l, tiles, vector) < tiles
  {
    if l.part == Body && l.index < lay.body { TileIndexBounds(lay.body, l.index, tiles, vector); }
    if l.part == Bytewise && l.index < lay.bytes { TileIndexBounds(lay.bytes, l.index, tiles, vector); }
  }

  /** Tile `t` walks exactly the items of its own share, whichever item is asked for. */
  lemma ShareOf(items: nat, k: nat, t: nat, tiles: nat, vector: nat)
    requires tiles > 0 && vector > 0 && k < items
    ensures var per := PerTile(items, tiles, vector);
            TileIndex(items, k, tiles, vector) == t <==> t * per <= k < Min(t * per + per, items)
  {
    var per, u := PerTile(items, tiles, vector), TileIndex(items, k, tiles, vector);
    TileIndexBounds(items, k, tiles, vector);
    if t < u {
      Monotone(t + 1, u, per);
    } else if u < t {
      Monotone(u + 1, t, per);
    }
  }

  // ---------------------------------------------------------------- one tile, on device memory

  /** The offsets a tile moves. */
  predicate Owned(src: int, dst: int, size: nat, o: int, tile: nat, tiles: nat, vector: nat)
    requires tiles > 0 && vector > 0
  {
    0 <= o < size && var lay := LayoutOf(src, dst, size); TileOf(lay, LaneAt(lay, o), tiles, vector) == tile
  }

  predicate Between(lo: int, o: int, hi: int) { lo <= o < hi }

  ghost function Offsets(lo: int, hi: int): iset<int> { iset o | Between(lo, o, hi) }

  /** `m1` is `m0` with the bytes at the given offsets brought over from `src` to `dst`. */
  ghost predicate Filled(m0: seq<Byte>, m1: seq<Byte>, src: int, dst: int, offsets: iset<int>) {
    && |m1| == |m0|
    && forall x {:trigger m1[x]} | 0 <= x < |m1| ::
         m1[x] == if x - dst in offsets && 0 <= src + (x - dst) < |m0| then m0[src + (x - dst)] else m0[x]
  }

  /** Two partial copies of one range add up, since neither disturbs what the other reads. */
  lemma FilledTwice(m0: seq<Byte>, m1: seq<Byte>, m2: seq<Byte>, src: int, dst: int, size: nat, first: iset<int>,
                    second: iset<int>)
    requires Filled(m0, m1, src, dst, first) && Filled(m1, m2, src, dst, second)
    requires first <= Offsets(0, size) && second <= Offsets(0, size)
    requires Apart(src, size, dst, size) || src == dst
    ensures Filled(m0, m2, src, dst, first + second)
  {
  }

  /** Copies `mem[src + lo .. src + hi]` as one vector: every lane loads, then every lane stores. */
  method MoveVector(mem: array<Byte>, src: int, dst: int, lo: int, hi: int)
    requires lo <= hi
    requires 0 <= src + lo && src + hi <= mem.Length && 0 <= dst + lo && dst + hi <= mem.Length
    modifies mem
    ensures Filled(old(mem[..]), mem[..], src, dst, Offsets(lo, hi))
  {
    var data := mem[src + lo .. src + hi];
    forall x | dst + lo <= x < dst + hi {
      mem[x] := data[x - (dst + lo)];
    }
  }

  /** Where item `i` starts: items are 64-bit words or bytes. */
  function ItemStart(lead: int, words: bool, i: int): int { lead + if words then 8 * i else i }

  /** The inner loop of both paths: vectors of `vector` items over items `start .. end`.
      A vector of words may only be issued at aligned addresses. */
  method WalkVectors(mem: array<Byte>, src: int, dst: int, size: nat, lead: nat, words: bool, start: nat, end: int,
                     vector: nat)
    requires vector > 0
    requires words ==> (src + lead) % 8 == 0 && (dst + lead) % 8 == 0
    requires start <= end && ItemStart(lead, words, end) <= size
    requires 0 <= src && src + size <= mem.Length && 0 <= dst && dst + size <= mem.Length
    requires Apart(src, size, dst, size) || src == dst
    modifies mem
    ensures Filled(old(mem[..]), mem[..], src, dst, Offsets(ItemStart(lead, words, start), ItemStart(lead, words, end)))
  {
    var i := start;
    ghost var from, m0 := ItemStart(lead, words, start), mem[..];
    while i < end
      invariant start <= i
      invariant Filled(m0, mem[..], src, dst, Offsets(from, ItemStart(lead, words, Min(i, end))))
      decreases end - i
    {
      var lo, hi := ItemStart(lead, words, i), ItemStart(lead, words, Min(i + vector, end));
      assert words ==> (src + lo) % 8 == 0 && (dst + lo) % 8 == 0;
      ghost var m1 := mem[..];
      MoveVector(mem, src, dst, lo, hi);
      FilledTwice(m0, m1, mem[..], src, dst, size, Offsets(from, lo), Offsets(lo, hi));
      assert Offsets(from, lo) + Offsets(lo, hi) == Offsets(from, hi);
      i := i + vector;
    }
  }

  /** The offsets one tile moves. */
  ghost function OwnedOffsets(src: int, dst: int, size: nat, tile: nat, tiles: nat, vector: nat): iset<int>
    requires tiles > 0 && vector > 0
  {
    iset o | Owned(src, dst, size, o, tile, tiles, vector)
  }

  ghost function When(cond: bool, offsets: iset<int>): iset<int> { if cond then offsets else iset{} }

  /** Fast path: the aligned words `start .. end`, and, if asked, the byte head and tail around all the words. */
  method FastShare(mem: array<Byte>, src: int, dst: int, size: nat, head: nat, body: nat, edges: bool, start: nat,
                   end: int, vector: nat)
    requires vector > 0 && start <= end <= body && head + 8 * body <= size
    requires body > 0 ==> (src + head) % 8 == 0 && (dst + head) % 8 == 0
    requires 0 <= src && src + size <= mem.Length && 0 <= dst && dst + size <= mem.Length
    requires Apart(src, size, dst, size) || src == dst
    modifies mem
    ensures Filled(old(mem[..]), mem[..], src, dst,
                   When(edges, Offsets(0, head)) + Offsets(head + 8 * start, head + 8 * end) +
                       When(edges, Offsets(head + body * 8, size)))
  {
    ghost var m0 := mem[..];
    if edges {
      MoveVector(mem, src, dst, 0, head);
    }
    ghost var m1 := mem[..];
    if body > 0 {
      WalkVectors(mem, src, dst, size, head, true, start, end, vector);
    }
    ghost var m2 := mem[..];
    var tailStart := head + body * 8;
    if edges {
      MoveVector(mem, src, dst, tailStart, size);
    }
    ghost var first, last := When(edges, Offsets(0, head)), When(edges, Offsets(tailStart, size));
    ghost var inner := Offsets(head + 8 * start, head + 8 * end);
    FilledTwice(m0, m1, m2, src, dst, size, first, inner);
    FilledTwice(m0, m2, mem[..], src, dst, size, first + inner, last);
  }

  /** Fast path of one tile: tile 0 owns the head and tail. */
  method FastTile(mem: array<Byte>, src: int, dst: int, size: nat, tile: nat, vector: nat, tiles: nat)
    requires tiles > 0 && vector > 0 && tile < tiles && src % 8 == dst % 8
    requires 0 <= src && src + size <= mem.Length && 0 <= dst && dst + size <= mem.Length
    requires Apart(src, size, dst, size) || src == dst
    modifies mem
    ensures Filled(old(mem[..]), mem[..], src, dst, OwnedOffsets(src, dst, size, tile, tiles, vector))
  {
    var lay := LayoutOf(src, dst, size);
    var start, end := TileShare(lay.body, tile, tiles, vector);
    OwnedFast(src, dst, size, tile, tiles, vector, start, end);
    if lay.body > 0 {
      WordsAligned(src, dst, size, Lane(Body, 0, 0));
    }
    FastShare(mem, src, dst, size, lay.head, lay.body, tile == 0, start, end, vector);
  }

  /** `start .. end` are the items of one tile; a late tile falls off the end and has none. */
  predicate IsShare(items: nat, tile: nat, tiles: nat, vector: nat, start: nat, end: nat)
    requires tiles > 0 && vector > 0
  {
    && start <= end <= items
    && forall k: nat | k < items :: start <= k < end <==> TileIndex(items, k, tiles, vector) == tile
  }

  method TileShare(items: nat, tile: nat, tiles: nat, vector: nat) returns (start: nat, end: nat)
    requires tiles > 0 && vector > 0
    ensures IsShare(items, tile, tiles, vector, start, end)
  {
    var perTile := CeilDiv(CeilDiv(items, tiles), vector) * vector;
    PerTileEnough(items, tiles, vector);
    start, end := tile * perTile, Min(tile * perTile + perTile, items);
    forall k: nat | k < items ensures start <= k < end <==> TileIndex(items, k, tiles, vector) == tile {
      ShareOf(items, k, tile, tiles, vector);
    }
    if end < start { start, end := 0, 0; }
  }

  /** Slow path, for addresses that disagree modulo 8: every tile its share of the bytes. */
  method SlowTile(mem: array<Byte>, src: int, dst: int, size: nat, tile: nat, vector: nat, tiles: nat)
    requires tiles > 0 && vector > 0 && tile < tiles && src % 8 != dst % 8
    requires 0 <= src && src + size <= mem.Length && 0 <= dst && dst + size <= mem.Length
    requires Apart(src, size, dst, size)
    modifies mem
    ensures Filled(old(mem[..]), mem[..], src, dst, OwnedOffsets(src, dst, size, tile, tiles, vector))
  {
    var start, end := TileShare(size, tile, tiles, vector);
    WalkVectors(mem, src, dst, size, 0, false, start, end, vector);
    OwnedSlow(src, dst, size, tile, tiles, vector, start, end);
  }

  /** The device function: one tile of the copy. */
  method MemcpyU64Tiled(mem: array<Byte>, src: int, dst: int, size: nat, tile: nat, vector: nat, tiles: nat)
    requires tiles > 0 && vector > 0 && tile < tiles
    requires 0 <= src && src + size <= mem.Length && 0 <= dst && dst + size <= mem.Length
    requires Apart(src, size, dst, size) || src == dst
    modifies mem
    ensures Filled(old(mem[..]), mem[..], src, dst, OwnedOffsets(src, dst, size, tile, tiles, vector))
  {
    if src % 8 == dst % 8 {
      FastTile(mem, src, dst, size, tile, vector, tiles);
    } else {
      SlowTile(mem, src, dst, size, tile, vector, tiles);
    }
  }

  lemma OwnedFast(src: int, dst: int, size: nat, tile: nat, tiles: nat, vector: nat, start: nat, end: nat)
    requires tiles > 0 && vector > 0 && src % 8 == dst % 8
    requires IsShare(LayoutOf(src, dst, size).body, tile, tiles, vector, start, end)
    ensures var lay := LayoutOf(src, dst, size);
            OwnedOffsets(src, dst, size, tile, tiles, vector) ==
              When(tile == 0, Offsets(0, lay.head)) + Offsets(lay.head + 8 * start, lay.head + 8 * end)
              + When(tile == 0, Offsets(lay.head + lay.body * 8, size))
  {
    var lay := LayoutOf(src, dst, size);
    forall o | 0 <= o < size
      ensures Owned(src, dst, size, o, tile, tiles, vector) <==>
        (tile == 0 && (o < lay.head || lay.head + lay.body * 8 <= o)) || lay.head + 8 * start <= o < lay.head + 8 * end
    {
      if lay.head <= o < lay.head + 8 * lay.body {
        var k := (o - lay.head) / 8;
        assert start <= k < end <==> lay.head + 8 * start <= o < lay.head + 8 * end;
      }
    }
  }

  lemma OwnedSlow(src: int, dst: int, size: nat, tile: nat, tiles: nat, vector: nat, start: nat, end: nat)
    requires tiles > 0 && vector > 0 && src % 8 != dst % 8
    requires IsShare(size, tile, tiles, vector, start, end)
    ensures OwnedOffsets(src, dst, size, tile, tiles, vector) == Offsets(start, end)
  {
  }

  ghost function OwnedByAny(src: int, dst: int, size: nat, order: seq<nat>, tiles: nat, vector: nat): iset<int>
    requires tiles > 0 && vector > 0
  {
    if order == [] then iset{}
    else
      var n := |order| - 1;
      OwnedByAny(src, dst, size, order[..n], tiles, vector) + OwnedOffsets(src, dst, size, order[n], tiles, vector)
  }

  lemma {:induction false} OwnedByAnyIs(src: int, dst: int, size: nat, order: seq<nat>, tiles: nat, vector: nat)
    requires tiles > 0 && vector > 0
    ensures OwnedByAny(src, dst, size, order, tiles, vector) ==
            iset o | 0 <= o < size &&
                     var lay := LayoutOf(src, dst, size); TileOf(lay, LaneAt(lay, o), tiles, vector) in order
  {
    if order != [] {
      OwnedByAnyIs(src, dst, size, order[..|order| - 1], tiles, vector);
    }
  }

  /** Running the tiles one after another, in any order, copies the whole range and nothing else. */
  method RunTiles(mem: array<Byte>, src: int, dst: int, size: nat, order: seq<nat>, vector: nat, tiles: nat)
    requires tiles > 0 && vector > 0
    requires forall t: nat :: t in order <==> t < tiles
    requires 0 <= src && src + size <= mem.Length && 0 <= dst && dst + size <= mem.Length
    requires Apart(src, size, dst, size) || src == dst
    modifies mem
    ensures Filled(old(mem[..]), mem[..], src, dst, Offsets(0, size))
  {
    var n := 0;
    while n < |order|
      invariant n <= |order|
      invariant Filled(old(mem[..]), mem[..], src, dst, OwnedByAny(src, dst, size, order[..n], tiles, vector))
    {
      assert order[n] in order;
      ghost var m1 := mem[..];
      MemcpyU64Tiled(mem, src, dst, size, order[n], vector, tiles);
      OwnedByAnyIs(src, dst, size, order[..n], tiles, vector);
      FilledTwice(old(mem[..]), m1, mem[..], src, dst, size, OwnedByAny(src, dst, size, order[..n], tiles, vector),
                  OwnedOffsets(src, dst, size, order[n], tiles, vector));
      assert order[..n + 1][..n] == order[..n];
      n := n + 1;
    }
    OwnedByAnyIs(src, dst, size, order, tiles, vector);
    assert order[..n] == order;
    forall o | 0 <= o < size ensures o in OwnedByAny(src, dst, size, order, tiles, vector) {
      var lay := LayoutOf(src, dst, size);
      OwnerIsTile(lay, LaneAt(lay, o), tiles, vector);
    }
    assert OwnedByAny(src, dst, size, order, tiles, vector) == Offsets(0, size);
  }

  // ---------------------------------------------------------------- all tiles, interleaved lane by lane

  /** Every lane of every tile, with no ordering among them. */
  function LanesUpTo(n: nat): set<Lane> {
    set part: Part, i: nat | i < n :: Lane(part, i, 0)
  }

  function TiledProgram(src: int, dst: int, size: nat): Program<Lane> {
    Program(LanesUpTo(size), (l: Lane) => 1,
            (l: Lane, n: nat) =>
              var p := PieceOf(LayoutOf(src, dst, size), l);
              Access(src + p.offset, dst + p.offset, p.width),
            (k: Lane, l: Lane) => false)
  }

  /** For disjoint or identical ranges the lanes of all tiles may be scheduled in any way:
      the result is the plain copy. */
  lemma TiledAnySchedule(src: int, dst: int, size: nat, m0: Memory, schedule: seq<Lane>)
    requires Apart(src, size, dst, size) || src == dst
    requires var p := TiledProgram(src, dst, size); Done(p, Exec(p, Init(p, m0), schedule))
    ensures var p := TiledProgram(src, dst, size);
            Copied({Region(src, dst, size)}, m0, Exec(p, Init(p, m0), schedule).mem)
  {
    var p := TiledProgram(src, dst, size);
    TiledNonInterfering(src, dst, size);
    AnyScheduleMoves(p, m0, schedule);
    TiledImplements(src, dst, size);
    MovedIsCopied(p, {Region(src, dst, size)}, m0, Exec(p, Init(p, m0), schedule).mem);
  }

  lemma TiledNonInterfering(src: int, dst: int, size: nat)
    requires Apart(src, size, dst, size) || src == dst
    ensures NonInterfering(TiledProgram(src, dst, size))
  {
    var p := TiledProgram(src, dst, size);
    forall l, n: nat, k, m: nat | Issued(p, l, n) && Issued(p, k, m) && (l, n) != (k, m)
      ensures Apart(p.op(l, n).dst, p.op(l, n).width, p.op(k, m).dst, p.op(k, m).width)
      ensures Apart(p.op(l, n).src, p.op(l, n).width, p.op(k, m).dst, p.op(k, m).width)
    {
      PiecesApart(LayoutOf(src, dst, size), size, l, k);
      PieceInside(LayoutOf(src, dst, size), size, l);
      PieceInside(LayoutOf(src, dst, size), size, k);
    }
  }

  lemma TiledImplements(src: int, dst: int, size: nat)
    ensures Implements(TiledProgram(src, dst, size), {Region(src, dst, size)})
  {
    var p, r, lay := TiledProgram(src, dst, size), Region(src, dst, size), LayoutOf(src, dst, size);
    forall l, n: nat | Issued(p, l, n) && p.op(l, n).width > 0 ensures InSomeRegion(p, {r}, l, n) {
      PieceInside(lay, size, l);
      assert PartOf(p, l, n, r);
    }
    forall x | Within(x, dst, size) ensures CoveredIn(p, r, x) {
      var l := LaneAt(lay, x - dst);
      PiecesPartition(lay, size, l, x - dst);
      PieceInside(lay, size, l);
      assert l in LanesUpTo(size);
      assert Writes(p, l, 0, x) && PartOf(p, l, 0, r);
    }
  }
}
