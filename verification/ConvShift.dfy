/** Left shift of a convolution window by a number of tokens, inside one block or into another. */
module ConvShift {
  import opened LaneMachine
  import opened TiledCopy

  lemma Scale(a: int, b: int, c: nat)
    requires a <= b
    ensures a * c <= b * c
    ensures a < b ==> a * c + c <= b * c
  {
    if a < b {
      assert (b - a - 1) * c >= 0;
    }
  }

  // ---------------------------------------------------------------- tokens contiguous (state_len, dim)

  /** One lane per piece of a token; it walks through the tokens from low to high. There is no barrier,
      so a lane may be several tokens ahead of another. */
  function SlideProgram(block: int, tokenBytes: nat, width: nat, bias: nat): Program<Lane> {
    Program(LanesUpTo(tokenBytes), (l: Lane) => if bias <= width then width - bias else 0,
            (l: Lane, i: nat) => SlideAccess(block + i * tokenBytes, bias * tokenBytes, tokenBytes, l),
            (k: Lane, l: Lane) => false)
  }

  /** What lane `l` does for the token at `dst`, whose source lies `shift` bytes further on. */
  function SlideAccess(dst: int, shift: nat, tokenBytes: nat, l: Lane): Access {
    var p := PieceOf(LayoutOf(dst + shift, dst, tokenBytes), l);
    Access(dst + shift + p.offset, dst + p.offset, p.width)
  }

  /** The window moves `bias` tokens to the left. */
  function SlideRegion(block: int, tokenBytes: nat, width: nat, bias: nat): Region {
    Region(block + bias * tokenBytes, block, (width - bias) * tokenBytes)
  }

  /** A token that is overwritten later was loaded earlier by the very lane that overwrites it: source and
      destination agree modulo 8 either for every token or for none, so the token is cut the same way
      when it is read and when it is written. */
  lemma CutShift(dst: int, d: int, size: nat)
    ensures LayoutOf(dst + d, dst, size) == LayoutOf(dst + d + d, dst + d, size)
  {
    Congruent(dst, d);
    Congruent(dst + d, d);
    if d % 8 == 0 {
      Congruent(-dst, -d);
    }
  }

  lemma Congruent(a: int, d: int)
    ensures (a + d) % 8 == a % 8 <==> d % 8 == 0
  {
  }

  lemma SlideNonInterfering(block: int, tokenBytes: nat, width: nat, bias: nat)
    requires 0 < bias <= width
    ensures NonInterfering(SlideProgram(block, tokenBytes, width, bias))
  {
    var p := SlideProgram(block, tokenBytes, width, bias);
    forall l, n: nat, k, m: nat | Issued(p, l, n) && Issued(p, k, m) && (l, n) != (k, m)
      ensures var a, b := p.op(l, n), p.op(k, m);
              Apart(a.dst, a.width, b.dst, b.width) && (Apart(a.src, a.width, b.dst, b.width) || (l == k && n < m))
    {
      TokenGaps(n, m, bias, tokenBytes);
      SlidePair(block + n * tokenBytes, block + m * tokenBytes, bias * tokenBytes, tokenBytes, l, k);
    }
  }

  lemma TokenGaps(n: nat, m: nat, bias: nat, size: nat)
    ensures n != m ==> Apart(n * size, size, m * size, size)
    ensures n + bias != m ==> Apart(n * size + bias * size, size, m * size, size)
    ensures n + bias == m ==> n * size + bias * size == m * size
    ensures n >= m && n * size + bias * size == m * size && bias > 0 ==> size == 0
  {
    assert (n + bias) * size == n * size + bias * size;
    if n != m { TokensApart(n, m, size); }
    if n + bias != m { TokensApart(n + bias, m, size); }
  }

  lemma SlidePair(dn: int, dm: int, d: nat, size: nat, l: Lane, k: Lane)
    requires (dn == dm && l != k) || Apart(dn, size, dm, size)
    requires dn + d == dm || Apart(dn + d, size, dm, size)
    ensures var a, b := SlideAccess(dn, d, size, l), SlideAccess(dm, d, size, k);
            Apart(a.dst, a.width, b.dst, b.width) &&
              (Apart(a.src, a.width, b.dst, b.width) || (l == k && dn + d == dm && size > 0))
  {
    var lay, lay' := LayoutOf(dn + d, dn, size), LayoutOf(dm + d, dm, size);
    if dn + d == dm {
      CutShift(dn, d, size);
      assert lay == lay';
    }
    CutsApart(dn, dm, d, size, lay, lay', l, k);
    PieceInside(lay, size, l);
  }

  lemma CutsApart(dn: int, dm: int, d: int, size: nat, lay: Layout, lay': Layout, l: Lane, k: Lane)
    requires Cut(lay, size) && Cut(lay', size)
    requires (dn == dm && l != k && lay == lay') || Apart(dn, size, dm, size)
    requires (dn + d == dm && lay == lay') || Apart(dn + d, size, dm, size)
    ensures var a, b := PieceOf(lay, l), PieceOf(lay', k);
            Apart(dn + a.offset, a.width, dm + b.offset, b.width)
            && (Apart(dn + d + a.offset, a.width, dm + b.offset, b.width) || (l == k && dn + d == dm))
  {
    PieceInside(lay, size, l);
    PieceInside(lay', size, k);
    if l != k {
      PiecesApart(lay, size, l, k);
    }
    PlacedApart(dn, dm, d, size, PieceOf(lay, l), PieceOf(lay', k), l == k);
  }

  lemma PlacedApart(dn: int, dm: int, d: int, size: nat, a: Piece, b: Piece, same: bool)
    requires 0 <= a.offset && a.offset + a.width <= size && 0 <= b.offset && b.offset + b.width <= size
    requires (dn == dm && Apart(a.offset, a.width, b.offset, b.width)) || Apart(dn, size, dm, size)
    requires (dn + d == dm && (same || Apart(a.offset, a.width, b.offset, b.width))) || Apart(dn + d, size, dm, size)
    ensures Apart(dn + a.offset, a.width, dm + b.offset, b.width)
    ensures Apart(dn + d + a.offset, a.width, dm + b.offset, b.width) || (same && dn + d == dm)
  {
  }

  lemma TokensApart(a: nat, b: nat, size: nat)
    requires a != b
    ensures a * size + size <= b * size || b * size + size <= a * size
  {
    if a < b { Scale(a, b, size); } else { Scale(b, a, size); }
  }

  lemma SlideImplements(block: int, tokenBytes: nat, width: nat, bias: nat)
    requires bias <= width
    ensures Implements(SlideProgram(block, tokenBytes, width, bias), {SlideRegion(block, tokenBytes, width, bias)})
  {
    var p, r := SlideProgram(block, tokenBytes, width, bias), SlideRegion(block, tokenBytes, width, bias);
    forall l, n: nat | Issued(p, l, n) ensures InSomeRegion(p, {r}, l, n) {
      Scale(0, n, tokenBytes);
      Scale(n, width - bias, tokenBytes);
      SlideInside(block, n * tokenBytes, bias * tokenBytes, tokenBytes, l);
      assert PartOf(p, l, n, r);
    }
    forall x | Within(x, r.dst, r.size) ensures CoveredIn(p, r, x) {
      SlideCovers(block, tokenBytes, width, bias, x);
    }
  }

  lemma SlideCovers(block: int, tokenBytes: nat, width: nat, bias: nat, x: int)
    requires bias <= width && Within(x, block, (width - bias) * tokenBytes)
    ensures CoveredIn(SlideProgram(block, tokenBytes, width, bias), SlideRegion(block, tokenBytes, width, bias), x)
  {
    var p, r := SlideProgram(block, tokenBytes, width, bias), SlideRegion(block, tokenBytes, width, bias);
    var n := TokenOf(x - block, tokenBytes, width - bias);
    var at, d := n * tokenBytes, bias * tokenBytes;
    Scale(0, n, tokenBytes);
    Scale(n, width - bias, tokenBytes);
    var l := SlideLane(block, at, d, tokenBytes, x);
    SlideInside(block, at, d, tokenBytes, l);
    assert p.op(l, n) == SlideAccess(block + at, d, tokenBytes, l);
    assert Writes(p, l, n, x) && PartOf(p, l, n, r);
  }

  lemma SlideInside(block: int, at: nat, d: nat, size: nat, l: Lane)
    ensures var a := SlideAccess(block + at, d, size, l);
            a.src - a.dst == d && block + at <= a.dst && a.dst + a.width <= block + at + size
  {
    PieceInside(LayoutOf(block + at + d, block + at, size), size, l);
  }

  lemma SlideLane(block: int, at: nat, d: nat, size: nat, x: int) returns (l: Lane)
    requires Within(x, block + at, size)
    ensures l in LanesUpTo(size) && var a := SlideAccess(block + at, d, size, l); Within(x, a.dst, a.width)
  {
    var lay := LayoutOf(block + at + d, block + at, size);
    l := LaneAt(lay, x - (block + at));
    PiecesPartition(lay, size, l, x - (block + at));
  }

  /** The token an offset falls in. */
  lemma TokenOf(o: nat, size: nat, count: nat) returns (n: nat)
    requires o < count * size
    ensures n < count && n * size <= o < n * size + size
  {
    assert size > 0;
    n := o / size;
    assert o == n * size + o % size;
    if n >= count { Scale(count, n, size); }
  }

  /** The in-place slide is a memmove for every shift, token size, alignment and lane interleaving. */
  lemma SlideAnySchedule(block: int, tokenBytes: nat, width: nat, bias: nat, m0: Memory, schedule: seq<Lane>)
    requires 0 < bias <= width
    requires var p := SlideProgram(block, tokenBytes, width, bias); Done(p, Exec(p, Init(p, m0), schedule))
    ensures var p := SlideProgram(block, tokenBytes, width, bias);
            Copied({SlideRegion(block, tokenBytes, width, bias)}, m0, Exec(p, Init(p, m0), schedule).mem)
  {
    var p := SlideProgram(block, tokenBytes, width, bias);
    SlideNonInterfering(block, tokenBytes, width, bias);
    AnyScheduleMoves(p, m0, schedule);
    SlideImplements(block, tokenBytes, width, bias);
    MovedIsCopied(p, {SlideRegion(block, tokenBytes, width, bias)}, m0, Exec(p, Init(p, m0), schedule).mem);
  }

  /** The token loop on device memory, each token moved by one untiled memcpy. */
  method SlideTokens(mem: array<Byte>, block: int, tokenBytes: nat, width: nat, bias: nat, vector: nat)
    requires 0 < bias <= width && vector > 0
    requires 0 <= block && block + width * tokenBytes <= mem.Length
    modifies mem
    ensures Filled(old(mem[..]), mem[..], block + bias * tokenBytes, block, Offsets(0, (width - bias) * tokenBytes))
  {
    var token, at, shift := 0, 0, bias * tokenBytes;
    ghost var m0 := mem[..];
    while token < width - bias
      invariant token <= width - bias && at == token * tokenBytes
      invariant Filled(m0, mem[..], block + shift, block, Offsets(0, at))
    {
      NextToken(token, bias, width, tokenBytes);
      SlideToken(mem, block, shift, at, tokenBytes, vector, m0);
      token := token + 1;
      at := at + tokenBytes;
    }
  }

  method SlideToken(mem: array<Byte>, block: int, shift: nat, at: nat, tokenBytes: nat, vector: nat,
                    ghost m0: seq<Byte>)
    requires vector > 0 && tokenBytes <= shift
    requires 0 <= block && block + at + shift + tokenBytes <= mem.Length
    requires Filled(m0, mem[..], block + shift, block, Offsets(0, at))
    modifies mem
    ensures Filled(m0, mem[..], block + shift, block, Offsets(0, at + tokenBytes))
  {
    ghost var m1 := mem[..];
    var src, dst := block + (at + shift), block + at;
    MemcpyU64Tiled(mem, src, dst, tokenBytes, 0, vector, 1);
    SlideOne(m0, m1, mem[..], block, shift, at, tokenBytes, vector);
  }

  lemma NextToken(token: nat, bias: nat, width: nat, size: nat)
    requires 0 < bias && token + bias < width
    ensures (token + 1) * size == token * size + size
    ensures token * size + bias * size + size <= width * size && size <= bias * size
  {
    Scale(token + bias + 1, width, size);
    Scale(1, bias, size);
    assert (token + bias + 1) * size == token * size + bias * size + size;
  }

  /** A single tile owns every byte. */
  lemma WholeTile(src: int, dst: int, size: nat, vector: nat)
    requires vector > 0
    ensures OwnedOffsets(src, dst, size, 0, 1, vector) == Offsets(0, size)
  {
    forall o | 0 <= o < size ensures Owned(src, dst, size, o, 0, 1, vector) {
      SoleTile(src, dst, size, o, vector);
    }
    assert forall o :: o in OwnedOffsets(src, dst, size, 0, 1, vector) <==> Owned(src, dst, size, o, 0, 1, vector);
  }

  lemma SoleTile(src: int, dst: int, size: nat, o: nat, vector: nat)
    requires vector > 0 && o < size
    ensures Owned(src, dst, size, o, 0, 1, vector)
  {
    var lay := LayoutOf(src, dst, size);
    OwnerIsTile(lay, LaneAt(lay, o), 1, vector);
  }

  lemma SlideOne(m0: seq<Byte>, m1: seq<Byte>, m2: seq<Byte>, block: int, shift: nat, at: nat, size: nat, vector: nat)
    requires vector > 0
    requires Filled(m0, m1, block + shift, block, Offsets(0, at))
    requires Filled(m1, m2, block + (at + shift), block + at,
                    OwnedOffsets(block + (at + shift), block + at, size, 0, 1, vector))
    ensures Filled(m0, m2, block + shift, block, Offsets(0, at + size))
  {
    WholeTile(block + (at + shift), block + at, size, vector);
  }

  // ---------------------------------------------------------------- dimension rows (dim, state_len)

  /** 2- and 4-byte elements move whole, others byte by byte. */
  function Unit(elem: nat): nat { if elem == 2 || elem == 4 then elem else 1 }

  function Parts(elem: nat): nat { if elem == 2 || elem == 4 then 1 else elem }

  datatype Rows = Rows(src: int, dst: int, count: nat, stride: nat, elem: nat, width: nat, bias: nat)

  /** One lane per dimension row (and byte of an odd-sized element); it walks through the tokens from low to high. */
  function RowsProgram(r: Rows): Program<Lane> {
    Program(set row: nat, sub: nat | row < r.count && sub < Parts(r.elem) :: Lane(Row, row, sub),
            (l: Lane) => if r.bias <= r.width then r.width - r.bias else 0,
            (l: Lane, i: nat) => RowsAccess(r, l, i),
            (k: Lane, l: Lane) => false)
  }

  function RowsAccess(r: Rows, l: Lane, i: nat): Access {
    Access(r.src + l.index * r.stride + (i + r.bias) * r.elem + l.sub,
           r.dst + l.index * r.stride + i * r.elem + l.sub, Unit(r.elem))
  }

  function RowRegion(r: Rows, row: nat): Region {
    Region(r.src + row * r.stride + r.bias * r.elem, r.dst + row * r.stride, (r.width - r.bias) * r.elem)
  }

  function RowRegions(r: Rows): set<Region> {
    set row: nat | row < r.count :: RowRegion(r, row)
  }

  /** Rows do not run into each other, and the two blocks are one and the same or do not meet. */
  predicate RowsOk(r: Rows) {
    && r.elem > 0 && r.bias <= r.width && r.width * r.elem <= r.stride
    && (r.src == r.dst || Apart(r.src, r.count * r.stride, r.dst, r.count * r.stride))
  }

  lemma RowsPair(r: Rows, l: Lane, n: nat, k: Lane, m: nat)
    requires RowsOk(r) && Issued(RowsProgram(r), l, n) && Issued(RowsProgram(r), k, m) && (l, n) != (k, m)
    ensures var a, b := RowsAccess(r, l, n), RowsAccess(r, k, m);
            Apart(a.dst, a.width, b.dst, b.width) && (Apart(a.src, a.width, b.dst, b.width) || (l == k && n < m))
  {
    CellsApart(r, l.index, n, l.sub, k.index, m, k.sub);
    if (l.index, n + r.bias, l.sub) != (k.index, m, k.sub) {
      CellsApart(r, l.index, n + r.bias, l.sub, k.index, m, k.sub);
    }
    CellInside(r, l.index, n + r.bias, l.sub);
    CellInside(r, k.index, m, k.sub);
  }

  /** Offset of one access inside a block. */
  function Cell(r: Rows, row: nat, token: nat, sub: nat): nat { row * r.stride + token * r.elem + sub }

  lemma CellInside(r: Rows, row: nat, token: nat, sub: nat)
    requires RowsOk(r) && row < r.count && token < r.width && sub < Parts(r.elem)
    ensures token * r.elem + sub + Unit(r.elem) <= r.width * r.elem
    ensures Cell(r, row, token, sub) + Unit(r.elem) <= r.count * r.stride
  {
    Scale(token, r.width, r.elem);
    Scale(row, r.count, r.stride);
  }

  lemma CellsApart(r: Rows, row: nat, token: nat, sub: nat, row': nat, token': nat, sub': nat)
    requires RowsOk(r) && row < r.count && token < r.width && sub < Parts(r.elem)
    requires row' < r.count && token' < r.width && sub' < Parts(r.elem)
    requires (row, token, sub) != (row', token', sub')
    ensures Apart(Cell(r, row, token, sub), Unit(r.elem), Cell(r, row', token', sub'), Unit(r.elem))
  {
    if row != row' {
      RowsFar(r, row, token, sub, row', token', sub');
    } else if token != token' {
      TokensApart(token, token', r.elem);
    }
  }

  lemma RowsFar(r: Rows, row: nat, token: nat, sub: nat, row': nat, token': nat, sub': nat)
    requires RowsOk(r) && row < r.count && token < r.width && sub < Parts(r.elem)
    requires row' < r.count && token' < r.width && sub' < Parts(r.elem) && row != row'
    ensures Apart(Cell(r, row, token, sub), Unit(r.elem), Cell(r, row', token', sub'), Unit(r.elem))
  {
    Scale(0, token, r.elem);
    Scale(0, token', r.elem);
    CellInside(r, row, token, sub);
    CellInside(r, row', token', sub');
    TokensApart(row, row', r.stride);
  }

  lemma RowsNonInterfering(r: Rows)
    requires RowsOk(r)
    ensures NonInterfering(RowsProgram(r))
  {
    var p := RowsProgram(r);
    forall l, n: nat, k, m: nat | Issued(p, l, n) && Issued(p, k, m) && (l, n) != (k, m)
      ensures Apart(p.op(l, n).dst, p.op(l, n).width, p.op(k, m).dst, p.op(k, m).width)
      ensures Apart(p.op(l, n).src, p.op(l, n).width, p.op(k, m).dst, p.op(k, m).width) || (l == k && n < m)
    {
      RowsPair(r, l, n, k, m);
    }
  }

  lemma RowsImplements(r: Rows)
    requires RowsOk(r)
    ensures Implements(RowsProgram(r), RowRegions(r))
  {
    var p := RowsProgram(r);
    forall l, n: nat | Issued(p, l, n) ensures InSomeRegion(p, RowRegions(r), l, n) {
      RowInside(r, l, n);
      assert RowRegion(r, l.index) in RowRegions(r) && PartOf(p, l, n, RowRegion(r, l.index));
    }
    forall g, x | g in RowRegions(r) && Within(x, g.dst, g.size)
      ensures CoveredIn(p, g, x)
    {
      var row: nat :| row < r.count && g == RowRegion(r, row);
      var n := TokenOf(x - g.dst, r.elem, r.width - r.bias);
      var l := Lane(Row, row, if Parts(r.elem) == 1 then 0 else x - g.dst - n * r.elem);
      RowInside(r, l, n);
      assert l in p.lanes && Writes(p, l, n, x) && PartOf(p, l, n, g);
    }
  }

  lemma RowInside(r: Rows, l: Lane, n: nat)
    requires RowsOk(r) && n < r.width - r.bias && l.sub < Parts(r.elem)
    ensures PartOf(RowsProgram(r), l, n, RowRegion(r, l.index))
  {
    CellInRow(n, r.bias, r.width, r.elem);
    var at := n * r.elem;
    assert l.sub + Unit(r.elem) <= r.elem;
    assert RowsProgram(r).op(l, n) == Access(r.src + l.index * r.stride + (at + r.bias * r.elem) + l.sub,
                                             r.dst + l.index * r.stride + at + l.sub, Unit(r.elem));
  }

  lemma CellInRow(n: nat, bias: nat, width: nat, elem: nat)
    requires n + bias < width
    ensures (n + bias) * elem == n * elem + bias * elem
    ensures 0 <= n * elem && n * elem + elem <= (width - bias) * elem
  {
    Scale(0, n, elem);
    Scale(n, width - bias, elem);
  }

  /** Every dimension row moves `bias` tokens to the left, in place or across blocks, for every lane interleaving. */
  lemma RowsAnySchedule(r: Rows, m0: Memory, schedule: seq<Lane>)
    requires RowsOk(r)
    requires var p := RowsProgram(r); Done(p, Exec(p, Init(p, m0), schedule))
    ensures var p := RowsProgram(r); Copied(RowRegions(r), m0, Exec(p, Init(p, m0), schedule).mem)
  {
    var p := RowsProgram(r);
    RowsNonInterfering(r);
    AnyScheduleMoves(p, m0, schedule);
    RowsImplements(r);
    MovedIsCopied(p, RowRegions(r), m0, Exec(p, Init(p, m0), schedule).mem);
  }
}
