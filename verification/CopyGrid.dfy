/** A launch of the state copy over a grid of (batch row, state, tile) programs, all running at once. */
module CopyGrid {
  import opened LaneMachine
  import opened TiledCopy
  import opened ConvShift
  import opened StateCopy

  /** `universe` bounds the lanes of one program. */
  datatype Grid = Grid(rows: nat, states: seq<StateMeta>, dimFirst: bool, tiles: nat, vector: nat, universe: set<Lane>)

  datatype Prog = Prog(row: nat, state: nat, tile: nat)

  datatype GLane = GLane(prog: Prog, lane: Lane)

  /** What a program copies: nothing, or block `src` to block `dst` with a bias. */
  datatype Task = NoTask | Task(src: int, dst: int, bias: nat)

  predicate IsProg(g: Grid, p: Prog) { p.row < g.rows && p.state < |g.states| && p.tile < g.tiles }

  function Progs(g: Grid): set<Prog> {
    set b: nat, s: nat, t: nat | b < g.rows && s < |g.states| && t < g.tiles :: Prog(b, s, t)
  }

  lemma ProgsAre(g: Grid, p: Prog)
    ensures p in Progs(g) <==> IsProg(g, p)
  {
    assert p == Prog(p.row, p.state, p.tile);
  }

  ghost predicate GridOk(g: Grid) {
    g.tiles > 0 && g.vector > 0 && forall s | 0 <= s < |g.states| :: MetaOk(g.states[s], g.dimFirst)
  }

  /** What the device function does with a (source column, destination column, bias) request in one tile. */
  function TileTask(meta: StateMeta, table: seq<int>, srcCol: int, dstCol: int, bias: nat, tile: nat): Task
    requires Readable(table, srcCol, dstCol, bias)
  {
    if TileOutcome(meta, table, srcCol, dstCol, bias, tile) == Runs then
      Task(table[SourceCol(meta, srcCol, bias)], table[dstCol], bias)
    else NoTask
  }

  /** Does tile `tile` move lane `l`? Only temporal copies are split. */
  function Owns(g: Grid, meta: StateMeta, task: Task, tile: nat, l: Lane): bool
    requires g.tiles > 0 && g.vector > 0 && task.Task?
  {
    if meta.convWidth > 0 then tile == 0
    else
      var lay := LayoutOf(BlockAddr(meta, task.src), BlockAddr(meta, task.dst), TokenBytes(meta));
      TileOf(lay, l, g.tiles, g.vector) == tile
  }

  function LaneAccess(g: Grid, p: Prog, task: Task, l: Lane, n: nat): Access
    requires g.tiles > 0 && g.vector > 0 && p.state < |g.states|
  {
    var meta := g.states[p.state];
    if task.Task? && Owns(g, meta, task, p.tile, l) then
      CopyProgram(meta, g.dimFirst, task.src, task.dst, task.bias).op(l, n)
    else Access(0, 0, 0)
  }

  function LaneSteps(g: Grid, p: Prog, task: Task, l: Lane): nat
    requires g.tiles > 0 && g.vector > 0 && p.state < |g.states|
  {
    var meta := g.states[p.state];
    if task.Task? && Owns(g, meta, task, p.tile, l) &&
      l in CopyProgram(meta, g.dimFirst, task.src, task.dst, task.bias).lanes
    then CopyProgram(meta, g.dimFirst, task.src, task.dst, task.bias).steps(l) else 0
  }

  function Lanes(g: Grid): set<GLane> {
    set p, l | p in Progs(g) && l in g.universe :: GLane(p, l)
  }

  /** The lanes of the whole launch, when program `p` has the task `tasks[p]`. */
  function GridProgram(g: Grid, tasks: map<Prog, Task>): Program<GLane>
    requires g.tiles > 0 && g.vector > 0
  {
    Program(Lanes(g),
            (x: GLane) =>
              if IsProg(g, x.prog) && x.prog in tasks then LaneSteps(g, x.prog, tasks[x.prog], x.lane) else 0,
            (x: GLane, n: nat) =>
              if IsProg(g, x.prog) && x.prog in tasks then LaneAccess(g, x.prog, tasks[x.prog], x.lane, n)
              else Access(0, 0, 0),
            (x: GLane, y: GLane) => false)
  }

  // ---------------------------------------------------------------- what keeps the copies apart

  /** The copy of each (row, state) pair; its convolution copies sit in tile 0. */
  type Pairs = map<(nat, nat), Task>

  ghost predicate Agree(g: Grid, pairs: Pairs, tasks: map<Prog, Task>) {
    && (forall p | p in tasks :: IsProg(g, p))
    && (forall p | IsProg(g, p) :: AgreeAt(g, pairs, tasks, p))
  }

  predicate AgreeAt(g: Grid, pairs: Pairs, tasks: map<Prog, Task>, p: Prog)
    requires IsProg(g, p)
  {
    && p in tasks && (p.row, p.state) in pairs
    && tasks[p] == if g.states[p.state].convWidth > 0 && p.tile > 0 then NoTask else pairs[(p.row, p.state)]
  }

  /** The pair is one of the launch's, and it is in the map. */
  predicate InGrid(g: Grid, pairs: Pairs, k: (nat, nat)) { k in pairs && k.0 < g.rows && k.1 < |g.states| }

  /** Blocks lie in their pools, biases fit the windows, and the block one copy writes is no other copy's block. */
  ghost predicate CopiesApart(g: Grid, pairs: Pairs) {
    && (forall k | InGrid(g, pairs, k) && pairs[k].Task? :: PairOk(g, k.1, pairs[k]))
    && (forall k, k' | InGrid(g, pairs, k) && InGrid(g, pairs, k') && k != k' ::
          TasksApart(g, k.1, pairs[k], k'.1, pairs[k']))
  }

  /** The payload of the block that `t` writes meets no payload of `u`. Of one state these are the payloads of
      different blocks; different states may share pages, and even their blocks if their rows use different ones. */
  predicate TasksApart(g: Grid, s: nat, t: Task, s': nat, u: Task)
    requires s < |g.states| && s' < |g.states|
  {
    t.Task? && u.Task? ==>
      if s == s' then t.dst != u.dst && t.dst != u.src
      else PayloadsApart(g, s, t.dst, s', u.dst) && PayloadsApart(g, s, t.dst, s', u.src)
  }

  predicate PayloadsApart(g: Grid, s: nat, id: int, s': nat, id': int)
    requires s < |g.states| && s' < |g.states|
  {
    var a, b := g.states[s], g.states[s'];
    Apart(BlockAddr(a, id), Payload(a, g.dimFirst), BlockAddr(b, id'), Payload(b, g.dimFirst))
  }

  ghost predicate PairOk(g: Grid, s: nat, task: Task)
    requires s < |g.states| && task.Task?
  {
    CopyOk(g.states[s], g.dimFirst, task.src, task.dst, task.bias)
    && CopyProgram(g.states[s], g.dimFirst, task.src, task.dst, task.bias).lanes <= g.universe
  }

  function PairRegions(g: Grid, s: nat, task: Task): set<Region>
    requires s < |g.states|
  {
    if task.Task? then CopyRegions(g.states[s], g.dimFirst, task.src, task.dst, task.bias) else {}
  }

  /** The regions of all copies of the launch. */
  function GridRegions(g: Grid, pairs: Pairs): set<Region> {
    set k, r | k in pairs && InGrid(g, pairs, k) && r in PairRegions(g, k.1, pairs[k]) :: r
  }

  /** Two states laid out in the same pages, at offsets `o` and `o'`: their blocks keep apart if they are in different
      pages or do not meet inside a page. */
  lemma PagesApart(g: Grid, page: int, s: nat, o: nat, id: int, s': nat, o': nat, id': int)
    requires s < |g.states| && s' < |g.states| && g.states[s].stride == g.states[s'].stride
    requires g.states[s].base == page + o && g.states[s'].base == page + o'
    requires o + Payload(g.states[s], g.dimFirst) <= g.states[s].stride
    requires o' + Payload(g.states[s'], g.dimFirst) <= g.states[s'].stride
    requires id != id' || Apart(o, Payload(g.states[s], g.dimFirst), o', Payload(g.states[s'], g.dimFirst))
    ensures PayloadsApart(g, s, id, s', id')
  {
    if id < id' {
      Scale(id, id', g.states[s].stride);
    } else if id' < id {
      Scale(id', id, g.states[s].stride);
    }
  }

  /** All blocks of different states keep apart, as those of one layer do in the pages they share. */
  ghost predicate StatesApart(g: Grid) {
    forall s: nat, s': nat, id, id' | s < |g.states| && s' < |g.states| && s != s'
                                      && InPool(g.states[s], id) && InPool(g.states[s'], id') ::
      PayloadsApart(g, s, id, s', id')
  }

  /** States that are views into the same pages, `offsets` bytes into each, keep apart if they do inside one page. */
  lemma ViewsApart(g: Grid, page: int, stride: nat, offsets: seq<nat>)
    requires |offsets| == |g.states|
    requires forall s: nat | s < |g.states| :: InPages(g, page, stride, offsets, s)
    requires forall s: nat, s': nat | s < |g.states| && s' < |g.states| && s != s' ::
               Apart(offsets[s], Payload(g.states[s], g.dimFirst), offsets[s'], Payload(g.states[s'], g.dimFirst))
    ensures StatesApart(g)
  {
    forall s: nat, s': nat, id, id' | s < |g.states| && s' < |g.states| && s != s'
                                      && InPool(g.states[s], id) && InPool(g.states[s'], id')
      ensures PayloadsApart(g, s, id, s', id')
    {
      assert InPages(g, page, stride, offsets, s) && InPages(g, page, stride, offsets, s');
      PagesApart(g, page, s, offsets[s], id, s', offsets[s'], id');
    }
  }

  predicate InPages(g: Grid, page: int, stride: nat, offsets: seq<nat>, s: nat)
    requires s < |g.states| == |offsets|
  {
    && g.states[s].stride == stride && g.states[s].base == page + offsets[s]
    && offsets[s] + Payload(g.states[s], g.dimFirst) <= stride
  }

  /** Then it is enough to look at the block ids of each state. */
  lemma ApartById(g: Grid, pairs: Pairs)
    requires StatesApart(g)
    requires forall k | InGrid(g, pairs, k) && pairs[k].Task? :: PairOk(g, k.1, pairs[k])
    requires forall k, k' | InGrid(g, pairs, k) && InGrid(g, pairs, k') && k != k' && k.1 == k'.1 ::
               TasksApart(g, k.1, pairs[k], k'.1, pairs[k'])
    ensures CopiesApart(g, pairs)
  {
    forall k, k' | InGrid(g, pairs, k) && InGrid(g, pairs, k') && k != k'
      ensures TasksApart(g, k.1, pairs[k], k'.1, pairs[k'])
    {
      assert pairs[k].Task? ==> PairOk(g, k.1, pairs[k]);
      assert pairs[k'].Task? ==> PairOk(g, k'.1, pairs[k']);
    }
  }

  /** Accesses of the copies of different pairs never meet. */
  lemma TasksNeverMeet(g: Grid, pairs: Pairs, k: (nat, nat), k': (nat, nat), l: Lane, n: nat, l': Lane, n': nat)
    requires GridOk(g) && CopiesApart(g, pairs) && InGrid(g, pairs, k) && InGrid(g, pairs, k') && k != k'
    requires pairs[k].Task? && pairs[k'].Task?
    requires var t := pairs[k];
             var c := CopyProgram(g.states[k.1], g.dimFirst, t.src, t.dst, t.bias);
             Issued(c, l, n) && c.op(l, n).width > 0
    requires var t := pairs[k'];
             var c := CopyProgram(g.states[k'.1], g.dimFirst, t.src, t.dst, t.bias);
             Issued(c, l', n') && c.op(l', n').width > 0
    ensures var a := CopyProgram(g.states[k.1], g.dimFirst, pairs[k].src, pairs[k].dst, pairs[k].bias).op(l, n);
            var b := CopyProgram(g.states[k'.1], g.dimFirst, pairs[k'].src, pairs[k'].dst, pairs[k'].bias).op(l', n');
            Apart(a.dst, a.width, b.dst, b.width) && Apart(a.src, a.width, b.dst, b.width)
  {
    var t, u := pairs[k], pairs[k'];
    var mp, mq := g.states[k.1], g.states[k'.1];
    assert PairOk(g, k.1, t) && PairOk(g, k'.1, u) && TasksApart(g, k'.1, u, k.1, t);
    AccessInPayloads(mp, g.dimFirst, t.src, t.dst, t.bias, l, n);
    AccessInPayloads(mq, g.dimFirst, u.src, u.dst, u.bias, l', n');
    if k.1 == k'.1 {
      BlocksApart(mp, t.dst, u.dst);
      BlocksApart(mp, t.src, u.dst);
    }
  }

  // ---------------------------------------------------------------- the launch as one program

  /** An access of the launch that moves bytes is an access of its pair's copy, in the tile that owns the lane. */
  lemma GridAccess(g: Grid, pairs: Pairs, tasks: map<Prog, Task>, x: GLane, n: nat)
    requires GridOk(g) && Agree(g, pairs, tasks) && Issued(GridProgram(g, tasks), x, n)
    requires GridProgram(g, tasks).op(x, n).width > 0
    ensures IsProg(g, x.prog)
    ensures var t := pairs[(x.prog.row, x.prog.state)];
            && t.Task? && Owns(g, g.states[x.prog.state], t, x.prog.tile, x.lane)
            && var c := CopyProgram(g.states[x.prog.state], g.dimFirst, t.src, t.dst, t.bias);
               Issued(c, x.lane, n) && GridProgram(g, tasks).op(x, n) == c.op(x.lane, n)
  {
  }

  lemma GridPair(g: Grid, pairs: Pairs, tasks: map<Prog, Task>, x: GLane, n: nat, y: GLane, m: nat)
    requires GridOk(g) && Agree(g, pairs, tasks) && CopiesApart(g, pairs)
    requires var p := GridProgram(g, tasks);
             Issued(p, x, n) && Issued(p, y, m) && p.op(x, n).width > 0 && p.op(y, m).width > 0
    requires (x, n) != (y, m)
    ensures var p := GridProgram(g, tasks);
            var a, b := p.op(x, n), p.op(y, m);
            Apart(a.dst, a.width, b.dst, b.width) && (Apart(a.src, a.width, b.dst, b.width) || (x == y && n < m))
  {
    GridAccess(g, pairs, tasks, x, n);
    GridAccess(g, pairs, tasks, y, m);
    var k, k' := (x.prog.row, x.prog.state), (y.prog.row, y.prog.state);
    if k == k' {
      var t, meta := pairs[k], g.states[x.prog.state];
      assert InGrid(g, pairs, k) && PairOk(g, x.prog.state, t);
      CopyNonInterfering(meta, g.dimFirst, t.src, t.dst, t.bias);
      if x.lane == y.lane {
        assert x.prog.tile == y.prog.tile;
        assert x.prog == y.prog;
      }
      var c := CopyProgram(meta, g.dimFirst, t.src, t.dst, t.bias);
      assert (x.lane, n) != (y.lane, m);
      assert !c.waits(y.lane, x.lane);
    } else {
      TasksNeverMeet(g, pairs, k, k', x.lane, n, y.lane, m);
    }
  }

  lemma GridNonInterfering(g: Grid, pairs: Pairs, tasks: map<Prog, Task>)
    requires GridOk(g) && Agree(g, pairs, tasks) && CopiesApart(g, pairs)
    ensures NonInterfering(GridProgram(g, tasks))
  {
    var p := GridProgram(g, tasks);
    forall x, n: nat, y, m: nat | Issued(p, x, n) && Issued(p, y, m) && (x, n) != (y, m)
      ensures Apart(p.op(x, n).dst, p.op(x, n).width, p.op(y, m).dst, p.op(y, m).width)
      ensures Apart(p.op(x, n).src, p.op(x, n).width, p.op(y, m).dst, p.op(y, m).width) || (x == y && n < m)
    {
      if p.op(x, n).width > 0 && p.op(y, m).width > 0 {
        GridPair(g, pairs, tasks, x, n, y, m);
      }
    }
  }

  lemma OwnerTile(g: Grid, meta: StateMeta, task: Task, l: Lane) returns (tile: nat)
    requires g.tiles > 0 && g.vector > 0 && task.Task?
    ensures tile < g.tiles && Owns(g, meta, task, tile, l) && (meta.convWidth > 0 ==> tile == 0)
  {
    if meta.convWidth > 0 { tile := 0; }
    else {
      var lay := LayoutOf(BlockAddr(meta, task.src), BlockAddr(meta, task.dst), TokenBytes(meta));
      OwnerIsTile(lay, l, g.tiles, g.vector);
      tile := TileOf(lay, l, g.tiles, g.vector);
    }
  }

  lemma AccessRegion(g: Grid, pairs: Pairs, tasks: map<Prog, Task>, x: GLane, n: nat) returns (r: Region)
    requires GridOk(g) && Agree(g, pairs, tasks) && CopiesApart(g, pairs)
    requires var p := GridProgram(g, tasks); Issued(p, x, n) && p.op(x, n).width > 0
    ensures r in GridRegions(g, pairs) && PartOf(GridProgram(g, tasks), x, n, r)
  {
    GridAccess(g, pairs, tasks, x, n);
    var k := (x.prog.row, x.prog.state);
    var t, meta := pairs[k], g.states[x.prog.state];
    assert InGrid(g, pairs, k) && PairOk(g, x.prog.state, t);
    CopyImplements(meta, g.dimFirst, t.src, t.dst, t.bias);
    var c := CopyProgram(meta, g.dimFirst, t.src, t.dst, t.bias);
    assert InSomeRegion(c, CopyRegions(meta, g.dimFirst, t.src, t.dst, t.bias), x.lane, n);
    r :| r in CopyRegions(meta, g.dimFirst, t.src, t.dst, t.bias) && PartOf(c, x.lane, n, r);
    assert r in PairRegions(g, k.1, pairs[k]);
  }

  /** The tile that owns a lane of a pair's copy issues that lane's accesses. */
  lemma PairAccess(g: Grid, pairs: Pairs, tasks: map<Prog, Task>, k: (nat, nat), l: Lane, n: nat) returns (x: GLane)
    requires GridOk(g) && Agree(g, pairs, tasks) && CopiesApart(g, pairs)
    requires InGrid(g, pairs, k) && pairs[k].Task?
    requires var t := pairs[k]; Issued(CopyProgram(g.states[k.1], g.dimFirst, t.src, t.dst, t.bias), l, n)
    ensures var t, p := pairs[k], GridProgram(g, tasks);
            Issued(p, x, n) && p.op(x, n) == CopyProgram(g.states[k.1], g.dimFirst, t.src, t.dst, t.bias).op(l, n)
  {
    var t := pairs[k];
    assert PairOk(g, k.1, t);
    var tile := OwnerTile(g, g.states[k.1], t, l);
    x := GLane(Prog(k.0, k.1, tile), l);
    ProgsAre(g, x.prog);
    assert x in Lanes(g);
  }

  lemma RegionByte(g: Grid, pairs: Pairs, tasks: map<Prog, Task>, k: (nat, nat), r: Region, a: int)
    returns (x: GLane, n: nat)
    requires GridOk(g) && Agree(g, pairs, tasks) && CopiesApart(g, pairs)
    requires InGrid(g, pairs, k) && r in PairRegions(g, k.1, pairs[k]) && Within(a, r.dst, r.size)
    ensures var p := GridProgram(g, tasks); Writes(p, x, n, a) && PartOf(p, x, n, r)
  {
    var t := pairs[k];
    assert PairOk(g, k.1, t);
    var c := CopyProgram(g.states[k.1], g.dimFirst, t.src, t.dst, t.bias);
    CopyImplements(g.states[k.1], g.dimFirst, t.src, t.dst, t.bias);
    var l: Lane;
    assert CoveredIn(c, r, a);
    l, n :| Writes(c, l, n, a) && PartOf(c, l, n, r);
    x := PairAccess(g, pairs, tasks, k, l, n);
  }

  lemma GridImplements(g: Grid, pairs: Pairs, tasks: map<Prog, Task>)
    requires GridOk(g) && Agree(g, pairs, tasks) && CopiesApart(g, pairs)
    ensures Implements(GridProgram(g, tasks), GridRegions(g, pairs))
  {
    var p := GridProgram(g, tasks);
    forall x, n: nat | Issued(p, x, n) && p.op(x, n).width > 0
      ensures InSomeRegion(p, GridRegions(g, pairs), x, n)
    {
      var r := AccessRegion(g, pairs, tasks, x, n);
    }
    forall r, a | r in GridRegions(g, pairs) && Within(a, r.dst, r.size)
      ensures CoveredIn(p, r, a)
    {
      var k :| InGrid(g, pairs, k) && r in PairRegions(g, k.1, pairs[k]);
      var x, n := RegionByte(g, pairs, tasks, k, r, a);
    }
  }

  /** Every complete schedule of all lanes of all programs performs all copies on the original contents. */
  lemma GridAnySchedule(g: Grid, pairs: Pairs, tasks: map<Prog, Task>, m0: Memory, schedule: seq<GLane>)
    requires GridOk(g) && Agree(g, pairs, tasks) && CopiesApart(g, pairs)
    requires var p := GridProgram(g, tasks); Done(p, Exec(p, Init(p, m0), schedule))
    ensures var p := GridProgram(g, tasks); Copied(GridRegions(g, pairs), m0, Exec(p, Init(p, m0), schedule).mem)
  {
    var p := GridProgram(g, tasks);
    GridNonInterfering(g, pairs, tasks);
    AnyScheduleMoves(p, m0, schedule);
    GridImplements(g, pairs, tasks);
    MovedIsCopied(p, GridRegions(g, pairs), m0, Exec(p, Init(p, m0), schedule).mem);
  }

  // ---------------------------------------------------------------- what the blocks hold afterwards

  /** A payload byte lies in no region of a copy that goes to a block apart from it or that keeps the byte's slot. */
  lemma ByteOutside(g: Grid, pairs: Pairs, k: (nat, nat), r: Region, s: nat, id: int, t: nat, j: nat)
    requires GridOk(g) && CopiesApart(g, pairs)
    requires InGrid(g, pairs, k) && r in PairRegions(g, k.1, pairs[k])
    requires s < |g.states| && t < Slots(g.states[s]) && j < SlotBytes(g.states[s], g.dimFirst)
    requires if k.1 == s then
               pairs[k].dst != id || (g.states[s].convWidth > 0 && t + pairs[k].bias >= g.states[s].convWidth)
             else PayloadsApart(g, k.1, pairs[k].dst, s, id)
    ensures !Within(ByteAddr(g.states[s], g.dimFirst, id, t, j), r.dst, r.size)
  {
    var task, meta := pairs[k], g.states[k.1];
    assert PairOk(g, k.1, task);
    if k.1 == s {
      KeptByte(meta, g.dimFirst, task.src, task.dst, task.bias, id, t, j, r);
    } else {
      RegionsInPayloads(meta, g.dimFirst, task.src, task.dst, task.bias, r);
      SlotByteInPayload(g.states[s], g.dimFirst, t, j);
    }
  }

  /** No copy of the launch writes to block `id` of state `s`. */
  ghost predicate Unwritten(g: Grid, pairs: Pairs, s: nat, id: int)
    requires s < |g.states|
  {
    forall k | InGrid(g, pairs, k) && pairs[k].Task? ::
      if k.1 == s then pairs[k].dst != id else PayloadsApart(g, k.1, pairs[k].dst, s, id)
  }

  /** A block that no copy writes to is untouched. */
  lemma GridKeepsBlock(g: Grid, pairs: Pairs, m0: Memory, m1: Memory, s: nat, id: int)
    requires GridOk(g) && CopiesApart(g, pairs) && Copied(GridRegions(g, pairs), m0, m1)
    requires s < |g.states| && Unwritten(g, pairs, s, id)
    ensures Block(g.states[s], g.dimFirst, m1, id) == Block(g.states[s], g.dimFirst, m0, id)
  {
    var meta := g.states[s];
    forall t: nat, j: nat | t < Slots(meta) && j < SlotBytes(meta, g.dimFirst)
      ensures m1(ByteAddr(meta, g.dimFirst, id, t, j)) == m0(ByteAddr(meta, g.dimFirst, id, t, j))
    {
      forall r | r in GridRegions(g, pairs) ensures !Within(ByteAddr(meta, g.dimFirst, id, t, j), r.dst, r.size) {
        var k :| InGrid(g, pairs, k) && r in PairRegions(g, k.1, pairs[k]);
        ByteOutside(g, pairs, k, r, s, id, t, j);
      }
    }
    forall t: nat | t < Slots(meta) ensures Slot(meta, g.dimFirst, m1, id, t) == Slot(meta, g.dimFirst, m0, id, t) {
    }
  }

  lemma PairIsOk(g: Grid, pairs: Pairs, b: nat, s: nat)
    requires GridOk(g) && CopiesApart(g, pairs) && b < g.rows && s < |g.states| && (b, s) in pairs
    requires pairs[(b, s)].Task?
    ensures g.states[s].elem > 0 && (g.states[s].convWidth > 0 ==> pairs[(b, s)].bias <= g.states[s].convWidth)
  {
    assert InGrid(g, pairs, (b, s)) && PairOk(g, s, pairs[(b, s)]);
  }

  /** A destination block holds the shifted source block, whatever else the launch copies. */
  lemma GridShiftsBlock(g: Grid, pairs: Pairs, m0: Memory, m1: Memory, b: nat, s: nat)
    requires GridOk(g) && CopiesApart(g, pairs) && Copied(GridRegions(g, pairs), m0, m1)
    requires b < g.rows && s < |g.states| && (b, s) in pairs && pairs[(b, s)].Task?
    ensures g.states[s].elem > 0 && (g.states[s].convWidth > 0 ==> pairs[(b, s)].bias <= g.states[s].convWidth)
    ensures var t := pairs[(b, s)];
            Block(g.states[s], g.dimFirst, m1, t.dst) ==
            Shifted(g.states[s], Block(g.states[s], g.dimFirst, m0, t.src), Block(g.states[s], g.dimFirst, m0, t.dst),
                    t.bias)
  {
    PairIsOk(g, pairs, b, s);
    var task := pairs[(b, s)];
    forall t: nat | t < Slots(g.states[s])
      ensures SlotMoved(g.states[s], g.dimFirst, m0, m1, task.src, task.dst, task.bias, t)
    {
      GridSlot(g, pairs, m0, m1, b, s, t);
    }
    BlockFromSlots(g.states[s], g.dimFirst, m0, m1, task.src, task.dst, task.bias);
  }

  lemma GridSlot(g: Grid, pairs: Pairs, m0: Memory, m1: Memory, b: nat, s: nat, t: nat)
    requires GridOk(g) && CopiesApart(g, pairs) && Copied(GridRegions(g, pairs), m0, m1)
    requires b < g.rows && s < |g.states| && (b, s) in pairs && pairs[(b, s)].Task? && t < Slots(g.states[s])
    ensures var task := pairs[(b, s)];
            g.states[s].elem > 0 && SlotMoved(g.states[s], g.dimFirst, m0, m1, task.src, task.dst, task.bias, t)
  {
    forall j: nat | j < SlotBytes(g.states[s], g.dimFirst) { GridByte(g, pairs, m0, m1, b, s, t, j); }
  }

  lemma GridByte(g: Grid, pairs: Pairs, m0: Memory, m1: Memory, b: nat, s: nat, t: nat, j: nat)
    requires GridOk(g) && CopiesApart(g, pairs) && Copied(GridRegions(g, pairs), m0, m1)
    requires b < g.rows && s < |g.states| && (b, s) in pairs && pairs[(b, s)].Task?
    requires t < Slots(g.states[s]) && j < SlotBytes(g.states[s], g.dimFirst)
    ensures var meta, task := g.states[s], pairs[(b, s)];
            m1(ByteAddr(meta, g.dimFirst, task.dst, t, j)) ==
            if meta.convWidth > 0 && t + task.bias >= meta.convWidth then m0(ByteAddr(meta, g.dimFirst, task.dst, t, j))
            else m0(ByteAddr(meta, g.dimFirst, task.src, if meta.convWidth > 0 then t + task.bias else 0, j))
  {
    var meta, task := g.states[s], pairs[(b, s)];
    assert InGrid(g, pairs, (b, s)) && PairOk(g, s, task);
    if meta.convWidth > 0 && t + task.bias >= meta.convWidth {
      forall r | r in GridRegions(g, pairs) ensures !Within(ByteAddr(meta, g.dimFirst, task.dst, t, j), r.dst, r.size) {
        var k :| InGrid(g, pairs, k) && r in PairRegions(g, k.1, pairs[k]);
            assert k != (b, s) ==> TasksApart(g, k.1, pairs[k], s, task);
        ByteOutside(g, pairs, k, r, s, task.dst, t, j);
      }
    } else {
      var r := RewrittenByte(meta, g.dimFirst, task.src, task.dst, task.bias, t, j);
      assert r in PairRegions(g, s, task) && InGrid(g, pairs, (b, s));
      assert r in GridRegions(g, pairs);
    }
  }
}
