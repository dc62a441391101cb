/** From bytes to states: a launch over raw memory has, on the blocks it is read as, exactly the effect of the copies
    that `AlignRun` performs, one request after another. */
module EngineRefinement {
  import opened LaneMachine
  import opened StateCopy
  import opened CopyGrid
  import A = AlignRun
  import P = PostprocessGrid
  import V = Preprocess
  import D = AlignDecision

  /** How the bytes of a temporal block and of one window token are read. */
  datatype Codec<S, T> = Codec(temporal: seq<Byte> -> S, token: seq<Byte> -> T)

  /** The two state tensors of one layer: a temporal and a convolution state, with as many blocks each. */
  predicate Layer(g: Grid, t: nat, c: nat) {
    && t < |g.states| && c < |g.states| && g.states[t].convWidth == 0 && g.states[c].convWidth > 0
    && g.states[t].numBlocks == g.states[c].numBlocks && g.states[t].elem > 0 && g.states[c].elem > 0
  }

  function Temporal<S, T>(g: Grid, d: Codec<S, T>, t: nat, m: Memory, id: nat): S
    requires t < |g.states| && g.states[t].elem > 0
  {
    d.temporal(Block(g.states[t], g.dimFirst, m, id)[0])
  }

  function Window<S, T>(g: Grid, d: Codec<S, T>, c: nat, m: Memory, id: nat): (w: seq<T>)
    requires c < |g.states| && g.states[c].elem > 0
    ensures |w| == Slots(g.states[c])
  {
    Tokens(d, Block(g.states[c], g.dimFirst, m, id))
  }

  function Tokens<S, T>(d: Codec<S, T>, slots: seq<seq<Byte>>): (w: seq<T>)
    ensures |w| == |slots| && forall i | 0 <= i < |slots| :: w[i] == d.token(slots[i])
  {
    seq(|slots|, i requires 0 <= i < |slots| => d.token(slots[i]))
  }

  /** The memory read as blocks. */
  function Read<S, T>(g: Grid, d: Codec<S, T>, t: nat, c: nat, m: Memory): (mem: seq<A.Blk<S, T>>)
    requires Layer(g, t, c)
    ensures |mem| == g.states[t].numBlocks
    ensures forall id | 0 <= id < |mem| :: mem[id] == A.Blk(Temporal(g, d, t, m, id), Window(g, d, c, m, id))
  {
    seq(g.states[t].numBlocks, id requires 0 <= id < g.states[t].numBlocks =>
          A.Blk(Temporal(g, d, t, m, id), Window(g, d, c, m, id)))
  }

  /** What one request asks of the launch. */
  datatype Migration = Keep | Copy(table: seq<nat>, src: nat, dst: nat, bias: nat)

  predicate Fits(g: Grid, t: nat, c: nat, q: Migration)
    requires Layer(g, t, c)
  {
    q.Copy? ==> && q.src + q.bias < |q.table| && q.dst < |q.table| && q.bias <= g.states[c].convWidth
                && forall i | 0 <= i < |q.table| :: q.table[i] < g.states[t].numBlocks
  }

  /** Row `b` of the launch carries the request's copy for both tensors. */
  predicate Carries(g: Grid, pairs: Pairs, t: nat, c: nat, b: nat, q: Migration)
    requires Layer(g, t, c) && Fits(g, t, c, q)
  {
    && (b, t) in pairs && (b, c) in pairs
    && pairs[(b, t)] == (if q.Keep? then NoTask else Task(q.table[q.src + q.bias], q.table[q.dst], q.bias))
    && pairs[(b, c)] == if q.Keep? then NoTask else Task(q.table[q.src], q.table[q.dst], q.bias)
  }

  function Perform<S, T>(g: Grid, t: nat, c: nat, mem: seq<A.Blk<S, T>>, q: Migration): (r: seq<A.Blk<S, T>>)
    requires Layer(g, t, c) && Fits(g, t, c, q) && Sized(g, t, c, mem)
    ensures Sized(g, t, c, r)
  {
    if q.Keep? then mem else A.CopyState(mem, q.table, q.src, q.dst, q.bias)
  }

  predicate Sized<S, T>(g: Grid, t: nat, c: nat, mem: seq<A.Blk<S, T>>)
    requires Layer(g, t, c)
  {
    |mem| == g.states[t].numBlocks && forall id | 0 <= id < |mem| :: |mem[id].window| == g.states[c].convWidth
  }

  /** The copies of the first `n` requests, one after another. */
  function PerformAll<S, T>(g: Grid, t: nat, c: nat, mem: seq<A.Blk<S, T>>, qs: seq<Migration>,
                            n: nat): (r: seq<A.Blk<S, T>>)
    requires Layer(g, t, c) && n <= |qs| && (forall b | 0 <= b < n :: Fits(g, t, c, qs[b])) && Sized(g, t, c, mem)
    ensures Sized(g, t, c, r)
  {
    if n == 0 then mem else Perform(g, t, c, PerformAll(g, t, c, mem, qs, n - 1), qs[n - 1])
  }

  /** Nobody's destination is another request's source or destination. */
  ghost predicate Private(qs: seq<Migration>, b: nat, b': nat)
    requires b < |qs| && b' < |qs|
  {
    qs[b].Copy? && qs[b'].Copy? && qs[b].dst < |qs[b].table| && qs[b'].src + qs[b'].bias < |qs[b'].table| &&
      qs[b'].dst < |qs[b'].table| ==>
      && qs[b].table[qs[b].dst] != qs[b'].table[qs[b'].dst]
      && qs[b].table[qs[b].dst] != qs[b'].table[qs[b'].src]
      && qs[b].table[qs[b].dst] != qs[b'].table[qs[b'].src + qs[b'].bias]
  }

  ghost predicate Targets(q: Migration, id: nat) { q.Copy? && q.dst < |q.table| && q.table[q.dst] == id }

  /** A copy changes its target only, and what it makes of it depends on the blocks it names. */
  lemma PerformLocal<S, T>(g: Grid, t: nat, c: nat, mem: seq<A.Blk<S, T>>, mem': seq<A.Blk<S, T>>, q: Migration,
                           id: nat)
    requires Layer(g, t, c) && Fits(g, t, c, q) && Sized(g, t, c, mem) && Sized(g, t, c, mem') && id < |mem|
    requires Targets(q, id) ==>
               && mem'[q.table[q.src]] == mem[q.table[q.src]]
               && mem'[q.table[q.src + q.bias]] == mem[q.table[q.src + q.bias]]
               && mem'[q.table[q.dst]] == mem[q.table[q.dst]]
    ensures Perform(g, t, c, mem', q)[id] == if Targets(q, id) then Perform(g, t, c, mem, q)[id] else mem'[id]
  {
  }

  lemma {:induction false} PerformAllKeeps<S, T>(g: Grid, t: nat, c: nat, mem: seq<A.Blk<S, T>>, qs: seq<Migration>,
                                                 n: nat, id: nat)
    requires Layer(g, t, c) && n <= |qs| && (forall b | 0 <= b < n :: Fits(g, t, c, qs[b])) && Sized(g, t, c, mem)
    requires id < |mem|
    requires forall b | 0 <= b < n :: !Targets(qs[b], id)
    ensures PerformAll(g, t, c, mem, qs, n)[id] == mem[id]
  {
    if n > 0 {
      PerformAllKeeps(g, t, c, mem, qs, n - 1, id);
      PerformLocal(g, t, c, mem, PerformAll(g, t, c, mem, qs, n - 1), qs[n - 1], id);
    }
  }

  /** The block `x` of request `n`'s copy is nobody's target before. */
  lemma OwnBlockKept<S, T>(g: Grid, t: nat, c: nat, mem: seq<A.Blk<S, T>>, qs: seq<Migration>, n: nat, x: nat)
    requires Layer(g, t, c) && n < |qs| && (forall b | 0 <= b <= n :: Fits(g, t, c, qs[b])) && Sized(g, t, c, mem)
    requires forall b: nat | b < n :: Private(qs, b, n)
    requires qs[n].Copy? && x < |mem| && Fits(g, t, c, qs[n])
    requires x == qs[n].table[qs[n].src] || x == qs[n].table[qs[n].src + qs[n].bias] || x == qs[n].table[qs[n].dst]
    ensures PerformAll(g, t, c, mem, qs, n)[x] == mem[x]
  {
    forall b: nat | b < n ensures !Targets(qs[b], x) { assert Private(qs, b, n); }
    PerformAllKeeps(g, t, c, mem, qs, n, x);
  }

  /** One after another, each copy finds its own blocks as they were at the start. */
  lemma {:induction false} PerformAllHits<S, T>(g: Grid, t: nat, c: nat, mem: seq<A.Blk<S, T>>, qs: seq<Migration>,
                                                n: nat, b: nat, id: nat)
    requires Layer(g, t, c) && n <= |qs| && (forall i | 0 <= i < n :: Fits(g, t, c, qs[i])) && Sized(g, t, c, mem)
    requires forall i: nat, j: nat | i < n && j < n && i != j :: Private(qs, i, j)
    requires b < n && id < |mem| && Targets(qs[b], id)
    ensures PerformAll(g, t, c, mem, qs, n)[id] == Perform(g, t, c, mem, qs[b])[id]
  {
    var q, before := qs[n - 1], PerformAll(g, t, c, mem, qs, n - 1);
    if b == n - 1 {
      OwnBlockKept(g, t, c, mem, qs, b, q.table[q.src]);
      OwnBlockKept(g, t, c, mem, qs, b, q.table[q.src + q.bias]);
      OwnBlockKept(g, t, c, mem, qs, b, q.table[q.dst]);
    } else {
      assert Private(qs, b, n - 1);
      PerformAllHits(g, t, c, mem, qs, n - 1, b, id);
    }
    PerformLocal(g, t, c, mem, before, q, id);
  }

  /** A block that some request targets holds what that request's copy alone makes of it, any other its old contents. */
  lemma PerformAllAt<S, T>(g: Grid, t: nat, c: nat, mem: seq<A.Blk<S, T>>, qs: seq<Migration>, n: nat, id: nat)
    requires Layer(g, t, c) && n <= |qs| && (forall b | 0 <= b < n :: Fits(g, t, c, qs[b])) && Sized(g, t, c, mem)
    requires id < |mem|
    requires forall b: nat, b': nat | b < n && b' < n && b != b' :: Private(qs, b, b')
    ensures (forall b | 0 <= b < n :: !Targets(qs[b], id)) ==> PerformAll(g, t, c, mem, qs, n)[id] == mem[id]
    ensures forall b | 0 <= b < n && Targets(qs[b], id) ::
              PerformAll(g, t, c, mem, qs, n)[id] == Perform(g, t, c, mem, qs[b])[id]
  {
    if forall b | 0 <= b < n :: !Targets(qs[b], id) {
      PerformAllKeeps(g, t, c, mem, qs, n, id);
    }
    forall b | 0 <= b < n && Targets(qs[b], id)
      ensures PerformAll(g, t, c, mem, qs, n)[id] == Perform(g, t, c, mem, qs[b])[id]
    {
      PerformAllHits(g, t, c, mem, qs, n, b, id);
    }
  }

  lemma TemporalRefines<S, T>(g: Grid, d: Codec<S, T>, t: nat, c: nat, pairs: Pairs, m0: Memory, m1: Memory, b: nat,
                              q: Migration)
    requires Layer(g, t, c) && GridOk(g) && CopiesApart(g, pairs) && Copied(GridRegions(g, pairs), m0, m1)
    requires b < g.rows && q.Copy? && Fits(g, t, c, q) && Carries(g, pairs, t, c, b, q)
    ensures Temporal(g, d, t, m1, q.table[q.dst]) == Temporal(g, d, t, m0, q.table[q.src + q.bias])
  {
    GridShiftsBlock(g, pairs, m0, m1, b, t);
  }

  /** A shifted block reads as a shifted window. */
  lemma WindowShifts<S, T>(g: Grid, d: Codec<S, T>, c: nat, m0: Memory, m1: Memory, src: nat, dst: nat, bias: nat)
    requires c < |g.states| && g.states[c].elem > 0 && g.states[c].convWidth > 0 && bias <= g.states[c].convWidth
    requires Block(g.states[c], g.dimFirst, m1, dst) ==
             Shifted(g.states[c], Block(g.states[c], g.dimFirst, m0, src), Block(g.states[c], g.dimFirst, m0, dst),
                     bias)
    ensures var from, to := Window(g, d, c, m0, src), Window(g, d, c, m0, dst);
            Window(g, d, c, m1, dst) == from[bias..] + to[|to| - bias..]
  {
    TokensOfShifted(d, g.states[c], Block(g.states[c], g.dimFirst, m0, src), Block(g.states[c], g.dimFirst, m0, dst),
                    bias);
  }

  lemma WindowRefines<S, T>(g: Grid, d: Codec<S, T>, t: nat, c: nat, pairs: Pairs, m0: Memory, m1: Memory, b: nat,
                            q: Migration)
    requires Layer(g, t, c) && GridOk(g) && CopiesApart(g, pairs) && Copied(GridRegions(g, pairs), m0, m1)
    requires b < g.rows && q.Copy? && Fits(g, t, c, q) && Carries(g, pairs, t, c, b, q)
    ensures var from, to := Window(g, d, c, m0, q.table[q.src]), Window(g, d, c, m0, q.table[q.dst]);
            Window(g, d, c, m1, q.table[q.dst]) == from[q.bias..] + to[|to| - q.bias..]
  {
    GridShiftsBlock(g, pairs, m0, m1, b, c);
    WindowShifts(g, d, c, m0, m1, q.table[q.src], q.table[q.dst], q.bias);
  }

  lemma CopyAt<S, T>(mem: seq<A.Blk<S, T>>, table: seq<nat>, src: nat, dst: nat, bias: nat, blk: A.Blk<S, T>)
    requires src + bias < |table| && dst < |table| && table[src + bias] < |mem| && table[src] < |mem|
    requires table[dst] < |mem|
    requires bias <= |mem[table[src]].window| && bias <= |mem[table[dst]].window|
    requires blk.temporal == mem[table[src + bias]].temporal
    requires var from, to := mem[table[src]].window, mem[table[dst]].window;
             blk.window == from[bias..] + to[|to| - bias..]
    ensures A.CopyState(mem, table, src, dst, bias)[table[dst]] == blk
  {
  }

  /** A destination block of the launch, read as a block, is what the request's copy makes of it. */
  lemma RowRefines<S, T>(g: Grid, d: Codec<S, T>, t: nat, c: nat, pairs: Pairs, m0: Memory, m1: Memory, b: nat,
                         q: Migration)
    requires Layer(g, t, c) && GridOk(g) && CopiesApart(g, pairs) && Copied(GridRegions(g, pairs), m0, m1)
    requires b < g.rows && q.Copy? && Fits(g, t, c, q) && Carries(g, pairs, t, c, b, q)
    ensures Read(g, d, t, c, m1)[q.table[q.dst]] ==
              A.CopyState(Read(g, d, t, c, m0), q.table, q.src, q.dst, q.bias)[q.table[q.dst]]
  {
    TemporalRefines(g, d, t, c, pairs, m0, m1, b, q);
    WindowRefines(g, d, t, c, pairs, m0, m1, b, q);
    CopyAt(Read(g, d, t, c, m0), q.table, q.src, q.dst, q.bias, Read(g, d, t, c, m1)[q.table[q.dst]]);
  }

  lemma TokensOfShifted<S, T>(d: Codec<S, T>, meta: StateMeta, from: seq<seq<Byte>>, to: seq<seq<Byte>>, bias: nat)
    requires |from| == |to| == Slots(meta) && meta.convWidth > 0 && bias <= meta.convWidth
    ensures Tokens(d, Shifted(meta, from, to, bias)) == Tokens(d, from)[bias..] + Tokens(d, to)[|to| - bias..]
  {
  }

  /** No copy of another state of the launch writes into block `id` of the layer's two tensors. */
  ghost predicate Unshared(g: Grid, pairs: Pairs, t: nat, c: nat, id: nat)
    requires Layer(g, t, c)
  {
    forall k: (nat, nat), s: nat | InGrid(g, pairs, k) && pairs[k].Task? && (s == t || s == c) && k.1 != s ::
      PayloadsApart(g, k.1, pairs[k].dst, s, id)
  }

  lemma AllUnshared(g: Grid, pairs: Pairs, t: nat, c: nat, id: nat)
    requires Layer(g, t, c) && StatesApart(g) && CopiesApart(g, pairs) && id < g.states[t].numBlocks
    ensures Unshared(g, pairs, t, c, id)
  {
    forall k: (nat, nat), s: nat | InGrid(g, pairs, k) && pairs[k].Task? && (s == t || s == c) && k.1 != s
      ensures PayloadsApart(g, k.1, pairs[k].dst, s, id)
    {
      assert PairOk(g, k.1, pairs[k]);
    }
  }

  lemma UnwrittenKept<S, T>(g: Grid, d: Codec<S, T>, t: nat, c: nat, pairs: Pairs, m0: Memory, m1: Memory,
                            qs: seq<Migration>, id: nat)
    requires Layer(g, t, c) && GridOk(g) && CopiesApart(g, pairs) && Copied(GridRegions(g, pairs), m0, m1)
    requires |qs| == g.rows && (forall b: nat | b < g.rows :: Fits(g, t, c, qs[b]) && Carries(g, pairs, t, c, b, qs[b]))
    requires id < g.states[t].numBlocks && Unshared(g, pairs, t, c, id)
    requires forall b: nat | b < g.rows :: !Targets(qs[b], id)
    ensures Read(g, d, t, c, m1)[id] == Read(g, d, t, c, m0)[id]
  {
    forall s: nat | s == t || s == c ensures Unwritten(g, pairs, s, id) {
      NotWritten(g, pairs, t, c, qs, s, id);
    }
    GridKeepsBlock(g, pairs, m0, m1, t, id);
    GridKeepsBlock(g, pairs, m0, m1, c, id);
  }

  lemma NotWritten(g: Grid, pairs: Pairs, t: nat, c: nat, qs: seq<Migration>, s: nat, id: nat)
    requires Layer(g, t, c) && (s == t || s == c) && Unshared(g, pairs, t, c, id)
    requires |qs| == g.rows && (forall b: nat | b < g.rows :: Fits(g, t, c, qs[b]) && Carries(g, pairs, t, c, b, qs[b]))
    requires forall b: nat | b < g.rows :: !Targets(qs[b], id)
    ensures Unwritten(g, pairs, s, id)
  {
    forall k: (nat, nat) | InGrid(g, pairs, k) && pairs[k].Task?
      ensures if k.1 == s then pairs[k].dst != id else PayloadsApart(g, k.1, pairs[k].dst, s, id)
    {
      assert Carries(g, pairs, t, c, k.0, qs[k.0]) && !Targets(qs[k.0], id);
    }
  }

  lemma RowsPrivate(g: Grid, t: nat, c: nat, pairs: Pairs, qs: seq<Migration>, b: nat, b': nat)
    requires Layer(g, t, c) && CopiesApart(g, pairs) && |qs| == g.rows && b < g.rows && b' < g.rows && b != b'
    requires forall i: nat | i < g.rows :: Fits(g, t, c, qs[i]) && Carries(g, pairs, t, c, i, qs[i])
    ensures Private(qs, b, b')
  {
    assert Carries(g, pairs, t, c, b, qs[b]) && Carries(g, pairs, t, c, b', qs[b']);
    assert InGrid(g, pairs, (b, t)) && InGrid(g, pairs, (b', t)) && InGrid(g, pairs, (b, c)) &&
           InGrid(g, pairs, (b', c));
    assert TasksApart(g, t, pairs[(b, t)], t, pairs[(b', t)]) && TasksApart(g, c, pairs[(b, c)], c, pairs[(b', c)]);
  }

  /** `mem` reads like `mem0` after the requests' copies, one after another, in every block that no other state of
      the launch shares; in all blocks if the states keep apart. */
  ghost predicate Performed<S, T>(g: Grid, pairs: Pairs, t: nat, c: nat, qs: seq<Migration>,
                                  mem0: seq<A.Blk<S, T>>, mem: seq<A.Blk<S, T>>)
    requires Layer(g, t, c) && |qs| == g.rows && (forall b | 0 <= b < |qs| :: Fits(g, t, c, qs[b]))
    requires Sized(g, t, c, mem0) && Sized(g, t, c, mem)
  {
    && (forall id: nat | id < |mem| && Unshared(g, pairs, t, c, id) ::
          mem[id] == PerformAll(g, t, c, mem0, qs, g.rows)[id])
    && (StatesApart(g) ==> mem == PerformAll(g, t, c, mem0, qs, g.rows))
  }

  /** Main result. Any complete schedule of the launch's programs, tiles and lanes leaves a memory that reads exactly
      like performing the requests' state copies one after another on the blocks read before the launch. */
  lemma LaunchRefinesCopies<S, T>(g: Grid, d: Codec<S, T>, t: nat, c: nat, pairs: Pairs, tasks: map<Prog, Task>,
                                  qs: seq<Migration>,
                                  m0: Memory, schedule: seq<GLane>)
    requires Layer(g, t, c) && GridOk(g) && CopiesApart(g, pairs) && Agree(g, pairs, tasks)
    requires |qs| == g.rows && (forall b: nat | b < g.rows :: Fits(g, t, c, qs[b]) && Carries(g, pairs, t, c, b, qs[b]))
    requires var p := GridProgram(g, tasks); Done(p, Exec(p, Init(p, m0), schedule))
    ensures Sized(g, t, c, Read(g, d, t, c, m0))
    ensures var p := GridProgram(g, tasks);
            Performed(g, pairs, t, c, qs, Read(g, d, t, c, m0), Read(g, d, t, c, Exec(p, Init(p, m0), schedule).mem))
  {
    var p := GridProgram(g, tasks);
    var m1 := Exec(p, Init(p, m0), schedule).mem;
    GridAnySchedule(g, pairs, tasks, m0, schedule);
    CopiesRefine(g, d, t, c, pairs, qs, m0, m1);
  }

  lemma CopiesRefine<S, T>(g: Grid, d: Codec<S, T>, t: nat, c: nat, pairs: Pairs, qs: seq<Migration>, m0: Memory,
                           m1: Memory)
    requires Layer(g, t, c) && GridOk(g) && CopiesApart(g, pairs) && Copied(GridRegions(g, pairs), m0, m1)
    requires |qs| == g.rows && (forall b: nat | b < g.rows :: Fits(g, t, c, qs[b]) && Carries(g, pairs, t, c, b, qs[b]))
    ensures Sized(g, t, c, Read(g, d, t, c, m0))
    ensures Performed(g, pairs, t, c, qs, Read(g, d, t, c, m0), Read(g, d, t, c, m1))
  {
    var mem, mem' := Read(g, d, t, c, m0), Read(g, d, t, c, m1);
    forall b: nat, b': nat | b < g.rows && b' < g.rows && b != b' ensures Private(qs, b, b') {
      RowsPrivate(g, t, c, pairs, qs, b, b');
    }
    forall id: nat | id < |mem| && Unshared(g, pairs, t, c, id)
      ensures mem'[id] == PerformAll(g, t, c, mem, qs, g.rows)[id]
    {
      PerformAllAt(g, t, c, mem, qs, g.rows, id);
      if b: nat :| b < g.rows && Targets(qs[b], id) {
        RowRefines(g, d, t, c, pairs, m0, m1, b, qs[b]);
      } else {
        UnwrittenKept(g, d, t, c, pairs, m0, m1, qs, id);
      }
    }
    if StatesApart(g) {
      forall id: nat | id < |mem| { AllUnshared(g, pairs, t, c, id); }
    }
  }

  // ---------------------------------------------------------------- the postprocess launch

  /** Both tensors of the layer use the table of their row, and its ids are valid. */
  predicate Tables(g: P.Launch, t: nat, c: nat, tables: seq<seq<nat>>)
    requires P.LaunchOk(g) && Layer(g.grid, t, c)
  {
    && |tables| == g.grid.rows
    && forall b: nat | b < |tables| :: g.tables[t][b] == tables[b] && g.tables[c][b] == tables[b]
                                       && forall i | 0 <= i < |tables[b]| :: tables[b][i] < g.grid.states[t].numBlocks
  }

  /** What a decision asks for. */
  function AskedBy(post: D.Post, column: int, table: seq<nat>): Migration {
    if post.NoCopy? || !post.copies || post.bias < 0 || column < 0 || post.dest < 0 then Keep
    else Copy(table, column, post.dest, post.bias)
  }

  function Asked(g: P.Launch, counts: seq<int>, table: seq<nat>, b: nat): Migration
    requires P.LaunchOk(g) && |counts| == |g.column| && b < g.grid.rows
  {
    if g.slots[b] < 0 then Keep else AskedBy(P.Decide(g, b, counts[g.slots[b]]), g.column[g.slots[b]], table)
  }

  /** The program's task for one tensor is the copy that the decision asks for. */
  lemma TaskAsked(g: P.Launch, b: nat, s: nat, post: D.Post, table: seq<nat>)
    requires P.LaunchOk(g) && b < g.grid.rows && s < |g.grid.states| && g.slots[b] >= 0 && P.ReadableRow(g, b, s, post)
    requires g.tables[s][b] == table && forall i | 0 <= i < |table| :: table[i] < g.grid.states[s].numBlocks
    ensures var q := AskedBy(post, g.column[g.slots[b]], table);
            && (q.Copy? ==> q.src + q.bias < |q.table| && q.dst < |q.table|)
            && P.TaskFor(g, b, s, 0, post) == if q.Keep? then NoTask
                 else Task(q.table[if g.grid.states[s].convWidth > 0 then q.src else q.src + q.bias], q.table[q.dst],
                           q.bias)
  {
  }

  /** The launch's task for row `b` and state `s`, from the row's decision. */
  lemma PairIs(g: P.Launch, counts: seq<int>, b: nat, s: nat)
    requires P.LaunchOk(g) && |counts| == |g.column| && b < g.grid.rows && s < |g.grid.states|
    ensures var pairs := P.PairsOf(g, counts);
            (b, s) in pairs && pairs[(b, s)] == if g.slots[b] < 0 then NoTask
                                                else P.TaskFor(g, b, s, 0, P.Decide(g, b, counts[g.slots[b]]))
  {
    var pairs := P.PairsOf(g, counts);
    assert (b, s) in pairs && pairs[(b, s)] == P.TaskOf(g, Prog(b, s, 0), counts);
  }

  lemma CarriedByPost(g: P.Launch, pairs: Pairs, t: nat, c: nat, tables: seq<seq<nat>>, b: nat, post: D.Post)
    requires P.LaunchOk(g) && Layer(g.grid, t, c) && Tables(g, t, c, tables) && b < g.grid.rows && g.slots[b] >= 0
    requires P.ReadableRow(g, b, t, post) && P.ReadableRow(g, b, c, post)
    requires (b, t) in pairs && pairs[(b, t)] == P.TaskFor(g, b, t, 0, post) && (b, c) in pairs
    requires pairs[(b, c)] == P.TaskFor(g, b, c, 0, post)
    requires pairs[(b, c)].Task? ==> pairs[(b, c)].bias <= g.grid.states[c].convWidth
    ensures var q := AskedBy(post, g.column[g.slots[b]], tables[b]);
            Fits(g.grid, t, c, q) && Carries(g.grid, pairs, t, c, b, q)
  {
    TaskAsked(g, b, t, post, tables[b]);
    TaskAsked(g, b, c, post, tables[b]);
  }

  lemma AskedIsCarried(g: P.Launch, counts: seq<int>, t: nat, c: nat, tables: seq<seq<nat>>, b: nat)
    requires P.LaunchOk(g) && |counts| == |g.column| && P.AllReadable(g, counts)
    requires CopiesApart(g.grid, P.PairsOf(g, counts))
    requires Layer(g.grid, t, c) && Tables(g, t, c, tables) && b < g.grid.rows
    ensures Fits(g.grid, t, c, Asked(g, counts, tables[b], b))
    ensures Carries(g.grid, P.PairsOf(g, counts), t, c, b, Asked(g, counts, tables[b], b))
  {
    PairIs(g, counts, b, t);
    PairIs(g, counts, b, c);
    if g.slots[b] >= 0 {
      BiasFits(g.grid, P.PairsOf(g, counts), b, c);
      CarriedByPost(g, P.PairsOf(g, counts), t, c, tables, b, P.Decide(g, b, counts[g.slots[b]]));
    }
  }

  lemma BiasFits(g: Grid, pairs: Pairs, b: nat, c: nat)
    requires CopiesApart(g, pairs) && b < g.rows && c < |g.states| && (b, c) in pairs && g.states[c].convWidth > 0
    ensures pairs[(b, c)].Task? ==> pairs[(b, c)].bias <= g.states[c].convWidth
  {
    if pairs[(b, c)].Task? { assert InGrid(g, pairs, (b, c)) && PairOk(g, c, pairs[(b, c)]); }
  }

  /** Every interleaving of the postprocess launch has, on the blocks, exactly the effect of the saves its decisions ask
      for, one request after another. */
  lemma PostprocessRefines<S, T>(g: P.Launch, d: Codec<S, T>, t: nat, c: nat, counts: seq<int>, tables: seq<seq<nat>>,
                                 m0: Memory, events: seq<P.Event>)
    requires P.LaunchOk(g) && |counts| == |g.column| && P.AllReadable(g, counts)
    requires CopiesApart(g.grid, P.PairsOf(g, counts))
    requires Layer(g.grid, t, c) && Tables(g, t, c, tables)
    requires P.Complete(g, P.Run(g, P.Some(counts), P.Launched(g, counts, m0), events))
    ensures var qs := seq(g.grid.rows, b requires 0 <= b < g.grid.rows => Asked(g, counts, tables[b], b));
            && (forall b | 0 <= b < g.grid.rows :: Fits(g.grid, t, c, qs[b]))
            && Sized(g.grid, t, c, Read(g.grid, d, t, c, m0))
            && Performed(g.grid, P.PairsOf(g, counts), t, c, qs, Read(g.grid, d, t, c, m0),
                         Read(g.grid, d, t, c, P.Run(g, P.Some(counts), P.Launched(g, counts, m0), events).lanes.mem))
  {
    P.AnyOrderSameResult(g, counts, m0, events);
    forall b: nat | b < g.grid.rows { AskedIsCarried(g, counts, t, c, tables, b); }
    var qs := seq(g.grid.rows, b requires 0 <= b < g.grid.rows => Asked(g, counts, tables[b], b));
    CopiesRefine(g.grid, d, t, c, P.PairsOf(g, counts), qs, m0,
                 P.Run(g, P.Some(counts), P.Launched(g, counts, m0), events).lanes.mem);
  }

  // ---------------------------------------------------------------- the copy launch of the preparation

  function AskedByMove(move: V.Move, table: seq<nat>): Migration {
    if move.Stay? || move.src < 0 || move.src == move.dst || move.dst < 0 || move.bias < 0 then Keep
    else Copy(table, move.src, move.dst, move.bias)
  }

  /** Both tensors of the layer use the row's table, and its ids are valid. */
  predicate MoveTables(g: Grid, t: nat, c: nat, tables: V.Tables, moves: seq<V.Move>, own: seq<seq<nat>>)
    requires Layer(g, t, c)
  {
    && |tables| == |g.states| && g.rows == |moves| == |own| && V.AllReadable(tables, moves)
    && forall i: nat | i < |moves| ::
         && i < |tables[t]| && i < |tables[c]| && tables[t][i] == own[i] && tables[c][i] == own[i]
         && forall k | 0 <= k < |own[i]| :: own[i][k] < g.states[t].numBlocks
  }

  lemma MoveIsCarried(g: Grid, t: nat, c: nat, tables: V.Tables, moves: seq<V.Move>, own: seq<seq<nat>>, b: nat)
    requires Layer(g, t, c) && MoveTables(g, t, c, tables, moves, own)
    requires CopiesApart(g, V.MovePairs(g.states, tables, moves)) && b < g.rows
    ensures Fits(g, t, c, AskedByMove(moves[b], own[b]))
    ensures Carries(g, V.MovePairs(g.states, tables, moves), t, c, b, AskedByMove(moves[b], own[b]))
  {
    var pairs := V.MovePairs(g.states, tables, moves);
    assert V.MoveReadable(tables, b, moves[b]);
    assert (b, t) in pairs && (b, c) in pairs;
    assert pairs[(b, t)] == V.PairOf(g.states, tables, moves, b, t) &&
           pairs[(b, c)] == V.PairOf(g.states, tables, moves, b, c);
    BiasFits(g, pairs, b, c);
  }

  function MovesAsked(moves: seq<V.Move>, own: seq<seq<nat>>): (qs: seq<Migration>)
    requires |moves| == |own|
    ensures |qs| == |moves| && forall b | 0 <= b < |qs| :: qs[b] == AskedByMove(moves[b], own[b])
  {
    seq(|moves|, b requires 0 <= b < |moves| => AskedByMove(moves[b], own[b]))
  }

  /** `m1` reads like `m0` after the rows' migrations. */
  ghost predicate Migrated<S, T>(g: Grid, d: Codec<S, T>, t: nat, c: nat, tables: V.Tables, moves: seq<V.Move>,
                                 own: seq<seq<nat>>, m0: Memory, m1: Memory)
    requires Layer(g, t, c) && MoveTables(g, t, c, tables, moves, own)
  {
    var qs := MovesAsked(moves, own);
    && (forall b | 0 <= b < |qs| :: Fits(g, t, c, qs[b])) && Sized(g, t, c, Read(g, d, t, c, m0))
    && Performed(g, V.MovePairs(g.states, tables, moves), t, c, qs, Read(g, d, t, c, m0), Read(g, d, t, c, m1))
  }

  /** Every schedule of the preparation's copy launch, on arrays in which each row finds its move, has exactly the
      effect of the rows' migrations. */
  lemma PrecopyRefines<S, T>(g: Grid, d: Codec<S, T>, t: nat, c: nat, tables: V.Tables, moves: seq<V.Move>,
                             own: seq<seq<nat>>,
                             a: V.Precopy, m0: Memory, schedule: seq<GLane>, m1: Memory)
    requires Layer(g, t, c) && MoveTables(g, t, c, tables, moves, own) && GridOk(g)
    requires CopiesApart(g, V.MovePairs(g.states, tables, moves))
    requires V.LaunchFine(g, tables, a) && forall i: nat | i < |moves| :: V.FindsMove(a, i, moves[i])
    requires V.Leaves(GridProgram(g, V.PrecopyTasks(g, tables, a)), m0, schedule, m1)
    ensures Migrated(g, d, t, c, tables, moves, own, m0, m1)
  {
    V.LaunchAgrees(g, tables, moves, a);
    var qs := MovesAsked(moves, own);
    forall b: nat | b < g.rows
      ensures Fits(g, t, c, qs[b]) && Carries(g, V.MovePairs(g.states, tables, moves), t, c, b, qs[b])
    {
      MoveIsCarried(g, t, c, tables, moves, own, b);
    }
    LaunchRefinesCopies(g, d, t, c, V.MovePairs(g.states, tables, moves), V.PrecopyTasks(g, tables, a), qs, m0,
                        schedule);
  }

  /** So the launch on the runner's staging arrays performs the migrations. */
  lemma StagedPrecopyRefines<S, T>(g: Grid, d: Codec<S, T>, t: nat, c: nat, tables: V.Tables, own: seq<seq<nat>>,
                                   fused: V.Runner, b: V.Batch, m0: Memory, schedule: seq<GLane>, m1: Memory)
    requires V.BatchOk(b) && V.TablesFine(g, tables) && GridOk(g) && fused.Valid()
    requires forall id | id in b.columns :: b.columns[id] >= -1
    requires Layer(g, t, c) && MoveTables(g, t, c, tables, V.MovesOf(b), own)
    requires CopiesApart(g, V.MovePairs(g.states, tables, V.MovesOf(b)))
    requires fused.Prepared(b, |b.rows|, true, g.states, tables)
    requires V.Leaves(GridProgram(g, V.PrecopyTasks(g, tables, fused.OnDevice(|b.rows|))), m0, schedule, m1)
    ensures Migrated(g, d, t, c, tables, V.MovesOf(b), own, m0, m1)
  {
    forall i: nat | i < |b.rows| ensures V.FindsMove(fused.OnDevice(|b.rows|), i, V.MovesOf(b)[i]) {
      V.StagedFinds(fused, b, g.states, tables, i);
    }
    PrecopyRefines(g, d, t, c, tables, V.MovesOf(b), own, fused.OnDevice(|b.rows|), m0, schedule, m1);
  }

  /** And so does the one on the slot kernel's arrays. */
  lemma SlotPrecopyRefines<S, T>(g: Grid, d: Codec<S, T>, t: nat, c: nat, tables: V.Tables, own: seq<seq<nat>>,
                                 slots: V.SlotState, b: V.Batch, v: V.SlotBatch, m0: Memory, schedule: seq<GLane>,
                                   m1: Memory)
    requires V.SameStart(b, v) && V.TablesFine(g, tables) && GridOk(g)
    requires Layer(g, t, c) && MoveTables(g, t, c, tables, V.MovesOf(b), own)
    requires CopiesApart(g, V.MovePairs(g.states, tables, V.MovesOf(b)))
    requires slots.Handled(v, |v.mapping|)
    requires V.Leaves(GridProgram(g, V.PrecopyTasks(g, tables, slots.OnDevice(v.mapping))), m0, schedule, m1)
    ensures Migrated(g, d, t, c, tables, V.MovesOf(b), own, m0, m1)
  {
    forall i: nat | i < |b.rows| ensures V.FindsMove(slots.OnDevice(v.mapping), i, V.MovesOf(b)[i]) {
      V.SlotFinds(slots, b, v, i);
    }
    PrecopyRefines(g, d, t, c, tables, V.MovesOf(b), own, slots.OnDevice(v.mapping), m0, schedule, m1);
  }
}
