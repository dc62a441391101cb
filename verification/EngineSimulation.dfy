/** A batch of steps of the state engine and the launch staged for it: whatever run has led to the batch, the launch
    meets the conditions of its theorems and leaves, over bytes, what the steps leave. */
module EngineSimulation {
  import opened LaneMachine
  import opened StateCopy
  import opened CopyGrid
  import opened EngineRefinement
  import A = AlignRun
  import D = AlignDecision
  import P = PostprocessGrid
  import V = Preprocess

  // ---------------------------------------------------------------- the states of one group

  /** Every lane that a copy can have is launched. */
  ghost predicate LanesFit(g: Grid) {
    forall s: nat, src: int, dst: int, bias: nat | s < |g.states| && CopyOk(g.states[s], g.dimFirst, src, dst, bias) ::
      CopyProgram(g.states[s], g.dimFirst, src, dst, bias).lanes <= g.universe
  }

  /** All states have the group's blocks, apart from each other, and windows with room for the drafts. */
  ghost predicate OneGroup(g: Grid, blocks: nat, spec: nat) {
    && GridOk(g) && StatesApart(g) && LanesFit(g)
    && forall s | 0 <= s < |g.states| ::
         g.states[s].numBlocks == blocks && (g.states[s].convWidth > 0 ==> spec <= g.states[s].convWidth)
  }

  /** The request's copy finds its columns, with valid ids and a bias of at most `spec`. */
  predicate InGroup(q: Migration, blocks: nat, spec: nat) {
    q.Copy? ==> && q.src + q.bias < |q.table| && q.dst < |q.table| && q.bias <= spec
                && forall i | 0 <= i < |q.table| :: q.table[i] < blocks
  }

  function TaskFrom(meta: StateMeta, q: Migration, blocks: nat, spec: nat): Task
    requires InGroup(q, blocks, spec)
  {
    if q.Keep? then NoTask else Task(q.table[SourceCol(meta, q.src, q.bias)], q.table[q.dst], q.bias)
  }

  /** Row `b` of the launch carries the request's copy for every state. */
  ghost predicate CarriesAll(g: Grid, pairs: Pairs, b: nat, q: Migration, blocks: nat, spec: nat)
    requires InGroup(q, blocks, spec)
  {
    forall s: nat | s < |g.states| :: (b, s) in pairs && pairs[(b, s)] == TaskFrom(g.states[s], q, blocks, spec)
  }

  /** The batch's requests, their copies, and the launch that carries them. */
  ghost predicate Batched(g: Grid, pairs: Pairs, qs: seq<Migration>, blocks: nat, spec: nat) {
    && OneGroup(g, blocks, spec) && |qs| == g.rows
    && (forall b: nat | b < |qs| :: InGroup(qs[b], blocks, spec) && CarriesAll(g, pairs, b, qs[b], blocks, spec))
    && forall b: nat, b': nat | b < |qs| && b' < |qs| && b != b' :: Private(qs, b, b')
  }

  lemma RowOk(g: Grid, pairs: Pairs, qs: seq<Migration>, blocks: nat, spec: nat, k: (nat, nat))
    requires Batched(g, pairs, qs, blocks, spec) && InGrid(g, pairs, k) && pairs[k].Task?
    ensures PairOk(g, k.1, pairs[k])
  {
    assert CarriesAll(g, pairs, k.0, qs[k.0], blocks, spec) && MetaOk(g.states[k.1], g.dimFirst);
  }

  lemma RowsApart(g: Grid, pairs: Pairs, qs: seq<Migration>, blocks: nat, spec: nat, k: (nat, nat), k': (nat, nat))
    requires Batched(g, pairs, qs, blocks, spec) && InGrid(g, pairs, k) && InGrid(g, pairs, k') && k != k'
    requires k.1 == k'.1
    ensures TasksApart(g, k.1, pairs[k], k'.1, pairs[k'])
  {
    assert CarriesAll(g, pairs, k.0, qs[k.0], blocks, spec) && CarriesAll(g, pairs, k'.0, qs[k'.0], blocks, spec);
    assert Private(qs, k.0, k'.0);
  }

  lemma BatchApart(g: Grid, pairs: Pairs, qs: seq<Migration>, blocks: nat, spec: nat)
    requires Batched(g, pairs, qs, blocks, spec)
    ensures CopiesApart(g, pairs)
  {
    forall k | InGrid(g, pairs, k) && pairs[k].Task? ensures PairOk(g, k.1, pairs[k]) {
      RowOk(g, pairs, qs, blocks, spec, k);
    }
    forall k, k' | InGrid(g, pairs, k) && InGrid(g, pairs, k') && k != k' && k.1 == k'.1
      ensures TasksApart(g, k.1, pairs[k], k'.1, pairs[k'])
    {
      RowsApart(g, pairs, qs, blocks, spec, k, k');
    }
    ApartById(g, pairs);
  }

  lemma RowCarried(g: Grid, t: nat, c: nat, pairs: Pairs, b: nat, q: Migration, blocks: nat, spec: nat)
    requires Layer(g, t, c) && OneGroup(g, blocks, spec) && InGroup(q, blocks, spec)
    requires CarriesAll(g, pairs, b, q, blocks, spec)
    ensures Fits(g, t, c, q) && Carries(g, pairs, t, c, b, q)
  {
    assert g.states[t].numBlocks == blocks && g.states[c].convWidth >= spec;
    assert (b, t) in pairs && (b, c) in pairs;
  }

  lemma GroupFits(g: Grid, t: nat, c: nat, q: Migration, blocks: nat, spec: nat)
    requires Layer(g, t, c) && OneGroup(g, blocks, spec) && InGroup(q, blocks, spec)
    ensures Fits(g, t, c, q)
  {
    assert g.states[t].numBlocks == blocks && g.states[c].convWidth >= spec;
  }

  /** The batch's launch performs the requests' copies, one after another. */
  lemma BatchRefines<S, T>(g: Grid, d: Codec<S, T>, t: nat, c: nat, pairs: Pairs, qs: seq<Migration>, blocks: nat,
                           spec: nat,
                           m0: Memory, m1: Memory)
    requires Layer(g, t, c) && Batched(g, pairs, qs, blocks, spec) && Copied(GridRegions(g, pairs), m0, m1)
    ensures (forall b | 0 <= b < g.rows :: Fits(g, t, c, qs[b])) && Sized(g, t, c, Read(g, d, t, c, m0))
    ensures Read(g, d, t, c, m1) == PerformAll(g, t, c, Read(g, d, t, c, m0), qs, g.rows)
  {
    BatchApart(g, pairs, qs, blocks, spec);
    forall b: nat | b < g.rows ensures Fits(g, t, c, qs[b]) && Carries(g, pairs, t, c, b, qs[b]) {
      RowCarried(g, t, c, pairs, b, qs[b], blocks, spec);
    }
    CopiesRefine(g, d, t, c, pairs, qs, m0, m1);
  }

  // ---------------------------------------------------------------- steps of different requests, one after another

  ghost predicate InTurn<S, T(!new)>(m: A.Model<S, T>, tr: seq<A.Sys<S, T>>, evs: seq<A.Event<T>>)
    requires m.blockSize > 0
  {
    && |tr| == |evs| + 1 && (forall k | 0 <= k < |evs| :: A.Next(m, tr[k], evs[k], tr[k + 1]))
    && (forall k | 0 <= k < |evs| :: evs[k].DoPrepare? || evs[k].DoAccept?)
    && forall k, l | 0 <= k < l < |evs| :: evs[k].r != evs[l].r
  }

  lemma {:induction false} InvInTurn<S, T(!new)>(m: A.Model<S, T>, tr: seq<A.Sys<S, T>>, evs: seq<A.Event<T>>, k: nat)
    requires A.ModelOk(m) && InTurn(m, tr, evs) && k <= |evs| && A.Inv(m, tr[0])
    ensures A.Inv(m, tr[k])
  {
    if k > 0 {
      InvInTurn(m, tr, evs, k - 1);
      A.NextKeepsInv(m, tr[k - 1], evs[k - 1], tr[k]);
    }
  }

  /** A step changes the record of its own request only. */
  lemma StepOne<S, T(!new)>(m: A.Model<S, T>, s: A.Sys<S, T>, s': A.Sys<S, T>, e: A.Event<T>)
    requires m.blockSize > 0 && (e.DoPrepare? || e.DoAccept?) && A.Next(m, s, e, s')
    ensures e.r in s.reqs && s'.reqs.Keys == s.reqs.Keys
    ensures forall r | r in s.reqs && r != e.r :: s'.reqs[r] == s.reqs[r]
  {
  }

  lemma {:induction false} OthersWait<S, T(!new)>(m: A.Model<S, T>, tr: seq<A.Sys<S, T>>, evs: seq<A.Event<T>>, a: nat,
                                                  b: nat, r: nat)
    requires m.blockSize > 0 && InTurn(m, tr, evs) && a <= b <= |evs|
    requires forall k | a <= k < b :: evs[k].r != r
    ensures r in tr[b].reqs <==> r in tr[a].reqs
    ensures r in tr[a].reqs ==> tr[b].reqs[r] == tr[a].reqs[r]
  {
    if a < b {
      OthersWait(m, tr, evs, a, b - 1, r);
      StepOne(m, tr[b - 1], tr[b], evs[b - 1]);
    }
  }

  /** Each request is found as it was before the batch. */
  lemma KnownAtStart<S, T(!new)>(m: A.Model<S, T>, tr: seq<A.Sys<S, T>>, evs: seq<A.Event<T>>, k: nat)
    requires m.blockSize > 0 && InTurn(m, tr, evs) && k < |evs|
    ensures evs[k].r in tr[0].reqs && evs[k].r in tr[k].reqs && tr[k].reqs[evs[k].r] == tr[0].reqs[evs[k].r]
  {
    StepOne(m, tr[k], tr[k + 1], evs[k]);
    OthersWait(m, tr, evs, 0, k, evs[k].r);
  }

  /** And left as its own step leaves it. */
  lemma KnownAtEnd<S, T(!new)>(m: A.Model<S, T>, tr: seq<A.Sys<S, T>>, evs: seq<A.Event<T>>, k: nat)
    requires m.blockSize > 0 && InTurn(m, tr, evs) && k < |evs|
    ensures var n := |evs|;
            evs[k].r in tr[n].reqs && evs[k].r in tr[k + 1].reqs && tr[n].reqs[evs[k].r] == tr[k + 1].reqs[evs[k].r]
  {
    StepOne(m, tr[k], tr[k + 1], evs[k]);
    OthersWait(m, tr, evs, k + 1, |evs|, evs[k].r);
  }

  lemma FreshApart<S, T(!new)>(s: A.Sys<S, T>, r: nat, table: seq<nat>, c: nat, r': nat, q': Migration)
    requires c < |table| && A.Fresh(s, r, table, c) && r' in s.reqs && r' != r
    requires q'.Copy? ==> q'.table == s.reqs[r'].table
    ensures q'.Copy? ==> forall x | 0 <= x < |q'.table| :: q'.table[x] != table[c]
  {
  }

  /** One step does to the memory what the request's copy does. */
  ghost predicate Steps<S, T>(g: Grid, t: nat, c: nat, mem: seq<A.Blk<S, T>>, mem': seq<A.Blk<S, T>>, q: Migration) {
    Layer(g, t, c) && Fits(g, t, c, q) && Sized(g, t, c, mem) && mem' == Perform(g, t, c, mem, q)
  }

  /** The steps' memories are those of the copies, one after another. */
  lemma {:induction false} StepsPerform<S, T(!new)>(tr: seq<A.Sys<S, T>>, qs: seq<Migration>, g: Grid, t: nat, c: nat,
                                                    n: nat)
    requires Layer(g, t, c) && |tr| == |qs| + 1 && n <= |qs| && Sized(g, t, c, tr[0].mem)
    requires forall k | 0 <= k < |qs| :: Steps(g, t, c, tr[k].mem, tr[k + 1].mem, qs[k])
    ensures (forall b | 0 <= b < n :: Fits(g, t, c, qs[b])) && tr[n].mem == PerformAll(g, t, c, tr[0].mem, qs, n)
  {
    if n > 0 {
      StepsPerform(tr, qs, g, t, c, n - 1);
      assert Steps(g, t, c, tr[n - 1].mem, tr[n].mem, qs[n - 1]);
    }
  }

  /** The copy of a group's request is a step on every memory of the group's size. */
  lemma CopySteps<S, T>(m: A.Model<S, T>, g: Grid, t: nat, c: nat, mem: seq<A.Blk<S, T>>, mem': seq<A.Blk<S, T>>,
                        q: Migration)
    requires Layer(g, t, c) && OneGroup(g, |mem|, m.spec) && g.states[c].convWidth == m.width && A.MemOk(m, mem)
    requires InGroup(q, |mem|, m.spec) && (q.Copy? ==> A.CanCopy(mem, q.table, q.src, q.dst, q.bias))
    requires mem' == if q.Keep? then mem else A.CopyState(mem, q.table, q.src, q.dst, q.bias)
    ensures Steps(g, t, c, mem, mem', q)
  {
    GroupFits(g, t, c, q, |mem|, m.spec);
    assert g.states[t].numBlocks == |mem|;
  }

  // ---------------------------------------------------------------- a batch of preparations

  ghost predicate PreparesInTurn<S, T(!new)>(m: A.Model<S, T>, tr: seq<A.Sys<S, T>>, evs: seq<A.Event<T>>)
    requires m.blockSize > 0
  {
    InTurn(m, tr, evs) && forall k | 0 <= k < |evs| :: evs[k].DoPrepare?
  }

  lemma PrepareOne<S, T(!new)>(m: A.Model<S, T>, s: A.Sys<S, T>, s': A.Sys<S, T>, e: A.Event<T>)
    requires m.blockSize > 0 && e.DoPrepare? && A.Next(m, s, e, s')
    ensures e.r in s.reqs && s.reqs[e.r].phase.Idle? && e.r in s'.reqs
    ensures A.Prepares(m, s.mem, s'.mem, s.reqs[e.r], s'.reqs[e.r], e.known, e.drafts, e.table)
    ensures A.TableOk(s.mem, e.table)
  {
  }

  /** The move that the preparation of `q` decides on. */
  function RowMove<S, T>(m: A.Model<S, T>, q: A.Req<T>, e: A.Event<T>): V.Move
    requires m.blockSize > 0 && e.DoPrepare?
  {
    V.MoveOf(A.CurrentColumn(q, m.blockSize), D.RunningColumn(|q.done|, |e.known| + |e.drafts|, m.spec, m.blockSize),
             q.accepted)
  }

  /** What one preparation does to the memory is the copy of its move. */
  lemma PrepareIsMove<S, T>(m: A.Model<S, T>, mem: seq<A.Blk<S, T>>, mem': seq<A.Blk<S, T>>, q: A.Req<T>, q': A.Req<T>,
                            e: A.Event<T>)
    requires A.ModelOk(m) && A.MemOk(m, mem) && e.DoPrepare? && q.phase.Idle? && A.TableOk(mem, e.table)
    requires A.Prepares(m, mem, mem', q, q', e.known, e.drafts, e.table) && A.AtRest(m, mem, q)
    ensures var move, ask := RowMove(m, q, e), AskedByMove(RowMove(m, q, e), e.table);
            && InGroup(ask, |mem|, m.spec)
            && (move.Move? <==> ask.Copy?)
            && (ask.Copy? ==> 0 <= ask.src && A.CanCopy(mem, e.table, ask.src, ask.dst, ask.bias))
            && mem' == (if ask.Keep? then mem else A.CopyState(mem, e.table, ask.src, ask.dst, ask.bias))
            && (ask.Copy? ==> q'.column == A.Some(ask.dst))
  {
    if q.done == [] {
      D.SeedOfHit(0, m.blockSize);
    }
  }

  /** What is asked for row `k`, and that its own step performs it. */
  lemma PrepareAsks<S, T(!new)>(m: A.Model<S, T>, tr: seq<A.Sys<S, T>>, evs: seq<A.Event<T>>, k: nat)
    requires A.ModelOk(m) && PreparesInTurn(m, tr, evs) && A.Inv(m, tr[0]) && k < |evs|
    ensures evs[k].r in tr[0].reqs
    ensures var move := RowMove(m, tr[0].reqs[evs[k].r], evs[k]);
            var ask := AskedByMove(move, evs[k].table);
            && InGroup(ask, |tr[k].mem|, m.spec) && (move.Move? <==> ask.Copy?)
            && (ask.Copy? ==> 0 <= ask.src && A.CanCopy(tr[k].mem, evs[k].table, ask.src, ask.dst, ask.bias))
            && tr[k + 1].mem == (if ask.Keep? then tr[k].mem
                                 else A.CopyState(tr[k].mem, evs[k].table, ask.src, ask.dst, ask.bias))
            && (ask.Copy? ==> tr[k + 1].reqs[evs[k].r].column == A.Some(ask.dst))
  {
    InvInTurn(m, tr, evs, k);
    KnownAtStart(m, tr, evs, k);
    PrepareOne(m, tr[k], tr[k + 1], evs[k]);
    var q := tr[k].reqs[evs[k].r];
    assert A.ReqHolds(m, tr[k].mem, q);
    PrepareIsMove(m, tr[k].mem, tr[k + 1].mem, q, tr[k + 1].reqs[evs[k].r], evs[k]);
  }

  /** The copies asked for, row by row. */
  ghost predicate Asks<S, T(!new)>(m: A.Model<S, T>, s: A.Sys<S, T>, evs: seq<A.Event<T>>, qs: seq<Migration>)
    requires m.blockSize > 0
  {
    && |qs| == |evs| && (forall k | 0 <= k < |evs| :: evs[k].DoPrepare? && evs[k].r in s.reqs)
    && forall k | 0 <= k < |evs| :: qs[k] == AskedByMove(RowMove(m, s.reqs[evs[k].r], evs[k]), evs[k].table)
  }

  /** The running column of a prepared request has a block of its own. */
  lemma RunningBlock<S, T(!new)>(m: A.Model<S, T>, s: A.Sys<S, T>, r: nat)
    requires A.ModelOk(m) && A.Private(m, s) && r in s.reqs && s.reqs[r].phase.Prepared?
    requires A.MidStep(m, s.mem, s.reqs[r])
    ensures var q := s.reqs[r]; 0 <= q.column.value < |q.table| && A.Fresh(s, r, q.table, q.column.value)
  {
    var q := s.reqs[r];
    A.ColumnOpen(m.blockSize, |q.done|, |q.phase.known|, |q.phase.drafts|, m.spec, 0);
  }

  /** After the batch no other request's table holds the block of row `k`'s running column. */
  lemma DestinationPrivate<S, T(!new)>(m: A.Model<S, T>, tr: seq<A.Sys<S, T>>, evs: seq<A.Event<T>>, k: nat)
    requires A.ModelOk(m) && PreparesInTurn(m, tr, evs) && A.Inv(m, tr[0]) && k < |evs|
    ensures var s := tr[|evs|];
            && evs[k].r in s.reqs && s.reqs[evs[k].r].column.Some? && s.reqs[evs[k].r].table == evs[k].table
            && var c := s.reqs[evs[k].r].column.value; 0 <= c < |evs[k].table| && A.Fresh(s, evs[k].r, evs[k].table, c)
  {
    var s := tr[|evs|];
    PrepareOne(m, tr[k], tr[k + 1], evs[k]);
    KnownAtEnd(m, tr, evs, k);
    InvInTurn(m, tr, evs, |evs|);
    assert A.ReqHolds(m, s.mem, s.reqs[evs[k].r]);
    RunningBlock(m, s, evs[k].r);
  }

  lemma TableAtEnd<S, T(!new)>(m: A.Model<S, T>, tr: seq<A.Sys<S, T>>, evs: seq<A.Event<T>>, k: nat)
    requires m.blockSize > 0 && PreparesInTurn(m, tr, evs) && k < |evs|
    ensures evs[k].r in tr[|evs|].reqs && tr[|evs|].reqs[evs[k].r].table == evs[k].table
  {
    PrepareOne(m, tr[k], tr[k + 1], evs[k]);
    KnownAtEnd(m, tr, evs, k);
  }

  lemma TargetPrivate<S, T(!new)>(m: A.Model<S, T>, tr: seq<A.Sys<S, T>>, evs: seq<A.Event<T>>, qs: seq<Migration>,
                                  b: nat)
    requires A.ModelOk(m) && PreparesInTurn(m, tr, evs) && A.Inv(m, tr[0]) && Asks(m, tr[0], evs, qs)
    requires b < |qs| && qs[b].Copy?
    ensures qs[b].table == evs[b].table && qs[b].dst < |qs[b].table|
    ensures A.Fresh(tr[|evs|], evs[b].r, qs[b].table, qs[b].dst)
  {
    DestinationPrivate(m, tr, evs, b);
    PrepareAsks(m, tr, evs, b);
    KnownAtEnd(m, tr, evs, b);
  }

  /** Privacy of open columns keeps the batch's copies apart. */
  lemma PreparesPrivate<S, T(!new)>(m: A.Model<S, T>, tr: seq<A.Sys<S, T>>, evs: seq<A.Event<T>>, qs: seq<Migration>,
                                    b: nat, b': nat)
    requires A.ModelOk(m) && PreparesInTurn(m, tr, evs) && A.Inv(m, tr[0]) && Asks(m, tr[0], evs, qs)
    requires b < |qs| && b' < |qs| && b != b'
    ensures Private(qs, b, b')
  {
    if qs[b].Copy? {
      TargetPrivate(m, tr, evs, qs, b);
      TableAtEnd(m, tr, evs, b');
      FreshApart(tr[|evs|], evs[b].r, qs[b].table, qs[b].dst, evs[b'].r, qs[b']);
    }
  }

  /** The tables of the launch are the rows', for every state. */
  ghost predicate SharedTables(g: Grid, tables: V.Tables, own: seq<seq<nat>>) {
    && V.TablesFine(g, tables) && |own| == g.rows
    && forall s: nat, b: nat | s < |tables| && b < |own| :: b < |tables[s]| && tables[s][b] == own[b]
  }

  lemma MoveFound(g: Grid, tables: V.Tables, own: seq<seq<nat>>, b: nat, move: V.Move, blocks: nat, spec: nat)
    requires SharedTables(g, tables, own) && b < g.rows && InGroup(AskedByMove(move, own[b]), blocks, spec)
    requires move.Move? <==> AskedByMove(move, own[b]).Copy?
    ensures V.MoveReadable(tables, b, move)
  {
    if move.Move? {
      forall s | 0 <= s < |tables| ensures b < |tables[s]| && Readable(tables[s][b], move.src, move.dst, move.bias) {
        assert tables[s][b] == own[b];
      }
    }
  }

  lemma MovesCarried(g: Grid, tables: V.Tables, own: seq<seq<nat>>, moves: seq<V.Move>, b: nat, q: Migration,
                     blocks: nat, spec: nat)
    requires SharedTables(g, tables, own) && |moves| == g.rows && V.AllReadable(tables, moves)
    requires OneGroup(g, blocks, spec)
    requires b < g.rows && q == AskedByMove(moves[b], own[b]) && InGroup(q, blocks, spec)
    requires moves[b].Move? <==> q.Copy?
    ensures CarriesAll(g, V.MovePairs(g.states, tables, moves), b, q, blocks, spec)
  {
    var pairs := V.MovePairs(g.states, tables, moves);
    forall s: nat | s < |g.states| ensures (b, s) in pairs && pairs[(b, s)] == TaskFrom(g.states[s], q, blocks, spec) {
      assert (b, s) in pairs && pairs[(b, s)] == V.PairOf(g.states, tables, moves, b, s);
      assert tables[s][b] == own[b] && g.states[s].numBlocks == blocks;
      assert V.MoveReadable(tables, b, moves[b]);
    }
  }

  /** The arrays and tables of the copy launch, staged for the batch. */
  ghost predicate StagedMoves<S, T(!new)>(m: A.Model<S, T>, s: A.Sys<S, T>, evs: seq<A.Event<T>>, g: Grid,
                                          tables: V.Tables, a: V.Precopy)
    requires m.blockSize > 0
  {
    && V.LaunchFine(g, tables, a) && g.rows == |evs|
    && (forall k | 0 <= k < |evs| :: evs[k].DoPrepare? && evs[k].r in s.reqs)
    && forall k: nat | k < |evs| ::
         && V.FindsMove(a, k, RowMove(m, s.reqs[evs[k].r], evs[k]))
         && forall s | 0 <= s < |tables| :: tables[s][k] == evs[k].table
  }

  function Moves<S, T>(m: A.Model<S, T>, s: A.Sys<S, T>, evs: seq<A.Event<T>>): (moves: seq<V.Move>)
    requires m.blockSize > 0 && forall k | 0 <= k < |evs| :: evs[k].DoPrepare? && evs[k].r in s.reqs
    ensures |moves| == |evs| && forall k | 0 <= k < |evs| :: moves[k] == RowMove(m, s.reqs[evs[k].r], evs[k])
  {
    seq(|evs|, k requires 0 <= k < |evs| => RowMove(m, s.reqs[evs[k].r], evs[k]))
  }

  function Owned<T>(evs: seq<A.Event<T>>): (own: seq<seq<nat>>)
    requires forall k | 0 <= k < |evs| :: evs[k].DoPrepare?
    ensures |own| == |evs| && forall k | 0 <= k < |evs| :: own[k] == evs[k].table
  {
    seq(|evs|, k requires 0 <= k < |evs| => evs[k].table)
  }

  /** The launch staged for the batch carries the batch's copies, apart from each other. */
  lemma PreparesBatched<S, T(!new)>(m: A.Model<S, T>, tr: seq<A.Sys<S, T>>, evs: seq<A.Event<T>>, g: Grid,
                                    tables: V.Tables,
                                    a: V.Precopy) returns (qs: seq<Migration>)
    requires A.ModelOk(m) && PreparesInTurn(m, tr, evs) && A.Inv(m, tr[0])
    requires OneGroup(g, |tr[0].mem|, m.spec) && StagedMoves(m, tr[0], evs, g, tables, a)
    ensures Asks(m, tr[0], evs, qs) && V.AllReadable(tables, Moves(m, tr[0], evs))
    ensures Batched(g, V.MovePairs(g.states, tables, Moves(m, tr[0], evs)), qs, |tr[0].mem|, m.spec)
  {
    var moves, own := Moves(m, tr[0], evs), Owned(evs);
    qs := seq(|evs|, k requires 0 <= k < |evs| => AskedByMove(moves[k], own[k]));
    assert Asks(m, tr[0], evs, qs);
    forall b: nat | b < |evs|
      ensures InGroup(qs[b], |tr[0].mem|, m.spec) && (moves[b].Move? <==> qs[b].Copy?)
      ensures V.MoveReadable(tables, b, moves[b])
    {
      SameSize(m, tr, evs, b);
      PrepareAsks(m, tr, evs, b);
      MoveFound(g, tables, own, b, moves[b], |tr[0].mem|, m.spec);
    }
    forall b: nat | b < |evs|
      ensures CarriesAll(g, V.MovePairs(g.states, tables, moves), b, qs[b], |tr[0].mem|, m.spec)
    {
      MovesCarried(g, tables, own, moves, b, qs[b], |tr[0].mem|, m.spec);
    }
    forall b: nat, b': nat | b < |qs| && b' < |qs| && b != b' ensures Private(qs, b, b') {
      PreparesPrivate(m, tr, evs, qs, b, b');
    }
  }

  lemma {:induction false} SameSize<S, T(!new)>(m: A.Model<S, T>, tr: seq<A.Sys<S, T>>, evs: seq<A.Event<T>>, k: nat)
    requires m.blockSize > 0 && InTurn(m, tr, evs) && k <= |evs|
    ensures |tr[k].mem| == |tr[0].mem|
  {
    if k > 0 {
      SameSize(m, tr, evs, k - 1);
    }
  }

  /** The runner's row `i` describes the request and the tokens that the step gives it. */
  predicate RowDescribes<S, T>(m: A.Model<S, T>, b: V.Batch, i: nat, q: A.Req<T>, e: A.Event<T>) {
    && e.DoPrepare? && i < |b.rows| <= |b.counts| && b.spec == m.spec && b.blockSize == m.blockSize
    && b.rows[i].computed == |q.done| && b.rows[i].scheduled == |e.known| + |e.drafts| && b.counts[i] == q.accepted
    && (if b.rows[i].id in b.columns then q.column == A.Some(b.columns[b.rows[i].id]) else q.column == A.None)
  }

  /** The runner stages such a row with the move that the step decides on. */
  lemma RunnerStages<S, T>(m: A.Model<S, T>, fused: V.Runner, b: V.Batch, states: seq<StateMeta>, tables: V.Tables,
                           i: nat,
                           q: A.Req<T>, e: A.Event<T>)
    requires V.BatchOk(b) && |states| == |tables| && fused.Valid() && fused.Prepared(b, |b.rows|, true, states, tables)
    requires RowDescribes(m, b, i, q, e) && forall id | id in b.columns :: b.columns[id] >= -1
    ensures V.FindsMove(fused.OnDevice(|b.rows|), i, RowMove(m, q, e))
  {
    V.StagedFinds(fused, b, states, tables, i);
    assert V.MovesOf(b)[i] == RowMove(m, q, e);
  }

  lemma PrepareSteps<S, T(!new)>(m: A.Model<S, T>, tr: seq<A.Sys<S, T>>, evs: seq<A.Event<T>>, qs: seq<Migration>,
                                 g: Grid, t: nat, c: nat, k: nat)
    requires A.ModelOk(m) && PreparesInTurn(m, tr, evs) && A.Inv(m, tr[0]) && Asks(m, tr[0], evs, qs) && k < |evs|
    requires Layer(g, t, c) && OneGroup(g, |tr[0].mem|, m.spec) && g.states[c].convWidth == m.width
    ensures Steps(g, t, c, tr[k].mem, tr[k + 1].mem, qs[k])
  {
    SameSize(m, tr, evs, k);
    InvInTurn(m, tr, evs, k);
    PrepareAsks(m, tr, evs, k);
    CopySteps(m, g, t, c, tr[k].mem, tr[k + 1].mem, qs[k]);
  }

  /** Main result. Whatever run has led to the state before the batch, the copy launch staged for the batch's
      preparations leaves, in any schedule, a memory that reads like the engine's after them. */
  lemma PreparationSimulates<S, T(!new)>(m: A.Model<S, T>, tr: seq<A.Sys<S, T>>, evs: seq<A.Event<T>>,
                                         g: Grid, d: Codec<S, T>, t: nat, c: nat, tables: V.Tables, a: V.Precopy,
                                         m0: Memory, schedule: seq<GLane>, m1: Memory)
    requires A.ModelOk(m) && PreparesInTurn(m, tr, evs) && A.Inv(m, tr[0])
    requires OneGroup(g, |tr[0].mem|, m.spec) && StagedMoves(m, tr[0], evs, g, tables, a)
    requires Layer(g, t, c) && g.states[c].convWidth == m.width && Read(g, d, t, c, m0) == tr[0].mem
    requires V.Leaves(GridProgram(g, V.PrecopyTasks(g, tables, a)), m0, schedule, m1)
    ensures Read(g, d, t, c, m1) == tr[|evs|].mem
  {
    var qs := PreparesBatched(m, tr, evs, g, tables, a);
    var moves := Moves(m, tr[0], evs);
    var pairs := V.MovePairs(g.states, tables, moves);
    V.LaunchAgrees(g, tables, moves, a);
    BatchApart(g, pairs, qs, |tr[0].mem|, m.spec);
    GridAnySchedule(g, pairs, V.PrecopyTasks(g, tables, a), m0, schedule);
    BatchRefines(g, d, t, c, pairs, qs, |tr[0].mem|, m.spec, m0, m1);
    forall k: nat | k < |qs| ensures Steps(g, t, c, tr[k].mem, tr[k + 1].mem, qs[k]) {
      PrepareSteps(m, tr, evs, qs, g, t, c, k);
    }
    StepsPerform(tr, qs, g, t, c, |qs|);
  }

  // ---------------------------------------------------------------- a batch of acceptances

  ghost predicate AcceptsInTurn<S, T(!new)>(m: A.Model<S, T>, tr: seq<A.Sys<S, T>>, evs: seq<A.Event<T>>)
    requires m.blockSize > 0
  {
    InTurn(m, tr, evs) && forall k | 0 <= k < |evs| :: evs[k].DoAccept?
  }

  lemma AcceptOne<S, T(!new)>(m: A.Model<S, T>, s: A.Sys<S, T>, s': A.Sys<S, T>, e: A.Event<T>)
    requires m.blockSize > 0 && e.DoAccept? && A.Next(m, s, e, s')
    ensures e.r in s.reqs && e.r in s'.reqs && A.Accepts(m, s.mem, s'.mem, s.reqs[e.r], s'.reqs[e.r], e.accepted)
  {
  }

  /** The decision of the step that accepts for `q`. */
  function RowSave<S, T>(m: A.Model<S, T>, q: A.Req<T>, e: A.Event<T>): D.Post
    requires m.blockSize > 0 && e.DoAccept? && q.phase.Forwarded? && q.column.Some?
  {
    A.Decision(q, e.accepted, m.blockSize)
  }

  /** What one acceptance does to the memory is the copy its decision asks for, to an open column of its own. */
  lemma AcceptIsSave<S, T>(m: A.Model<S, T>, mem: seq<A.Blk<S, T>>, mem': seq<A.Blk<S, T>>, q: A.Req<T>, q': A.Req<T>,
                           e: A.Event<T>)
    requires A.ModelOk(m) && e.DoAccept? && A.TableOk(mem, q.table) && A.MidStep(m, mem, q)
    requires A.Accepts(m, mem, mem', q, q', e.accepted)
    ensures q'.accepted == if RowSave(m, q, e).Save? && RowSave(m, q, e).reset then 1 else e.accepted
    ensures var post := RowSave(m, q, e);
            post.Save? && post.copies ==> post.bias >= 0 && post.dest >= 0 && q.column.value >= 0
    ensures var ask := AskedBy(RowSave(m, q, e), q.column.value, q.table);
            && InGroup(ask, |mem|, m.spec)
            && (ask.Copy? ==> A.CanCopy(mem, q.table, ask.src, ask.dst, ask.bias))
            && mem' == (if ask.Keep? then mem else A.CopyState(mem, q.table, ask.src, ask.dst, ask.bias))
            && (ask.Copy? ==> A.Open(m.blockSize, |q.done|, ask.dst) && q.table[ask.dst] != A.NULL_BLOCK)
  {
    A.DecisionFacts(m, q, q.phase.known, q.phase.drafts, e.accepted);
  }

  /** The copies asked for, row by row. */
  ghost predicate Saves<S, T(!new)>(m: A.Model<S, T>, s: A.Sys<S, T>, evs: seq<A.Event<T>>, qs: seq<Migration>)
    requires m.blockSize > 0
  {
    && |qs| == |evs| && (forall k: nat | k < |evs| :: Accepting(s, evs[k]))
    && forall k: nat | k < |evs| ::
         var q := s.reqs[evs[k].r]; qs[k] == AskedBy(RowSave(m, q, evs[k]), q.column.value, q.table)
  }

  ghost predicate Accepting<S, T(!new)>(s: A.Sys<S, T>, e: A.Event<T>) {
    e.DoAccept? && e.r in s.reqs && s.reqs[e.r].phase.Forwarded? && s.reqs[e.r].column.Some?
  }

  lemma AcceptAsks<S, T(!new)>(m: A.Model<S, T>, tr: seq<A.Sys<S, T>>, evs: seq<A.Event<T>>, k: nat)
    requires A.ModelOk(m) && AcceptsInTurn(m, tr, evs) && A.Inv(m, tr[0]) && k < |evs|
    ensures Accepting(tr[0], evs[k])
    ensures var q := tr[0].reqs[evs[k].r];
            var post, ask := RowSave(m, q, evs[k]), AskedBy(RowSave(m, q, evs[k]), q.column.value, q.table);
            && (post.Save? && post.copies ==> post.bias >= 0 && post.dest >= 0 && q.column.value >= 0)
            && InGroup(ask, |tr[k].mem|, m.spec)
            && (ask.Copy? ==> A.CanCopy(tr[k].mem, q.table, ask.src, ask.dst, ask.bias))
            && tr[k + 1].mem == (if ask.Keep? then tr[k].mem
                                 else A.CopyState(tr[k].mem, q.table, ask.src, ask.dst, ask.bias))
            && (ask.Copy? ==> A.Open(m.blockSize, |q.done|, ask.dst) && q.table[ask.dst] != A.NULL_BLOCK)
            && tr[k + 1].reqs[evs[k].r].accepted == if post.Save? && post.reset then 1 else evs[k].accepted
  {
    InvInTurn(m, tr, evs, k);
    KnownAtStart(m, tr, evs, k);
    AcceptOne(m, tr[k], tr[k + 1], evs[k]);
    var q := tr[k].reqs[evs[k].r];
    assert A.ReqHolds(m, tr[k].mem, q);
    AcceptIsSave(m, tr[k].mem, tr[k + 1].mem, q, tr[k + 1].reqs[evs[k].r], evs[k]);
  }

  lemma SavesPrivate<S, T(!new)>(m: A.Model<S, T>, tr: seq<A.Sys<S, T>>, evs: seq<A.Event<T>>, qs: seq<Migration>,
                                 b: nat, b': nat)
    requires A.ModelOk(m) && AcceptsInTurn(m, tr, evs) && A.Inv(m, tr[0]) && Saves(m, tr[0], evs, qs)
    requires b < |qs| && b' < |qs| && b != b'
    ensures Private(qs, b, b')
  {
    if qs[b].Copy? {
      AcceptAsks(m, tr, evs, b);
      AcceptAsks(m, tr, evs, b');
      OwnBlock(m, tr[0], evs[b].r, qs[b].dst);
      FreshApart(tr[0], evs[b].r, qs[b].table, qs[b].dst, evs[b'].r, qs[b']);
    }
  }

  lemma OwnBlock<S, T(!new)>(m: A.Model<S, T>, s: A.Sys<S, T>, r: nat, c: nat)
    requires A.Private(m, s) && r in s.reqs && c < |s.reqs[r].table| && A.Open(m.blockSize, |s.reqs[r].done|, c)
    requires s.reqs[r].table[c] != A.NULL_BLOCK
    ensures A.Fresh(s, r, s.reqs[r].table, c)
  {
  }

  /** The postprocess launch staged for the batch: columns, counts and tables of each row's request, the counts fed in
      either of the two ways. */
  ghost predicate StagedSaves<S, T(!new)>(m: A.Model<S, T>, s: A.Sys<S, T>, evs: seq<A.Event<T>>, g: P.Launch,
                                          counts: seq<int>)
  {
    && P.LaunchOk(g) && |counts| == |g.column| && g.blockSize == m.blockSize && g.grid.rows == |evs|
    && forall b: nat | b < |evs| :: Accepting(s, evs[b]) && StagedSave(s.reqs[evs[b].r], evs[b], g, counts, b)
  }

  ghost predicate StagedSave<T>(q: A.Req<T>, e: A.Event<T>, g: P.Launch, counts: seq<int>, b: nat)
    requires P.LaunchOk(g) && |counts| == |g.column| && b < g.grid.rows
    requires e.DoAccept? && q.phase.Forwarded? && q.column.Some?
  {
    var r, known, drafts := g.slots[b], |q.phase.known|, |q.phase.drafts|;
    && r >= 0 && g.column[r] == q.column.value && counts[r] == e.accepted
    && (if g.advanced then g.computed[r] == |q.done| + known + e.accepted - 1
        else g.computed[r] == |q.done| && g.scheduled[r] == known + drafts && g.drafts[r] == drafts)
    && forall s | 0 <= s < |g.tables| :: g.tables[s][b] == q.table
  }

  /** The programs of a row decide what its step decides. */
  lemma SameDecision<S, T(!new)>(m: A.Model<S, T>, s: A.Sys<S, T>, evs: seq<A.Event<T>>, g: P.Launch, counts: seq<int>,
                                 b: nat)
    requires m.blockSize > 0 && StagedSaves(m, s, evs, g, counts) && b < |evs|
    ensures g.slots[b] >= 0 && Accepting(s, evs[b])
    ensures P.Decide(g, b, counts[g.slots[b]]) == RowSave(m, s.reqs[evs[b].r], evs[b])
  {
    assert StagedSave(s.reqs[evs[b].r], evs[b], g, counts, b);
  }

  /** Every row's columns are readable, and its programs carry the copy asked for. */
  lemma SaveCarried<S, T(!new)>(m: A.Model<S, T>, tr: seq<A.Sys<S, T>>, evs: seq<A.Event<T>>, qs: seq<Migration>,
                                g: P.Launch, counts: seq<int>, b: nat, s: nat)
    requires A.ModelOk(m) && AcceptsInTurn(m, tr, evs) && A.Inv(m, tr[0]) && Saves(m, tr[0], evs, qs)
    requires StagedSaves(m, tr[0], evs, g, counts) && OneGroup(g.grid, |tr[0].mem|, m.spec)
    requires b < |evs| && s < |g.grid.states|
    ensures InGroup(qs[b], |tr[0].mem|, m.spec) && g.slots[b] >= 0
    ensures P.ReadableRow(g, b, s, P.Decide(g, b, counts[g.slots[b]]))
    ensures var pairs := P.PairsOf(g, counts);
            (b, s) in pairs && pairs[(b, s)] == TaskFrom(g.grid.states[s], qs[b], |tr[0].mem|, m.spec)
    ensures P.Asks(g, b, s, counts) ==> P.PairsOf(g, counts)[(b, s)].Task?
  {
    SameSize(m, tr, evs, b);
    AcceptAsks(m, tr, evs, b);
    SameDecision(m, tr[0], evs, g, counts, b);
    var q, post := tr[0].reqs[evs[b].r], RowSave(m, tr[0].reqs[evs[b].r], evs[b]);
    assert StagedSave(q, evs[b], g, counts, b) && g.tables[s][b] == q.table;
    assert P.ReadableRow(g, b, s, post);
    assert g.grid.states[s].numBlocks == |tr[0].mem|;
    assert A.ReqHolds(m, tr[0].mem, q);
    TaskAsked(g, b, s, post, q.table);
    PairIs(g, counts, b, s);
  }

  lemma SavesBatched<S, T(!new)>(m: A.Model<S, T>, tr: seq<A.Sys<S, T>>, evs: seq<A.Event<T>>, g: P.Launch,
                                 counts: seq<int>)
    returns (qs: seq<Migration>)
    requires A.ModelOk(m) && AcceptsInTurn(m, tr, evs) && A.Inv(m, tr[0])
    requires StagedSaves(m, tr[0], evs, g, counts) && OneGroup(g.grid, |tr[0].mem|, m.spec)
    ensures Saves(m, tr[0], evs, qs) && Batched(g.grid, P.PairsOf(g, counts), qs, |tr[0].mem|, m.spec)
    ensures P.AllReadable(g, counts) && P.NoneSkipped(g, counts)
  {
    qs := SavesOf(m, tr[0], evs);
    forall b: nat | b < |evs|
      ensures InGroup(qs[b], |tr[0].mem|, m.spec)
      ensures CarriesAll(g.grid, P.PairsOf(g, counts), b, qs[b], |tr[0].mem|, m.spec)
    {
      SameSize(m, tr, evs, b);
      AcceptAsks(m, tr, evs, b);
      forall s: nat | s < |g.grid.states|
        ensures var pairs := P.PairsOf(g, counts);
                (b, s) in pairs && pairs[(b, s)] == TaskFrom(g.grid.states[s], qs[b], |tr[0].mem|, m.spec)
      {
        SaveCarried(m, tr, evs, qs, g, counts, b, s);
      }
    }
    forall b: nat, b': nat | b < |qs| && b' < |qs| && b != b' ensures Private(qs, b, b') {
      SavesPrivate(m, tr, evs, qs, b, b');
    }
    AllRowsFine(m, tr, evs, qs, g, counts);
  }

  function SavesOf<S, T(!new)>(m: A.Model<S, T>, s: A.Sys<S, T>, evs: seq<A.Event<T>>): (qs: seq<Migration>)
    requires m.blockSize > 0 && forall k: nat | k < |evs| :: Accepting(s, evs[k])
    ensures Saves(m, s, evs, qs)
  {
    seq(|evs|, k requires 0 <= k < |evs| =>
          (assert Accepting(s, evs[k]);
           var q := s.reqs[evs[k].r];
           AskedBy(RowSave(m, q, evs[k]), q.column.value, q.table)))
  }

  lemma AllRowsFine<S, T(!new)>(m: A.Model<S, T>, tr: seq<A.Sys<S, T>>, evs: seq<A.Event<T>>, qs: seq<Migration>,
                                g: P.Launch, counts: seq<int>)
    requires A.ModelOk(m) && AcceptsInTurn(m, tr, evs) && A.Inv(m, tr[0]) && Saves(m, tr[0], evs, qs)
    requires StagedSaves(m, tr[0], evs, g, counts) && OneGroup(g.grid, |tr[0].mem|, m.spec)
    ensures P.AllReadable(g, counts) && P.NoneSkipped(g, counts)
  {
    forall b: nat, s: nat | b < g.grid.rows && s < |g.grid.states| && g.slots[b] >= 0
      ensures P.ReadableRow(g, b, s, P.Decide(g, b, counts[g.slots[b]]))
    {
      SaveCarried(m, tr, evs, qs, g, counts, b, s);
    }
    forall b: nat, s: nat | b < g.grid.rows && s < |g.grid.states| && P.Asks(g, b, s, counts)
      ensures P.PairsOf(g, counts)[(b, s)].Task?
    {
      SaveCarried(m, tr, evs, qs, g, counts, b, s);
    }
  }

  lemma SaveSteps<S, T(!new)>(m: A.Model<S, T>, tr: seq<A.Sys<S, T>>, evs: seq<A.Event<T>>, qs: seq<Migration>,
                              g: Grid, t: nat, c: nat, k: nat)
    requires A.ModelOk(m) && AcceptsInTurn(m, tr, evs) && A.Inv(m, tr[0]) && Saves(m, tr[0], evs, qs) && k < |evs|
    requires Layer(g, t, c) && OneGroup(g, |tr[0].mem|, m.spec) && g.states[c].convWidth == m.width
    ensures Steps(g, t, c, tr[k].mem, tr[k + 1].mem, qs[k])
  {
    SameSize(m, tr, evs, k);
    InvInTurn(m, tr, evs, k);
    AcceptAsks(m, tr, evs, k);
    CopySteps(m, g, t, c, tr[k].mem, tr[k + 1].mem, qs[k]);
  }

  /** Row `b`'s slot holds the count that its step leaves. */
  ghost predicate CountLeft<S, T(!new)>(s: A.Sys<S, T>, e: A.Event<T>, g: P.Launch, final: seq<int>, b: nat) {
    && b < |g.slots| && 0 <= g.slots[b] < |final| && e.DoAccept? && e.r in s.reqs
    && final[g.slots[b]] == s.reqs[e.r].accepted
  }

  /** The count that the launch leaves in row `b`'s slot is the one its step leaves. */
  lemma CountSimulates<S, T(!new)>(m: A.Model<S, T>, tr: seq<A.Sys<S, T>>, evs: seq<A.Event<T>>, g: P.Launch,
                                   counts: seq<int>,
                                   final: seq<int>, b: nat)
    requires A.ModelOk(m) && AcceptsInTurn(m, tr, evs) && A.Inv(m, tr[0]) && StagedSaves(m, tr[0], evs, g, counts)
    requires b < |evs| && |g.grid.states| > 0 && |final| == |counts|
    requires forall r: nat | r < |final| ::
               final[r] == if exists i: nat :: P.HasReset(g, counts, Progs(g.grid), i, r) then 1 else counts[r]
    ensures CountLeft(tr[|evs|], evs[b], g, final, b)
  {
    AcceptAsks(m, tr, evs, b);
    KnownAtEnd(m, tr, evs, b);
    SameDecision(m, tr[0], evs, g, counts, b);
    assert StagedSave(tr[0].reqs[evs[b].r], evs[b], g, counts, b);
    ResetIs(g, counts, b);
  }

  lemma ResetIs(g: P.Launch, counts: seq<int>, b: nat)
    requires P.LaunchOk(g) && |counts| == |g.column| && b < g.grid.rows && g.slots[b] >= 0 && |g.grid.states| > 0
    ensures (exists i: nat :: P.HasReset(g, counts, Progs(g.grid), i, g.slots[b])) <==> P.Resets(g, b, counts)
  {
    ProgsAre(g.grid, Prog(b, 0, 0));
    if P.Resets(g, b, counts) { assert P.HasReset(g, counts, Progs(g.grid), b, g.slots[b]); }
  }

  lemma SavesMemory<S, T(!new)>(m: A.Model<S, T>, tr: seq<A.Sys<S, T>>, evs: seq<A.Event<T>>, qs: seq<Migration>,
                                g: Grid, d: Codec<S, T>, t: nat, c: nat, pairs: Pairs, m0: Memory, m1: Memory)
    requires A.ModelOk(m) && AcceptsInTurn(m, tr, evs) && A.Inv(m, tr[0]) && Saves(m, tr[0], evs, qs)
    requires Layer(g, t, c) && g.states[c].convWidth == m.width && Read(g, d, t, c, m0) == tr[0].mem
    requires Batched(g, pairs, qs, |tr[0].mem|, m.spec) && Copied(GridRegions(g, pairs), m0, m1)
    ensures Read(g, d, t, c, m1) == tr[|evs|].mem
  {
    BatchRefines(g, d, t, c, pairs, qs, |tr[0].mem|, m.spec, m0, m1);
    forall k: nat | k < |qs| ensures Steps(g, t, c, tr[k].mem, tr[k + 1].mem, qs[k]) {
      SaveSteps(m, tr, evs, qs, g, t, c, k);
    }
    StepsPerform(tr, qs, g, t, c, |qs|);
  }

  /** What the launch leaves, once its copies are known to keep apart. */
  lemma LaunchEnds(g: P.Launch, qs: seq<Migration>, blocks: nat, spec: nat, counts: seq<int>, m0: Memory,
                   events: seq<P.Event>, u: P.Running)
    requires P.LaunchOk(g) && |counts| == |g.column| && |g.grid.states| > 0 && P.AllReadable(g, counts)
    requires P.NoneSkipped(g, counts)
    requires Batched(g.grid, P.PairsOf(g, counts), qs, blocks, spec)
    requires u == P.Run(g, P.Some(counts), P.Launched(g, counts, m0), events) && P.Complete(g, u)
    ensures Copied(GridRegions(g.grid, P.PairsOf(g, counts)), m0, u.lanes.mem) && u.hits == 0 && |u.counts| == |counts|
    ensures forall r: nat | r < |u.counts| ::
              u.counts[r] == if exists i: nat :: P.HasReset(g, counts, Progs(g.grid), i, r) then 1 else counts[r]
  {
    BatchApart(g.grid, P.PairsOf(g, counts), qs, blocks, spec);
    P.AnyOrderSameResult(g, counts, m0, events);
    P.CounterStaysIff(g, counts, m0, events);
  }

  /** Main result. The postprocess launch staged for the batch's acceptances leaves, in every interleaving, a memory
      that reads like the engine's after them and the counts they leave, and counts no guard hit. */
  lemma AcceptanceSimulates<S, T(!new)>(m: A.Model<S, T>, tr: seq<A.Sys<S, T>>, evs: seq<A.Event<T>>,
                                        g: P.Launch, d: Codec<S, T>, t: nat, c: nat, counts: seq<int>,
                                        m0: Memory, events: seq<P.Event>, u: P.Running)
    requires A.ModelOk(m) && AcceptsInTurn(m, tr, evs) && A.Inv(m, tr[0])
    requires StagedSaves(m, tr[0], evs, g, counts) && OneGroup(g.grid, |tr[0].mem|, m.spec)
    requires Layer(g.grid, t, c) && g.grid.states[c].convWidth == m.width && Read(g.grid, d, t, c, m0) == tr[0].mem
    requires u == P.Run(g, P.Some(counts), P.Launched(g, counts, m0), events) && P.Complete(g, u)
    ensures Read(g.grid, d, t, c, u.lanes.mem) == tr[|evs|].mem && u.hits == 0
    ensures forall b: nat | b < |evs| :: CountLeft(tr[|evs|], evs[b], g, u.counts, b)
  {
    var qs := SavesBatched(m, tr, evs, g, counts);
    LaunchEnds(g, qs, |tr[0].mem|, m.spec, counts, m0, events, u);
    SavesMemory(m, tr, evs, qs, g.grid, d, t, c, P.PairsOf(g, counts), m0, u.lanes.mem);
    forall b: nat | b < |evs| ensures CountLeft(tr[|evs|], evs[b], g, u.counts, b) {
      CountSimulates(m, tr, evs, g, counts, u.counts, b);
    }
  }
}
