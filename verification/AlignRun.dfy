/** Whole runs of the align-mode state engine: many requests over one pool of physical state blocks and a
    prefix cache. A request alternates prepare (choose the running column, migrate the previous state),
    forward (write one speculative state per draft token) and accept (keep some drafts, save the state at a
    block boundary). Requests interleave freely, are released and resumed at any idle moment, and share cached
    blocks. */
module AlignRun {
  import opened AlignDecision

  /** The recurrent layer: a temporal state that folds over the tokens, and a convolution that looks back
      `hist` tokens. A window of `width` tokens leaves room for `spec` speculative ones. */
  datatype Model<!S, !T> = Model(init: S, step: (S, T) -> S, pad: T, hist: nat, width: nat, spec: nat, blockSize: nat)

  ghost predicate ModelOk<S, T>(m: Model<S, T>) { m.blockSize > 0 && m.hist + m.spec <= m.width }

  /** A physical block: one temporal state and one convolution window. */
  datatype Blk<S, T> = Blk(temporal: S, window: seq<T>)

  function Fold<S, T>(m: Model<S, T>, from: S, toks: seq<T>): S {
    if toks == [] then from else m.step(Fold(m, from, toks[..|toks| - 1]), toks[|toks| - 1])
  }

  /** The temporal state after `toks`. */
  function Run<S, T>(m: Model<S, T>, toks: seq<T>): S { Fold(m, m.init, toks) }

  function LastN<T>(toks: seq<T>, n: nat): seq<T>
    requires n <= |toks|
  {
    toks[|toks| - n..]
  }

  function Padding<S, T>(m: Model<S, T>): seq<T> { seq(m.hist, i => m.pad) }

  /** The last `hist` tokens of `toks`, padded on the left. */
  function History<S, T>(m: Model<S, T>, toks: seq<T>): seq<T> { LastN(Padding(m) + toks, m.hist) }

  /** The state of no tokens is the initial one, and each further token is one step of the layer. */
  lemma RunIs<S, T>(m: Model<S, T>, toks: seq<T>, tok: T)
    ensures Run(m, []) == m.init && Run(m, toks + [tok]) == m.step(Run(m, toks), tok)
  {
    assert (toks + [tok])[..|toks|] == toks;
  }

  /** The history, token by token: the last `hist` tokens, with padding before the first one. */
  lemma HistoryIs<S, T>(m: Model<S, T>, toks: seq<T>, i: nat)
    requires i < m.hist
    ensures |History(m, toks)| == m.hist
    ensures History(m, toks)[i] == if |toks| + i < m.hist then m.pad else toks[|toks| + i - m.hist]
  {
  }

  lemma {:induction false} FoldAppend<S, T>(m: Model<S, T>, from: S, a: seq<T>, b: seq<T>)
    ensures Fold(m, Fold(m, from, a), b) == Fold(m, from, a + b)
  {
    if b == [] {
      assert a + b == a;
    } else {
      FoldAppend(m, from, a, b[..|b| - 1]);
      assert (a + b)[..|a + b| - 1] == a + b[..|b| - 1];
    }
  }

  lemma HistoryAppend<S, T>(m: Model<S, T>, a: seq<T>, b: seq<T>)
    ensures LastN(History(m, a) + b, m.hist) == History(m, a + b)
  {
    assert Padding(m) + (a + b) == (Padding(m) + a) + b;
  }

  // ---------------------------------------------------------------- requests and memory

  /** Placeholder in a block table; never written. */
  const NULL_BLOCK: nat := 0

  datatype Phase<T> = Idle | Prepared(known: seq<T>, drafts: seq<T>) | Forwarded(known: seq<T>, drafts: seq<T>)

  datatype Option<V> = None | Some(value: V)

  /** `done` are the computed tokens, `table` the block table, `column` the recorded state column, `accepted` the
      accepted-token count; `saved` remembers the columns the postprocess step has saved. */
  datatype Req<T> = Req(done: seq<T>, table: seq<nat>, column: Option<int>, accepted: int, phase: Phase<T>,
                        saved: set<nat>)

  datatype Sys<S, T(==)> = Sys(mem: seq<Blk<S, T>>, reqs: map<nat, Req<T>>, cache: map<seq<T>, nat>)

  /** Columns that do not end inside the computed tokens: the only ones a request may write. */
  predicate Open(blockSize: nat, computed: nat, c: int) { (c + 1) * blockSize > computed }

  ghost predicate IsState<S, T>(m: Model<S, T>, temporal: Blk<S, T>, conv: Blk<S, T>, k: nat, toks: seq<T>) {
    && temporal.temporal == Run(m, toks)
    && k + m.hist <= |conv.window|
    && conv.window[k..k + m.hist] == History(m, toks)
  }

  ghost predicate TableOk<S, T>(mem: seq<Blk<S, T>>, table: seq<nat>) {
    forall c | 0 <= c < |table| :: table[c] < |mem|
  }

  /** The state addressed by column `col` and offset `k` is the state after `toks`: the temporal state lies in
      the k-th column further on, the convolution history k tokens into the window. */
  ghost predicate Holds<S, T>(m: Model<S, T>, mem: seq<Blk<S, T>>, table: seq<nat>, col: int, k: nat, toks: seq<T>) {
    && 0 <= col && col + k < |table| && table[col + k] < |mem| && table[col] < |mem|
    && table[col + k] != NULL_BLOCK && table[col] != NULL_BLOCK
    && IsState(m, mem[table[col + k]], mem[table[col]], k, toks)
  }

  /** The column the next step migrates from. */
  function CurrentColumn<T>(r: Req<T>, blockSize: nat): int
    requires blockSize > 0
  {
    if r.column.Some? then r.column.value else SeedColumn(|r.done|, blockSize)
  }

  // ---------------------------------------------------------------- the copy

  /** Copy of the state at (`src`, `bias`) into column `dst`: the temporal state comes from the accepted
      speculative column, the window is shifted and keeps its own last `bias` tokens. */
  function CopyState<S, T>(mem: seq<Blk<S, T>>, table: seq<nat>, src: int, dst: int, bias: nat): seq<Blk<S, T>>
    requires 0 <= src && src + bias < |table| && 0 <= dst < |table|
    requires table[src + bias] < |mem| && table[src] < |mem| && table[dst] < |mem|
    requires bias <= |mem[table[src]].window| && bias <= |mem[table[dst]].window|
  {
    var from, to := mem[table[src]].window, mem[table[dst]].window;
    mem[table[dst] := Blk(mem[table[src + bias]].temporal, from[bias..] + to[|to| - bias..])]
  }

  // ---------------------------------------------------------------- the steps

  /** New or resumed request: it has no recorded column, its tokens are a cached prefix or none, and its other
      complete columns are null or cached. */
  ghost predicate Admit<S, T(!new)>(m: Model<S, T>, s: Sys<S, T>, s': Sys<S, T>, r: nat, prefix: seq<T>,
                                    table: seq<nat>)
    requires m.blockSize > 0
  {
    var n := |prefix| / m.blockSize;
    && r !in s.reqs && n <= |table| && TableOk(s.mem, table)
    && (prefix != [] ==> prefix in s.cache && 0 < n && table[n - 1] == s.cache[prefix])
    && (forall c | 0 <= c < n :: table[c] == NULL_BLOCK || table[c] in s.cache.Values)
    && Grown(s, r, table[..n], table)
    && s' == s.(reqs := s.reqs[r := Req(prefix, table, None, 1, Idle, {})])
  }

  /** The block table keeps the blocks it holds; missing columns become null or get a block that no table
      and no cached prefix uses. */
  ghost predicate Grown<S, T(!new)>(s: Sys<S, T>, r: nat, held: seq<nat>, table: seq<nat>) {
    && |held| <= |table|
    && forall c | 0 <= c < |table| ::
         if c < |held| && held[c] != NULL_BLOCK then table[c] == held[c]
         else table[c] == NULL_BLOCK || Fresh(s, r, table, c)
  }

  ghost predicate Fresh<S, T(!new)>(s: Sys<S, T>, r: nat, table: seq<nat>, c: int)
    requires 0 <= c < |table|
  {
    && (forall c' | 0 <= c' < |table| && c' != c :: table[c'] != table[c])
    && (forall q, c' | q in s.reqs && q != r && 0 <= c' < |s.reqs[q].table| :: s.reqs[q].table[c'] != table[c])
    && (forall p | p in s.cache :: s.cache[p] != table[c])
  }

  /** The scheduler hands out `known` tokens and `drafts`; every column that ends at or after the known tokens, up to
      the last speculative one, has a block; and the previous state is migrated if the running column moves. */
  ghost predicate Prepare<S, T(!new)>(m: Model<S, T>, s: Sys<S, T>, s': Sys<S, T>, r: nat, known: seq<T>,
                                      drafts: seq<T>, table: seq<nat>)
    requires m.blockSize > 0
  {
    && r in s.reqs && s.reqs[r].phase.Idle? && r in s'.reqs
    && TableOk(s.mem, table) && Grown(s, r, s.reqs[r].table, table)
    && Prepares(m, s.mem, s'.mem, s.reqs[r], s'.reqs[r], known, drafts, table)
    && s' == Sys(s'.mem, s.reqs[r := s'.reqs[r]], s.cache)
  }

  /** The memory and the request after the preparation, as functions of what the step was given. */
  ghost predicate Prepares<S, T>(m: Model<S, T>, mem: seq<Blk<S, T>>, mem': seq<Blk<S, T>>, q: Req<T>, q': Req<T>,
                                 known: seq<T>, drafts: seq<T>, table: seq<nat>)
    requires m.blockSize > 0
  {
    var prev, curr := CurrentColumn(q, m.blockSize), RunningColumn(|q.done|, |known| + |drafts|, m.spec, m.blockSize);
    && known != [] && |drafts| <= m.spec
    && Allocated(m, table, |q.done| + |known|, curr + m.spec)
    && var moves := prev != -1 && prev != curr;
    && (moves ==> CanCopy(mem, table, prev, curr, q.accepted - 1))
    && mem' == (if moves then CopyState(mem, table, prev, curr, q.accepted - 1) else mem)
    && q' == q.(table := table, column := Some(curr), accepted := if moves then 1 else q.accepted,
                phase := Phase.Prepared(known, drafts))
  }

  /** The columns ending at or after `running` tokens, up to column `last`, have a block. */
  predicate Allocated<S, T>(m: Model<S, T>, table: seq<nat>, running: nat, last: int) {
    last < |table| && forall c | 0 <= c <= last && (c + 1) * m.blockSize >= running :: table[c] != NULL_BLOCK
  }

  predicate CanCopy<S, T>(mem: seq<Blk<S, T>>, table: seq<nat>, src: int, dst: int, bias: int) {
    && 0 <= bias && 0 <= src && src + bias < |table| && 0 <= dst < |table|
    && table[src + bias] < |mem| && table[src] < |mem| && table[dst] < |mem|
    && bias <= |mem[table[src]].window| && bias <= |mem[table[dst]].window|
  }

  /** The forward pass reads the addressed state (or starts afresh) and, for every number k of draft tokens,
      leaves the state after the known tokens and k drafts at offset k of the running column. It writes the
      running and the speculative columns; what else it leaves in them is not constrained. */
  ghost predicate Forwards<S, T>(m: Model<S, T>, mem: seq<Blk<S, T>>, mem': seq<Blk<S, T>>, table: seq<nat>,
                                 blank: bool,
                                 col: int, k0: int, known: seq<T>, drafts: seq<T>) {
    && 0 <= col && col + |drafts| < |table| && TableOk(mem, table) && |mem'| == |mem|
    && (!blank ==> 0 <= k0 && col + k0 < |table| && k0 + m.hist <= |mem[table[col]].window|)
    && var from := if blank then m.init else mem[table[col + k0]].temporal;
       var back := if blank then Padding(m) else mem[table[col]].window[k0..k0 + m.hist];
    && (forall b | 0 <= b < |mem| && b !in table[col..col + |drafts| + 1] :: mem'[b] == mem[b])
    && (forall b | 0 <= b < |mem| :: |mem'[b].window| == |mem[b].window|)
    && (forall k | 0 <= k <= |drafts| && k + m.hist <= |mem[table[col]].window| ::
          && mem'[table[col + k]].temporal == Fold(m, from, known + drafts[..k])
          && mem'[table[col]].window[k..k + m.hist] == LastN(back + (known + drafts[..k]), m.hist))
  }

  ghost predicate Forward<S, T(!new)>(m: Model<S, T>, s: Sys<S, T>, s': Sys<S, T>, r: nat) {
    && r in s.reqs && s.reqs[r].phase.Prepared? && s.reqs[r].column.Some?
    && var q := s.reqs[r];
    && Forwards(m, s.mem, s'.mem, q.table, q.done == [], q.column.value, q.accepted - 1, q.phase.known, q.phase.drafts)
    && s' == Sys(s'.mem, s.reqs[r := q.(phase := Phase.Forwarded(q.phase.known, q.phase.drafts))], s.cache)
  }

  function Decision<T>(q: Req<T>, accepted: nat, blockSize: nat): Post
    requires blockSize > 0 && q.phase.Forwarded? && q.column.Some?
  {
    PostFromCounts(q.column.value, |q.done|, |q.phase.known| + |q.phase.drafts|, |q.phase.drafts|, accepted, blockSize)
  }

  /** Sampling keeps `accepted - 1` drafts; the postprocess kernel then saves the state at a boundary. */
  ghost predicate Accept<S, T(!new)>(m: Model<S, T>, s: Sys<S, T>, s': Sys<S, T>, r: nat, accepted: nat)
    requires m.blockSize > 0
  {
    && r in s.reqs && r in s'.reqs
    && Accepts(m, s.mem, s'.mem, s.reqs[r], s'.reqs[r], accepted)
    && s' == Sys(s'.mem, s.reqs[r := s'.reqs[r]], s.cache)
  }

  /** The memory and the request after acceptance. */
  ghost predicate Accepts<S, T>(m: Model<S, T>, mem: seq<Blk<S, T>>, mem': seq<Blk<S, T>>, q: Req<T>, q': Req<T>,
                                accepted: nat)
    requires m.blockSize > 0
  {
    && q.phase.Forwarded? && q.column.Some?
    && 1 <= accepted <= |q.phase.drafts| + 1
    && var post := Decision(q, accepted, m.blockSize);
       var src := q.column.value;
       var done := q.done + q.phase.known + q.phase.drafts[..accepted - 1];
       var copies := post.Save? && post.copies;
    && (copies ==> CanCopy(mem, q.table, src, post.dest, post.bias))
    && mem' == (if copies then CopyState(mem, q.table, src, post.dest, post.bias) else mem)
    && q' == q.(done := done, accepted := if post.Save? && post.reset then 1 else accepted, phase := Idle,
                saved := if post.Save? && post.dest >= 0 then q.saved + {post.dest} else q.saved)
  }

  /** A saved column becomes a cached prefix. */
  ghost predicate Publish<S, T(!new)>(m: Model<S, T>, s: Sys<S, T>, s': Sys<S, T>, r: nat, j: nat) {
    && r in s.reqs && j in s.reqs[r].saved && j < |s.reqs[r].table| && (j + 1) * m.blockSize <= |s.reqs[r].done|
    && s' == s.(cache := s.cache[s.reqs[r].done[..(j + 1) * m.blockSize] := s.reqs[r].table[j]])
  }

  /** Between steps the manager may take back any block but the ones that hold the current state. */
  ghost predicate Drop<S, T(!new)>(m: Model<S, T>, s: Sys<S, T>, s': Sys<S, T>, r: nat, c: nat)
    requires m.blockSize > 0
  {
    && r in s.reqs && s.reqs[r].phase.Idle? && c < |s.reqs[r].table|
    && var q := s.reqs[r];
    && c != CurrentColumn(q, m.blockSize) && c != CurrentColumn(q, m.blockSize) + q.accepted - 1
    && NULL_BLOCK < |s.mem|
    && s' == s.(reqs := s.reqs[r := q.(table := q.table[c := NULL_BLOCK], saved := q.saved - {c})])
  }

  datatype Event<T> =
    | DoAdmit(r: nat, prefix: seq<T>, table: seq<nat>)
    | DoPrepare(r: nat, known: seq<T>, drafts: seq<T>, table: seq<nat>)
    | DoForward(r: nat)
    | DoAccept(r: nat, accepted: nat)
    | DoPublish(r: nat, j: nat)
    | DoDrop(r: nat, c: nat)
    | DoRelease(r: nat)
    | DoEvict(prefix: seq<T>)

  /** Release covers finishing and preemption, at any moment; a preempted request comes back through admission. */
  ghost predicate Next<S, T(!new)>(m: Model<S, T>, s: Sys<S, T>, e: Event<T>, s': Sys<S, T>)
    requires m.blockSize > 0
  {
    match e
    case DoAdmit(r, prefix, table) => Admit(m, s, s', r, prefix, table)
    case DoPrepare(r, known, drafts, table) => Prepare(m, s, s', r, known, drafts, table)
    case DoForward(r) => Forward(m, s, s', r)
    case DoAccept(r, accepted) => Accept(m, s, s', r, accepted)
    case DoPublish(r, j) => Publish(m, s, s', r, j)
    case DoDrop(r, c) => Drop(m, s, s', r, c)
    case DoRelease(r) => s' == s.(reqs := s.reqs - {r})
    case DoEvict(prefix) => s' == s.(cache := s.cache - {prefix})
  }

  // ---------------------------------------------------------------- the invariant

  ghost predicate MemOk<S, T>(m: Model<S, T>, mem: seq<Blk<S, T>>) {
    forall b | 0 <= b < |mem| :: |mem[b].window| == m.width
  }

  /** What the blocks of one request hold, phase by phase. */
  ghost predicate ReqHolds<S, T>(m: Model<S, T>, mem: seq<Blk<S, T>>, q: Req<T>)
    requires m.blockSize > 0
  {
    && TableOk(mem, q.table)
    && SavedHold(m, mem, q)
    && if q.phase.Idle? then AtRest(m, mem, q) else MidStep(m, mem, q)
  }

  /** A saved column lies within the computed tokens and holds the state after exactly its own end. */
  ghost predicate SavedHold<S, T>(m: Model<S, T>, mem: seq<Blk<S, T>>, q: Req<T>) {
    forall j | j in q.saved :: SavedAt(m, mem, q, j)
  }

  ghost predicate SavedAt<S, T>(m: Model<S, T>, mem: seq<Blk<S, T>>, q: Req<T>, j: nat) {
    0 <= (j + 1) * m.blockSize <= |q.done| && Holds(m, mem, q.table, j, 0, q.done[..(j + 1) * m.blockSize])
  }

  /** Between steps the addressed state is the state after exactly the computed tokens. */
  ghost predicate AtRest<S, T>(m: Model<S, T>, mem: seq<Blk<S, T>>, q: Req<T>)
    requires m.blockSize > 0
  {
    if q.done == [] then q.column == None && q.accepted == 1
    else 1 <= q.accepted <= m.spec + 1 && Holds(m, mem, q.table, CurrentColumn(q, m.blockSize), q.accepted - 1, q.done)
  }

  /** A request in the middle of a step, with the state it has computed where the phase says. */
  ghost predicate MidStep<S, T>(m: Model<S, T>, mem: seq<Blk<S, T>>, q: Req<T>)
    requires m.blockSize > 0
  {
    match q.phase
    case Idle => false
    case Prepared(known, drafts) =>
      && StepOk(m, q, known, drafts)
      && (q.done != [] ==> && 1 <= q.accepted <= m.spec + 1
                           && Holds(m, mem, q.table, q.column.value, q.accepted - 1, q.done))
    case Forwarded(known, drafts) =>
      && StepOk(m, q, known, drafts)
      && forall k | 0 <= k <= |drafts| :: Holds(m, mem, q.table, q.column.value, k, q.done + known + drafts[..k])
  }

  ghost predicate StepOk<S, T>(m: Model<S, T>, q: Req<T>, known: seq<T>, drafts: seq<T>)
    requires m.blockSize > 0
  {
    && known != [] && |drafts| <= m.spec
    && q.column == Some(RunningColumn(|q.done|, |known| + |drafts|, m.spec, m.blockSize))
    && Allocated(m, q.table, |q.done| + |known|, q.column.value + m.spec)
  }

  /** The blocks of open columns are private to their request. */
  ghost predicate Private<S, T(!new)>(m: Model<S, T>, s: Sys<S, T>) {
    forall r, c | r in s.reqs && 0 <= c < |s.reqs[r].table| && Open(m.blockSize, |s.reqs[r].done|, c) ::
      s.reqs[r].table[c] == NULL_BLOCK || Fresh(s, r, s.reqs[r].table, c)
  }

  ghost predicate CacheOk<S, T(!new)>(m: Model<S, T>, s: Sys<S, T>)
    requires m.blockSize > 0
  {
    forall p | p in s.cache ::
      && p != [] && |p| % m.blockSize == 0 && s.cache[p] != NULL_BLOCK && s.cache[p] < |s.mem|
      && IsState(m, s.mem[s.cache[p]], s.mem[s.cache[p]], 0, p)
  }

  ghost predicate Inv<S, T(!new)>(m: Model<S, T>, s: Sys<S, T>)
    requires m.blockSize > 0
  {
    && MemOk(m, s.mem)
    && (forall r | r in s.reqs :: ReqHolds(m, s.mem, s.reqs[r]))
    && Private(m, s)
    && CacheOk(m, s)
  }

  // ---------------------------------------------------------------- frames

  /** Request `r` writes only blocks of its open columns. */
  ghost predicate WritesOnlyOpen<S, T>(m: Model<S, T>, mem: seq<Blk<S, T>>, mem': seq<Blk<S, T>>, table: seq<nat>,
                                       computed: nat)
  {
    && |mem'| == |mem|
    && forall b | 0 <= b < |mem| && mem'[b] != mem[b] ::
         exists c :: 0 <= c < |table| && table[c] == b && b != NULL_BLOCK && Open(m.blockSize, computed, c)
  }

  ghost predicate SameAt<S, T>(mem: seq<Blk<S, T>>, mem': seq<Blk<S, T>>, table: seq<nat>) {
    |mem'| == |mem| && forall c | 0 <= c < |table| && table[c] < |mem| :: mem'[table[c]] == mem[table[c]]
  }

  lemma HoldsFrame<S, T>(m: Model<S, T>, mem: seq<Blk<S, T>>, mem': seq<Blk<S, T>>, table: seq<nat>, q: Req<T>)
    requires m.blockSize > 0 && q.table == table && SameAt(mem, mem', table) && ReqHolds(m, mem, q)
    ensures ReqHolds(m, mem', q)
  {
  }

  lemma OthersKept<S, T(!new)>(m: Model<S, T>, s: Sys<S, T>, mem': seq<Blk<S, T>>, r: nat, q: nat)
    requires m.blockSize > 0 && Inv(m, s) && r in s.reqs && q in s.reqs && q != r
    requires WritesOnlyOpen(m, s.mem, mem', s.reqs[r].table, |s.reqs[r].done|)
    ensures ReqHolds(m, mem', s.reqs[q])
  {
    HoldsFrame(m, s.mem, mem', s.reqs[q].table, s.reqs[q]);
  }

  /** Fewer open columns and unchanged tables keep privacy. */
  lemma PrivateKept<S, T(!new)>(m: Model<S, T>, s: Sys<S, T>, s': Sys<S, T>)
    requires Private(m, s) && s'.cache == s.cache && s'.reqs.Keys == s.reqs.Keys
    requires forall q | q in s.reqs :: s'.reqs[q].table == s.reqs[q].table && |s'.reqs[q].done| >= |s.reqs[q].done|
    ensures Private(m, s')
  {
    forall q, c | q in s'.reqs && 0 <= c < |s'.reqs[q].table| && Open(m.blockSize, |s'.reqs[q].done|, c)
      ensures s'.reqs[q].table[c] == NULL_BLOCK || Fresh(s', q, s'.reqs[q].table, c)
    {
      assert Open(m.blockSize, |s.reqs[q].done|, c);
      if s.reqs[q].table[c] != NULL_BLOCK {
        assert Fresh(s, q, s.reqs[q].table, c);
      }
    }
  }

  lemma CacheKept<S, T(!new)>(m: Model<S, T>, s: Sys<S, T>, mem': seq<Blk<S, T>>, r: nat)
    requires m.blockSize > 0 && Inv(m, s) && r in s.reqs
    requires WritesOnlyOpen(m, s.mem, mem', s.reqs[r].table, |s.reqs[r].done|)
    ensures CacheOk(m, s.(mem := mem'))
  {
    forall p | p in s.cache ensures mem'[s.cache[p]] == s.mem[s.cache[p]] {
    }
  }

  /** An update of one request that writes only its open columns keeps the invariant, if the request itself is
      left in order. */
  lemma UpdateKeepsInv<S, T(!new)>(m: Model<S, T>, s: Sys<S, T>, mem': seq<Blk<S, T>>, r: nat, q': Req<T>)
    requires m.blockSize > 0 && Inv(m, s) && r in s.reqs
    requires WritesOnlyOpen(m, s.mem, mem', s.reqs[r].table, |s.reqs[r].done|)
    requires MemOk(m, mem') && ReqHolds(m, mem', q')
    requires q'.table == s.reqs[r].table && |q'.done| >= |s.reqs[r].done|
    ensures Inv(m, Sys(mem', s.reqs[r := q'], s.cache))
  {
    var s' := Sys(mem', s.reqs[r := q'], s.cache);
    forall q | q in s'.reqs ensures ReqHolds(m, s'.mem, s'.reqs[q]) {
      if q != r { OthersKept(m, s, mem', r, q); }
    }
    PrivateKept(m, s, s');
    CacheKept(m, s, mem', r);
    assert CacheOk(m, s');
  }

  // ---------------------------------------------------------------- each step keeps the invariant

  /** Growing the table gives the request fresh blocks and takes nothing away. */
  lemma GrowKeepsInv<S, T(!new)>(m: Model<S, T>, s: Sys<S, T>, r: nat, table: seq<nat>)
    requires m.blockSize > 0 && Inv(m, s) && r in s.reqs && s.reqs[r].phase.Idle?
    requires TableOk(s.mem, table) && Grown(s, r, s.reqs[r].table, table)
    ensures Inv(m, s.(reqs := s.reqs[r := s.reqs[r].(table := table)]))
  {
    var s' := s.(reqs := s.reqs[r := s.reqs[r].(table := table)]);
    KeptHolds(m, s.mem, s.reqs[r], table);
    forall q | q in s'.reqs ensures ReqHolds(m, s'.mem, s'.reqs[q]) {
    }
    GrowKeepsPrivate(m, s, s', r, table);
  }

  /** A table that keeps the blocks it has addresses what it addressed before. */
  lemma KeptHolds<S, T>(m: Model<S, T>, mem: seq<Blk<S, T>>, q: Req<T>, table: seq<nat>)
    requires m.blockSize > 0 && ReqHolds(m, mem, q) && q.phase.Idle? && TableOk(mem, table) && |q.table| <= |table|
    requires forall c | 0 <= c < |q.table| && q.table[c] != NULL_BLOCK :: table[c] == q.table[c]
    ensures ReqHolds(m, mem, q.(table := table))
  {
    forall j | j in q.saved ensures SavedAt(m, mem, q.(table := table), j) {
      assert SavedAt(m, mem, q, j);
      KeptAt(m, mem, q.table, table, j, 0, q.done[..(j + 1) * m.blockSize]);
    }
    if q.done != [] {
      KeptAt(m, mem, q.table, table, CurrentColumn(q, m.blockSize), q.accepted - 1, q.done);
    }
  }

  lemma KeptAt<S, T>(m: Model<S, T>, mem: seq<Blk<S, T>>, held: seq<nat>, table: seq<nat>, col: int, k: nat,
                     toks: seq<T>)
    requires Holds(m, mem, held, col, k, toks) && |held| <= |table|
    requires forall c | 0 <= c < |held| && held[c] != NULL_BLOCK :: table[c] == held[c]
    ensures Holds(m, mem, table, col, k, toks)
  {
  }

  lemma GrowKeepsPrivate<S, T(!new)>(m: Model<S, T>, s: Sys<S, T>, s': Sys<S, T>, r: nat, table: seq<nat>)
    requires Private(m, s) && r in s.reqs && Grown(s, r, s.reqs[r].table, table)
    requires s' == s.(reqs := s.reqs[r := s.reqs[r].(table := table)])
    ensures Private(m, s')
  {
    var held := s.reqs[r].table;
    forall q, c | q in s'.reqs && 0 <= c < |s'.reqs[q].table| && Open(m.blockSize, |s'.reqs[q].done|, c)
      ensures s'.reqs[q].table[c] == NULL_BLOCK || Fresh(s', q, s'.reqs[q].table, c)
    {
      var b := s'.reqs[q].table[c];
      if b != NULL_BLOCK {
        if q != r {
          assert Fresh(s, q, s.reqs[q].table, c);
          forall c' | 0 <= c' < |table| ensures table[c'] != b {
            if c' < |held| && held[c'] != NULL_BLOCK {
            } else if table[c'] != NULL_BLOCK {
              assert Fresh(s, r, table, c');
            }
          }
        } else if c < |held| && held[c] != NULL_BLOCK {
          assert Fresh(s, r, held, c);
          forall c' | 0 <= c' < |table| && c' != c ensures table[c'] != b {
            if c' < |held| && held[c'] != NULL_BLOCK {
            } else if table[c'] != NULL_BLOCK {
              assert Fresh(s, r, table, c');
            }
          }
        } else {
          assert Fresh(s, r, table, c);
        }
      }
    }
  }

  /** The copied state stands at offset 0 of the destination column. */
  lemma CopyMoves<S, T>(m: Model<S, T>, mem: seq<Blk<S, T>>, table: seq<nat>, src: int, dst: int, bias: nat,
                        toks: seq<T>)
    requires MemOk(m, mem) && CanCopy(mem, table, src, dst, bias) && table[dst] != NULL_BLOCK
    requires Holds(m, mem, table, src, bias, toks)
    ensures var mem' := CopyState(mem, table, src, dst, bias);
            MemOk(m, mem') && Holds(m, mem', table, dst, 0, toks)
  {
    var from, to := mem[table[src]].window, mem[table[dst]].window;
    assert (from[bias..] + to[|to| - bias..])[0..m.hist] == from[bias..bias + m.hist];
  }

  lemma PreparedHolds<S, T>(m: Model<S, T>, mem: seq<Blk<S, T>>, mem': seq<Blk<S, T>>, q: Req<T>, q': Req<T>,
                            known: seq<T>, drafts: seq<T>, table: seq<nat>)
    requires ModelOk(m) && q.phase.Idle? && Prepares(m, mem, mem', q, q', known, drafts, table)
    requires MemOk(m, mem) && AtRest(m, mem, q.(table := table))
    ensures MemOk(m, mem') && WritesOnlyOpen(m, mem, mem', table, |q.done|) && MidStep(m, mem', q')
  {
    var prev, curr := CurrentColumn(q, m.blockSize), RunningColumn(|q.done|, |known| + |drafts|, m.spec, m.blockSize);
    ColumnOpen(m.blockSize, |q.done|, |known|, |drafts|, m.spec, 0);
    if prev != -1 && prev != curr && q.done != [] {
      CopyMoves(m, mem, table, prev, curr, q.accepted - 1, q.done);
    }
    WritesOpenColumn(m, mem, mem', table, |q.done|, curr);
  }

  lemma PrepareKeepsInv<S, T(!new)>(m: Model<S, T>, s: Sys<S, T>, s': Sys<S, T>, r: nat, known: seq<T>, drafts: seq<T>,
                                    table: seq<nat>)
    requires ModelOk(m) && Inv(m, s) && Prepare(m, s, s', r, known, drafts, table)
    ensures Inv(m, s')
  {
    var g, q' := s.(reqs := s.reqs[r := s.reqs[r].(table := table)]), s'.reqs[r];
    GrowKeepsInv(m, s, r, table);
    PreparedHolds(m, s.mem, s'.mem, s.reqs[r], q', known, drafts, table);
    assert s' == Sys(s'.mem, g.reqs[r := q'], g.cache);
    StepUpdate(m, g, s', r, q');
  }

  /** UpdateKeepsInv for a request in the middle of a step, whose saved columns do not change. */
  lemma StepUpdate<S, T(!new)>(m: Model<S, T>, s: Sys<S, T>, s': Sys<S, T>, r: nat, q': Req<T>)
    requires m.blockSize > 0 && Inv(m, s) && r in s.reqs && MemOk(m, s'.mem)
    requires s' == Sys(s'.mem, s.reqs[r := q'], s.cache)
    requires WritesOnlyOpen(m, s.mem, s'.mem, s.reqs[r].table, |s.reqs[r].done|)
    requires var q := s.reqs[r]; q'.table == q.table && q'.done == q.done && q'.saved == q.saved
    requires MidStep(m, s'.mem, q')
    ensures Inv(m, s')
  {
    OwnDistinct(m, s, r);
    SavedKept(m, s.mem, s'.mem, s.reqs[r]);
    assert SavedHold(m, s'.mem, q');
    UpdateKeepsInv(m, s, s'.mem, r, q');
  }

  lemma WritesOpenColumn<S, T>(m: Model<S, T>, mem: seq<Blk<S, T>>, mem': seq<Blk<S, T>>, table: seq<nat>,
                               computed: nat, c: int)
    requires 0 <= c < |table| && table[c] != NULL_BLOCK && Open(m.blockSize, computed, c)
    requires |mem'| == |mem| && forall b | 0 <= b < |mem| && b != table[c] :: mem'[b] == mem[b]
    ensures WritesOnlyOpen(m, mem, mem', table, computed)
  {
  }

  /** Saved columns end inside the computed tokens, so a write to open columns does not touch them. */
  lemma SavedKept<S, T>(m: Model<S, T>, mem: seq<Blk<S, T>>, mem': seq<Blk<S, T>>, q: Req<T>)
    requires SavedHold(m, mem, q) && Distinct(m, q.table, |q.done|) && WritesOnlyOpen(m, mem, mem', q.table, |q.done|)
    ensures SavedHold(m, mem', q)
  {
    forall j | j in q.saved ensures SavedAt(m, mem', q, j) {
      assert SavedAt(m, mem, q, j) && !Open(m.blockSize, |q.done|, j);
      assert mem'[q.table[j]] == mem[q.table[j]];
    }
  }

  /** Within one table the block of an open column is used once. */
  ghost predicate Distinct<S, T>(m: Model<S, T>, table: seq<nat>, computed: nat) {
    forall c, c' | 0 <= c < |table| && Open(m.blockSize, computed, c) && table[c] != NULL_BLOCK
                   && 0 <= c' < |table| && c' != c ::
      table[c'] != table[c]
  }

  lemma OwnDistinct<S, T(!new)>(m: Model<S, T>, s: Sys<S, T>, r: nat)
    requires Private(m, s) && r in s.reqs
    ensures Distinct(m, s.reqs[r].table, |s.reqs[r].done|)
  {
    forall c | 0 <= c < |s.reqs[r].table| && Open(m.blockSize, |s.reqs[r].done|, c) && s.reqs[r].table[c] != NULL_BLOCK
      ensures Fresh(s, r, s.reqs[r].table, c)
    {
    }
  }

  /** The forward pass turns the addressed state into the states after every number of drafts. */
  lemma ForwardHolds<S, T>(m: Model<S, T>, mem: seq<Blk<S, T>>, mem': seq<Blk<S, T>>, table: seq<nat>, done: seq<T>,
                           col: int, k0: int, known: seq<T>, drafts: seq<T>, k: nat)
    requires Forwards(m, mem, mem', table, done == [], col, k0, known, drafts) && k <= |drafts|
    requires done != [] ==> 0 <= k0 && Holds(m, mem, table, col, k0, done)
    requires k + m.hist <= |mem[table[col]].window| && table[col] != NULL_BLOCK && table[col + k] != NULL_BLOCK
    ensures Holds(m, mem', table, col, k, done + known + drafts[..k])
  {
    var more := known + drafts[..k];
    assert done + more == done + known + drafts[..k];
    FoldAppend(m, m.init, done, more);
    HistoryAppend(m, done, more);
    if done == [] {
      assert Padding(m) + [] == Padding(m);
    }
    assert table[col] < |mem|;
  }

  /** The running column and the speculative columns after it end after the known tokens. */
  lemma ColumnOpen(blockSize: nat, computed: nat, known: nat, drafts: nat, spec: nat, k: nat)
    requires blockSize > 0 && known > 0
    ensures var c := RunningColumn(computed, known + drafts, spec, blockSize) + k;
            c >= 0 && (c + 1) * blockSize >= computed + known && Open(blockSize, computed, c)
  {
    var c := RunningColumn(computed, known + drafts, spec, blockSize);
    RunningColumnBounds(computed, known + drafts, spec, blockSize);
    Multiples(c + 1, c + k + 1, blockSize);
  }

  lemma ForwardWritesOpen<S, T>(m: Model<S, T>, mem: seq<Blk<S, T>>, mem': seq<Blk<S, T>>, q: Req<T>, known: seq<T>,
                                drafts: seq<T>)
    requires m.blockSize > 0 && StepOk(m, q, known, drafts)
    requires Forwards(m, mem, mem', q.table, q.done == [], q.column.value, q.accepted - 1, known, drafts)
    ensures WritesOnlyOpen(m, mem, mem', q.table, |q.done|)
  {
    var col := q.column.value;
    forall b | 0 <= b < |mem| && mem'[b] != mem[b]
      ensures exists c :: 0 <= c < |q.table| && q.table[c] == b && b != NULL_BLOCK && Open(m.blockSize, |q.done|, c)
    {
      var k :| 0 <= k <= |drafts| && q.table[col..col + |drafts| + 1][k] == b;
      assert q.table[col + k] == b;
      ColumnOpen(m.blockSize, |q.done|, |known|, |drafts|, m.spec, k);
    }
  }

  lemma ForwardedHolds<S, T>(m: Model<S, T>, mem: seq<Blk<S, T>>, mem': seq<Blk<S, T>>, q: Req<T>, known: seq<T>,
                             drafts: seq<T>)
    requires ModelOk(m) && MemOk(m, mem) && MidStep(m, mem, q) && q.phase == Phase.Prepared(known, drafts)
    requires Forwards(m, mem, mem', q.table, q.done == [], q.column.value, q.accepted - 1, known, drafts)
    ensures MemOk(m, mem')
    ensures forall k | 0 <= k <= |drafts| :: Holds(m, mem', q.table, q.column.value, k, q.done + known + drafts[..k])
  {
    forall k | 0 <= k <= |drafts| ensures Holds(m, mem', q.table, q.column.value, k, q.done + known + drafts[..k]) {
      ForwardedHold(m, mem, mem', q, known, drafts, k);
    }
  }

  /** The running column and the k-th one after it have blocks, with room for k drafts in the window. */
  lemma ForwardColumns<S, T>(m: Model<S, T>, mem: seq<Blk<S, T>>, q: Req<T>, known: seq<T>, drafts: seq<T>, k: nat)
    requires ModelOk(m) && MemOk(m, mem) && TableOk(mem, q.table) && StepOk(m, q, known, drafts) && k <= |drafts|
    ensures var col := q.column.value;
            && 0 <= col && col + k < |q.table| && q.table[col] != NULL_BLOCK && q.table[col + k] != NULL_BLOCK
            && k + m.hist <= |mem[q.table[col]].window|
  {
    ColumnOpen(m.blockSize, |q.done|, |known|, |drafts|, m.spec, 0);
    ColumnOpen(m.blockSize, |q.done|, |known|, |drafts|, m.spec, k);
  }

  lemma ForwardedHold<S, T>(m: Model<S, T>, mem: seq<Blk<S, T>>, mem': seq<Blk<S, T>>, q: Req<T>, known: seq<T>,
                            drafts: seq<T>, k: nat)
    requires ModelOk(m) && MemOk(m, mem) && MidStep(m, mem, q) && q.phase == Phase.Prepared(known, drafts)
    requires k <= |drafts|
    requires Forwards(m, mem, mem', q.table, q.done == [], q.column.value, q.accepted - 1, known, drafts)
    ensures Holds(m, mem', q.table, q.column.value, k, q.done + known + drafts[..k])
  {
    ForwardColumns(m, mem, q, known, drafts, k);
    ForwardHolds(m, mem, mem', q.table, q.done, q.column.value, q.accepted - 1, known, drafts, k);
  }

  lemma ForwardStaysOpen<S, T(!new)>(m: Model<S, T>, s: Sys<S, T>, s': Sys<S, T>, r: nat)
    requires ModelOk(m) && Inv(m, s) && Forward(m, s, s', r)
    ensures WritesOnlyOpen(m, s.mem, s'.mem, s.reqs[r].table, |s.reqs[r].done|)
  {
    var q := s.reqs[r];
    ForwardWritesOpen(m, s.mem, s'.mem, q, q.phase.known, q.phase.drafts);
  }

  lemma ForwardedMid<S, T>(m: Model<S, T>, mem: seq<Blk<S, T>>, mem': seq<Blk<S, T>>, q: Req<T>)
    requires ModelOk(m) && MemOk(m, mem) && MidStep(m, mem, q) && q.phase.Prepared?
    requires Forwards(m, mem, mem', q.table, q.done == [], q.column.value, q.accepted - 1, q.phase.known,
                      q.phase.drafts)
    ensures MemOk(m, mem') && MidStep(m, mem', q.(phase := Phase.Forwarded(q.phase.known, q.phase.drafts)))
  {
    ForwardedHolds(m, mem, mem', q, q.phase.known, q.phase.drafts);
  }

  lemma ForwardKeepsInv<S, T(!new)>(m: Model<S, T>, s: Sys<S, T>, s': Sys<S, T>, r: nat)
    requires ModelOk(m) && Inv(m, s) && Forward(m, s, s', r)
    ensures Inv(m, s')
  {
    ForwardStaysOpen(m, s, s', r);
    assert ReqHolds(m, s.mem, s.reqs[r]);
    ForwardedMid(m, s.mem, s'.mem, s.reqs[r]);
    StepUpdate(m, s, s', r, s'.reqs[r]);
  }

  /** What a save touches: an open column of its own, and the running column only when it then addresses the saved
      state itself. */
  ghost predicate SaveFits<S, T>(m: Model<S, T>, table: seq<nat>, computed: nat, src: int, post: Post, accepted: nat) {
    post.Save? ==>
      && 0 <= post.dest <= src < |table| && 0 <= post.bias <= accepted - 1
      && Open(m.blockSize, computed, post.dest) && table[post.dest] != NULL_BLOCK
      && (post.reset <==> post.dest == src) && (post.reset ==> post.bias == accepted - 1)
      && (post.copies <==> post.dest != src || post.bias > 0)
  }

  /** What SaveSound means for a request that has just run forward. */
  lemma DecisionFacts<S, T>(m: Model<S, T>, q: Req<T>, known: seq<T>, drafts: seq<T>, accepted: nat)
    requires m.blockSize > 0 && StepOk(m, q, known, drafts) && q.phase == Phase.Forwarded(known, drafts)
    requires 1 <= accepted <= |drafts| + 1
    ensures SaveFits(m, q.table, |q.done|, q.column.value, Decision(q, accepted, m.blockSize), accepted)
    ensures var post := Decision(q, accepted, m.blockSize);
            post.Save? ==> (post.dest + 1) * m.blockSize == |q.done| + |known| + post.bias
  {
    if Decision(q, accepted, m.blockSize).Save? {
      SaveSound(|q.done|, |known| + |drafts|, |drafts|, accepted, m.spec, m.blockSize);
    }
  }

  lemma CopyKeepsSizes<S, T>(m: Model<S, T>, mem: seq<Blk<S, T>>, table: seq<nat>, src: int, dst: int, bias: nat)
    requires MemOk(m, mem) && CanCopy(mem, table, src, dst, bias)
    ensures MemOk(m, CopyState(mem, table, src, dst, bias))
  {
  }

  /** A state is not disturbed by a copy to a block that is not among its own. */
  lemma CopyElsewhere<S, T>(m: Model<S, T>, mem: seq<Blk<S, T>>, table: seq<nat>, src: int, dst: int, bias: nat, k: nat,
                            toks: seq<T>)
    requires CanCopy(mem, table, src, dst, bias) && Holds(m, mem, table, src, k, toks)
    requires table[dst] != table[src] && table[dst] != table[src + k]
    ensures Holds(m, CopyState(mem, table, src, dst, bias), table, src, k, toks)
  {
  }

  /** The addressed state survives the save, at the offset that the count then says. */
  lemma SaveRests<S, T>(m: Model<S, T>, mem: seq<Blk<S, T>>, table: seq<nat>, computed: nat, src: int, post: Post,
                        accepted: nat, toks: seq<T>)
    requires MemOk(m, mem) && Distinct(m, table, computed) && SaveFits(m, table, computed, src, post, accepted)
    requires post.Save? && post.copies && CanCopy(mem, table, src, post.dest, post.bias) && accepted >= 1
    requires Holds(m, mem, table, src, accepted - 1, toks)
    ensures var mem' := CopyState(mem, table, src, post.dest, post.bias);
            MemOk(m, mem') && Holds(m, mem', table, src, (if post.reset then 1 else accepted) - 1, toks)
  {
    CopyKeepsSizes(m, mem, table, src, post.dest, post.bias);
    if post.reset {
      CopyMoves(m, mem, table, src, post.dest, post.bias, toks);
    } else {
      CopyElsewhere(m, mem, table, src, post.dest, post.bias, accepted - 1, toks);
    }
  }

  /** After acceptance the addressed state is the state after the accepted tokens, saved or not. */
  lemma AcceptedAtRest<S, T>(m: Model<S, T>, mem: seq<Blk<S, T>>, mem': seq<Blk<S, T>>, q: Req<T>, q': Req<T>,
                             accepted: nat)
    requires ModelOk(m) && MemOk(m, mem) && MidStep(m, mem, q) && Distinct(m, q.table, |q.done|)
    requires Accepts(m, mem, mem', q, q', accepted)
    ensures MemOk(m, mem') && WritesOnlyOpen(m, mem, mem', q.table, |q.done|) && AtRest(m, mem', q')
  {
    var post, src := Decision(q, accepted, m.blockSize), q.column.value;
    assert Holds(m, mem, q.table, src, accepted - 1, q'.done);
    DecisionFacts(m, q, q.phase.known, q.phase.drafts, accepted);
    if post.Save? && post.copies {
      SaveRests(m, mem, q.table, |q.done|, src, post, accepted, q'.done);
      WritesOpenColumn(m, mem, mem', q.table, |q.done|, post.dest);
    }
  }

  /** The column a step saves holds the state after exactly (dest + 1) * blockSize tokens, all of them accepted. */
  lemma AcceptedBoundary<S, T>(m: Model<S, T>, mem: seq<Blk<S, T>>, mem': seq<Blk<S, T>>, q: Req<T>, q': Req<T>,
                               accepted: nat)
    requires ModelOk(m) && MemOk(m, mem) && MidStep(m, mem, q) && Accepts(m, mem, mem', q, q', accepted)
    requires Decision(q, accepted, m.blockSize).Save?
    ensures var j := Decision(q, accepted, m.blockSize).dest;
            j >= 0 && SavedAt(m, mem', q', j)
  {
    var known, drafts, post := q.phase.known, q.phase.drafts, Decision(q, accepted, m.blockSize);
    DecisionFacts(m, q, known, drafts, accepted);
    var toks := q.done + known + drafts[..post.bias];
    assert Holds(m, mem, q.table, q.column.value, post.bias, toks);
    assert q'.done[..(post.dest + 1) * m.blockSize] == toks;
    if post.copies {
      CopyMoves(m, mem, q.table, q.column.value, post.dest, post.bias, toks);
    }
  }

  lemma SamePrefix<T>(a: seq<T>, b: seq<T>, n: int)
    requires 0 <= n <= |a| <= |b| && b[..|a|] == a
    ensures b[..n] == a[..n]
  {
    assert b[..|a|][..n] == b[..n];
  }

  /** A column saved before the step still holds its tokens, which the request has kept. */
  lemma OldSaveHolds<S, T>(m: Model<S, T>, mem': seq<Blk<S, T>>, q: Req<T>, q': Req<T>, j: nat)
    requires j in q.saved && SavedHold(m, mem', q) && q'.table == q.table && |q.done| <= |q'.done|
    requires q'.done[..|q.done|] == q.done
    ensures SavedAt(m, mem', q', j)
  {
    assert SavedAt(m, mem', q, j);
    assert (j + 1) * m.blockSize >= 0;
    SamePrefix(q.done, q'.done, (j + 1) * m.blockSize);
  }

  /** The frame of the saved columns: old ones keep their tokens, so only a new one needs a proof. */
  lemma SavedGrows<S, T>(m: Model<S, T>, mem': seq<Blk<S, T>>, q: Req<T>, q': Req<T>)
    requires SavedHold(m, mem', q) && q'.table == q.table && |q.done| <= |q'.done| && q'.done[..|q.done|] == q.done
    requires forall j | j in q'.saved && j !in q.saved :: SavedAt(m, mem', q', j)
    ensures SavedHold(m, mem', q')
  {
    forall j | j in q'.saved && j in q.saved ensures SavedAt(m, mem', q', j) {
      OldSaveHolds(m, mem', q, q', j);
    }
  }

  /** Acceptance appends tokens and records at most the saved column. */
  lemma AcceptedGrows<S, T>(m: Model<S, T>, mem: seq<Blk<S, T>>, mem': seq<Blk<S, T>>, q: Req<T>, q': Req<T>,
                            accepted: nat)
    requires m.blockSize > 0 && Accepts(m, mem, mem', q, q', accepted)
    ensures q'.table == q.table && |q.done| <= |q'.done| && q'.done[..|q.done|] == q.done
    ensures var post := Decision(q, accepted, m.blockSize);
            forall j | j in q'.saved && j !in q.saved :: post.Save? && j == post.dest
  {
    var more := q.phase.known + q.phase.drafts[..accepted - 1];
    assert q'.done == q.done + more;
  }

  /** The column that acceptance records is saved. */
  lemma NewSaveHolds<S, T>(m: Model<S, T>, mem: seq<Blk<S, T>>, mem': seq<Blk<S, T>>, q: Req<T>, q': Req<T>,
                           accepted: nat, j: nat)
    requires ModelOk(m) && MemOk(m, mem) && MidStep(m, mem, q) && Accepts(m, mem, mem', q, q', accepted)
    requires j in q'.saved && j !in q.saved
    ensures SavedAt(m, mem', q', j)
  {
    AcceptedGrows(m, mem, mem', q, q', accepted);
    AcceptedBoundary(m, mem, mem', q, q', accepted);
  }

  lemma AcceptedSaved<S, T>(m: Model<S, T>, mem: seq<Blk<S, T>>, mem': seq<Blk<S, T>>, q: Req<T>, q': Req<T>,
                            accepted: nat)
    requires ModelOk(m) && MemOk(m, mem) && MidStep(m, mem, q) && Distinct(m, q.table, |q.done|) && SavedHold(m, mem, q)
    requires Accepts(m, mem, mem', q, q', accepted) && WritesOnlyOpen(m, mem, mem', q.table, |q.done|)
    ensures SavedHold(m, mem', q')
  {
    SavedKept(m, mem, mem', q);
    AcceptedGrows(m, mem, mem', q, q', accepted);
    forall j | j in q'.saved && j !in q.saved ensures SavedAt(m, mem', q', j) {
      NewSaveHolds(m, mem, mem', q, q', accepted, j);
    }
    SavedGrows(m, mem', q, q');
  }

  lemma AcceptKeepsInv<S, T(!new)>(m: Model<S, T>, s: Sys<S, T>, s': Sys<S, T>, r: nat, accepted: nat)
    requires ModelOk(m) && Inv(m, s) && Accept(m, s, s', r, accepted)
    ensures Inv(m, s')
  {
    OwnDistinct(m, s, r);
    AcceptedAtRest(m, s.mem, s'.mem, s.reqs[r], s'.reqs[r], accepted);
    AcceptedSaved(m, s.mem, s'.mem, s.reqs[r], s'.reqs[r], accepted);
    UpdateKeepsInv(m, s, s'.mem, r, s'.reqs[r]);
  }

  lemma AdmitKeepsInv<S, T(!new)>(m: Model<S, T>, s: Sys<S, T>, s': Sys<S, T>, r: nat, prefix: seq<T>, table: seq<nat>)
    requires ModelOk(m) && Inv(m, s) && Admit(m, s, s', r, prefix, table)
    ensures Inv(m, s')
  {
    var n := |prefix| / m.blockSize;
    if prefix != [] {
      SeedOfHit(|prefix|, m.blockSize);
      assert IsState(m, s.mem[s.cache[prefix]], s.mem[s.cache[prefix]], 0, prefix);
      assert prefix[..|prefix|] == prefix;
    }
    assert ReqHolds(m, s.mem, s'.reqs[r]);
    AdmitPrivate(m, s, s', r, prefix, table);
  }

  lemma AdmitPrivate<S, T(!new)>(m: Model<S, T>, s: Sys<S, T>, s': Sys<S, T>, r: nat, prefix: seq<T>, table: seq<nat>)
    requires m.blockSize > 0 && Private(m, s) && Admit(m, s, s', r, prefix, table)
    requires |prefix| % m.blockSize == 0
    ensures Private(m, s')
  {
    var n := |prefix| / m.blockSize;
    forall q, c | q in s'.reqs && 0 <= c < |s'.reqs[q].table| && Open(m.blockSize, |s'.reqs[q].done|, c)
      ensures s'.reqs[q].table[c] == NULL_BLOCK || Fresh(s', q, s'.reqs[q].table, c)
    {
      var b := s'.reqs[q].table[c];
      if b != NULL_BLOCK {
        if q == r {
          OrderOfMultiples(c + 1, n, m.blockSize);
          assert Fresh(s, r, table, c);
        } else {
          assert Fresh(s, q, s.reqs[q].table, c);
          forall c' | 0 <= c' < |table| ensures table[c'] != b {
            if c' >= n && table[c'] != NULL_BLOCK {
              assert Fresh(s, r, table, c');
            }
          }
        }
      }
    }
  }

  lemma PublishPrivate<S, T(!new)>(m: Model<S, T>, s: Sys<S, T>, s': Sys<S, T>, r: nat, j: nat)
    requires Private(m, s) && Publish(m, s, s', r, j)
    ensures Private(m, s')
  {
    assert !Open(m.blockSize, |s.reqs[r].done|, j);
    forall o, c | o in s'.reqs && 0 <= c < |s'.reqs[o].table| && Open(m.blockSize, |s'.reqs[o].done|, c)
      ensures s'.reqs[o].table[c] == NULL_BLOCK || Fresh(s', o, s'.reqs[o].table, c)
    {
      if s'.reqs[o].table[c] != NULL_BLOCK {
        assert Fresh(s, o, s.reqs[o].table, c);
      }
    }
  }

  lemma PublishKeepsInv<S, T(!new)>(m: Model<S, T>, s: Sys<S, T>, s': Sys<S, T>, r: nat, j: nat)
    requires ModelOk(m) && Inv(m, s) && Publish(m, s, s', r, j)
    ensures Inv(m, s')
  {
    SavedIsComplete(m, s, r, j);
    DivMul(j + 1, m.blockSize);
    Multiples(1, j + 1, m.blockSize);
    PublishPrivate(m, s, s', r, j);
  }

  lemma DroppedHolds<S, T>(m: Model<S, T>, mem: seq<Blk<S, T>>, q: Req<T>, q': Req<T>, c: nat)
    requires m.blockSize > 0 && ReqHolds(m, mem, q) && q.phase.Idle? && c < |q.table| && NULL_BLOCK < |mem|
    requires c != CurrentColumn(q, m.blockSize) && c != CurrentColumn(q, m.blockSize) + q.accepted - 1
    requires q' == q.(table := q.table[c := NULL_BLOCK], saved := q.saved - {c})
    ensures ReqHolds(m, mem, q')
  {
    forall j | j in q'.saved ensures Holds(m, mem, q'.table, j, 0, q'.done[..(j + 1) * m.blockSize]) {
      assert Holds(m, mem, q.table, j, 0, q.done[..(j + 1) * m.blockSize]);
    }
  }

  lemma DropPrivate<S, T(!new)>(m: Model<S, T>, s: Sys<S, T>, s': Sys<S, T>, r: nat, c: nat)
    requires Private(m, s) && r in s.reqs && c < |s.reqs[r].table|
    requires r in s'.reqs && s' == s.(reqs := s.reqs[r := s'.reqs[r]])
    requires s'.reqs[r].table == s.reqs[r].table[c := NULL_BLOCK] && s'.reqs[r].done == s.reqs[r].done
    ensures Private(m, s')
  {
    forall o, d | o in s'.reqs && 0 <= d < |s'.reqs[o].table| && Open(m.blockSize, |s'.reqs[o].done|, d)
      ensures s'.reqs[o].table[d] == NULL_BLOCK || Fresh(s', o, s'.reqs[o].table, d)
    {
      if s'.reqs[o].table[d] != NULL_BLOCK {
        assert Fresh(s, o, s.reqs[o].table, d);
      }
    }
  }

  lemma DropKeepsInv<S, T(!new)>(m: Model<S, T>, s: Sys<S, T>, s': Sys<S, T>, r: nat, c: nat)
    requires ModelOk(m) && Inv(m, s) && Drop(m, s, s', r, c)
    ensures Inv(m, s')
  {
    DroppedHolds(m, s.mem, s.reqs[r], s'.reqs[r], c);
    DropPrivate(m, s, s', r, c);
  }

  lemma RemovalKeepsInv<S, T(!new)>(m: Model<S, T>, s: Sys<S, T>, s': Sys<S, T>)
    requires m.blockSize > 0 && Inv(m, s) && s'.mem == s.mem
    requires s'.reqs.Keys <= s.reqs.Keys && (forall r | r in s'.reqs :: s'.reqs[r] == s.reqs[r])
    requires s'.cache.Keys <= s.cache.Keys && (forall p | p in s'.cache :: s'.cache[p] == s.cache[p])
    ensures Inv(m, s')
  {
    forall o, c | o in s'.reqs && 0 <= c < |s'.reqs[o].table| && Open(m.blockSize, |s'.reqs[o].done|, c)
      ensures s'.reqs[o].table[c] == NULL_BLOCK || Fresh(s', o, s'.reqs[o].table, c)
    {
      if s'.reqs[o].table[c] != NULL_BLOCK {
        assert Fresh(s, o, s.reqs[o].table, c);
      }
    }
  }

  /** Every step of every request keeps the invariant. */
  lemma NextKeepsInv<S, T(!new)>(m: Model<S, T>, s: Sys<S, T>, e: Event<T>, s': Sys<S, T>)
    requires ModelOk(m) && Inv(m, s) && Next(m, s, e, s')
    ensures Inv(m, s')
  {
    match e
    case DoAdmit(r, prefix, table) => AdmitKeepsInv(m, s, s', r, prefix, table);
    case DoPrepare(r, known, drafts, table) => PrepareKeepsInv(m, s, s', r, known, drafts, table);
    case DoForward(r) => ForwardKeepsInv(m, s, s', r);
    case DoAccept(r, accepted) => AcceptKeepsInv(m, s, s', r, accepted);
    case DoPublish(r, j) => PublishKeepsInv(m, s, s', r, j);
    case DoDrop(r, c) => DropKeepsInv(m, s, s', r, c);
    case DoRelease(r) => RemovalKeepsInv(m, s, s');
    case DoEvict(prefix) => RemovalKeepsInv(m, s, s');
  }

  // ---------------------------------------------------------------- whole runs

  /** No requests, nothing cached, blocks of any content. */
  ghost predicate Start<S, T>(m: Model<S, T>, s: Sys<S, T>) { s.reqs == map[] && s.cache == map[] && MemOk(m, s.mem) }

  ghost predicate Behavior<S, T(!new)>(m: Model<S, T>, trace: seq<Sys<S, T>>, events: seq<Event<T>>)
    requires m.blockSize > 0
  {
    && |trace| == |events| + 1 && Start(m, trace[0])
    && forall i | 0 <= i < |events| :: Next(m, trace[i], events[i], trace[i + 1])
  }

  lemma {:induction false} BehaviorInv<S, T(!new)>(m: Model<S, T>, trace: seq<Sys<S, T>>, events: seq<Event<T>>, i: nat)
    requires ModelOk(m) && Behavior(m, trace, events) && i < |trace|
    ensures Inv(m, trace[i])
  {
    if i > 0 {
      BehaviorInv(m, trace, events, i - 1);
      NextKeepsInv(m, trace[i - 1], events[i - 1], trace[i]);
    }
  }

  /** Main result. At every moment of every run, with any draft counts, acceptances, interleavings, preemptions and
      prefix hits: a request between steps with computed tokens is addressed by (column, accepted - 1) at exactly
      the state after those tokens, for the temporal state and the convolution history alike. */
  lemma AddressedStateCorrect<S, T(!new)>(m: Model<S, T>, trace: seq<Sys<S, T>>, events: seq<Event<T>>, i: nat, r: nat)
    requires ModelOk(m) && Behavior(m, trace, events) && i < |trace|
    requires r in trace[i].reqs && trace[i].reqs[r].phase.Idle? && trace[i].reqs[r].done != []
    ensures var s, q := trace[i], trace[i].reqs[r];
            var col, k := CurrentColumn(q, m.blockSize), q.accepted - 1;
            && 0 <= k <= m.spec && 0 <= col && col + k < |q.table| && q.table[col] < |s.mem|
            && q.table[col + k] < |s.mem|
            && s.mem[q.table[col + k]].temporal == Run(m, q.done)
            && |s.mem[q.table[col]].window| == m.width
            && s.mem[q.table[col]].window[k..k + m.hist] == History(m, q.done)
  {
    BehaviorInv(m, trace, events, i);
    assert ReqHolds(m, trace[i].mem, trace[i].reqs[r]);
  }

  /** Every cached block is, at every moment, the state after exactly the prefix it is cached under. */
  lemma CachedStateCorrect<S, T(!new)>(m: Model<S, T>, trace: seq<Sys<S, T>>, events: seq<Event<T>>, i: nat, p: seq<T>)
    requires ModelOk(m) && Behavior(m, trace, events) && i < |trace| && p in trace[i].cache
    ensures var b := trace[i].cache[p];
            && |p| > 0 && |p| % m.blockSize == 0 && b < |trace[i].mem| && m.hist <= |trace[i].mem[b].window|
            && trace[i].mem[b].temporal == Run(m, p) && trace[i].mem[b].window[0..m.hist] == History(m, p)
  {
    BehaviorInv(m, trace, events, i);
    assert CacheOk(m, trace[i]);
  }

  /** The block of a complete column that has one. */
  predicate CompleteBlock<S, T(==)>(m: Model<S, T>, s: Sys<S, T>, r: nat, c: int) {
    && r in s.reqs && 0 <= c < |s.reqs[r].table| && !Open(m.blockSize, |s.reqs[r].done|, c)
    && s.reqs[r].table[c] != NULL_BLOCK && s.reqs[r].table[c] < |s.mem|
  }

  /** No step of any request writes a block that some request holds in a complete column. */
  lemma CompleteColumnsUntouched<S, T(!new)>(m: Model<S, T>, s: Sys<S, T>, e: Event<T>, s': Sys<S, T>, r: nat, c: int)
    requires ModelOk(m) && Inv(m, s) && Next(m, s, e, s') && CompleteBlock(m, s, r, c)
    ensures |s'.mem| == |s.mem| && s'.mem[s.reqs[r].table[c]] == s.mem[s.reqs[r].table[c]]
  {
    if s'.mem != s.mem {
      var w := WriterOf(m, s, e, s');
      CompleteUnwritten(m, s, s'.mem, w, s'.reqs[w].table, r, c);
    }
  }

  /** Nor a block that is cached. */
  lemma CachedBlocksUntouched<S, T(!new)>(m: Model<S, T>, s: Sys<S, T>, e: Event<T>, s': Sys<S, T>, p: seq<T>)
    requires ModelOk(m) && Inv(m, s) && Next(m, s, e, s') && p in s.cache && s.cache[p] < |s.mem|
    ensures |s'.mem| == |s.mem| && s'.mem[s.cache[p]] == s.mem[s.cache[p]]
  {
    if s'.mem != s.mem {
      var w := WriterOf(m, s, e, s');
    }
  }

  lemma CompleteUnwritten<S, T(!new)>(m: Model<S, T>, s: Sys<S, T>, mem': seq<Blk<S, T>>, w: nat, table: seq<nat>,
                                      r: nat, c: int)
    requires w in s.reqs && StillPrivate(m, s, w, table) && WritesOnlyOpen(m, s.mem, mem', table, |s.reqs[w].done|)
    requires CompleteBlock(m, s, r, c)
    ensures mem'[s.reqs[r].table[c]] == s.mem[s.reqs[r].table[c]]
  {
  }

  /** The blocks of a table's open columns belong to nobody else's table, to no complete column and to no prefix. */
  ghost predicate StillPrivate<S, T(!new)>(m: Model<S, T>, s: Sys<S, T>, w: nat, table: seq<nat>)
    requires w in s.reqs
  {
    forall c | 0 <= c < |table| && Open(m.blockSize, |s.reqs[w].done|, c) && table[c] != NULL_BLOCK ::
      && (forall q, d | q in s.reqs && q != w && 0 <= d < |s.reqs[q].table| :: s.reqs[q].table[d] != table[c])
      && (forall d | 0 <= d < |s.reqs[w].table| && !Open(m.blockSize, |s.reqs[w].done|, d) &&
          s.reqs[w].table[d] != NULL_BLOCK ::
            s.reqs[w].table[d] != table[c])
      && (forall p | p in s.cache :: s.cache[p] != table[c])
  }

  lemma WriterOf<S, T(!new)>(m: Model<S, T>, s: Sys<S, T>, e: Event<T>, s': Sys<S, T>) returns (w: nat)
    requires ModelOk(m) && Inv(m, s) && Next(m, s, e, s') && s'.mem != s.mem
    ensures w in s.reqs && w in s'.reqs && WritesOnlyOpen(m, s.mem, s'.mem, s'.reqs[w].table, |s.reqs[w].done|)
    ensures StillPrivate(m, s, w, s'.reqs[w].table)
  {
    w := 0;
    match e
    case DoPrepare(r, known, drafts, table) =>
      w := r;
      PrepareWrites(m, s, s', r, known, drafts, table);
    case DoForward(r) =>
      w := r;
      ForwardStaysOpen(m, s, s', r);
      OwnPrivate(m, s, r);
    case DoAccept(r, accepted) =>
      w := r;
      OwnDistinct(m, s, r);
      AcceptedAtRest(m, s.mem, s'.mem, s.reqs[r], s'.reqs[r], accepted);
      OwnPrivate(m, s, r);
    case _ =>
      assert false;
  }

  lemma OwnPrivate<S, T(!new)>(m: Model<S, T>, s: Sys<S, T>, w: nat)
    requires Private(m, s) && w in s.reqs
    ensures StillPrivate(m, s, w, s.reqs[w].table)
  {
    forall c | 0 <= c < |s.reqs[w].table| && Open(m.blockSize, |s.reqs[w].done|, c) && s.reqs[w].table[c] != NULL_BLOCK
      ensures Fresh(s, w, s.reqs[w].table, c)
    {
    }
  }

  /** The grown table's open columns are as private as the old one's. */
  lemma GrownPrivate<S, T(!new)>(m: Model<S, T>, s: Sys<S, T>, w: nat, table: seq<nat>)
    requires Private(m, s) && w in s.reqs && Grown(s, w, s.reqs[w].table, table)
    ensures StillPrivate(m, s, w, table)
  {
    var g := s.(reqs := s.reqs[w := s.reqs[w].(table := table)]);
    GrowKeepsPrivate(m, s, g, w, table);
    forall c | 0 <= c < |table| && Open(m.blockSize, |s.reqs[w].done|, c) && table[c] != NULL_BLOCK
      ensures Fresh(g, w, table, c)
    {
      assert g.reqs[w].table[c] == table[c];
    }
    forall d | 0 <= d < |s.reqs[w].table| && s.reqs[w].table[d] != NULL_BLOCK ensures table[d] == s.reqs[w].table[d] {
    }
  }

  lemma PrepareWrites<S, T(!new)>(m: Model<S, T>, s: Sys<S, T>, s': Sys<S, T>, w: nat, known: seq<T>, drafts: seq<T>,
                                  table: seq<nat>)
    requires ModelOk(m) && Inv(m, s) && Prepare(m, s, s', w, known, drafts, table)
    ensures WritesOnlyOpen(m, s.mem, s'.mem, s'.reqs[w].table, |s.reqs[w].done|)
    ensures StillPrivate(m, s, w, s'.reqs[w].table)
  {
    GrownPrivate(m, s, w, table);
    KeptHolds(m, s.mem, s.reqs[w], table);
    PreparedHolds(m, s.mem, s'.mem, s.reqs[w], s'.reqs[w], known, drafts, table);
  }

  /** Saved boundaries are right and permanent: as long as the request keeps the column, the block a save has
      filled keeps its whole contents, and it holds the state after exactly (j + 1) * blockSize of its tokens. */
  lemma {:induction false} SavedForever<S, T(!new)>(m: Model<S, T>, trace: seq<Sys<S, T>>, events: seq<Event<T>>,
                                                    i: nat, n: nat, r: nat, j: nat)
    requires ModelOk(m) && Behavior(m, trace, events) && i <= n < |trace|
    requires r in trace[i].reqs && j in trace[i].reqs[r].saved
    requires forall k | i <= k < n :: events[k] != DoRelease(r) && events[k] != DoDrop(r, j)
    ensures r in trace[n].reqs && j in trace[n].reqs[r].saved
    ensures var q, q' := trace[i].reqs[r], trace[n].reqs[r];
            && j < |q.table| && j < |q'.table| && q'.table[j] == q.table[j] && q.table[j] < |trace[i].mem|
            && |trace[n].mem| == |trace[i].mem|
            && trace[n].mem[q'.table[j]] == trace[i].mem[q.table[j]]
            && (j + 1) * m.blockSize <= |q.done| && q.done <= q'.done
            && IsState(m, trace[n].mem[q'.table[j]], trace[n].mem[q'.table[j]], 0, q'.done[..(j + 1) * m.blockSize])
    decreases n - i
  {
    BehaviorInv(m, trace, events, i);
    SavedIsComplete(m, trace[i], r, j);
    if i < n {
      SavedStep(m, trace[i], events[i], trace[i + 1], r, j);
      SavedForever(m, trace, events, i + 1, n, r, j);
    }
  }

  lemma SavedIsComplete<S, T(!new)>(m: Model<S, T>, s: Sys<S, T>, r: nat, j: nat)
    requires ModelOk(m) && Inv(m, s) && r in s.reqs && j in s.reqs[r].saved
    ensures CompleteBlock(m, s, r, j) && (j + 1) * m.blockSize <= |s.reqs[r].done|
    ensures IsState(m, s.mem[s.reqs[r].table[j]], s.mem[s.reqs[r].table[j]], 0, s.reqs[r].done[..(j + 1) * m.blockSize])
  {
    assert ReqHolds(m, s.mem, s.reqs[r]);
    assert Holds(m, s.mem, s.reqs[r].table, j, 0, s.reqs[r].done[..(j + 1) * m.blockSize]);
  }

  lemma SavedStep<S, T(!new)>(m: Model<S, T>, s: Sys<S, T>, e: Event<T>, s': Sys<S, T>, r: nat, j: nat)
    requires ModelOk(m) && Inv(m, s) && Next(m, s, e, s') && e != DoRelease(r) && e != DoDrop(r, j)
    requires r in s.reqs && j in s.reqs[r].saved && CompleteBlock(m, s, r, j)
    ensures r in s'.reqs && j in s'.reqs[r].saved && s.reqs[r].done <= s'.reqs[r].done
    ensures j < |s'.reqs[r].table| && s'.reqs[r].table[j] == s.reqs[r].table[j] && |s'.mem| == |s.mem|
    ensures s'.mem[s.reqs[r].table[j]] == s.mem[s.reqs[r].table[j]]
  {
    CompleteColumnsUntouched(m, s, e, s', r, j);
    SavedRecordKept(m, s, e, s', r, j);
  }

  lemma SavedRecordKept<S, T(!new)>(m: Model<S, T>, s: Sys<S, T>, e: Event<T>, s': Sys<S, T>, r: nat, j: nat)
    requires m.blockSize > 0 && Next(m, s, e, s') && e != DoRelease(r) && e != DoDrop(r, j)
    requires r in s.reqs && j in s.reqs[r].saved && j < |s.reqs[r].table| && s.reqs[r].table[j] != NULL_BLOCK
    ensures r in s'.reqs && j in s'.reqs[r].saved && s.reqs[r].done <= s'.reqs[r].done
    ensures j < |s'.reqs[r].table| && s'.reqs[r].table[j] == s.reqs[r].table[j]
  {
  }

  // ---------------------------------------------------------------- the steps are never blocked

  /** The migration of a step always finds its source and destination columns. */
  lemma MigrationReady<S, T>(m: Model<S, T>, mem: seq<Blk<S, T>>, q: Req<T>, known: seq<T>, drafts: seq<T>,
                             table: seq<nat>)
    requires ModelOk(m) && MemOk(m, mem) && TableOk(mem, table) && q.phase.Idle? && AtRest(m, mem, q.(table := table))
    requires known != [] && |drafts| <= m.spec
    requires Allocated(m, table, |q.done| + |known|,
                       RunningColumn(|q.done|, |known| + |drafts|, m.spec, m.blockSize) + m.spec)
    ensures CurrentColumn(q, m.blockSize) != -1 ==>
              CanCopy(mem, table, CurrentColumn(q, m.blockSize),
                      RunningColumn(|q.done|, |known| + |drafts|, m.spec, m.blockSize), q.accepted - 1)
  {
    ColumnOpen(m.blockSize, |q.done|, |known|, |drafts|, m.spec, 0);
    if q.done == [] {
      SeedOfHit(0, m.blockSize);
    }
  }

  lemma SaveReady<S, T>(m: Model<S, T>, mem: seq<Blk<S, T>>, q: Req<T>, accepted: nat)
    requires ModelOk(m) && MemOk(m, mem) && TableOk(mem, q.table) && MidStep(m, mem, q) && q.phase.Forwarded?
    requires 1 <= accepted <= |q.phase.drafts| + 1
    ensures var post := Decision(q, accepted, m.blockSize);
            post.Save? ==> CanCopy(mem, q.table, q.column.value, post.dest, post.bias)
  {
    var post := Decision(q, accepted, m.blockSize);
    if post.Save? {
      DecisionFacts(m, q, q.phase.known, q.phase.drafts, accepted);
      assert Holds(m, mem, q.table, q.column.value, post.bias, q.done + q.phase.known + q.phase.drafts[..post.bias]);
    }
  }

  /** A forward pass as described exists: one window of hist + drafts tokens shows the right history at every offset. */
  function ForwardBlock<S, T>(m: Model<S, T>, b: Blk<S, T>, from: S, back: seq<T>, known: seq<T>, drafts: seq<T>,
                              k: nat): Blk<S, T>
    requires k <= |drafts| && m.hist + |drafts| <= |b.window| && |back| == m.hist
  {
    Blk(Fold(m, from, known + drafts[..k]),
        if k > 0 then b.window else LastN(back + known + drafts, m.hist + |drafts|) + b.window[m.hist + |drafts|..])
  }

  lemma WindowShows<S, T>(m: Model<S, T>, b: Blk<S, T>, from: S, back: seq<T>, known: seq<T>, drafts: seq<T>, k: nat)
    requires k <= |drafts| && m.hist + |drafts| <= |b.window| && |back| == m.hist
    ensures ForwardBlock(m, b, from, back, known, drafts, 0).window[k..k + m.hist] ==
              LastN(back + (known + drafts[..k]), m.hist)
  {
    assert back + known + drafts == back + (known + drafts[..k]) + drafts[k..];
  }

  /** Rewriting distinct blocks one after another. */
  lemma WriteAll<V>(mem: seq<V>, at: seq<nat>, blocks: seq<V>) returns (mem': seq<V>)
    requires |at| == |blocks| && (forall n | 0 <= n < |at| :: at[n] < |mem|)
    requires forall n, k | 0 <= n < k < |at| :: at[n] != at[k]
    ensures |mem'| == |mem| && (forall b | 0 <= b < |mem| && b !in at :: mem'[b] == mem[b])
    ensures forall n | 0 <= n < |at| :: mem'[at[n]] == blocks[n]
  {
    mem' := mem;
    for n := 0 to |at|
      invariant |mem'| == |mem| && (forall b | 0 <= b < |mem| && b !in at :: mem'[b] == mem[b])
      invariant forall k | 0 <= k < n :: mem'[at[k]] == blocks[k]
    {
      mem' := mem'[at[n] := blocks[n]];
    }
  }

  lemma WriteColumns<S, T>(m: Model<S, T>, mem: seq<Blk<S, T>>, table: seq<nat>, col: nat, from: S, back: seq<T>,
                           known: seq<T>, drafts: seq<T>) returns (mem': seq<Blk<S, T>>)
    requires TableOk(mem, table) && col + |drafts| < |table| && |back| == m.hist
    requires forall b | 0 <= b < |mem| :: m.hist + |drafts| <= |mem[b].window|
    requires forall c, d | col <= c < d <= col + |drafts| :: table[c] != table[d]
    ensures |mem'| == |mem| && forall b | 0 <= b < |mem| :: |mem'[b].window| == |mem[b].window|
    ensures forall b | 0 <= b < |mem| && b !in table[col..col + |drafts| + 1] :: mem'[b] == mem[b]
    ensures forall d | col <= d <= col + |drafts| ::
              mem'[table[d]] == ForwardBlock(m, mem[table[d]], from, back, known, drafts, d - col)
  {
    var at := table[col..col + |drafts| + 1];
    var blocks := seq(|at|, k requires 0 <= k < |at| => ForwardBlock(m, mem[at[k]], from, back, known, drafts, k));
    mem' := WriteAll(mem, at, blocks);
    forall b | 0 <= b < |mem| ensures |mem'[b].window| == |mem[b].window| {
      if k :| 0 <= k < |at| && at[k] == b {
        assert mem'[b] == blocks[k];
      }
    }
    forall d | col <= d <= col + |drafts|
      ensures mem'[table[d]] == ForwardBlock(m, mem[table[d]], from, back, known, drafts, d - col)
    {
      assert at[d - col] == table[d] && mem'[at[d - col]] == blocks[d - col];
    }
  }

  lemma WrittenForwards<S, T>(m: Model<S, T>, mem: seq<Blk<S, T>>, table: seq<nat>, blank: bool, col: nat, k0: int,
                              known: seq<T>, drafts: seq<T>)
    returns (mem': seq<Blk<S, T>>)
    requires TableOk(mem, table) && col + |drafts| < |table|
    requires forall b | 0 <= b < |mem| :: m.hist + |drafts| <= |mem[b].window|
    requires forall c, d | col <= c < d <= col + |drafts| :: table[c] != table[d]
    requires !blank ==> 0 <= k0 && col + k0 < |table| && k0 + m.hist <= |mem[table[col]].window|
    ensures Forwards(m, mem, mem', table, blank, col, k0, known, drafts)
  {
    var from := if blank then m.init else mem[table[col + k0]].temporal;
    var back := if blank then Padding(m) else mem[table[col]].window[k0..k0 + m.hist];
    mem' := WriteColumns(m, mem, table, col, from, back, known, drafts);
    forall k | 0 <= k <= |drafts| && k + m.hist <= |mem[table[col]].window|
      ensures mem'[table[col + k]].temporal == Fold(m, from, known + drafts[..k])
      ensures mem'[table[col]].window[k..k + m.hist] == LastN(back + (known + drafts[..k]), m.hist)
    {
      WindowShows(m, mem[table[col]], from, back, known, drafts, k);
    }
  }

  lemma ForwardExists<S, T>(m: Model<S, T>, mem: seq<Blk<S, T>>, q: Req<T>, known: seq<T>, drafts: seq<T>)
    returns (mem': seq<Blk<S, T>>)
    requires ModelOk(m) && MemOk(m, mem) && TableOk(mem, q.table) && Distinct(m, q.table, |q.done|)
    requires MidStep(m, mem, q) && q.phase == Phase.Prepared(known, drafts)
    ensures Forwards(m, mem, mem', q.table, q.done == [], q.column.value, q.accepted - 1, known, drafts)
  {
    var col := q.column.value;
    ColumnOpen(m.blockSize, |q.done|, |known|, |drafts|, m.spec, 0);
    forall c | col <= c <= col + |drafts| ensures Open(m.blockSize, |q.done|, c) && q.table[c] != NULL_BLOCK {
      ColumnOpen(m.blockSize, |q.done|, |known|, |drafts|, m.spec, c - col);
    }
    assert m.hist + |drafts| <= m.width;
    mem' := WrittenForwards(m, mem, q.table, q.done == [], col, q.accepted - 1, known, drafts);
  }
}
