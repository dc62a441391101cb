/** The step's preparation in its three implementations: the runner's scalar path (a list of copies and one batched
    memcpy), its fused path (staging arrays and one copy launch), and the kernel over request slots. */
module Preprocess {
  import opened LaneMachine
  import opened OverlapCopy
  import opened StateCopy
  import opened CopyGrid
  import opened AlignDecision

  /** A row of the batch: the request, its computed tokens and the tokens scheduled for it. */
  datatype Row = Row(id: nat, computed: nat, scheduled: nat)

  datatype Move = Stay | Move(src: int, dst: int, bias: int)

  /** The column recorded for the request, or the one its computed tokens seed. */
  function PrevColumn(columns: map<nat, int>, row: Row, blockSize: nat): int
    requires blockSize > 0
  {
    if row.id in columns then columns[row.id] else SeedColumn(row.computed, blockSize)
  }

  function CurrColumn(row: Row, spec: nat, blockSize: nat): int
    requires blockSize > 0
  {
    RunningColumn(row.computed, row.scheduled, spec, blockSize)
  }

  function MoveOf(prev: int, curr: int, accepted: int): Move {
    if prev != -1 && prev != curr then Move(prev, curr, accepted - 1) else Stay
  }

  /** The accepted count after the step's preparation. */
  function AcceptedAfter(move: Move, accepted: int): int { if move.Move? then 1 else accepted }

  /** The one region a scalar copy names: part of a window, or a whole temporal block. */
  function EntryOf(meta: StateMeta, table: seq<int>, srcCol: int, dstCol: int, bias: nat): Region
    requires Readable(table, srcCol, dstCol, bias)
  {
    var src, dst := BlockAddr(meta, table[SourceCol(meta, srcCol, bias)]), BlockAddr(meta, table[dstCol]);
    if meta.convWidth > 0 then Region(src + bias * TokenBytes(meta), dst, SlideSize(meta, bias))
    else Region(src, dst, TokenBytes(meta))
  }

  /** `tables[s][i]` is the block-table row of batch row i for state s. */
  type Tables = seq<seq<seq<int>>>

  predicate MoveReadable(tables: Tables, i: nat, move: Move) {
    move.Move? ==>
      && move.bias >= 0
      && forall s | 0 <= s < |tables| :: i < |tables[s]| && Readable(tables[s][i], move.src, move.dst, move.bias)
  }

  predicate AllReadable(tables: Tables, moves: seq<Move>) {
    forall i | 0 <= i < |moves| :: MoveReadable(tables, i, moves[i])
  }

  /** A moving row has accepted at least one token. */
  predicate BiasesFine(moves: seq<Move>) { forall i | 0 <= i < |moves| :: moves[i].Move? ==> moves[i].bias >= 0 }

  /** The entries of one row for the first `n` states. */
  function RowEntries(states: seq<StateMeta>, tables: Tables, i: nat, move: Move, n: nat): (r: seq<Region>)
    requires n <= |states| == |tables| && MoveReadable(tables, i, move)
    ensures |r| == if move.Move? then n else 0
  {
    if move.Stay? || n == 0 then []
    else
      var before := RowEntries(states, tables, i, move, n - 1);
      before + [EntryOf(states[n - 1], tables[n - 1][i], move.src, move.dst, move.bias)]
  }

  function Entries(states: seq<StateMeta>, tables: Tables, moves: seq<Move>, n: nat): seq<Region>
    requires n <= |moves| && |states| == |tables| && AllReadable(tables, moves)
  {
    if n == 0 then []
    else Entries(states, tables, moves, n - 1) + RowEntries(states, tables, n - 1, moves[n - 1], |states|)
  }

  // ---------------------------------------------------------------- the copy launch

  /** The launch's arguments. `slots` maps batch rows to entries of the arrays, and to a negative number if the row is
      to be skipped. */
  datatype Precopy = Precopy(slots: seq<int>, column: seq<int>, src: seq<int>, bias: seq<int>)

  function Identity(n: nat): (s: seq<int>)
    ensures |s| == n && forall i | 0 <= i < n :: s[i] == i
  {
    seq(n, i => i)
  }

  predicate TablesFine(g: Grid, tables: Tables) {
    |tables| == |g.states| && forall s | 0 <= s < |tables| :: g.rows <= |tables[s]|
  }

  predicate LaunchFine(g: Grid, tables: Tables, a: Precopy) {
    && TablesFine(g, tables)
    && |a.slots| == g.rows && |a.column| == |a.src| == |a.bias|
    && forall i | 0 <= i < |a.slots| :: a.slots[i] < |a.column|
  }

  /** What one program does with its row's columns and bias. What it does with columns that are not readable is
      outside the model, which lets it do nothing. */
  function PrecopyTask(meta: StateMeta, table: seq<int>, srcCol: int, dstCol: int, bias: int, tile: nat): Task {
    if srcCol < 0 || srcCol == dstCol || bias < 0 || !Readable(table, srcCol, dstCol, bias) then NoTask
    else TileTask(meta, table, srcCol, dstCol, bias, tile)
  }

  function RowTask(g: Grid, tables: Tables, a: Precopy, p: Prog): Task
    requires LaunchFine(g, tables, a) && IsProg(g, p)
  {
    var r := a.slots[p.row];
    if r < 0 then NoTask
    else PrecopyTask(g.states[p.state], tables[p.state][p.row], a.src[r], a.column[r], a.bias[r], p.tile)
  }

  function PrecopyTasks(g: Grid, tables: Tables, a: Precopy): map<Prog, Task>
    requires LaunchFine(g, tables, a)
  {
    map p | p in Progs(g) && IsProg(g, p) :: RowTask(g, tables, a, p)
  }

  // ---------------------------------------------------------------- the runner

  /** What the runner starts from, once the gone requests are forgotten: recorded columns, accepted counts by row, the
      rows, and the two sizes. */
  datatype Batch = Batch(columns: map<nat, int>, counts: seq<int>, rows: seq<Row>, spec: nat, blockSize: nat)

  ghost predicate BatchOk(b: Batch) { b.blockSize > 0 && DistinctIds(b.rows) && |b.rows| <= |b.counts| }

  function CurrOf(b: Batch): (c: seq<int>)
    requires b.blockSize > 0
    ensures |c| == |b.rows|
  {
    CurrColumns(b.rows, b.spec, b.blockSize)
  }

  function MovesOf(b: Batch): (m: seq<Move>)
    requires b.blockSize > 0 && |b.rows| <= |b.counts|
    ensures |m| == |b.rows|
  {
    Runner.Moves(b.columns, b.rows, b.counts, b.spec, b.blockSize)
  }

  predicate DistinctIds(rows: seq<Row>) { forall i, j | 0 <= i < j < |rows| :: rows[i].id != rows[j].id }

  /** The running column of every row. */
  function CurrColumns(rows: seq<Row>, spec: nat, blockSize: nat): (c: seq<int>)
    requires blockSize > 0
    ensures |c| == |rows|
  {
    seq(|rows|, i requires 0 <= i < |rows| => CurrColumn(rows[i], spec, blockSize))
  }

  /** The recorded columns once the first `n` rows are handled. */
  function ColumnsAfter(base: map<nat, int>, rows: seq<Row>, curr: seq<int>, n: nat): map<nat, int>
    requires n <= |rows| == |curr|
  {
    if n == 0 then base else ColumnsAfter(base, rows, curr, n - 1)[rows[n - 1].id := curr[n - 1]]
  }

  /** A handled row's request has its running column recorded; everybody else's entry is as before. */
  lemma {:induction false} ColumnsAfterAre(base: map<nat, int>, rows: seq<Row>, curr: seq<int>, n: nat)
    requires n <= |rows| == |curr| && DistinctIds(rows)
    ensures var c := ColumnsAfter(base, rows, curr, n);
            && (forall k | 0 <= k < n :: rows[k].id in c && c[rows[k].id] == curr[k])
            && (forall r | (forall k | 0 <= k < n :: rows[k].id != r) ::
                  (r in c <==> r in base) && (r in c ==> c[r] == base[r]))
  {
    if n > 0 { ColumnsAfterAre(base, rows, curr, n - 1); }
  }

  /** The accepted counts once the first `n` rows are handled. */
  ghost predicate CountsUpTo(now: seq<int>, before: seq<int>, moves: seq<Move>, n: nat) {
    && |now| == |before| && n <= |moves| <= |before|
    && forall k | 0 <= k < |now| :: now[k] == if k < n then AcceptedAfter(moves[k], before[k]) else before[k]
  }

  /** The staging buffers once the first `n` rows are handled: column, source column (none: -1) and bias of each. */
  ghost predicate StagedUpTo(state: seq<int>, src: seq<int>, bias: seq<int>, curr: seq<int>, moves: seq<Move>, n: nat) {
    && n <= |curr| == |moves| <= |state| == |src| == |bias|
    && (forall k | 0 <= k < n :: StagedRow(state[k], src[k], bias[k], curr[k], moves[k]))
    && (forall k | n <= k < |moves| :: src[k] == -1 && bias[k] == 0)
  }

  predicate StagedRow(state: int, src: int, bias: int, curr: int, move: Move) {
    state == curr && src == (if move.Move? then move.src else -1) && bias == if move.Move? then move.bias else 0
  }

  lemma StagedStep(state: seq<int>, src: seq<int>, bias: seq<int>, state': seq<int>, src': seq<int>, bias': seq<int>,
                   curr: seq<int>, moves: seq<Move>, i: nat)
    requires StagedUpTo(state, src, bias, curr, moves, i) && i < |moves|
    requires |state'| == |state| && state'[i] == curr[i]
    requires forall k | 0 <= k < |state| && k != i :: state'[k] == state[k]
    requires src' == if moves[i].Move? then src[i := moves[i].src] else src
    requires bias' == if moves[i].Move? then bias[i := moves[i].bias] else bias
    ensures StagedUpTo(state', src', bias', curr, moves, i + 1)
  {
  }

  /** Handling earlier rows does not change what a row finds recorded for its request. */
  lemma MoveAt(base: map<nat, int>, rows: seq<Row>, before: seq<int>, i: nat, spec: nat, blockSize: nat)
    requires blockSize > 0 && i < |rows| <= |before| && DistinctIds(rows)
    ensures PrevColumn(ColumnsAfter(base, rows, CurrColumns(rows, spec, blockSize), i), rows[i], blockSize) ==
              PrevColumn(base, rows[i], blockSize)
  {
    ColumnsAfterAre(base, rows, CurrColumns(rows, spec, blockSize), i);
  }

  /** What the preparation ends with: the batched memcpy over the copy list, or the copy launch on the device's copies
      of the staging arrays, or neither. */
  datatype Closing = Nothing | BatchCopy(list: seq<Region>) | CopyLaunch(staged: Precopy)

  /** What the postprocess launch receives: one value per row. */
  datatype Staged = Staged(column: seq<int>, scheduled: seq<int>, computed: seq<int>, drafts: seq<int>)

  class Runner {
    var columns: map<nat, int>
    const accepted: array<int>
    const stateIdx: array<int>
    const srcCol: array<int>
    const tokenBias: array<int>
    var copies: seq<Region>

    ghost predicate Valid() {
      && accepted != stateIdx && accepted != srcCol && accepted != tokenBias
      && stateIdx != srcCol && stateIdx != tokenBias && srcCol != tokenBias
      && stateIdx.Length == srcCol.Length == tokenBias.Length == accepted.Length
    }

    /** Finished, preempted and resumed requests lose their recorded column. */
    method Cleanup(gone: seq<nat>)
      modifies this`columns
      ensures columns == old(columns) - (set r | r in gone)
    {
      var i := 0;
      while i < |gone|
        invariant i <= |gone|
        invariant columns == old(columns) - (set r | r in gone[..i])
      {
        columns := columns - {gone[i]};
        i := i + 1;
      }
      assert gone[..i] == gone;
    }

    /** Appends one copy per state, unless the copy would change nothing. */
    method Collect(states: seq<StateMeta>, tables: Tables, i: nat, src: int, dst: int, bias: nat)
      requires |states| == |tables| && MoveReadable(tables, i, Move(src, dst, bias))
      modifies this`copies
      ensures copies == old(copies) + if src == dst && bias == 0 then []
                                      else RowEntries(states, tables, i, Move(src, dst, bias), |states|)
    {
      if src == dst && bias == 0 {
        assert copies + [] == copies;
        return;
      }
      var s := 0;
      while s < |states|
        invariant s <= |states|
        invariant copies == old(copies) + RowEntries(states, tables, i, Move(src, dst, bias), s)
      {
        copies := copies + [EntryOf(states[s], tables[s][i], src, dst, bias)];
        s := s + 1;
      }
    }

    /** The moves of the rows, given the cleaned-up columns and the accepted counts before the step. */
    static function Moves(columns: map<nat, int>, rows: seq<Row>, accepted: seq<int>, spec: nat,
                          blockSize: nat): (m: seq<Move>)
      requires blockSize > 0 && |rows| <= |accepted|
      ensures |m| == |rows|
    {
      seq(|rows|, i requires 0 <= i < |rows| =>
            MoveOf(PrevColumn(columns, rows[i], blockSize), CurrColumn(rows[i], spec, blockSize), accepted[i]))
    }

    /** One row: records its new column and, if its state has to move, stages or lists the copy and resets the count. */
    method PrepareRow(i: nat, row: Row, fused: bool, states: seq<StateMeta>, tables: Tables, spec: nat, blockSize: nat,
                      ghost column: int, ghost move: Move)
      requires Valid() && blockSize > 0 && i < accepted.Length && |states| == |tables|
      requires if fused then move.Move? ==> move.bias >= 0 else MoveReadable(tables, i, move)
      requires column == CurrColumn(row, spec, blockSize)
      requires move == MoveOf(PrevColumn(columns, row, blockSize), column, accepted[i])
      modifies this, accepted, stateIdx, srcCol, tokenBias
      ensures columns == old(columns)[row.id := column]
      ensures accepted[..] == old(accepted[..])[i := AcceptedAfter(move, old(accepted[i]))]
      ensures fused ==> stateIdx[i] == column && copies == old(copies)
                        && srcCol[..] == (if move.Move? then old(srcCol[..])[i := move.src] else old(srcCol[..]))
                        && tokenBias[..] ==
                           (if move.Move? then old(tokenBias[..])[i := move.bias] else old(tokenBias[..]))
      ensures !fused ==> copies == old(copies) + RowEntries(states, tables, i, move, |states|)
      ensures forall k | 0 <= k < stateIdx.Length && k != i :: stateIdx[k] == old(stateIdx[k])
    {
      var prev := if row.id in columns then columns[row.id] else SeedColumn(row.computed, blockSize);
      var numBlocks := Cdiv(row.computed + row.scheduled, blockSize) + spec;
      var curr := numBlocks - 1 - spec;
      columns := columns[row.id := curr];
      if fused {
        stateIdx[i] := curr;
      }
      if prev != -1 && prev != curr {
        var bias := accepted[i] - 1;
        if fused {
          srcCol[i], tokenBias[i] := prev, bias;
        } else {
          Collect(states, tables, i, prev, curr, bias);
        }
        accepted[i] := 1;
      } else {
        assert copies + [] == copies;
      }
    }

    /** The first `n` rows are handled. */
    ghost predicate Prepared(b: Batch, n: nat, fused: bool, states: seq<StateMeta>, tables: Tables)
      requires BatchOk(b) && n <= |b.rows| && |states| == |tables| && (!fused ==> AllReadable(tables, MovesOf(b)))
      reads this, accepted, stateIdx, srcCol, tokenBias
    {
      && columns == ColumnsAfter(b.columns, b.rows, CurrOf(b), n)
      && CountsUpTo(accepted[..], b.counts, MovesOf(b), n)
      && (fused ==> StagedUpTo(stateIdx[..], srcCol[..], tokenBias[..], CurrOf(b), MovesOf(b), n))
      && (!fused ==> copies == Entries(states, tables, MovesOf(b), n))
    }

    method PrepareNext(ghost b: Batch, rows: seq<Row>, i: nat, fused: bool, states: seq<StateMeta>, tables: Tables,
                       spec: nat, blockSize: nat)
      requires Valid() && BatchOk(b) && b.rows == rows && b.spec == spec && b.blockSize == blockSize
      requires i < |rows| && |states| == |tables|
      requires if fused then BiasesFine(MovesOf(b)) else AllReadable(tables, MovesOf(b))
      requires Prepared(b, i, fused, states, tables)
      modifies this, accepted, stateIdx, srcCol, tokenBias
      ensures Prepared(b, i + 1, fused, states, tables)
    {
      MoveAt(b.columns, rows, b.counts, i, spec, blockSize);
      ghost var state, src, bias := stateIdx[..], srcCol[..], tokenBias[..];
      PrepareRow(i, rows[i], fused, states, tables, spec, blockSize, CurrOf(b)[i], MovesOf(b)[i]);
      if fused {
        StagedStep(state, src, bias, stateIdx[..], srcCol[..], tokenBias[..], CurrOf(b), MovesOf(b), i);
      }
    }

    /** No row is staged for a copy yet. */
    method ClearStaging(n: nat)
      requires Valid() && n <= accepted.Length
      modifies srcCol, tokenBias
      ensures forall k | 0 <= k < n :: srcCol[k] == -1 && tokenBias[k] == 0
    {
      for i := 0 to n
        invariant forall k | 0 <= k < i :: srcCol[k] == -1 && tokenBias[k] == 0
      {
        srcCol[i], tokenBias[i] := -1, 0;
      }
    }

    /** Handles the rows in order. */
    method PrepareRows(ghost b: Batch, rows: seq<Row>, fused: bool, states: seq<StateMeta>, tables: Tables,
                       spec: nat, blockSize: nat)
      requires Valid() && BatchOk(b) && b.rows == rows && b.spec == spec && b.blockSize == blockSize
      requires |states| == |tables|
      requires if fused then BiasesFine(MovesOf(b)) else AllReadable(tables, MovesOf(b))
      requires Prepared(b, 0, fused, states, tables)
      modifies this, accepted, stateIdx, srcCol, tokenBias
      ensures Prepared(b, |rows|, fused, states, tables)
    {
      var i := 0;
      while i < |rows|
        invariant i <= |rows| && Prepared(b, i, fused, states, tables)
      {
        PrepareNext(b, rows, i, fused, states, tables, spec, blockSize);
        i := i + 1;
      }
    }

    /** The step's preparation: forgets the requests that are gone, handles the rows in order, and closes with the
        batched memcpy or the copy launch. */
    method PreprocessMamba(rows: seq<Row>, gone: seq<nat>, fused: bool, states: seq<StateMeta>, tables: Tables,
                           spec: nat, blockSize: nat) returns (closing: Closing)
      requires Valid() && blockSize > 0 && |rows| <= accepted.Length && |states| == |tables| && DistinctIds(rows)
      requires var moves := MovesOf(Batch(columns - (set r | r in gone), accepted[..], rows, spec, blockSize));
               if fused then BiasesFine(moves) else AllReadable(tables, moves)
      modifies this, accepted, stateIdx, srcCol, tokenBias
      ensures Prepared(Batch(old(columns) - (set r | r in gone), old(accepted[..]), rows, spec, blockSize), |rows|,
                       fused, states, tables)
      ensures closing == if fused then if rows == [] then Nothing else CopyLaunch(OnDevice(|rows|))
                         else if copies == [] then Nothing else BatchCopy(copies)
    {
      Cleanup(gone);
      copies := [];
      ghost var b := Batch(columns, accepted[..], rows, spec, blockSize);
      if fused {
        if rows == [] { return Nothing; }
        ClearStaging(|rows|);
      }
      PrepareRows(b, rows, fused, states, tables, spec, blockSize);
      if fused {
        closing := CopyLaunch(Precopy(Identity(|rows|), stateIdx[..|rows|], srcCol[..|rows|], tokenBias[..|rows|]));
      } else {
        closing := if copies == [] then Nothing else BatchCopy(copies);
      }
    }

    /** The copy launch's arguments: the first `n` entries of the staging arrays, in row order. */
    ghost function OnDevice(n: nat): Precopy
      requires Valid() && n <= stateIdx.Length
      reads this, stateIdx, srcCol, tokenBias
    {
      Precopy(Identity(n), stateIdx[..n], srcCol[..n], tokenBias[..n])
    }

    /** Stages what the postprocess launch reads about each row. Every row must have a recorded column, which a
        preparation of the same rows has just left; otherwise the staging fails. */
    method StagePostprocess(rows: seq<Row>, drafts: map<nat, nat>, column: array<int>, scheduled: array<int>,
                            computed: array<int>, draft: array<int>)
      returns (ok: bool, device: Staged)
      requires |rows| <= column.Length == scheduled.Length == computed.Length == draft.Length
      requires column != scheduled && column != computed && column != draft
      requires scheduled != computed && scheduled != draft && computed != draft
      modifies column, scheduled, computed, draft
      ensures ok <==> forall i | 0 <= i < |rows| :: rows[i].id in columns
      ensures ok ==> device == Staged(column[..|rows|], scheduled[..|rows|], computed[..|rows|], draft[..|rows|])
      ensures ok ==> forall i | 0 <= i < |rows| ::
                && column[i] == columns[rows[i].id] && scheduled[i] == rows[i].scheduled
                && computed[i] == rows[i].computed
                && draft[i] == if rows[i].id in drafts then drafts[rows[i].id] else 0
      ensures forall i | |rows| <= i < column.Length ::
                && column[i] == old(column[i]) && scheduled[i] == old(scheduled[i])
                && computed[i] == old(computed[i]) && draft[i] == old(draft[i])
    {
      for i := 0 to |rows|
        invariant forall k | 0 <= k < i :: rows[k].id in columns
        invariant forall k | 0 <= k < i ::
          && column[k] == columns[rows[k].id] && scheduled[k] == rows[k].scheduled && computed[k] == rows[k].computed
          && draft[k] == if rows[k].id in drafts then drafts[rows[k].id] else 0
        invariant forall k | |rows| <= k < column.Length ::
          && column[k] == old(column[k]) && scheduled[k] == old(scheduled[k])
          && computed[k] == old(computed[k]) && draft[k] == old(draft[k])
      {
        var row := rows[i];
        if row.id !in columns { return false, Staged([], [], [], []); }
        column[i], scheduled[i], computed[i] := columns[row.id], row.scheduled, row.computed;
        draft[i] := if row.id in drafts then drafts[row.id] else 0;
      }
      var n := |rows|;
      return true, Staged(column[..n], scheduled[..n], computed[..n], draft[..n]);
    }
  }

  // ---------------------------------------------------------------- the kernel over request slots

  function Max(a: int, b: int): int { if a >= b then a else b }

  /** What the kernel starts from: column and accepted count by slot, the rows' slots, the computed tokens by slot, and
      where the rows' tokens start. */
  datatype SlotBatch = SlotBatch(states: seq<int>, counts: seq<int>, mapping: seq<int>, computed: seq<int>,
                                 queryStart: seq<int>, blockSize: nat)

  predicate SlotsOk(v: SlotBatch) {
    && v.blockSize > 0 && |v.states| == |v.counts| == |v.computed| && |v.queryStart| == |v.mapping| + 1
    && (forall i | 0 <= i < |v.mapping| :: v.mapping[i] < |v.states|)
    && forall i, j | 0 <= i < j < |v.mapping| && v.mapping[i] >= 0 :: v.mapping[i] != v.mapping[j]
  }

  /** The running column of row `i`. */
  function NewColumn(v: SlotBatch, i: nat): int
    requires SlotsOk(v) && i < |v.mapping| && v.mapping[i] >= 0
  {
    Cdiv(v.computed[v.mapping[i]] + v.queryStart[i + 1] - v.queryStart[i], v.blockSize) - 1
  }

  class SlotState {
    const stateIdx: array<int>
    const accepted: array<int>
    const srcCol: array<int>
    const srcOff: array<int>

    ghost predicate Valid() {
      && stateIdx != accepted && stateIdx != srcCol && stateIdx != srcOff
      && accepted != srcCol && accepted != srcOff && srcCol != srcOff
      && stateIdx.Length == accepted.Length == srcCol.Length == srcOff.Length
    }

    /** The slots of the rows below `done` have been handled; those of the other rows are as before. */
    ghost predicate Handled(v: SlotBatch, done: nat)
      requires SlotsOk(v)
      reads this, stateIdx, accepted, srcCol, srcOff
    {
      && Valid() && |v.states| == stateIdx.Length
      && (forall i: nat | i < |v.mapping| && i < done && v.mapping[i] >= 0 ::
            var r := v.mapping[i];
            var state, count, column := v.states[r], v.counts[r], NewColumn(v, i);
            && srcCol[r] == state && srcOff[r] == Max(count - 1, 0) && stateIdx[r] == column
            && accepted[r] == if state >= 0 && state != column then 1 else count)
      && (forall i | done <= i < |v.mapping| && v.mapping[i] >= 0 ::
            stateIdx[v.mapping[i]] == v.states[v.mapping[i]] && accepted[v.mapping[i]] == v.counts[v.mapping[i]])
    }

    /** The fused preparation: each lane of each program handles one batch row, in its request's slot. Unlike the copy
        launch and the postprocess launch the kernel does not skip a row of no slot (-1): the row's lane strays out of
        the arrays. What such an access hits is outside the model. */
    method PreprocessAlign(mapping: seq<int>, computed: seq<int>, queryStart: seq<int>, numReqs: nat, vector: nat,
                           blockSize: nat) returns (stray: bool)
      requires Valid() && vector > 0 && numReqs == |mapping| && |computed| == stateIdx.Length
      requires SlotsOk(SlotBatch(stateIdx[..], accepted[..], mapping, computed, queryStart, blockSize))
      modifies stateIdx, accepted, srcCol, srcOff
      ensures Handled(SlotBatch(old(stateIdx[..]), old(accepted[..]), mapping, computed, queryStart, blockSize),
                      numReqs)
      ensures Untouched(old(stateIdx[..]), old(accepted[..]), old(srcCol[..]), old(srcOff[..]), mapping)
      ensures stray <==> exists i :: 0 <= i < numReqs && mapping[i] < 0
    {
      ghost var v := SlotBatch(stateIdx[..], accepted[..], mapping, computed, queryStart, blockSize);
      ghost var cols, offs := srcCol[..], srcOff[..];
      var start := 0;
      stray := false;
      while start < numReqs
        invariant Handled(v, start) && Untouched(v.states, v.counts, cols, offs, mapping)
        invariant stray <==> exists i :: 0 <= i < numReqs && i < start && mapping[i] < 0
      {
        var s := RunProgram(v, cols, offs, mapping, computed, queryStart, start, vector, blockSize);
        stray := stray || s;
        start := start + vector;
      }
    }

    /** One program: its lanes handle the rows from `start` on. */
    method RunProgram(ghost v: SlotBatch, ghost cols: seq<int>, ghost offs: seq<int>, mapping: seq<int>,
                      computed: seq<int>,
                      queryStart: seq<int>, start: nat, vector: nat, blockSize: nat) returns (stray: bool)
      requires Valid() && SlotsOk(v) && v.mapping == mapping && v.computed == computed && v.queryStart == queryStart
      requires v.blockSize == blockSize && start < |mapping|
      requires Handled(v, start) && Untouched(v.states, v.counts, cols, offs, mapping)
      modifies stateIdx, accepted, srcCol, srcOff
      ensures Handled(v, start + vector) && Untouched(v.states, v.counts, cols, offs, mapping)
      ensures stray <==> exists i :: start <= i < |mapping| && i < start + vector && mapping[i] < 0
    {
      var offset := start;
      stray := false;
      while offset < start + vector && offset < |mapping|
        invariant start <= offset <= start + vector && offset <= |mapping|
        invariant Handled(v, offset) && Untouched(v.states, v.counts, cols, offs, mapping)
        invariant stray <==> exists i :: start <= i < offset && mapping[i] < 0
      {
        if mapping[offset] < 0 {
          stray := true;
        } else {
          var after := computed[mapping[offset]] + queryStart[offset + 1] - queryStart[offset];
          HandleNext(v, cols, offs, mapping, offset, after, blockSize);
        }
        offset := offset + 1;
      }
    }

    method HandleNext(ghost v: SlotBatch, ghost cols: seq<int>, ghost offs: seq<int>, mapping: seq<int>, offset: nat,
                      after: int, blockSize: nat)
      requires Valid() && SlotsOk(v) && v.mapping == mapping && v.blockSize == blockSize
      requires offset < |mapping| && mapping[offset] >= 0 && NewColumn(v, offset) == Cdiv(after, blockSize) - 1
      requires Handled(v, offset) && Untouched(v.states, v.counts, cols, offs, mapping)
      modifies stateIdx, accepted, srcCol, srcOff
      ensures Handled(v, offset + 1) && Untouched(v.states, v.counts, cols, offs, mapping)
    {
      HandleRow(mapping[offset], after, blockSize);
    }

    /** Slots of no row are as before. */
    ghost predicate Untouched(states: seq<int>, counts: seq<int>, cols: seq<int>, offs: seq<int>, mapping: seq<int>)
      reads this, stateIdx, accepted, srcCol, srcOff
    {
      && Valid() && |states| == |counts| == |cols| == |offs| == stateIdx.Length
      && forall r | 0 <= r < stateIdx.Length && r !in mapping ::
           stateIdx[r] == states[r] && accepted[r] == counts[r] && srcCol[r] == cols[r] && srcOff[r] == offs[r]
    }

    /** One lane: publish the old column and bias, advance the column, reset the count if the column moved. */
    method HandleRow(r: nat, after: int, blockSize: nat)
      requires Valid() && blockSize > 0 && r < stateIdx.Length
      modifies stateIdx, accepted, srcCol, srcOff
      ensures srcCol[r] == old(stateIdx[r]) && srcOff[r] == Max(old(accepted[r]) - 1, 0)
      ensures stateIdx[r] == Cdiv(after, blockSize) - 1
      ensures accepted[r] == if old(stateIdx[r]) >= 0 && old(stateIdx[r]) != stateIdx[r] then 1 else old(accepted[r])
      ensures forall q | 0 <= q < stateIdx.Length && q != r ::
                && stateIdx[q] == old(stateIdx[q]) && accepted[q] == old(accepted[q])
                && srcCol[q] == old(srcCol[q]) && srcOff[q] == old(srcOff[q])
    {
      var state, count := stateIdx[r], accepted[r];
      srcCol[r] := state;
      srcOff[r] := Max(count - 1, 0);
      var column := (after + blockSize - 1) / blockSize - 1;
      stateIdx[r] := column;
      if state >= 0 && state != column {
        accepted[r] := 1;
      }
    }

    /** The copy launch's arguments: the slot arrays, read through the mapping. */
    ghost function OnDevice(mapping: seq<int>): Precopy
      reads this, stateIdx, srcCol, srcOff
    {
      Precopy(mapping, stateIdx[..], srcCol[..], srcOff[..])
    }
  }

  // ---------------------------------------------------------------- the three paths decide the same

  /** Both start from the same columns (recorded, or seeded when the request was admitted), counts and tokens. */
  ghost predicate SameStart(b: Batch, v: SlotBatch) {
    && BatchOk(b) && SlotsOk(v) && |v.mapping| == |b.rows| && v.blockSize == b.blockSize
    && (forall id | id in b.columns :: b.columns[id] >= -1)
    && forall i: nat | i < |b.rows| ::
         && v.mapping[i] >= 0
         && v.states[v.mapping[i]] == PrevColumn(b.columns, b.rows[i], b.blockSize)
         && v.counts[v.mapping[i]] == b.counts[i]
         && v.computed[v.mapping[i]] == b.rows[i].computed
         && v.queryStart[i + 1] - v.queryStart[i] == b.rows[i].scheduled
  }

  lemma PrevColumnFine(b: Batch, i: nat)
    requires BatchOk(b) && i < |b.rows| && forall id | id in b.columns :: b.columns[id] >= -1
    ensures PrevColumn(b.columns, b.rows[i], b.blockSize) >= -1
  {
    if b.rows[i].id !in b.columns {
      DivBounds(b.rows[i].computed - 1, b.blockSize);
      OrderOfMultiples(PrevColumn(b.columns, b.rows[i], b.blockSize), -2, b.blockSize);
    }
  }

  /** The programs of row `i` find the row's move in the arrays, if it has one; otherwise they find nothing to do. */
  predicate FindsMove(a: Precopy, i: nat, move: Move) {
    && i < |a.slots| && 0 <= a.slots[i] < |a.column| == |a.src| == |a.bias|
    && var r := a.slots[i];
       if move.Stay? then a.src[r] < 0 || a.src[r] == a.column[r]
       else 0 <= a.src[r] == move.src != move.dst == a.column[r] && a.bias[r] == move.bias
  }

  /** Arrays in which every row finds its move give every program of the launch the pair's copy, in all tiles. */
  lemma LaunchAgrees(g: Grid, tables: Tables, moves: seq<Move>, a: Precopy)
    requires LaunchFine(g, tables, a) && AllReadable(tables, moves) && g.rows == |moves|
    requires forall i: nat | i < |moves| :: FindsMove(a, i, moves[i])
    ensures Agree(g, MovePairs(g.states, tables, moves), PrecopyTasks(g, tables, a))
  {
    var pairs, tasks := MovePairs(g.states, tables, moves), PrecopyTasks(g, tables, a);
    forall p | IsProg(g, p) ensures AgreeAt(g, pairs, tasks, p) {
      ProgramAgrees(g, tables, moves, a, p);
      ProgsAre(g, p);
      assert (p.row, p.state) in pairs;
    }
  }

  lemma ProgramAgrees(g: Grid, tables: Tables, moves: seq<Move>, a: Precopy, p: Prog)
    requires LaunchFine(g, tables, a) && AllReadable(tables, moves) && g.rows == |moves|
    requires IsProg(g, p) && FindsMove(a, p.row, moves[p.row])
    ensures RowTask(g, tables, a, p) == if g.states[p.state].convWidth > 0 && p.tile > 0 then NoTask
                                        else PairOf(g.states, tables, moves, p.row, p.state)
  {
    assert MoveReadable(tables, p.row, moves[p.row]);
  }

  lemma StagedFinds(fused: Runner, b: Batch, states: seq<StateMeta>, tables: Tables, i: nat)
    requires BatchOk(b) && |states| == |tables| && i < |b.rows| && fused.Valid()
    requires fused.Prepared(b, |b.rows|, true, states, tables)
    requires forall id | id in b.columns :: b.columns[id] >= -1
    ensures FindsMove(fused.OnDevice(|b.rows|), i, MovesOf(b)[i])
  {
    PrevColumnFine(b, i);
    assert StagedRow(fused.stateIdx[..][i], fused.srcCol[..][i], fused.tokenBias[..][i], CurrOf(b)[i], MovesOf(b)[i]);
  }

  lemma SlotFinds(slots: SlotState, b: Batch, v: SlotBatch, i: nat)
    requires SameStart(b, v) && slots.Handled(v, |v.mapping|) && i < |b.rows| && BiasesFine(MovesOf(b))
    ensures FindsMove(slots.OnDevice(v.mapping), i, MovesOf(b)[i])
    ensures slots.stateIdx[v.mapping[i]] == CurrOf(b)[i]
    ensures slots.accepted[v.mapping[i]] == AcceptedAfter(MovesOf(b)[i], b.counts[i])
  {
    PrevColumnFine(b, i);
    assert NewColumn(v, i) == CurrOf(b)[i];
  }

  /** Each path has handled its rows. */
  ghost predicate AllPrepared(scalar: Runner, fused: Runner, slots: SlotState, b: Batch, v: SlotBatch, g: Grid,
                              tables: Tables)
    requires BatchOk(b) && SlotsOk(v) && |g.states| == |tables| && AllReadable(tables, MovesOf(b))
    reads scalar, scalar.accepted, scalar.stateIdx, scalar.srcCol, scalar.tokenBias
    reads fused, fused.accepted, fused.stateIdx, fused.srcCol, fused.tokenBias
    reads slots, slots.stateIdx, slots.accepted, slots.srcCol, slots.srcOff
  {
    && scalar.Prepared(b, |b.rows|, false, g.states, tables) && fused.Prepared(b, |b.rows|, true, g.states, tables)
    && slots.Handled(v, |v.mapping|)
  }

  /** From the same start the staged arrays and the slot arrays make every program of the copy launch do the same,
      that of the row's move, whatever the block ids and the layout; and all three paths leave the same columns and
      counts. */
  lemma DecisionsAgree(scalar: Runner, fused: Runner, slots: SlotState, b: Batch, v: SlotBatch, g: Grid, tables: Tables)
    requires SameStart(b, v) && TablesFine(g, tables) && AllReadable(tables, MovesOf(b)) && g.rows == |b.rows|
    requires fused.Valid() && AllPrepared(scalar, fused, slots, b, v, g, tables)
    ensures Agree(g, MovePairs(g.states, tables, MovesOf(b)), PrecopyTasks(g, tables, fused.OnDevice(|b.rows|)))
    ensures PrecopyTasks(g, tables, slots.OnDevice(v.mapping)) == PrecopyTasks(g, tables, fused.OnDevice(|b.rows|))
    ensures SameColumnsAndCounts(scalar, fused, slots, b, v)
  {
    var moves, pairs := MovesOf(b), MovePairs(g.states, tables, MovesOf(b));
    forall i: nat | i < |moves| ensures FindsMove(fused.OnDevice(|b.rows|), i, moves[i]) {
      StagedFinds(fused, b, g.states, tables, i);
    }
    forall i: nat | i < |moves| ensures FindsMove(slots.OnDevice(v.mapping), i, moves[i]) {
      SlotFinds(slots, b, v, i);
    }
    LaunchAgrees(g, tables, moves, fused.OnDevice(|b.rows|));
    LaunchAgrees(g, tables, moves, slots.OnDevice(v.mapping));
    AgreeUnique(g, pairs, PrecopyTasks(g, tables, slots.OnDevice(v.mapping)),
                PrecopyTasks(g, tables, fused.OnDevice(|b.rows|)));
    ColumnsAndCountsAgree(scalar, fused, slots, b, v, g.states, tables);
  }

  lemma AgreeUnique(g: Grid, pairs: Pairs, tasks: map<Prog, Task>, tasks': map<Prog, Task>)
    requires Agree(g, pairs, tasks) && Agree(g, pairs, tasks')
    ensures tasks == tasks'
  {
    forall p ensures p in tasks <==> p in tasks' {
      if IsProg(g, p) { assert AgreeAt(g, pairs, tasks, p) && AgreeAt(g, pairs, tasks', p); }
    }
    forall p | p in tasks ensures tasks[p] == tasks'[p] {
      assert AgreeAt(g, pairs, tasks, p) && AgreeAt(g, pairs, tasks', p);
    }
  }

  /** What the next step starts from: one column and one count per row, the same in all three. */
  ghost predicate SameColumnsAndCounts(scalar: Runner, fused: Runner, slots: SlotState, b: Batch, v: SlotBatch)
    requires BatchOk(b) && SlotsOk(v) && |v.mapping| == |b.rows|
    requires |v.states| == slots.stateIdx.Length == slots.accepted.Length
    reads scalar, scalar.accepted, fused, fused.accepted, slots, slots.stateIdx, slots.accepted
  {
    && scalar.columns == fused.columns && scalar.accepted[..] == fused.accepted[..]
    && |b.rows| <= scalar.accepted.Length
    && forall i: nat | i < |b.rows| && v.mapping[i] >= 0 ::
         && b.rows[i].id in scalar.columns && slots.stateIdx[v.mapping[i]] == scalar.columns[b.rows[i].id]
         && slots.accepted[v.mapping[i]] == scalar.accepted[i]
  }

  lemma ColumnsAndCountsAgree(scalar: Runner, fused: Runner, slots: SlotState, b: Batch, v: SlotBatch,
                              states: seq<StateMeta>, tables: Tables)
    requires SameStart(b, v) && |states| == |tables| && AllReadable(tables, MovesOf(b))
    requires scalar.Prepared(b, |b.rows|, false, states, tables) && fused.Prepared(b, |b.rows|, true, states, tables)
    requires slots.Handled(v, |v.mapping|)
    ensures SameColumnsAndCounts(scalar, fused, slots, b, v)
  {
    ColumnsAfterAre(b.columns, b.rows, CurrOf(b), |b.rows|);
    forall i: nat | i < |b.rows| { SlotFinds(slots, b, v, i); }
  }

  /** A row of no slot is skipped by all programs of the launch. */
  lemma NoSlotNoTask(g: Grid, tables: Tables, a: Precopy, p: Prog)
    requires LaunchFine(g, tables, a) && IsProg(g, p) && a.slots[p.row] < 0
    ensures p in PrecopyTasks(g, tables, a) && PrecopyTasks(g, tables, a)[p] == NoTask
  {
    ProgsAre(g, p);
  }

  // ---------------------------------------------------------------- and leave the same memory

  /** The copies of the launch: a move of row i becomes, for each state, the copy between the blocks it names. */
  function MovePairs(states: seq<StateMeta>, tables: Tables, moves: seq<Move>): Pairs
    requires |states| == |tables| && AllReadable(tables, moves)
  {
    map i: nat, s: nat | i < |moves| && s < |states| :: (i, s) := PairOf(states, tables, moves, i, s)
  }

  function PairOf(states: seq<StateMeta>, tables: Tables, moves: seq<Move>, i: nat, s: nat): Task
    requires i < |moves| && s < |states| == |tables| && MoveReadable(tables, i, moves[i])
  {
    if moves[i].Stay? then NoTask
    else PrecopyTask(states[s], tables[s][i], moves[i].src, moves[i].dst, moves[i].bias, 0)
  }

  /** The block ids that the moves look at are valid; the scalar path has no guard. */
  ghost predicate IdsValid(states: seq<StateMeta>, tables: Tables, moves: seq<Move>)
    requires |states| == |tables| && AllReadable(tables, moves)
  {
    forall i: nat, s: nat | i < |moves| && s < |states| ::
      MoveReadable(tables, i, moves[i]) && IdsValidAt(states, tables, moves[i], i, s)
  }

  predicate IdsValidAt(states: seq<StateMeta>, tables: Tables, move: Move, i: nat, s: nat)
    requires s < |states| == |tables| && MoveReadable(tables, i, move)
  {
    move.Move? ==> && move.src >= 0 && move.src != move.dst
                   && BothInPool(states[s], tables[s][i], move.src, move.dst, move.bias)
  }

  /** One entry of the list is the one region of the launch's copy (token-contiguous layout). */
  lemma EntryIsRegion(g: Grid, tables: Tables, moves: seq<Move>, i: nat, s: nat)
    requires |tables| == |g.states| && !g.dimFirst && g.rows == |moves|
    requires AllReadable(tables, moves)
    requires IdsValid(g.states, tables, moves) && i < |moves| && s < |g.states| && moves[i].Move?
    ensures (i, s) in MovePairs(g.states, tables, moves) && MovePairs(g.states, tables, moves)[(i, s)].Task?
    ensures PairRegions(g, s, MovePairs(g.states, tables, moves)[(i, s)])
            == {EntryOf(g.states[s], tables[s][i], moves[i].src, moves[i].dst, moves[i].bias)}
  {
    assert (i, s) in MovePairs(g.states, tables, moves);
    assert MovePairs(g.states, tables, moves)[(i, s)] == PairOf(g.states, tables, moves, i, s);
    assert IdsValidAt(g.states, tables, moves[i], i, s);
  }

  // ---------------------------------------------------------------- the copy list and the launch move the same bytes

  /** Everything the comparison takes for granted: readable columns, valid ids, copies that keep apart. */
  ghost predicate Comparable(g: Grid, tables: Tables, moves: seq<Move>) {
    && GridOk(g) && !g.dimFirst && |tables| == |g.states| && g.rows == |moves| && AllReadable(tables, moves)
    && IdsValid(g.states, tables, moves)
    && CopiesApart(g, MovePairs(g.states, tables, moves))
  }

  /** `r` is the entry of row i and state s. */
  ghost predicate IsEntry(g: Grid, tables: Tables, moves: seq<Move>, i: nat, s: nat, r: Region)
    requires |tables| == |g.states| && i < |moves| && s < |g.states| && MoveReadable(tables, i, moves[i])
  {
    moves[i].Move? && r == EntryOf(g.states[s], tables[s][i], moves[i].src, moves[i].dst, moves[i].bias)
  }

  lemma {:induction false} RowEntryIs(g: Grid, tables: Tables, moves: seq<Move>, i: nat, n: nat, k: nat)
    requires |tables| == |g.states| && i < |moves| && MoveReadable(tables, i, moves[i]) && n <= |g.states|
    requires k < |RowEntries(g.states, tables, i, moves[i], n)|
    ensures k < n && IsEntry(g, tables, moves, i, k, RowEntries(g.states, tables, i, moves[i], n)[k])
  {
    if k < n - 1 {
      RowEntryIs(g, tables, moves, i, n - 1, k);
    }
  }

  lemma EntriesApart(g: Grid, tables: Tables, moves: seq<Move>, i: nat, s: nat, r: Region, i': nat, s': nat, r': Region)
    requires Comparable(g, tables, moves) && i < |moves| && s < |g.states| && i' < |moves| && s' < |g.states|
    requires (i, s) != (i', s')
    requires IsEntry(g, tables, moves, i, s, r) && IsEntry(g, tables, moves, i', s', r')
    ensures Apart(r.dst, r.size, r'.dst, r'.size) && Apart(r.src, r.size, r'.dst, r'.size)
  {
    var pairs := MovePairs(g.states, tables, moves);
    EntryIsRegion(g, tables, moves, i, s);
    EntryIsRegion(g, tables, moves, i', s');
    var t, u := pairs[(i, s)], pairs[(i', s')];
    assert InGrid(g, pairs, (i, s)) && InGrid(g, pairs, (i', s'));
    assert PairOk(g, s, t) && PairOk(g, s', u) && TasksApart(g, s', u, s, t);
    RegionsInPayloads(g.states[s], false, t.src, t.dst, t.bias, r);
    RegionsInPayloads(g.states[s'], false, u.src, u.dst, u.bias, r');
    if s == s' {
      BlocksApart(g.states[s], t.dst, u.dst);
      BlocksApart(g.states[s], t.src, u.dst);
    }
  }

  /** Within one block a copy goes to the left. */
  lemma EntryShiftsLeft(meta: StateMeta, table: seq<int>, srcCol: int, dstCol: int, bias: nat)
    requires Readable(table, srcCol, dstCol, bias) && table[SourceCol(meta, srcCol, bias)] == table[dstCol]
    ensures var r := EntryOf(meta, table, srcCol, dstCol, bias); r.src >= r.dst
  {
    assert bias * TokenBytes(meta) >= 0;
  }

  /** A copy of the list never overlaps its source from the right: it goes to another block, or to the left in its
      own. */
  lemma EntryFits(g: Grid, tables: Tables, moves: seq<Move>, i: nat, s: nat, r: Region)
    requires Comparable(g, tables, moves) && i < |moves| && s < |g.states| && IsEntry(g, tables, moves, i, s, r)
    ensures r.size >= 0 && !RightOverlap(r.src, r.dst, r.size)
  {
    EntryIsRegion(g, tables, moves, i, s);
    var meta, t := g.states[s], MovePairs(g.states, tables, moves)[(i, s)];
    assert InGrid(g, MovePairs(g.states, tables, moves), (i, s)) && PairOk(g, s, t);
    if t.src != t.dst {
      OtherBlockApart(meta, t.src, t.dst, t.bias, r);
    } else {
      assert IdsValidAt(g.states, tables, moves[i], i, s);
      EntryShiftsLeft(meta, tables[s][i], moves[i].src, moves[i].dst, moves[i].bias);
    }
  }

  lemma OtherBlockApart(meta: StateMeta, src: int, dst: int, bias: nat, r: Region)
    requires MetaOk(meta, false) && CopyOk(meta, false, src, dst, bias) && r in CopyRegions(meta, false, src, dst, bias)
    requires src != dst
    ensures !RightOverlap(r.src, r.dst, r.size)
  {
    RegionsInPayloads(meta, false, src, dst, bias, r);
    BlocksApart(meta, src, dst);
  }

  /** The entries of one row keep apart. */
  lemma RowSeparate(g: Grid, tables: Tables, moves: seq<Move>, i: nat)
    requires Comparable(g, tables, moves) && i < |moves|
    ensures Separate(RowEntries(g.states, tables, i, moves[i], |g.states|))
  {
    var row := RowEntries(g.states, tables, i, moves[i], |g.states|);
    forall k | 0 <= k < |row|
      ensures IsEntry(g, tables, moves, i, k, row[k])
      ensures row[k].size >= 0 && !RightOverlap(row[k].src, row[k].dst, row[k].size)
    {
      RowEntryIs(g, tables, moves, i, |g.states|, k);
      EntryFits(g, tables, moves, i, k, row[k]);
    }
    forall k, j | 0 <= k < |row| && 0 <= j < |row| && k != j
      ensures Apart(row[k].dst, row[k].size, row[j].dst, row[j].size)
      ensures Apart(row[k].src, row[k].size, row[j].dst, row[j].size)
    {
      EntriesApart(g, tables, moves, i, k, row[k], i, j, row[j]);
    }
  }

  /** An entry of an earlier row keeps apart from the entries of row `n`. */
  lemma EarlierRowApart(g: Grid, tables: Tables, moves: seq<Move>, n: nat, r: Region, j: nat)
    requires Comparable(g, tables, moves) && n < |moves| && EntryBefore(g, tables, moves, n, r)
    requires j < |RowEntries(g.states, tables, n, moves[n], |g.states|)|
    ensures RegionsMeetNot(r, RowEntries(g.states, tables, n, moves[n], |g.states|)[j])
  {
    var row := RowEntries(g.states, tables, n, moves[n], |g.states|);
    RowEntryIs(g, tables, moves, n, |g.states|, j);
    var i: nat, s: nat :| i < n && s < |g.states| && IsEntry(g, tables, moves, i, s, r);
    EntriesApart(g, tables, moves, i, s, r, n, j, row[j]);
    EntriesApart(g, tables, moves, n, j, row[j], i, s, r);
  }

  lemma RowIsBefore(g: Grid, tables: Tables, moves: seq<Move>, n: nat, k: nat)
    requires |tables| == |g.states| && n < |moves| && AllReadable(tables, moves)
    requires k < |RowEntries(g.states, tables, n, moves[n], |g.states|)|
    ensures EntryBefore(g, tables, moves, n + 1, RowEntries(g.states, tables, n, moves[n], |g.states|)[k])
  {
    RowEntryIs(g, tables, moves, n, |g.states|, k);
  }

  /** The list of the first n rows: its entries are entries of those rows, and keep apart. */
  lemma {:induction false} ListSeparate(g: Grid, tables: Tables, moves: seq<Move>, n: nat)
    requires Comparable(g, tables, moves) && n <= |moves|
    ensures var list := Entries(g.states, tables, moves, n);
            && Separate(list)
            && (forall k | 0 <= k < |list| :: EntryBefore(g, tables, moves, n, list[k]))
  {
    if n > 0 {
      ListSeparate(g, tables, moves, n - 1);
      var before := Entries(g.states, tables, moves, n - 1);
      var row := RowEntries(g.states, tables, n - 1, moves[n - 1], |g.states|);
      RowSeparate(g, tables, moves, n - 1);
      forall k, j | 0 <= k < |before| && 0 <= j < |row| ensures RegionsMeetNot(before[k], row[j]) {
        EarlierRowApart(g, tables, moves, n - 1, before[k], j);
      }
      AppendSeparate(before, row);
      forall k: nat | k < |row| ensures EntryBefore(g, tables, moves, n, row[k]) {
        RowIsBefore(g, tables, moves, n - 1, k);
      }
    }
  }

  ghost predicate EntryBefore(g: Grid, tables: Tables, moves: seq<Move>, n: nat, r: Region)
    requires |tables| == |g.states| && n <= |moves| && AllReadable(tables, moves)
  {
    exists i: nat, s: nat :: i < n && s < |g.states| && IsEntry(g, tables, moves, i, s, r)
  }

  predicate RegionsMeetNot(r: Region, r': Region) {
    && Apart(r.dst, r.size, r'.dst, r'.size) && Apart(r.src, r.size, r'.dst, r'.size)
    && Apart(r'.src, r'.size, r.dst, r.size)
  }

  lemma AppendSeparate(a: seq<Region>, b: seq<Region>)
    requires Separate(a) && Separate(b)
    requires forall k, j | 0 <= k < |a| && 0 <= j < |b| :: RegionsMeetNot(a[k], b[j])
    ensures Separate(a + b)
  {
    var c := a + b;
    forall i, j | 0 <= i < |c| && 0 <= j < |c| && i != j
      ensures Apart(c[i].dst, c[i].size, c[j].dst, c[j].size) && Apart(c[i].src, c[i].size, c[j].dst, c[j].size)
    {
      if i < |a| <= j {
        assert RegionsMeetNot(a[i], b[j - |a|]);
      } else if j < |a| <= i {
        assert RegionsMeetNot(a[j], b[i - |a|]);
      } else if i < |a| {
        assert c[i] == a[i] && c[j] == a[j];
      } else {
        assert c[i] == b[i - |a|] && c[j] == b[j - |a|];
      }
    }
  }

  /** Every entry of a row below n is in the list. */
  lemma {:induction false} EntryListed(g: Grid, tables: Tables, moves: seq<Move>, n: nat, i: nat, s: nat)
    requires |tables| == |g.states| && n <= |moves| && AllReadable(tables, moves)
    requires i < n && s < |g.states| && moves[i].Move? && MoveReadable(tables, i, moves[i])
    ensures EntryOf(g.states[s], tables[s][i], moves[i].src, moves[i].dst, moves[i].bias)
            in Entries(g.states, tables, moves, n)
  {
    var row := RowEntries(g.states, tables, n - 1, moves[n - 1], |g.states|);
    if i == n - 1 {
      RowEntryIs(g, tables, moves, i, |g.states|, s);
      assert row[s] in row;
    } else {
      EntryListed(g, tables, moves, n - 1, i, s);
    }
  }

  lemma ListIsRegions(g: Grid, tables: Tables, moves: seq<Move>)
    requires Comparable(g, tables, moves)
    ensures var list := Entries(g.states, tables, moves, |moves|);
            (set k | 0 <= k < |list| :: list[k]) == GridRegions(g, MovePairs(g.states, tables, moves))
  {
    var list, pairs := Entries(g.states, tables, moves, |moves|), MovePairs(g.states, tables, moves);
    ListSeparate(g, tables, moves, |moves|);
    forall r | r in (set k | 0 <= k < |list| :: list[k]) ensures r in GridRegions(g, pairs) {
      assert EntryBefore(g, tables, moves, |moves|, r);
      var i: nat, s: nat :| i < |moves| && s < |g.states| && IsEntry(g, tables, moves, i, s, r);
      EntryIsRegion(g, tables, moves, i, s);
      assert InGrid(g, pairs, (i, s)) && r in PairRegions(g, s, pairs[(i, s)]);
    }
    forall r | r in GridRegions(g, pairs) ensures r in (set k | 0 <= k < |list| :: list[k]) {
      var k :| InGrid(g, pairs, k) && r in PairRegions(g, k.1, pairs[k]);
      assert k == (k.0, k.1) && pairs[k] == PairOf(g.states, tables, moves, k.0, k.1);
      EntryIsRegion(g, tables, moves, k.0, k.1);
      EntryListed(g, tables, moves, |moves|, k.0, k.1);
    }
  }

  /** From the same memory, any complete schedule of the copy launch and any complete schedule of the batched memcpy
      over the list leave the same memory, byte for byte. */
  lemma LaunchIsBatch(g: Grid, tables: Tables, moves: seq<Move>, tasks: map<Prog, Task>, block: nat, m0: Memory,
                      launch: seq<GLane>, m1: Memory, batch: seq<BatchLane>, m2: Memory)
    requires Comparable(g, tables, moves) && Agree(g, MovePairs(g.states, tables, moves), tasks) && block > 0
    requires Leaves(GridProgram(g, tasks), m0, launch, m1)
    requires Leaves(BatchGrid(Entries(g.states, tables, moves, |moves|), block), m0, batch, m2)
    ensures forall x :: m1(x) == m2(x)
  {
    var list, pairs := Entries(g.states, tables, moves, |moves|), MovePairs(g.states, tables, moves);
    ListSeparate(g, tables, moves, |moves|);
    ListIsRegions(g, tables, moves);
    GridAnySchedule(g, pairs, tasks, m0, launch);
    BatchGridAnySchedule(list, block, m0, batch);
    CopiedUnique(GridRegions(g, pairs), m0, m1, m2);
  }

  /** The schedule is complete and turns `m0` into `m`. */
  ghost predicate Leaves<L(!new)>(p: Program<L>, m0: Memory, schedule: seq<L>, m: Memory) {
    var s := Exec(p, Init(p, m0), schedule);
    Done(p, s) && s.mem == m
  }

  /** Main result. From the same columns, counts and memory all three paths leave the same columns, counts and memory:
      the scalar list with any schedule of the batched memcpy, the staging arrays with any schedule of the copy
      launch, and the slot kernel's arrays with any schedule of the copy launch through the mapping. */
  lemma SameMemory(scalar: Runner, fused: Runner, slots: SlotState, b: Batch, v: SlotBatch, g: Grid, tables: Tables,
                   block: nat, m0: Memory, batch: seq<BatchLane>, m1: Memory, staged: seq<GLane>, m2: Memory,
                   slotted: seq<GLane>, m3: Memory)
    requires SameStart(b, v) && TablesFine(g, tables) && Comparable(g, tables, MovesOf(b)) && block > 0
    requires fused.Valid() && AllPrepared(scalar, fused, slots, b, v, g, tables)
    requires Leaves(BatchGrid(scalar.copies, block), m0, batch, m1)
    requires Leaves(GridProgram(g, PrecopyTasks(g, tables, fused.OnDevice(|b.rows|))), m0, staged, m2)
    requires Leaves(GridProgram(g, PrecopyTasks(g, tables, slots.OnDevice(v.mapping))), m0, slotted, m3)
    ensures SameColumnsAndCounts(scalar, fused, slots, b, v)
    ensures forall x :: m1(x) == m2(x) == m3(x)
  {
    DecisionsAgree(scalar, fused, slots, b, v, g, tables);
    var tasks := PrecopyTasks(g, tables, fused.OnDevice(|b.rows|));
    LaunchIsBatch(g, tables, MovesOf(b), tasks, block, m0, staged, m2, batch, m1);
    LaunchIsBatch(g, tables, MovesOf(b), tasks, block, m0, slotted, m3, batch, m1);
  }
}
