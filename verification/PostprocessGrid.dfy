/** The postprocess launch. Each program reads the request's counts, decides, and runs its lanes of the copy; the
    programs of state 0, tile 0 also write the accepted-token counts that the next step reads, and a program whose
    copy is skipped adds to the guard's counter. */
module PostprocessGrid {
  import opened LaneMachine
  import opened StateCopy
  import opened CopyGrid
  import opened AlignDecision

  datatype Option<T> = None | Some(value: T)

  /** The launch arguments. `slots` maps batch rows to request slots (the identity unless requests live in slots);
      a negative slot is skipped. `advanced` says that `computed` already holds the advanced count. `tables[s]` is
      the block table that state `s` uses, in batch order. */
  datatype Launch = Launch(
    grid: Grid, column: seq<int>, computed: seq<int>, scheduled: seq<int>, drafts: seq<int>, slots: seq<int>,
    advanced: bool, blockSize: nat, tables: seq<seq<seq<int>>>)

  ghost predicate LaunchOk(g: Launch) {
    && g.blockSize > 0 && GridOk(g.grid) && |g.slots| == g.grid.rows
    && |g.tables| == |g.grid.states| && (forall s | 0 <= s < |g.tables| :: |g.tables[s]| == g.grid.rows)
    && |g.scheduled| == |g.computed| == |g.drafts| == |g.column|
    && (forall b | 0 <= b < |g.slots| :: g.slots[b] < |g.column|)
    && (forall b, b' | 0 <= b < b' < |g.slots| && g.slots[b] >= 0 :: g.slots[b] != g.slots[b'])
  }

  /** The decision of the programs of batch row `b` when they read `accepted`. */
  function Decide(g: Launch, b: nat, accepted: int): Post
    requires LaunchOk(g) && b < g.grid.rows && g.slots[b] >= 0
  {
    var r := g.slots[b];
    if g.advanced then PostFromAdvanced(g.column[r], g.computed[r], accepted, g.blockSize)
    else PostFromCounts(g.column[r], g.computed[r], g.scheduled[r], g.drafts[r], accepted, g.blockSize)
  }

  /** The columns that a decision looks at are readable; the guard checks block ids, not columns. What a program does
      with unreadable columns is outside the model, which lets it do nothing. */
  predicate ReadableRow(g: Launch, b: nat, s: nat, post: Post)
    requires LaunchOk(g) && b < g.grid.rows && s < |g.grid.states| && g.slots[b] >= 0
  {
    post.Save? && post.copies ==> post.bias >= 0 && Readable(g.tables[s][b], g.column[g.slots[b]], post.dest, post.bias)
  }

  function TaskFor(g: Launch, b: nat, s: nat, tile: nat, post: Post): Task
    requires LaunchOk(g) && b < g.grid.rows && s < |g.grid.states| && g.slots[b] >= 0
  {
    if post.NoCopy? || !post.copies || !ReadableRow(g, b, s, post) then NoTask
    else TileTask(g.grid.states[s], g.tables[s][b], g.column[g.slots[b]], post.dest, post.bias, tile)
  }

  /** The decision of row `b` asks for a copy of every state. */
  predicate Asks(g: Launch, b: nat, s: nat, counts: seq<int>)
    requires LaunchOk(g) && |counts| == |g.column| && b < g.grid.rows && s < |g.grid.states|
  {
    g.slots[b] >= 0 &&
      var post := Decide(g, b, counts[g.slots[b]]);
      post.Save? && post.copies && ReadableRow(g, b, s, post)
  }

  /** Program `p` finds a block id outside the pool and counts it. */
  predicate HitsGuard(g: Launch, p: Prog, counts: seq<int>)
    requires LaunchOk(g) && |counts| == |g.column| && IsProg(g.grid, p)
  {
    Asks(g, p.row, p.state, counts) &&
      var post := Decide(g, p.row, counts[g.slots[p.row]]);
      TileOutcome(g.grid.states[p.state], g.tables[p.state][p.row], g.column[g.slots[p.row]], post.dest, post.bias,
                  p.tile)
      == GuardHit
  }

  /** The task of program `p` when its row's count reads `counts`. */
  function TaskOf(g: Launch, p: Prog, counts: seq<int>): Task
    requires LaunchOk(g) && |counts| == |g.column| && IsProg(g.grid, p)
  {
    if g.slots[p.row] < 0 then NoTask
    else TaskFor(g, p.row, p.state, p.tile, Decide(g, p.row, counts[g.slots[p.row]]))
  }

  // ---------------------------------------------------------------- the launch as interleaved events

  datatype Event = Begin(prog: Prog) | Advance(lane: GLane)

  /** `counts` is the buffer being updated, `tasks` what the programs that have begun decided to do, `hits` what the
      launch has added to the guard's counter. */
  datatype Running = Running(counts: seq<int>, tasks: map<Prog, Task>, lanes: State<GLane>, hits: nat)

  /** One event. `snapshot` is what the programs read the counts from; without it they read the buffer that the
      launch itself updates. */
  function Step(g: Launch, snapshot: Option<seq<int>>, s: Running, e: Event): Running
    requires LaunchOk(g) && |s.counts| == |g.column| && (snapshot.Some? ==> |snapshot.value| == |g.column|)
  {
    match e
    case Begin(p) =>
      if !IsProg(g.grid, p) || p in s.tasks then s
      else
        var seen := if snapshot.Some? then snapshot.value else s.counts;
        s.(tasks := s.tasks[p := TaskOf(g, p, seen)],
           counts := if p.state == 0 && p.tile == 0 && g.slots[p.row] >= 0 && Resets(g, p.row, seen)
                     then s.counts[g.slots[p.row] := 1] else s.counts,
           hits := s.hits + if HitsGuard(g, p, seen) then 1 else 0)
    case Advance(x) =>
      if x.prog !in s.tasks then s else s.(lanes := LaneStep(GridProgram(g.grid, s.tasks), s.lanes, x))
  }

  predicate Resets(g: Launch, b: nat, counts: seq<int>)
    requires LaunchOk(g) && |counts| == |g.column| && b < g.grid.rows && g.slots[b] >= 0
  {
    var post := Decide(g, b, counts[g.slots[b]]);
    post.Save? && post.reset
  }

  function Run(g: Launch, snapshot: Option<seq<int>>, s: Running, events: seq<Event>): (t: Running)
    requires LaunchOk(g) && |s.counts| == |g.column| && (snapshot.Some? ==> |snapshot.value| == |g.column|)
    ensures |t.counts| == |g.column|
    decreases |events|
  {
    if events == [] then s else Run(g, snapshot, Step(g, snapshot, s, events[0]), events[1..])
  }

  function Launched(g: Launch, counts: seq<int>, mem: Memory): Running {
    Running(counts, map[], State(mem, map x | x in Lanes(g.grid) :: 0, map[]), 0)
  }

  predicate Complete(g: Launch, s: Running)
    requires g.grid.tiles > 0 && g.grid.vector > 0
  {
    Progs(g.grid) <= s.tasks.Keys && Done(GridProgram(g.grid, s.tasks), s.lanes)
  }

  /** The tasks all programs have when they read `counts`. */
  function AllTasks(g: Launch, counts: seq<int>): map<Prog, Task>
    requires LaunchOk(g) && |counts| == |g.column|
  {
    map p | p in Progs(g.grid) && IsProg(g.grid, p) :: TaskOf(g, p, counts)
  }

  /** The copy of each (row, state) pair: that of tile 0, which never sits out. */
  function PairsOf(g: Launch, counts: seq<int>): Pairs
    requires LaunchOk(g) && |counts| == |g.column|
  {
    map b: nat, s: nat | b < g.grid.rows && s < |g.grid.states| :: (b, s) := TaskOf(g, Prog(b, s, 0), counts)
  }

  /** The tiles of a convolution copy other than tile 0 have nothing to do; all others have the pair's task. */
  lemma TileAgrees(g: Launch, counts: seq<int>, p: Prog)
    requires LaunchOk(g) && |counts| == |g.column| && IsProg(g.grid, p)
    ensures (p.row, p.state) in PairsOf(g, counts)
    ensures PairsOf(g, counts)[(p.row, p.state)] == TaskOf(g, Prog(p.row, p.state, 0), counts)
    ensures TaskOf(g, p, counts) ==
            if g.grid.states[p.state].convWidth > 0 && p.tile > 0 then NoTask
            else TaskOf(g, Prog(p.row, p.state, 0), counts)
  {
  }

  lemma AllTasksAgree(g: Launch, counts: seq<int>)
    requires LaunchOk(g) && |counts| == |g.column|
    ensures Agree(g.grid, PairsOf(g, counts), AllTasks(g, counts))
    ensures forall p :: p in AllTasks(g, counts) <==> IsProg(g.grid, p)
  {
    forall p ensures p in AllTasks(g, counts) <==> IsProg(g.grid, p) {
      ProgsAre(g.grid, p);
    }
    forall p | IsProg(g.grid, p) ensures AgreeAt(g.grid, PairsOf(g, counts), AllTasks(g, counts), p) {
      TileAgrees(g, counts, p);
    }
  }

  // ---------------------------------------------------------------- determinism

  /** The programs that have begun have the tasks that the snapshot gives. */
  predicate TasksAre(g: Launch, counts: seq<int>, tasks: map<Prog, Task>)
    requires LaunchOk(g) && |counts| == |g.column|
  {
    forall p | p in tasks :: IsProg(g.grid, p) && tasks[p] == TaskOf(g, p, counts)
  }

  /** Row `b` has made its slot's count 1. */
  predicate HasReset(g: Launch, snapshot: seq<int>, begun: set<Prog>, b: nat, r: nat)
    requires LaunchOk(g) && |snapshot| == |g.column|
  {
    b < g.grid.rows && g.slots[b] == r && Prog(b, 0, 0) in begun && Resets(g, b, snapshot)
  }

  ghost predicate CountsAre(g: Launch, snapshot: seq<int>, begun: set<Prog>, counts: seq<int>)
    requires LaunchOk(g) && |snapshot| == |g.column|
  {
    && |counts| == |g.column|
    && forall r: nat | r < |g.column| ::
         counts[r] == if exists b: nat :: HasReset(g, snapshot, begun, b, r) then 1 else snapshot[r]
  }

  /** The programs among `begun` that count a hit. */
  function Hitting(g: Launch, snapshot: seq<int>, begun: set<Prog>): set<Prog>
    requires LaunchOk(g) && |snapshot| == |g.column|
  {
    set p | p in begun && IsProg(g.grid, p) && HitsGuard(g, p, snapshot)
  }

  ghost predicate RunInv(g: Launch, snapshot: seq<int>, m0: Memory, s: Running)
    requires LaunchOk(g) && |snapshot| == |g.column|
  {
    && TasksAre(g, snapshot, s.tasks)
    && CountsAre(g, snapshot, s.tasks.Keys, s.counts)
    && s.hits == |Hitting(g, snapshot, s.tasks.Keys)|
    && Inv(GridProgram(g.grid, AllTasks(g, snapshot)), m0, s.lanes)
  }

  lemma BeginKeepsInv(g: Launch, snapshot: seq<int>, m0: Memory, s: Running, p: Prog)
    requires LaunchOk(g) && |snapshot| == |g.column| && |s.counts| == |g.column| && RunInv(g, snapshot, m0, s)
    ensures RunInv(g, snapshot, m0, Step(g, Some(snapshot), s, Begin(p)))
  {
    var t := Step(g, Some(snapshot), s, Begin(p));
    if IsProg(g.grid, p) && p !in s.tasks {
      assert t.tasks.Keys == s.tasks.Keys + {p};
      BeginCounts(g, snapshot, s.tasks.Keys, s.counts, p);
      BeginHits(g, snapshot, s.tasks.Keys, p);
    }
  }

  lemma BeginCounts(g: Launch, snapshot: seq<int>, begun: set<Prog>, counts: seq<int>, p: Prog)
    requires LaunchOk(g) && |snapshot| == |g.column| && CountsAre(g, snapshot, begun, counts) && IsProg(g.grid, p)
    ensures CountsAre(g, snapshot, begun + {p},
                      if p.state == 0 && p.tile == 0 && g.slots[p.row] >= 0 && Resets(g, p.row, snapshot)
                      then counts[g.slots[p.row] := 1] else counts)
  {
    var begun' := begun + {p};
    var counts' := if p.state == 0 && p.tile == 0 && g.slots[p.row] >= 0 && Resets(g, p.row, snapshot)
                   then counts[g.slots[p.row] := 1] else counts;
    forall r: nat | r < |g.column|
      ensures counts'[r] == if exists b: nat :: HasReset(g, snapshot, begun', b, r) then 1 else snapshot[r]
    {
      if b: nat :| HasReset(g, snapshot, begun, b, r) {
        assert HasReset(g, snapshot, begun', b, r);
      } else if HasReset(g, snapshot, begun', p.row, r) && p == Prog(p.row, 0, 0) {
      } else {
        forall b: nat | HasReset(g, snapshot, begun', b, r) ensures HasReset(g, snapshot, begun, b, r) {
        }
      }
    }
  }

  lemma BeginHits(g: Launch, snapshot: seq<int>, begun: set<Prog>, p: Prog)
    requires LaunchOk(g) && |snapshot| == |g.column| && IsProg(g.grid, p) && p !in begun
    ensures |Hitting(g, snapshot, begun + {p})| ==
            |Hitting(g, snapshot, begun)| + if HitsGuard(g, p, snapshot) then 1 else 0
  {
    var before := Hitting(g, snapshot, begun);
    assert Hitting(g, snapshot, begun + {p}) == if HitsGuard(g, p, snapshot) then before + {p} else before;
  }

  /** A lane of a program that has begun moves as in the launch with all tasks known from the start. */
  lemma AdvanceAgrees(g: Launch, snapshot: seq<int>, tasks: map<Prog, Task>, lanes: State<GLane>, x: GLane)
    requires LaunchOk(g) && |snapshot| == |g.column| && TasksAre(g, snapshot, tasks) && x.prog in tasks
    ensures LaneStep(GridProgram(g.grid, tasks), lanes, x) ==
              LaneStep(GridProgram(g.grid, AllTasks(g, snapshot)), lanes, x)
  {
    var all := AllTasks(g, snapshot);
    ProgsAre(g.grid, x.prog);
    SameTask(GridProgram(g.grid, tasks), GridProgram(g.grid, all), g.grid, tasks, all, lanes, x);
  }

  /** What a lane does depends on its own program's task only. */
  lemma SameTask(p: Program<GLane>, q: Program<GLane>, g: Grid, tasks: map<Prog, Task>, tasks': map<Prog, Task>,
                 lanes: State<GLane>, x: GLane)
    requires g.tiles > 0 && g.vector > 0 && p == GridProgram(g, tasks) && q == GridProgram(g, tasks')
    requires x.prog in tasks && x.prog in tasks' && tasks[x.prog] == tasks'[x.prog]
    ensures LaneStep(p, lanes, x) == LaneStep(q, lanes, x)
  {
    assert p.steps(x) == q.steps(x);
    if x in lanes.pc {
      assert p.op(x, lanes.pc[x]) == q.op(x, lanes.pc[x]);
    }
    SameStep(p, q, lanes, x);
  }

  lemma {:induction false} RunKeepsInv(g: Launch, snapshot: seq<int>, m0: Memory, s: Running, events: seq<Event>)
    requires LaunchOk(g) && |snapshot| == |g.column| && |s.counts| == |g.column|
    requires CopiesApart(g.grid, PairsOf(g, snapshot))
    requires RunInv(g, snapshot, m0, s)
    ensures RunInv(g, snapshot, m0, Run(g, Some(snapshot), s, events))
    decreases |events|
  {
    if events != [] {
      var t, p := Step(g, Some(snapshot), s, events[0]), GridProgram(g.grid, AllTasks(g, snapshot));
      match events[0] {
        case Begin(q) => BeginKeepsInv(g, snapshot, m0, s, q);
        case Advance(x) =>
          if x.prog in s.tasks {
            AdvanceAgrees(g, snapshot, s.tasks, s.lanes, x);
            AllTasksAgree(g, snapshot);
            GridNonInterfering(g.grid, PairsOf(g, snapshot), AllTasks(g, snapshot));
            StepKeepsInv(p, m0, s.lanes, x);
          }
      }
      RunKeepsInv(g, snapshot, m0, t, events[1..]);
    }
  }

  lemma StepKeepsInv<L(!new)>(p: Program<L>, m0: Memory, s: State<L>, l: L)
    requires NonInterfering(p) && Inv(p, m0, s)
    ensures Inv(p, m0, LaneStep(p, s, l))
  {
    ExecKeepsInv(p, m0, s, [l]);
    assert [l][1..] == [] && Exec(p, LaneStep(p, s, l), []) == LaneStep(p, s, l);
  }

  lemma DoneIsMoved<L(!new)>(p: Program<L>, m0: Memory, s: State<L>)
    requires Inv(p, m0, s) && Done(p, s)
    ensures Moved(p, m0, s.mem)
  {
    forall x | s.mem(x) != m0(x) ensures exists l, n: nat :: Writes(p, l, n, x) {
      var l, n: nat :| Writes(p, l, n, x) && l in s.pc && n < s.pc[l];
    }
  }

  lemma AllBegun(g: Launch, counts: seq<int>, tasks: map<Prog, Task>)
    requires LaunchOk(g) && |counts| == |g.column| && TasksAre(g, counts, tasks) && Progs(g.grid) <= tasks.Keys
    ensures tasks == AllTasks(g, counts)
  {
    AllTasksAgree(g, counts);
    forall q | q in tasks ensures q in AllTasks(g, counts) { ProgsAre(g.grid, q); }
    forall q | q in AllTasks(g, counts) ensures q in tasks { ProgsAre(g.grid, q); }
  }

  /** Every program of the launch finds the columns it looks at in its block table. */
  predicate AllReadable(g: Launch, counts: seq<int>)
    requires LaunchOk(g) && |counts| == |g.column|
  {
    forall b: nat, s: nat | b < g.grid.rows && s < |g.grid.states| && g.slots[b] >= 0 ::
      ReadableRow(g, b, s, Decide(g, b, counts[g.slots[b]]))
  }

  /** Main result. The programs read a snapshot while state 0, tile 0 writes the counts: in every interleaving of all
      programs, tiles and lanes each program decides as it would alone, the counts end up as the decisions say, and
      the memory is the launch's copies performed on the original contents. */
  lemma AnyOrderSameResult(g: Launch, counts: seq<int>, m0: Memory, events: seq<Event>)
    requires LaunchOk(g) && |counts| == |g.column| && |g.grid.states| > 0 && AllReadable(g, counts)
    requires CopiesApart(g.grid, PairsOf(g, counts))
    requires Complete(g, Run(g, Some(counts), Launched(g, counts, m0), events))
    ensures var t := Run(g, Some(counts), Launched(g, counts, m0), events);
            && t.tasks == AllTasks(g, counts)
            && (forall r: nat | r < |g.column| ::
                  t.counts[r] == if exists b: nat :: HasReset(g, counts, Progs(g.grid), b, r) then 1 else counts[r])
            && Copied(GridRegions(g.grid, PairsOf(g, counts)), m0, t.lanes.mem)
            && t.hits == |Hitting(g, counts, Progs(g.grid))|
  {
    var p := GridProgram(g.grid, AllTasks(g, counts));
    assert CountsAre(g, counts, {}, counts);
    RunKeepsInv(g, counts, m0, Launched(g, counts, m0), events);
    var t := Run(g, Some(counts), Launched(g, counts, m0), events);
    AllBegun(g, counts, t.tasks);
    assert t.tasks.Keys == Progs(g.grid) by {
      forall q | q in t.tasks ensures q in Progs(g.grid) { ProgsAre(g.grid, q); }
    }
    AllTasksAgree(g, counts);
    DoneIsMoved(p, m0, t.lanes);
    GridImplements(g.grid, PairsOf(g, counts), AllTasks(g, counts));
    MovedIsCopied(p, GridRegions(g.grid, PairsOf(g, counts)), m0, t.lanes.mem);
  }

  /** A program that counts belongs to a skipped copy, and tile 0 of a skipped copy counts. */
  lemma SkippedOrNot(g: Launch, counts: seq<int>, p: Prog)
    requires LaunchOk(g) && |counts| == |g.column| && IsProg(g.grid, p) && Asks(g, p.row, p.state, counts)
    ensures (p.row, p.state) in PairsOf(g, counts)
    ensures HitsGuard(g, p, counts) ==> !PairsOf(g, counts)[(p.row, p.state)].Task?
    ensures p.tile == 0 && !HitsGuard(g, p, counts) ==> PairsOf(g, counts)[(p.row, p.state)].Task?
  {
    assert PairsOf(g, counts)[(p.row, p.state)] == TaskOf(g, Prog(p.row, p.state, 0), counts);
  }

  /** Which programs count, in numbers: those whose row's decision copies and whose destination id is no block of the
      state's pool, or that have lanes of the copy and whose source id is none. */
  lemma HitsExactly(g: Launch, counts: seq<int>, p: Prog)
    requires LaunchOk(g) && |counts| == |g.column|
    ensures p in Hitting(g, counts, Progs(g.grid)) <==>
              && IsProg(g.grid, p) && Asks(g, p.row, p.state, counts)
              && var meta, row := g.grid.states[p.state], g.tables[p.state][p.row];
                 var col, post := g.column[g.slots[p.row]], Decide(g, p.row, counts[g.slots[p.row]]);
                 var src, dst := row[if meta.convWidth > 0 then col else col + post.bias], row[post.dest];
                 || dst < 0 || dst >= meta.numBlocks
                 || ((meta.convWidth == 0 || p.tile == 0) && (src < 0 || src >= meta.numBlocks))
  {
    ProgsAre(g.grid, p);
  }

  /** Every copy that a decision asks for is performed. */
  ghost predicate NoneSkipped(g: Launch, counts: seq<int>)
    requires LaunchOk(g) && |counts| == |g.column|
  {
    forall b: nat, s: nat | b < g.grid.rows && s < |g.grid.states| && Asks(g, b, s, counts) ::
      PairsOf(g, counts)[(b, s)].Task?
  }

  lemma HitMeansSkipped(g: Launch, counts: seq<int>, p: Prog)
    requires LaunchOk(g) && |counts| == |g.column| && p in Hitting(g, counts, Progs(g.grid))
    ensures !NoneSkipped(g, counts)
  {
    SkippedOrNot(g, counts, p);
    assert Asks(g, p.row, p.state, counts);
  }

  lemma NoHitNoneSkipped(g: Launch, counts: seq<int>)
    requires LaunchOk(g) && |counts| == |g.column| && Hitting(g, counts, Progs(g.grid)) == {}
    ensures NoneSkipped(g, counts)
  {
    forall b: nat, s: nat | b < g.grid.rows && s < |g.grid.states| && Asks(g, b, s, counts)
      ensures PairsOf(g, counts)[(b, s)].Task?
    {
      var p := Prog(b, s, 0);
      ProgsAre(g.grid, p);
      assert p !in Hitting(g, counts, Progs(g.grid));
      SkippedOrNot(g, counts, p);
    }
  }

  /** The counter tells whether a copy was skipped: it stays as it was if and only if every copy that a decision asks
      for is performed, in every interleaving. */
  lemma CounterStaysIff(g: Launch, counts: seq<int>, m0: Memory, events: seq<Event>)
    requires LaunchOk(g) && |counts| == |g.column| && |g.grid.states| > 0 && AllReadable(g, counts)
    requires CopiesApart(g.grid, PairsOf(g, counts))
    requires Complete(g, Run(g, Some(counts), Launched(g, counts, m0), events))
    ensures Run(g, Some(counts), Launched(g, counts, m0), events).hits == 0 <==> NoneSkipped(g, counts)
  {
    AnyOrderSameResult(g, counts, m0, events);
    var hitting := Hitting(g, counts, Progs(g.grid));
    if hitting == {} {
      NoHitNoneSkipped(g, counts);
    } else {
      var p :| p in hitting;
      HitMeansSkipped(g, counts, p);
    }
  }

  /** Without the snapshot the launch races with itself: in this launch of two states, state 0 resets the count
      before the program of state 1 reads it, and state 1 decides differently than it would alone. */
  lemma RaceWithoutSnapshot() returns (g: Launch, counts: seq<int>, events: seq<Event>)
    ensures LaunchOk(g) && |counts| == |g.column|
    ensures forall m0: Memory ::
              var s := Launched(g, counts, m0); Run(g, None, s, events).tasks != Run(g, Some(counts), s, events).tasks
  {
    var meta := StateMeta(0, 64, 1, 8, 8, 0, 0, 4);
    g := Launch(Grid(1, [meta, meta.(base := 1024)], false, 1, 1, {}), [1], [8], [3], [2], [0], true, 4,
                [[[2, 3, 1]], [[2, 3, 1]]]);
    counts := [2];
    var p0, p1 := Prog(0, 0, 0), Prog(0, 1, 0);
    events := [Begin(p0), Begin(p1)];
    forall m0: Memory
      ensures Run(g, None, Launched(g, counts, m0), events).tasks !=
                Run(g, Some(counts), Launched(g, counts, m0), events).tasks
    {
      var s := Launched(g, counts, m0);
      assert Decide(g, 0, 2) == Save(1, 1, true, true) && Decide(g, 0, 1) == Save(1, 0, true, false);
      var live, snap := Step(g, None, s, Begin(p0)), Step(g, Some(counts), s, Begin(p0));
      assert live.counts == [1];
      var live', snap' := Step(g, None, live, Begin(p1)), Step(g, Some(counts), snap, Begin(p1));
      assert live'.tasks[p1] == NoTask && snap'.tasks[p1] == Task(3, 3, 1);
      assert events[1..] == [Begin(p1)] && events[1..][1..] == [];
      assert Run(g, None, live, [Begin(p1)]) == Run(g, None, live', []) == live';
      assert Run(g, Some(counts), snap, [Begin(p1)]) == Run(g, Some(counts), snap', []) == snap';
    }
  }
}
