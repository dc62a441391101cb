/** What a save leaves behind, and a run that takes a request from nothing to a cached prefix. */
module AlignProgress {
  import opened AlignDecision
  import opened AlignRun

  /** An acceptance that decides to save leaves its destination recorded: a column within the computed tokens whose
      block holds the state after exactly (dest + 1) * blockSize of them. */
  lemma SaveRecorded<S, T(!new)>(m: Model<S, T>, s: Sys<S, T>, s': Sys<S, T>, r: nat, accepted: nat)
    requires ModelOk(m) && Inv(m, s) && Accept(m, s, s', r, accepted)
    requires Decision(s.reqs[r], accepted, m.blockSize).Save?
    ensures var j, q := Decision(s.reqs[r], accepted, m.blockSize).dest, s'.reqs[r];
            && j >= 0 && j in q.saved && (j + 1) * m.blockSize <= |q.done| && j < |q.table| && q.table[j] < |s'.mem|
            && q.table[j] != NULL_BLOCK
            && IsState(m, s'.mem[q.table[j]], s'.mem[q.table[j]], 0, q.done[..(j + 1) * m.blockSize])
    ensures s.reqs[r].saved <= s'.reqs[r].saved
  {
    var j := Decision(s.reqs[r], accepted, m.blockSize).dest;
    SavedDest(m, s.mem, s.reqs[r], accepted);
    AcceptKeepsInv(m, s, s', r, accepted);
    assert j in s'.reqs[r].saved;
    SavedIsComplete(m, s', r, j);
  }

  lemma SavedDest<S, T>(m: Model<S, T>, mem: seq<Blk<S, T>>, q: Req<T>, accepted: nat)
    requires ModelOk(m) && ReqHolds(m, mem, q) && q.phase.Forwarded? && q.column.Some?
    requires 1 <= accepted <= |q.phase.drafts| + 1 && Decision(q, accepted, m.blockSize).Save?
    ensures Decision(q, accepted, m.blockSize).dest >= 0
  {
    DecisionFacts(m, q, q.phase.known, q.phase.drafts, accepted);
  }

  // ---------------------------------------------------------------- one request, from start to cache

  /** One block for the running column of the first step and one for each speculative column. */
  function FirstTable(spec: nat): seq<nat> { seq(spec + 1, i => i + 1) }

  /** A first step of one whole block of known tokens and no drafts. */
  lemma FirstColumn(blockSize: nat, spec: nat)
    requires blockSize > 0
    ensures SeedColumn(0, blockSize) == -1 && RunningColumn(0, blockSize, spec, blockSize) == 0
    ensures PostFromCounts(0, 0, blockSize, 0, 1, blockSize) == Save(0, 0, true, false)
  {
    RunningColumnBounds(0, blockSize, spec, blockSize);
    var c := RunningColumn(0, blockSize, spec, blockSize);
    OrderOfMultiples(c, 1, blockSize);
    DivBounds(-1, blockSize);
    OrderOfMultiples(SeedColumn(0, blockSize), 0, blockSize);
    OrderOfMultiples(-1, SeedColumn(0, blockSize), blockSize);
    DivMul(1, blockSize);
  }

  lemma Extended<S, T(!new)>(m: Model<S, T>, trace: seq<Sys<S, T>>, events: seq<Event<T>>, e: Event<T>, s: Sys<S, T>)
    requires m.blockSize > 0 && Behavior(m, trace, events) && Next(m, trace[|events|], e, s)
    ensures Behavior(m, trace + [s], events + [e]) && (trace + [s])[|events + [e]|] == s
  {
  }

  lemma Admitted<S, T(!new)>(m: Model<S, T>, s: Sys<S, T>, r: nat)
    requires m.blockSize > 0 && r !in s.reqs
    ensures Next(m, s, DoAdmit(r, [], []), s.(reqs := s.reqs[r := Req([], [], None, 1, Idle, {})]))
  {
  }

  /** The request as the first preparation leaves it. */
  function FirstStep<S, T(==)>(m: Model<S, T>, known: seq<T>): Req<T> {
    Req([], FirstTable(m.spec), Some(0), 1, Phase.Prepared(known, []), {})
  }

  lemma PreparedFirst<S, T(!new)>(m: Model<S, T>, s: Sys<S, T>, r: nat, known: seq<T>)
    requires ModelOk(m) && s.reqs == map[r := Req([], [], None, 1, Idle, {})] && s.cache == map[]
    requires |known| == m.blockSize && |s.mem| >= m.spec + 2
    ensures Next(m, s, DoPrepare(r, known, [], FirstTable(m.spec)), s.(reqs := map[r := FirstStep(m, known)]))
  {
    var table := FirstTable(m.spec);
    FirstColumn(m.blockSize, m.spec);
    forall c | 0 <= c < |table| ensures Fresh(s, r, table, c) {
    }
    assert s.reqs[r := FirstStep(m, known)] == map[r := FirstStep(m, known)];
  }

  lemma ForwardedFirst<S, T(!new)>(m: Model<S, T>, s: Sys<S, T>, r: nat, known: seq<T>) returns (s': Sys<S, T>)
    requires ModelOk(m) && Inv(m, s) && s.reqs == map[r := FirstStep(m, known)] && s.cache == map[]
    ensures Next(m, s, DoForward(r), s') && s'.cache == map[]
    ensures s'.reqs == map[r := FirstStep(m, known).(phase := Phase.Forwarded(known, []))]
  {
    OwnDistinct(m, s, r);
    assert ReqHolds(m, s.mem, s.reqs[r]);
    var mem := ForwardExists(m, s.mem, s.reqs[r], known, []);
    var q := FirstStep(m, known).(phase := Phase.Forwarded(known, []));
    s' := Sys(mem, map[r := q], map[]);
    assert s.reqs[r := q] == map[r := q];
  }

  /** A request of one whole block is computed, saves its state at the block's end and publishes it. */
  lemma ReachesCache<S, T(!new)>(m: Model<S, T>, start: Sys<S, T>, r: nat, known: seq<T>)
    returns (trace: seq<Sys<S, T>>, events: seq<Event<T>>)
    requires ModelOk(m) && Start(m, start) && |known| == m.blockSize && |start.mem| >= m.spec + 2
    ensures Behavior(m, trace, events) && trace[0] == start && |events| == 5
    ensures r in trace[4].reqs && 0 in trace[4].reqs[r].saved && trace[4].reqs[r].done == known
    ensures trace[5].cache == map[known := 1]
  {
    var s1 := start.(reqs := map[r := Req([], [], None, 1, Idle, {})]);
    var s2 := s1.(reqs := map[r := FirstStep(m, known)]);
    Admitted(m, start, r);
    Extended(m, [start], [], DoAdmit(r, [], []), s1);
    PreparedFirst(m, s1, r, known);
    trace, events := [start, s1, s2], [DoAdmit(r, [], []), DoPrepare(r, known, [], FirstTable(m.spec))];
    Extended(m, [start, s1], [DoAdmit(r, [], [])], events[1], s2);
    BehaviorInv(m, trace, events, 2);
    var s3 := ForwardedFirst(m, s2, r, known);
    Extended(m, trace, events, DoForward(r), s3);
    trace, events := trace + [s3], events + [DoForward(r)];
    var s4 := AcceptedFirst(m, s3, r, known);
    Extended(m, trace, events, DoAccept(r, 1), s4);
    trace, events := trace + [s4], events + [DoAccept(r, 1)];
    var s5 := s4.(cache := map[known := 1]);
    PublishedFirst(m, s4, r, known);
    Extended(m, trace, events, DoPublish(r, 0), s5);
    trace, events := trace + [s5], events + [DoPublish(r, 0)];
  }

  lemma AcceptedFirst<S, T(!new)>(m: Model<S, T>, s: Sys<S, T>, r: nat, known: seq<T>) returns (s': Sys<S, T>)
    requires ModelOk(m) && |known| == m.blockSize && s.cache == map[]
    requires s.reqs == map[r := FirstStep(m, known).(phase := Phase.Forwarded(known, []))]
    ensures Next(m, s, DoAccept(r, 1), s') && s'.cache == map[]
    ensures s'.reqs == map[r := FirstStep(m, known).(done := known, phase := Idle, saved := {0})]
  {
    FirstColumn(m.blockSize, m.spec);
    var q := FirstStep(m, known).(done := known, phase := Idle, saved := {0});
    s' := Sys(s.mem, map[r := q], map[]);
    assert [] + known + [] == known;
    assert s.reqs[r := q] == map[r := q];
  }

  lemma PublishedFirst<S, T(!new)>(m: Model<S, T>, s: Sys<S, T>, r: nat, known: seq<T>)
    requires ModelOk(m) && |known| == m.blockSize && s.cache == map[]
    requires s.reqs == map[r := FirstStep(m, known).(done := known, phase := Idle, saved := {0})]
    ensures Next(m, s, DoPublish(r, 0), s.(cache := map[known := 1]))
  {
    assert known[..m.blockSize] == known;
    assert s.cache[known := 1] == map[known := 1];
  }
}
