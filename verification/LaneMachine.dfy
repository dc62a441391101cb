/** Interleaved execution of the byte copies a GPU launch performs.

    A launch is a family of lanes. Each lane walks through its own list of accesses; one access
    loads `width` bytes at `src` into a register and later stores them at `dst`. Lanes advance
    independently, so loads and stores of different lanes mix in any order. Where lane k waits for lane l
    (they meet at the barriers of one CTA), k may store its access number n only after l has loaded its
    own access number n. A masked lane is an access of width 0: it touches no byte but still meets the barrier. */
module LaneMachine {

  newtype Byte = x: int | 0 <= x < 256

  type Memory = int -> Byte

  datatype Access = Access(src: int, dst: int, width: nat)

  datatype Program<!L(==)> = Program(lanes: set<L>, steps: L -> nat, op: (L, nat) -> Access, waits: (L, L) -> bool)

  /** `pc` counts the accesses a lane has stored; `held` is the register of a lane between load and store. */
  datatype State<!L(==)> = State(mem: Memory, pc: map<L, nat>, held: map<L, int -> Byte>)

  predicate Within(x: int, start: int, size: int) { start <= x < start + size }

  predicate Apart(a: int, n: int, b: int, m: int) { n <= 0 || m <= 0 || a + n <= b || b + m <= a }

  function Init<L(==)>(p: Program<L>, mem: Memory): State<L> {
    State(mem, map l | l in p.lanes :: 0, map[])
  }

  /** The barrier opens for lane `l` once every lane it waits for has loaded its access of the same round. */
  predicate Released<L(==)>(p: Program<L>, s: State<L>, l: L)
    requires l in s.pc
  {
    forall k | k in p.lanes && k in s.pc && p.waits(l, k) :: s.pc[k] > s.pc[l] || (s.pc[k] == s.pc[l] && k in s.held)
  }

  function Stored(mem: Memory, a: Access, reg: int -> Byte): Memory {
    x => if Within(x, a.dst, a.width) then reg(x - a.dst) else mem(x)
  }

  /** One scheduling decision: lane `l` performs its next load or store, or waits. */
  function LaneStep<L(==)>(p: Program<L>, s: State<L>, l: L): State<L> {
    if l !in p.lanes || l !in s.pc || s.pc[l] >= p.steps(l) then s
    else
      var a := p.op(l, s.pc[l]);
      if l !in s.held then s.(held := s.held[l := i => s.mem(a.src + i)])
      else if !Released(p, s, l) then s
      else State(Stored(s.mem, a, s.held[l]), s.pc[l := s.pc[l] + 1], s.held - {l})
  }

  lemma SameStep<L>(p: Program<L>, q: Program<L>, s: State<L>, l: L)
    requires p.lanes == q.lanes && p.steps(l) == q.steps(l)
    requires l in s.pc ==> p.op(l, s.pc[l]) == q.op(l, s.pc[l]) && (Released(p, s, l) <==> Released(q, s, l))
    ensures LaneStep(p, s, l) == LaneStep(q, s, l)
  {
  }

  function Exec<L(==)>(p: Program<L>, s: State<L>, schedule: seq<L>): State<L>
    decreases |schedule|
  {
    if schedule == [] then s
    else Exec(p, LaneStep(p, s, schedule[0]), schedule[1..])
  }

  predicate Done<L(==)>(p: Program<L>, s: State<L>) {
    forall l | l in p.lanes :: l in s.pc && s.pc[l] == p.steps(l)
  }

  ghost predicate Issued<L(!new)>(p: Program<L>, l: L, n: nat) {
    l in p.lanes && n < p.steps(l)
  }

  /** No byte is stored twice, and a byte that some access loads is stored over only by an access
      that is certain to store after that load: a later access of the same lane, or, with a barrier,
      an access of the same or a later round. */
  ghost predicate NonInterfering<L(!new)>(p: Program<L>) {
    && (forall l, k | l in p.lanes && k in p.lanes && p.waits(l, k) :: p.steps(l) == p.steps(k))
    && (forall l, n: nat, k, m: nat | Issued(p, l, n) && Issued(p, k, m) && (l, n) != (k, m) ::
          var a, b := p.op(l, n), p.op(k, m);
          && Apart(a.dst, a.width, b.dst, b.width)
          && (Apart(a.src, a.width, b.dst, b.width) || (l == k && n < m) || (p.waits(k, l) && n <= m)))
  }

  /** Access number `n` of lane `l` stores the byte at address `x`. */
  ghost predicate Writes<L(!new)>(p: Program<L>, l: L, n: nat, x: int) {
    Issued(p, l, n) && Within(x, p.op(l, n).dst, p.op(l, n).width)
  }

  /** The address an access reads for the byte it stores at `x`. */
  function SourceOf(a: Access, x: int): int { a.src + (x - a.dst) }

  /** The memory `m1` is `m0` with every access of the program performed on the bytes of `m0`. */
  ghost predicate Moved<L(!new)>(p: Program<L>, m0: Memory, m1: Memory) {
    && (forall l, n: nat, x | Writes(p, l, n, x) :: m1(x) == m0(SourceOf(p.op(l, n), x)))
    && (forall x {:trigger m1(x)} | m1(x) != m0(x) :: exists l, n: nat :: Writes(p, l, n, x))
  }

  /** What holds after any number of scheduling decisions. */
  ghost predicate Inv<L(!new)>(p: Program<L>, m0: Memory, s: State<L>) {
    && s.pc.Keys == p.lanes
    && s.held.Keys <= p.lanes
    && (forall l | l in p.lanes :: s.pc[l] <= p.steps(l))
    && (forall l | l in s.held :: s.pc[l] < p.steps(l))
    && Finished(p, m0, s)
    && RegistersOriginal(p, m0, s)
    && ChangedByFinished(p, m0, s)
    && InStep(p, s)
  }

  /** Stored accesses hold the original bytes of their source. */
  ghost predicate Finished<L(!new)>(p: Program<L>, m0: Memory, s: State<L>) {
    forall l, n: nat, x | Writes(p, l, n, x) && l in s.pc && n < s.pc[l] :: s.mem(x) == m0(SourceOf(p.op(l, n), x))
  }

  ghost predicate RegistersOriginal<L(!new)>(p: Program<L>, m0: Memory, s: State<L>) {
    forall l, i | l in s.held && l in s.pc && 0 <= i < p.op(l, s.pc[l]).width ::
      s.held[l](i) == m0(p.op(l, s.pc[l]).src + i)
  }

  ghost predicate ChangedByFinished<L(!new)>(p: Program<L>, m0: Memory, s: State<L>) {
    forall x {:trigger s.mem(x)} | s.mem(x) != m0(x) ::
      exists l, n: nat :: Writes(p, l, n, x) && l in s.pc && n < s.pc[l]
  }

  /** A lane is at most one round ahead of a lane it waits for. */
  ghost predicate InStep<L(!new)>(p: Program<L>, s: State<L>)
    requires s.pc.Keys == p.lanes
  {
    forall k, l | k in p.lanes && l in p.lanes && p.waits(k, l) :: s.pc[k] <= s.pc[l] + if l in s.held then 1 else 0
  }

  /** A source byte that has not been loaded yet is still the original byte. */
  lemma UnloadedSourceIntact<L(!new)>(p: Program<L>, m0: Memory, s: State<L>, l: L, n: nat, x: int)
    requires NonInterfering(p) && Inv(p, m0, s)
    requires Issued(p, l, n) && s.pc[l] <= n && (l in s.held ==> s.pc[l] < n)
    requires Within(x, p.op(l, n).src, p.op(l, n).width)
    ensures s.mem(x) == m0(x)
  {
    forall k, m: nat | Writes(p, k, m, x) ensures m >= s.pc[k] {
      assert !Apart(p.op(l, n).src, p.op(l, n).width, p.op(k, m).dst, p.op(k, m).width);
    }
  }

  lemma LoadedByte<L(!new)>(p: Program<L>, m0: Memory, s: State<L>, l: L, i: int)
    requires NonInterfering(p) && Inv(p, m0, s)
    requires l in p.lanes && s.pc[l] < p.steps(l) && l !in s.held && 0 <= i < p.op(l, s.pc[l]).width
    ensures var a := p.op(l, s.pc[l]); s.mem(a.src + i) == m0(a.src + i)
  {
    assert Issued(p, l, s.pc[l]);
    UnloadedSourceIntact(p, m0, s, l, s.pc[l], p.op(l, s.pc[l]).src + i);
  }

  lemma RegisterAdded<L(!new)>(p: Program<L>, m0: Memory, s: State<L>, t: State<L>, l: L)
    requires RegistersOriginal(p, m0, s) && l in s.pc && t.pc == s.pc && t.held.Keys == s.held.Keys + {l}
    requires forall k | k in s.held && k != l :: t.held[k] == s.held[k]
    requires forall i {:trigger t.held[l](i)} | 0 <= i < p.op(l, s.pc[l]).width ::
               t.held[l](i) == m0(p.op(l, s.pc[l]).src + i)
    ensures RegistersOriginal(p, m0, t)
  {
  }

  lemma LoadsOriginal<L(!new)>(p: Program<L>, m0: Memory, s: State<L>, l: L)
    requires NonInterfering(p) && Inv(p, m0, s)
    requires l in p.lanes && s.pc[l] < p.steps(l) && l !in s.held
    ensures RegistersOriginal(p, m0, LaneStep(p, s, l))
  {
    var t := LaneStep(p, s, l);
    forall i {:trigger t.held[l](i)} | 0 <= i < p.op(l, s.pc[l]).width
      ensures t.held[l](i) == m0(p.op(l, s.pc[l]).src + i)
    {
      LoadedByte(p, m0, s, l, i);
    }
    RegisterAdded(p, m0, s, t, l);
  }

  lemma LoadKeepsInv<L(!new)>(p: Program<L>, m0: Memory, s: State<L>, l: L)
    requires NonInterfering(p) && Inv(p, m0, s)
    requires l in p.lanes && s.pc[l] < p.steps(l) && l !in s.held
    ensures Inv(p, m0, LaneStep(p, s, l))
  {
    LoadsOriginal(p, m0, s, l);
    var t := LaneStep(p, s, l);
    assert t.mem == s.mem && t.pc == s.pc;
    assert Finished(p, m0, t) && ChangedByFinished(p, m0, t);
  }

  lemma StoreFinishes<L(!new)>(p: Program<L>, m0: Memory, s: State<L>, l: L)
    requires NonInterfering(p) && s.pc.Keys == p.lanes && Finished(p, m0, s) && RegistersOriginal(p, m0, s)
    requires l in p.lanes && s.pc[l] < p.steps(l) && l in s.held && Released(p, s, l)
    ensures Finished(p, m0, LaneStep(p, s, l))
  {
    var a, t, m := p.op(l, s.pc[l]), LaneStep(p, s, l), s.pc[l];
    assert Issued(p, l, m);
    forall k, n: nat, x | Writes(p, k, n, x) && k in t.pc && n < t.pc[k]
      ensures t.mem(x) == m0(SourceOf(p.op(k, n), x))
    {
      if k == l && n == m {
        assert t.mem(x) == s.held[l](x - a.dst);
      } else {
        assert Apart(p.op(k, n).dst, p.op(k, n).width, a.dst, a.width);
        assert t.mem(x) == s.mem(x);
      }
    }
  }

  lemma StoreChanges<L(!new)>(p: Program<L>, m0: Memory, s: State<L>, l: L)
    requires s.pc.Keys == p.lanes && ChangedByFinished(p, m0, s)
    requires l in p.lanes && s.pc[l] < p.steps(l) && l in s.held && Released(p, s, l)
    ensures ChangedByFinished(p, m0, LaneStep(p, s, l))
  {
    var a, t, m := p.op(l, s.pc[l]), LaneStep(p, s, l), s.pc[l];
    forall x | t.mem(x) != m0(x)
      ensures exists k, n: nat :: Writes(p, k, n, x) && k in t.pc && n < t.pc[k]
    {
      if Within(x, a.dst, a.width) {
        assert Writes(p, l, m, x);
      } else {
        assert s.mem(x) != m0(x);
        var k, n: nat :| Writes(p, k, n, x) && k in s.pc && n < s.pc[k];
        assert n < t.pc[k];
      }
    }
  }

  lemma StoreKeepsRegisters<L(!new)>(p: Program<L>, m0: Memory, s: State<L>, t: State<L>, l: L)
    requires RegistersOriginal(p, m0, s) && l in s.pc && s.held.Keys <= s.pc.Keys
    requires t.pc == s.pc[l := s.pc[l] + 1] && t.held == s.held - {l}
    ensures RegistersOriginal(p, m0, t)
  {
  }

  lemma StoreKeepsStep<L(!new)>(p: Program<L>, s: State<L>, l: L)
    requires s.pc.Keys == p.lanes && InStep(p, s) && l in p.lanes && s.pc[l] < p.steps(l) && l in s.held
    requires Released(p, s, l)
    ensures LaneStep(p, s, l).pc.Keys == p.lanes && InStep(p, LaneStep(p, s, l))
  {
  }

  lemma StoreKeepsInv<L(!new)>(p: Program<L>, m0: Memory, s: State<L>, l: L)
    requires NonInterfering(p) && Inv(p, m0, s)
    requires l in p.lanes && s.pc[l] < p.steps(l) && l in s.held && Released(p, s, l)
    ensures Inv(p, m0, LaneStep(p, s, l))
  {
    StoreFinishes(p, m0, s, l);
    StoreChanges(p, m0, s, l);
    StoreKeepsRegisters(p, m0, s, LaneStep(p, s, l), l);
    StoreKeepsStep(p, s, l);
  }

  lemma {:induction false} ExecKeepsInv<L(!new)>(p: Program<L>, m0: Memory, s: State<L>, schedule: seq<L>)
    requires NonInterfering(p) && Inv(p, m0, s)
    ensures Inv(p, m0, Exec(p, s, schedule))
    decreases |schedule|
  {
    if schedule != [] {
      var l := schedule[0];
      if l in p.lanes && s.pc[l] < p.steps(l) {
        if l !in s.held {
          LoadKeepsInv(p, m0, s, l);
        } else if Released(p, s, l) {
          StoreKeepsInv(p, m0, s, l);
        }
      }
      ExecKeepsInv(p, m0, LaneStep(p, s, l), schedule[1..]);
    }
  }

  /** Main result: every complete schedule of a non-interfering program performs all its accesses
      on the original bytes and changes no other byte. */
  lemma AnyScheduleMoves<L(!new)>(p: Program<L>, m0: Memory, schedule: seq<L>)
    requires NonInterfering(p)
    requires Done(p, Exec(p, Init(p, m0), schedule))
    ensures Moved(p, m0, Exec(p, Init(p, m0), schedule).mem)
  {
    ExecKeepsInv(p, m0, Init(p, m0), schedule);
    var s := Exec(p, Init(p, m0), schedule);
    forall x | s.mem(x) != m0(x) ensures exists l, n: nat :: Writes(p, l, n, x) {
      var l, n: nat :| Writes(p, l, n, x) && l in s.pc && n < s.pc[l];
    }
  }

  /** No schedule gets stuck: while some lane is unfinished, some lane can load, or can store past the barrier. */
  lemma NoDeadlock<L(!new)>(p: Program<L>, m0: Memory, schedule: seq<L>)
    requires NonInterfering(p)
    requires !Done(p, Exec(p, Init(p, m0), schedule))
    ensures var s := Exec(p, Init(p, m0), schedule);
            exists l :: l in p.lanes && l in s.pc && s.pc[l] < p.steps(l) && (l !in s.held || Released(p, s, l))
  {
    ExecKeepsInv(p, m0, Init(p, m0), schedule);
    var s := Exec(p, Init(p, m0), schedule);
    var open := set l | l in p.lanes && s.pc[l] < p.steps(l);
    var late :| late in p.lanes && s.pc[late] != p.steps(late);
    assert late in open;
    var l := Slowest(open, s.pc);
    if forall u | u in open && s.pc[u] == s.pc[l] :: u in s.held {
      forall k | k in p.lanes && k in s.pc && p.waits(l, k)
        ensures s.pc[k] > s.pc[l] || (s.pc[k] == s.pc[l] && k in s.held)
      {
        assert p.steps(k) == p.steps(l);
      }
      assert Released(p, s, l);
    }
  }

  lemma {:induction false} Slowest<L>(lanes: set<L>, pc: map<L, nat>) returns (l: L)
    requires lanes <= pc.Keys && lanes != {}
    ensures l in lanes && forall k | k in lanes :: pc[l] <= pc[k]
    decreases |lanes|
  {
    l :| l in lanes;
    if lanes != {l} {
      var k := Slowest(lanes - {l}, pc);
      if pc[k] < pc[l] { l := k; }
    }
  }

  /** Without a barrier every started schedule can be completed: lane after lane. */
  lemma {:induction false} CanFinish<L(!new)>(p: Program<L>, s: State<L>, rest: set<L>) returns (schedule: seq<L>)
    requires (forall k, l | k in p.lanes && l in p.lanes :: !p.waits(k, l)) && s.pc.Keys == p.lanes && rest <= p.lanes
    requires forall l | l in p.lanes :: s.pc[l] <= p.steps(l)
    requires forall l | l in p.lanes && l !in rest :: s.pc[l] == p.steps(l)
    ensures Done(p, Exec(p, s, schedule))
    decreases |rest|
  {
    if rest == {} {
      schedule := [];
    } else {
      var l :| l in rest;
      var first := FinishLane(p, s, l);
      var later := CanFinish(p, Exec(p, s, first), rest - {l});
      ExecAppend(p, s, first, later);
      schedule := first + later;
    }
  }

  lemma {:induction false} FinishLane<L(!new)>(p: Program<L>, s: State<L>, l: L) returns (schedule: seq<L>)
    requires (forall k, l | k in p.lanes && l in p.lanes :: !p.waits(k, l)) && s.pc.Keys == p.lanes && l in p.lanes
    requires s.pc[l] <= p.steps(l)
    ensures var t := Exec(p, s, schedule);
            t.pc == s.pc[l := p.steps(l)]
    decreases p.steps(l) - s.pc[l], l !in s.held
  {
    if s.pc[l] == p.steps(l) {
      schedule := [];
    } else {
      var rest := FinishLane(p, LaneStep(p, s, l), l);
      schedule := [l] + rest;
      assert schedule[1..] == rest;
    }
  }

  lemma {:induction false} ExecAppend<L(!new)>(p: Program<L>, s: State<L>, a: seq<L>, b: seq<L>)
    ensures Exec(p, s, a + b) == Exec(p, Exec(p, s, a), b)
    decreases |a|
  {
    if a == [] {
      assert a + b == b;
    } else {
      ExecAppend(p, LaneStep(p, s, a[0]), a[1..], b);
      assert (a + b)[1..] == a[1..] + b;
    }
  }

  // ---------------------------------------------------------------- contiguous regions

  datatype Region = Region(src: int, dst: int, size: int)

  /** `m1` is `m0` with each region copied from the bytes of `m0`, and nothing else changed. */
  ghost predicate Copied(regions: set<Region>, m0: Memory, m1: Memory) {
    && (forall r, x | r in regions && Within(x, r.dst, r.size) :: m1(x) == m0(r.src + (x - r.dst)))
    && (forall x {:trigger m1(x)} | m1(x) != m0(x) :: exists r :: r in regions && Within(x, r.dst, r.size))
  }

  ghost predicate PartOf<L(!new)>(p: Program<L>, l: L, n: nat, r: Region) {
    var a := p.op(l, n);
    && a.src - a.dst == r.src - r.dst
    && r.dst <= a.dst && a.dst + a.width <= r.dst + r.size
  }

  ghost predicate InSomeRegion<L(!new)>(p: Program<L>, regions: set<Region>, l: L, n: nat) {
    exists r :: r in regions && PartOf(p, l, n, r)
  }

  ghost predicate CoveredIn<L(!new)>(p: Program<L>, r: Region, x: int) {
    exists l, n: nat :: Writes(p, l, n, x) && PartOf(p, l, n, r)
  }

  /** The accesses of the program are the bytes of the regions: none outside, none missing. */
  ghost predicate Implements<L(!new)>(p: Program<L>, regions: set<Region>) {
    && (forall l, n: nat {:trigger InSomeRegion(p, regions, l, n)} | Issued(p, l, n) && p.op(l, n).width > 0 ::
          InSomeRegion(p, regions, l, n))
    && (forall r, x {:trigger CoveredIn(p, r, x)} | r in regions && Within(x, r.dst, r.size) :: CoveredIn(p, r, x))
  }

  lemma MovedIsCopied<L(!new)>(p: Program<L>, regions: set<Region>, m0: Memory, m1: Memory)
    requires Implements(p, regions) && Moved(p, m0, m1)
    ensures Copied(regions, m0, m1)
  {
    forall r, x | r in regions && Within(x, r.dst, r.size) ensures m1(x) == m0(r.src + (x - r.dst)) {
      assert CoveredIn(p, r, x);
      var l, n: nat :| Writes(p, l, n, x) && PartOf(p, l, n, r);
      assert SourceOf(p.op(l, n), x) == r.src + (x - r.dst);
    }
    forall x | m1(x) != m0(x) ensures exists r :: r in regions && Within(x, r.dst, r.size) {
      var l, n: nat :| Writes(p, l, n, x);
      assert InSomeRegion(p, regions, l, n);
      var r :| r in regions && PartOf(p, l, n, r);
      assert Within(x, r.dst, r.size);
    }
  }

  /** The contents after a copy are determined by the regions alone. */
  lemma CopiedUnique(regions: set<Region>, m0: Memory, m1: Memory, m2: Memory)
    requires Copied(regions, m0, m1) && Copied(regions, m0, m2)
    ensures forall x :: m1(x) == m2(x)
  {
    forall x ensures m1(x) == m2(x) {
      if r :| r in regions && Within(x, r.dst, r.size) {
        assert m1(x) == m0(r.src + (x - r.dst)) == m2(x);
      }
    }
  }
}
