/** The batched byte copy of the scalar path: one program per copy, its lanes in lockstep rounds,
    with one barrier per round when the destination overlaps the source from the left. */
module OverlapCopy {
  import opened LaneMachine
  import opened TiledCopy

  predicate LeftOverlap(src: int, dst: int, size: nat) { dst < src && dst + size > src }

  predicate RightOverlap(src: int, dst: int, size: nat) { src < dst && src + size > dst }

  predicate IsLane(l: nat, block: nat) { l < block }

  /** The byte lane `l` of a block of `block` lanes moves in round `i`. */
  function ByteAt(i: nat, l: nat, block: nat): nat { i * block + l }

  function ByteAccess(src: int, dst: int, size: nat, o: nat): Access {
    Access(src + o, dst + o, if o < size then 1 else 0)
  }

  function BatchProgram(src: int, dst: int, size: nat, block: nat): Program<nat>
    requires block > 0
  {
    Program(set l: nat | l < block && IsLane(l, block), (l: nat) => Rounds(size, block),
            (l: nat, i: nat) => ByteAccess(src, dst, size, ByteAt(i, l, block)),
            (k: nat, l: nat) => LeftOverlap(src, dst, size))
  }

  function Rounds(size: nat, block: nat): nat
    requires block > 0
  {
    CeilDivBounds(size, block);
    CeilDiv(size, block)
  }

  /** Lane and round of a byte are unique. */
  lemma LaneOf(i: nat, l: nat, j: nat, k: nat, block: nat)
    requires l < block && k < block
    ensures ByteAt(i, l, block) == ByteAt(j, k, block) ==> i == j && l == k
    ensures i < j ==> ByteAt(i, l, block) < ByteAt(j, k, block)
    ensures ByteAt(j, k, block) < ByteAt(i, l, block) ==> j <= i
  {
    if i < j {
      RoundsOrdered(i, j, block);
    } else if j < i {
      RoundsOrdered(j, i, block);
    }
  }

  lemma RoundsOrdered(i: nat, j: nat, block: nat)
    requires i < j
    ensures i * block + block <= j * block
  {
    Monotone(i + 1, j, block);
    assert block * (i + 1) == i * block + block;
  }

  /** A store of round i may run next to loads of round i + 1, never of a later round, and never
      next to a load of its own round; that is enough when the destination lies to the left. */
  lemma BatchNonInterfering(src: int, dst: int, size: nat, block: nat)
    requires block > 0 && !RightOverlap(src, dst, size)
    ensures NonInterfering(BatchProgram(src, dst, size, block))
  {
    var p := BatchProgram(src, dst, size, block);
    forall l, n: nat, k, m: nat | Issued(p, l, n) && Issued(p, k, m) && (l, n) != (k, m)
      ensures Apart(p.op(l, n).dst, p.op(l, n).width, p.op(k, m).dst, p.op(k, m).width)
      ensures Apart(p.op(l, n).src, p.op(l, n).width, p.op(k, m).dst, p.op(k, m).width) || (p.waits(k, l) && n <= m)
    {
      LaneOf(n, l, m, k, block);
      LaneOf(m, k, n, l, block);
      BytesApart(src, dst, size, ByteAt(n, l, block), ByteAt(m, k, block));
    }
  }

  lemma BytesApart(src: int, dst: int, size: nat, o: nat, o': nat)
    requires o != o' && !RightOverlap(src, dst, size)
    ensures var a, b := ByteAccess(src, dst, size, o), ByteAccess(src, dst, size, o');
            && Apart(a.dst, a.width, b.dst, b.width)
            && (Apart(a.src, a.width, b.dst, b.width) || (LeftOverlap(src, dst, size) && o < o'))
  {
  }

  lemma BatchImplements(src: int, dst: int, size: nat, block: nat)
    requires block > 0
    ensures Implements(BatchProgram(src, dst, size, block), {Region(src, dst, size)})
  {
    var p, r := BatchProgram(src, dst, size, block), Region(src, dst, size);
    forall l, n: nat | Issued(p, l, n) && p.op(l, n).width > 0 ensures InSomeRegion(p, {r}, l, n) {
      assert p.op(l, n) == ByteAccess(src, dst, size, ByteAt(n, l, block));
      assert PartOf(p, l, n, r);
    }
    forall x | Within(x, dst, size) ensures CoveredIn(p, r, x) {
      var l, n := RoundOf(x - dst, size, block);
      assert Writes(p, l, n, x) && PartOf(p, l, n, r);
    }
  }

  lemma RoundOf(o: nat, size: nat, block: nat) returns (l: nat, n: nat)
    requires block > 0 && o < size
    ensures l < block && n < Rounds(size, block) && o == ByteAt(n, l, block)
  {
    l, n := o % block, o / block;
    assert o == n * block + l;
    CeilDivBounds(size, block);
    if n >= Rounds(size, block) {
      Monotone(Rounds(size, block), n, block);
    }
  }

  /** One barrier per round suffices: unless the destination overlaps the source from the right,
      every interleaving of the lanes that respects the barrier is a memmove. */
  lemma BatchAnySchedule(src: int, dst: int, size: nat, block: nat, m0: Memory, schedule: seq<nat>)
    requires block > 0 && !RightOverlap(src, dst, size)
    requires var p := BatchProgram(src, dst, size, block); Done(p, Exec(p, Init(p, m0), schedule))
    ensures var p := BatchProgram(src, dst, size, block);
            Copied({Region(src, dst, size)}, m0, Exec(p, Init(p, m0), schedule).mem)
  {
    var p := BatchProgram(src, dst, size, block);
    BatchNonInterfering(src, dst, size, block);
    AnyScheduleMoves(p, m0, schedule);
    BatchImplements(src, dst, size, block);
    MovedIsCopied(p, {Region(src, dst, size)}, m0, Exec(p, Init(p, m0), schedule).mem);
  }

  // ---------------------------------------------------------------- right overlap

  /** Once lane 0 has stored byte 0 over a source byte that lane `vl` still has to read in round `vn`,
      that byte's copy is wrong however the schedule goes on. */
  ghost predicate Spoiled(p: Program<nat>, src: int, dst: int, vl: nat, vn: nat, v: Byte, s: State<nat>) {
    && s.pc.Keys == p.lanes && 0 in p.lanes && vl in p.lanes
    && s.pc[0] >= 1
    && s.mem(dst) == v
    && (s.pc[vl] > vn ==> s.mem(dst + (dst - src)) == v)
    && (s.pc[vl] == vn && vl in s.held ==> s.held[vl](0) == v)
  }

  lemma {:induction false} SpoiledForever(src: int, dst: int, size: nat, block: nat, vl: nat, vn: nat, v: Byte,
                                          s: State<nat>, schedule: seq<nat>)
    requires block > 0 && RightOverlap(src, dst, size) && vl < block && ByteAt(vn, vl, block) == dst - src
    requires Spoiled(BatchProgram(src, dst, size, block), src, dst, vl, vn, v, s)
    ensures var p := BatchProgram(src, dst, size, block); Spoiled(p, src, dst, vl, vn, v, Exec(p, s, schedule))
    decreases |schedule|
  {
    if schedule != [] {
      var p, l := BatchProgram(src, dst, size, block), schedule[0];
      SpoiledStep(src, dst, size, block, vl, vn, v, s, l);
      SpoiledForever(src, dst, size, block, vl, vn, v, LaneStep(p, s, l), schedule[1..]);
    }
  }

  lemma SpoiledStep(src: int, dst: int, size: nat, block: nat, vl: nat, vn: nat, v: Byte, s: State<nat>, l: nat)
    requires block > 0 && RightOverlap(src, dst, size) && vl < block && ByteAt(vn, vl, block) == dst - src
    requires Spoiled(BatchProgram(src, dst, size, block), src, dst, vl, vn, v, s)
    ensures var p := BatchProgram(src, dst, size, block); Spoiled(p, src, dst, vl, vn, v, LaneStep(p, s, l))
  {
    var p := BatchProgram(src, dst, size, block);
    if l in p.lanes {
      LaneOf(vn, vl, s.pc[l], l, block);
      LaneOf(0, 0, s.pc[l], l, block);
      assert p.op(l, s.pc[l]) == ByteAccess(src, dst, size, ByteAt(s.pc[l], l, block));
      assert ByteAt(0, 0, block) == 0;
      var t, o := LaneStep(p, s, l), ByteAt(s.pc[l], l, block);
      if t.pc != s.pc {
        assert o == dst - src <==> l == vl && s.pc[l] == vn;
        var x, a := dst + (dst - src), ByteAccess(src, dst, size, o);
        assert t.mem(x) == if Within(x, a.dst, a.width) then s.held[l](x - a.dst) else s.mem(x);
      }
    }
  }

  /** The kernel is a memmove for every schedule and memory exactly when the destination does not
      overlap the source from the right; the callers' left shifts and block-to-block copies never do. */
  lemma MemmoveExactlyWhen(src: int, dst: int, size: nat, block: nat)
    requires block > 0
    ensures (forall m0: Memory, schedule: seq<nat> ::
               var p := BatchProgram(src, dst, size, block);
               Done(p, Exec(p, Init(p, m0), schedule)) ==>
                 Copied({Region(src, dst, size)}, m0, Exec(p, Init(p, m0), schedule).mem))
            <==> !RightOverlap(src, dst, size)
  {
    var p := BatchProgram(src, dst, size, block);
    if RightOverlap(src, dst, size) {
      var m0, schedule := RightOverlapFails(src, dst, size, block);
    } else {
      forall m0: Memory, schedule: seq<nat> | Done(p, Exec(p, Init(p, m0), schedule))
        ensures Copied({Region(src, dst, size)}, m0, Exec(p, Init(p, m0), schedule).mem)
      {
        BatchAnySchedule(src, dst, size, block, m0, schedule);
      }
    }
  }

  lemma RightOverlapFails(src: int, dst: int, size: nat, block: nat) returns (m0: Memory, schedule: seq<nat>)
    requires block > 0 && RightOverlap(src, dst, size)
    ensures var p := BatchProgram(src, dst, size, block);
            && Done(p, Exec(p, Init(p, m0), schedule))
            && !Copied({Region(src, dst, size)}, m0, Exec(p, Init(p, m0), schedule).mem)
  {
    var p, d := BatchProgram(src, dst, size, block), dst - src;
    m0 := x => if x == src then 1 else 0;
    var vl, vn := RoundOf(d, size, block);
    LaneOf(vn, vl, 0, 0, block);
    assert 0 in p.lanes && vl in p.lanes;
    assert p.op(0, 0) == Access(src, dst, 1) by { assert ByteAt(0, 0, block) == 0; }
    var s1 := LaneStep(p, Init(p, m0), 0);
    assert s1.held[0](0) == m0(src);
    var s2 := LaneStep(p, s1, 0);
    assert !p.waits(0, 0) && s1.pc[0] == 0 < p.steps(0);
    assert s2.mem == Stored(s1.mem, p.op(0, 0), s1.held[0]);
    var a := p.op(0, 0);
    assert s2.mem(dst) == if Within(dst, a.dst, a.width) then s1.held[0](dst - a.dst) else s1.mem(dst);
    assert Exec(p, s2, []) == s2 && Exec(p, s1, [0]) == s2 && Exec(p, Init(p, m0), [0, 0]) == s2 by {
      assert [0, 0][1..] == [0] && [0][1..] == [];
    }
    assert Spoiled(p, src, dst, vl, vn, 1, s2);
    var rest := CanFinish(p, s2, p.lanes);
    ExecAppend(p, Init(p, m0), [0, 0], rest);
    schedule := [0, 0] + rest;
    SpoiledForever(src, dst, size, block, vl, vn, 1, s2, rest);
    var t := Exec(p, Init(p, m0), schedule);
    assert t.mem(dst + d) == 1;
    assert Within(dst + d, dst, size) && m0(src + (dst + d - dst)) == 0;
  }

  // ---------------------------------------------------------------- a batch of copies at once

  function SizeOf(r: Region): nat { if r.size >= 0 then r.size else 0 }

  datatype BatchLane = BatchLane(copy: nat, lane: nat)

  /** One program per entry of the copy list; lanes wait only for lanes of their own program. */
  function BatchGrid(copies: seq<Region>, block: nat): Program<BatchLane>
    requires block > 0
  {
    Program(set i: nat, l: nat | i < |copies| && l < block :: BatchLane(i, l),
            (x: BatchLane) => if x.copy < |copies| then Rounds(SizeOf(copies[x.copy]), block) else 0,
            (x: BatchLane, n: nat) =>
              if x.copy < |copies| then
                var c := copies[x.copy];
                ByteAccess(c.src, c.dst, SizeOf(c), ByteAt(n, x.lane, block))
              else Access(0, 0, 0),
            (x: BatchLane, y: BatchLane) =>
              x.copy == y.copy && x.copy < |copies| &&
                LeftOverlap(copies[x.copy].src, copies[x.copy].dst, SizeOf(copies[x.copy])))
  }

  /** No copy overlaps its source from the right, and no copy writes what another reads or writes. */
  ghost predicate Separate(copies: seq<Region>) {
    && (forall i | 0 <= i < |copies| ::
          copies[i].size >= 0 && !RightOverlap(copies[i].src, copies[i].dst, copies[i].size))
    && (forall i, j | 0 <= i < |copies| && 0 <= j < |copies| && i != j ::
          && Apart(copies[i].dst, copies[i].size, copies[j].dst, copies[j].size)
          && Apart(copies[i].src, copies[i].size, copies[j].dst, copies[j].size))
  }

  lemma BatchGridPair(copies: seq<Region>, block: nat, x: BatchLane, n: nat, y: BatchLane, m: nat)
    requires block > 0 && Separate(copies)
    requires var p := BatchGrid(copies, block); Issued(p, x, n) && Issued(p, y, m) && (x, n) != (y, m)
    ensures var p := BatchGrid(copies, block);
            var a, b := p.op(x, n), p.op(y, m);
            && Apart(a.dst, a.width, b.dst, b.width)
            && (Apart(a.src, a.width, b.dst, b.width) || (p.waits(y, x) && n <= m))
  {
    var c, d := copies[x.copy], copies[y.copy];
    var o, o' := ByteAt(n, x.lane, block), ByteAt(m, y.lane, block);
    if x.copy == y.copy {
      LaneOf(n, x.lane, m, y.lane, block);
      LaneOf(m, y.lane, n, x.lane, block);
      BytesApart(c.src, c.dst, c.size, o, o');
    } else {
      assert Apart(c.dst, c.size, d.dst, d.size) && Apart(c.src, c.size, d.dst, d.size);
    }
  }

  lemma BatchGridNonInterfering(copies: seq<Region>, block: nat)
    requires block > 0 && Separate(copies)
    ensures NonInterfering(BatchGrid(copies, block))
  {
    var p := BatchGrid(copies, block);
    forall x, n: nat, y, m: nat | Issued(p, x, n) && Issued(p, y, m) && (x, n) != (y, m)
      ensures Apart(p.op(x, n).dst, p.op(x, n).width, p.op(y, m).dst, p.op(y, m).width)
      ensures Apart(p.op(x, n).src, p.op(x, n).width, p.op(y, m).dst, p.op(y, m).width) || (p.waits(y, x) && n <= m)
    {
      BatchGridPair(copies, block, x, n, y, m);
    }
  }

  lemma BatchGridImplements(copies: seq<Region>, block: nat)
    requires block > 0 && Separate(copies)
    ensures Implements(BatchGrid(copies, block), set i | 0 <= i < |copies| :: copies[i])
  {
    var p, regions := BatchGrid(copies, block), set i | 0 <= i < |copies| :: copies[i];
    forall x, n: nat | Issued(p, x, n) && p.op(x, n).width > 0 ensures InSomeRegion(p, regions, x, n) {
      assert copies[x.copy] in regions && PartOf(p, x, n, copies[x.copy]);
    }
    forall r, a | r in regions && Within(a, r.dst, r.size) ensures CoveredIn(p, r, a) {
      var i :| 0 <= i < |copies| && copies[i] == r;
      var l, n := RoundOf(a - r.dst, r.size, block);
      assert Writes(p, BatchLane(i, l), n, a) && PartOf(p, BatchLane(i, l), n, r);
    }
  }

  /** All copies of the list, all rounds and lanes interleaved: every copy is performed on the original contents. */
  lemma BatchGridAnySchedule(copies: seq<Region>, block: nat, m0: Memory, schedule: seq<BatchLane>)
    requires block > 0 && Separate(copies)
    requires var p := BatchGrid(copies, block); Done(p, Exec(p, Init(p, m0), schedule))
    ensures var p := BatchGrid(copies, block);
            Copied(set i | 0 <= i < |copies| :: copies[i], m0, Exec(p, Init(p, m0), schedule).mem)
  {
    var p := BatchGrid(copies, block);
    BatchGridNonInterfering(copies, block);
    AnyScheduleMoves(p, m0, schedule);
    BatchGridImplements(copies, block);
    MovedIsCopied(p, set i | 0 <= i < |copies| :: copies[i], m0, Exec(p, Init(p, m0), schedule).mem);
  }

  // ---------------------------------------------------------------- the kernel on device memory

  /** One program of the kernel with its lanes in lockstep: in each round all lanes load, then all store. */
  method BatchMemcpyKernel(mem: array<Byte>, src: int, dst: int, size: nat, block: nat)
    requires block > 0 && !RightOverlap(src, dst, size)
    requires 0 <= src && src + size <= mem.Length && 0 <= dst && dst + size <= mem.Length
    modifies mem
    ensures Filled(old(mem[..]), mem[..], src, dst, Offsets(0, size))
  {
    var i := 0;
    while i < size
      invariant 0 <= i
      invariant Filled(old(mem[..]), mem[..], src, dst, Offsets(0, Min(i, size)))
    {
      ghost var m1 := mem[..];
      MoveVector(mem, src, dst, i, Min(i + block, size));
      FilledUp(old(mem[..]), m1, mem[..], src, dst, i, Min(i + block, size));
      i := i + block;
    }
  }

  /** Filling from low to high offsets is safe unless the destination lies to the right of the source. */
  lemma FilledUp(m0: seq<Byte>, m1: seq<Byte>, m2: seq<Byte>, src: int, dst: int, lo: nat, hi: nat)
    requires Filled(m0, m1, src, dst, Offsets(0, lo)) && Filled(m1, m2, src, dst, Offsets(lo, hi))
    requires lo <= hi && !RightOverlap(src, dst, hi)
    ensures Filled(m0, m2, src, dst, Offsets(0, hi))
  {
  }
}
