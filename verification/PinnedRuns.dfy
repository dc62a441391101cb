/** Whole runs of the block pool: what allocation, hashing, prefix hits, returns, re-arming and resets keep. */
module PinnedRuns {
  import opened PinnedPool

  datatype Op =
    | Alloc(n: nat)
    | Hash(block: nat, key: Key)
    | Use(blocks: seq<nat>)
    | Return(blocks: seq<nat>)
    | Arm(hashes: set<Key>, fraction: real)
    | Clear

  /** What the callers owe: full blocks get one hash, a freed batch is distinct and in use. */
  ghost predicate Enabled(p: Pool, op: Op)
    requires Sized(p)
  {
    match op
    case Hash(b, k) => IsBlock(p, b) && p.refCnt[b] > 0 && p.hash[b] == None
    case Use(blocks) => Below(blocks, p.num)
    case Return(blocks) => Freeable(p, blocks)
    case _ => true
  }

  ghost function Apply(p: Pool, op: Op): Pool
    requires Sized(p) && Enabled(p, op)
  {
    match op
    case Alloc(n) => if n <= |p.free| then Allocate(p, n) else p
    case Hash(b, k) => SetHash(p, b, k)
    case Use(blocks) => Touch(p, blocks)
    case Return(blocks) => Free(p, blocks)
    case Arm(hashes, fraction) => SetPinned(p, hashes, fraction)
    case Clear => Reset(p).0
  }

  lemma ApplyKeepsNum(p: Pool, op: Op)
    requires Valid(p) && Enabled(p, op)
    ensures Apply(p, op).num == p.num
  {
    match op
    case Alloc(n) => if n <= |p.free| { AllocateIs(p, n); }
    case Use(blocks) => TouchKeepsValid(p, blocks);
    case _ =>
  }

  lemma ApplyKeepsValid(p: Pool, op: Op)
    requires Valid(p) && Enabled(p, op)
    ensures Valid(Apply(p, op))
  {
    match op
    case Alloc(n) => if n <= |p.free| { AllocateKeepsValid(p, n); }
    case Hash(b, k) => SetHashKeepsValid(p, b, k);
    case Use(blocks) => TouchKeepsValid(p, blocks);
    case Return(blocks) => FreeKeepsValid(p, blocks);
    case Arm(hashes, fraction) => SetPinnedKeepsValid(p, hashes, fraction);
    case Clear => ResetOnlyBlockedByUse(p);
  }

  /** Every operation of the run is one its callers may make. */
  ghost predicate Runs(p: Pool, ops: seq<Op>)
    decreases |ops|
  {
    Sized(p) && (ops != [] ==> Enabled(p, ops[0]) && Runs(Apply(p, ops[0]), ops[1..]))
  }

  ghost function Run(p: Pool, ops: seq<Op>): Pool
    requires Runs(p, ops)
    decreases |ops|
  {
    if ops == [] then p else Run(Apply(p, ops[0]), ops[1..])
  }

  lemma InitialValid(num: nat)
    requires num > 0
    ensures Valid(Initial(num))
  {
    var p := Initial(num);
    assert Elems(p.free) == Blocks(num) by {
      forall b | b in Blocks(num) ensures b in p.free {
        assert p.free[b - 1] == b;
      }
      forall b | b in p.free ensures IsNat(b) { }
    }
    assert Unused(p) == Blocks(num);
  }

  /** Every reachable pool splits its blocks into free, pinned and used ones, and the counts add up to the pool. */
  lemma {:induction false} RunKeepsValid(p: Pool, ops: seq<Op>)
    requires Valid(p) && Runs(p, ops)
    ensures Valid(Run(p, ops)) && Run(p, ops).num == p.num
    ensures |Run(p, ops).free| + |Run(p, ops).pin| + |InUse(Run(p, ops))| == p.num - 1
    decreases |ops|
  {
    if ops == [] {
      Conservation(p);
    } else {
      ApplyKeepsValid(p, ops[0]);
      ApplyKeepsNum(p, ops[0]);
      RunKeepsValid(Apply(p, ops[0]), ops[1..]);
    }
  }

  lemma ReachableConserves(num: nat, ops: seq<Op>)
    requires num > 0 && Runs(Initial(num), ops)
    ensures var q := Run(Initial(num), ops);
            && Valid(q)
            && |q.free| + |q.pin| + |InUse(q)| == num - 1
            && Elems(q.free) + Elems(q.pin) + InUse(q) == Blocks(num) && Elems(q.free) !! Elems(q.pin) !! InUse(q)
            && |q.byHash| <= q.cap
  {
    InitialValid(num);
    RunKeepsValid(Initial(num), ops);
    Conservation(Run(Initial(num), ops));
  }

  // ---------------------------------------------------------------- pinned content survives traffic

  predicate Traffic(op: Op) { !op.Arm? && !op.Clear? }

  /** The blocks handed out during the run. */
  ghost function HandedOut(p: Pool, ops: seq<Op>): set<nat>
    requires Runs(p, ops)
    decreases |ops|
  {
    if ops == [] then {}
    else
      (if ops[0].Alloc? && Allocated(p, ops[0].n).Some? then Elems(Allocated(p, ops[0].n).value) else {}) +
          HandedOut(Apply(p, ops[0]), ops[1..])
  }

  lemma {:induction false} ClaimKeepsHolder(p: Pool, blocks: seq<nat>, k: Key)
    requires Below(blocks, |p.hash|) && k in p.byHash
    ensures var q := Claim(p, blocks).0; k in q.byHash && q.byHash[k] == p.byHash[k]
    decreases |blocks|
  {
    if blocks != [] { ClaimKeepsHolder(AcquirePin(p, blocks[0]).0, blocks[1..], k); }
  }

  lemma FreeKeepsHolder(p: Pool, blocks: seq<nat>, k: Key)
    requires |p.refCnt| == |p.hash| && Below(blocks, |p.refCnt|) && k in p.byHash
    ensures var q := Free(p, blocks); k in q.byHash && q.byHash[k] == p.byHash[k] && q.hash == p.hash
  {
    var q := ReleaseAll(p, blocks);
    if q.pinned != {} {
      var first := Idle(q, blocks, false);
      ClaimKeepsHolder(q, first, k);
      ClaimKeepsHolder(Claim(q, first).0, Idle(q, blocks, true), k);
    }
  }

  lemma TrafficKeepsHolder(p: Pool, op: Op, k: Key)
    requires Valid(p) && Enabled(p, op) && Traffic(op) && k in p.byHash
    ensures var q := Apply(p, op); k in q.byHash && q.byHash[k] == p.byHash[k]
    ensures op.Alloc? && Allocated(p, op.n).Some? ==> p.byHash[k] !in Elems(Allocated(p, op.n).value)
  {
    assert Reserved(p, k, p.byHash[k]);
    if op.Alloc? { AllocateExactly(p, op.n); }
    match op
    case Alloc(n) => if n <= |p.free| { AllocateIs(p, n); }
    case Use(blocks) => TouchKeepsValid(p, blocks);
    case Return(blocks) => FreeKeepsHolder(p, blocks, k);
    case Hash(b, h) =>
  }

  /** Over any run that neither re-arms nor resets, a reserved hash stays with its block, the block keeps its hash
      through every loan and return, and no allocation ever hands the block out. */
  lemma {:induction false} PinnedSurvives(p: Pool, ops: seq<Op>, k: Key)
    requires Valid(p) && Runs(p, ops) && k in p.byHash && forall i | 0 <= i < |ops| :: Traffic(ops[i])
    ensures var q, b := Run(p, ops), p.byHash[k];
            && Sized(q) && k in q.byHash && q.byHash[k] == b && Reserved(q, k, b)
            && b !in HandedOut(p, ops)
    decreases |ops|
  {
    if ops == [] {
      assert Reserved(p, k, p.byHash[k]);
    } else {
      ApplyKeepsValid(p, ops[0]);
      TrafficKeepsHolder(p, ops[0], k);
      PinnedSurvives(Apply(p, ops[0]), ops[1..], k);
    }
  }

  /** A reserved block sits in the pin queue exactly when no request uses it. */
  lemma ReservedHome(p: Pool, k: Key)
    requires Valid(p) && k in p.byHash
    ensures p.byHash[k] in p.pinnedIds <==> p.refCnt[p.byHash[k]] == 0
  {
    assert Reserved(p, k, p.byHash[k]);
    assert p.byHash[k] in Unused(p) <==> p.refCnt[p.byHash[k]] == 0 by {
      assert p.byHash[k] in Blocks(p.num) by { assert IsNat(p.byHash[k]); }
    }
  }

  /** The reservations whose block is on loan to a request. */
  ghost function OnLoan(p: Pool): set<Key>
    requires Valid(p)
  {
    set k | k in p.byHash && p.byHash[k] !in p.pinnedIds
  }

  /** The reservations, minus the blocks in the pin queue, are the blocks on loan. */
  lemma ReservedIsHeldPlusLoaned(p: Pool)
    requires Valid(p)
    ensures |p.byHash| == |p.pin| + |OnLoan(p)|
  {
    PinSits(p);
    HeldCount(p, p.pin);
    var held := HeldBy(p, p.pin);
    assert OnLoan(p) == p.byHash.Keys - held;
    assert held <= p.byHash.Keys;
  }

  lemma PinSits(p: Pool)
    requires Sized(p) && p.pinnedIds == Elems(p.pin)
    ensures Sitting(p, p.pin)
  {
    ElemsBelow(p.pin, p.num);
    forall i | 0 <= i < |p.pin| ensures p.pin[i] in p.pinnedIds { assert p.pin[i] in Elems(p.pin); }
  }

  predicate Sitting(p: Pool, blocks: seq<nat>) {
    forall i | 0 <= i < |blocks| :: blocks[i] in p.pinnedIds && blocks[i] < p.num
  }

  ghost function HeldBy(p: Pool, blocks: seq<nat>): set<Key> { set k | k in p.byHash && p.byHash[k] in blocks }

  lemma HeldByOne(p: Pool, b: nat, tail: seq<nat>)
    requires Sized(p) && Reservations(p) && b in p.pinnedIds && b < p.num && b !in tail
    ensures |HeldBy(p, [b] + tail)| == |HeldBy(p, tail)| + 1
  {
    assert Holds(p, b);
    var key := p.hash[b].value;
    forall k | k in p.byHash && p.byHash[k] == b ensures k == key {
      assert Reserved(p, k, b);
    }
    assert HeldBy(p, [b] + tail) == HeldBy(p, tail) + {key};
  }

  lemma {:induction false} HeldCount(p: Pool, blocks: seq<nat>)
    requires Sized(p) && Reservations(p) && NoDup(blocks) && Sitting(p, blocks)
    ensures |HeldBy(p, blocks)| == |blocks|
    decreases |blocks|
  {
    if blocks == [] {
      assert HeldBy(p, blocks) == {};
    } else {
      var b, tail := blocks[0], blocks[1..];
      assert blocks == [b] + tail && b !in tail;
      HeldCount(p, tail);
      HeldByOne(p, b, tail);
    }
  }

  // ---------------------------------------------------------------- round trips

  predicate Unhashed(p: Pool, blocks: seq<nat>) {
    Below(blocks, |p.hash|) && forall i | 0 <= i < |blocks| :: p.hash[blocks[i]] == None
  }

  predicate AllIdle(p: Pool, blocks: seq<nat>) {
    Below(blocks, |p.refCnt|) && forall i | 0 <= i < |blocks| :: p.refCnt[blocks[i]] == 0 && blocks[i] != 0
  }

  lemma {:induction false} ClaimUnhashed(p: Pool, blocks: seq<nat>)
    requires Unhashed(p, blocks)
    ensures Claim(p, blocks) == (p, blocks)
    decreases |blocks|
  {
    if blocks != [] {
      ClaimUnhashed(p, blocks[1..]);
      assert blocks == [blocks[0]] + blocks[1..];
    }
  }

  lemma {:induction false} IdleUnhashed(p: Pool, blocks: seq<nat>)
    requires |p.refCnt| == |p.hash| && Unhashed(p, blocks) && AllIdle(p, blocks)
    ensures Idle(p, blocks, false) == blocks && Idle(p, blocks, true) == []
  {
    if blocks != [] {
      IdleUnhashed(p, blocks[1..]);
      assert blocks == [blocks[0]] + blocks[1..];
    }
  }

  /** Handing out and releasing leaves every reference count as it was. */
  lemma CountsComeBack(p: Pool, a: Pool, ids: seq<nat>)
    requires Sized(p) && NoDup(ids) && Below(ids, p.num) && |a.refCnt| == p.num
    requires forall b: nat | b < p.num :: a.refCnt[b] == p.refCnt[b] + if b in Elems(ids) then 1 else 0
    ensures ReleaseAll(a, ids).refCnt == p.refCnt
  {
    ReleaseAllIs(a, ids);
    var r := ReleaseAll(a, ids).refCnt;
    forall b: nat | b < p.num ensures r[b] == p.refCnt[b] {
      assert b in ids <==> b in Elems(ids);
    }
  }

  lemma FreeBlocksIdle(p: Pool, n: nat)
    requires Valid(p) && n <= |p.free|
    ensures AllIdle(p, p.free[..n])
  {
    ElemsBelow(p.free, p.num);
    forall i | 0 <= i < n ensures p.refCnt[p.free[i]] == 0 && p.free[i] != 0 {
      assert p.free[i] in Elems(p.free);
      assert p.free[i] in Unused(p);
    }
  }

  lemma HandedOutUnhashed(p: Pool, q: Pool, ids: seq<nat>)
    requires Below(ids, p.num) && |q.hash| == p.num && forall b: nat | b < p.num && b in Elems(ids) :: q.hash[b] == None
    ensures Unhashed(q, ids)
  {
    forall i | 0 <= i < |ids| ensures q.hash[ids[i]] == None {
      assert ids[i] in Elems(ids);
    }
  }

  lemma RehousedUnhashed(r: Pool, ids: seq<nat>)
    requires Unhashed(r, ids)
    ensures Rehoused(r, ids, []) == r.(free := ids + r.free)
  {
    ClaimUnhashed(r, ids);
    assert Claim(r, []) == (r, []);
    assert ids + r.free + [] == ids + r.free;
  }

  /** Blocks without a hash that nobody else uses go to the head of the free queue, in their order. */
  lemma FreeUnhashed(a: Pool, ids: seq<nat>)
    requires |a.refCnt| == |a.hash| && Below(ids, |a.refCnt|) && Unhashed(a, ids) && AllIdle(ReleaseAll(a, ids), ids)
    ensures Free(a, ids) == ReleaseAll(a, ids).(free := ids + a.free)
  {
    var r := ReleaseAll(a, ids);
    assert Unhashed(r, ids);
    IdleUnhashed(r, ids);
    RehousedUnhashed(r, ids);
  }

  lemma GivenBack(p: Pool, n: nat)
    requires Valid(p) && n <= |p.free|
    ensures Below(p.free, p.num)
    ensures var a, ids := Allocate(p, n), p.free[..n];
            && a.free == p.free[n..] && ReleaseAll(a, ids) == p.(free := p.free[n..], hash := a.hash)
            && Unhashed(a, ids) && AllIdle(ReleaseAll(a, ids), ids)
            && forall b: nat | b < p.num :: a.hash[b] == if b in Elems(ids) then None else p.hash[b]
  {
    ElemsBelow(p.free, p.num);
    AllocateIs(p, n);
    CountsComeBack(p, Allocate(p, n), p.free[..n]);
    FreeBlocksIdle(p, n);
    HandedOutUnhashed(p, Allocate(p, n), p.free[..n]);
  }

  /** Blocks handed out and given straight back return to the head of the free queue in their old order: the pool is
      what it was, but for the hashes those blocks lost. */
  lemma AllocateFreeRestores(p: Pool, n: nat)
    requires Valid(p) && n <= |p.free|
    ensures Below(Allocated(p, n).value, p.num) && |Allocate(p, n).refCnt| == |Allocate(p, n).hash| == p.num
    ensures var ids := Allocated(p, n).value; var q := Free(Allocate(p, n), ids);
            && q == p.(hash := q.hash)
            && forall b: nat | b < p.num :: q.hash[b] == if b in Elems(ids) then None else p.hash[b]
  {
    GivenBack(p, n);
    FreeUnhashed(Allocate(p, n), p.free[..n]);
    assert p.free[..n] + p.free[n..] == p.free;
  }

  lemma FreeOnePinned(p: Pool, b: nat)
    requires |p.refCnt| == |p.hash| && b < |p.hash| && b != 0 && p.refCnt[b] == 1 && p.hash[b].Some?
    requires p.hash[b].value in p.pinned && p.hash[b].value in p.byHash && p.byHash[p.hash[b].value] == b
    ensures Free(p, [b]) == p.(refCnt := p.refCnt[b := 0], pinnedIds := p.pinnedIds + {b}, pin := p.pin + [b])
  {
    var r := Release(p, b);
    assert [b][1..] == [] && ReleaseAll(r, []) == r;
    assert ReleaseAll(p, [b]) == r;
    assert Idle(r, [b], true) == [b] + Idle(r, [], true) && Idle(r, [b], false) == [] + Idle(r, [], false);
    var q := AcquirePin(r, b).0;
    assert q.byHash == p.byHash;
    assert Claim(r, []) == (r, []) && Claim(q, []) == (q, []) && Claim(r, [b]) == (q, []);
    assert [] + p.free + [] == p.free;
  }

  /** A pinned block that is loaned out and comes back is pinned again: only its place in the pin queue changes. */
  lemma LoanRoundTrip(p: Pool, b: nat)
    requires Valid(p) && b in p.pinnedIds && b < p.num
    ensures Free(Touch(p, [b]), [b]) == p.(pin := Remove(p.pin, b) + [b])
  {
    assert Holds(p, b) && Reserved(p, p.hash[b].value, b) && b in Unused(p);
    var t := TouchOne(p, b);
    assert [b][1..] == [] && Touch(t, []) == t;
    assert Touch(p, [b]) == t;
    FreeOnePinned(t, b);
    assert t.refCnt[b := 0] == p.refCnt;
    assert t.pinnedIds + {b} == p.pinnedIds;
  }

  // ---------------------------------------------------------------- returned blocks are claimed

  lemma {:induction false} ClaimLeavesRoom(p: Pool, blocks: seq<nat>, b: nat)
    requires Below(blocks, |p.hash|) && b in blocks && p.hash[b].Some? && p.hash[b].value in p.pinned
    ensures var q := Claim(p, blocks).0; p.hash[b].value in q.byHash || |q.byHash| >= q.cap
    decreases |blocks|
  {
    var q := AcquirePin(p, blocks[0]).0;
    assert blocks == [blocks[0]] + blocks[1..];
    if b in blocks[1..] {
      ClaimLeavesRoom(q, blocks[1..], b);
    } else {
      if p.hash[b].value in q.byHash {
        ClaimKeepsHolder(q, blocks[1..], p.hash[b].value);
      }
      ClaimGrows(q, blocks[1..]);
    }
  }

  lemma {:induction false} ClaimGrows(p: Pool, blocks: seq<nat>)
    requires Below(blocks, |p.hash|)
    ensures var q := Claim(p, blocks).0; |q.byHash| >= |p.byHash| && q.cap == p.cap
    decreases |blocks|
  {
    if blocks != [] {
      var b := blocks[0];
      if AcquirePin(p, b).1 && p.hash[b].value !in p.byHash {
        GrowMap(p.byHash, p.hash[b].value, b);
      } else if AcquirePin(p, b).1 {
        assert p.byHash[p.hash[b].value := b] == p.byHash;
      }
      ClaimGrows(AcquirePin(p, b).0, blocks[1..]);
    }
  }

  lemma FreedIsOffered(p: Pool, blocks: seq<nat>, b: nat)
    requires Sized(p) && Freeable(p, blocks) && b in blocks && b != 0 && b < p.num && p.refCnt[b] == 1
    requires p.hash[b].Some?
    ensures b in Idle(ReleaseAll(p, blocks), blocks, true)
  {
    ReleaseAllIs(p, blocks);
    var q := ReleaseAll(p, blocks);
    IdleIs(q, blocks, true);
    assert b in Unused(q) by { assert b in Blocks(p.num) by { assert IsNat(b); } }
    assert b in WithHash(q, Elems(blocks) * Unused(q), true);
    assert b in Elems(Idle(q, blocks, true));
  }

  /** A returned block that nobody uses any more and whose hash is pinned leaves its hash reserved, by it or by an
      earlier holder, unless the cap is reached. */
  lemma FreedIsClaimed(p: Pool, blocks: seq<nat>, b: nat)
    requires Sized(p) && Freeable(p, blocks) && b in blocks && b != 0 && b < p.num && p.refCnt[b] == 1
    requires p.hash[b].Some? && p.hash[b].value in p.pinned
    ensures var q := Free(p, blocks); p.hash[b].value in q.byHash || |q.byHash| >= q.cap
  {
    FreedIsOffered(p, blocks, b);
    var q := ReleaseAll(p, blocks);
    var q1 := Claim(q, Idle(q, blocks, false)).0;
    ClaimGrows(q, Idle(q, blocks, false));
    ClaimLeavesRoom(q1, Idle(q, blocks, true), b);
  }
}
