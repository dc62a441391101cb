/** The KV block pool with its never-evict pin, as a value: two queues, loans, reservations, a cap and a
    replaceable set of pinned hashes. */
module PinnedPool {

  datatype Option<T> = None | Some(value: T)

  /** A block hash together with its cache group. */
  datatype Key = Key(hash: int, group: nat)

  /** Block 0 is the null block. `free` and `pin` are the two queues; `byHash` names the block that holds the
      reservation of each pinned hash, in the pin queue or on loan; `pinnedIds` are the ids sitting in the pin queue. */
  datatype Pool = Pool(num: nat, refCnt: seq<int>, hash: seq<Option<Key>>, free: seq<nat>, pin: seq<nat>,
                       pinned: set<Key>, byHash: map<Key, nat>, pinnedIds: set<nat>, cap: int, warned: bool)

  predicate IsBlock(p: Pool, b: nat) { 0 < b < p.num }

  function Blocks(num: nat): set<nat> { set b: nat | 0 < b < num && IsNat(b) }

  predicate IsNat(b: nat) { true }

  predicate Sized(p: Pool) {
    && 0 < p.num == |p.refCnt| == |p.hash|
    && Elems(p.free) <= Blocks(p.num) && Elems(p.pin) <= Blocks(p.num)
  }

  predicate Below(blocks: seq<nat>, n: nat) { forall i | 0 <= i < |blocks| :: blocks[i] < n }

  predicate NoDup(s: seq<nat>) { forall i, j | 0 <= i < j < |s| :: s[i] != s[j] }

  function Elems(s: seq<nat>): set<nat> { set b | b in s }

  /** The non-null blocks nobody uses. */
  function Unused(p: Pool): set<nat>
    requires |p.refCnt| == p.num
  {
    set b: nat | b in Blocks(p.num) && p.refCnt[b] == 0
  }

  /** What holds in every reachable state: each non-null block is in exactly one of free queue, pin queue or use. */
  ghost predicate Valid(p: Pool) { ValidBut(p, {}) }

  /** The same in the middle of freeing: the blocks of `homeless` are unused and in no queue yet. */
  ghost predicate ValidBut(p: Pool, homeless: set<nat>) {
    && Sized(p) && Partitioned(p, homeless)
    && p.pinnedIds == Elems(p.pin)
    && Reservations(p)
    && |p.byHash| <= p.cap
  }

  ghost predicate Reservations(p: Pool)
    requires Sized(p)
  {
    && (forall b | b in p.pinnedIds :: Holds(p, b))
    && (forall k | k in p.byHash :: Reserved(p, k, p.byHash[k]))
  }

  ghost predicate Partitioned(p: Pool, homeless: set<nat>)
    requires Sized(p)
  {
    && NoDup(p.free) && NoDup(p.pin)
    && Elems(p.free) !! Elems(p.pin) !! homeless
    && Elems(p.free) + Elems(p.pin) + homeless == Unused(p)
    && (forall b | b in Blocks(p.num) :: p.refCnt[b] >= 0)
  }

  /** Block `b` holds the reservation of its own hash. */
  ghost predicate Holds(p: Pool, b: nat)
    requires Sized(p)
  {
    IsBlock(p, b) && p.hash[b].Some? && p.hash[b].value in p.byHash && p.byHash[p.hash[b].value] == b
  }

  /** `b` carries the pinned hash `k` and is not up for allocation. */
  ghost predicate Reserved(p: Pool, k: Key, b: nat)
    requires Sized(p)
  {
    IsBlock(p, b) && p.hash[b] == Some(k) && k in p.pinned && b !in Elems(p.free)
  }

  function Initial(num: nat): Pool
    requires num > 0
  {
    Pool(num, seq(num, i => 0), seq(num, i => None), seq(num - 1, i => i + 1), [], {}, map[], {}, 0, false)
  }

  // ---------------------------------------------------------------- queues

  function Remove(s: seq<nat>, b: nat): seq<nat> {
    if s == [] then [] else if s[0] == b then s[1..] else [s[0]] + Remove(s[1..], b)
  }

  lemma {:induction false} RemoveFacts(s: seq<nat>, b: nat)
    requires NoDup(s)
    ensures NoDup(Remove(s, b)) && Elems(Remove(s, b)) == Elems(s) - {b}
  {
    if s != [] {
      assert s == [s[0]] + s[1..];
      forall x | x in s[1..] ensures x != s[0] { }
      if s[0] != b {
        RemoveFacts(s[1..], b);
        NoDupAppend([s[0]], Remove(s[1..], b));
      }
      assert Elems(s) == {s[0]} + Elems(s[1..]);
    }
  }

  lemma NoDupAppend(a: seq<nat>, b: seq<nat>)
    requires NoDup(a) && NoDup(b) && Elems(a) !! Elems(b)
    ensures NoDup(a + b) && Elems(a + b) == Elems(a) + Elems(b)
  {
    forall i, j | 0 <= i < j < |a + b| ensures (a + b)[i] != (a + b)[j] {
      if i < |a| <= j {
        assert a[i] in Elems(a) && b[j - |a|] in Elems(b);
      }
    }
  }

  lemma ElemsCons(b: nat, tail: seq<nat>)
    ensures Elems([b] + tail) == {b} + Elems(tail)
  {
  }

  lemma NoDupSplit(s: seq<nat>, n: nat)
    requires NoDup(s) && n <= |s|
    ensures NoDup(s[..n]) && NoDup(s[n..]) && Elems(s[..n]) !! Elems(s[n..])
    ensures Elems(s) == Elems(s[..n]) + Elems(s[n..])
  {
    assert s == s[..n] + s[n..];
  }

  lemma ElemsBelow(s: seq<nat>, num: nat)
    requires Elems(s) <= Blocks(num)
    ensures Below(s, num)
  {
    forall i | 0 <= i < |s| ensures s[i] < num {
      assert s[i] in Elems(s);
    }
  }

  // ---------------------------------------------------------------- allocation, touching, hashing

  /** The ids handed out, from the head of the free queue; none if the queue is too short. */
  function Allocated(p: Pool, n: nat): Option<seq<nat>> {
    if n > |p.free| then None else Some(p.free[..n])
  }

  /** A block handed out loses its hash and has one reference. */
  function Hand(p: Pool, b: nat): Pool
    requires b < |p.refCnt| == |p.hash|
  {
    p.(refCnt := p.refCnt[b := p.refCnt[b] + 1], hash := p.hash[b := None])
  }

  function HandAll(p: Pool, blocks: seq<nat>): (q: Pool)
    requires |p.refCnt| == |p.hash| && Below(blocks, |p.refCnt|)
    ensures |q.refCnt| == |p.refCnt| == |q.hash| && q == p.(refCnt := q.refCnt, hash := q.hash)
    decreases |blocks|
  {
    if blocks == [] then p else HandAll(Hand(p, blocks[0]), blocks[1..])
  }

  function Allocate(p: Pool, n: nat): Pool
    requires Sized(p) && n <= |p.free|
  {
    ElemsBelow(p.free, p.num);
    HandAll(p.(free := p.free[n..]), Allocated(p, n).value)
  }

  /** A request starts to use a cached block: it leaves the queue it is in; a pinned block is loaned out and
      keeps its reservation. */
  function TouchOne(p: Pool, b: nat): Pool
    requires b < |p.refCnt|
  {
    var q := if p.refCnt[b] == 0 && b != 0 then
               if b in p.pinnedIds then p.(pinnedIds := p.pinnedIds - {b}, pin := Remove(p.pin, b))
               else p.(free := Remove(p.free, b))
             else p;
    q.(refCnt := q.refCnt[b := q.refCnt[b] + 1])
  }

  function Touch(p: Pool, blocks: seq<nat>): (q: Pool)
    requires Below(blocks, |p.refCnt|)
    ensures |q.refCnt| == |p.refCnt| && q.hash == p.hash
    decreases |blocks|
  {
    if blocks == [] then p else Touch(TouchOne(p, blocks[0]), blocks[1..])
  }

  /** A full block in use gets its hash. */
  function SetHash(p: Pool, b: nat, k: Key): Pool
    requires b < |p.hash|
  {
    p.(hash := p.hash[b := Some(k)])
  }

  // ---------------------------------------------------------------- freeing

  /** Puts `b` in the pin queue if its hash is pinned and it holds, or can get, the reservation. */
  function AcquirePin(p: Pool, b: nat): (r: (Pool, bool))
    requires b < |p.hash|
  {
    if p.hash[b].None? || p.hash[b].value !in p.pinned then (p, false)
    else
      var k := p.hash[b].value;
      if k !in p.byHash && |p.byHash| >= p.cap then (p.(warned := true), false)
      else if k in p.byHash && p.byHash[k] != b then (p, false)
      else (p.(byHash := p.byHash[k := b], pinnedIds := p.pinnedIds + {b}, pin := p.pin + [b]), true)
  }

  function Release(p: Pool, b: nat): Pool
    requires b < |p.refCnt|
  {
    p.(refCnt := p.refCnt[b := p.refCnt[b] - 1])
  }

  function ReleaseAll(p: Pool, blocks: seq<nat>): (q: Pool)
    requires Below(blocks, |p.refCnt|)
    ensures q == p.(refCnt := q.refCnt) && |q.refCnt| == |p.refCnt|
    decreases |blocks|
  {
    if blocks == [] then p else ReleaseAll(Release(p, blocks[0]), blocks[1..])
  }

  /** The released blocks that nobody uses any more, without a hash or with one. */
  function Idle(p: Pool, blocks: seq<nat>, hashed: bool): (r: seq<nat>)
    requires |p.refCnt| == |p.hash| && Below(blocks, |p.refCnt|)
    ensures forall b | b in r :: b in blocks
    ensures Below(r, |p.refCnt|)
  {
    if blocks == [] then []
    else
      var b := blocks[0];
      (if p.refCnt[b] == 0 && b != 0 && p.hash[b].Some? == hashed then [b] else []) + Idle(p, blocks[1..], hashed)
  }

  /** Claims what the pin wants, one block after another; the rest goes on to the free queue. */
  function Claim(p: Pool, blocks: seq<nat>): (r: (Pool, seq<nat>))
    requires Below(blocks, |p.hash|)
    ensures r.0 == p.(pin := r.0.pin, pinnedIds := r.0.pinnedIds, byHash := r.0.byHash, warned := r.0.warned)
    ensures forall b | b in r.1 :: b in blocks
    decreases |blocks|
  {
    if blocks == [] then (p, [])
    else
      var (q, taken) := AcquirePin(p, blocks[0]);
      var (q', rest) := Claim(q, blocks[1..]);
      (q', if taken then rest else [blocks[0]] + rest)
  }

  /** Blocks without a hash go to the front of the free queue, hashed ones to its end, pinned ones to the pin. */
  function Free(p: Pool, blocks: seq<nat>): Pool
    requires |p.refCnt| == |p.hash| && Below(blocks, |p.refCnt|)
  {
    var q := ReleaseAll(p, blocks);
    Rehoused(q, Idle(q, blocks, false), Idle(q, blocks, true))
  }

  function Rehoused(q: Pool, first: seq<nat>, last: seq<nat>): Pool
    requires Below(first, |q.hash|) && Below(last, |q.hash|)
  {
    if q.pinned == {} then q.(free := first + q.free + last)
    else
      var (q1, first') := Claim(q, first);
      var (q2, last') := Claim(q1, last);
      q2.(free := first' + q2.free + last')
  }

  // ---------------------------------------------------------------- the pin set

  function Max(a: int, b: int): int { if a >= b then a else b }

  function CapOf(num: nat, fraction: real): int { Max(1, (num as real * fraction).Floor) }

  /** The pin queue's blocks that stay: hash in the new set, first of its hash, within the cap. */
  function Keep(p: Pool, blocks: seq<nat>, kept: map<Key, nat>): (r: (map<Key, nat>, seq<nat>, seq<nat>))
    requires Below(blocks, |p.hash|)
    decreases |blocks|
  {
    if blocks == [] then (kept, [], [])
    else
      var b := blocks[0];
      if p.hash[b].Some? && p.hash[b].value in p.pinned && p.hash[b].value !in kept && |kept| < p.cap then
        var (k, stay, go) := Keep(p, blocks[1..], kept[p.hash[b].value := b]);
        (k, [b] + stay, go)
      else
        var (k, stay, go) := Keep(p, blocks[1..], kept);
        (k, stay, [b] + go)
  }

  function SetPinned(p: Pool, hashes: set<Key>, fraction: real): Pool
    requires Sized(p)
  {
    var cap := CapOf(p.num, fraction);
    if hashes == p.pinned && cap == p.cap then p
    else
      var q := p.(pinned := hashes, cap := cap, warned := false);
      ElemsBelow(p.pin, p.num);
      var (kept, stay, go) := Keep(q, q.pin, map[]);
      q.(pin := stay, free := q.free + go, byHash := kept, pinnedIds := kept.Values)
  }

  /** Drops the pin; forgets all hashes if then only the null block is missing from the free queue. */
  function Reset(p: Pool): (r: (Pool, bool))
    requires Sized(p)
  {
    var q := SetPinned(p, {}, 0.0);
    if q.num - |q.free| != 1 then (q, false)
    else (q.(hash := seq(q.num, i => None)), true)
  }

  // ---------------------------------------------------------------- every operation keeps the pool valid

  lemma {:induction false} HandAllIs(p: Pool, blocks: seq<nat>)
    requires |p.refCnt| == |p.hash| && Below(blocks, |p.refCnt|) && NoDup(blocks)
    ensures var q := HandAll(p, blocks);
            && q == p.(refCnt := q.refCnt, hash := q.hash)
            && forall b: nat | b < |p.refCnt| ::
                 && q.refCnt[b] == p.refCnt[b] + (if b in blocks then 1 else 0)
                 && q.hash[b] == if b in blocks then None else p.hash[b]
    decreases |blocks|
  {
    if blocks != [] {
      assert blocks == [blocks[0]] + blocks[1..];
      HandAllIs(Hand(p, blocks[0]), blocks[1..]);
    }
  }

  /** Reservations last while their blocks keep their hashes and stay out of the free queue. */
  lemma ReservationsKept(p: Pool, q: Pool)
    requires Sized(p) && Reservations(p) && Sized(q)
    requires q.num == p.num && q.byHash == p.byHash && q.pinned == p.pinned && q.pinnedIds <= p.pinnedIds
    requires forall k | k in p.byHash && p.byHash[k] < p.num :: q.hash[p.byHash[k]] == p.hash[p.byHash[k]]
    requires HoldersOutside(p.byHash, Elems(q.free))
    ensures Reservations(q)
  {
    forall k | k in q.byHash ensures Reserved(q, k, q.byHash[k]) {
      assert Reserved(p, k, p.byHash[k]);
    }
    forall b | b in q.pinnedIds ensures Holds(q, b) {
      assert Holds(p, b);
    }
  }

  /** None of the blocks holds a reservation. */
  ghost predicate HoldersOutside(byHash: map<Key, nat>, blocks: set<nat>) {
    forall k | k in byHash :: byHash[k] !in blocks
  }

  lemma HoldersNotFree(p: Pool)
    requires Sized(p) && Reservations(p)
    ensures HoldersOutside(p.byHash, Elems(p.free))
  {
    forall k | k in p.byHash ensures p.byHash[k] !in Elems(p.free) {
      assert Reserved(p, k, p.byHash[k]);
    }
  }

  /** Handing out the first blocks of the free queue keeps the partition. */
  lemma HandedKeepsPartition(p: Pool, q: Pool, ids: set<nat>)
    requires Sized(p) && Partitioned(p, {}) && ids <= Elems(p.free)
    requires q.num == p.num && q.pin == p.pin && NoDup(q.free) && Elems(q.free) == Elems(p.free) - ids
    requires |q.refCnt| == |q.hash| == q.num
    requires forall b: nat | b < p.num :: q.refCnt[b] == p.refCnt[b] + if b in ids then 1 else 0
    ensures Sized(q) && Partitioned(q, {})
  {
    assert Unused(q) == Unused(p) - ids;
  }

  lemma AllocateIs(p: Pool, n: nat)
    requires Sized(p) && NoDup(p.free) && n <= |p.free|
    ensures var q, ids := Allocate(p, n), Elems(p.free[..n]);
            && q == p.(free := p.free[n..], refCnt := q.refCnt, hash := q.hash) && |q.refCnt| == |q.hash| == p.num
            && NoDup(q.free) && NoDup(p.free[..n]) && ids <= Elems(p.free) && Elems(q.free) == Elems(p.free) - ids
            && (forall b: nat | b < p.num :: q.refCnt[b] == p.refCnt[b] + if b in ids then 1 else 0)
            && (forall b: nat | b < p.num :: q.hash[b] == if b in ids then None else p.hash[b])
  {
    ElemsBelow(p.free, p.num);
    NoDupSplit(p.free, n);
    HandAllIs(p.(free := p.free[n..]), p.free[..n]);
  }

  /** Handing out `ids` takes `p` to `q`: the ids are distinct and were the head of the free queue; each was unused,
      in no other queue and named by no reservation, and has one reference and no hash now; nothing else changed. */
  ghost predicate HandsOut(p: Pool, ids: seq<nat>, q: Pool) {
    && |p.refCnt| == |p.hash| == |q.refCnt| == |q.hash| == p.num
    && q == p.(free := q.free, refCnt := q.refCnt, hash := q.hash)
    && p.free == ids + q.free && NoDup(ids)
    && (forall b | b in ids :: 0 < b < p.num && b !in q.free && b !in p.pin && b !in p.byHash.Values)
    && (forall b: nat | b < p.num && b in ids :: p.refCnt[b] == 0 && q.refCnt[b] == 1 && q.hash[b] == None)
    && (forall b: nat | b < p.num && b !in ids :: q.refCnt[b] == p.refCnt[b] && q.hash[b] == p.hash[b])
  }

  /** An allocation succeeds exactly when the free queue is long enough, and then hands out that many blocks. */
  lemma AllocateExactly(p: Pool, n: nat)
    requires Valid(p)
    ensures Allocated(p, n).Some? <==> n <= |p.free|
    ensures n <= |p.free| ==> var ids := Allocated(p, n).value; |ids| == n && HandsOut(p, ids, Allocate(p, n))
  {
    if n <= |p.free| {
      AllocateIs(p, n);
      var q, ids := Allocate(p, n), Allocated(p, n).value;
      assert p.free == ids + q.free;
      forall b | b in ids ensures 0 < b < p.num && b !in q.free && b !in p.pin && b !in p.byHash.Values {
        FreeBlockIdle(p, b);
        assert b in Elems(ids) && b !in Elems(q.free);
      }
      forall b: nat | b < p.num && b in ids ensures p.refCnt[b] == 0 && q.refCnt[b] == 1 && q.hash[b] == None {
        FreeBlockIdle(p, b);
        assert b in Elems(ids);
      }
      forall b: nat | b < p.num && b !in ids ensures q.refCnt[b] == p.refCnt[b] && q.hash[b] == p.hash[b] {
        assert b !in Elems(ids);
      }
    }
  }

  lemma FreeBlockIdle(p: Pool, b: nat)
    requires Valid(p) && b in p.free
    ensures 0 < b < p.num && p.refCnt[b] == 0 && b !in p.pin && b !in p.byHash.Values
  {
    HoldersNotFree(p);
    assert b in Elems(p.free) && b in Unused(p);
    assert b !in Elems(p.pin);
  }

  lemma AllocateKeepsValid(p: Pool, n: nat)
    requires Valid(p) && n <= |p.free|
    ensures Valid(Allocate(p, n))
  {
    AllocateIs(p, n);
    HoldersNotFree(p);
    HandedKeepsPartition(p, Allocate(p, n), Elems(p.free[..n]));
    ReservationsKept(p, Allocate(p, n));
  }

  /** Taking a block into use keeps the partition when the block leaves the queue it is in. */
  lemma TakenKeepsPartition(p: Pool, q: Pool, b: nat)
    requires Sized(p) && Partitioned(p, {}) && b < p.num
    requires q == p.(free := q.free, pin := q.pin, pinnedIds := q.pinnedIds, refCnt := p.refCnt[b := p.refCnt[b] + 1])
    requires NoDup(q.free) && NoDup(q.pin) && Elems(q.free) == Elems(p.free) - {b} && Elems(q.pin) == Elems(p.pin) - {b}
    ensures Sized(q) && Partitioned(q, {})
  {
    assert Unused(q) == Unused(p) - {b};
  }

  /** The block is in the pin queue, in the free queue, or in use. */
  lemma WhereIs(p: Pool, b: nat)
    requires Sized(p) && Partitioned(p, {}) && b < p.num
    ensures p.refCnt[b] == 0 && b != 0 <==> b in Elems(p.free) + Elems(p.pin)
    ensures b in Elems(p.pin) ==> b !in Elems(p.free)
  {
    assert b in Unused(p) <==> p.refCnt[b] == 0 && b != 0 by { assert IsNat(b); }
  }

  lemma TouchOneQueues(p: Pool, b: nat)
    requires Sized(p) && Partitioned(p, {}) && p.pinnedIds == Elems(p.pin) && b < p.num
    ensures var q := TouchOne(p, b);
            && q == p.(free := q.free, pin := q.pin, pinnedIds := q.pinnedIds, refCnt := p.refCnt[b := p.refCnt[b] + 1])
            && NoDup(q.free) && NoDup(q.pin) && Elems(q.free) == Elems(p.free) - {b}
            && Elems(q.pin) == Elems(p.pin) - {b}
            && q.pinnedIds == Elems(q.pin)
  {
    RemoveFacts(p.pin, b);
    RemoveFacts(p.free, b);
    WhereIs(p, b);
  }

  lemma TouchOneKeepsValid(p: Pool, b: nat)
    requires Valid(p) && b < p.num
    ensures Valid(TouchOne(p, b))
  {
    TouchOneQueues(p, b);
    HoldersNotFree(p);
    TakenKeepsPartition(p, TouchOne(p, b), b);
    ReservationsKept(p, TouchOne(p, b));
  }

  lemma TouchOneKeepsHashes(p: Pool, b: nat)
    requires b < |p.refCnt|
    ensures var q := TouchOne(p, b);
            q.byHash == p.byHash && q.hash == p.hash && q.num == p.num && q.pinned == p.pinned && q.cap == p.cap
  {
  }

  lemma {:induction false} TouchKeepsValid(p: Pool, blocks: seq<nat>)
    requires Valid(p) && Below(blocks, p.num)
    ensures var q := Touch(p, blocks);
            Valid(q) && q.byHash == p.byHash && q.hash == p.hash && q.num == p.num && q.pinned == p.pinned &&
              q.cap == p.cap
    decreases |blocks|
  {
    if blocks != [] {
      TouchOneKeepsValid(p, blocks[0]);
      TouchOneKeepsHashes(p, blocks[0]);
      TouchKeepsValid(TouchOne(p, blocks[0]), blocks[1..]);
    }
  }

  lemma SetHashKeepsValid(p: Pool, b: nat, k: Key)
    requires Valid(p) && IsBlock(p, b) && p.refCnt[b] > 0 && p.hash[b] == None
    ensures Valid(SetHash(p, b, k))
  {
    var q := SetHash(p, b, k);
    assert Unused(q) == Unused(p);
    forall j | j in q.byHash ensures Reserved(q, j, q.byHash[j]) {
      assert Reserved(p, j, p.byHash[j]);
    }
    forall x | x in q.pinnedIds ensures Holds(q, x) {
      assert Holds(p, x);
    }
  }

  /** Callers free each block once, and only blocks they use. */
  ghost predicate Freeable(p: Pool, blocks: seq<nat>)
    requires Sized(p)
  {
    NoDup(blocks) && Below(blocks, p.num) && forall b | b in blocks && b != 0 :: p.refCnt[b] > 0
  }

  lemma {:induction false} ReleaseAllIs(p: Pool, blocks: seq<nat>)
    requires Below(blocks, |p.refCnt|) && NoDup(blocks)
    ensures var q := ReleaseAll(p, blocks);
            forall b: nat | b < |p.refCnt| :: q.refCnt[b] == p.refCnt[b] - (if b in blocks then 1 else 0)
    decreases |blocks|
  {
    if blocks != [] {
      assert blocks == [blocks[0]] + blocks[1..];
      ReleaseAllIs(Release(p, blocks[0]), blocks[1..]);
    }
  }

  /** Those of the blocks that carry a hash, or those that carry none. */
  ghost function WithHash(p: Pool, blocks: set<nat>, hashed: bool): set<nat>
    requires |p.hash| == p.num
  {
    set b | b in blocks && b < p.num && p.hash[b].Some? == hashed
  }

  lemma {:induction false} IdleIs(p: Pool, blocks: seq<nat>, hashed: bool)
    requires |p.refCnt| == |p.hash| == p.num && Below(blocks, |p.refCnt|) && NoDup(blocks)
    ensures var r := Idle(p, blocks, hashed);
            NoDup(r) && Elems(r) == WithHash(p, Elems(blocks) * Unused(p), hashed)
    decreases |blocks|
  {
    if blocks != [] {
      var b, tail := blocks[0], blocks[1..];
      assert blocks == [b] + tail;
      IdleIs(p, tail, hashed);
      assert b !in tail;
      IdleStep(p, b, tail, Idle(p, tail, hashed), hashed);
    }
  }

  lemma IdleStep(p: Pool, b: nat, tail: seq<nat>, rest: seq<nat>, hashed: bool)
    requires |p.refCnt| == |p.hash| == p.num && b < p.num && b !in tail
    requires NoDup(rest) && Elems(rest) == WithHash(p, Elems(tail) * Unused(p), hashed)
    ensures var r := (if p.refCnt[b] == 0 && b != 0 && p.hash[b].Some? == hashed then [b] else []) + rest;
            NoDup(r) && Elems(r) == WithHash(p, Elems([b] + tail) * Unused(p), hashed)
  {
    assert b in Unused(p) <==> p.refCnt[b] == 0 && b != 0 by { assert IsNat(b); }
    assert Elems([b] + tail) == {b} + Elems(tail);
    if p.refCnt[b] == 0 && b != 0 && p.hash[b].Some? == hashed {
      assert b !in Elems(rest);
      NoDupAppend([b], rest);
      assert Elems([b]) == {b};
      assert WithHash(p, Elems([b] + tail) * Unused(p), hashed) == {b} + Elems(rest);
    } else {
      assert [] + rest == rest;
      assert WithHash(p, Elems([b] + tail) * Unused(p), hashed) == Elems(rest);
    }
  }

  /** Claiming a homeless block either puts it in the pin queue, as the holder of its hash, or leaves it homeless
      with no reservation. */
  lemma AcquireKeepsValid(p: Pool, b: nat, homeless: set<nat>)
    requires ValidBut(p, homeless) && b in homeless
    ensures var (q, taken) := AcquirePin(p, b);
            ValidBut(q, if taken then homeless - {b} else homeless)
  {
    var (q, taken) := AcquirePin(p, b);
    if taken {
      var k := p.hash[b].value;
      ReservationsBounded(p, k, b);
      NoDupAppend(p.pin, [b]);
      assert Unused(q) == Unused(p);
      assert Partitioned(q, homeless - {b});
      forall j | j in q.byHash ensures Reserved(q, j, q.byHash[j]) {
        if j != k { assert Reserved(p, j, p.byHash[j]); }
      }
      forall x | x in q.pinnedIds ensures Holds(q, x) {
        if x != b { assert Holds(p, x); }
      }
    } else {
      forall j | j in q.byHash ensures Reserved(q, j, q.byHash[j]) {
        assert Reserved(p, j, p.byHash[j]);
      }
      forall x | x in q.pinnedIds ensures Holds(q, x) {
        assert Holds(p, x);
      }
    }
  }

  lemma ReservationsBounded(p: Pool, k: Key, b: nat)
    requires |p.byHash| <= p.cap && (k !in p.byHash ==> |p.byHash| < p.cap) && (k in p.byHash ==> p.byHash[k] == b)
    ensures |p.byHash[k := b]| <= p.cap
  {
    if k in p.byHash {
      assert p.byHash[k := b] == p.byHash;
    } else {
      assert p.byHash[k := b].Keys == p.byHash.Keys + {k};
      assert |p.byHash[k := b].Keys| == |p.byHash.Keys| + 1;
    }
  }

  /** A block that is not taken is nobody's holder, and taking a block makes no other block a holder. */
  lemma AcquireHolders(p: Pool, b: nat)
    requires b < |p.hash| && OwnHashes(p)
    ensures var (q, taken) := AcquirePin(p, b);
            && OwnHashes(q) && (!taken ==> HoldersOutside(q.byHash, {b}))
            && HoldersFrom(p.byHash, q.byHash, {b})
  {
  }

  /** Every holder of the later reservations is one of the blocks, or was a holder before. */
  ghost predicate HoldersFrom(before: map<Key, nat>, after: map<Key, nat>, blocks: set<nat>) {
    forall k | k in after :: after[k] in blocks || (k in before && before[k] == after[k])
  }

  /** The blocks that are not claimed are some of those offered. */
  lemma {:induction false} ClaimSome(p: Pool, blocks: seq<nat>)
    requires Below(blocks, |p.hash|) && NoDup(blocks)
    ensures var rest := Claim(p, blocks).1; NoDup(rest) && Elems(rest) <= Elems(blocks)
    decreases |blocks|
  {
    if blocks != [] {
      var b, tail := blocks[0], blocks[1..];
      assert blocks == [b] + tail && b !in tail;
      var q := AcquirePin(p, b).0;
      ClaimSome(q, tail);
      assert Elems(blocks) == {b} + Elems(tail);
      NoDupAppend([b], Claim(q, tail).1);
    }
  }

  /** None of them is a holder afterwards. */
  lemma {:induction false} ClaimRest(p: Pool, blocks: seq<nat>)
    requires Below(blocks, |p.hash|) && NoDup(blocks) && OwnHashes(p)
    ensures var (q, rest) := Claim(p, blocks);
            HoldersOutside(q.byHash, Elems(rest)) && HoldersFrom(p.byHash, q.byHash, Elems(blocks))
    decreases |blocks|
  {
    if blocks != [] {
      var b, tail := blocks[0], blocks[1..];
      var (q, taken) := AcquirePin(p, b);
      var (q', rest) := Claim(q, tail);
      assert blocks == [b] + tail && b !in tail;
      AcquireHolders(p, b);
      ClaimRest(q, tail);
      ClaimSome(q, tail);
      ClaimRestStep(p.byHash, q.byHash, q'.byHash, b, Elems(tail), Elems(rest), taken);
      ElemsCons(b, tail);
      ElemsCons(b, rest);
    }
  }

  lemma ClaimRestStep(m0: map<Key, nat>, m1: map<Key, nat>, m2: map<Key, nat>, b: nat, tail: set<nat>, rest: set<nat>,
                      taken: bool)
    requires HoldersFrom(m0, m1, {b}) && HoldersFrom(m1, m2, tail) && HoldersOutside(m2, rest) && b !in tail
    requires rest <= tail
    requires !taken ==> HoldersOutside(m1, {b})
    ensures HoldersFrom(m0, m2, {b} + tail) && HoldersOutside(m2, if taken then rest else {b} + rest)
  {
  }

  /** Reservations belong to blocks that carry their hash. */
  ghost predicate OwnHashes(p: Pool) {
    forall k | k in p.byHash :: p.byHash[k] < |p.hash| && p.hash[p.byHash[k]] == Some(k) && k in p.pinned
  }

  lemma {:induction false} ClaimKeepsValid(p: Pool, blocks: seq<nat>, homeless: set<nat>)
    requires ValidBut(p, homeless) && Below(blocks, |p.hash|) && NoDup(blocks) && Elems(blocks) <= homeless
    ensures var (q, rest) := Claim(p, blocks); ValidBut(q, homeless - Elems(blocks) + Elems(rest))
    decreases |blocks|
  {
    if blocks == [] {
      assert homeless - Elems(blocks) + Elems([]) == homeless;
    } else {
      var b, tail := blocks[0], blocks[1..];
      assert blocks == [b] + tail && b !in tail;
      assert Elems(blocks) == {b} + Elems(tail);
      AcquireKeepsValid(p, b, homeless);
      var (q, taken) := AcquirePin(p, b);
      var h := if taken then homeless - {b} else homeless;
      ClaimKeepsValid(q, tail, h);
      var (q', rest) := Claim(q, tail);
      if taken {
        assert h - Elems(tail) + Elems(rest) == homeless - Elems(blocks) + Elems(rest);
      } else {
        assert Elems([b] + rest) == {b} + Elems(rest);
        assert h - Elems(tail) + Elems(rest) == homeless - Elems(blocks) + Elems([b] + rest);
      }
    }
  }

  lemma ValidOwnHashes(p: Pool, homeless: set<nat>)
    requires ValidBut(p, homeless)
    ensures OwnHashes(p)
  {
    forall k | k in p.byHash ensures p.byHash[k] < |p.hash| && p.hash[p.byHash[k]] == Some(k) && k in p.pinned {
      assert Reserved(p, k, p.byHash[k]);
    }
  }

  /** Only pinned hashes are reserved, and the pin queue holds only their blocks. */
  lemma HoldersPinned(p: Pool, homeless: set<nat>)
    requires ValidBut(p, homeless)
    ensures p.byHash.Keys <= p.pinned && Elems(p.pin) <= p.byHash.Values
  {
    forall k | k in p.byHash ensures k in p.pinned {
      assert Reserved(p, k, p.byHash[k]);
    }
    forall b | b in Elems(p.pin) ensures b in p.byHash.Values {
      assert Holds(p, b);
    }
  }

  lemma NoElems(s: seq<nat>)
    ensures Elems(s) == {} ==> s == []
  {
    if s != [] { assert s[0] in Elems(s); }
  }

  lemma ReleasedHomeless(p: Pool, blocks: seq<nat>)
    requires Valid(p) && Freeable(p, blocks)
    ensures var q := ReleaseAll(p, blocks);
            && Elems(Idle(q, blocks, false)) !! Elems(Idle(q, blocks, true))
            && ValidBut(q, Elems(Idle(q, blocks, false)) + Elems(Idle(q, blocks, true)))
  {
    ReleasedPartition(p, blocks);
    HoldersNotFree(p);
    ReservationsKept(p, ReleaseAll(p, blocks));
  }

  lemma ReleasedPartition(p: Pool, blocks: seq<nat>)
    requires Sized(p) && Partitioned(p, {}) && Freeable(p, blocks)
    ensures var q := ReleaseAll(p, blocks);
            && Elems(Idle(q, blocks, false)) !! Elems(Idle(q, blocks, true))
            && Sized(q) && Partitioned(q, Elems(Idle(q, blocks, false)) + Elems(Idle(q, blocks, true)))
  {
    var q := ReleaseAll(p, blocks);
    ReleasedAre(p, blocks);
    IdleIs(q, blocks, false);
    IdleIs(q, blocks, true);
    HashedOrNot(q, Elems(blocks) * Unused(q));
  }

  lemma HashedOrNot(q: Pool, idle: set<nat>)
    requires |q.hash| == q.num && forall b | b in idle :: b < q.num
    ensures WithHash(q, idle, false) + WithHash(q, idle, true) == idle
    ensures WithHash(q, idle, false) !! WithHash(q, idle, true)
  {
  }

  lemma ReleasedAre(p: Pool, blocks: seq<nat>)
    requires Sized(p) && Partitioned(p, {}) && Freeable(p, blocks)
    ensures var q := ReleaseAll(p, blocks);
            && Sized(q) && Unused(q) == Unused(p) + Elems(blocks) * Unused(q) && Elems(blocks) * Unused(q) !! Unused(p)
            && forall b | b in Blocks(p.num) :: q.refCnt[b] >= 0
  {
    var q := ReleaseAll(p, blocks);
    ReleaseAllIs(p, blocks);
    forall b: nat | b < p.num ensures q.refCnt[b] == p.refCnt[b] - if b in Elems(blocks) then 1 else 0 {
      assert b in blocks <==> b in Elems(blocks);
    }
    ReleasedUnused(p, q, Elems(blocks));
  }

  /** Releasing frees exactly those of the blocks that had no other user. */
  lemma ReleasedUnused(p: Pool, q: Pool, blocks: set<nat>)
    requires Sized(p) && Partitioned(p, {}) && |q.refCnt| == q.num == p.num
    requires forall b: nat | b < p.num :: q.refCnt[b] == p.refCnt[b] - if b in blocks then 1 else 0
    requires forall b | b in blocks && b != 0 :: b < p.num && p.refCnt[b] > 0
    ensures Unused(q) == Unused(p) + blocks * Unused(q) && blocks * Unused(q) !! Unused(p)
    ensures forall b | b in Blocks(p.num) :: q.refCnt[b] >= 0
  {
  }

  /** Giving the homeless blocks, none of them a holder, to the free queue makes the pool valid. */
  lemma Rehome(p: Pool, first: seq<nat>, last: seq<nat>)
    requires ValidBut(p, Elems(first) + Elems(last)) && NoDup(first) && NoDup(last) && Elems(first) !! Elems(last)
    requires HoldersOutside(p.byHash, Elems(first)) && HoldersOutside(p.byHash, Elems(last))
    ensures Valid(p.(free := first + p.free + last))
  {
    var q := p.(free := first + p.free + last);
    RehomedPartition(p, q, first, last);
    HoldersNotFree(p);
    assert Elems(q.free) == Elems(first) + Elems(p.free) + Elems(last);
    ReservationsKept(p, q);
  }

  lemma RehomedPartition(p: Pool, q: Pool, first: seq<nat>, last: seq<nat>)
    requires Sized(p) && Partitioned(p, Elems(first) + Elems(last)) && NoDup(first) && NoDup(last)
    requires Elems(first) !! Elems(last)
    requires q == p.(free := first + p.free + last)
    ensures Sized(q) && Partitioned(q, {}) && Elems(q.free) == Elems(first) + Elems(p.free) + Elems(last)
  {
    NoDupAppend(first, p.free);
    NoDupAppend(first + p.free, last);
    assert Unused(q) == Unused(p);
  }

  /** Claiming the two lists and giving what is left to the free queue makes the pool valid. */
  lemma ClaimedAndRehomed(q: Pool, first: seq<nat>, last: seq<nat>)
    requires ValidBut(q, Elems(first) + Elems(last)) && Below(first, |q.hash|) && Below(last, |q.hash|)
    requires NoDup(first) && NoDup(last) && Elems(first) !! Elems(last)
    ensures var (q1, first') := Claim(q, first); var (q2, last') := Claim(q1, last);
            Valid(q2.(free := first' + q2.free + last'))
  {
    var h := Elems(first) + Elems(last);
    var (q1, first') := Claim(q, first);
    var (q2, last') := Claim(q1, last);
    var h1 := Elems(first') + Elems(last);
    ClaimKeepsValid(q, first, h);
    assert h - Elems(first) + Elems(first') == h1;
    ValidOwnHashes(q, h);
    ClaimRest(q, first);
    ClaimSome(q, first);
    ClaimKeepsValid(q1, last, h1);
    assert h1 - Elems(last) + Elems(last') == Elems(first') + Elems(last') by { ClaimSome(q1, last); }
    ValidOwnHashes(q1, h1);
    ClaimRest(q1, last);
    ClaimSome(q1, last);
    assert HoldersOutside(q2.byHash, Elems(first'));
    Rehome(q2, first', last');
  }

  lemma FreeKeepsValid(p: Pool, blocks: seq<nat>)
    requires Valid(p) && Freeable(p, blocks)
    ensures Valid(Free(p, blocks))
  {
    var q := ReleaseAll(p, blocks);
    var first, last := Idle(q, blocks, false), Idle(q, blocks, true);
    ReleasedHomeless(p, blocks);
    IdleIs(q, blocks, false);
    IdleIs(q, blocks, true);
    HoldersPinned(q, Elems(first) + Elems(last));
    if q.pinned == {} {
      assert q.byHash.Keys == {};
      Rehome(q, first, last);
    } else {
      ClaimedAndRehomed(q, first, last);
    }
  }

  // ---------------------------------------------------------------- replacing the pin set

  /** The blocks of the pin queue whose hash the new set wants, in queue order. */
  function Wanted(p: Pool, blocks: seq<nat>, hashes: set<Key>): seq<nat>
    requires Below(blocks, |p.hash|)
  {
    if blocks == [] then []
    else
      var head := p.hash[blocks[0]];
      (if head.Some? && head.value in hashes then [blocks[0]] else []) + Wanted(p, blocks[1..], hashes)
  }

  function Take(s: seq<nat>, n: int): seq<nat> { if n <= 0 then [] else if n <= |s| then s[..n] else s }

  /** No two of the blocks carry the same hash, and none carries one that is kept already. */
  ghost predicate FreshHashes(p: Pool, blocks: seq<nat>, kept: map<Key, nat>)
    requires Below(blocks, |p.hash|)
  {
    && (forall i | 0 <= i < |blocks| :: p.hash[blocks[i]].Some? ==> p.hash[blocks[i]].value !in kept)
    && (forall i, j | 0 <= i < j < |blocks| :: p.hash[blocks[i]].Some? ==> p.hash[blocks[i]] != p.hash[blocks[j]])
  }

  lemma FreshTail(p: Pool, blocks: seq<nat>, kept: map<Key, nat>)
    requires Below(blocks, |p.hash|) && FreshHashes(p, blocks, kept) && blocks != []
    ensures FreshHashes(p, blocks[1..], kept)
    ensures p.hash[blocks[0]].Some? ==> FreshHashes(p, blocks[1..], kept[p.hash[blocks[0]].value := blocks[0]])
  {
  }

  lemma GrowMap(m: map<Key, nat>, k: Key, b: nat)
    requires k !in m
    ensures |m[k := b]| == |m| + 1
  {
    assert m[k := b].Keys == m.Keys + {k};
  }

  /** One reservation for each block that stays, never more than the cap. */
  lemma {:induction false} KeepCount(p: Pool, blocks: seq<nat>, kept: map<Key, nat>)
    requires Below(blocks, |p.hash|) && |kept| <= p.cap
    ensures var (k, stay, go) := Keep(p, blocks, kept); |k| == |kept| + |stay| && |k| <= p.cap
    decreases |blocks|
  {
    if blocks != [] {
      var b, tail := blocks[0], blocks[1..];
      if p.hash[b].Some? && p.hash[b].value in p.pinned && p.hash[b].value !in kept && |kept| < p.cap {
        GrowMap(kept, p.hash[b].value, b);
        KeepCount(p, tail, kept[p.hash[b].value := b]);
      } else {
        KeepCount(p, tail, kept);
      }
    }
  }

  lemma TakeCons(b: nat, s: seq<nat>, n: int)
    requires n > 0
    ensures Take([b] + s, n) == [b] + Take(s, n - 1)
  {
  }

  /** What stays is the wanted blocks, in order, as many as the cap has room for. */
  lemma {:induction false} KeepOrder(p: Pool, blocks: seq<nat>, kept: map<Key, nat>)
    requires Below(blocks, |p.hash|) && FreshHashes(p, blocks, kept)
    ensures Keep(p, blocks, kept).1 == Take(Wanted(p, blocks, p.pinned), p.cap - |kept|)
    decreases |blocks|
  {
    if blocks != [] {
      var b, tail := blocks[0], blocks[1..];
      FreshTail(p, blocks, kept);
      var wanted := Wanted(p, tail, p.pinned);
      if p.hash[b].Some? && p.hash[b].value in p.pinned && |kept| < p.cap {
        GrowMap(kept, p.hash[b].value, b);
        KeepOrder(p, tail, kept[p.hash[b].value := b]);
        TakeCons(b, wanted, p.cap - |kept|);
      } else {
        KeepOrder(p, tail, kept);
        assert [] + wanted == wanted;
      }
    }
  }

  /** Every block stays or goes. */
  lemma {:induction false} KeepParts(p: Pool, blocks: seq<nat>, kept: map<Key, nat>)
    requires Below(blocks, |p.hash|) && NoDup(blocks)
    ensures var (k, stay, go) := Keep(p, blocks, kept);
            NoDup(stay) && NoDup(go) && Elems(stay) !! Elems(go) && Elems(stay) + Elems(go) == Elems(blocks)
    decreases |blocks|
  {
    if blocks != [] {
      var b, tail := blocks[0], blocks[1..];
      assert blocks == [b] + tail && b !in tail;
      assert Elems(blocks) == {b} + Elems(tail);
      if p.hash[b].Some? && p.hash[b].value in p.pinned && p.hash[b].value !in kept && |kept| < p.cap {
        KeepParts(p, tail, kept[p.hash[b].value := b]);
        var (k, stay, go) := Keep(p, tail, kept[p.hash[b].value := b]);
        NoDupAppend([b], stay);
      } else {
        KeepParts(p, tail, kept);
        var (k, stay, go) := Keep(p, tail, kept);
        NoDupAppend([b], go);
      }
    }
  }

  /** The new reservations are those of the blocks that stay. */
  lemma {:induction false} KeepMap(p: Pool, blocks: seq<nat>, kept: map<Key, nat>)
    requires Below(blocks, |p.hash|)
    ensures var (k, stay, go) := Keep(p, blocks, kept);
            && (forall x | x in kept :: x in k && k[x] == kept[x])
            && (forall x | x in k && x !in kept ::
                  k[x] in stay && k[x] < |p.hash| && p.hash[k[x]] == Some(x) && x in p.pinned)
            && (forall b | b in stay ::
                  && b < |p.hash| && p.hash[b].Some? && p.hash[b].value in k
                  && p.hash[b].value !in kept && k[p.hash[b].value] == b)
    decreases |blocks|
  {
    if blocks != [] {
      var b, tail := blocks[0], blocks[1..];
      if p.hash[b].Some? && p.hash[b].value in p.pinned && p.hash[b].value !in kept && |kept| < p.cap {
        KeepMap(p, tail, kept[p.hash[b].value := b]);
      } else {
        KeepMap(p, tail, kept);
      }
    }
  }

  lemma PinHashesFresh(p: Pool)
    requires Valid(p)
    ensures Below(p.pin, |p.hash|) && FreshHashes(p, p.pin, map[])
  {
    ElemsBelow(p.pin, p.num);
    forall i, j | 0 <= i < j < |p.pin| ensures p.hash[p.pin[i]] != p.hash[p.pin[j]] {
      assert p.pin[i] in p.pinnedIds && p.pin[j] in p.pinnedIds;
      assert Holds(p, p.pin[i]) && Holds(p, p.pin[j]);
    }
  }

  /** Replacing the pin set keeps exactly the wanted blocks of the pin queue, in order and up to the cap; the others
      go to the end of the free queue, each once; the reservations are those of the blocks that stay. */
  lemma ReplaceReturnsExactly(p: Pool, hashes: set<Key>, fraction: real)
    requires Valid(p) && !(hashes == p.pinned && CapOf(p.num, fraction) == p.cap)
    ensures Sized(p) && Below(p.pin, |p.hash|)
    ensures var q, wanted := SetPinned(p, hashes, fraction), Wanted(p, p.pin, hashes);
            && q.pin == Take(wanted, CapOf(p.num, fraction))
            && |q.free| >= |p.free| && q.free[..|p.free|] == p.free
            && NoDup(q.free[|p.free|..]) && Elems(q.free[|p.free|..]) == Elems(p.pin) - Elems(q.pin)
            && q.byHash.Values == Elems(q.pin)
            && q.refCnt == p.refCnt && q.hash == p.hash && q.pinned == hashes && q.cap == CapOf(p.num, fraction)
  {
    var r := Rearmed(p, hashes, fraction);
    RearmedStays(p, hashes, fraction);
    KeepParts(r, r.pin, map[]);
    KeptValues(r);
    var (k, stay, go) := Keep(r, r.pin, map[]);
    assert (r.free + go)[|p.free|..] == go && (r.free + go)[..|p.free|] == p.free;
  }

  lemma KeptValues(r: Pool)
    requires Below(r.pin, |r.hash|)
    ensures var (k, stay, go) := Keep(r, r.pin, map[]); k.Values == Elems(stay)
  {
    KeepMap(r, r.pin, map[]);
  }

  lemma FreshSame(p: Pool, r: Pool, blocks: seq<nat>)
    requires Below(blocks, |p.hash|) && FreshHashes(p, blocks, map[]) && r.hash == p.hash
    ensures FreshHashes(r, blocks, map[])
  {
  }

  lemma RearmedStays(p: Pool, hashes: set<Key>, fraction: real)
    requires Valid(p)
    ensures Below(p.pin, |p.hash|)
    ensures Keep(Rearmed(p, hashes, fraction), p.pin, map[]).1 == Take(Wanted(p, p.pin, hashes), CapOf(p.num, fraction))
  {
    var r := Rearmed(p, hashes, fraction);
    PinHashesFresh(p);
    FreshSame(p, r, p.pin);
    KeepOrder(r, r.pin, map[]);
    WantedSame(p, r, p.pin, hashes);
  }

  lemma {:induction false} WantedSame(p: Pool, q: Pool, blocks: seq<nat>, hashes: set<Key>)
    requires Below(blocks, |p.hash|) && q.hash == p.hash
    ensures Wanted(q, blocks, hashes) == Wanted(p, blocks, hashes)
  {
    if blocks != [] { WantedSame(p, q, blocks[1..], hashes); }
  }

  /** The pool right after the pin set is exchanged, before the pin queue is sorted out. */
  function Rearmed(p: Pool, hashes: set<Key>, fraction: real): Pool {
    p.(pinned := hashes, cap := CapOf(p.num, fraction), warned := false)
  }

  lemma KeptPartition(p: Pool, r: Pool, stay: seq<nat>, go: seq<nat>, kept: map<Key, nat>)
    requires Sized(p) && Partitioned(p, {}) && r == p.(pinned := r.pinned, cap := r.cap, warned := r.warned)
    requires NoDup(stay) && NoDup(go) && Elems(stay) !! Elems(go) && Elems(stay) + Elems(go) == Elems(p.pin)
    ensures var q := r.(pin := stay, free := r.free + go, byHash := kept, pinnedIds := kept.Values);
            Sized(q) && Partitioned(q, {})
  {
    var q := r.(pin := stay, free := r.free + go, byHash := kept, pinnedIds := kept.Values);
    NoDupAppend(p.free, go);
    assert Unused(q) == Unused(p);
    assert Elems(q.free) + Elems(q.pin) == Elems(p.free) + Elems(p.pin);
  }

  lemma KeptHolders(q: Pool)
    requires Sized(q) && Partitioned(q, {})
    requires forall k | k in q.byHash ::
               q.byHash[k] in q.pin && q.byHash[k] < |q.hash| && q.hash[q.byHash[k]] == Some(k) && k in q.pinned
    requires forall b | b in q.pin ::
               b < |q.hash| && q.hash[b].Some? && q.hash[b].value in q.byHash && q.byHash[q.hash[b].value] == b
    requires q.pinnedIds == q.byHash.Values && |q.byHash| <= q.cap
    ensures Valid(q) && q.pinnedIds == Elems(q.pin)
  {
    assert q.byHash.Values == Elems(q.pin);
    forall b | b in q.pinnedIds ensures Holds(q, b) {
      assert b in q.pin && b in Blocks(q.num);
    }
    forall k | k in q.byHash ensures Reserved(q, k, q.byHash[k]) {
      assert q.byHash[k] in Elems(q.pin);
    }
  }

  lemma SetPinnedKeepsValid(p: Pool, hashes: set<Key>, fraction: real)
    requires Valid(p)
    ensures Valid(SetPinned(p, hashes, fraction))
  {
    if !(hashes == p.pinned && CapOf(p.num, fraction) == p.cap) {
      var r := Rearmed(p, hashes, fraction);
      ElemsBelow(p.pin, p.num);
      KeepCount(r, r.pin, map[]);
      KeepParts(r, r.pin, map[]);
      KeepMap(r, r.pin, map[]);
      var (kept, stay, go) := Keep(r, r.pin, map[]);
      KeptPartition(p, r, stay, go, kept);
      KeptHolders(r.(pin := stay, free := r.free + go, byHash := kept, pinnedIds := kept.Values));
    }
  }

  // ---------------------------------------------------------------- conservation and reset

  function InUse(p: Pool): set<nat>
    requires |p.refCnt| == p.num
  {
    set b | b in Blocks(p.num) && p.refCnt[b] != 0
  }

  lemma {:induction false} BlocksCount(num: nat)
    requires num > 0
    ensures |Blocks(num)| == num - 1
  {
    if num == 1 {
      assert Blocks(1) == {};
    } else {
      BlocksCount(num - 1);
      assert IsNat(num - 1);
      assert Blocks(num) == Blocks(num - 1) + {num - 1};
    }
  }

  lemma {:induction false} NoDupCount(s: seq<nat>)
    requires NoDup(s)
    ensures |Elems(s)| == |s|
  {
    if s != [] {
      assert s == [s[0]] + s[1..] && s[0] !in s[1..];
      NoDupCount(s[1..]);
      assert Elems(s) == {s[0]} + Elems(s[1..]);
    }
  }

  /** Free, pinned and used blocks add up to the pool, in every reachable state. */
  lemma Conservation(p: Pool)
    requires Valid(p)
    ensures |p.free| + |p.pin| + |InUse(p)| == p.num - 1
    ensures Elems(p.free) + Elems(p.pin) + InUse(p) == Blocks(p.num) && Elems(p.free) !! Elems(p.pin) !! InUse(p)
  {
    NoDupCount(p.free);
    NoDupCount(p.pin);
    BlocksCount(p.num);
    assert Unused(p) + InUse(p) == Blocks(p.num);
    var idle := Elems(p.free) + Elems(p.pin);
    assert |idle| == |Elems(p.free)| + |Elems(p.pin)|;
    assert |idle + InUse(p)| == |idle| + |InUse(p)|;
  }

  /** A reset drops the whole pin, and then only blocks in use can make it fail. */
  lemma ResetOnlyBlockedByUse(p: Pool)
    requires Valid(p)
    ensures var (q, ok) := Reset(p);
            && Valid(q) && q.pin == [] && q.byHash == map[] && q.pinned == {}
            && (ok <==> InUse(p) == {})
            && (ok ==> forall b | b in Blocks(p.num) :: q.hash[b] == None)
            && Elems(q.free) == Elems(p.free) + Elems(p.pin)
  {
    var q := SetPinned(p, {}, 0.0);
    SetPinnedKeepsValid(p, {}, 0.0);
    HoldersPinned(q, {});
    assert q.byHash.Keys == {};
    assert q.byHash == map[];
    NoElems(q.pin);
    assert q.refCnt == p.refCnt && InUse(q) == InUse(p) && Unused(q) == Unused(p);
    Conservation(q);
    var (r, ok) := Reset(p);
    assert Unused(r) == Unused(q);
    assert Partitioned(r, {});
  }
}
