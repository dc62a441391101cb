/** What every pool operation leaves in the two queues, member by member and in which order. */
module PoolQueues {
  import opened PinnedPool
  import opened PinnedRuns

  /** `x` stands before `y` in the queue. */
  ghost predicate Before(s: seq<nat>, x: nat, y: nat) { exists i, j | 0 <= i < j < |s| :: s[i] == x && s[j] == y }

  /** The members of `t` stand in the order they have in `s`. */
  ghost predicate InOrder(t: seq<nat>, s: seq<nat>) { forall i, j | 0 <= i < j < |t| :: Before(s, t[i], t[j]) }

  lemma BeforeTail(b: nat, tail: seq<nat>, x: nat, y: nat)
    requires Before(tail, x, y) || (x == b && y in tail)
    ensures Before([b] + tail, x, y)
  {
    var s := [b] + tail;
    if Before(tail, x, y) {
      var i, j :| 0 <= i < j < |tail| && tail[i] == x && tail[j] == y;
      assert s[i + 1] == x && s[j + 1] == y;
    } else {
      var j :| 0 <= j < |tail| && tail[j] == y;
      assert s[0] == x && s[j + 1] == y;
    }
  }

  /** A queue without some members keeps its order when it gets a head that comes first. */
  lemma InOrderCons(b: nat, t: seq<nat>, tail: seq<nat>)
    requires InOrder(t, tail) && Elems(t) <= Elems(tail)
    ensures InOrder(t, [b] + tail) && InOrder([b] + t, [b] + tail)
  {
    forall i, j | 0 <= i < j < |t| ensures Before([b] + tail, t[i], t[j]) {
      BeforeTail(b, tail, t[i], t[j]);
    }
    var r := [b] + t;
    forall i, j | 0 <= i < j < |r| ensures Before([b] + tail, r[i], r[j]) {
      assert r[j] == t[j - 1] && r[j] in Elems(t);
      if i > 0 { assert r[i] == t[i - 1]; }
      BeforeTail(b, tail, r[i], r[j]);
    }
  }

  lemma InOrderTrans(a: seq<nat>, b: seq<nat>, c: seq<nat>)
    requires InOrder(a, b) && InOrder(b, c)
    ensures InOrder(a, c)
  {
    forall i, j | 0 <= i < j < |a| ensures Before(c, a[i], a[j]) {
      assert Before(b, a[i], a[j]);
      var x, y :| 0 <= x < y < |b| && b[x] == a[i] && b[y] == a[j];
      assert Before(c, b[x], b[y]);
    }
  }

  lemma InOrderSelf(s: seq<nat>)
    ensures InOrder(s, s)
  {
  }

  // ---------------------------------------------------------------- touching

  lemma {:induction false} RemoveOrder(s: seq<nat>, b: nat)
    requires NoDup(s)
    ensures InOrder(Remove(s, b), s)
  {
    if s != [] {
      assert s == [s[0]] + s[1..];
      if s[0] == b {
        InOrderSelf(s[1..]);
        InOrderCons(b, s[1..], s[1..]);
      } else {
        RemoveOrder(s[1..], b);
        RemoveFacts(s[1..], b);
        InOrderCons(s[0], Remove(s[1..], b), s[1..]);
      }
    }
  }

  /** `q` is the queue `p` without the blocks, otherwise in its order. */
  ghost predicate Left(p: seq<nat>, blocks: set<nat>, q: seq<nat>) {
    NoDup(q) && Elems(q) == Elems(p) - blocks && InOrder(q, p)
  }

  /** The queues hold the unused blocks. */
  ghost predicate Queued(p: Pool) { Sized(p) && Partitioned(p, {}) && p.pinnedIds == Elems(p.pin) }

  lemma LeftOne(p: Pool, b: nat)
    requires Queued(p) && b < p.num
    ensures var q := TouchOne(p, b);
            Queued(q) && q.num == p.num && Left(p.free, {b}, q.free) && Left(p.pin, {b}, q.pin)
  {
    TouchOneQueues(p, b);
    TakenKeepsPartition(p, TouchOne(p, b), b);
    RemoveOrder(p.free, b);
    RemoveOrder(p.pin, b);
    InOrderSelf(p.free);
    InOrderSelf(p.pin);
  }

  lemma {:induction false} TouchCounts(p: Pool, blocks: seq<nat>)
    requires Below(blocks, |p.refCnt|)
    ensures var q := Touch(p, blocks);
            && q == p.(refCnt := q.refCnt, free := q.free, pin := q.pin, pinnedIds := q.pinnedIds)
            && forall b: nat | b < |p.refCnt| :: q.refCnt[b] == p.refCnt[b] + multiset(blocks)[b]
    decreases |blocks|
  {
    if blocks != [] {
      assert blocks == [blocks[0]] + blocks[1..];
      TouchCounts(TouchOne(p, blocks[0]), blocks[1..]);
    }
  }

  lemma {:induction false} TouchLeft(p: Pool, blocks: seq<nat>)
    requires Queued(p) && Below(blocks, p.num)
    ensures var q := Touch(p, blocks);
            Queued(q) && Left(p.free, Elems(blocks), q.free) && Left(p.pin, Elems(blocks), q.pin)
    decreases |blocks|
  {
    if blocks == [] {
      InOrderSelf(p.free);
      InOrderSelf(p.pin);
    } else {
      var b, tail := blocks[0], blocks[1..];
      var t := TouchOne(p, b);
      LeftOne(p, b);
      TouchLeft(t, tail);
      LeftCons(p.free, t.free, Touch(t, tail).free, b, tail, blocks);
      LeftCons(p.pin, t.pin, Touch(t, tail).pin, b, tail, blocks);
    }
  }

  lemma LeftCons(a: seq<nat>, q: seq<nat>, r: seq<nat>, b: nat, tail: seq<nat>, blocks: seq<nat>)
    requires Left(a, {b}, q) && Left(q, Elems(tail), r) && blocks != [] && b == blocks[0] && tail == blocks[1..]
    ensures Left(a, Elems(blocks), r)
  {
    assert blocks == [b] + tail;
    ElemsCons(b, tail);
    InOrderTrans(r, q, a);
  }

  /** Using blocks gives each one reference more for each time it is named and takes it out of the queue it is in; the
      rest of both queues keeps its order, and nothing else changes. */
  lemma TouchExactly(p: Pool, blocks: seq<nat>)
    requires Valid(p) && Below(blocks, p.num)
    ensures var q := Touch(p, blocks);
            && q == p.(refCnt := q.refCnt, free := q.free, pin := q.pin, pinnedIds := Elems(q.pin))
            && Left(p.free, Elems(blocks), q.free) && Left(p.pin, Elems(blocks), q.pin)
            && |q.refCnt| == |p.refCnt| == p.num
            && forall b: nat | b < p.num :: q.refCnt[b] == p.refCnt[b] + multiset(blocks)[b]
  {
    TouchCounts(p, blocks);
    TouchLeft(p, blocks);
  }

  // ---------------------------------------------------------------- freeing

  lemma {:induction false} IdleOrder(p: Pool, blocks: seq<nat>, hashed: bool)
    requires |p.refCnt| == |p.hash| && Below(blocks, |p.refCnt|)
    ensures InOrder(Idle(p, blocks, hashed), blocks)
  {
    if blocks != [] {
      var b, tail := blocks[0], blocks[1..];
      assert blocks == [b] + tail;
      IdleOrder(p, tail, hashed);
      InOrderCons(b, Idle(p, tail, hashed), tail);
      assert [] + Idle(p, tail, hashed) == Idle(p, tail, hashed);
    }
  }

  /** The offered blocks are split into those claimed, now at the end of the pin queue, and the rest, both in order. */
  ghost predicate Split(offered: seq<nat>, claimed: seq<nat>, rest: seq<nat>) {
    && NoDup(claimed) && NoDup(rest) && Elems(claimed) !! Elems(rest)
    && Elems(claimed) + Elems(rest) == Elems(offered)
    && InOrder(claimed, offered) && InOrder(rest, offered)
  }

  lemma SplitCons(b: nat, tail: seq<nat>, claimed: seq<nat>, rest: seq<nat>)
    requires Split(tail, claimed, rest) && b !in tail
    ensures Split([b] + tail, [b] + claimed, rest) && Split([b] + tail, claimed, [b] + rest)
  {
    assert b !in Elems(tail);
    InOrderCons(b, claimed, tail);
    InOrderCons(b, rest, tail);
    NoDupAppend([b], claimed);
    NoDupAppend([b], rest);
    ElemsCons(b, tail);
    ElemsCons(b, claimed);
    ElemsCons(b, rest);
  }

  /** The offered blocks that the pin takes, in turn. */
  ghost function Claimed(p: Pool, offered: seq<nat>): seq<nat>
    requires Below(offered, |p.hash|)
    decreases |offered|
  {
    if offered == [] then []
    else
      var (q, taken) := AcquirePin(p, offered[0]);
      if taken then [offered[0]] + Claimed(q, offered[1..]) else Claimed(q, offered[1..])
  }

  lemma {:induction false} ClaimedQueued(p: Pool, offered: seq<nat>)
    requires Below(offered, |p.hash|)
    ensures Claim(p, offered).0.pin == p.pin + Claimed(p, offered)
    decreases |offered|
  {
    if offered != [] {
      var (q, taken) := AcquirePin(p, offered[0]);
      ClaimedQueued(q, offered[1..]);
    }
  }

  lemma {:induction false} ClaimSplits(p: Pool, offered: seq<nat>)
    requires Below(offered, |p.hash|) && NoDup(offered)
    ensures Split(offered, Claimed(p, offered), Claim(p, offered).1)
    decreases |offered|
  {
    if offered != [] {
      var b, tail := offered[0], offered[1..];
      var q := AcquirePin(p, b).0;
      assert offered == [b] + tail && b !in tail;
      ClaimSplits(q, tail);
      SplitCons(b, tail, Claimed(q, tail), Claim(q, tail).1);
    }
  }

  /** A claimed block is the holder of its hash from then on. */
  lemma {:induction false} ClaimedHold(p: Pool, offered: seq<nat>, b: nat)
    requires Below(offered, |p.hash|) && b < |p.hash| && b in Claimed(p, offered)
    ensures var q := Claim(p, offered).0;
            p.hash[b].Some? && p.hash[b].value in q.byHash && q.byHash[p.hash[b].value] == b
    decreases |offered|
  {
    var (q, taken) := AcquirePin(p, offered[0]);
    if taken && b == offered[0] {
      ClaimKeepsHolder(q, offered[1..], p.hash[b].value);
    } else {
      ClaimedHold(q, offered[1..], b);
    }
  }

  /** A new reservation is that of a claimed block. */
  lemma {:induction false} NewHolders(p: Pool, offered: seq<nat>, k: Key)
    requires Below(offered, |p.hash|) && k !in p.byHash && k in Claim(p, offered).0.byHash
    ensures Claim(p, offered).0.byHash[k] in Claimed(p, offered)
    decreases |offered|
  {
    var (q, taken) := AcquirePin(p, offered[0]);
    if k in q.byHash {
      ClaimKeepsHolder(q, offered[1..], k);
    } else {
      NewHolders(q, offered[1..], k);
    }
  }

  /** Which blocks hold a reservation after freeing: the old holders do, and no other than the claimed ones. */
  ghost predicate HoldersAfter(p: Pool, claimed: seq<nat>, q: Pool)
    requires |p.hash| == p.num
  {
    && (forall k | k in p.byHash :: k in q.byHash && q.byHash[k] == p.byHash[k])
    && (forall k | k in q.byHash && k !in p.byHash :: q.byHash[k] in claimed)
    && (forall b: nat | b < p.num && b in claimed ::
          p.hash[b].Some? && p.hash[b].value in q.byHash && q.byHash[p.hash[b].value] == b)
  }

  /** A block that is not claimed holds no reservation; if its hash is pinned, another block holds it, or the cap is
      reached. */
  ghost predicate Unheld(p: Pool, last: seq<nat>, q: Pool)
    requires |p.hash| == p.num
  {
    forall b: nat | b < p.num && b in last ::
      && b !in q.byHash.Values
      && (p.hash[b].Some? && p.hash[b].value in p.pinned ==> p.hash[b].value in q.byHash || |q.byHash| >= p.cap)
  }

  /** The freed blocks with no user left: `first` carry no hash; `last` and `claimed` do; each list is in the order
      given. */
  ghost predicate Sorted(p: Pool, blocks: seq<nat>, first: seq<nat>, last: seq<nat>, claimed: seq<nat>,
                         counts: seq<int>)
    requires |p.hash| == |counts| == p.num
  {
    && NoDup(first) && NoDup(last) && NoDup(claimed) && Elems(last) !! Elems(claimed)
    && InOrder(first, blocks) && InOrder(last, blocks) && InOrder(claimed, blocks)
    && (forall b: nat :: b in first <==> b in blocks && 0 < b < p.num && counts[b] == 0 && p.hash[b] == None)
    && (forall b: nat ::
          b in last || b in claimed <==> b in blocks && 0 < b < p.num && counts[b] == 0 && p.hash[b].Some?)
  }

  /** Freeing `blocks` takes `p` to `q`: each loses one reference; those nobody uses any more go, in the order given, to
      the head of the free queue if they carry no hash, else to the end of the pin queue or of the free queue. */
  ghost predicate Freed(p: Pool, blocks: seq<nat>, first: seq<nat>, last: seq<nat>, claimed: seq<nat>, q: Pool) {
    && |p.refCnt| == |p.hash| == |q.refCnt| == p.num
    && (forall b: nat | b < p.num :: q.refCnt[b] == p.refCnt[b] - if b in blocks then 1 else 0)
    && q == p.(refCnt := q.refCnt, free := first + p.free + last, pin := p.pin + claimed,
               pinnedIds := Elems(q.pin), byHash := q.byHash, warned := q.warned)
    && Sorted(p, blocks, first, last, claimed, q.refCnt)
    && HoldersAfter(p, claimed, q) && Unheld(p, last, q)
  }

  lemma {:induction false} ClaimNothing(p: Pool, offered: seq<nat>)
    requires Below(offered, |p.hash|) && p.pinned == {}
    ensures Claim(p, offered) == (p, offered)
    decreases |offered|
  {
    if offered != [] {
      ClaimNothing(p, offered[1..]);
      assert offered == [offered[0]] + offered[1..];
    }
  }

  /** Only the hashed blocks are offered to the pin. */
  lemma RehousedIs(r: Pool, first: seq<nat>, offered: seq<nat>)
    requires Unhashed(r, first) && Below(offered, |r.hash|)
    ensures var (q, rest) := Claim(r, offered); Rehoused(r, first, offered) == q.(free := first + r.free + rest)
  {
    ClaimUnhashed(r, first);
    if r.pinned == {} { ClaimNothing(r, offered); }
  }

  lemma HoldersAre(r: Pool, offered: seq<nat>)
    requires |r.hash| == r.num && Below(offered, r.num)
    ensures HoldersAfter(r, Claimed(r, offered), Claim(r, offered).0)
  {
    var q := Claim(r, offered).0;
    forall k | k in r.byHash ensures k in q.byHash && q.byHash[k] == r.byHash[k] { ClaimKeepsHolder(r, offered, k); }
    forall k | k in q.byHash && k !in r.byHash ensures q.byHash[k] in Claimed(r, offered) {
      NewHolders(r, offered, k);
    }
    forall b: nat | b < r.num && b in Claimed(r, offered)
      ensures r.hash[b].Some? && r.hash[b].value in q.byHash && q.byHash[r.hash[b].value] == b
    {
      ClaimedHold(r, offered, b);
    }
  }

  lemma UnheldAre(r: Pool, offered: seq<nat>)
    requires |r.hash| == r.num && Below(offered, r.num) && NoDup(offered) && OwnHashes(r)
    ensures Unheld(r, Claim(r, offered).1, Claim(r, offered).0)
  {
    var (q, last) := Claim(r, offered);
    ClaimRest(r, offered);
    forall b: nat | b < r.num && b in last
      ensures b !in q.byHash.Values
      ensures r.hash[b].Some? && r.hash[b].value in r.pinned ==> r.hash[b].value in q.byHash || |q.byHash| >= r.cap
    {
      assert b in Elems(last);
      if r.hash[b].Some? && r.hash[b].value in r.pinned { ClaimLeavesRoom(r, offered, b); }
    }
  }

  lemma IdleMembers(r: Pool, blocks: seq<nat>, hashed: bool, b: nat)
    requires |r.refCnt| == |r.hash| == r.num && Below(blocks, r.num) && NoDup(blocks)
    ensures b in Idle(r, blocks, hashed) <==>
            b in blocks && 0 < b < r.num && r.refCnt[b] == 0 && r.hash[b].Some? == hashed
  {
    IdleIs(r, blocks, hashed);
    assert b in Idle(r, blocks, hashed) <==> b in WithHash(r, Elems(blocks) * Unused(r), hashed);
    assert b in Unused(r) <==> 0 < b < r.num && r.refCnt[b] == 0 by { assert IsNat(b); }
  }

  lemma SplitMembers(offered: seq<nat>, claimed: seq<nat>, rest: seq<nat>, blocks: seq<nat>, b: nat)
    requires Split(offered, claimed, rest) && InOrder(offered, blocks)
    ensures b in rest || b in claimed <==> b in offered
    ensures InOrder(rest, blocks) && InOrder(claimed, blocks)
  {
    assert b in Elems(rest) + Elems(claimed) <==> b in Elems(offered);
    InOrderTrans(rest, offered, blocks);
    InOrderTrans(claimed, offered, blocks);
  }

  lemma SortedAre(r: Pool, blocks: seq<nat>, first: seq<nat>, offered: seq<nat>, last: seq<nat>, claimed: seq<nat>)
    requires |r.refCnt| == |r.hash| == r.num && Below(blocks, r.num) && NoDup(blocks)
    requires first == Idle(r, blocks, false) && offered == Idle(r, blocks, true) && Split(offered, claimed, last)
    ensures Sorted(r, blocks, first, last, claimed, r.refCnt)
  {
    IdleIs(r, blocks, false);
    IdleOrder(r, blocks, false);
    IdleOrder(r, blocks, true);
    SplitMembers(offered, claimed, last, blocks, 0);
    forall b: nat ensures b in first <==> b in blocks && 0 < b < r.num && r.refCnt[b] == 0 && r.hash[b] == None {
      IdleMembers(r, blocks, false, b);
    }
    forall b: nat
      ensures b in last || b in claimed <==> b in blocks && 0 < b < r.num && r.refCnt[b] == 0 && r.hash[b].Some?
    {
      IdleMembers(r, blocks, true, b);
      SplitMembers(offered, claimed, last, blocks, b);
    }
  }

  lemma FreedUnhashed(r: Pool, blocks: seq<nat>)
    requires |r.refCnt| == |r.hash| == r.num && Below(blocks, r.num) && NoDup(blocks)
    ensures Unhashed(r, Idle(r, blocks, false))
  {
    var first := Idle(r, blocks, false);
    forall i | 0 <= i < |first| ensures r.hash[first[i]] == None {
      IdleMembers(r, blocks, false, first[i]);
    }
  }

  lemma FreeIs(p: Pool, blocks: seq<nat>)
    requires Valid(p) && Freeable(p, blocks)
    ensures var r := ReleaseAll(p, blocks); var offered := Idle(r, blocks, true); var (c, last) := Claim(r, offered);
            && c.pin == p.pin + Claimed(r, offered)
            && Free(p, blocks) == c.(free := Idle(r, blocks, false) + p.free + last)
            && OwnHashes(r)
  {
    var r := ReleaseAll(p, blocks);
    var first, offered := Idle(r, blocks, false), Idle(r, blocks, true);
    ReleasedHomeless(p, blocks);
    ValidOwnHashes(r, Elems(first) + Elems(offered));
    FreedUnhashed(r, blocks);
    RehousedIs(r, first, offered);
    ClaimedQueued(r, offered);
  }

  /** Freeing blocks is exactly this, for some split of the hashed ones into claimed and evictable. */
  lemma FreeExactly(p: Pool, blocks: seq<nat>)
    requires Valid(p) && Freeable(p, blocks)
    ensures exists first, last, claimed :: Freed(p, blocks, first, last, claimed, Free(p, blocks))
  {
    var r, q := ReleaseAll(p, blocks), Free(p, blocks);
    var first, offered := Idle(r, blocks, false), Idle(r, blocks, true);
    var last, claimed := Claim(r, offered).1, Claimed(r, offered);
    FreeIs(p, blocks);
    ReleaseAllIs(p, blocks);
    IdleIs(r, blocks, true);
    ClaimSplits(r, offered);
    SortedAre(r, blocks, first, offered, last, claimed);
    HoldersAre(r, offered);
    UnheldAre(r, offered);
    FreeKeepsPins(p, blocks);
    FreedFrom(p, r, blocks, first, last, claimed, q);
  }

  lemma FreeKeepsPins(p: Pool, blocks: seq<nat>)
    requires Valid(p) && Freeable(p, blocks)
    ensures var q := Free(p, blocks); q.pinnedIds == Elems(q.pin)
  {
    FreeKeepsValid(p, blocks);
  }

  /** What holds of the pool whose references are dropped holds of the pool before. */
  lemma FreedFrom(p: Pool, r: Pool, blocks: seq<nat>, first: seq<nat>, last: seq<nat>, claimed: seq<nat>, q: Pool)
    requires |p.refCnt| == |p.hash| == |r.refCnt| == p.num && r == p.(refCnt := r.refCnt)
    requires forall b: nat | b < p.num :: r.refCnt[b] == p.refCnt[b] - if b in blocks then 1 else 0
    requires q == r.(free := first + p.free + last, pin := p.pin + claimed, pinnedIds := Elems(q.pin),
                     byHash := q.byHash, warned := q.warned)
    requires Sorted(r, blocks, first, last, claimed, r.refCnt) && HoldersAfter(r, claimed, q) && Unheld(r, last, q)
    ensures Freed(p, blocks, first, last, claimed, q)
  {
  }

  /** A block handed out, given a pinned hash that nobody holds yet and freed is in the pin queue, as the holder of the
      hash, when the cap has room. */
  lemma MarkedIsPinned(p: Pool, b: nat, k: Key)
    requires Valid(p) && p.free != [] && b == p.free[0] && k in p.pinned && k !in p.byHash && |p.byHash| < p.cap
    ensures b < |Allocate(p, 1).hash| == |Allocate(p, 1).refCnt|
    ensures var q := Free(SetHash(Allocate(p, 1), b, k), [b]);
            && q.byHash == p.byHash[k := b] && q.pin == p.pin + [b] && q.free == p.free[1..]
            && q.hash == p.hash[b := Some(k)] && q.refCnt == p.refCnt
  {
    AllocateExactly(p, 1);
    assert Allocated(p, 1).value == [b];
    MarkedFreed(p, Allocate(p, 1), b, k);
  }

  lemma MarkedFreed(p: Pool, a: Pool, b: nat, k: Key)
    requires HandsOut(p, [b], a) && k in p.pinned && k !in p.byHash && |p.byHash| < p.cap && 0 < b < p.num
    requires Sized(SetHash(a, b, k))
    ensures var q := Free(SetHash(a, b, k), [b]);
            && q.byHash == p.byHash[k := b] && q.pin == p.pin + [b] && q.free == p.free[1..]
            && q.hash == p.hash[b := Some(k)] && q.refCnt == p.refCnt
  {
    assert b in [b];
    FreeOneClaimed(SetHash(a, b, k), b, k);
    assert a.hash[b := Some(k)] == p.hash[b := Some(k)];
    assert a.refCnt[b := 0] == p.refCnt;
  }

  lemma FreeOneClaimed(p: Pool, b: nat, k: Key)
    requires Sized(p) && 0 < b < p.num && p.refCnt[b] == 1 && p.hash[b] == Some(k)
    requires k in p.pinned && k !in p.byHash && |p.byHash| < p.cap
    ensures Free(p, [b]) == p.(refCnt := p.refCnt[b := 0], pinnedIds := p.pinnedIds + {b}, pin := p.pin + [b],
                               byHash := p.byHash[k := b])
  {
    var r := Release(p, b);
    assert [b][1..] == [] && ReleaseAll(r, []) == r;
    assert ReleaseAll(p, [b]) == r;
    assert Idle(r, [b], true) == [b] + Idle(r, [], true) && Idle(r, [b], false) == [] + Idle(r, [], false);
    var q := AcquirePin(r, b).0;
    assert Claim(r, []) == (r, []) && Claim(q, []) == (q, []) && Claim(r, [b]) == (q, []);
    assert [] + p.free + [] == p.free;
  }

  // ---------------------------------------------------------------- replacing the pin set

  /** The cap is the whole part of the fraction of the pool, but at least one block. */
  lemma CapIs(num: nat, fraction: real)
    ensures var cap := CapOf(num, fraction); var share := num as real * fraction;
            && cap >= 1
            && (share >= 1.0 ==> cap as real <= share < cap as real + 1.0)
            && (share < 1.0 ==> cap == 1)
  {
  }

  lemma {:induction false} WantedIs(p: Pool, blocks: seq<nat>, hashes: set<Key>)
    requires Below(blocks, |p.hash|)
    ensures var w := Wanted(p, blocks, hashes);
            && InOrder(w, blocks)
            && forall b: nat :: b in w <==> b in blocks && p.hash[b].Some? && p.hash[b].value in hashes
  {
    if blocks != [] {
      var b, tail := blocks[0], blocks[1..];
      assert blocks == [b] + tail;
      WantedIs(p, tail, hashes);
      InOrderCons(b, Wanted(p, tail, hashes), tail);
      assert [] + Wanted(p, tail, hashes) == Wanted(p, tail, hashes);
    }
  }

  /** What stays of the pin queue `blocks`: blocks whose hash the new set wants, in their order, the first ones, and all
      of them if the cap has room. */
  ghost predicate Stays(p: Pool, blocks: seq<nat>, hashes: set<Key>, cap: int, stay: seq<nat>)
    requires Below(blocks, |p.hash|)
  {
    && |stay| <= cap && InOrder(stay, blocks)
    && (forall b | b in stay :: b in blocks && p.hash[b].Some? && p.hash[b].value in hashes)
    && (forall b | b in blocks && b !in stay && p.hash[b].Some? && p.hash[b].value in hashes ::
          |stay| == cap && forall x | x in stay :: Before(blocks, x, b))
  }

  lemma TakeHas(w: seq<nat>, n: int)
    ensures forall j | 0 <= j < |w| && j < n :: w[j] in Take(w, n)
  {
    forall j | 0 <= j < |w| && j < n ensures w[j] in Take(w, n) { assert Take(w, n)[j] == w[j]; }
  }

  lemma TakenStays(p: Pool, blocks: seq<nat>, hashes: set<Key>, cap: int)
    requires Below(blocks, |p.hash|) && cap > 0
    ensures Stays(p, blocks, hashes, cap, Take(Wanted(p, blocks, hashes), cap))
  {
    var w := Wanted(p, blocks, hashes);
    var stay := Take(w, cap);
    WantedIs(p, blocks, hashes);
    forall i, j | 0 <= i < j < |stay| ensures Before(blocks, stay[i], stay[j]) {
      assert stay[i] == w[i] && stay[j] == w[j];
    }
    forall b | b in blocks && b !in stay && p.hash[b].Some? && p.hash[b].value in hashes
      ensures |stay| == cap && forall x | x in stay :: Before(blocks, x, b)
    {
      var j :| 0 <= j < |w| && w[j] == b;
      TakeHas(w, cap);
      forall x | x in stay ensures Before(blocks, x, b) {
        var i :| 0 <= i < |stay| && stay[i] == x;
        assert w[i] == x;
      }
    }
  }

  lemma {:induction false} KeepGoes(p: Pool, blocks: seq<nat>, kept: map<Key, nat>)
    requires Below(blocks, |p.hash|)
    ensures var go := Keep(p, blocks, kept).2; InOrder(go, blocks) && Elems(go) <= Elems(blocks)
    decreases |blocks|
  {
    if blocks != [] {
      var b, tail := blocks[0], blocks[1..];
      assert blocks == [b] + tail;
      ElemsCons(b, tail);
      if p.hash[b].Some? && p.hash[b].value in p.pinned && p.hash[b].value !in kept && |kept| < p.cap {
        KeepGoes(p, tail, kept[p.hash[b].value := b]);
        InOrderCons(b, Keep(p, tail, kept[p.hash[b].value := b]).2, tail);
      } else {
        KeepGoes(p, tail, kept);
        InOrderCons(b, Keep(p, tail, kept).2, tail);
        ElemsCons(b, Keep(p, tail, kept).2);
      }
    }
  }

  /** Replacing the pin set takes `p` to `q`: the wanted blocks stay, the others go to the end of the free queue in
      their order, and the reservations are those of the blocks that stay. */
  ghost predicate Replaced(p: Pool, hashes: set<Key>, cap: int, q: Pool) {
    && |p.hash| == p.num && Below(p.pin, p.num)
    && q == p.(pinned := hashes, cap := cap, warned := false, free := q.free, pin := q.pin, byHash := q.byHash,
               pinnedIds := Elems(q.pin))
    && Stays(p, p.pin, hashes, cap, q.pin)
    && |q.free| >= |p.free| && q.free[..|p.free|] == p.free && Left(p.pin, Elems(q.pin), q.free[|p.free|..])
    && q.byHash.Values == Elems(q.pin)
    && forall k | k in q.byHash && q.byHash[k] < p.num :: p.hash[q.byHash[k]] == Some(k)
  }

  lemma ReplacedIs(p: Pool, hashes: set<Key>, fraction: real)
    requires Valid(p) && !(hashes == p.pinned && CapOf(p.num, fraction) == p.cap)
    ensures Replaced(p, hashes, CapOf(p.num, fraction), SetPinned(p, hashes, fraction))
  {
    var r, cap := Rearmed(p, hashes, fraction), CapOf(p.num, fraction);
    ElemsBelow(p.pin, p.num);
    RearmedStays(p, hashes, fraction);
    CapIs(p.num, fraction);
    TakenStays(p, p.pin, hashes, cap);
    KeepParts(r, r.pin, map[]);
    KeepGoes(r, r.pin, map[]);
    KeptValues(r);
    KeepMap(r, r.pin, map[]);
    var (k, stay, go) := Keep(r, r.pin, map[]);
    assert (r.free + go)[|p.free|..] == go && (r.free + go)[..|p.free|] == p.free;
    assert Elems(go) == Elems(p.pin) - Elems(stay);
  }

  /** Nothing happens when set and cap are the same as before; otherwise the pin set is replaced. */
  lemma SetPinnedExactly(p: Pool, hashes: set<Key>, fraction: real)
    requires Valid(p)
    ensures var same := hashes == p.pinned && CapOf(p.num, fraction) == p.cap; var q := SetPinned(p, hashes, fraction);
            if same then q == p else Replaced(p, hashes, CapOf(p.num, fraction), q)
  {
    if !(hashes == p.pinned && CapOf(p.num, fraction) == p.cap) { ReplacedIs(p, hashes, fraction); }
  }
}
