/** The block pool as the object the engine mutates; every method is tied to the pool function of `PinnedPool`. */
module BlockPool {
  import opened PinnedPool
  import opened PinnedRuns

  class BlockPool {
    var num: nat
    var refCnt: seq<int>
    var hash: seq<Option<Key>>
    var free: seq<nat>
    var pin: seq<nat>
    var pinned: set<Key>
    var byHash: map<Key, nat>
    var pinnedIds: set<nat>
    var cap: int
    var warned: bool

    function View(): Pool
      reads this
    {
      Pool(num, refCnt, hash, free, pin, pinned, byHash, pinnedIds, cap, warned)
    }

    constructor (numBlocks: nat)
      requires numBlocks > 0
      ensures num == numBlocks == |refCnt| == |hash| && forall b | 0 <= b < num :: refCnt[b] == 0 && hash[b] == None
      ensures |free| == num - 1 && forall i | 0 <= i < |free| :: free[i] == i + 1
      ensures pin == [] && pinned == {} && byHash == map[] && cap == 0
      ensures View() == Initial(numBlocks)
    {
      num, refCnt, hash := numBlocks, seq(numBlocks, i => 0), seq(numBlocks, i => None);
      free, pin, pinned, byHash := seq(numBlocks - 1, i => i + 1), [], {}, map[];
      pinnedIds, cap, warned := {}, 0, false;
    }

    /** Each block taken off the free queue loses its hash and gets its first user. */
    method HandOut(out: seq<nat>)
      requires |refCnt| == |hash| && Below(out, |refCnt|)
      modifies `refCnt, `hash
      ensures View() == HandAll(old(View()), out)
    {
      var i := 0;
      while i < |out|
        invariant 0 <= i <= |out| && |refCnt| == |hash| == |old(refCnt)| && Below(out[i..], |refCnt|)
        invariant HandAll(View(), out[i..]) == HandAll(old(View()), out)
      {
        assert out[i..][0] == out[i] && out[i..][1..] == out[i + 1..];
        refCnt := refCnt[out[i] := refCnt[out[i]] + 1];
        hash := hash[out[i] := None];
        i := i + 1;
      }
    }

    method GetNewBlocks(n: nat) returns (ids: Option<seq<nat>>)
      requires Sized(View())
      modifies this
      ensures ids.Some? <==> n <= |old(free)|
      ensures ids.Some? ==> |ids.value| == n && old(free) == ids.value + free
      ensures ids.None? ==> View() == old(View())
      ensures Valid(old(View())) && ids.Some? ==> HandsOut(old(View()), ids.value, View())
      ensures ids == Allocated(old(View()), n)
      ensures View() == if ids.Some? then Allocate(old(View()), n) else old(View())
    {
      if n > |free| { return None; }
      ghost var start := View();
      ElemsBelow(free, num);
      var out := free[..n];
      free := free[n..];
      HandOut(out);
      assert View() == Allocate(start, n);
      Handing(start, n, View());
      return Some(out);
    }

    /** The hash of a block that has been filled. */
    method SetBlockHash(b: nat, k: Key)
      requires b < |hash|
      modifies `hash
      ensures |hash| == |old(hash)| && hash[b] == Some(k)
      ensures forall c: nat | c < |hash| && c != b :: hash[c] == old(hash)[c]
      ensures View() == SetHash(old(View()), b, k)
    {
      hash := hash[b := Some(k)];
    }

    method TouchBlock(b: nat)
      requires b < |refCnt|
      modifies this
      ensures View() == TouchOne(old(View()), b)
    {
      if refCnt[b] == 0 && b != 0 {
        if b in pinnedIds {
          pinnedIds := pinnedIds - {b};
          pin := Remove(pin, b);
        } else {
          free := Remove(free, b);
        }
      }
      refCnt := refCnt[b := refCnt[b] + 1];
    }

    method Touch(blocks: seq<nat>)
      requires Below(blocks, |refCnt|)
      modifies this
      ensures View() == PinnedPool.Touch(old(View()), blocks)
    {
      var i := 0;
      while i < |blocks|
        invariant 0 <= i <= |blocks| && |refCnt| == old(|refCnt|) && Below(blocks[i..], |refCnt|)
        invariant PinnedPool.Touch(View(), blocks[i..]) == PinnedPool.Touch(old(View()), blocks)
      {
        assert blocks[i..][0] == blocks[i] && blocks[i..][1..] == blocks[i + 1..];
        TouchBlock(blocks[i]);
        i := i + 1;
      }
    }

    method AcquirePin(b: nat) returns (taken: bool)
      requires b < |hash|
      modifies `pin, `byHash, `pinnedIds, `warned
      ensures taken <==> hash[b].Some? && hash[b].value in pinned &&
                         if hash[b].value in old(byHash) then old(byHash)[hash[b].value] == b else |old(byHash)| < cap
      ensures pin == if taken then old(pin) + [b] else old(pin)
      ensures byHash == if taken then old(byHash)[hash[b].value := b] else old(byHash)
      ensures (View(), taken) == PinnedPool.AcquirePin(old(View()), b)
    {
      if hash[b].None? || hash[b].value !in pinned { return false; }
      var k := hash[b].value;
      if k !in byHash {
        if |byHash| >= cap {
          if !warned { warned := true; }
          return false;
        }
        byHash := byHash[k := b];
      } else if byHash[k] != b {
        return false;
      }
      assert byHash == old(byHash)[k := b];
      pinnedIds := pinnedIds + {b};
      pin := pin + [b];
      return true;
    }

    /** The offered blocks the pin does not claim, in their order. */
    method Unclaimed(offered: seq<nat>) returns (rest: seq<nat>)
      requires Below(offered, |hash|)
      modifies this
      ensures (View(), rest) == Claim(old(View()), offered)
    {
      rest := [];
      var i := 0;
      while i < |offered|
        invariant 0 <= i <= |offered| && |hash| == old(|hash|) && Below(offered[i..], |hash|)
        invariant Claim(old(View()), offered).0 == Claim(View(), offered[i..]).0
        invariant Claim(old(View()), offered).1 == rest + Claim(View(), offered[i..]).1
      {
        assert offered[i..][0] == offered[i] && offered[i..][1..] == offered[i + 1..];
        var taken := AcquirePin(offered[i]);
        if !taken { rest := rest + [offered[i]]; }
        i := i + 1;
      }
      assert offered[i..] == [] && rest + [] == rest;
    }

    method DropRefs(blocks: seq<nat>)
      requires Below(blocks, |refCnt|)
      modifies `refCnt
      ensures View() == ReleaseAll(old(View()), blocks)
    {
      var i := 0;
      while i < |blocks|
        invariant 0 <= i <= |blocks| && |refCnt| == old(|refCnt|) && Below(blocks[i..], |refCnt|)
        invariant ReleaseAll(View(), blocks[i..]) == ReleaseAll(old(View()), blocks)
      {
        assert blocks[i..][0] == blocks[i] && blocks[i..][1..] == blocks[i + 1..];
        refCnt := refCnt[blocks[i] := refCnt[blocks[i]] - 1];
        i := i + 1;
      }
    }

    /** The blocks nobody uses any more: those to reuse first, and those to evict last. */
    method ByEviction(blocks: seq<nat>) returns (evictFirst: seq<nat>, evictLast: seq<nat>)
      requires |refCnt| == |hash| && Below(blocks, |refCnt|)
      ensures evictFirst == Idle(View(), blocks, false) && evictLast == Idle(View(), blocks, true)
    {
      evictFirst, evictLast := [], [];
      var i := 0;
      while i < |blocks|
        invariant 0 <= i <= |blocks| && Below(blocks[i..], |refCnt|)
        invariant evictFirst + Idle(View(), blocks[i..], false) == Idle(View(), blocks, false)
        invariant evictLast + Idle(View(), blocks[i..], true) == Idle(View(), blocks, true)
      {
        var b := blocks[i];
        assert blocks[i..][0] == b && blocks[i..][1..] == blocks[i + 1..];
        AppendLeft(evictFirst, b, Idle(View(), blocks[i + 1..], false));
        AppendLeft(evictLast, b, Idle(View(), blocks[i + 1..], true));
        if refCnt[b] == 0 && b != 0 {
          if hash[b].Some? { evictLast := evictLast + [b]; } else { evictFirst := evictFirst + [b]; }
        }
        i := i + 1;
      }
      assert blocks[i..] == [];
      AppendLeft(evictFirst, 0, []);
      AppendLeft(evictLast, 0, []);
    }

    method FreeBlocks(blocks: seq<nat>)
      requires Sized(View()) && Below(blocks, num)
      modifies this
      ensures View() == Free(old(View()), blocks)
    {
      DropRefs(blocks);
      var evictFirst, evictLast := ByEviction(blocks);
      if pinned != {} {
        evictFirst := Unclaimed(evictFirst);
        evictLast := Unclaimed(evictLast);
      }
      free := evictFirst + free;
      free := free + evictLast;
    }

    /** Empties the pin queue and appends again what stays; returns the new reservations and the blocks that go. */
    method SortOut() returns (kept: map<Key, nat>, rehomed: seq<nat>)
      requires Below(pin, |hash|)
      modifies `pin
      ensures (kept, pin, rehomed) == Keep(old(View()), old(pin), map[])
    {
      var queue := pin;
      pin, kept, rehomed := [], map[], [];
      ghost var q := old(View());
      var i := 0;
      while i < |queue|
        invariant 0 <= i <= |queue| && Below(queue[i..], |hash|)
        invariant Keep(q, queue, map[]).0 == Keep(q, queue[i..], kept).0
        invariant Keep(q, queue, map[]).1 == pin + Keep(q, queue[i..], kept).1
        invariant Keep(q, queue, map[]).2 == rehomed + Keep(q, queue[i..], kept).2
      {
        var b := queue[i];
        assert queue[i..][0] == b && queue[i..][1..] == queue[i + 1..];
        if hash[b].Some? && hash[b].value in pinned && hash[b].value !in kept && |kept| < cap {
          kept := kept[hash[b].value := b];
          AppendLeft(pin, b, Keep(q, queue[i + 1..], kept).1);
          pin := pin + [b];
        } else {
          AppendLeft(rehomed, b, Keep(q, queue[i + 1..], kept).2);
          rehomed := rehomed + [b];
        }
        i := i + 1;
      }
      assert queue[i..] == [];
      AppendLeft(pin, 0, []);
      AppendLeft(rehomed, 0, []);
    }

    /** Replaces the pinned hashes; says how many blocks are reserved now. */
    method SetPinnedHashes(hashes: set<Key>, fraction: real) returns (reserved: nat)
      requires Sized(View())
      modifies this
      ensures View() == SetPinned(old(View()), hashes, fraction)
      ensures reserved == |byHash|
    {
      var newCap := CapOf(num, fraction);
      if hashes == pinned && newCap == cap { return |byHash|; }
      pinned, cap, warned := hashes, newCap, false;
      ElemsBelow(pin, num);
      var kept, rehomed := SortOut();
      free := free + rehomed;
      byHash := kept;
      pinnedIds := kept.Values;
      return |kept|;
    }

    method ResetPrefixCache() returns (ok: bool)
      requires Sized(View())
      modifies this
      ensures (View(), ok) == Reset(old(View()))
    {
      var _ := SetPinnedHashes({}, 0.0);
      if num - |free| != 1 { return false; }
      hash := seq(num, i => None);
      return true;
    }

    /** One operation of a run, by the method that carries it out. */
    method Perform(op: Op)
      requires Valid(View()) && Enabled(View(), op)
      modifies this
      ensures View() == Apply(old(View()), op) && Valid(View())
    {
      ApplyKeepsValid(View(), op);
      match op
      case Alloc(n) => var _ := GetNewBlocks(n);
      case Hash(b, k) => SetBlockHash(b, k);
      case Use(blocks) => Touch(blocks);
      case Return(blocks) => FreeBlocks(blocks);
      case Arm(hashes, fraction) => var _ := SetPinnedHashes(hashes, fraction);
      case Clear => var _ := ResetPrefixCache();
    }

    /** Blocks reserved, blocks in the pin queue, and for each cache group how many reservations it has. */
    method GetPinStats() returns (reserved: nat, held: nat, counts: map<nat, nat>)
      ensures reserved == |byHash| && held == |pin|
      ensures forall g :: g in counts <==> exists k :: k in byHash && k.group == g
      ensures forall g | g in counts :: counts[g] == |OfGroup(byHash.Keys, g)|
    {
      counts := map[];
      var keys := byHash.Keys;
      while keys != {}
        invariant keys <= byHash.Keys
        invariant forall g :: g in counts <==> OfGroup(byHash.Keys - keys, g) != {}
        invariant forall g | g in counts :: counts[g] == |OfGroup(byHash.Keys - keys, g)|
        decreases |keys|
      {
        var k :| k in keys;
        OfGroupAdd(byHash.Keys - keys, k);
        assert byHash.Keys - keys + {k} == byHash.Keys - (keys - {k});
        counts := counts[k.group := (if k.group in counts then counts[k.group] else 0) + 1];
        keys := keys - {k};
      }
      assert byHash.Keys - keys == byHash.Keys;
      forall g ensures OfGroup(byHash.Keys, g) != {} <==> exists k :: k in byHash && k.group == g {
        if k :| k in byHash && k.group == g { assert k in OfGroup(byHash.Keys, g); }
      }
      return |byHash|, |pin|, counts;
    }
  }

  lemma Handing(p: Pool, n: nat, q: Pool)
    requires Sized(p) && n <= |p.free| && q == Allocate(p, n)
    ensures Valid(p) ==> HandsOut(p, p.free[..n], q)
  {
    if Valid(p) { AllocateExactly(p, n); }
  }

  lemma AppendLeft(a: seq<nat>, b: nat, c: seq<nat>)
    ensures a + ([b] + c) == (a + [b]) + c && a + ([] + c) == a + c && a + [] == a
  {
    assert [] + c == c;
  }

  ghost function OfGroup(keys: set<Key>, g: nat): set<Key> { set k | k in keys && k.group == g }

  lemma OfGroupAdd(keys: set<Key>, k: Key)
    requires k !in keys
    ensures forall g :: OfGroup(keys + {k}, g) == if g == k.group then OfGroup(keys, g) + {k} else OfGroup(keys, g)
    ensures |OfGroup(keys + {k}, k.group)| == |OfGroup(keys, k.group)| + 1
  {
    assert OfGroup(keys + {k}, k.group) == OfGroup(keys, k.group) + {k};
  }
}
