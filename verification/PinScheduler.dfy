/** The scheduler's side of the never-evict pin: recognising the marked prompt and re-arming the pool. */
module PinScheduler {
  import opened PinnedPool
  import opened PinnedRuns
  import B = BlockPool

  // ---------------------------------------------------------------- matching the marker

  /** The needle starts at position `j`. */
  predicate OccursAt(haystack: seq<int>, needle: seq<int>, j: nat) {
    j + |needle| <= |haystack| && haystack[j..j + |needle|] == needle
  }

  /** The first position from `start` on that holds `x`, if any. */
  method IndexOf(s: seq<int>, x: int, start: nat) returns (pos: Option<nat>)
    ensures pos.None? ==> forall j | start <= j < |s| :: s[j] != x
    ensures pos.Some? ==> && start <= pos.value < |s| && s[pos.value] == x
                          && forall j | start <= j < pos.value :: s[j] != x
  {
    var i := start;
    while i < |s|
      invariant start <= i
      invariant forall j | start <= j < i && j < |s| :: s[j] != x
    {
      if s[i] == x { return Some(i); }
      i := i + 1;
    }
    return None;
  }

  /** A slice that stops at the end of the list. */
  function Clipped(s: seq<int>, from: nat, n: nat): seq<int>
    requires from <= |s|
  {
    if from + n <= |s| then s[from..from + n] else s[from..]
  }

  lemma OccursFirst(haystack: seq<int>, needle: seq<int>, j: nat)
    requires needle != [] && OccursAt(haystack, needle, j)
    ensures haystack[j] == needle[0]
  {
    assert haystack[j..j + |needle|][0] == haystack[j];
  }

  method ContainsSubseq(haystack: seq<int>, needle: seq<int>) returns (found: bool)
    ensures found <==> needle != [] && exists j: nat :: OccursAt(haystack, needle, j)
  {
    var n := |needle|;
    if n == 0 || |haystack| < n { return false; }
    var i := 0;
    while true
      invariant 0 <= i <= |haystack|
      invariant forall j: nat | j < i :: !OccursAt(haystack, needle, j)
      decreases |haystack| - i
    {
      var pos := IndexOf(haystack, needle[0], i);
      forall j: nat | (if pos.Some? then j < pos.value else true) ensures !OccursAt(haystack, needle, j) {
        if OccursAt(haystack, needle, j) { OccursFirst(haystack, needle, j); }
      }
      if pos.None? { return false; }
      if Clipped(haystack, pos.value, n) == needle {
        assert OccursAt(haystack, needle, pos.value);
        return true;
      }
      i := pos.value + 1;
    }
  }

  // ---------------------------------------------------------------- what a prompt pins

  datatype Group = Group(blockSize: nat, cacheable: bool)

  /** A request as the scheduler sees it: the hashes of its full fine blocks and the length of its prompt. */
  datatype Request = Request(hashes: seq<int>, promptTokens: nat)

  /** Groups whose blocks span several fine blocks key on the combination of the fine hashes. */
  function GroupHash(hashes: seq<int>, ratio: nat, i: nat, combine: seq<int> -> int): int
    requires ratio > 0 && (i + 1) * ratio <= |hashes|
  {
    if ratio == 1 then hashes[i] else (assert i * ratio <= (i + 1) * ratio; combine(hashes[i * ratio..(i + 1) * ratio]))
  }

  predicate Pinnable(g: Group, fine: nat)
    requires fine > 0
  {
    g.cacheable && g.blockSize % fine == 0
  }

  /** Block `i` of group `g` is full of prompt tokens and all its fine hashes are known. */
  predicate InPrompt(r: Request, fine: nat, g: Group, i: nat) {
    (i + 1) * g.blockSize <= r.promptTokens && (i + 1) * g.blockSize <= |r.hashes| * fine
  }

  lemma FullBlocks(r: Request, fine: nat, size: nat, i: nat)
    requires fine > 0 && size > 0 && size % fine == 0
    ensures size / fine > 0
    ensures i < |r.hashes| / (size / fine) && i < r.promptTokens / size <==>
            (i + 1) * size <= r.promptTokens && (i + 1) * size <= |r.hashes| * fine
    ensures i < |r.hashes| / (size / fine) <==> (i + 1) * (size / fine) <= |r.hashes|
  {
    var ratio := size / fine;
    assert size == ratio * fine;
    BelowQuotient(i, |r.hashes|, ratio);
    BelowQuotient(i, r.promptTokens, size);
    Scaled((i + 1) * ratio, |r.hashes|, fine);
    assert (i + 1) * size == ((i + 1) * ratio) * fine;
  }

  lemma RatioPositive(size: nat, fine: nat)
    requires fine > 0 && size > 0 && size % fine == 0
    ensures size / fine > 0
  {
  }

  lemma FullBelow(r: Request, fine: nat, g: Group, i: nat, known: nat, full: nat)
    requires fine > 0 && g.blockSize > 0 && Pinnable(g, fine) && g.blockSize / fine > 0
    requires known == |r.hashes| / (g.blockSize / fine) && full == r.promptTokens / g.blockSize
    ensures InPrompt(r, fine, g, i) <==> i < known && i < full
  {
    FullBlocks(r, fine, g.blockSize, i);
  }

  lemma BelowQuotient(i: nat, n: nat, d: nat)
    requires d > 0
    ensures i < n / d <==> (i + 1) * d <= n
  {
    var q := n / d;
    assert n == q * d + n % d;
    if i < q {
      assert (i + 1) * d <= q * d;
    } else {
      assert (i + 1) * d >= (q + 1) * d;
    }
  }

  lemma Scaled(a: nat, b: nat, k: nat)
    requires k > 0
    ensures a <= b <==> a * k <= b * k
  {
  }

  function KeyOf(r: Request, fine: nat, groups: seq<Group>, gid: nat, i: nat, combine: seq<int> -> int): (k: Key)
    requires fine > 0 && gid < |groups| && groups[gid].blockSize > 0 && Pinnable(groups[gid], fine)
    requires InPrompt(r, fine, groups[gid], i)
  {
    FullBlocks(r, fine, groups[gid].blockSize, i);
    Key(GroupHash(r.hashes, groups[gid].blockSize / fine, i, combine), gid)
  }

  predicate Sizes(groups: seq<Group>) { forall g | 0 <= g < |groups| :: groups[g].blockSize > 0 }

  /** A key is wanted when it names a full block of the prompt in a group that can be pinned. */
  ghost predicate Wants(r: Request, fine: nat, groups: seq<Group>, combine: seq<int> -> int, k: Key)
    requires fine > 0 && Sizes(groups)
  {
    && k.group < |groups| && Pinnable(groups[k.group], fine)
    && exists i: nat :: InPrompt(r, fine, groups[k.group], i) && KeyOf(r, fine, groups, k.group, i, combine) == k
  }

  /** Fine blocks `i * ratio` up to `(i + 1) * ratio` make one block of the group; its hash is the fine one, or the
      combination of them, in order. */
  ghost predicate KeysBlock(r: Request, fine: nat, g: Group, combine: seq<int> -> int, hash: int, ratio: nat, i: nat) {
    && g.blockSize == ratio * fine && (i + 1) * (ratio * fine) <= r.promptTokens && (i + 1) * ratio <= |r.hashes|
    && i * ratio <= (i + 1) * ratio
    && hash == if ratio == 1 then r.hashes[i * ratio] else combine(r.hashes[i * ratio..(i + 1) * ratio])
  }

  /** What is wanted, in numbers: the keys of the blocks that the prompt fills, in the groups that cache prefixes and
      whose blocks are a whole number of fine blocks. */
  lemma WantsExactly(r: Request, fine: nat, groups: seq<Group>, combine: seq<int> -> int, k: Key)
    requires fine > 0 && Sizes(groups)
    ensures Wants(r, fine, groups, combine, k) <==>
              && k.group < |groups| && groups[k.group].cacheable
              && exists ratio: nat, i: nat :: KeysBlock(r, fine, groups[k.group], combine, k.hash, ratio, i)
  {
    if Wants(r, fine, groups, combine, k) {
      var i: nat :| InPrompt(r, fine, groups[k.group], i) && KeyOf(r, fine, groups, k.group, i, combine) == k;
      var size := groups[k.group].blockSize;
      FullBlocks(r, fine, size, i);
      KeyNumbers(size, fine, i);
      assert KeysBlock(r, fine, groups[k.group], combine, k.hash, size / fine, i);
    } else if k.group < |groups| && groups[k.group].cacheable {
      forall ratio: nat, i: nat ensures !KeysBlock(r, fine, groups[k.group], combine, k.hash, ratio, i) {
        if KeysBlock(r, fine, groups[k.group], combine, k.hash, ratio, i) {
          BlockWanted(r, fine, groups, combine, k, ratio, i);
        }
      }
    }
  }

  lemma KeyNumbers(size: nat, fine: nat, i: nat)
    requires fine > 0 && size > 0 && size % fine == 0
    ensures size == size / fine * fine && i * (size / fine) <= (i + 1) * (size / fine)
  {
    Ordered(i, i + 1, size / fine);
  }

  lemma Ordered(a: nat, b: nat, k: nat)
    requires a <= b
    ensures a * k <= b * k
  {
  }

  lemma FullInPrompt(r: Request, fine: nat, g: Group, ratio: nat, i: nat)
    requires fine > 0 && g.blockSize > 0 && g.blockSize == ratio * fine
    requires (i + 1) * (ratio * fine) <= r.promptTokens && (i + 1) * ratio <= |r.hashes|
    ensures InPrompt(r, fine, g, i)
  {
    Scaled((i + 1) * ratio, |r.hashes|, fine);
    assert (i + 1) * (ratio * fine) == (i + 1) * ratio * fine;
  }

  lemma BlockWanted(r: Request, fine: nat, groups: seq<Group>, combine: seq<int> -> int, k: Key, ratio: nat, i: nat)
    requires fine > 0 && Sizes(groups) && k.group < |groups| && groups[k.group].cacheable
    requires KeysBlock(r, fine, groups[k.group], combine, k.hash, ratio, i)
    ensures Wants(r, fine, groups, combine, k)
  {
    var size := groups[k.group].blockSize;
    WholeRatio(size, ratio, fine);
    FullInPrompt(r, fine, groups[k.group], ratio, i);
    assert KeyOf(r, fine, groups, k.group, i, combine) == k;
  }

  lemma WholeRatio(size: nat, ratio: nat, fine: nat)
    requires fine > 0 && size == ratio * fine
    ensures size % fine == 0 && size / fine == ratio
  {
    var q, m := size / fine, size % fine;
    assert size == q * fine + m;
    if q < ratio { Ordered(q + 1, ratio, fine); } else if q > ratio { Ordered(ratio + 1, q, fine); }
  }

  /** The key of one of the first `n` blocks of the group. */
  ghost predicate AmongFirst(r: Request, fine: nat, groups: seq<Group>, gid: nat, combine: seq<int> -> int, n: nat,
                             k: Key)
    requires fine > 0 && Sizes(groups) && gid < |groups| && Pinnable(groups[gid], fine)
  {
    exists j: nat :: j < n && InPrompt(r, fine, groups[gid], j) && KeyOf(r, fine, groups, gid, j, combine) == k
  }

  lemma OneMoreKey(r: Request, fine: nat, groups: seq<Group>, gid: nat, combine: seq<int> -> int, n: nat, k: Key)
    requires fine > 0 && Sizes(groups) && gid < |groups| && Pinnable(groups[gid], fine)
    requires InPrompt(r, fine, groups[gid], n)
    ensures AmongFirst(r, fine, groups, gid, combine, n + 1, k) <==>
              AmongFirst(r, fine, groups, gid, combine, n, k) || k == KeyOf(r, fine, groups, gid, n, combine)
  {
  }

  lemma AllAmongFirst(r: Request, fine: nat, groups: seq<Group>, gid: nat, combine: seq<int> -> int, n: nat, k: Key)
    requires fine > 0 && Sizes(groups) && gid < |groups| && Pinnable(groups[gid], fine)
    requires forall j: nat | InPrompt(r, fine, groups[gid], j) :: j < n
    ensures k.group == gid && AmongFirst(r, fine, groups, gid, combine, n, k) <==>
              k.group == gid && Wants(r, fine, groups, combine, k)
  {
  }

  /** The keys of one group, and with them no others. */
  method GroupKeys(r: Request, fine: nat, groups: seq<Group>, gid: nat, combine: seq<int> -> int)
    returns (keys: set<Key>)
    requires fine > 0 && Sizes(groups) && gid < |groups|
    ensures forall k :: k in keys <==> k.group == gid && Wants(r, fine, groups, combine, k)
  {
    keys := {};
    var g := groups[gid];
    if !g.cacheable || g.blockSize % fine != 0 { return; }
    var n := FullCount(r, fine, g);
    var i := 0;
    while i < n
      invariant 0 <= i <= n
      invariant forall k :: k in keys <==> k.group == gid && AmongFirst(r, fine, groups, gid, combine, i, k)
    {
      var key := KeyOf(r, fine, groups, gid, i, combine);
      forall k
        ensures AmongFirst(r, fine, groups, gid, combine, i + 1, k) <==>
                  AmongFirst(r, fine, groups, gid, combine, i, k) || k == key
      {
        OneMoreKey(r, fine, groups, gid, combine, i, k);
      }
      keys := keys + {key};
      i := i + 1;
    }
    forall k: Key
      ensures k.group == gid && AmongFirst(r, fine, groups, gid, combine, n, k) <==>
                k.group == gid && Wants(r, fine, groups, combine, k)
    {
      AllAmongFirst(r, fine, groups, gid, combine, n, k);
    }
  }

  /** How many blocks of the group are full of prompt tokens and fully hashed. */
  method FullCount(r: Request, fine: nat, g: Group) returns (n: nat)
    requires fine > 0 && g.blockSize > 0 && Pinnable(g, fine)
    ensures forall i: nat :: InPrompt(r, fine, g, i) <==> i < n
  {
    RatioPositive(g.blockSize, fine);
    var known, full := |r.hashes| / (g.blockSize / fine), r.promptTokens / g.blockSize;
    n := if known <= full then known else full;
    forall i: nat ensures InPrompt(r, fine, g, i) <==> i < n { FullBelow(r, fine, g, i, known, full); }
  }

  // ---------------------------------------------------------------- re-arming

  class Scheduler {
    const pool: B.BlockPool
    const groups: seq<Group>
    const fine: nat
    const fraction: real
    var lastHashes: Option<set<Key>>

    predicate Configured() { fine > 0 && Sizes(groups) }

    constructor (pool: B.BlockPool, groups: seq<Group>, fine: nat, fraction: real)
      requires fine > 0 && Sizes(groups)
      ensures Configured() && this.pool == pool && lastHashes == None && this.fraction == fraction
      ensures this.groups == groups && this.fine == fine
    {
      this.pool, this.groups, this.fine, this.fraction, lastHashes := pool, groups, fine, fraction, None;
    }

    /** Pins the full prompt blocks of the request, all of them and nothing else, unless they are the ones armed
        last. */
    method Arm(r: Request, combine: seq<int> -> int) returns (ghost hashes: set<Key>)
      requires Configured() && Sized(pool.View())
      modifies this, pool
      ensures forall k :: k in hashes <==> Wants(r, fine, groups, combine, k)
      ensures lastHashes == Some(hashes)
      ensures pool.View() == if old(lastHashes) == Some(hashes) then old(pool.View())
                             else SetPinned(old(pool.View()), hashes, fraction)
      ensures State(lastHashes, pool.View()) == Rearm(old(State(lastHashes, pool.View())), hashes, fraction)
    {
      var wanted: set<Key> := {};
      var gid := 0;
      while gid < |groups|
        invariant 0 <= gid <= |groups| && lastHashes == old(lastHashes) && pool.View() == old(pool.View())
        invariant forall k :: k in wanted <==> k.group < gid && Wants(r, fine, groups, combine, k)
      {
        var keys := GroupKeys(r, fine, groups, gid, combine);
        wanted := wanted + keys;
        gid := gid + 1;
      }
      hashes := wanted;
      if Some(wanted) == lastHashes { return; }
      lastHashes := Some(wanted);
      var _ := pool.SetPinnedHashes(wanted, fraction);
    }
  }

  /** What the scheduler remembers, and the pool. */
  datatype State = State(last: Option<set<Key>>, pool: Pool)

  function Rearm(s: State, hashes: set<Key>, fraction: real): State
    requires Sized(s.pool)
  {
    if Some(hashes) == s.last then s else State(Some(hashes), SetPinned(s.pool, hashes, fraction))
  }

  /** Requests that carry the marker re-arm; everything else is traffic or a reset of the pool. */
  datatype Event = Marked(hashes: set<Key>) | OnPool(op: Op)

  ghost predicate Possible(s: State, e: Event)
    requires Sized(s.pool)
  {
    e.Marked? || (Enabled(s.pool, e.op) && !e.op.Arm?)
  }

  ghost function Next(s: State, e: Event, fraction: real): State
    requires Sized(s.pool) && Possible(s, e)
  {
    match e
    case Marked(hashes) => Rearm(s, hashes, fraction)
    case OnPool(op) => s.(pool := Apply(s.pool, op))
  }

  ghost predicate History(s: State, events: seq<Event>, fraction: real)
    decreases |events|
  {
    && Sized(s.pool)
    && (events != [] ==> Possible(s, events[0]) && History(Next(s, events[0], fraction), events[1..], fraction))
  }

  ghost function After(s: State, events: seq<Event>, fraction: real): State
    requires History(s, events, fraction)
    decreases |events|
  {
    if events == [] then s else After(Next(s, events[0], fraction), events[1..], fraction)
  }

  /** Whether the pool was reset since the scheduler last armed it. */
  ghost function Stale(s: State, events: seq<Event>, fraction: real, stale: bool): bool
    requires History(s, events, fraction)
    decreases |events|
  {
    if events == [] then stale
    else
      var e := events[0];
      var now := if e.OnPool? then stale || e.op.Clear? else stale && Some(e.hashes) == s.last;
      Stale(Next(s, e, fraction), events[1..], fraction, now)
  }

  /** What the scheduler remembers is what the pool pins, until the pool is reset behind its back. */
  ghost predicate Remembers(s: State, fraction: real, stale: bool) {
    && Valid(s.pool)
    && (s.last.Some? && !stale ==> s.pool.pinned == s.last.value && s.pool.cap == CapOf(s.pool.num, fraction))
    && (stale || s.last.None? ==> s.pool.pinned == {})
  }

  lemma TrafficKeepsPin(p: Pool, op: Op)
    requires Valid(p) && Enabled(p, op) && Traffic(op)
    ensures Apply(p, op).pinned == p.pinned && Apply(p, op).cap == p.cap && Apply(p, op).num == p.num
  {
    match op
    case Alloc(n) => if n <= |p.free| { AllocateIs(p, n); }
    case Use(blocks) => TouchKeepsValid(p, blocks);
    case Return(blocks) => FreeKeepsCap(p, blocks);
    case Hash(b, h) =>
  }

  lemma FreeKeepsCap(p: Pool, blocks: seq<nat>)
    requires |p.refCnt| == |p.hash| && Below(blocks, |p.refCnt|)
    ensures var q := Free(p, blocks); q.cap == p.cap && q.pinned == p.pinned && q.num == p.num
  {
    var q := ReleaseAll(p, blocks);
    var first := Idle(q, blocks, false);
    ClaimGrows(q, first);
    ClaimGrows(Claim(q, first).0, Idle(q, blocks, true));
  }

  lemma NextRemembers(s: State, e: Event, fraction: real, stale: bool)
    requires Remembers(s, fraction, stale) && Possible(s, e)
    ensures Remembers(Next(s, e, fraction), fraction,
                      if e.OnPool? then stale || e.op.Clear? else stale && Some(e.hashes) == s.last)
  {
    match e
    case Marked(hashes) => SetPinnedKeepsValid(s.pool, hashes, fraction);
    case OnPool(op) =>
      ApplyKeepsValid(s.pool, op);
      if op.Clear? { ResetOnlyBlockedByUse(s.pool); } else { TrafficKeepsPin(s.pool, op); }
  }

  lemma {:induction false} HistoryRemembers(s: State, events: seq<Event>, fraction: real, stale: bool)
    requires Remembers(s, fraction, stale) && History(s, events, fraction)
    ensures Remembers(After(s, events, fraction), fraction, Stale(s, events, fraction, stale))
    decreases |events|
  {
    if events != [] {
      var e := events[0];
      NextRemembers(s, e, fraction, stale);
      HistoryRemembers(Next(s, e, fraction), events[1..], fraction,
                       if e.OnPool? then stale || e.op.Clear? else stale && Some(e.hashes) == s.last);
    }
  }

  /** In every reachable state, a request whose keys were armed last is skipped; the skip leaves the pool pinning
      exactly those keys if and only if the pool was not reset since, or there is nothing to pin. Without a reset
      the skipped call would have changed nothing at all. */
  lemma SkippedReArm(num: nat, events: seq<Event>, fraction: real, hashes: set<Key>)
    requires num > 0 && History(State(None, Initial(num)), events, fraction)
    requires After(State(None, Initial(num)), events, fraction).last == Some(hashes)
    ensures var s := After(State(None, Initial(num)), events, fraction);
            var stale := Stale(State(None, Initial(num)), events, fraction, false);
            && Sized(s.pool) && Rearm(s, hashes, fraction) == s
            && (s.pool.pinned == hashes <==> !stale || hashes == {})
            && (!stale ==> SetPinned(s.pool, hashes, fraction) == s.pool)
  {
    InitialValid(num);
    HistoryRemembers(State(None, Initial(num)), events, fraction, false);
  }

  lemma HistoryCons(s: State, e: Event, rest: seq<Event>, fraction: real)
    requires Sized(s.pool) && Possible(s, e) && History(Next(s, e, fraction), rest, fraction)
    ensures History(s, [e] + rest, fraction)
    ensures After(s, [e] + rest, fraction) == After(Next(s, e, fraction), rest, fraction)
  {
    assert ([e] + rest)[1..] == rest;
  }

  /** Arm, reset, same request again: the scheduler skips, and nothing is pinned. */
  lemma ResetThenSkip(num: nat, k: Key, fraction: real)
    requires num > 0
    ensures var s, events := State(None, Initial(num)), [Marked({k})] + ([OnPool(Clear)] + ([Marked({k})] + []));
            && History(s, events, fraction)
            && After(s, events, fraction).last == Some({k}) && After(s, events, fraction).pool.pinned == {}
  {
    var s := State(None, Initial(num));
    InitialValid(num);
    NextRemembers(s, Marked({k}), fraction, false);
    var armed := Next(s, Marked({k}), fraction);
    NextRemembers(armed, OnPool(Clear), fraction, false);
    var cleared := Next(armed, OnPool(Clear), fraction);
    assert Next(cleared, Marked({k}), fraction) == cleared;
    HistoryCons(cleared, Marked({k}), [], fraction);
    HistoryCons(armed, OnPool(Clear), [Marked({k})] + [], fraction);
    HistoryCons(s, Marked({k}), [OnPool(Clear)] + ([Marked({k})] + []), fraction);
  }
}
