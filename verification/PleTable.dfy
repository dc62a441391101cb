/** The row table split into shard files, and the ways to gather rows from it. */
module PleTable {

  datatype Option<T> = None | Some(value: T)

  /** The bytes of one row. */
  type Byte = x: int | 0 <= x < 256

  type Row = seq<Byte>

  /** Shard `s` holds the rows from `s * shardSize` on; a shard can be missing or short. */
  datatype Table = Table(shardSize: nat, mm: seq<Option<seq<Row>>>, fastRows: nat, chunk: nat)

  predicate Usable(t: Table) { t.shardSize > 0 && t.chunk > 0 }

  /** Row `local` of shard `shard`; none if the shard is missing or too short. */
  function Cell(t: Table, shard: int, local: int): Option<Row> {
    if !(0 <= shard < |t.mm|) || t.mm[shard].None? then None
    else
      var rows := t.mm[shard].value;
      if 0 <= local < |rows| then Some(rows[local]) else None
  }

  /** The row with this global id; none if the id is out of range, its shard missing or the shard too short. */
  function Lookup(t: Table, id: int): Option<Row>
    requires Usable(t)
  {
    if id < 0 then None else Cell(t, id / t.shardSize, id % t.shardSize)
  }

  predicate HasAll(t: Table, ids: seq<int>)
    requires Usable(t)
  {
    forall i | 0 <= i < |ids| :: Lookup(t, ids[i]).Some?
  }

  /** Row by row indexing; an error if any id has no row. */
  function LookupAll(t: Table, ids: seq<int>): Option<seq<Row>>
    requires Usable(t)
  {
    if HasAll(t, ids) then Some(seq(|ids|, i requires 0 <= i < |ids| => Lookup(t, ids[i]).value)) else None
  }

  /** The range test of the gather, on an id. */
  predicate InRange(t: Table, id: int) { 0 <= id < t.shardSize * |t.mm| }

  lemma RangeTest(t: Table, id: int)
    requires Usable(t)
    ensures InRange(t, id) <==> 0 <= id && id / t.shardSize < |t.mm|
    ensures id - id / t.shardSize * t.shardSize == id % t.shardSize
  {
    var q := id / t.shardSize;
    assert id == q * t.shardSize + id % t.shardSize;
    if q < |t.mm| {
      Ordered(q + 1, |t.mm|, t.shardSize);
    } else {
      Ordered(|t.mm|, q, t.shardSize);
    }
  }

  lemma Ordered(a: int, b: int, k: nat)
    requires a <= b
    ensures a * k <= b * k
  {
  }

  // ---------------------------------------------------------------- sorted sets of ids

  predicate Ascending(s: seq<int>) { forall i, j | 0 <= i < j < |s| :: s[i] < s[j] }

  function Insert(s: seq<int>, x: int): seq<int> {
    if s == [] || x < s[0] then [x] + s else if s[0] == x then s else [s[0]] + Insert(s[1..], x)
  }

  /** The distinct values, ascending. */
  function Unique(s: seq<int>): seq<int> {
    if s == [] then [] else Insert(Unique(s[1..]), s[0])
  }

  lemma {:induction false} InsertFacts(s: seq<int>, x: int)
    requires Ascending(s)
    ensures Ascending(Insert(s, x)) && forall y :: y in Insert(s, x) <==> y == x || y in s
  {
    if s != [] && s[0] < x {
      var tail := s[1..];
      InsertFacts(tail, x);
      var r := Insert(tail, x);
      assert s == [s[0]] + tail;
      forall i | 0 <= i < |r| ensures s[0] < r[i] {
        assert r[i] in r;
      }
    } else if s != [] && s[0] == x {
      assert x in s;
    } else {
      assert [x] + s == Insert(s, x);
    }
  }

  lemma {:induction false} UniqueFacts(s: seq<int>)
    ensures Ascending(Unique(s)) && forall y :: y in Unique(s) <==> y in s
  {
    if s != [] {
      UniqueFacts(s[1..]);
      InsertFacts(Unique(s[1..]), s[0]);
      assert s == [s[0]] + s[1..];
    }
  }

  function Position(s: seq<int>, x: int): (p: nat)
    requires x in s
    ensures p < |s| && s[p] == x
  {
    if s[0] == x then 0 else Position(s[1..], x) + 1
  }

  /** The distinct ids and, for each input position, where its id went. */
  method NpUnique(ids: seq<int>) returns (uniq: seq<int>, inverse: seq<nat>)
    ensures uniq == Unique(ids) && Ascending(uniq)
    ensures |inverse| == |ids| && forall i | 0 <= i < |ids| :: inverse[i] < |uniq| && uniq[inverse[i]] == ids[i]
  {
    uniq := Unique(ids);
    UniqueFacts(ids);
    inverse := [];
    for i := 0 to |ids|
      invariant |inverse| == i && forall j | 0 <= j < i :: inverse[j] < |uniq| && uniq[inverse[j]] == ids[j]
    {
      inverse := inverse + [Position(uniq, ids[i])];
    }
  }

  /** Gathering the distinct ids and expanding is gathering. */
  lemma UniqueHasAll(t: Table, ids: seq<int>)
    requires Usable(t)
    ensures HasAll(t, ids) <==> HasAll(t, Unique(ids))
  {
    var u := Unique(ids);
    UniqueFacts(ids);
    if HasAll(t, ids) {
      forall i | 0 <= i < |u| ensures Lookup(t, u[i]).Some? {
        assert u[i] in u && u[i] in ids;
      }
    }
    if HasAll(t, u) {
      forall i | 0 <= i < |ids| ensures Lookup(t, ids[i]).Some? {
        assert ids[i] in ids && ids[i] in u;
      }
    }
  }

  /** The gathered rows, expanded to the positions their ids came from. */
  function Expand(rows: Option<seq<Row>>, inverse: seq<nat>): Option<seq<Row>>
    requires rows.Some? ==> forall i | 0 <= i < |inverse| :: inverse[i] < |rows.value|
  {
    if rows.None? then None else Some(seq(|inverse|, i requires 0 <= i < |inverse| => rows.value[inverse[i]]))
  }

  /** Gathering the distinct ids and expanding is gathering. */
  lemma ExpandUnique(t: Table, ids: seq<int>, uniq: seq<int>, inverse: seq<nat>)
    requires Usable(t) && uniq == Unique(ids) && |inverse| == |ids|
    requires forall i | 0 <= i < |ids| :: inverse[i] < |uniq| && uniq[inverse[i]] == ids[i]
    ensures Expand(LookupAll(t, uniq), inverse) == LookupAll(t, ids)
  {
    UniqueHasAll(t, ids);
    if HasAll(t, ids) {
      var rows := LookupAll(t, uniq);
      forall i | 0 <= i < |ids| ensures rows.value[inverse[i]] == LookupAll(t, ids).value[i] { }
      assert Expand(rows, inverse).value == LookupAll(t, ids).value;
    }
  }

  // ---------------------------------------------------------------- shard and row within the shard

  /** What indexing gives, from the shard and the local row of each position. */
  function CellAll(t: Table, shard: seq<int>, local: seq<int>): Option<seq<Row>>
    requires |shard| == |local|
  {
    if forall i | 0 <= i < |shard| :: Cell(t, shard[i], local[i]).Some?
    then Some(seq(|shard|, i requires 0 <= i < |shard| => Cell(t, shard[i], local[i]).value)) else None
  }

  function Shards(t: Table, ids: seq<int>): (r: seq<int>)
    requires Usable(t)
    ensures |r| == |ids|
  {
    seq(|ids|, i requires 0 <= i < |ids| => ids[i] / t.shardSize)
  }

  function Locals(t: Table, ids: seq<int>, shard: seq<int>): (r: seq<int>)
    requires |shard| == |ids|
    ensures |r| == |ids|
  {
    seq(|ids|, i requires 0 <= i < |ids| => ids[i] - shard[i] * t.shardSize)
  }

  predicate AllInRange(t: Table, ids: seq<int>) { forall i | 0 <= i < |ids| :: InRange(t, ids[i]) }

  predicate OfTable(t: Table, shard: seq<int>) { forall i | 0 <= i < |shard| :: 0 <= shard[i] < |t.mm| }

  lemma LocatedCell(t: Table, id: int)
    requires Usable(t) && InRange(t, id)
    ensures Lookup(t, id) == Cell(t, id / t.shardSize, id - id / t.shardSize * t.shardSize)
    ensures 0 <= id / t.shardSize < |t.mm|
  {
    RangeTest(t, id);
  }

  lemma LocateAll(t: Table, ids: seq<int>)
    requires Usable(t) && AllInRange(t, ids)
    ensures var shard := Shards(t, ids);
            OfTable(t, shard) && CellAll(t, shard, Locals(t, ids, shard)) == LookupAll(t, ids)
  {
    var shard := Shards(t, ids);
    var local := Locals(t, ids, shard);
    forall i | 0 <= i < |ids| ensures Lookup(t, ids[i]) == Cell(t, shard[i], local[i]) && 0 <= shard[i] < |t.mm| {
      LocatedCell(t, ids[i]);
    }
    if HasAll(t, ids) {
      assert CellAll(t, shard, local).value == LookupAll(t, ids).value;
    }
  }

  lemma NotAllInRange(t: Table, ids: seq<int>, i: nat)
    requires Usable(t) && i < |ids| && !InRange(t, ids[i])
    ensures LookupAll(t, ids) == None
  {
    RangeTest(t, ids[i]);
    assert Lookup(t, ids[i]).None?;
  }

  // ---------------------------------------------------------------- small batches, inline

  /** Fills `out` shard by shard, each shard through a mask. */
  method FillByShard(t: Table, shard: seq<int>, local: seq<int>) returns (r: Option<seq<Row>>)
    requires |shard| == |local| && OfTable(t, shard) && forall i | 0 <= i < |local| :: local[i] >= 0
    ensures r == CellAll(t, shard, local)
  {
    var parts := Unique(shard);
    UniqueFacts(shard);
    var out := new Row[|shard|];
    for k := 0 to |parts|
      invariant forall i | 0 <= i < |shard| && shard[i] in parts[..k] :: Cell(t, shard[i], local[i]) == Some(out[i])
    {
      var si := parts[k];
      assert parts[..k + 1] == parts[..k] + [si];
      assert si in parts && si in shard;
      if t.mm[si].None? {
        ghost var w :| 0 <= w < |shard| && shard[w] == si;
        assert Cell(t, shard[w], local[w]).None?;
        return None;
      }
      var rows := t.mm[si].value;
      if w :| 0 <= w < |shard| && shard[w] == si && local[w] >= |rows| {
        assert Cell(t, shard[w], local[w]).None?;
        return None;
      }
      forall i | 0 <= i < |shard| && shard[i] == si {
        out[i] := rows[local[i]];
      }
    }
    assert parts[..|parts|] == parts;
    forall i | 0 <= i < |shard| ensures Cell(t, shard[i], local[i]) == Some(out[i]) {
      assert shard[i] in shard;
    }
    assert CellAll(t, shard, local).value == out[..];
    r := Some(out[..]);
  }

  lemma LocalsNonNegative(t: Table, ids: seq<int>)
    requires Usable(t)
    ensures var local := Locals(t, ids, Shards(t, ids)); forall i | 0 <= i < |local| :: local[i] >= 0
  {
    forall i | 0 <= i < |ids| ensures ids[i] - ids[i] / t.shardSize * t.shardSize >= 0 {
      RangeTest(t, ids[i]);
    }
  }

  method GatherInline(t: Table, ids: seq<int>) returns (r: Option<seq<Row>>)
    requires Usable(t)
    ensures r == LookupAll(t, ids)
  {
    if i :| 0 <= i < |ids| && !InRange(t, ids[i]) {
      NotAllInRange(t, ids, i);
      return None;
    }
    LocateAll(t, ids);
    LocalsNonNegative(t, ids);
    var shard := Shards(t, ids);
    r := FillByShard(t, shard, Locals(t, ids, shard));
  }

  // ---------------------------------------------------------------- large batches, as tasks

  /** Copy the rows at the positions from `a` to `b`, all from one shard. */
  datatype Task = Task(shard: int, a: nat, b: nat)

  /** The tasks tile the positions, in order, and none crosses a shard. */
  ghost predicate Tiles(tasks: seq<Task>, shard: seq<int>, upTo: nat) {
    && upTo == Done(tasks, |tasks|) <= |shard|
    && (forall k | 0 <= k < |tasks| :: OneShard(tasks[k], shard))
    && (forall k: nat | k < |tasks| :: Follows(tasks, k))
  }

  /** Where the first `k` tasks end. */
  function Done(tasks: seq<Task>, k: nat): nat
    requires k <= |tasks|
  {
    if k == 0 then 0 else tasks[k - 1].b
  }

  predicate Follows(tasks: seq<Task>, k: nat)
    requires k < |tasks|
  {
    tasks[k].a == Done(tasks, k)
  }

  predicate OneShard(k: Task, shard: seq<int>) {
    k.a < k.b <= |shard| && forall p | k.a <= p < k.b :: shard[p] == k.shard
  }

  lemma TilesSnoc(tasks: seq<Task>, shard: seq<int>, upTo: nat, k: Task)
    requires Tiles(tasks, shard, upTo) && k.a == upTo && OneShard(k, shard)
    ensures Tiles(tasks + [k], shard, k.b)
  {
    var more := tasks + [k];
    forall j: nat | j < |more| ensures Follows(more, j) {
      if j < |tasks| { assert Follows(tasks, j); }
    }
  }

  lemma TilesInit(tasks: seq<Task>, shard: seq<int>, upTo: nat)
    requires Tiles(tasks, shard, upTo) && tasks != []
    ensures var n := |tasks| - 1; tasks[n].b == upTo && tasks[n].a < upTo && Tiles(tasks[..n], shard, tasks[n].a)
  {
    var n := |tasks| - 1;
    assert Follows(tasks, n) && OneShard(tasks[n], shard);
    forall j: nat | j < n ensures Follows(tasks[..n], j) {
      assert Follows(tasks, j);
    }
  }

  /** The positions where the shard changes. */
  method Changes(shard: seq<int>) returns (bounds: seq<nat>)
    ensures forall p | 0 < p < |shard| :: p in bounds <==> shard[p] != shard[p - 1]
    ensures forall k | 0 <= k < |bounds| :: 0 < bounds[k] < |shard|
    ensures forall j, k | 0 <= j < k < |bounds| :: bounds[j] < bounds[k]
  {
    bounds := [];
    var p := 1;
    while p < |shard|
      invariant 1 <= p
      invariant forall q | 0 < q < p && q < |shard| :: q in bounds <==> shard[q] != shard[q - 1]
      invariant forall k | 0 <= k < |bounds| :: 0 < bounds[k] < p && bounds[k] < |shard|
      invariant forall j, k | 0 <= j < k < |bounds| :: bounds[j] < bounds[k]
    {
      if shard[p] != shard[p - 1] { bounds := bounds + [p]; }
      p := p + 1;
    }
  }

  /** Between two neighbouring changes the shard stays the same. */
  lemma {:induction false} SameShard(shard: seq<int>, bounds: seq<nat>, s: nat, p: nat)
    requires s <= p < |shard| && forall q | s < q <= p :: q !in bounds
    requires forall q | 0 < q < |shard| :: q in bounds <==> shard[q] != shard[q - 1]
    ensures shard[p] == shard[s]
    decreases p - s
  {
    if s < p { SameShard(shard, bounds, s, p - 1); }
  }

  /** Cuts one run of a shard into tasks of at most `chunk` rows. */
  method CutRun(before: seq<Task>, shard: seq<int>, s: nat, e: nat, chunk: nat) returns (tasks: seq<Task>)
    requires chunk > 0 && s < e <= |shard| && Tiles(before, shard, s) && forall p | s <= p < e :: shard[p] == shard[s]
    ensures Tiles(tasks, shard, e)
  {
    tasks := before;
    var c := s;
    while c < e
      invariant s <= c && Tiles(tasks, shard, if c < e then c else e)
      decreases e - c
    {
      var task := Task(shard[s], c, if c + chunk < e then c + chunk else e);
      TilesSnoc(tasks, shard, c, task);
      tasks := tasks + [task];
      c := c + chunk;
    }
  }

  method BuildTasks(shard: seq<int>, chunk: nat) returns (tasks: seq<Task>)
    requires shard != [] && chunk > 0
    ensures Tiles(tasks, shard, |shard|)
  {
    var bounds := Changes(shard);
    var starts, ends := [0] + bounds, bounds + [|shard|];
    tasks := [];
    for k := 0 to |ends|
      invariant Tiles(tasks, shard, if k < |ends| then starts[k] else |shard|)
    {
      var s, e := starts[k], ends[k];
      forall p | s <= p < e ensures shard[p] == shard[s] {
        forall q | s < q <= p ensures q !in bounds {
          forall j | 0 <= j < |bounds| ensures bounds[j] != q {
            assert bounds[j] == starts[j + 1];
          }
        }
        SameShard(shard, bounds, s, p);
      }
      tasks := CutRun(tasks, shard, s, e, chunk);
    }
  }

  /** Every position belongs to exactly one task. */
  lemma {:induction false} TileAt(tasks: seq<Task>, shard: seq<int>, upTo: nat, p: nat) returns (k: nat)
    requires Tiles(tasks, shard, upTo) && p < upTo
    ensures k < |tasks| && tasks[k].a <= p < tasks[k].b
    ensures forall j | 0 <= j < |tasks| && tasks[j].a <= p < tasks[j].b :: j == k
  {
    var n := |tasks| - 1;
    TilesInit(tasks, shard, upTo);
    if p >= tasks[n].a {
      k := n;
    } else {
      k := TileAt(tasks[..n], shard, tasks[n].a, p);
    }
    TasksApart(tasks, shard, upTo);
  }

  lemma {:induction false} TasksApart(tasks: seq<Task>, shard: seq<int>, upTo: nat)
    requires Tiles(tasks, shard, upTo)
    ensures forall j, k | 0 <= j < k < |tasks| :: tasks[j].b <= tasks[k].a
    ensures forall j | 0 <= j < |tasks| :: tasks[j].b <= upTo
    decreases |tasks|
  {
    if tasks != [] {
      var n := |tasks| - 1;
      TilesInit(tasks, shard, upTo);
      TasksApart(tasks[..n], shard, tasks[n].a);
      forall j | 0 <= j < n ensures tasks[j].b <= tasks[n].a {
        assert tasks[..n][j] == tasks[j];
      }
      forall j, k | 0 <= j < k < |tasks| ensures tasks[j].b <= tasks[k].a {
        if k < n { assert tasks[..n][j].b <= tasks[..n][k].a; }
      }
    }
  }

  /** Where a list index leads: a negative one counts from the end. */
  function MmIndex(t: Table, shard: int): int { if shard < 0 then shard + |t.mm| else shard }

  function MmIndices(t: Table, shard: seq<int>): (r: seq<int>)
    ensures |r| == |shard| && forall p | 0 <= p < |r| :: r[p] == MmIndex(t, shard[p])
  {
    seq(|shard|, p requires 0 <= p < |shard| => MmIndex(t, shard[p]))
  }

  /** A task raises when its shard is missing or one of its rows lies beyond the shard. */
  predicate TaskOk(t: Table, local: seq<int>, k: Task)
    requires k.b <= |local|
  {
    var m := MmIndex(t, k.shard);
    0 <= m < |t.mm| && t.mm[m].Some? && forall p | k.a <= p < k.b :: 0 <= local[p] < |t.mm[m].value|
  }

  method RunTask(t: Table, local: seq<int>, k: Task, out: array<Row>) returns (ok: bool)
    requires k.b <= |local| == out.Length && forall p | 0 <= p < |local| :: local[p] >= 0
    modifies out
    ensures ok == TaskOk(t, local, k)
    ensures forall p | 0 <= p < out.Length :: out[p] ==
              if ok && k.a <= p < k.b then t.mm[MmIndex(t, k.shard)].value[local[p]] else old(out[p])
  {
    var m := if k.shard < 0 then k.shard + |t.mm| else k.shard;
    if m < 0 || m >= |t.mm| || t.mm[m].None? { return false; }
    var rows := t.mm[m].value;
    if p :| k.a <= p < k.b && local[p] >= |rows| { return false; }
    forall p | k.a <= p < k.b {
      out[p] := rows[local[p]];
    }
    return true;
  }

  lemma TaskFails(t: Table, shard: seq<int>, local: seq<int>, k: Task)
    requires |shard| == |local| && OneShard(k, shard) && !TaskOk(t, local, k)
    ensures CellAll(t, MmIndices(t, shard), local) == None
  {
    var m := MmIndex(t, k.shard);
    var p := if 0 <= m < |t.mm| && t.mm[m].Some? then
               (var p :| k.a <= p < k.b && !(0 <= local[p] < |t.mm[m].value|); p) else k.a;
    assert shard[p] == k.shard;
    assert Cell(t, MmIndices(t, shard)[p], local[p]).None?;
  }

  method FillByTasks(t: Table, shard: seq<int>, local: seq<int>, tasks: seq<Task>) returns (r: Option<seq<Row>>)
    requires |shard| == |local| && Tiles(tasks, shard, |shard|) && forall p | 0 <= p < |local| :: local[p] >= 0
    ensures r == CellAll(t, MmIndices(t, shard), local)
  {
    ghost var at := MmIndices(t, shard);
    var out := new Row[|shard|];
    for k := 0 to |tasks|
      invariant Done(tasks, k) <= |shard|
      invariant forall p | 0 <= p < Done(tasks, k) :: Cell(t, at[p], local[p]) == Some(out[p])
    {
      assert OneShard(tasks[k], shard) && Follows(tasks, k) && shard[tasks[k].a] == tasks[k].shard;
      var ok := RunTask(t, local, tasks[k], out);
      if !ok {
        TaskFails(t, shard, local, tasks[k]);
        return None;
      }
    }
    assert CellAll(t, at, local).value == out[..];
    r := Some(out[..]);
  }

  /** What the tasks give for ids taken as they come: the range test looks at the first and the last only, and below
      it a negative id picks a row from the end of the table. */
  function GatherAsIs(t: Table, ids: seq<int>): Option<seq<Row>>
    requires Usable(t) && ids != []
  {
    if ids[0] < 0 || ids[|ids| - 1] >= t.shardSize * |t.mm| then None
    else CellAll(t, MmIndices(t, Shards(t, ids)), Locals(t, ids, Shards(t, ids)))
  }

  lemma AsIsCell(t: Table, id: int)
    requires Usable(t)
    ensures Lookup(t, id) == if id < 0 then None
                             else Cell(t, MmIndex(t, id / t.shardSize), id - id / t.shardSize * t.shardSize)
  {
    RangeTest(t, id);
  }

  /** It errs only where row by row indexing errs; and when it answers, the answer is that of row by row indexing if
      and only if no id is negative. */
  lemma AsIsRightIff(t: Table, ids: seq<int>)
    requires Usable(t) && ids != []
    ensures GatherAsIs(t, ids).None? ==> LookupAll(t, ids).None?
    ensures GatherAsIs(t, ids).Some? ==>
              (GatherAsIs(t, ids) == LookupAll(t, ids) <==> forall i | 0 <= i < |ids| :: ids[i] >= 0)
  {
    var last := |ids| - 1;
    RangeTest(t, ids[last]);
    forall i | 0 <= i < |ids|
      ensures Lookup(t, ids[i]) == if ids[i] < 0 then None
                else Cell(t, MmIndices(t, Shards(t, ids))[i], Locals(t, ids, Shards(t, ids))[i])
    {
      AsIsCell(t, ids[i]);
    }
    if GatherAsIs(t, ids).None? {
      if ids[0] < 0 { assert Lookup(t, ids[0]).None?; }
      if ids[last] >= t.shardSize * |t.mm| { assert Lookup(t, ids[last]).None?; }
    } else if HasAll(t, ids) {
      assert GatherAsIs(t, ids).value == LookupAll(t, ids).value;
    }
  }

  /** A table of two rows and three ids, the middle one negative: the tasks answer with the last row. */
  lemma AsIsCanMisread() returns (t: Table, ids: seq<int>)
    ensures Usable(t) && ids == [0, -1, 1] && LookupAll(t, ids) == None
    ensures GatherAsIs(t, ids) == Some([[0], [1], [1]])
  {
    t, ids := Table(2, [Some([[0], [1]])], 0, 1), [0, -1, 1];
    var shard := Shards(t, ids);
    assert shard == [0, -1, 0];
    assert Locals(t, ids, shard) == [0, 1, 1] && MmIndices(t, shard) == [0, 0, 0];
    assert Cell(t, 0, 0) == Some([0]) && Cell(t, 0, 1) == Some([1]);
    assert GatherAsIs(t, ids).Some? && GatherAsIs(t, ids).value == [[0], [1], [1]];
    assert Lookup(t, ids[1]).None?;
  }

  lemma AscendingAsIs(t: Table, ids: seq<int>)
    requires Usable(t) && ids != [] && Ascending(ids)
    ensures GatherAsIs(t, ids) == LookupAll(t, ids)
  {
    AsIsRightIff(t, ids);
    if GatherAsIs(t, ids).Some? {
      forall i | 0 <= i < |ids| ensures ids[i] >= 0 { assert i > 0 ==> ids[0] < ids[i]; }
    }
  }

  /** Gathers ids in the given order by tasks, each confined to one shard. */
  method GatherTasks(t: Table, uniq: seq<int>) returns (r: Option<seq<Row>>)
    requires Usable(t) && uniq != []
    ensures r == GatherAsIs(t, uniq)
    ensures Ascending(uniq) ==> r == LookupAll(t, uniq)
  {
    if Ascending(uniq) { AscendingAsIs(t, uniq); }
    if uniq[0] < 0 || uniq[|uniq| - 1] >= t.shardSize * |t.mm| {
      return None;
    }
    LocalsNonNegative(t, uniq);
    var shard := Shards(t, uniq);
    var tasks := BuildTasks(shard, t.chunk);
    r := FillByTasks(t, shard, Locals(t, uniq, shard), tasks);
  }

  /** However the ids are handled, a gather is row by row indexing, unless the batch is large, claimed to be distinct
      and not ascending; then it is taken as it comes. */
  method Gather(t: Table, ids: seq<int>, alreadyUnique: bool) returns (r: Option<seq<Row>>)
    requires Usable(t)
    ensures |ids| <= t.fastRows || !alreadyUnique || Ascending(ids) ==> r == LookupAll(t, ids)
    ensures |ids| > t.fastRows && alreadyUnique ==> r == GatherAsIs(t, ids)
  {
    if ids == [] {
      assert LookupAll(t, ids).value == [];
      return Some([]);
    }
    if |ids| <= t.fastRows {
      r := GatherInline(t, ids);
      return;
    }
    if alreadyUnique {
      r := GatherTasks(t, ids);
      return;
    }
    var uniq, inverse := NpUnique(ids);
    UniqueFacts(ids);
    assert ids[0] in ids && ids[0] in uniq;
    ExpandUnique(t, ids, uniq, inverse);
    var rows := GatherTasks(t, uniq);
    r := Expand(rows, inverse);
  }

  /** The embedding's forward pass: distinct ids, one gather, expansion. */
  method Forward(t: Table, ids: seq<int>) returns (r: Option<seq<Row>>)
    requires Usable(t)
    ensures r == LookupAll(t, ids)
  {
    var uniq, inverse := NpUnique(ids);
    ExpandUnique(t, ids, uniq, inverse);
    var rows := Gather(t, uniq, true);
    r := Expand(rows, inverse);
  }

  // ---------------------------------------------------------------- the pool may run the tasks in any order

  /** How far each task has copied, the output so far, and the tasks that have raised. */
  datatype Progress = Progress(out: seq<Row>, copied: seq<nat>, raised: set<nat>)

  ghost predicate Started(s: Progress, tasks: seq<Task>, n: nat) {
    |s.out| == n && |s.copied| == |tasks| && s.raised == {} && forall k | 0 <= k < |tasks| :: s.copied[k] == 0
  }

  /** Some worker copies the next row of its task, or its task raises; the others go on. */
  ghost predicate Step(t: Table, local: seq<int>, tasks: seq<Task>, s: Progress, s': Progress, k: nat) {
    && k < |tasks| == |s.copied| && tasks[k].a + s.copied[k] < tasks[k].b <= |local| == |s.out| && k !in s.raised
    && if TaskOk(t, local, tasks[k]) then
         var p := tasks[k].a + s.copied[k];
         s' == s.(out := s.out[p := t.mm[MmIndex(t, tasks[k].shard)].value[local[p]]],
                  copied := s.copied[k := s.copied[k] + 1])
       else s' == s.(raised := s.raised + {k})
  }

  ghost predicate Executes(t: Table, local: seq<int>, tasks: seq<Task>, states: seq<Progress>, picks: seq<nat>) {
    && |states| == |picks| + 1
    && forall i | 0 <= i < |picks| :: Step(t, local, tasks, states[i], states[i + 1], picks[i])
  }

  /** What has been copied is right, and whatever has raised had to. */
  ghost predicate CopiedSoFar(t: Table, shard: seq<int>, local: seq<int>, tasks: seq<Task>, s: Progress)
    requires |shard| == |local|
  {
    && |s.out| == |local| && |s.copied| == |tasks|
    && (forall k | k in s.raised :: k < |tasks| && tasks[k].b <= |local| && !TaskOk(t, local, tasks[k]))
    && forall k, p | 0 <= k < |tasks| && tasks[k].a <= p < tasks[k].a + s.copied[k] && p < |local| ::
         Cell(t, MmIndices(t, shard)[p], local[p]) == Some(s.out[p])
  }

  /** Every task has copied its last row or raised. */
  ghost predicate Finished(tasks: seq<Task>, s: Progress) {
    |s.copied| == |tasks| && forall k: nat | k < |tasks| :: TaskOver(tasks, s, k)
  }

  predicate TaskOver(tasks: seq<Task>, s: Progress, k: nat)
    requires k < |tasks| == |s.copied|
  {
    k in s.raised || tasks[k].a + s.copied[k] >= tasks[k].b
  }

  /** Until every task has copied its last row or raised, some worker can go on. */
  lemma WorkersGoOn(t: Table, shard: seq<int>, local: seq<int>, tasks: seq<Task>, s: Progress)
    requires |shard| == |local| && (forall j | 0 <= j < |tasks| :: OneShard(tasks[j], shard))
    requires |s.out| == |local| && |s.copied| == |tasks| && !Finished(tasks, s)
    ensures exists k: nat, s' :: Step(t, local, tasks, s, s', k)
  {
    var k: nat :| k < |tasks| && !TaskOver(tasks, s, k);
    assert OneShard(tasks[k], shard);
    var p := tasks[k].a + s.copied[k];
    if TaskOk(t, local, tasks[k]) {
      var row := t.mm[MmIndex(t, tasks[k].shard)].value[local[p]];
      var next := s.(out := s.out[p := row], copied := s.copied[k := s.copied[k] + 1]);
      assert Step(t, local, tasks, s, next, k);
    } else {
      assert Step(t, local, tasks, s, s.(raised := s.raised + {k}), k);
    }
  }

  lemma StepCopies(t: Table, shard: seq<int>, local: seq<int>, tasks: seq<Task>, s: Progress, s': Progress, k: nat)
    requires |shard| == |local| && (forall j | 0 <= j < |tasks| :: OneShard(tasks[j], shard))
    requires Step(t, local, tasks, s, s', k) && CopiedSoFar(t, shard, local, tasks, s)
    ensures CopiedSoFar(t, shard, local, tasks, s')
  {
    if TaskOk(t, local, tasks[k]) {
      var q := tasks[k].a + s.copied[k];
      assert OneShard(tasks[k], shard) && shard[q] == tasks[k].shard;
      assert Cell(t, MmIndices(t, shard)[q], local[q]) == Some(s'.out[q]);
    }
  }

  lemma {:induction false} CopiedAlways(t: Table, shard: seq<int>, local: seq<int>, tasks: seq<Task>,
                                        states: seq<Progress>, picks: seq<nat>, i: nat)
    requires |shard| == |local| && (forall j | 0 <= j < |tasks| :: OneShard(tasks[j], shard))
    requires Executes(t, local, tasks, states, picks) && Started(states[0], tasks, |local|) && i < |states|
    ensures CopiedSoFar(t, shard, local, tasks, states[i])
  {
    if i > 0 {
      CopiedAlways(t, shard, local, tasks, states, picks, i - 1);
      StepCopies(t, shard, local, tasks, states[i - 1], states[i], picks[i - 1]);
    }
  }

  /** In every interleaving of the workers that brings all tasks to an end, some task raises if and only if indexing
      one by one errs; if none does, the output is that of indexing one by one. */
  lemma AnyOrderGathers(t: Table, uniq: seq<int>, tasks: seq<Task>, states: seq<Progress>, picks: seq<nat>)
    requires Usable(t) && AllInRange(t, uniq) && Tiles(tasks, Shards(t, uniq), |uniq|)
    requires Executes(t, Locals(t, uniq, Shards(t, uniq)), tasks, states, picks) && Started(states[0], tasks, |uniq|)
    requires Finished(tasks, states[|picks|])
    ensures LookupAll(t, uniq) == if states[|picks|].raised == {} then Some(states[|picks|].out) else None
  {
    LocateAll(t, uniq);
    var shard := Shards(t, uniq);
    var local := Locals(t, uniq, shard);
    assert MmIndices(t, shard) == shard;
    CopiedAlways(t, shard, local, tasks, states, picks, |picks|);
    var s := states[|picks|];
    if k :| k in s.raised {
      TaskFails(t, shard, local, tasks[k]);
    } else {
      forall p | 0 <= p < |uniq| ensures Cell(t, shard[p], local[p]) == Some(s.out[p]) {
        var k := TileAt(tasks, shard, |uniq|, p);
        assert TaskOver(tasks, s, k);
      }
      assert CellAll(t, shard, local).value == s.out;
    }
  }

  // ---------------------------------------------------------------- which shard layouts are accepted

  function Min(a: int, b: int): int { if a <= b then a else b }

  function Max(a: int, b: int): int { if a >= b then a else b }

  function CeilDiv(a: nat, b: nat): nat
    requires b > 0
  {
    (a + b - 1) / b
  }

  /** The rows shard `idx` must have. */
  function Expected(vocab: nat, size: nat, idx: nat): nat { Max(0, Min(size, vocab - idx * size)) }

  function Indices(n: nat): (r: set<int>)
    ensures forall k :: k in r <==> 0 <= k < n
  {
    if n == 0 then {} else Indices(n - 1) + {n - 1}
  }

  /** Builds the table if every part is there, none is unexpected and each has exactly its rows. */
  method SetupTable(shards: map<int, seq<Row>>, parts: nat, vocab: nat, fastRows: nat, chunk: int)
    returns (r: Option<Table>)
    requires parts > 0 && vocab > 0
    ensures r.Some? <==> (forall k :: k in shards <==> 0 <= k < parts)
                         && forall k: nat | k < parts && k in shards ::
                              |shards[k]| == Expected(vocab, CeilDiv(vocab, parts), k)
    ensures r.Some? ==> Laid(r.value, parts, vocab) && r.value.fastRows == fastRows && r.value.chunk == Max(1, chunk)
                        && forall k: nat | k < parts :: k in shards && r.value.mm[k] == Some(shards[k])
  {
    var size := CeilDiv(vocab, parts);
    CeilDivFacts(vocab, parts);
    if shards.Keys != Indices(parts) {
      ghost var k :| (k in shards.Keys) != (k in Indices(parts));
      return None;
    }
    var mm: seq<Option<seq<Row>>> := [];
    for k := 0 to parts
      invariant |mm| == k
      invariant forall j | 0 <= j < k ::
                  j in shards && mm[j] == Some(shards[j]) && |shards[j]| == Expected(vocab, size, j)
    {
      assert k in shards.Keys;
      if |shards[k]| != Expected(vocab, size, k) { return None; }
      mm := mm + [Some(shards[k])];
    }
    return Some(Table(size, mm, fastRows, Max(1, chunk)));
  }

  /** The quotient rounded up: the fewest times `b` that reach `a`. */
  lemma CeilDivFacts(a: nat, b: nat)
    requires a > 0 && b > 0
    ensures CeilDiv(a, b) > 0 && CeilDiv(a, b) * b >= a > (CeilDiv(a, b) - 1) * b
  {
    var q := (a + b - 1) / b;
    assert a + b - 1 == q * b + (a + b - 1) % b;
    assert (q - 1) * b == q * b - b;
  }

  /** The shares: every part but the last nonempty one is a full share, the last holds what is left, and the parts
      after it are empty. */
  lemma SharesAre(vocab: nat, parts: nat, idx: nat)
    requires vocab > 0 && parts > 0 && idx < parts
    ensures var size := CeilDiv(vocab, parts);
            && vocab <= size * parts < vocab + parts
            && ((idx + 1) * size <= vocab ==> Expected(vocab, size, idx) == size)
            && (idx * size >= vocab ==> Expected(vocab, size, idx) == 0)
            && (idx * size < vocab < (idx + 1) * size ==> Expected(vocab, size, idx) == vocab - idx * size)
  {
    var size := CeilDiv(vocab, parts);
    CeilDivFacts(vocab, parts);
    assert (size - 1) * parts == size * parts - parts;
    assert (idx + 1) * size == idx * size + size;
  }

  /** All parts present, each with its share of the vocabulary. */
  ghost predicate Laid(t: Table, parts: nat, vocab: nat) {
    && Usable(t) && |t.mm| == parts && t.shardSize * parts >= vocab
    && forall k: nat | k < parts :: t.mm[k].Some? && |t.mm[k].value| == Expected(vocab, t.shardSize, k)
  }

  /** The first `k` shards, one after the other. */
  ghost function Joined(t: Table, k: nat): seq<Row>
    requires k <= |t.mm| && forall j | 0 <= j < k :: t.mm[j].Some?
  {
    if k == 0 then [] else Joined(t, k - 1) + t.mm[k - 1].value
  }

  lemma {:induction false} JoinedSize(t: Table, parts: nat, vocab: nat, k: nat)
    requires Laid(t, parts, vocab) && k <= parts
    ensures |Joined(t, k)| == Min(vocab, k * t.shardSize)
  {
    if k > 0 {
      JoinedSize(t, parts, vocab, k - 1);
      assert k * t.shardSize == (k - 1) * t.shardSize + t.shardSize;
    } else {
      assert 0 * t.shardSize == 0;
    }
  }

  lemma {:induction false} JoinedAt(t: Table, parts: nat, vocab: nat, k: nat, q: nat, local: nat)
    requires Laid(t, parts, vocab) && q < k <= parts && local < t.shardSize && q * t.shardSize + local < vocab
    ensures var id := q * t.shardSize + local; id < |Joined(t, k)| && Cell(t, q, local) == Some(Joined(t, k)[id])
  {
    JoinedSize(t, parts, vocab, k - 1);
    if q < k - 1 {
      JoinedAt(t, parts, vocab, k - 1, q, local);
    } else {
      assert |t.mm[q].value| == Expected(vocab, t.shardSize, q);
    }
  }

  lemma DivMod(id: nat, size: nat) returns (q: nat, local: nat)
    requires size > 0
    ensures q == id / size && local == id % size && local < size && id == q * size + local
  {
    q, local := id / size, id % size;
  }

  /** An accepted table is its shards one after the other: exactly the ids of the vocabulary have a row, the row at
      that place; every other id is an error. */
  lemma AcceptedIndexes(t: Table, parts: nat, vocab: nat, id: int)
    requires Laid(t, parts, vocab) && parts > 0
    ensures |Joined(t, parts)| == vocab
    ensures Lookup(t, id) == if 0 <= id < vocab then Some(Joined(t, parts)[id]) else None
  {
    JoinedSize(t, parts, vocab, parts);
    assert parts * t.shardSize == t.shardSize * parts;
    if id >= 0 {
      var q, local := DivMod(id, t.shardSize);
      if id < vocab {
        if q >= parts { Ordered(parts, q, t.shardSize); }
        JoinedAt(t, parts, vocab, parts, q, local);
      } else if q < parts {
        assert |t.mm[q].value| == Expected(vocab, t.shardSize, q);
      }
    }
  }

  /** Indexing an accepted table row by row is indexing its shards laid end to end; it fails exactly when some id is
      outside the vocabulary. */
  lemma AcceptedGathers(t: Table, parts: nat, vocab: nat, ids: seq<int>)
    requires Laid(t, parts, vocab) && parts > 0
    ensures |Joined(t, parts)| == vocab
    ensures LookupAll(t, ids).Some? <==> forall i | 0 <= i < |ids| :: 0 <= ids[i] < vocab
    ensures LookupAll(t, ids).Some? ==>
              && |LookupAll(t, ids).value| == |ids|
              && forall i | 0 <= i < |ids| ::
                   0 <= ids[i] < vocab && LookupAll(t, ids).value[i] == Joined(t, parts)[ids[i]]
  {
    AcceptedIndexes(t, parts, vocab, 0);
    forall i | 0 <= i < |ids|
      ensures Lookup(t, ids[i]) == if 0 <= ids[i] < vocab then Some(Joined(t, parts)[ids[i]]) else None
    {
      AcceptedIndexes(t, parts, vocab, ids[i]);
    }
    if !HasAll(t, ids) {
      var i :| 0 <= i < |ids| && Lookup(t, ids[i]).None?;
      assert !(0 <= ids[i] < vocab);
    }
  }
}
