/** Repacking the head inside its shard by writing, renaming and replacing files, and what interruptions leave
    behind. */
module HeadRepack {

  datatype Option<T> = None | Some(value: T)

  type Byte = x: int | 0 <= x < 256

  type Blob = seq<Byte>

  /** A tensor file, or what a write that did not finish leaves. */
  datatype File = Whole(tensors: map<string, Blob>) | Torn

  /** Which shard holds each tensor, and the total size of the data. */
  datatype Index = Index(weightMap: map<string, string>, totalSize: nat)

  datatype IndexFile = Written(index: Index) | TornIndex

  /** The files of the checkpoint that concern the head: the shard, its backup, the temporary, the dry-run output, the
      index and its temporary. */
  datatype Fs = Fs(shard: Option<File>, bak: Option<File>, tmp: Option<File>, dry: Option<File>, index: Index,
                   indexTmp: Option<IndexFile>)

  /** What quantising the head gives, the name of the shard and the size of all files, given the shard's tensors. */
  datatype Env = Env(quantize: Blob -> (Blob, Blob, Blob), name: string, size: map<string, Blob> -> nat)

  const WEIGHT := "lm_head.weight"
  const QWEIGHT := "lm_head.qweight"
  const QZEROS := "lm_head.qzeros"
  const SCALES := "lm_head.scales"

  function Repacked(e: Env, t: map<string, Blob>): map<string, Blob>
    requires WEIGHT in t
  {
    var (q, z, s) := e.quantize(t[WEIGHT]);
    (t - {WEIGHT})[QWEIGHT := q][QZEROS := z][SCALES := s]
  }

  function Updated(e: Env, index: Index, shard: map<string, Blob>): Index {
    Index((index.weightMap - {WEIGHT})[QWEIGHT := e.name][QZEROS := e.name][SCALES := e.name], e.size(shard))
  }

  // ---------------------------------------------------------------- one run as a list of file operations

  /** A write first truncates, then completes; renaming and replacing are atomic. */
  datatype FileOp =
    | TearDry | SaveDry(tensors: map<string, Blob>)
    | TearTmp | SaveTmp(tensors: map<string, Blob>)
    | ShardToBak | RemoveShard | TmpToShard
    | TearIndex | SaveIndex(index: Index) | IndexInPlace

  function Do(fs: Fs, op: FileOp): Fs {
    match op
    case TearDry => fs.(dry := Some(Torn))
    case SaveDry(t) => fs.(dry := Some(Whole(t)))
    case TearTmp => fs.(tmp := Some(Torn))
    case SaveTmp(t) => fs.(tmp := Some(Whole(t)))
    case ShardToBak => fs.(bak := fs.shard, shard := None)
    case RemoveShard => fs.(shard := None)
    case TmpToShard => fs.(shard := fs.tmp, tmp := None)
    case TearIndex => fs.(indexTmp := Some(TornIndex))
    case SaveIndex(i) => fs.(indexTmp := Some(Written(i)))
    case IndexInPlace =>
      var whole := fs.indexTmp.Some? && fs.indexTmp.value.Written?;
      fs.(index := if whole then fs.indexTmp.value.index else fs.index, indexTmp := None)
  }

  function DoAll(fs: Fs, ops: seq<FileOp>): Fs
    decreases |ops|
  {
    if ops == [] then fs else DoAll(Do(fs, ops[0]), ops[1..])
  }

  /** The file the run reads: the shard, or the backup when an interrupted run left only that. */
  function Source(fs: Fs): Option<File> { if fs.shard.Some? then fs.shard else fs.bak }

  function IndexOps(e: Env, fs: Fs, shard: map<string, Blob>): seq<FileOp> {
    [TearIndex, SaveIndex(Updated(e, fs.index, shard)), IndexInPlace]
  }

  /** Write first, then swap: the backup, once there, is the original. */
  function RepackOps(fs: Fs, new_: map<string, Blob>): seq<FileOp> {
    if fs.bak.None? then [TearTmp, SaveTmp(new_), ShardToBak, TmpToShard]
    else if fs.shard.Some? then [TearTmp, SaveTmp(new_), RemoveShard, TmpToShard]
    else [TearTmp, SaveTmp(new_), TmpToShard]
  }

  /** Everything a run does to the files; nothing where it stops early or fails before its first write. */
  function Ops(e: Env, fs: Fs, dryRun: bool): seq<FileOp> {
    if WEIGHT !in fs.index.weightMap then []
    else if Source(fs).None? || Source(fs).value.Torn? then []
    else
      var t := Source(fs).value.tensors;
      if WEIGHT !in t then
        if QWEIGHT in t && !dryRun then IndexOps(e, fs, t) else []
      else
        var new_ := Repacked(e, t);
        if dryRun then [TearDry, SaveDry(new_)] else RepackOps(fs, new_) + IndexOps(e, fs, new_)
  }

  /** A run that is stopped after `cut` file operations; one with a large `cut` completes. */
  function Interrupted(e: Env, fs: Fs, dryRun: bool, cut: nat): Fs {
    var ops := Ops(e, fs, dryRun);
    DoAll(fs, if cut < |ops| then ops[..cut] else ops)
  }

  function Complete(e: Env, fs: Fs, dryRun: bool): Fs { DoAll(fs, Ops(e, fs, dryRun)) }

  datatype Attempt = Attempt(dryRun: bool, cut: nat)

  function After(e: Env, fs: Fs, attempts: seq<Attempt>): Fs
    decreases |attempts|
  {
    if attempts == [] then fs else After(e, Interrupted(e, fs, attempts[0].dryRun, attempts[0].cut), attempts[1..])
  }

  // ---------------------------------------------------------------- what interruptions can leave

  /** The checkpoint as downloaded: no backup, no temporaries. */
  predicate Fresh(fs: Fs) {
    && fs.shard.Some? && fs.shard.value.Whole? && WEIGHT in fs.shard.value.tensors && QWEIGHT !in fs.shard.value.tensors
    && WEIGHT in fs.index.weightMap && fs.bak == None && fs.tmp == None && fs.indexTmp == None
  }

  /** Untouched, swapped halfway, swapped, or done. */
  ghost predicate Between(e: Env, start: Fs, fs: Fs)
    requires Fresh(start)
  {
    var new_ := Repacked(e, start.shard.value.tensors);
    || (fs.shard == start.shard && fs.bak == None && fs.index == start.index && fs.indexTmp == None)
    || (fs.shard == None && fs.bak == start.shard && fs.index == start.index && fs.indexTmp == None)
    || (fs.shard == Some(Whole(new_)) && fs.bak == start.shard && fs.tmp == None
        && (fs.index == start.index || (fs.index == Updated(e, start.index, new_) && fs.indexTmp == None)))
  }

  lemma {:induction false} OneMore(fs: Fs, ops: seq<FileOp>, cut: nat)
    requires cut < |ops|
    ensures DoAll(fs, ops[..cut + 1]) == Do(DoAll(fs, ops[..cut]), ops[cut])
    decreases |ops|
  {
    if cut > 0 {
      OneMore(Do(fs, ops[0]), ops[1..], cut - 1);
      assert ops[..cut + 1][1..] == ops[1..][..cut] && ops[..cut][1..] == ops[1..][..cut - 1];
    } else {
      assert ops[..1][1..] == [] && ops[..0] == [];
    }
  }

  /** Two lists of operations, one after the other, cut somewhere. */
  lemma {:induction false} InTwoParts(fs: Fs, a: seq<FileOp>, b: seq<FileOp>, cut: nat)
    requires cut <= |a| + |b|
    ensures DoAll(fs, (a + b)[..cut]) == if cut <= |a| then DoAll(fs, a[..cut]) else DoAll(DoAll(fs, a), b[..cut - |a|])
    decreases |a|
  {
    if cut <= |a| {
      assert (a + b)[..cut] == a[..cut];
    } else if a == [] {
      assert (a + b)[..cut] == b[..cut];
    } else {
      InTwoParts(Do(fs, a[0]), a[1..], b, cut - 1);
      assert (a + b)[..cut][1..] == (a[1..] + b)[..cut - 1];
    }
  }

  lemma UpTo(fs: Fs, ops: seq<FileOp>, cut: nat)
    requires 0 < cut <= |ops|
    ensures DoAll(fs, ops[..cut]) == Do(DoAll(fs, ops[..cut - 1]), ops[cut - 1])
  {
    OneMore(fs, ops, cut - 1);
  }

  /** Repacked, backed up, indexed, no temporaries left. */
  ghost predicate IsDone(e: Env, start: Fs, fs: Fs)
    requires Fresh(start)
  {
    var new_ := Repacked(e, start.shard.value.tensors);
    fs == Fs(Some(Whole(new_)), start.shard, None, fs.dry, Updated(e, start.index, new_), None)
  }

  lemma RepackedIsNew(e: Env, t: map<string, Blob>)
    requires WEIGHT in t
    ensures WEIGHT !in Repacked(e, t) && QWEIGHT in Repacked(e, t)
  {
  }

  /** The index update of a swapped checkpoint. */
  lemma IndexPart(e: Env, start: Fs, fs: Fs, cut: nat)
    requires Fresh(start) && fs.shard == Some(Whole(Repacked(e, start.shard.value.tensors))) && fs.bak == start.shard
    requires fs.tmp == None && fs.index == start.index && cut <= 3
    ensures var ops := IndexOps(e, fs, Repacked(e, start.shard.value.tensors));
            Between(e, start, DoAll(fs, ops[..cut])) && (cut == 3 ==> IsDone(e, start, DoAll(fs, ops)))
  {
    var ops := IndexOps(e, fs, Repacked(e, start.shard.value.tensors));
    assert ops[..0] == [] && ops[..3] == ops;
    UpTo(fs, ops, 1);
    UpTo(fs, ops, 2);
    UpTo(fs, ops, 3);
  }

  /** The run after an index update was lost. */
  lemma IndexStaysBetween(e: Env, start: Fs, fs: Fs, cut: nat)
    requires Fresh(start) && Between(e, start, fs) && fs.shard == Some(Whole(Repacked(e, start.shard.value.tensors)))
    requires fs.index == start.index
    requires Ops(e, fs, false) == IndexOps(e, fs, fs.shard.value.tensors) && cut <= 3
    ensures Between(e, start, DoAll(fs, Ops(e, fs, false)[..cut]))
    ensures cut == 3 ==> IsDone(e, start, DoAll(fs, Ops(e, fs, false)))
  {
    RepackedIsNew(e, start.shard.value.tensors);
    IndexPart(e, start, fs, cut);
  }

  /** A dry run writes its own output file and nothing else. */
  lemma DryTouchesDry(e: Env, fs: Fs, cut: nat)
    requires cut <= |Ops(e, fs, true)|
    ensures DoAll(fs, Ops(e, fs, true)[..cut]).(dry := None) == fs.(dry := None)
  {
    var ops := Ops(e, fs, true);
    assert ops[..0] == [];
    if cut > 0 { UpTo(fs, ops, 1); }
    if cut > 1 { UpTo(fs, ops, 2); }
  }

  /** The swap, from the original under its own name or from the backup alone. */
  lemma SwapPart(e: Env, start: Fs, fs: Fs, cut: nat)
    requires Fresh(start) && Between(e, start, fs) && (fs.shard == start.shard || fs.shard.None?)
    requires cut <= |RepackOps(fs, Repacked(e, start.shard.value.tensors))|
    ensures var ops := RepackOps(fs, Repacked(e, start.shard.value.tensors));
            && Between(e, start, DoAll(fs, ops[..cut]))
            && DoAll(fs, ops) == fs.(shard := Some(Whole(Repacked(e, start.shard.value.tensors))), bak := start.shard,
                                     tmp := None)
  {
    RepackedIsNew(e, start.shard.value.tensors);
    var ops := RepackOps(fs, Repacked(e, start.shard.value.tensors));
    assert ops[..0] == [] && ops[..|ops|] == ops;
    UpTo(fs, ops, 1);
    UpTo(fs, ops, 2);
    UpTo(fs, ops, 3);
    if |ops| == 4 { UpTo(fs, ops, 4); }
  }

  /** The run that finds the original, under its own name or as the backup. */
  lemma SwapStaysBetween(e: Env, start: Fs, fs: Fs, cut: nat)
    requires Fresh(start) && Between(e, start, fs) && (fs.shard == start.shard || fs.shard.None?)
    requires cut <= |Ops(e, fs, false)|
    ensures Between(e, start, DoAll(fs, Ops(e, fs, false)[..cut]))
    ensures cut == |Ops(e, fs, false)| ==> IsDone(e, start, DoAll(fs, Ops(e, fs, false)))
  {
    RepackedIsNew(e, start.shard.value.tensors);
    var new_ := Repacked(e, start.shard.value.tensors);
    var swap, index := RepackOps(fs, new_), IndexOps(e, fs, new_);
    assert Ops(e, fs, false) == swap + index;
    InTwoParts(fs, swap, index, cut);
    SwapPart(e, start, fs, if cut <= |swap| then cut else |swap|);
    if cut > |swap| { IndexPart(e, start, DoAll(fs, swap), cut - |swap|); }
    assert (swap + index)[..|swap + index|] == swap + index && index[..|index|] == index;
  }

  /** An attempt, wherever it is cut, keeps the files in one of the four states; a complete one finishes the job. */
  lemma AttemptStaysBetween(e: Env, start: Fs, fs: Fs, dryRun: bool, cut: nat)
    requires Fresh(start) && Between(e, start, fs)
    ensures Between(e, start, Interrupted(e, fs, dryRun, cut))
    ensures !dryRun && cut >= |Ops(e, fs, false)| ==> IsDone(e, start, Interrupted(e, fs, dryRun, cut))
  {
    var ops := Ops(e, fs, dryRun);
    var c := if cut < |ops| then cut else |ops|;
    assert ops[..|ops|] == ops;
    RepackedIsNew(e, start.shard.value.tensors);
    if dryRun {
      DryTouchesDry(e, fs, c);
    } else if fs.shard != Some(Whole(Repacked(e, start.shard.value.tensors))) {
      SwapStaysBetween(e, start, fs, c);
    } else if fs.index == start.index {
      IndexStaysBetween(e, start, fs, c);
    }
  }

  lemma {:induction false} AttemptsStayBetween(e: Env, start: Fs, fs: Fs, attempts: seq<Attempt>)
    requires Fresh(start) && Between(e, start, fs)
    ensures Between(e, start, After(e, fs, attempts))
    decreases |attempts|
  {
    if attempts != [] {
      AttemptStaysBetween(e, start, fs, attempts[0].dryRun, attempts[0].cut);
      AttemptsStayBetween(e, start, Interrupted(e, fs, attempts[0].dryRun, attempts[0].cut), attempts[1..]);
    }
  }

  /** After any number of attempts, each cut anywhere, the original shard is there, under its own name or as the
      backup. */
  lemma OriginalIsNeverLost(e: Env, start: Fs, attempts: seq<Attempt>)
    requires Fresh(start)
    ensures var fs := After(e, start, attempts); fs.shard == start.shard || fs.bak == start.shard
    ensures Source(After(e, start, attempts)).Some? && Source(After(e, start, attempts)).value.Whole?
  {
    AttemptsStayBetween(e, start, start, attempts);
  }

  /** One complete run after any interrupted ones leaves shard, backup, index and temporaries exactly as a single
      uninterrupted run does. */
  lemma RunsConverge(e: Env, start: Fs, attempts: seq<Attempt>)
    requires Fresh(start)
    ensures var fs := Complete(e, After(e, start, attempts), false);
            fs.(dry := None) == Complete(e, start, false).(dry := None) && IsDone(e, start, fs)
  {
    AttemptsStayBetween(e, start, start, attempts);
    var fs := After(e, start, attempts);
    AttemptStaysBetween(e, start, fs, false, |Ops(e, fs, false)|);
    AttemptStaysBetween(e, start, start, false, |Ops(e, start, false)|);
  }

  predicate IsHeadName(name: string) {
    name == "lm_head.weight" || name == "lm_head.qweight" || name == "lm_head.qzeros" || name == "lm_head.scales"
  }

  /** The head's names aside, `after` has the entries of `before` and no others. */
  ghost predicate Carried<T(!new)>(before: map<string, T>, after: map<string, T>) {
    forall name: string | !IsHeadName(name) ::
      && (name in after <==> name in before)
      && (name in after ==> after[name] == before[name])
  }

  /** The tensors `after` are those of `before`, with the three results of quantising the weight in place of it. */
  ghost predicate HeadReplaced(e: Env, before: map<string, Blob>, after: map<string, Blob>)
    requires "lm_head.weight" in before
  {
    && Carried(before, after) && "lm_head.weight" !in after
    && "lm_head.qweight" in after && "lm_head.qzeros" in after && "lm_head.scales" in after
    && (after["lm_head.qweight"], after["lm_head.qzeros"], after["lm_head.scales"]) ==
       e.quantize(before["lm_head.weight"])
  }

  /** The index names the shard for the three new tensors, has no entry for the weight, and is otherwise as before. */
  ghost predicate HeadIndexed(e: Env, before: Index, after: Index, shard: map<string, Blob>) {
    && Carried(before.weightMap, after.weightMap) && "lm_head.weight" !in after.weightMap
    && "lm_head.qweight" in after.weightMap && after.weightMap["lm_head.qweight"] == e.name
    && "lm_head.qzeros" in after.weightMap && after.weightMap["lm_head.qzeros"] == e.name
    && "lm_head.scales" in after.weightMap && after.weightMap["lm_head.scales"] == e.name
    && after.totalSize == e.size(shard)
  }

  lemma RepackedReplaces(e: Env, t: map<string, Blob>)
    requires WEIGHT in t
    ensures HeadReplaced(e, t, Repacked(e, t))
  {
  }

  lemma UpdatedIndexes(e: Env, index: Index, shard: map<string, Blob>)
    ensures HeadIndexed(e, index, Updated(e, index, shard), shard)
  {
  }

  /** What a complete run leaves, after any number of attempts cut anywhere: a whole shard with every other tensor of
      the original and the three quantised ones, the original as the backup, an index that says so, no temporaries. */
  lemma RunLeaves(e: Env, start: Fs, attempts: seq<Attempt>)
    requires Fresh(start)
    ensures var fs := Complete(e, After(e, start, attempts), false);
            && fs.shard.Some? && fs.shard.value.Whole? && fs.bak == start.shard && fs.tmp == None && fs.indexTmp == None
            && HeadReplaced(e, start.shard.value.tensors, fs.shard.value.tensors)
            && HeadIndexed(e, start.index, fs.index, fs.shard.value.tensors)
  {
    RunsConverge(e, start, attempts);
    RepackedReplaces(e, start.shard.value.tensors);
    UpdatedIndexes(e, start.index, Repacked(e, start.shard.value.tensors));
  }

  /** A complete dry run of the original writes the same tensors to its own output. */
  lemma DryRunLeaves(e: Env, start: Fs)
    requires Fresh(start)
    ensures var fs := Complete(e, start, true);
            && fs.dry.Some? && fs.dry.value.Whole?
            && HeadReplaced(e, start.shard.value.tensors, fs.dry.value.tensors)
            && fs.(dry := None) == start.(dry := None)
  {
    var ops := Ops(e, start, true);
    assert ops[..0] == [] && ops[..2] == ops;
    UpTo(start, ops, 1);
    UpTo(start, ops, 2);
    RepackedReplaces(e, start.shard.value.tensors);
  }

  /** Once done, running again changes nothing at all. */
  lemma DoneStaysDone(e: Env, start: Fs, fs: Fs, dryRun: bool, cut: nat)
    requires Fresh(start) && IsDone(e, start, fs)
    ensures Interrupted(e, fs, dryRun, cut) == fs
  {
    assert Ops(e, fs, dryRun) == [];
  }

  // ---------------------------------------------------------------- the program

  class Checkpoint {
    const env: Env
    var files: Fs

    constructor (env: Env, files: Fs)
      ensures this.env == env && this.files == files
    {
      this.env, this.files := env, files;
    }

    /** Quantises, writes and swaps; stops after `cut` file operations. */
    method Repack(tensors: map<string, Blob>, cut: nat) returns (done: nat)
      modifies this
      ensures done == if cut < |RepackOps(old(files), tensors)| then cut else |RepackOps(old(files), tensors)|
      ensures files == DoAll(old(files), RepackOps(old(files), tensors)[..done])
    {
      ghost var start, ops := files, RepackOps(files, tensors);
      assert ops[..0] == [];
      if cut == 0 { return 0; }
      files := files.(tmp := Some(Torn));
      UpTo(start, ops, 1);
      if cut == 1 { return 1; }
      files := files.(tmp := Some(Whole(tensors)));
      UpTo(start, ops, 2);
      if cut == 2 { return 2; }
      done := 2;
      if files.bak.None? {
        files := files.(bak := files.shard, shard := None);
        done := 3;
      } else if files.shard.Some? {
        files := files.(shard := None);
        done := 3;
      }
      UpTo(start, ops, 3);
      if cut == done { return; }
      files := files.(shard := files.tmp, tmp := None);
      done := done + 1;
      UpTo(start, ops, done);
    }

    method UpdateIndex(tensors: map<string, Blob>, cut: nat)
      modifies this
      ensures files == DoAll(old(files), IndexOps(env, old(files), tensors)[..if cut < 3 then cut else 3])
    {
      ghost var start, ops := files, IndexOps(env, files, tensors);
      assert ops[..0] == [];
      if cut == 0 { return; }
      var index := Updated(env, files.index, tensors);
      files := files.(indexTmp := Some(TornIndex));
      UpTo(start, ops, 1);
      if cut == 1 { return; }
      files := files.(indexTmp := Some(Written(index)));
      UpTo(start, ops, 2);
      if cut == 2 { return; }
      files := files.(index := index, indexTmp := None);
      UpTo(start, ops, 3);
    }

    method DryRun(tensors: map<string, Blob>, cut: nat)
      modifies this
      ensures files == DoAll(old(files), [TearDry, SaveDry(tensors)][..if cut < 2 then cut else 2])
    {
      ghost var start, ops := files, [TearDry, SaveDry(tensors)];
      assert ops[..0] == [];
      if cut == 0 { return; }
      files := files.(dry := Some(Torn));
      UpTo(start, ops, 1);
      if cut == 1 { return; }
      files := files.(dry := Some(Whole(tensors)));
      UpTo(start, ops, 2);
    }

    /** The first `cut` file operations of a run, one after the other as the program makes them. */
    method Run(dryRun: bool, cut: nat)
      modifies this
      ensures files == Interrupted(env, old(files), dryRun, cut)
    {
      if WEIGHT !in files.index.weightMap { return; }
      var source := if files.shard.Some? then files.shard else files.bak;
      if source.None? || source.value.Torn? { return; }
      var tensors := source.value.tensors;
      ghost var start, ops := files, Ops(env, files, dryRun);
      assert ops[..|ops|] == ops;
      if WEIGHT !in tensors {
        if QWEIGHT in tensors && !dryRun { UpdateIndex(tensors, cut); }
        return;
      }
      tensors := Repacked(env, tensors);
      if dryRun {
        DryRun(tensors, cut);
        return;
      }
      ghost var first := RepackOps(files, tensors);
      assert first[..|first|] == first;
      InTwoParts(start, first, IndexOps(env, start, tensors), if cut < |ops| then cut else |ops|);
      var done := Repack(tensors, cut);
      if done < cut {
        RepackKeepsIndex(start, tensors);
        UpdateIndex(tensors, cut - done);
      }
    }
  }

  lemma RepackKeepsIndex(fs: Fs, tensors: map<string, Blob>)
    ensures DoAll(fs, RepackOps(fs, tensors)).index == fs.index
  {
    var ops := RepackOps(fs, tensors);
    assert ops[..0] == [] && ops[..|ops|] == ops;
    UpTo(fs, ops, 1);
    UpTo(fs, ops, 2);
    UpTo(fs, ops, 3);
    UpTo(fs, ops, |ops|);
  }
}
