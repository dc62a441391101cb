/** The double-buffered prefetch of table rows: a host thread, one worker thread and a GPU stream that executes its
    operations in order but later. Every copy moves one element per step, so all three interleave freely. */
module PlePrefetch {
  import opened PleTable

  /** What the worker's gather answers (one row an id, or none when it raises), and how many rows a slot holds. */
  datatype Config = Config(answer: seq<int> -> Option<seq<Row>>, slotRows: nat)

  /** `ids` is what the caller submitted with this job. */
  datatype Job = Job(ids: seq<int>, slot: nat)

  /** Stream operations: ids to the pinned buffer, the event after them, rows to the device for a hit. */
  datatype GpuOp = CopyIds(job: nat) | Fire(job: nat) | CopyRows(job: nat, hit: nat)

  datatype Worker =
    | Idle
    | Syncing(job: nat)
    | Reading(job: nat, got: seq<int>)
    | Writing(job: nat, rows: seq<Row>, written: nat)

  /** A consume that found its rows: the job they came from and what has arrived on the device. */
  datatype Hit = Hit(job: nat, rows: seq<Row>)

  /** Jobs are numbered as created. `at` is how far the head of the stream has copied. */
  datatype State = State(jobs: seq<Job>, slot: nat, slotJob: seq<Option<nat>>, pending: Option<nat>,
                         queue: seq<nat>, worker: Worker, done: set<nat>, ok: set<nat>,
                         stream: seq<GpuOp>, at: nat, fired: set<nat>,
                         idsMem: seq<int>, rowsMem: seq<Row>, hits: seq<Hit>)

  datatype Action =
    | Prefetch(ids: seq<int>)
    | Consume(want: nat)
    | TakeJob
    | Synced
    | ReadId
    | Lookups
    | WriteRow
    | Finish
    | Gpu

  ghost predicate IsConfig(c: Config) {
    c.slotRows > 0 && forall ids :: c.answer(ids).Some? ==> |c.answer(ids).value| == |ids|
  }

  function Base(c: Config, slot: nat): nat { if slot == 0 then 0 else c.slotRows }

  predicate IsInitial(c: Config, s: State) {
    && s.jobs == [] && s.slot == 0 && s.slotJob == [None, None] && s.pending == None
    && s.queue == [] && s.worker == Idle && s.done == {} && s.ok == {} && s.stream == [] && s.at == 0 && s.fired == {}
    && |s.idsMem| == |s.rowsMem| == 2 * c.slotRows && s.hits == []
  }

  // ---------------------------------------------------------------- the host

  predicate Refused(s: State)
    requires s.slot < |s.slotJob|
  {
    s.slotJob[s.slot].Some? && s.slotJob[s.slot].value !in s.done
  }

  /** Starts a job unless the batch does not fit, or the last job of the slot is not done when the wait times out.
      A refused call leaves `pending` as it was. */
  function DoPrefetch(c: Config, s: State, ids: seq<int>): State
    requires s.slot < 2 == |s.slotJob|
  {
    if ids == [] || |ids| > c.slotRows then s
    else if Refused(s) then s.(slot := 1 - s.slot)
    else
      var k := |s.jobs|;
      s.(slot := 1 - s.slot, jobs := s.jobs + [Job(ids, s.slot)], slotJob := s.slotJob[s.slot := Some(k)],
         pending := Some(k), queue := s.queue + [k], stream := s.stream + [CopyIds(k), Fire(k)])
  }

  /** A consume hits when the pending job has as many rows as wanted and ended well before the wait times out. */
  predicate Hits(s: State, want: nat) {
    s.pending.Some? && s.pending.value < |s.jobs| && |s.jobs[s.pending.value].ids| == want &&
      s.pending.value in s.done * s.ok
  }

  function DoConsume(s: State, want: nat): State {
    var t := s.(pending := None);
    if !Hits(s, want) then t
    else t.(stream := s.stream + [CopyRows(s.pending.value, |s.hits|)], hits := s.hits + [Hit(s.pending.value, [])])
  }

  // ---------------------------------------------------------------- the stream

  /** How many elements the operation at the head of the stream moves. */
  function Length(jobs: seq<Job>, op: GpuOp): nat
    requires op.job < |jobs|
  {
    if op.Fire? then 0 else |jobs[op.job].ids|
  }

  predicate GpuReady(c: Config, s: State) {
    && s.stream != [] && s.stream[0].job < |s.jobs|
    && var op := s.stream[0];
       var p := Base(c, s.jobs[op.job].slot) + s.at;
       s.at < Length(s.jobs, op) ==> p < |s.idsMem| && p < |s.rowsMem| && (op.CopyRows? ==> op.hit < |s.hits|)
  }

  function DoGpu(c: Config, s: State): State
    requires GpuReady(c, s)
  {
    var op := s.stream[0];
    var p := Base(c, s.jobs[op.job].slot) + s.at;
    if s.at < Length(s.jobs, op) then
      if op.CopyIds? then s.(at := s.at + 1, idsMem := s.idsMem[p := s.jobs[op.job].ids[s.at]])
      else s.(at := s.at + 1, hits := s.hits[op.hit := s.hits[op.hit].(rows := s.hits[op.hit].rows + [s.rowsMem[p]])])
    else s.(stream := s.stream[1..], at := 0, fired := if op.Fire? then s.fired + {op.job} else s.fired)
  }

  // ---------------------------------------------------------------- one step of anybody

  ghost predicate Enabled(c: Config, s: State, a: Action) {
    match a
    case Prefetch(ids) => s.slot < 2 == |s.slotJob|
    case Consume(want) => true
    case TakeJob => s.worker.Idle? && s.queue != []
    case Synced => s.worker.Syncing? && s.worker.job in s.fired
    case ReadId =>
      && s.worker.Reading? && s.worker.job < |s.jobs| && |s.worker.got| < |s.jobs[s.worker.job].ids|
      && Base(c, s.jobs[s.worker.job].slot) + |s.worker.got| < |s.idsMem|
    case Lookups => s.worker.Reading? && s.worker.job < |s.jobs| && |s.worker.got| == |s.jobs[s.worker.job].ids|
    case WriteRow =>
      && s.worker.Writing? && s.worker.job < |s.jobs| && s.worker.written < |s.worker.rows|
      && Base(c, s.jobs[s.worker.job].slot) + s.worker.written < |s.rowsMem|
    case Finish => s.worker.Writing? && s.worker.written == |s.worker.rows|
    case Gpu => GpuReady(c, s)
  }

  /** The worker waits for the event, reads the ids, looks the rows up, writes them and marks the job done; an id
      without a row ends the job as failed. */
  ghost function Next(c: Config, s: State, a: Action): State
    requires Enabled(c, s, a)
  {
    match a
    case Prefetch(ids) => DoPrefetch(c, s, ids)
    case Consume(want) => DoConsume(s, want)
    case TakeJob => s.(worker := Syncing(s.queue[0]), queue := s.queue[1..])
    case Synced => s.(worker := Reading(s.worker.job, []))
    case ReadId =>
      var p := Base(c, s.jobs[s.worker.job].slot) + |s.worker.got|;
      s.(worker := s.worker.(got := s.worker.got + [s.idsMem[p]]))
    case Lookups =>
      var rows := c.answer(s.worker.got);
      if rows.Some? then s.(worker := Writing(s.worker.job, rows.value, 0))
      else s.(worker := Idle, done := s.done + {s.worker.job})
    case WriteRow =>
      var p := Base(c, s.jobs[s.worker.job].slot) + s.worker.written;
      s.(worker := s.worker.(written := s.worker.written + 1),
         rowsMem := s.rowsMem[p := s.worker.rows[s.worker.written]])
    case Finish => s.(worker := Idle, done := s.done + {s.worker.job}, ok := s.ok + {s.worker.job})
    case Gpu => DoGpu(c, s)
  }

  // ---------------------------------------------------------------- the invariant, part by part

  ghost predicate Shape(c: Config, s: State) {
    s.slot < 2 == |s.slotJob| && |s.idsMem| == |s.rowsMem| == 2 * c.slotRows && JobsFit(c, s.jobs)
  }

  ghost predicate JobsFit(c: Config, jobs: seq<Job>) {
    forall k | 0 <= k < |jobs| :: jobs[k].slot < 2 && 0 < |jobs[k].ids| <= c.slotRows
  }

  ghost predicate SameSlot(jobs: seq<Job>, j: nat, k: nat) { j < |jobs| && k < |jobs| && jobs[j].slot == jobs[k].slot }

  /** Only the last job of a slot may be unfinished. */
  ghost predicate SlotsReused(jobs: seq<Job>, slotJob: seq<Option<nat>>, done: set<nat>) {
    && |slotJob| == 2
    && (forall k: nat | k < |jobs| :: LastInSlot(jobs, slotJob, k))
    && (forall j: nat, k: nat | j < k && SameSlot(jobs, j, k) :: j in done)
    && (forall b | 0 <= b < 2 && slotJob[b].Some? :: slotJob[b].value < |jobs| && jobs[slotJob[b].value].slot == b)
  }

  ghost predicate LastInSlot(jobs: seq<Job>, slotJob: seq<Option<nat>>, k: nat)
    requires k < |jobs|
  {
    jobs[k].slot < |slotJob| && slotJob[jobs[k].slot].Some? && k <= slotJob[jobs[k].slot].value
  }

  function Ended(n: nat, queue: seq<nat>, worker: Worker): int { if worker.Idle? then n - |queue| else n - |queue| - 1 }

  /** The worker takes the jobs in order and finishes one before the next. */
  ghost predicate InOrder(n: nat, queue: seq<nat>, worker: Worker, done: set<nat>, ok: set<nat>) {
    && 0 <= Ended(n, queue, worker) && (forall i | 0 <= i < |queue| :: queue[i] == n - |queue| + i)
    && (forall k: nat :: k in done <==> k < Ended(n, queue, worker)) && ok <= done
    && (!worker.Idle? ==> worker.job == Ended(n, queue, worker))
  }

  function Rank(op: GpuOp): nat {
    3 * op.job + (match op case CopyIds(_) => 0 case Fire(_) => 1 case CopyRows(_, _) => 2)
  }

  /** The stream holds its operations in job order, each once. */
  ghost predicate Sorted(jobs: seq<Job>, stream: seq<GpuOp>, at: nat) {
    && (forall i, j | 0 <= i < j < |stream| :: Rank(stream[i]) < Rank(stream[j]))
    && (forall i | 0 <= i < |stream| :: stream[i].job < |jobs|)
    && at <= if stream == [] then 0 else Length(jobs, stream[0])
  }

  /** An event has fired once it has left the stream, and the ids before it are there by then. */
  ghost predicate Events(n: nat, stream: seq<GpuOp>, fired: set<nat>) {
    && (forall k: nat | k < n :: k in fired <==> Fire(k) !in stream)
    && (forall k: nat | CopyIds(k) in stream :: k !in fired)
    && (forall k | k in fired :: k < n)
  }

  /** The worker passes the event of a job before it reads the ids or ends the job. */
  ghost predicate Awaited(worker: Worker, done: set<nat>, fired: set<nat>) {
    done <= fired && (worker.Reading? || worker.Writing? ==> worker.job in fired)
  }

  /** The first `n` ids of the job are in its slot. */
  ghost predicate IdsHere(c: Config, job: Job, idsMem: seq<int>, n: nat) {
    && n <= |job.ids| && Base(c, job.slot) + n <= |idsMem|
    && forall i | 0 <= i < n :: idsMem[Base(c, job.slot) + i] == job.ids[i]
  }

  /** Ids that have been copied stay until their job is done. */
  ghost predicate IdsSafe(c: Config, jobs: seq<Job>, done: set<nat>, stream: seq<GpuOp>, at: nat, idsMem: seq<int>) {
    && (forall k: nat | k < |jobs| && k !in done && CopyIds(k) !in stream :: IdsHere(c, jobs[k], idsMem, |jobs[k].ids|))
    && (stream != [] && stream[0].CopyIds? ==> stream[0].job < |jobs| && IdsHere(c, jobs[stream[0].job], idsMem, at))
  }

  ghost predicate IdsRead(jobs: seq<Job>, worker: Worker) {
    worker.Reading? ==> worker.job < |jobs| && worker.got <= jobs[worker.job].ids
  }

  ghost predicate RowsHere(c: Config, job: Job, rowsMem: seq<Row>, n: nat) {
    && c.answer(job.ids).Some? && n <= |c.answer(job.ids).value| == |job.ids| && Base(c, job.slot) + n <= |rowsMem|
    && forall i | 0 <= i < n :: rowsMem[Base(c, job.slot) + i] == c.answer(job.ids).value[i]
  }

  /** No later job of the same slot has its ids on the host yet, so none can have written rows. */
  ghost predicate LastFired(jobs: seq<Job>, fired: set<nat>, k: nat) {
    forall m: nat | k < m && SameSlot(jobs, k, m) :: m !in fired
  }

  /** The rows of a finished job stay until a later job of its slot has its ids on the host. */
  ghost predicate RowsSafe(c: Config, jobs: seq<Job>, ok: set<nat>, fired: set<nat>, rowsMem: seq<Row>) {
    && (forall k | k in ok :: k < |jobs| && c.answer(jobs[k].ids).Some?)
    && (forall k | k in ok && LastFired(jobs, fired, k) :: RowsHere(c, jobs[k], rowsMem, |jobs[k].ids|))
  }

  ghost predicate RowsWritten(c: Config, jobs: seq<Job>, rowsMem: seq<Row>, worker: Worker) {
    worker.Writing? ==> && worker.job < |jobs| && c.answer(jobs[worker.job].ids) == Some(worker.rows)
                        && RowsHere(c, jobs[worker.job], rowsMem, worker.written)
  }

  /** What has arrived of a hit: a prefix of its job's own rows, all of them once its copy has left the stream. */
  ghost predicate Arrived(c: Config, jobs: seq<Job>, ok: set<nat>, stream: seq<GpuOp>, at: nat, h: nat, hit: Hit) {
    && hit.job in ok && hit.job < |jobs| && c.answer(jobs[hit.job].ids).Some?
    && hit.rows <= c.answer(jobs[hit.job].ids).value
    && (CopyRows(hit.job, h) !in stream ==> hit.rows == c.answer(jobs[hit.job].ids).value)
    && (CopyRows(hit.job, h) in stream ==> |hit.rows| == if stream[0] == CopyRows(hit.job, h) then at else 0)
  }

  ghost predicate HitsSafe(c: Config, jobs: seq<Job>, ok: set<nat>, stream: seq<GpuOp>, at: nat, hits: seq<Hit>) {
    forall h: nat | h < |hits| :: Arrived(c, jobs, ok, stream, at, h, hits[h])
  }

  /** While rows wait to be copied to the device, no later job has its ids on the host. */
  ghost predicate CopiesFirst(stream: seq<GpuOp>, fired: set<nat>, hits: seq<Hit>) {
    && (forall op | op in stream && op.CopyRows? :: op.hit < |hits| && hits[op.hit].job == op.job)
    && (forall op, m: nat | op in stream && op.CopyRows? && op.job < m :: m !in fired)
  }

  /** The pending job is the last one created and has not been consumed. */
  ghost predicate PendingLast(jobs: seq<Job>, pending: Option<nat>, hits: seq<Hit>) {
    pending.Some? ==> pending.value == |jobs| - 1 && forall h | 0 <= h < |hits| :: hits[h].job != pending.value
  }

  /** What the host and the stream do, seen from the pinned ids. */
  ghost predicate StreamInv(c: Config, s: State) {
    Sorted(s.jobs, s.stream, s.at) && Events(|s.jobs|, s.stream, s.fired) &&
      IdsSafe(c, s.jobs, s.done, s.stream, s.at, s.idsMem)
  }

  ghost predicate WorkerInv(c: Config, s: State) {
    && InOrder(|s.jobs|, s.queue, s.worker, s.done, s.ok) && Awaited(s.worker, s.done, s.fired)
    && IdsRead(s.jobs, s.worker)
    && RowsWritten(c, s.jobs, s.rowsMem, s.worker) && RowsSafe(c, s.jobs, s.ok, s.fired, s.rowsMem)
  }

  ghost predicate HitInv(c: Config, s: State) {
    && HitsSafe(c, s.jobs, s.ok, s.stream, s.at, s.hits) && CopiesFirst(s.stream, s.fired, s.hits)
    && PendingLast(s.jobs, s.pending, s.hits)
  }

  ghost predicate Inv(c: Config, s: State) {
    Shape(c, s) && SlotsReused(s.jobs, s.slotJob, s.done) && StreamInv(c, s) && WorkerInv(c, s) && HitInv(c, s)
  }

  lemma InitialInv(c: Config, s: State)
    requires IsInitial(c, s)
    ensures Inv(c, s)
  {
  }

  // ---------------------------------------------------------------- the worker's steps keep it

  lemma TakeJobKeeps(c: Config, s: State)
    requires Inv(c, s) && Enabled(c, s, TakeJob)
    ensures Inv(c, Next(c, s, TakeJob))
  {
    assert WorkerInv(c, Next(c, s, TakeJob));
  }

  lemma SyncedKeeps(c: Config, s: State)
    requires Inv(c, s) && Enabled(c, s, Synced)
    ensures Inv(c, Next(c, s, Synced))
  {
    assert WorkerInv(c, Next(c, s, Synced));
  }

  /** A finished wait means the ids of the job are in place until the job is done. */
  lemma IdsInPlace(c: Config, s: State)
    requires StreamInv(c, s) && InOrder(|s.jobs|, s.queue, s.worker, s.done, s.ok) && Awaited(s.worker, s.done, s.fired)
    requires s.worker.Reading?
    ensures s.worker.job < |s.jobs| && IdsHere(c, s.jobs[s.worker.job], s.idsMem, |s.jobs[s.worker.job].ids|)
  {
  }

  lemma ReadIdKeeps(c: Config, s: State)
    requires Inv(c, s) && Enabled(c, s, ReadId)
    ensures Inv(c, Next(c, s, ReadId))
  {
    IdsInPlace(c, s);
    assert IdsRead(s.jobs, Next(c, s, ReadId).worker);
    assert WorkerInv(c, Next(c, s, ReadId));
  }

  lemma LookupsWorker(c: Config, s: State, t: State)
    requires IsConfig(c) && WorkerInv(c, s) && JobsFit(c, s.jobs) && |s.rowsMem| == 2 * c.slotRows
    requires Enabled(c, s, Lookups) && t == Next(c, s, Lookups)
    ensures WorkerInv(c, t)
  {
    assert s.worker.got == s.jobs[s.worker.job].ids;
    if t.worker.Writing? { assert RowsHere(c, s.jobs[s.worker.job], s.rowsMem, 0); }
  }

  lemma LookupsKeeps(c: Config, s: State)
    requires IsConfig(c) && Inv(c, s) && Enabled(c, s, Lookups)
    ensures Inv(c, Next(c, s, Lookups))
  {
    var t := Next(c, s, Lookups);
    LookupsWorker(c, s, t);
    DoneGrows(c, s, t);
  }

  /** Marking the worker's job done only weakens what is promised about unfinished jobs. */
  lemma DoneGrows(c: Config, s: State, t: State)
    requires SlotsReused(s.jobs, s.slotJob, s.done) && IdsSafe(c, s.jobs, s.done, s.stream, s.at, s.idsMem)
    requires s.done <= t.done && t.jobs == s.jobs && t.slotJob == s.slotJob && t.stream == s.stream && t.at == s.at
    requires t.idsMem == s.idsMem
    ensures SlotsReused(t.jobs, t.slotJob, t.done) && IdsSafe(c, t.jobs, t.done, t.stream, t.at, t.idsMem)
  {
  }

  /** Writing a row disturbs no rows that are still promised. */
  lemma WriteRowSafe(c: Config, s: State, p: nat, row: Row)
    requires JobsFit(c, s.jobs) && InOrder(|s.jobs|, s.queue, s.worker, s.done, s.ok)
    requires Awaited(s.worker, s.done, s.fired)
    requires RowsSafe(c, s.jobs, s.ok, s.fired, s.rowsMem) && s.worker.Writing? && s.worker.job < |s.jobs|
    requires Base(c, s.jobs[s.worker.job].slot) <= p < Base(c, s.jobs[s.worker.job].slot) + c.slotRows
    requires p < |s.rowsMem|
    ensures RowsSafe(c, s.jobs, s.ok, s.fired, s.rowsMem[p := row])
  {
    forall k | k in s.ok && LastFired(s.jobs, s.fired, k)
      ensures RowsHere(c, s.jobs[k], s.rowsMem[p := row], |s.jobs[k].ids|)
    {
      assert RowsHere(c, s.jobs[k], s.rowsMem, |s.jobs[k].ids|);
      assert !SameSlot(s.jobs, k, s.worker.job);
    }
  }

  lemma WriteRowKeeps(c: Config, s: State)
    requires IsConfig(c) && Inv(c, s) && Enabled(c, s, WriteRow)
    ensures Inv(c, Next(c, s, WriteRow))
  {
    var t := Next(c, s, WriteRow);
    WriteRowSafe(c, s, Base(c, s.jobs[s.worker.job].slot) + s.worker.written, s.worker.rows[s.worker.written]);
    assert RowsWritten(c, t.jobs, t.rowsMem, t.worker);
    assert WorkerInv(c, t);
  }

  lemma FinishKeeps(c: Config, s: State)
    requires IsConfig(c) && Inv(c, s) && Enabled(c, s, Finish)
    ensures Inv(c, Next(c, s, Finish))
  {
    var t := Next(c, s, Finish);
    DoneGrows(c, s, t);
    assert WorkerInv(c, t);
    assert HitsSafe(c, t.jobs, t.ok, t.stream, t.at, t.hits) by {
      forall h: nat | h < |t.hits| ensures Arrived(c, t.jobs, t.ok, t.stream, t.at, h, t.hits[h]) {
        assert Arrived(c, s.jobs, s.ok, s.stream, s.at, h, s.hits[h]);
      }
    }
  }

  // ---------------------------------------------------------------- the stream's steps keep it

  lemma CopyIdKeeps(c: Config, s: State)
    requires Inv(c, s) && GpuReady(c, s) && s.stream[0].CopyIds? && s.at < Length(s.jobs, s.stream[0])
    ensures Inv(c, DoGpu(c, s))
  {
    var t, m := DoGpu(c, s), s.stream[0].job;
    assert s.stream[0] == CopyIds(m) && CopyIds(m) in s.stream;
    assert m !in s.fired && m !in s.done;
    forall k: nat | k < |s.jobs| && k !in s.done && CopyIds(k) !in s.stream
      ensures IdsHere(c, s.jobs[k], t.idsMem, |s.jobs[k].ids|)
    {
      assert IdsHere(c, s.jobs[k], s.idsMem, |s.jobs[k].ids|);
      if k < m { assert !SameSlot(s.jobs, k, m); } else { assert !SameSlot(s.jobs, m, k); }
    }
    assert IdsHere(c, s.jobs[m], t.idsMem, t.at);
    HeadNoRows(c, s, t);
  }

  /** Progress of an operation that copies no rows concerns no hit. */
  lemma HeadNoRows(c: Config, s: State, t: State)
    requires HitsSafe(c, s.jobs, s.ok, s.stream, s.at, s.hits) && s.stream != [] && !s.stream[0].CopyRows?
    requires t.jobs == s.jobs && t.ok == s.ok && t.stream == s.stream && t.hits == s.hits
    ensures HitsSafe(c, t.jobs, t.ok, t.stream, t.at, t.hits)
  {
    forall h: nat | h < |t.hits| ensures Arrived(c, t.jobs, t.ok, t.stream, t.at, h, t.hits[h]) {
      assert Arrived(c, s.jobs, s.ok, s.stream, s.at, h, s.hits[h]);
    }
  }

  lemma CopyRowKeeps(c: Config, s: State)
    requires IsConfig(c) && Inv(c, s) && GpuReady(c, s) && s.stream[0].CopyRows? && s.at < Length(s.jobs, s.stream[0])
    ensures Inv(c, DoGpu(c, s))
  {
    var t, op := DoGpu(c, s), s.stream[0];
    assert op in s.stream && s.hits[op.hit].job == op.job;
    assert Arrived(c, s.jobs, s.ok, s.stream, s.at, op.hit, s.hits[op.hit]);
    assert LastFired(s.jobs, s.fired, op.job);
    assert RowsHere(c, s.jobs[op.job], s.rowsMem, |s.jobs[op.job].ids|);
    forall h: nat | h < |t.hits| ensures Arrived(c, t.jobs, t.ok, t.stream, t.at, h, t.hits[h]) {
      assert Arrived(c, s.jobs, s.ok, s.stream, s.at, h, s.hits[h]);
    }
  }

  lemma PopStream(c: Config, s: State)
    requires Sorted(s.jobs, s.stream, s.at) && s.stream != []
    ensures Sorted(s.jobs, s.stream[1..], 0)
    ensures forall op :: op in s.stream[1..] <==> op in s.stream && op != s.stream[0]
    ensures forall op | op in s.stream[1..] :: Rank(s.stream[0]) < Rank(op)
  {
    assert s.stream == [s.stream[0]] + s.stream[1..];
    forall op | op in s.stream[1..] ensures Rank(s.stream[0]) < Rank(op) {
      var i :| 0 <= i < |s.stream[1..]| && s.stream[1..][i] == op;
      assert s.stream[i + 1] == op;
    }
  }

  lemma PopEvents(c: Config, s: State, t: State)
    requires Sorted(s.jobs, s.stream, s.at) && Events(|s.jobs|, s.stream, s.fired) && s.stream != []
    requires t.stream == s.stream[1..] && t.fired == if s.stream[0].Fire? then s.fired + {s.stream[0].job} else s.fired
    ensures Events(|s.jobs|, t.stream, t.fired)
  {
    PopStream(c, s);
    assert s.stream[0].job < |s.jobs|;
    forall k: nat | CopyIds(k) in t.stream ensures k !in t.fired {
      assert Rank(s.stream[0]) < Rank(CopyIds(k));
    }
  }

  lemma PopCopies(c: Config, s: State, t: State)
    requires Sorted(s.jobs, s.stream, s.at) && CopiesFirst(s.stream, s.fired, s.hits) && s.stream != []
    requires t.stream == s.stream[1..]
    requires t.fired == (if s.stream[0].Fire? then s.fired + {s.stream[0].job} else s.fired) && t.hits == s.hits
    ensures CopiesFirst(t.stream, t.fired, t.hits)
  {
    PopStream(c, s);
    forall op, m: nat | op in t.stream && op.CopyRows? && op.job < m ensures m !in t.fired {
      assert Rank(s.stream[0]) < Rank(op);
    }
  }

  lemma PopHits(c: Config, s: State, t: State)
    requires IsConfig(c) && Sorted(s.jobs, s.stream, s.at) && HitsSafe(c, s.jobs, s.ok, s.stream, s.at, s.hits)
    requires s.stream != [] && s.at == Length(s.jobs, s.stream[0])
    requires t.stream == s.stream[1..] && t.at == 0 && t.jobs == s.jobs && t.ok == s.ok && t.hits == s.hits
    ensures HitsSafe(c, t.jobs, t.ok, t.stream, t.at, t.hits)
  {
    PopStream(c, s);
    forall h: nat | h < |t.hits| ensures Arrived(c, t.jobs, t.ok, t.stream, t.at, h, t.hits[h]) {
      assert Arrived(c, s.jobs, s.ok, s.stream, s.at, h, s.hits[h]);
    }
  }

  lemma PopIds(c: Config, s: State, t: State)
    requires JobsFit(c, s.jobs) && |s.idsMem| == 2 * c.slotRows && IdsSafe(c, s.jobs, s.done, s.stream, s.at, s.idsMem)
    requires Sorted(s.jobs, s.stream, s.at) && s.stream != [] && s.at == Length(s.jobs, s.stream[0])
    requires t.stream == s.stream[1..] && t.at == 0 && t.jobs == s.jobs && t.done == s.done && t.idsMem == s.idsMem
    ensures IdsSafe(c, t.jobs, t.done, t.stream, t.at, t.idsMem)
  {
    PopStream(c, s);
    forall k: nat | k < |t.jobs| && k !in t.done && CopyIds(k) !in t.stream
      ensures IdsHere(c, t.jobs[k], t.idsMem, |t.jobs[k].ids|)
    {
      if CopyIds(k) in s.stream { assert s.stream[0] == CopyIds(k); }
    }
    if t.stream != [] && t.stream[0].CopyIds? { assert s.stream[1].job < |s.jobs|; }
  }

  lemma PopKeeps(c: Config, s: State)
    requires IsConfig(c) && Inv(c, s) && GpuReady(c, s) && s.at >= Length(s.jobs, s.stream[0])
    ensures Inv(c, DoGpu(c, s))
  {
    var t := DoGpu(c, s);
    PopStream(c, s);
    PopEvents(c, s, t);
    PopCopies(c, s, t);
    PopHits(c, s, t);
    PopIds(c, s, t);
    assert StreamInv(c, t) && HitInv(c, t);
    assert RowsSafe(c, t.jobs, t.ok, t.fired, t.rowsMem) by {
      forall k | k in t.ok && LastFired(t.jobs, t.fired, k) ensures RowsHere(c, t.jobs[k], t.rowsMem, |t.jobs[k].ids|) {
        assert LastFired(s.jobs, s.fired, k);
      }
    }
    assert WorkerInv(c, t);
  }

  // ---------------------------------------------------------------- the host's steps keep it

  lemma RefusedKeeps(c: Config, s: State, ids: seq<int>)
    requires Inv(c, s) && (ids == [] || |ids| > c.slotRows || Refused(s))
    ensures Inv(c, DoPrefetch(c, s, ids))
  {
    var t := DoPrefetch(c, s, ids);
    assert HitInv(c, t) && StreamInv(c, t) && WorkerInv(c, t);
  }

  lemma AcceptSlots(c: Config, s: State, job: Job)
    requires SlotsReused(s.jobs, s.slotJob, s.done) && s.slot < 2 && job.slot == s.slot && !Refused(s)
    requires forall k: nat :: k in s.done ==> k < |s.jobs|
    requires JobsFit(c, s.jobs)
    requires forall j: nat, k: nat :: j < k && k in s.done ==> j in s.done
    ensures SlotsReused(s.jobs + [job], s.slotJob[s.slot := Some(|s.jobs|)], s.done)
  {
    var n := |s.jobs|;
    var jobs, slotJob := s.jobs + [job], s.slotJob[s.slot := Some(n)];
    forall k: nat | k < |jobs| ensures LastInSlot(jobs, slotJob, k) {
      if k < n { assert LastInSlot(s.jobs, s.slotJob, k); }
    }
    forall j: nat, k: nat | j < k && SameSlot(jobs, j, k) ensures j in s.done {
      if k < n {
        assert SameSlot(s.jobs, j, k);
      } else {
        assert LastInSlot(s.jobs, s.slotJob, j);
        assert j <= s.slotJob[s.slot].value;
      }
    }
  }

  lemma AppendSorted(jobs: seq<Job>, job: Job, stream: seq<GpuOp>, at: nat)
    requires Sorted(jobs, stream, at)
    ensures Sorted(jobs + [job], stream + [CopyIds(|jobs|), Fire(|jobs|)], at)
  {
    var n := |jobs|;
    var more := stream + [CopyIds(n), Fire(n)];
    forall i, j | 0 <= i < j < |more| ensures Rank(more[i]) < Rank(more[j]) {
      if i < |stream| { assert stream[i].job < n; }
    }
  }

  lemma AcceptStream(c: Config, s: State, t: State)
    requires StreamInv(c, s) && InOrder(|s.jobs|, s.queue, s.worker, s.done, s.ok)
    requires |t.jobs| == |s.jobs| + 1 && t.jobs[..|s.jobs|] == s.jobs && |s.idsMem| == 2 * c.slotRows
    requires JobsFit(c, t.jobs)
    requires t == s.(jobs := t.jobs, slot := t.slot, slotJob := t.slotJob, pending := t.pending,
                     queue := t.queue, stream := s.stream + [CopyIds(|s.jobs|), Fire(|s.jobs|)])
    ensures StreamInv(c, t)
  {
    var n := |s.jobs|;
    assert t.jobs == s.jobs + [t.jobs[n]];
    AppendSorted(s.jobs, t.jobs[n], s.stream, s.at);
    assert n !in s.fired;
    forall k: nat | k < n ensures Fire(k) in t.stream <==> Fire(k) in s.stream { }
    forall k: nat ensures CopyIds(k) in t.stream <==> CopyIds(k) in s.stream || k == n { }
    assert Events(|t.jobs|, t.stream, t.fired);
    forall k: nat | k < |t.jobs| && k !in t.done && CopyIds(k) !in t.stream
      ensures IdsHere(c, t.jobs[k], t.idsMem, |t.jobs[k].ids|)
    {
      assert IdsHere(c, s.jobs[k], s.idsMem, |s.jobs[k].ids|);
    }
  }

  lemma AcceptWorker(c: Config, s: State, t: State)
    requires WorkerInv(c, s) && (forall k | k in s.fired :: k < |s.jobs|)
    requires |t.jobs| == |s.jobs| + 1 && t.jobs[..|s.jobs|] == s.jobs && t.queue == s.queue + [|s.jobs|]
    requires t.worker == s.worker && t.done == s.done && t.ok == s.ok && t.fired == s.fired && t.rowsMem == s.rowsMem
    ensures WorkerInv(c, t)
  {
    forall k: nat | k < |s.jobs| ensures t.jobs[k] == s.jobs[k] { }
    forall k | k in t.ok && LastFired(t.jobs, t.fired, k) ensures RowsHere(c, t.jobs[k], t.rowsMem, |t.jobs[k].ids|) {
      forall m: nat | k < m && SameSlot(s.jobs, k, m) ensures m !in s.fired {
        assert SameSlot(t.jobs, k, m);
      }
      assert LastFired(s.jobs, s.fired, k);
    }
  }

  lemma AcceptHits(c: Config, s: State, t: State)
    requires HitInv(c, s) && Sorted(s.jobs, s.stream, s.at) && (forall k | k in s.fired :: k < |s.jobs|)
    requires |t.jobs| == |s.jobs| + 1 && t.jobs[..|s.jobs|] == s.jobs
    requires t.stream == s.stream + [CopyIds(|s.jobs|), Fire(|s.jobs|)] && t.at == s.at && t.ok == s.ok
    requires t.fired == s.fired && t.hits == s.hits
    requires t.pending == Some(|s.jobs|)
    ensures HitInv(c, t)
  {
    forall k: nat | k < |s.jobs| ensures t.jobs[k] == s.jobs[k] { }
    forall h: nat | h < |t.hits| ensures Arrived(c, t.jobs, t.ok, t.stream, t.at, h, t.hits[h]) {
      assert Arrived(c, s.jobs, s.ok, s.stream, s.at, h, s.hits[h]);
    }
    assert CopiesFirst(t.stream, t.fired, t.hits);
  }

  lemma AcceptKeeps(c: Config, s: State, ids: seq<int>)
    requires Inv(c, s) && ids != [] && |ids| <= c.slotRows && !Refused(s)
    ensures Inv(c, DoPrefetch(c, s, ids))
  {
    var t := DoPrefetch(c, s, ids);
    AcceptSlots(c, s, Job(ids, s.slot));
    assert JobsFit(c, t.jobs);
    AcceptStream(c, s, t);
    AcceptWorker(c, s, t);
    AcceptHits(c, s, t);
  }

  lemma ConsumeHits(c: Config, s: State, want: nat)
    requires IsConfig(c) && Sorted(s.jobs, s.stream, s.at) && HitInv(c, s) && Hits(s, want)
    requires (forall k | k in s.fired :: k < |s.jobs|)
    requires (forall k | k in s.ok :: k < |s.jobs| && c.answer(s.jobs[k].ids).Some?)
    ensures HitInv(c, DoConsume(s, want)) && Sorted(s.jobs, DoConsume(s, want).stream, s.at)
  {
    var t, k := DoConsume(s, want), s.pending.value;
    forall i | 0 <= i < |s.stream| ensures Rank(s.stream[i]) < Rank(CopyRows(k, |s.hits|)) {
      assert s.stream[i] in s.stream;
    }
    assert CopyRows(k, |s.hits|) !in s.stream;
    assert Sorted(t.jobs, t.stream, t.at);
    forall h: nat | h < |t.hits| ensures Arrived(c, t.jobs, t.ok, t.stream, t.at, h, t.hits[h]) {
      if h < |s.hits| { assert Arrived(c, s.jobs, s.ok, s.stream, s.at, h, s.hits[h]); }
    }
    assert CopiesFirst(t.stream, t.fired, t.hits);
  }

  lemma ConsumeKeeps(c: Config, s: State, want: nat)
    requires IsConfig(c) && Inv(c, s)
    ensures Inv(c, DoConsume(s, want))
  {
    var t := DoConsume(s, want);
    if Hits(s, want) {
      ConsumeHits(c, s, want);
      var op := CopyRows(s.pending.value, |s.hits|);
      assert t.stream == s.stream + [op];
      assert Events(|t.jobs|, t.stream, t.fired);
      assert IdsSafe(c, t.jobs, t.done, t.stream, t.at, t.idsMem);
    }
  }

  lemma NextKeepsInv(c: Config, s: State, a: Action)
    requires IsConfig(c) && Inv(c, s) && Enabled(c, s, a)
    ensures Inv(c, Next(c, s, a))
  {
    match a
    case Prefetch(ids) =>
      if ids == [] || |ids| > c.slotRows || Refused(s) {
        RefusedKeeps(c, s, ids);
      } else {
        AcceptKeeps(c, s, ids);
      }
    case Consume(want) => ConsumeKeeps(c, s, want);
    case TakeJob => TakeJobKeeps(c, s);
    case Synced => SyncedKeeps(c, s);
    case ReadId => ReadIdKeeps(c, s);
    case Lookups => LookupsKeeps(c, s);
    case WriteRow => WriteRowKeeps(c, s);
    case Finish => FinishKeeps(c, s);
    case Gpu =>
      if s.at >= Length(s.jobs, s.stream[0]) { PopKeeps(c, s); }
      else if s.stream[0].CopyIds? { CopyIdKeeps(c, s); }
      else { CopyRowKeeps(c, s); }
  }

  // ---------------------------------------------------------------- whole runs

  ghost predicate Behavior(c: Config, states: seq<State>, actions: seq<Action>) {
    && |states| == |actions| + 1 && IsInitial(c, states[0])
    && forall i | 0 <= i < |actions| ::
         Enabled(c, states[i], actions[i]) && states[i + 1] == Next(c, states[i], actions[i])
  }

  lemma {:induction false} BehaviorInv(c: Config, states: seq<State>, actions: seq<Action>, i: nat)
    requires IsConfig(c) && Behavior(c, states, actions) && i < |states|
    ensures Inv(c, states[i])
  {
    if i == 0 {
      InitialInv(c, states[0]);
    } else {
      BehaviorInv(c, states, actions, i - 1);
      NextKeepsInv(c, states[i - 1], actions[i - 1]);
    }
  }

  /** Hit `h` has fully arrived once its copy has left the stream. */
  predicate Delivered(s: State, h: nat)
    requires h < |s.hits|
  {
    CopyRows(s.hits[h].job, h) !in s.stream
  }

  /** In every interleaving, what a hit delivers to the device is exactly the gather of the ids submitted with its
      job, and whatever part has arrived earlier is a prefix of it: no later job, and no unfinished one, shows
      through. */
  lemma HitsDeliverTheirJob(t: Table, slotRows: nat, states: seq<State>, actions: seq<Action>, i: nat, h: nat)
    requires Usable(t) && slotRows > 0 && i < |states| && h < |states[i].hits|
    requires Behavior(Over(t, slotRows), states, actions)
    ensures var s, k := states[i], states[i].hits[h].job;
            && k < |s.jobs| && HasAll(t, s.jobs[k].ids)
            && s.hits[h].rows <= LookupAll(t, s.jobs[k].ids).value
            && (Delivered(s, h) ==> s.hits[h].rows == LookupAll(t, s.jobs[k].ids).value)
  {
    var c := Over(t, slotRows);
    OverIsConfig(t, slotRows);
    BehaviorInv(c, states, actions, i);
    assert Arrived(c, states[i].jobs, states[i].ok, states[i].stream, states[i].at, h, states[i].hits[h]);
  }

  /** The pipeline over a real table. */
  function Over(t: Table, slotRows: nat): Config
    requires Usable(t)
  {
    Config(ids => LookupAll(t, ids), slotRows)
  }

  lemma OverIsConfig(t: Table, slotRows: nat)
    requires Usable(t) && slotRows > 0
    ensures IsConfig(Over(t, slotRows))
  {
  }

  /** Prefetch call `j` is the last one before step `i`. */
  predicate LastCall(actions: seq<Action>, i: nat, j: nat) {
    j < i <= |actions| && actions[j].Prefetch? && forall m | j < m < i :: !actions[m].Prefetch?
  }

  /** Step `j` of the run creates job number `k`. */
  predicate Creates(states: seq<State>, j: nat, k: nat) {
    j + 1 < |states| && |states[j].jobs| == k < |states[j + 1].jobs|
  }

  /** The branches of a prefetch call that start no job. */
  predicate Skips(c: Config, s: State, ids: seq<int>)
    requires s.slot < |s.slotJob|
  {
    ids == [] || |ids| > c.slotRows || Refused(s)
  }

  lemma StepKeepsJobs(c: Config, s: State, a: Action)
    requires Enabled(c, s, a)
    ensures s.jobs <= Next(c, s, a).jobs && (!a.Prefetch? ==> Next(c, s, a).jobs == s.jobs)
  {
  }

  /** Between prefetch calls no job is created, and none is ever changed. */
  lemma {:induction false} JobsStay(c: Config, states: seq<State>, actions: seq<Action>, j: nat, i: nat)
    requires Behavior(c, states, actions) && j <= i <= |actions|
    ensures states[j].jobs <= states[i].jobs
    ensures (forall m | j <= m < i :: !actions[m].Prefetch?) ==> states[j].jobs == states[i].jobs
  {
    if j < i {
      JobsStay(c, states, actions, j, i - 1);
      StepKeepsJobs(c, states[i - 1], actions[i - 1]);
    }
  }

  /** Where there is a job there has been a call. */
  lemma {:induction false} LastCallBefore(c: Config, states: seq<State>, actions: seq<Action>, i: nat) returns (j: nat)
    requires Behavior(c, states, actions) && i <= |actions| && states[i].jobs != []
    ensures LastCall(actions, i, j)
  {
    if actions[i - 1].Prefetch? {
      j := i - 1;
    } else {
      StepKeepsJobs(c, states[i - 1], actions[i - 1]);
      j := LastCallBefore(c, states, actions, i - 1);
    }
  }

  /** What a consume that hits hands out, over the whole run: it is always the last job created. It is the job of the
      last prefetch call, and so has the ids of that call, if and only if that call did not take a branch that starts
      no job; otherwise an earlier call created it. */
  lemma HitIsLatestIffAccepted(c: Config, states: seq<State>, actions: seq<Action>, i: nat, j: nat)
    requires IsConfig(c) && Behavior(c, states, actions) && i < |actions| && actions[i].Consume?
    requires Hits(states[i], actions[i].want) && LastCall(actions, i, j)
    ensures var s, k := states[i], |states[i].jobs| - 1;
            && |states[i + 1].hits| == |s.hits| + 1 && states[i + 1].hits[|s.hits|].job == k
            && states[j].slot < |states[j].slotJob|
            && (Creates(states, j, k) <==> !Skips(c, states[j], actions[j].ids))
            && (if Creates(states, j, k) then s.jobs[k].ids == actions[j].ids else k < |states[j].jobs|)
  {
    BehaviorInv(c, states, actions, i);
    BehaviorInv(c, states, actions, j);
    JobsStay(c, states, actions, j + 1, i);
    assert Enabled(c, states[j], actions[j]) && states[j + 1] == Next(c, states[j], actions[j]);
  }

  /** A caller that asks for as many rows as it last called for can get the rows of another call only because that
      call found its slot stuck. */
  lemma StaleOnlyIfRefused(c: Config, states: seq<State>, actions: seq<Action>, i: nat, j: nat)
    requires IsConfig(c) && Behavior(c, states, actions) && i < |actions|
    requires LastCall(actions, i, j) && actions[i] == Consume(|actions[j].ids|) && Hits(states[i], actions[i].want)
    ensures states[j].slot < |states[j].slotJob|
    ensures Creates(states, j, states[i].pending.value) <==> !Refused(states[j])
  {
    HitIsLatestIffAccepted(c, states, actions, i, j);
    BehaviorInv(c, states, actions, i);
  }

  /** Every job was created by one step, a prefetch call for its ids. */
  lemma {:induction false} CreatorOf(c: Config, states: seq<State>, actions: seq<Action>, i: nat, k: nat)
    returns (j: nat)
    requires Behavior(c, states, actions) && i <= |actions| && k < |states[i].jobs|
    ensures j < i && Creates(states, j, k) && actions[j].Prefetch? && states[i].jobs[k].ids == actions[j].ids
  {
    StepKeepsJobs(c, states[i - 1], actions[i - 1]);
    if k < |states[i - 1].jobs| {
      j := CreatorOf(c, states, actions, i - 1, k);
    } else {
      j := i - 1;
    }
  }

  /** Once nothing is pending, only a job created later can be. */
  lemma {:induction false} PendingIsNew(c: Config, states: seq<State>, actions: seq<Action>, a: nat, i: nat)
    requires Behavior(c, states, actions) && a <= i <= |actions| && states[a].pending == None
    ensures |states[a].jobs| <= |states[i].jobs|
    ensures states[i].pending.Some? ==> |states[a].jobs| <= states[i].pending.value < |states[i].jobs|
  {
    if a < i {
      PendingIsNew(c, states, actions, a, i - 1);
      StepKeepsJobs(c, states[i - 1], actions[i - 1]);
      StepPending(c, states[i - 1], actions[i - 1]);
    }
  }

  /** Only a prefetch call sets what is pending, to a new job. */
  lemma StepPending(c: Config, s: State, a: Action)
    requires Enabled(c, s, a)
    ensures var t := Next(c, s, a);
            t.pending.Some? ==> t.pending == s.pending || (t.pending.value == |s.jobs| && |t.jobs| == |s.jobs| + 1)
  {
  }

  /** A consume uses the pending job up, hit or miss. */
  lemma ConsumeTakes(c: Config, states: seq<State>, actions: seq<Action>, m: nat)
    requires Behavior(c, states, actions) && m < |actions| && actions[m].Consume?
    ensures states[m + 1].pending == None && states[m + 1].jobs == states[m].jobs
  {
    assert states[m + 1] == Next(c, states[m], actions[m]);
  }

  /** A job is offered to the first consume after its creation and to no other: a consume hits only if no consume, hit
      or miss, lies between the call that created the job and it. */
  lemma OfferedOnce(c: Config, states: seq<State>, actions: seq<Action>, i: nat, j: nat, m: nat)
    requires Behavior(c, states, actions) && i < |actions| && actions[i].Consume? && Hits(states[i], actions[i].want)
    requires j < |actions| && Creates(states, j, states[i].pending.value) && j < m < i
    ensures !actions[m].Consume?
  {
    if actions[m].Consume? {
      ConsumeTakes(c, states, actions, m);
      JobsStay(c, states, actions, j + 1, m);
      PendingIsNew(c, states, actions, m + 1, i);
    }
  }

  /** After a consume every further one misses, whatever it asks for, until a prefetch call has started a job. */
  lemma MissesUntilStarted(c: Config, states: seq<State>, actions: seq<Action>, m: nat, i: nat)
    requires Behavior(c, states, actions) && m < i < |actions| && actions[m].Consume? && actions[i].Consume?
    requires forall k: nat | m < k < i && actions[k].Prefetch? ::
               states[k].slot < |states[k].slotJob| && Skips(c, states[k], actions[k].ids)
    ensures !Hits(states[i], actions[i].want) && states[i + 1].hits == states[i].hits
  {
    ConsumeTakes(c, states, actions, m);
    NothingStarted(c, states, actions, m + 1, i);
    PendingIsNew(c, states, actions, m + 1, i);
    assert states[i + 1] == Next(c, states[i], actions[i]);
  }

  lemma {:induction false} NothingStarted(c: Config, states: seq<State>, actions: seq<Action>, a: nat, i: nat)
    requires Behavior(c, states, actions) && a <= i <= |actions|
    requires forall k: nat | a <= k < i && actions[k].Prefetch? ::
               states[k].slot < |states[k].slotJob| && Skips(c, states[k], actions[k].ids)
    ensures states[i].jobs == states[a].jobs
  {
    if a < i {
      NothingStarted(c, states, actions, a, i - 1);
      StepKeepsJobs(c, states[i - 1], actions[i - 1]);
      assert states[i] == Next(c, states[i - 1], actions[i - 1]);
    }
  }

  /** No step finds a buffer too short or an index out of place. */
  lemma NoStepFaults(c: Config, s: State)
    requires IsConfig(c) && Inv(c, s)
    ensures s.stream != [] ==> GpuReady(c, s)
    ensures s.worker.Syncing? ==> s.worker.job in s.fired || Fire(s.worker.job) in s.stream
    ensures s.worker.Reading? ==> Enabled(c, s, ReadId) || Enabled(c, s, Lookups)
    ensures s.worker.Writing? ==> Enabled(c, s, WriteRow) || Enabled(c, s, Finish)
  {
    if s.stream != [] {
      var op := s.stream[0];
      assert op in s.stream;
    }
  }

  // ---------------------------------------------------------------- a hit for an older call

  lemma Extend(c: Config, states: seq<State>, actions: seq<Action>, a: Action)
    returns (states': seq<State>, actions': seq<Action>)
    requires Behavior(c, states, actions) && Enabled(c, states[|actions|], a)
    ensures Behavior(c, states', actions') && |actions'| == |actions| + 1
    ensures states'[|actions'|] == Next(c, states[|actions|], a)
    ensures states <= states' && actions' == actions + [a]
  {
    states', actions' := states + [Next(c, states[|actions|], a)], actions + [a];
  }

  /** The run goes on without calls from the host. */
  ghost predicate Quietly(actions: seq<Action>, actions': seq<Action>) {
    actions <= actions' && forall i | |actions| <= i < |actions'| :: !actions'[i].Prefetch? && !actions'[i].Consume?
  }

  /** The stream delivers the ids of a one-row job and fires its event. */
  lemma StreamOne(c: Config, states: seq<State>, actions: seq<Action>, k: nat)
    returns (states': seq<State>, actions': seq<Action>)
    requires IsConfig(c) && Behavior(c, states, actions)
    requires var s := states[|actions|];
             && Shape(c, s) && k < |s.jobs| && |s.jobs[k].ids| == 1 && |s.stream| >= 2 && s.stream[0] == CopyIds(k)
             && s.stream[1] == Fire(k) && s.at == 0
    ensures Behavior(c, states', actions') && states <= states' && Quietly(actions, actions')
    ensures var s, t := states[|actions|], states'[|actions'|];
            t == s.(idsMem := s.idsMem[Base(c, s.jobs[k].slot) := s.jobs[k].ids[0]], stream := s.stream[2..],
                    fired := s.fired + {k})
  {
    var st, ac := Extend(c, states, actions, Gpu);
    st, ac := Extend(c, st, ac, Gpu);
    assert st[|ac|].stream[0] == Fire(k);
    states', actions' := Extend(c, st, ac, Gpu);
  }

  /** The worker takes a one-row job and reads its id. */
  lemma ReadOne(c: Config, states: seq<State>, actions: seq<Action>)
    returns (states': seq<State>, actions': seq<Action>)
    requires IsConfig(c) && Behavior(c, states, actions)
    requires var s := states[|actions|];
             && Shape(c, s) && s.worker.Idle? && s.queue != [] && s.queue[0] < |s.jobs| && s.queue[0] in s.fired
             && var job := s.jobs[s.queue[0]]; |job.ids| == 1 && s.idsMem[Base(c, job.slot)] == job.ids[0]
    ensures Behavior(c, states', actions') && states <= states' && Quietly(actions, actions')
    ensures var s := states[|actions|];
            states'[|actions'|] == s.(queue := s.queue[1..], worker := Reading(s.queue[0], s.jobs[s.queue[0]].ids))
  {
    states', actions' := Extend(c, states, actions, TakeJob);
    states', actions' := Extend(c, states', actions', Synced);
    states', actions' := Extend(c, states', actions', ReadId);
    var s := states[|actions|];
    assert states'[|actions'|].worker.got == s.jobs[s.queue[0]].ids;
  }

  /** It looks the id up, writes the row and ends the job. */
  lemma AnswerOne(c: Config, states: seq<State>, actions: seq<Action>)
    returns (states': seq<State>, actions': seq<Action>)
    requires IsConfig(c) && Behavior(c, states, actions)
    requires var s := states[|actions|];
             && Shape(c, s) && s.worker.Reading? && s.worker.job < |s.jobs| && s.worker.got == s.jobs[s.worker.job].ids
             && |s.worker.got| == 1 && c.answer(s.worker.got).Some?
    ensures Behavior(c, states', actions') && states <= states' && Quietly(actions, actions')
    ensures var s, t := states[|actions|], states'[|actions'|];
            && t == s.(worker := Idle, done := s.done + {s.worker.job}, ok := s.ok + {s.worker.job},
                       rowsMem := t.rowsMem)
            && |t.rowsMem| == |s.rowsMem|
  {
    states', actions' := Extend(c, states, actions, Lookups);
    states', actions' := Extend(c, states', actions', WriteRow);
    states', actions' := Extend(c, states', actions', Finish);
  }

  /** The worker serves a one-row job whose ids are there. */
  lemma ServeOne(c: Config, states: seq<State>, actions: seq<Action>)
    returns (states': seq<State>, actions': seq<Action>)
    requires IsConfig(c) && Behavior(c, states, actions)
    requires var s := states[|actions|];
             && Shape(c, s) && s.worker.Idle? && s.queue != [] && s.queue[0] < |s.jobs| && s.queue[0] in s.fired
             && var job := s.jobs[s.queue[0]];
                |job.ids| == 1 && s.idsMem[Base(c, job.slot)] == job.ids[0] && c.answer(job.ids).Some?
    ensures Behavior(c, states', actions') && states <= states' && Quietly(actions, actions')
    ensures var s, t := states[|actions|], states'[|actions'|];
            && t == s.(queue := s.queue[1..], done := s.done + {s.queue[0]}, ok := s.ok + {s.queue[0]},
                       rowsMem := t.rowsMem)
            && |t.rowsMem| == |s.rowsMem|
  {
    states', actions' := ReadOne(c, states, actions);
    states', actions' := AnswerOne(c, states', actions');
  }

  /** Three calls before anything else happens: the third finds its slot stuck. */
  lemma ThreeCalls(c: Config, start: State, x: int, y: int, z: int) returns (states: seq<State>, actions: seq<Action>)
    requires IsConfig(c) && IsInitial(c, start)
    ensures Behavior(c, states, actions) && actions == [Prefetch([x]), Prefetch([y]), Prefetch([z])]
    ensures states[0] == start
    ensures Shape(c, states[2]) && Refused(states[2])
    ensures states[3] == start.(jobs := [Job([x], 0), Job([y], 1)], slot := 1, slotJob := [Some(0), Some(1)],
                                pending := Some(1),
                                queue := [0, 1], stream := [CopyIds(0), Fire(0), CopyIds(1), Fire(1)])
  {
    states, actions := [start], [];
    states, actions := Extend(c, states, actions, Prefetch([x]));
    states, actions := Extend(c, states, actions, Prefetch([y]));
    states, actions := Extend(c, states, actions, Prefetch([z]));
  }

  /** The stream and the worker then serve both accepted jobs. */
  lemma ServeBoth(c: Config, states: seq<State>, actions: seq<Action>)
    returns (states': seq<State>, actions': seq<Action>)
    requires IsConfig(c) && Behavior(c, states, actions)
    requires var s := states[|actions|];
             && Shape(c, s) && |s.jobs| == 2 && s.jobs[0].slot == 0 && s.jobs[1].slot == 1
             && |s.jobs[0].ids| == |s.jobs[1].ids| == 1
             && s.queue == [0, 1] && s.stream == [CopyIds(0), Fire(0), CopyIds(1), Fire(1)] && s.at == 0
             && s.worker.Idle?
             && c.answer(s.jobs[0].ids).Some? && c.answer(s.jobs[1].ids).Some?
    ensures Behavior(c, states', actions') && states <= states' && Quietly(actions, actions')
    ensures var s, t := states[|actions|], states'[|actions'|];
            t == s.(queue := [], stream := [], idsMem := t.idsMem, rowsMem := t.rowsMem, fired := t.fired,
                    done := t.done, ok := s.ok + {0} + {1})
            && t.ok <= t.done + s.ok && 1 in t.done
  {
    states', actions' := StreamOne(c, states, actions, 0);
    states', actions' := StreamOne(c, states', actions', 1);
    states', actions' := ServeOne(c, states', actions');
    states', actions' := ServeOne(c, states', actions');
  }

  /** A call refused because its slot is stuck leaves the job before it pending; once that job is served, the consume
      for the refused call hits and hands out the other call's rows. */
  lemma StaleHit(c: Config, start: State, x: int, y: int, z: int) returns (states: seq<State>, actions: seq<Action>)
    requires IsConfig(c) && IsInitial(c, start) && c.answer([x]).Some? && c.answer([y]).Some?
    ensures Behavior(c, states, actions) && |actions| > 3 && states[0] == start
    ensures actions[..3] == [Prefetch([x]), Prefetch([y]), Prefetch([z])]
    ensures var s := states[|actions| - 1];
            && Quietly(actions[..3], actions[..|actions| - 1]) && actions[|actions| - 1] == Consume(1) && Hits(s, 1)
            && s.jobs[s.pending.value].ids == [y] && Shape(c, states[2]) && Refused(states[2])
  {
    states, actions := ThreeCalls(c, start, x, y, z);
    ghost var three := actions;
    states, actions := ServeBoth(c, states, actions);
    ghost var served, before := actions, states[|actions|];
    assert 1 in before.ok && 1 in before.done * before.ok;
    states, actions := Extend(c, states, actions, Consume(1));
    assert actions[..3] == three && actions[..|actions| - 1] == served && states[|served|] == before;
  }

  // ---------------------------------------------------------------- the host's object

  datatype Shared = Shared(jobs: seq<Job>, worker: Worker, done: set<nat>, ok: set<nat>, at: nat, fired: set<nat>,
                           idsMem: seq<int>, rowsMem: seq<Row>, hits: seq<Hit>)

  /** The wrapper the host thread calls; what worker and stream do to the rest of the state happens between calls. */
  class PrefetchingTable {
    const config: Config
    var slot: nat
    var slotJob: seq<Option<nat>>
    var pending: Option<nat>
    var queue: seq<nat>
    var stream: seq<GpuOp>
    /** What worker and stream own too, and the hits handed out. */
    var shared: Shared

    function View(): State
      reads this
    {
      State(shared.jobs, slot, slotJob, pending, queue, shared.worker, shared.done, shared.ok, stream, shared.at,
            shared.fired, shared.idsMem, shared.rowsMem, shared.hits)
    }

    constructor (config: Config, start: State)
      requires IsConfig(config) && IsInitial(config, start)
      ensures this.config == config && View() == start
    {
      this.config := config;
      slot, slotJob, pending, queue, stream := start.slot, start.slotJob, start.pending, start.queue, start.stream;
      shared := Shared(start.jobs, start.worker, start.done, start.ok, start.at, start.fired, start.idsMem,
                       start.rowsMem,
                       start.hits);
    }

    /** Turns to the other slot for every batch that fits; starts a job unless the slot's last one is not done. */
    method Prefetch(ids: seq<int>)
      requires slot < 2 == |slotJob|
      modifies this
      ensures slot == if 0 < |ids| <= config.slotRows then 1 - old(slot) else old(slot)
      ensures var last, k := old(slotJob[slot]), |old(shared.jobs)|;
              if 0 < |ids| <= config.slotRows && (last == None || last.value in old(shared.done)) then
                && shared == old(shared).(jobs := old(shared.jobs) + [Job(ids, old(slot))]) && pending == Some(k)
                && slotJob == old(slotJob)[old(slot) := Some(k)] && queue == old(queue) + [k]
                && stream == old(stream) + [CopyIds(k), Fire(k)]
              else
                && shared == old(shared) && pending == old(pending) && slotJob == old(slotJob)
                && queue == old(queue) && stream == old(stream)
      ensures View() == DoPrefetch(config, old(View()), ids)
    {
      if ids == [] || |ids| > config.slotRows { return; }
      var mine := slot;
      slot := 1 - slot;
      var prev := slotJob[mine];
      if prev.Some? && prev.value !in shared.done { return; }
      var k := |shared.jobs|;
      stream := stream + [CopyIds(k)];
      stream := stream + [Fire(k)];
      assert stream == old(stream) + [CopyIds(k), Fire(k)];
      shared := shared.(jobs := shared.jobs + [Job(ids, mine)]);
      slotJob := slotJob[mine := Some(k)];
      pending := Some(k);
      queue := queue + [k];
    }

    /** Drops the pending job, hit or miss; the number of the hit, or none. A hit takes a job of the wanted size that
        ended well, and the stream will copy its rows. */
    method Consume(want: nat) returns (hit: Option<nat>)
      modifies this
      ensures pending == None && slot == old(slot) && slotJob == old(slotJob) && queue == old(queue)
      ensures hit.Some? <==>
                && old(pending).Some? && old(pending).value < |old(shared.jobs)|
                && |old(shared.jobs)[old(pending).value].ids| == want
                && old(pending).value in old(shared.done) && old(pending).value in old(shared.ok)
      ensures hit == None ==> shared == old(shared) && stream == old(stream)
      ensures hit.Some? ==>
                && old(pending).Some? && hit.value == |old(shared.hits)|
                && shared == old(shared).(hits := old(shared.hits) + [Hit(old(pending).value, [])])
                && stream == old(stream) + [CopyRows(old(pending).value, hit.value)]
      ensures View() == DoConsume(old(View()), want)
      ensures hit == if Hits(old(View()), want) then Some(|old(shared.hits)|) else None
    {
      var job := pending;
      pending := None;
      if job.None? || job.value >= |shared.jobs| || |shared.jobs[job.value].ids| != want
         || job.value !in shared.done || job.value !in shared.ok {
        return None;
      }
      hit := Some(|shared.hits|);
      stream := stream + [CopyRows(job.value, |shared.hits|)];
      shared := shared.(hits := shared.hits + [Hit(job.value, [])]);
    }
  }
}
