/**
 The fsync protocol of the append only file: the main thread appends, writes, fsyncs or
 hands an fsync job to a worker, and both threads store a replication offset in
 `fsynced_reploff_pending`. Each thread moves in small steps, so that a run is any
 interleaving of the two. The log is counted in bytes from its very beginning; it is kept
 in a sequence of files, of which the last one is open for appending.
 */
module AofFsync {

  datatype Policy = Always | EverySec | No

  /** The bytes `start..end` of the log, written to one file; those before `sync` are on the disk. */
  datatype File = File(start: nat, end: nat, sync: nat)

  /** `BIO_AOF_FSYNC` and `BIO_CLOSE_AOF`. */
  datatype Job = FsyncJob(file: nat, offset: nat) | CloseJob(file: nat, offset: nat)

  /**
   Where the main thread is inside `flushAppendOnlyFile`. `busy` is its `sync_in_progress`; `own` says that it comes
   from an fsync of its own and not from the empty-buffer branch.
   */
  datatype Main = Idle | Writing(busy: bool) | Syncing(busy: bool) | Publishing(own: bool) | Stopped

  /** Where the worker is with the job at the head of its queue. */
  datatype Worker = Waiting | Taken | Synced(ok: bool) | Finished

  /**
   `bioOk` is `aof_bio_fsync_status`, which the server reads and reports. No variable of the server says what `lost`
   does: the last finished fsync of the open file failed, or an earlier one did and none has succeeded since, with
   bytes left behind.
   */
  datatype State = State(
    policy: Policy, noFsyncOnRewrite: bool, now: nat, lastFsync: nat, postponed: nat,
    files: seq<File>, buf: nat, fsyncTo: nat, offset: nat,
    pending: nat, bioOk: bool, lost: bool,
    main: Main, queue: seq<Job>, counter: nat, worker: Worker,
    need: map<nat, nat>)

  /** What write(2) did: everything, or only the first `n` bytes, which could be taken back or not. */
  datatype Write = Full | Partial(n: nat, undone: bool)

  datatype Event =
    | Append(bytes: nat, delta: nat)
    | Tick(dt: nat)
    | SetPolicy(policy: Policy)
    | SetNoFsync(on: bool)
    | Begin(force: bool)
    | DoWrite(write: Write)
    | DoSync(child: bool, ok: bool)
    | DoPublish
    | Switch
    | Take
    | WorkerFsync(ok: bool)
    | WorkerPublish
    | Retire

  // ----- the steps of the main thread

  function Last(s: State): File requires s.files != [] { s.files[|s.files| - 1] }

  function WithLast(s: State, f: File): State
    requires s.files != []
  {
    s.(files := s.files[|s.files| - 1 := f])
  }

  /** A command is appended to the buffer and propagated. */
  function AppendStep(s: State, bytes: nat, delta: nat): State
    requires s.files != []
  {
    var off, total := s.offset + delta, Last(s).end + s.buf + bytes;
    s.(buf := s.buf + bytes, offset := off, need := s.need[off := total])
  }

  /** `flushAppendOnlyFile` up to its first system call. */
  function BeginStep(s: State, force: bool): State
    requires s.files != []
  {
    if s.buf == 0 then
      if s.fsyncTo == Last(s).end then
        if s.counter == 0 then s.(main := Publishing(false)) else s
      else if s.policy == EverySec && s.now - s.lastFsync >= 1000 && s.counter == 0 then s.(main := Syncing(false))
      else if s.policy == Always then s.(main := Syncing(false))
      else s
    else
      var busy := s.policy == EverySec && s.counter != 0;
      if busy && !force && s.postponed == 0 then s.(postponed := s.now)
      else if busy && !force && s.now - s.postponed < 2000 then s
      else s.(main := Writing(busy))
  }

  function WriteStep(s: State, busy: bool, w: Write): State
    requires s.files != []
  {
    var f, t := Last(s), s.(postponed := 0);
    if w.Full? then WithLast(t, f.(end := f.end + s.buf)).(buf := 0, main := Syncing(busy))
    else if s.policy == Always then t.(main := Stopped)
    else if w.undone || w.n > s.buf then t.(main := Idle)
    else WithLast(t, f.(end := f.end + w.n)).(buf := s.buf - w.n, main := Idle)
  }

  /** From `try_fsync` on, up to the publication of the offset. */
  function SyncStep(s: State, busy: bool, child: bool, ok: bool): State
    requires s.files != []
  {
    var f := Last(s);
    if s.noFsyncOnRewrite && child then s.(main := Idle)
    else if s.policy == Always then
      if ok then WithLast(s, f.(sync := f.end)).(fsyncTo := f.end, lastFsync := s.now, lost := false,
        main := Publishing(true))
      else s.(main := Stopped)
    else if s.policy == EverySec && s.now - s.lastFsync >= 1000 then
      if busy then s.(lastFsync := s.now, main := Idle)
      else s.(queue := s.queue + [FsyncJob(|s.files| - 1, s.offset)], counter := s.counter + 1,
              fsyncTo := f.end, lastFsync := s.now, main := Idle)
    else s.(main := Idle)
  }

  /** A new INCR file: the old one is fsynced and closed by the worker. */
  function SwitchStep(s: State): State
    requires s.files != []
  {
    var end := Last(s).end;
    s.(queue := s.queue + [CloseJob(|s.files| - 1, s.offset)], lastFsync := s.now,
       files := s.files + [File(end, end, end)], fsyncTo := end, lost := false)
  }

  // ----- the steps of the worker

  function FsyncStep(s: State, ok: bool): State
    requires s.queue != [] && s.queue[0].file < |s.files|
  {
    var i := s.queue[0].file;
    var t, isLast := s.(worker := Synced(ok)), i == |s.files| - 1;
    if ok then t.(files := s.files[i := s.files[i].(sync := s.files[i].end)], lost := s.lost && !isLast)
    else t.(lost := s.lost || (isLast && s.files[i].sync < s.files[i].end))
  }

  function PublishStep(s: State, ok: bool): State
    requires s.queue != []
  {
    var t := s.(worker := Finished, bioOk := ok);
    if ok then t.(pending := s.queue[0].offset) else t
  }

  function RetireStep(s: State): State
    requires s.queue != []
  {
    var t := s.(queue := s.queue[1..], worker := Waiting);
    if s.queue[0].FsyncJob? && s.counter > 0 then t.(counter := s.counter - 1) else t
  }

  /**
   The main thread takes commands, changes of configuration and time only between flushes. `bioDrainWorker` is
   waited for before `appendfsync always` takes effect; the flush before a new INCR file has emptied the buffer.
   */
  ghost predicate Allowed(s: State, e: Event) {
    match e
    case Append(bytes, delta) => s.main == Idle && (bytes > 0 ==> delta > 0)
    case Tick(_) => s.main == Idle
    case SetPolicy(p) => s.main == Idle && (p == Always ==> s.queue == [])
    case SetNoFsync(_) => s.main == Idle
    case Begin(_) => s.main == Idle
    case DoWrite(_) => s.main.Writing?
    case DoSync(_, _) => s.main.Syncing?
    case DoPublish => s.main.Publishing?
    case Switch => s.main == Idle && s.buf == 0
    case Take => s.worker == Waiting && s.queue != []
    case WorkerFsync(_) => s.worker == Taken
    case WorkerPublish => s.worker.Synced?
    case Retire => s.worker == Finished
  }

  ghost predicate Shape(s: State) {
    && s.files != []
    && (s.worker != Waiting ==> s.queue != [])
    && (forall q :: 0 <= q < |s.queue| ==> s.queue[q].file < |s.files|)
  }

  ghost function Next(s: State, e: Event): State
    requires Shape(s) && Allowed(s, e)
  {
    match e
    case Append(bytes, delta) => AppendStep(s, bytes, delta)
    case Tick(dt) => s.(now := s.now + dt)
    case SetPolicy(p) => s.(policy := p)
    case SetNoFsync(on) => s.(noFsyncOnRewrite := on)
    case Begin(force) => BeginStep(s, force)
    case DoWrite(w) => WriteStep(s, s.main.busy, w)
    case DoSync(child, ok) => SyncStep(s, s.main.busy, child, ok)
    case DoPublish => s.(pending := s.offset, main := Idle)
    case Switch => SwitchStep(s)
    case Take => s.(worker := Taken)
    case WorkerFsync(ok) => FsyncStep(s, ok)
    case WorkerPublish => PublishStep(s, s.worker.ok)
    case Retire => RetireStep(s)
  }

  // ----- what a published offset promises

  function Min(a: nat, b: nat): nat { if a <= b then a else b }

  /** The first `n` bytes of the log have been written and fsynced, whichever files they are in. */
  ghost predicate Durable(files: seq<File>, n: nat) {
    && files != [] && n <= files[|files| - 1].end
    && forall j :: 0 <= j < |files| && files[j].start < n ==> Min(files[j].end, n) <= files[j].sync
  }

  /** All log bytes of the commands up to the published offset are on the disk. */
  ghost predicate Promise(s: State) { s.pending in s.need && Durable(s.files, s.need[s.pending]) }

  // ----- the invariant

  ghost predicate FileOk(f: File) { f.start <= f.sync <= f.end }

  ghost predicate FilesOk(files: seq<File>) {
    && files != []
    && (forall j :: 0 <= j < |files| ==> FileOk(files[j]))
    && (forall j :: 0 < j < |files| ==> files[j].start == files[j - 1].end)
  }

  ghost predicate NeedsOk(s: State) {
    && s.files != []
    && s.offset in s.need && s.need[s.offset] == Last(s).end + s.buf
    && (forall o :: o in s.need ==> o <= s.offset && s.need[o] <= Last(s).end + s.buf)
  }

  /** All bytes the job's offset stands for had been written when it was made. */
  ghost predicate JobOk(s: State, j: Job) {
    && j.file < |s.files| && j.offset in s.need && s.files[j.file].start <= s.need[j.offset] <= s.files[j.file].end
    && (j.CloseJob? ==> j.file < |s.files| - 1)
  }

  /** Jobs are made for the open file, and closing it is the last one. */
  ghost predicate Before(a: Job, b: Job) { a.file <= b.file && (a.CloseJob? ==> a.file < b.file) }

  ghost predicate JobsOk(s: State) {
    && (forall q :: 0 <= q < |s.queue| ==> JobOk(s, s.queue[q]))
    && (forall q, r :: 0 <= q < r < |s.queue| ==> Before(s.queue[q], s.queue[r]))
    && s.counter == Fsyncs(s.queue)
  }

  function Fsyncs(q: seq<Job>): nat {
    if q == [] then 0 else (if q[0].FsyncJob? then 1 else 0) + Fsyncs(q[1..])
  }

  /** The jobs whose fsync is still to come. */
  function Waits(s: State): seq<Job> {
    if s.queue != [] && (s.worker.Synced? || s.worker.Finished?) then s.queue[1..] else s.queue
  }

  ghost predicate Awaits(jobs: seq<Job>, i: nat, fsync: bool) {
    exists q :: 0 <= q < |jobs| && jobs[q].file == i && jobs[q].FsyncJob? == fsync
  }

  /** A closed file that is not fsynced has the job that closes it still to come. */
  ghost predicate ClosedOk(s: State) {
    forall j :: 0 <= j < |s.files| - 1 ==> s.files[j].sync == s.files[j].end || Awaits(Waits(s), j, false)
  }

  ghost predicate LastOk(s: State) {
    && s.files != []
    && s.fsyncTo <= Last(s).end
    && (s.fsyncTo <= Last(s).sync || Awaits(Waits(s), |s.files| - 1, true) || s.lost)
    && (s.lost ==> Last(s).sync < Last(s).end)
  }

  ghost predicate MainOk(s: State) {
    && s.files != []
    && (s.main.Syncing? ==> s.buf == 0)
    && (s.main == Publishing(false) ==> s.counter == 0)
    && (s.main.Publishing? ==> s.buf == 0 && (Last(s).sync == Last(s).end || (s.lost && !s.main.own)))
  }

  ghost predicate WorkerOk(s: State) {
    && (s.worker != Waiting ==> s.queue != [])
    && (s.worker == Synced(true) ==>
        s.queue[0].offset in s.need && Durable(s.files, s.need[s.queue[0].offset]))
  }

  /** Bytes are left behind only under a bad status, or while the worker is about to report it. */
  ghost predicate StatusOk(s: State) {
    s.lost ==>
      && s.worker != Synced(true)
      && (s.bioOk ==> s.worker == Synced(false) && s.queue != [] && s.queue[0].FsyncJob?)
      && (forall q :: 0 <= q < |s.queue| ==> s.queue[q].file == |s.files| - 1 && s.queue[q].FsyncJob?)
  }

  ghost predicate Inv(s: State) {
    FilesOk(s.files) && NeedsOk(s) && JobsOk(s) && ClosedOk(s) && LastOk(s) && MainOk(s) && WorkerOk(s) && StatusOk(s)
  }

  lemma InvShape(s: State)
    requires Inv(s)
    ensures Shape(s)
  {
    forall q | 0 <= q < |s.queue| ensures s.queue[q].file < |s.files| { assert JobOk(s, s.queue[q]); }
  }

  // ----- durability only grows

  /** The files of a later state. */
  ghost predicate Later(a: seq<File>, b: seq<File>) {
    && 0 < |a| <= |b|
    && (forall j :: 0 <= j < |a| ==> b[j].start == a[j].start && a[j].end <= b[j].end && a[j].sync <= b[j].sync)
    && (forall j :: 0 <= j < |a| - 1 ==> b[j].end == a[j].end)
    && (forall j :: |a| <= j < |b| ==> a[|a| - 1].end <= b[j].start)
    && a[|a| - 1].end <= b[|b| - 1].end
  }

  lemma DurableLater(a: seq<File>, b: seq<File>, n: nat)
    requires Later(a, b) && Durable(a, n)
    ensures Durable(b, n)
  {
    forall j | 0 <= j < |b| && b[j].start < n ensures Min(b[j].end, n) <= b[j].sync {
      if j < |a| { assert a[j].start < n; }
    }
  }

  /** Fsyncing the file that holds the last byte makes the bytes durable, if the older files are done. */
  lemma DurableWhen(files: seq<File>, i: nat, n: nat)
    requires FilesOk(files) && i < |files| && n <= files[i].end
    requires forall j :: 0 <= j <= i ==> files[j].sync == files[j].end
    ensures Durable(files, n)
  {
    forall j | 0 <= j < |files| && files[j].start < n ensures Min(files[j].end, n) <= files[j].sync {
      if j > i { EndsGrow(files, i, j); }
    }
    if i < |files| - 1 { EndsGrow(files, i, |files| - 1); }
  }

  lemma {:induction false} EndsGrow(files: seq<File>, i: nat, j: nat)
    requires FilesOk(files) && i < j < |files|
    ensures files[i].end <= files[j].start <= files[j].end
    decreases j
  {
    assert FileOk(files[j]) && FileOk(files[j - 1]);
    if i < j - 1 { EndsGrow(files, i, j - 1); }
  }

  // ----- every step keeps the invariant

  ghost predicate SameLog(s: State, t: State) {
    && t.files == s.files && t.need == s.need && t.queue == s.queue && t.counter == s.counter
    && t.buf == s.buf && t.offset == s.offset && t.fsyncTo == s.fsyncTo && t.worker == s.worker
    && t.bioOk == s.bioOk && t.lost == s.lost
  }

  lemma SameLogInv(s: State, t: State)
    requires Inv(s) && SameLog(s, t) && MainOk(t)
    ensures Inv(t)
  {
    forall q | 0 <= q < |t.queue| ensures JobOk(t, t.queue[q]) { assert JobOk(s, s.queue[q]); }
  }

  lemma {:induction false} NoFsyncs(q: seq<Job>, i: nat)
    requires Fsyncs(q) == 0 && i < |q|
    ensures !q[i].FsyncJob?
    decreases |q|
  {
    if i > 0 { NoFsyncs(q[1..], i - 1); }
  }

  lemma {:induction false} FsyncsAppend(q: seq<Job>, j: Job)
    ensures Fsyncs(q + [j]) == Fsyncs(q) + if j.FsyncJob? then 1 else 0
    decreases |q|
  {
    if q == [] {
      assert q + [j] == [j] && [j][1..] == [];
    } else {
      assert (q + [j])[1..] == q[1..] + [j];
      FsyncsAppend(q[1..], j);
    }
  }

  /** With no fsync job about, nothing is between the last fsync and the recorded offset. */
  lemma NothingPending(s: State)
    requires Inv(s) && s.counter == 0
    ensures s.fsyncTo <= Last(s).sync || s.lost
  {
    hide JobOk;
    if Awaits(Waits(s), |s.files| - 1, true) {
      var w := Waits(s);
      var q :| 0 <= q < |w| && w[q].file == |s.files| - 1 && w[q].FsyncJob?;
      var k := if w == s.queue then q else q + 1;
      assert s.queue[k] == w[q];
      NoFsyncs(s.queue, k);
      assert false;
    }
  }

  lemma BeginInv(s: State, force: bool)
    requires Inv(s) && s.main == Idle
    ensures Inv(BeginStep(s, force))
  {
    hide JobsOk, ClosedOk, NeedsOk, WorkerOk, StatusOk, FilesOk, Awaits;
    if s.counter == 0 { NothingPending(s); }
    LastFileOk(s.files);
    SameLogInv(s, BeginStep(s, force));
  }

  lemma AppendInv(s: State, bytes: nat, delta: nat)
    requires Inv(s) && s.main == Idle && (bytes > 0 ==> delta > 0)
    ensures Inv(AppendStep(s, bytes, delta))
    ensures forall o :: o in s.need ==>
      o in AppendStep(s, bytes, delta).need && AppendStep(s, bytes, delta).need[o] == s.need[o]
  {
    hide Durable;
    var t := AppendStep(s, bytes, delta);
    assert Last(t) == Last(s);
    forall q | 0 <= q < |t.queue| ensures JobOk(t, t.queue[q]) { assert JobOk(s, s.queue[q]); }
  }

  /** The queue and the history stand still while files grow or are fsynced. */
  ghost predicate SameQueue(s: State, t: State) {
    && t.need == s.need && t.queue == s.queue && t.counter == s.counter && t.worker == s.worker
    && t.offset == s.offset && t.bioOk == s.bioOk && |t.files| == |s.files| && Later(s.files, t.files)
      && FilesOk(t.files)
  }

  lemma JobsLater(s: State, t: State)
    requires JobsOk(s) && SameQueue(s, t)
    ensures JobsOk(t)
  {
    hide FilesOk;
    forall q | 0 <= q < |t.queue| ensures JobOk(t, t.queue[q]) { assert JobOk(s, s.queue[q]); }
  }

  lemma ClosedLater(s: State, t: State)
    requires ClosedOk(s) && SameQueue(s, t)
    ensures ClosedOk(t)
  {
    hide Awaits;
    forall j | 0 <= j < |t.files| - 1 ensures t.files[j].sync == t.files[j].end || Awaits(Waits(t), j, false) {
      assert FileOk(t.files[j]);
    }
  }

  lemma WorkerLater(s: State, t: State)
    requires WorkerOk(s) && SameQueue(s, t)
    ensures WorkerOk(t)
  {
    hide Durable, Later, FilesOk;
    if t.worker == Synced(true) { DurableLater(s.files, t.files, s.need[s.queue[0].offset]); }
  }

  lemma GrownFiles(files: seq<File>, n: nat)
    requires FilesOk(files)
    ensures var l := |files| - 1; var t := files[l := files[l].(end := files[l].end + n)];
      FilesOk(t) && Later(files, t)
  {
    assert FileOk(files[|files| - 1]);
  }

  /** Bytes reach the open file. */
  lemma GrowInv(s: State, t: State, n: nat)
    requires Inv(s) && n <= s.buf
    requires s.files != [] && var f := Last(s);
      t.files == s.files[|s.files| - 1 := f.(end := f.end + n)] && t.buf == s.buf - n
    requires t.need == s.need && t.queue == s.queue && t.counter == s.counter && t.offset == s.offset
    requires t.fsyncTo == s.fsyncTo && t.worker == s.worker && t.bioOk == s.bioOk && t.lost == s.lost && MainOk(t)
    ensures Inv(t) && Later(s.files, t.files)
  {
    hide Later, FilesOk, JobsOk, ClosedOk, WorkerOk, Awaits;
    GrownFiles(s.files, n);
    JobsLater(s, t);
    ClosedLater(s, t);
    WorkerLater(s, t);
  }

  lemma WriteInv(s: State, busy: bool, w: Write)
    requires Inv(s) && s.main == Writing(busy)
    ensures Inv(WriteStep(s, busy, w)) && Later(s.files, WriteStep(s, busy, w).files)
  {
    hide JobsOk, ClosedOk, NeedsOk, WorkerOk;
    var t := WriteStep(s, busy, w);
    if w.Full? {
      GrowInv(s, t, s.buf);
    } else if s.policy == Always || w.undone || w.n > s.buf {
      SameLogInv(s, t);
      LaterSame(s.files);
    } else {
      GrowInv(s, t, w.n);
    }
  }

  lemma LaterSame(files: seq<File>)
    requires FilesOk(files)
    ensures Later(files, files)
  {}

  /** A file is fsynced. */
  lemma SyncedFiles(files: seq<File>, i: nat)
    requires FilesOk(files) && i < |files|
    ensures var t := files[i := files[i].(sync := files[i].end)]; FilesOk(t) && Later(files, t)
  {
    assert FileOk(files[i]);
  }

  /** `appendfsync always`: the main thread fsyncs the open file. */
  lemma MainSyncInv(s: State, t: State)
    requires Inv(s) && s.main.Syncing? && Shape(s)
    requires var f := Last(s);
      t == WithLast(s, f.(sync := f.end)).(fsyncTo := f.end, lastFsync := s.now, lost := false,
        main := Publishing(true))
    ensures Inv(t) && Later(s.files, t.files)
  {
    hide Later, FilesOk, JobsOk, ClosedOk, WorkerOk, Awaits;
    SyncedFiles(s.files, |s.files| - 1);
    JobsLater(s, t);
    ClosedLater(s, t);
    WorkerLater(s, t);
  }

  lemma WaitsSubmit(s: State, t: State, j: Job)
    requires t.queue == s.queue + [j] && t.worker == s.worker && (s.worker != Waiting ==> s.queue != [])
    ensures Waits(t) == Waits(s) + [j]
    ensures Awaits(Waits(t), j.file, j.FsyncJob?)
    ensures forall i, f :: Awaits(Waits(s), i, f) ==> Awaits(Waits(t), i, f)
  {
    assert Waits(t) == Waits(s) + [j];
    var w := Waits(t);
    assert w[|w| - 1] == j;
    forall i, f | Awaits(Waits(s), i, f) ensures Awaits(w, i, f) {
      var q :| 0 <= q < |Waits(s)| && Waits(s)[q].file == i && Waits(s)[q].FsyncJob? == f;
      assert w[q] == Waits(s)[q];
    }
  }

  lemma JobsSubmit(s: State, t: State, j: Job)
    requires JobsOk(s) && t.queue == s.queue + [j] && t.need == s.need && j.file == |s.files| - 1 && JobOk(t, j)
    requires |s.files| <= |t.files| && forall i :: 0 <= i < |s.files| ==> t.files[i] == s.files[i]
    requires t.counter == s.counter + if j.FsyncJob? then 1 else 0
    ensures JobsOk(t)
  {
    FsyncsAppend(s.queue, j);
    forall q | 0 <= q < |t.queue| ensures JobOk(t, t.queue[q]) {
      if q < |s.queue| { assert JobOk(s, s.queue[q]); }
    }
    forall q, r | 0 <= q < r < |t.queue| ensures Before(t.queue[q], t.queue[r]) {
      assert JobOk(s, s.queue[q]);
    }
  }

  /** An fsync job is handed to the worker. */
  lemma SubmitInv(s: State, t: State)
    requires Inv(s) && s.main.Syncing?
    requires t == s.(queue := s.queue + [FsyncJob(|s.files| - 1, s.offset)], counter := s.counter + 1,
                     fsyncTo := Last(s).end, lastFsync := s.now, main := Idle)
    ensures Inv(t)
  {
    hide Durable, Awaits, Waits, Fsyncs;
    var j := FsyncJob(|s.files| - 1, s.offset);
    WaitsSubmit(s, t, j);
    JobsSubmit(s, t, j);
    assert ClosedOk(t);
  }

  lemma SyncInv(s: State, busy: bool, child: bool, ok: bool)
    requires Inv(s) && s.main == Syncing(busy)
    ensures Inv(SyncStep(s, busy, child, ok)) && Later(s.files, SyncStep(s, busy, child, ok).files)
  {
    hide JobsOk, ClosedOk, NeedsOk, WorkerOk;
    var t := SyncStep(s, busy, child, ok);
    InvShape(s);
    LaterSame(s.files);
    if s.noFsyncOnRewrite && child {
      SameLogInv(s, t);
    } else if s.policy == Always {
      if ok { MainSyncInv(s, t); } else { SameLogInv(s, t); }
    } else if s.policy == EverySec && s.now - s.lastFsync >= 1000 && !busy {
      SubmitInv(s, t);
    } else {
      SameLogInv(s, t);
    }
  }

  lemma SwitchInv(s: State)
    requires Inv(s) && s.main == Idle && s.buf == 0
    ensures Inv(SwitchStep(s)) && Later(s.files, SwitchStep(s).files)
  {
    hide Durable, Awaits, Waits, Fsyncs;
    var t := SwitchStep(s);
    var j := CloseJob(|s.files| - 1, s.offset);
    assert FileOk(Last(s));
    assert FilesOk(t.files) && Later(s.files, t.files);
    WaitsSubmit(s, t, j);
    JobsSubmit(s, t, j);
    assert ClosedOk(t);
    if t.worker == Synced(true) { DurableLater(s.files, t.files, s.need[s.queue[0].offset]); }
  }

  // ----- the worker

  /** Files older than that of the job at the head have been fsynced: their jobs came first. */
  lemma OlderDone(s: State, j: nat)
    requires JobsOk(s) && ClosedOk(s) && s.queue != [] && s.worker == Taken
    requires j < s.queue[0].file < |s.files|
    ensures s.files[j].sync == s.files[j].end
  {
    hide JobOk, Awaits;
    NoneBefore(s.queue, j);
  }

  lemma NoneBefore(jobs: seq<Job>, i: nat)
    requires jobs != [] && i < jobs[0].file
    requires forall q, r :: 0 <= q < r < |jobs| ==> Before(jobs[q], jobs[r])
    ensures !Awaits(jobs, i, false)
  {}

  /** The worker's fsync makes the offset of its job durable. */
  lemma HeadDurable(s: State)
    requires Inv(s) && s.worker == Taken && Shape(s)
    ensures s.queue[0].offset in s.need
    ensures Durable(FsyncStep(s, true).files, s.need[s.queue[0].offset])
  {
    hide Durable, NeedsOk, LastOk, Awaits, FilesOk, ClosedOk;
    var i, t := s.queue[0].file, FsyncStep(s, true);
    assert JobOk(s, s.queue[0]);
    SyncedFiles(s.files, i);
    forall j | 0 <= j <= i ensures t.files[j].sync == t.files[j].end {
      if j < i { OlderDone(s, j); }
    }
    DurableWhen(t.files, i, s.need[s.queue[0].offset]);
  }

  lemma AwaitsRest(q: seq<Job>, i: nat, f: bool)
    requires q != [] && Awaits(q, i, f) && (q[0].file != i || q[0].FsyncJob? != f)
    ensures Awaits(q[1..], i, f)
  {
    var k :| 0 <= k < |q| && q[k].file == i && q[k].FsyncJob? == f;
    assert q[1..][k - 1] == q[k];
  }

  lemma FsyncJobsInv(s: State)
    requires Inv(s) && s.worker == Taken && Shape(s)
    ensures var t := FsyncStep(s, true); FilesOk(t.files) && Later(s.files, t.files) && JobsOk(t) && NeedsOk(t)
  {
    hide Later, FilesOk, LastOk, Awaits, ClosedOk, WorkerOk;
    var t := FsyncStep(s, true);
    SyncedFiles(s.files, s.queue[0].file);
    forall q | 0 <= q < |t.queue| ensures JobOk(t, t.queue[q]) { assert JobOk(s, s.queue[q]); }
  }

  lemma FsyncClosedInv(s: State)
    requires Inv(s) && s.worker == Taken && Shape(s)
    ensures ClosedOk(FsyncStep(s, true)) && LastOk(FsyncStep(s, true))
  {
    hide FilesOk, NeedsOk, JobsOk, MainOk, Awaits;
    var i, t := s.queue[0].file, FsyncStep(s, true);
    forall j | 0 <= j < |t.files| - 1 ensures t.files[j].sync == t.files[j].end || Awaits(Waits(t), j, false) {
      if j != i && Awaits(s.queue, j, false) { AwaitsRest(s.queue, j, false); }
    }
    var l := |s.files| - 1;
    if i != l && Awaits(s.queue, l, true) { AwaitsRest(s.queue, l, true); }
  }

  /** A failed fsync that does not close a file, or that had nothing to write out. */
  ghost predicate Tolerable(s: State)
    requires s.queue != [] && s.queue[0].file < |s.files|
  {
    s.queue[0].FsyncJob? || s.files[s.queue[0].file].sync == s.files[s.queue[0].file].end
  }

  lemma FsyncFailsInv(s: State)
    requires Inv(s) && s.worker == Taken && Shape(s) && Tolerable(s)
    ensures Inv(FsyncStep(s, false))
  {
    hide FilesOk, Awaits, Durable, Fsyncs;
    var i, t, l := s.queue[0].file, FsyncStep(s, false), |s.files| - 1;
    forall q | 0 <= q < |t.queue| ensures JobOk(t, t.queue[q]) { assert JobOk(s, s.queue[q]); }
    forall j | 0 <= j < l ensures t.files[j].sync == t.files[j].end || Awaits(Waits(t), j, false) {
      if s.files[j].sync != s.files[j].end { AwaitsRest(s.queue, j, false); }
    }
    if Awaits(s.queue, l, true) && i != l { AwaitsRest(s.queue, l, true); }
    assert FileOk(s.files[l]) by { LastFileOk(s.files); }
    if i == l { OnlyLast(s); }
  }

  lemma LastFileOk(files: seq<File>)
    requires FilesOk(files)
    ensures FileOk(files[|files| - 1])
  {}

  /** Once the jobs of the open file have come up, no others are left. */
  lemma OnlyLast(s: State)
    requires JobsOk(s) && s.queue != [] && s.queue[0].file == |s.files| - 1
    ensures forall q :: 0 <= q < |s.queue| ==> s.queue[q].file == |s.files| - 1 && s.queue[q].FsyncJob?
  {
    forall q | 0 <= q < |s.queue| ensures s.queue[q].file == |s.files| - 1 && s.queue[q].FsyncJob? {
      assert JobOk(s, s.queue[q]);
      if q > 0 { assert Before(s.queue[0], s.queue[q]); }
    }
  }

  lemma WorkerFsyncInv(s: State, ok: bool)
    requires Inv(s) && s.worker == Taken && Shape(s) && (ok || Tolerable(s))
    ensures Inv(FsyncStep(s, ok)) && Later(s.files, FsyncStep(s, ok).files)
  {
    hide Later, FilesOk, JobsOk, NeedsOk, LastOk, Awaits, ClosedOk, Durable;
    if ok {
      FsyncJobsInv(s);
      FsyncClosedInv(s);
      HeadDurable(s);
    } else {
      FsyncFailsInv(s);
      LaterSame(s.files);
    }
  }

  lemma WorkerPublishInv(s: State)
    requires Inv(s) && s.worker.Synced? && Shape(s)
    ensures Inv(PublishStep(s, s.worker.ok)) && (s.worker.ok ==> Promise(PublishStep(s, true)))
  {
    hide FilesOk, Awaits, Durable;
    var t := PublishStep(s, s.worker.ok);
    forall q | 0 <= q < |t.queue| ensures JobOk(t, t.queue[q]) { assert JobOk(s, s.queue[q]); }
  }

  lemma RetireJobs(s: State)
    requires JobsOk(s) && s.queue != []
    ensures JobsOk(RetireStep(s))
  {
    var t := RetireStep(s);
    forall q | 0 <= q < |t.queue| ensures JobOk(t, t.queue[q]) { assert JobOk(s, s.queue[q + 1]); }
    forall q, r | 0 <= q < r < |t.queue| ensures Before(t.queue[q], t.queue[r]) {
      assert Before(s.queue[q + 1], s.queue[r + 1]);
    }
  }

  lemma RetireStatus(s: State)
    requires StatusOk(s) && s.worker == Finished && s.queue != []
    ensures StatusOk(RetireStep(s))
  {}

  lemma RetireInv(s: State)
    requires Inv(s) && s.worker == Finished && Shape(s)
    ensures Inv(RetireStep(s))
  {
    hide FilesOk, Awaits, Durable, JobsOk, StatusOk;
    RetireJobs(s);
    assert Waits(RetireStep(s)) == Waits(s);
    RetireStatus(s);
  }

  // ----- every run

  /** No fsync that closes a file fails with bytes left; any other may. */
  ghost predicate Sound(s: State, e: Event)
    requires Shape(s) && Allowed(s, e)
  {
    e == WorkerFsync(false) ==> Tolerable(s)
  }

  lemma StepInv(s: State, e: Event)
    requires Inv(s) && Shape(s) && Allowed(s, e) && Sound(s, e)
    ensures Inv(Next(s, e)) && Shape(Next(s, e))
  {
    hide FilesOk, NeedsOk, JobsOk, ClosedOk, LastOk, StatusOk, Shape, Tolerable, BeginStep, WriteStep, SyncStep,
      SwitchStep, AppendStep, FsyncStep, PublishStep, RetireStep;
    match e {
      case Append(bytes, delta) => AppendInv(s, bytes, delta);
      case Begin(force) => BeginInv(s, force);
      case DoWrite(w) => WriteInv(s, s.main.busy, w);
      case DoSync(child, ok) => SyncInv(s, s.main.busy, child, ok);
      case Switch => SwitchInv(s);
      case WorkerFsync(ok) => WorkerFsyncInv(s, ok);
      case WorkerPublish => WorkerPublishInv(s);
      case Retire => RetireInv(s);
      case Take => TakeInv(s);
      case _ => SameLogInv(s, Next(s, e));
    }
    InvShape(Next(s, e));
  }

  lemma TakeInv(s: State)
    requires Inv(s) && s.worker == Waiting && s.queue != []
    ensures Inv(s.(worker := Taken))
  {
    hide FilesOk, Awaits, Durable;
    var t := s.(worker := Taken);
    assert Waits(t) == Waits(s);
    forall q | 0 <= q < |t.queue| ensures JobOk(t, t.queue[q]) { assert JobOk(s, s.queue[q]); }
  }

  // ----- publishing

  /** All files but the open one are on the disk. */
  ghost predicate ClosedSynced(s: State) {
    forall j :: 0 <= j < |s.files| - 1 ==> s.files[j].sync == s.files[j].end
  }

  /** The main thread's publication keeps the promise exactly when the closed files are fsynced and nothing is lost. */
  lemma PublishIff(s: State)
    requires Inv(s) && s.main.Publishing?
    ensures Promise(s.(pending := s.offset, main := Idle)) <==> ClosedSynced(s) && !s.lost
  {
    hide JobsOk, ClosedOk, WorkerOk, StatusOk;
    var n, l := s.need[s.offset], |s.files| - 1;
    assert n == s.files[l].end;
    forall j | 0 <= j <= l ensures FileOk(s.files[j]) && s.files[j].end <= n {
      if j < l { EndsGrow(s.files, j, l); }
    }
    if ClosedSynced(s) && !s.lost { DurableWhen(s.files, l, n); }
    if s.lost { assert s.files[l].start < n; }
  }

  /** `bioPendingJobsOfType(BIO_CLOSE_AOF) == 0`. */
  ghost predicate NoneClosing(s: State) { forall q :: 0 <= q < |s.queue| ==> !s.queue[q].CloseJob? }

  /** What the main thread can look at: no file waits to be closed, and the last background fsync went well. */
  ghost predicate Guard(s: State)
    requires s.main.Publishing?
  {
    NoneClosing(s) && (s.main.own || s.bioOk)
  }

  lemma NoneClosingSynced(s: State)
    requires Inv(s) && NoneClosing(s)
    ensures ClosedSynced(s)
  {
    hide JobsOk, NeedsOk, FilesOk, WorkerOk, StatusOk, Durable;
    forall j | 0 <= j < |s.files| - 1 ensures s.files[j].sync == s.files[j].end {
      if Awaits(Waits(s), j, false) { assert false; }
    }
  }

  /** Under the guard a publication always keeps the promise. */
  lemma GuardSuffices(s: State)
    requires Inv(s) && s.main.Publishing? && Guard(s)
    ensures Promise(s.(pending := s.offset, main := Idle))
  {
    hide Promise, ClosedOk, NeedsOk, FilesOk, WorkerOk, Durable, JobOk, Awaits;
    NoneClosingSynced(s);
    if s.lost && s.bioOk {
      assert !s.main.own;
      NoFsyncs(s.queue, 0);
      assert false;
    }
    PublishIff(s);
  }

  /**
   The first publication after a switch to a new file, when no fsync has run since the last write to the old one:
   right exactly if all of the old file was handed to an fsync before the switch.
   */
  lemma SwitchPublishIff(s: State, force: bool)
    requires Inv(s) && s.main == Idle && s.buf == 0 && s.counter == 0 && NoneClosing(s) && !s.lost
    requires Last(s).sync <= s.fsyncTo
    ensures var t := BeginStep(SwitchStep(s), force);
      t.main == Publishing(false) && (Promise(t.(pending := t.offset, main := Idle)) <==> s.fsyncTo == Last(s).end)
  {
    hide Promise, ClosedOk, NeedsOk, FilesOk, WorkerOk, Durable, JobsOk, StatusOk, Awaits;
    NothingPending(s);
    NoneClosingSynced(s);
    SwitchInv(s);
    var u := SwitchStep(s);
    BeginInv(u, force);
    var t := BeginStep(u, force);
    PublishIff(t);
    assert t.files == s.files + [File(Last(s).end, Last(s).end, Last(s).end)];
    assert ClosedSynced(t) <==> Last(s).sync == Last(s).end by {
      if ClosedSynced(t) { assert t.files[|s.files| - 1] == Last(s); }
    }
  }

  /** Every step but a publication of the main thread keeps the promise. */
  lemma PromiseStep(s: State, e: Event)
    requires Inv(s) && Shape(s) && Promise(s) && Allowed(s, e) && Sound(s, e) && !e.DoPublish?
    ensures Promise(Next(s, e))
  {
    hide JobsOk, ClosedOk, LastOk, NeedsOk, FilesOk, StatusOk, Tolerable, Durable, Later, BeginStep, WriteStep,
      SyncStep;
    LaterSame(s.files);
    match e {
      case Append(bytes, delta) => AppendInv(s, bytes, delta);
      case Begin(force) => BeginKeeps(s, force);
      case DoWrite(w) => WriteInv(s, s.main.busy, w); WriteKeeps(s, s.main.busy, w);
      case DoSync(child, ok) => SyncInv(s, s.main.busy, child, ok); SyncKeeps(s, s.main.busy, child, ok);
      case Switch => SwitchInv(s);
      case WorkerFsync(ok) => WorkerFsyncInv(s, ok);
      case WorkerPublish => WorkerPublishInv(s);
      case _ =>
    }
    if !(e.WorkerPublish? && s.worker.ok) { DurableLater(s.files, Next(s, e).files, s.need[s.pending]); }
  }

  lemma BeginKeeps(s: State, force: bool)
    requires s.files != []
    ensures var t := BeginStep(s, force);
      SameLog(s, t) && t.pending == s.pending && (t.main.Syncing? && !s.main.Syncing? ==> s.buf == 0)
  {}

  lemma WriteKeeps(s: State, busy: bool, w: Write)
    requires s.files != []
    ensures var t := WriteStep(s, busy, w);
      && t.need == s.need && t.pending == s.pending && |t.files| == |s.files| && t.queue == s.queue
      && t.bioOk == s.bioOk && t.lost == s.lost && t.worker == s.worker
  {}

  lemma SyncKeeps(s: State, busy: bool, child: bool, ok: bool)
    requires s.files != []
    ensures var t := SyncStep(s, busy, child, ok);
      && t.need == s.need && t.pending == s.pending && |t.files| == |s.files|
      && t.bioOk == s.bioOk && t.worker == s.worker && (s.policy != Always ==> t.lost == s.lost)
  {}

  /** What no step of the main thread changes, apart from a switch. */
  lemma MainKeeps(s: State, e: Event)
    requires Shape(s) && Allowed(s, e) && !e.Switch? && !OfWorker(e)
    ensures var t := Next(s, e);
      (e.DoSync? ==> s.policy != Always) ==> t.lost == s.lost
    ensures |Next(s, e).files| == |s.files| && Next(s, e).bioOk == s.bioOk && Next(s, e).worker == s.worker
  {
    hide BeginStep, WriteStep, SyncStep;
    match e {
      case Begin(force) => BeginKeeps(s, force);
      case DoWrite(w) => WriteKeeps(s, s.main.busy, w);
      case DoSync(child, ok) => SyncKeeps(s, s.main.busy, child, ok);
      case _ =>
    }
  }

  ghost predicate OfWorker(e: Event) { e.Take? || e.WorkerFsync? || e.WorkerPublish? || e.Retire? }

  // ----- runs

  ghost predicate IsRun(s: State, es: seq<Event>)
    decreases |es|
  {
    es != [] ==> Shape(s) && Allowed(s, es[0]) && IsRun(Next(s, es[0]), es[1..])
  }

  ghost function After(s: State, es: seq<Event>): State
    requires IsRun(s, es)
    decreases |es|
  {
    if es == [] then s else After(Next(s, es[0]), es[1..])
  }

  /** No closing fsync fails with bytes left, and the main thread publishes only under the guard. */
  ghost predicate Guarded(s: State, es: seq<Event>)
    requires IsRun(s, es)
    decreases |es|
  {
    es != [] ==> Sound(s, es[0]) && (es[0].DoPublish? ==> Guard(s)) && Guarded(Next(s, es[0]), es[1..])
  }

  lemma StepPromise(s: State, e: Event)
    requires Inv(s) && Shape(s) && Promise(s) && Allowed(s, e) && Sound(s, e) && (e.DoPublish? ==> Guard(s))
    ensures Promise(Next(s, e))
  {
    hide Inv, Promise, Guard, Shape, Sound;
    if e.DoPublish? { GuardSuffices(s); } else { PromiseStep(s, e); }
  }

  /** In every guarded interleaving, with fsyncs that may fail, each offset the server reports as fsynced is. */
  lemma {:induction false} EveryRunKeepsThePromise(s: State, es: seq<Event>)
    requires Inv(s) && Promise(s) && IsRun(s, es) && Guarded(s, es)
    ensures Inv(After(s, es)) && Promise(After(s, es))
    decreases |es|
  {
    hide Inv, Promise, Allowed, Next, Guard, Shape, Sound;
    if es != [] {
      StepInv(s, es[0]);
      StepPromise(s, es[0]);
      EveryRunKeepsThePromise(Next(s, es[0]), es[1..]);
    }
  }

  // ----- what a flush and a job get done

  /** The event may happen and leads to `t`. */
  ghost predicate Leads(s: State, e: Event, t: State) { Shape(s) && Allowed(s, e) && Next(s, e) == t }

  lemma TwoSteps(s: State, e: Event, t: State, f: Event, u: State)
    requires Leads(s, e, t) && Leads(t, f, u)
    ensures IsRun(s, [e] + [f]) && After(s, [e] + [f]) == u
  {
    hide Shape, Allowed, Next;
    RunNothing(u);
    RunOn(t, f, []);
    assert [f] + [] == [f];
    RunOn(s, e, [f]);
  }

  lemma MoreSteps(s: State, e: Event, t: State, es: seq<Event>)
    requires Leads(s, e, t) && IsRun(t, es)
    ensures IsRun(s, [e] + es) && After(s, [e] + es) == After(t, es)
  {
    hide Shape, Allowed, Next, IsRun, After;
    RunOn(s, e, es);
  }

  /** A flush: it begins, the whole buffer is written, and an fsync is due. */
  function Flushing(force: bool, child: bool, ok: bool): seq<Event> {
    [Begin(force)] + ([DoWrite(Full)] + [DoSync(child, ok)])
  }

  /** The state after a flush has written everything. */
  function Flushed(s: State): State
    requires s.files != []
  {
    s.(postponed := 0, buf := 0, main := Syncing(false),
       files := s.files[|s.files| - 1 := Last(s).(end := Last(s).end + s.buf)])
  }

  lemma FlushBegins(s: State, force: bool)
    requires Shape(s) && s.main == Idle && s.buf > 0 && (s.policy == EverySec ==> s.counter == 0)
    ensures Leads(s, Begin(force), s.(main := Writing(false)))
  {
    hide WriteStep, SyncStep, AppendStep, SwitchStep;
  }

  lemma FlushWrites(s: State)
    requires Shape(s) && s.main == Idle
    ensures Leads(s.(main := Writing(false)), DoWrite(Full), Flushed(s))
  {
    hide BeginStep, SyncStep, AppendStep, SwitchStep;
  }

  lemma FlushSyncs(s: State, child: bool, ok: bool)
    requires Shape(s) && s.main == Syncing(false)
    ensures Leads(s, DoSync(child, ok), SyncStep(s, false, child, ok))
  {
    hide BeginStep, WriteStep, AppendStep, SwitchStep, SyncStep;
  }

  lemma FlushSteps(s: State, force: bool, child: bool, ok: bool)
    requires Inv(s) && Shape(s) && s.main == Idle && s.buf > 0 && (s.policy == EverySec ==> s.counter == 0)
    ensures IsRun(s, Flushing(force, child, ok)) && Shape(Flushed(s)) && Inv(Flushed(s))
    ensures After(s, Flushing(force, child, ok)) == SyncStep(Flushed(s), false, child, ok)
  {
    hide IsRun, After, Inv, SyncStep, Leads, Flushed, Next, Allowed;
    var b, w := s.(main := Writing(false)), Flushed(s);
    FlushBegins(s, force);
    FlushWrites(s);
    assert Inv(b) && Inv(w) by { FlushedInv(s); }
    InvShape(w);
    assert w.main == Syncing(false) by { FlushedShape(s); }
    FlushSyncs(w, child, ok);
    TwoSteps(b, DoWrite(Full), w, DoSync(child, ok), SyncStep(w, false, child, ok));
    MoreSteps(s, Begin(force), b, [DoWrite(Full)] + [DoSync(child, ok)]);
  }

  lemma FlushedShape(s: State)
    requires s.files != []
    ensures Flushed(s).main == Syncing(false)
  {}

  lemma FlushedInv(s: State)
    requires Inv(s) && Shape(s) && s.main == Idle
    ensures Inv(s.(main := Writing(false))) && Inv(Flushed(s))
  {
    hide Inv;
    var b := s.(main := Writing(false));
    assert MainOk(b);
    SameLogInv(s, b);
    WriteInv(b, false, Full);
    assert Flushed(s) == WriteStep(b, false, Full);
  }

  /**
   `appendfsync always`: unless an active child suppresses it, a flush fsyncs the file and is about to publish, or the
   server stops. Published is the offset of the last command, and all its bytes are on the disk if no file still waits
   to be closed.
   */
  lemma AlwaysFsyncs(s: State, force: bool, child: bool, ok: bool)
    requires Inv(s) && Shape(s) && s.main == Idle && s.buf > 0 && s.policy == Always
    requires s.noFsyncOnRewrite ==> !child
    ensures IsRun(s, Flushing(force, child, ok))
    ensures var t := After(s, Flushing(force, child, ok));
      && t.files != []
      && if !ok then t.main == Stopped
      else
        && Shape(t) && t.main == Publishing(true) && t.buf == 0 && t.offset == s.offset
        && |t.files| == |s.files| && Last(t).sync == Last(t).end == Last(s).end + s.buf
        && var u := Next(t, DoPublish);
           && u.pending == s.offset && u.main == Idle && s.offset in u.need
           && (NoneClosing(s) ==> Durable(u.files, u.need[s.offset]))
  {
    hide IsRun, After, Inv, Promise, Durable, NoneClosing, BeginStep, WriteStep, AppendStep, SwitchStep;
    FlushSteps(s, force, child, ok);
    var w := Flushed(s);
    var t := SyncStep(w, false, child, ok);
    SyncInv(w, false, child, ok);
    InvShape(t);
    if ok {
      assert s.offset in t.need by { OffsetNeeds(t); }
      if NoneClosing(s) {
        SameClosing(s, t);
        GuardSuffices(t);
        PromiseIs(t.(pending := t.offset, main := Idle));
      }
    }
  }

  lemma OffsetNeeds(s: State)
    requires Inv(s)
    ensures s.offset in s.need
  {}

  lemma SameClosing(s: State, t: State)
    requires NoneClosing(s) && t.queue == s.queue
    ensures NoneClosing(t)
  {}

  lemma PromiseIs(s: State)
    requires Promise(s)
    ensures s.pending in s.need && Durable(s.files, s.need[s.pending])
  {}

  /** After `appendfsync` has been changed to always, an empty buffer does not keep a flush from fsyncing. */
  lemma AlwaysFsyncsRest(s: State, force: bool, child: bool)
    requires Inv(s) && Shape(s) && s.main == Idle && s.buf == 0 && s.fsyncTo != Last(s).end
    requires s.policy == Always && (s.noFsyncOnRewrite ==> !child)
    ensures BeginStep(s, force).main == Syncing(false)
    ensures var t := SyncStep(BeginStep(s, force), false, child, true);
      t.main == Publishing(true) && Last(t).sync == Last(t).end == Last(s).end
  {
    hide Inv;
  }

  /**
   `appendfsync everysec`: a flush a second after the last fsync, with none in progress, hands an fsync of the open file
   to the worker, with the offset of the last command.
   */
  lemma EverySecHandsOver(s: State, force: bool, child: bool, ok: bool)
    requires Inv(s) && Shape(s) && s.main == Idle && s.buf > 0 && s.policy == EverySec && s.counter == 0
    requires s.now - s.lastFsync >= 1000 && (s.noFsyncOnRewrite ==> !child)
    ensures IsRun(s, Flushing(force, child, ok))
    ensures var t := After(s, Flushing(force, child, ok));
      && t.files != []
      && t.queue == s.queue + [FsyncJob(|s.files| - 1, s.offset)] && t.counter == 1 && t.lastFsync == s.now
      && t.main == Idle && t.buf == 0 && t.fsyncTo == Last(t).end == Last(s).end + s.buf
  {
    hide IsRun, After, Inv, BeginStep, WriteStep, AppendStep, SwitchStep;
    FlushSteps(s, force, child, ok);
  }

  /** The same with nothing new to write but bytes that were never handed over. */
  lemma EverySecHandsOverRest(s: State, force: bool, child: bool, ok: bool)
    requires Shape(s) && s.main == Idle && s.buf == 0 && s.fsyncTo != Last(s).end && s.policy == EverySec
    requires s.counter == 0 && s.now - s.lastFsync >= 1000 && (s.noFsyncOnRewrite ==> !child)
    ensures BeginStep(s, force).main == Syncing(false)
    ensures SyncStep(BeginStep(s, force), false, child, ok).queue == s.queue + [FsyncJob(|s.files| - 1, s.offset)]
  {}

  /** While an fsync is in progress a write is put off, but not for more than two seconds and not if it is forced. */
  lemma PostponedTwoSeconds(s: State, force: bool)
    requires Shape(s) && s.main == Idle && s.buf > 0
    ensures BeginStep(s, force).main == Writing(s.policy == EverySec && s.counter != 0)
      <==> force || s.policy != EverySec || s.counter == 0 || (s.postponed != 0 && s.now - s.postponed >= 2000)
    ensures !BeginStep(s, force).main.Writing? ==>
      BeginStep(s, force).postponed == if s.postponed == 0 then s.now else s.postponed
  {}

  function Working(ok: bool): seq<Event> { [Take] + ([WorkerFsync(ok)] + ([WorkerPublish] + [Retire])) }

  lemma WorkerLeads(s: State, ok: bool)
    requires Shape(s) && s.worker == Waiting && s.queue != []
    ensures var a := s.(worker := Taken);
      var b := FsyncStep(a, ok);
      var c := PublishStep(b, ok);
      && Leads(s, Take, a) && Leads(a, WorkerFsync(ok), b) && Leads(b, WorkerPublish, c)
      && Leads(c, Retire, RetireStep(c))
  {
    hide BeginStep, WriteStep, SyncStep, AppendStep, SwitchStep;
  }

  /** The worker takes the oldest job, fsyncs its file, publishes the offset of the job, and counts the job off. */
  lemma WorkerDoes(s: State, ok: bool)
    requires Inv(s) && Shape(s) && s.worker == Waiting && s.queue != []
    ensures IsRun(s, Working(ok))
    ensures var t, i := After(s, Working(ok)), s.queue[0].file;
      && t.worker == Waiting && t.queue == s.queue[1..] && t.bioOk == ok && |t.files| == |s.files| && t.buf == s.buf
      && t.counter == (if s.queue[0].FsyncJob? then s.counter - 1 else s.counter)
      && (ok ==> t.pending == s.queue[0].offset && t.files[i].sync == t.files[i].end == s.files[i].end && Promise(t))
      && (!ok ==> t.pending == s.pending && t.files == s.files)
  {
    hide IsRun, After, Inv, Leads, Allowed, Next, BeginStep, WriteStep, SyncStep, AppendStep, SwitchStep;
    HeadCounts(s);
    WorkerLeads(s, ok);
    var a := s.(worker := Taken);
    var b := FsyncStep(a, ok);
    var c := PublishStep(b, ok);
    TakenDurable(s);
    TwoSteps(b, WorkerPublish, c, Retire, RetireStep(c));
    MoreSteps(a, WorkerFsync(ok), b, [WorkerPublish] + [Retire]);
    MoreSteps(s, Take, a, [WorkerFsync(ok)] + ([WorkerPublish] + [Retire]));
  }

  lemma TakenDurable(s: State)
    requires Inv(s) && Shape(s) && s.worker == Waiting && s.queue != []
    ensures var a := s.(worker := Taken);
      s.queue[0].offset in s.need && Durable(FsyncStep(a, true).files, s.need[s.queue[0].offset])
  {
    hide Inv, Shape, FsyncStep, Durable;
    StepInv(s, Take);
    HeadDurable(s.(worker := Taken));
  }

  lemma NoJobs(s: State)
    requires Inv(s) && s.queue == []
    ensures s.counter == 0
  {
    hide FilesOk, NeedsOk, ClosedOk, LastOk, MainOk, WorkerOk, StatusOk;
  }

  lemma FlushedOn(s: State, force: bool, child: bool, ok: bool)
    requires Inv(s) && Shape(s) && s.main == Idle && s.buf > 0 && (s.policy == EverySec ==> s.counter == 0)
    ensures IsRun(s, Flushing(force, child, ok))
    ensures var t := After(s, Flushing(force, child, ok)); Inv(t) && Shape(t) && t.worker == s.worker
  {
    hide IsRun, After, Inv;
    FlushSteps(s, force, child, ok);
    SyncInv(Flushed(s), false, child, ok);
    InvShape(SyncStep(Flushed(s), false, child, ok));
  }

  lemma {:induction false} RunConcat(s: State, es: seq<Event>, fs: seq<Event>)
    requires IsRun(s, es) && IsRun(After(s, es), fs)
    ensures IsRun(s, es + fs) && After(s, es + fs) == After(After(s, es), fs)
    decreases |es|
  {
    hide Shape, Allowed, Next;
    if es == [] {
      assert es + fs == fs;
    } else {
      assert (es + fs)[0] == es[0] && (es + fs)[1..] == es[1..] + fs;
      RunConcat(Next(s, es[0]), es[1..], fs);
    }
  }

  /** Under everysec, a flush that is due and the worker's fsync publish the current offset, which is then durable. */
  lemma EverySecPublishes(s: State, force: bool, child: bool, ok: bool)
    requires Inv(s) && Shape(s) && s.main == Idle && s.buf > 0 && s.policy == EverySec && s.queue == []
    requires s.worker == Waiting && s.now - s.lastFsync >= 1000 && (s.noFsyncOnRewrite ==> !child)
    ensures IsRun(s, Flushing(force, child, ok) + Working(true))
    ensures var t := After(s, Flushing(force, child, ok) + Working(true));
      t.pending == s.offset && t.queue == [] && t.buf == 0 && Promise(t)
  {
    hide IsRun, After, Inv, Next, Allowed;
    NoJobs(s);
    EverySecHandsOver(s, force, child, ok);
    var t := After(s, Flushing(force, child, ok));
    FlushedOn(s, force, child, ok);
    WorkerDoes(t, true);
    RunConcat(s, Flushing(force, child, ok), Working(true));
  }

  lemma HeadCounts(s: State)
    requires Inv(s) && s.queue != []
    ensures s.queue[0].FsyncJob? ==> s.counter > 0
  {}

  // ----- one file

  lemma OneFileGuard(s: State)
    requires Inv(s) && |s.files| == 1
    ensures NoneClosing(s) && (s.queue != [] ==> Tolerable(s))
  {
    forall q | 0 <= q < |s.queue| ensures !s.queue[q].CloseJob? { assert JobOk(s, s.queue[q]); }
  }

  lemma OneFileSound(s: State, e: Event)
    requires Inv(s) && |s.files| == 1 && Shape(s) && Allowed(s, e)
    ensures Sound(s, e)
  {
    hide Inv, Tolerable;
    OneFileGuard(s);
  }

  lemma FilesStay(s: State, e: Event)
    requires Shape(s) && Allowed(s, e) && !e.Switch?
    ensures |Next(s, e).files| == |s.files|
  {
    hide BeginStep, WriteStep, SyncStep, AppendStep;
    if !OfWorker(e) { MainKeeps(s, e); }
  }

  /** With one file, the main thread publishes only after its own fsync or under a good status. */
  ghost predicate Watchful(s: State, es: seq<Event>)
    requires IsRun(s, es)
    decreases |es|
  {
    es != [] ==> !es[0].Switch? && (es[0].DoPublish? ==> s.main.own || s.bioOk) && Watchful(Next(s, es[0]), es[1..])
  }

  /** With one INCR file such runs keep the promise, whichever fsyncs fail. */
  lemma {:induction false} SingleFileRuns(s: State, es: seq<Event>)
    requires Inv(s) && Promise(s) && |s.files| == 1 && IsRun(s, es) && Watchful(s, es)
    ensures Inv(After(s, es)) && Promise(After(s, es)) && |After(s, es).files| == 1
    decreases |es|
  {
    hide Inv, Promise, Allowed, Next, Shape, NoneClosing;
    if es != [] {
      OneFileGuard(s);
      FilesStay(s, es[0]);
      SingleStep(s, es[0]);
      SingleFileRuns(Next(s, es[0]), es[1..]);
    }
  }

  lemma SingleStep(s: State, e: Event)
    requires Inv(s) && Promise(s) && Shape(s) && Allowed(s, e) && |s.files| == 1
    requires e.DoPublish? ==> s.main.own || s.bioOk
    ensures Inv(Next(s, e)) && Promise(Next(s, e))
  {
    hide Inv, Promise, Next, NoneClosing, Tolerable;
    OneFileGuard(s);
    OneFileSound(s, e);
    StepInv(s, e);
    StepPromise(s, e);
  }

  /** Fsyncs succeed. */
  predicate Honest(e: Event) { (e.WorkerFsync? ==> e.ok) && (e.DoSync? ==> e.ok) }

  predicate AllHonest(es: seq<Event>) { forall i :: 0 <= i < |es| ==> !es[i].Switch? && Honest(es[i]) }

  lemma HonestStep(s: State, e: Event)
    requires s.bioOk && s.worker != Synced(false) && Shape(s) && Allowed(s, e) && !e.Switch? && Honest(e)
    ensures Next(s, e).bioOk && Next(s, e).worker != Synced(false)
  {
    hide BeginStep, WriteStep, SyncStep, AppendStep;
    if !OfWorker(e) { MainKeeps(s, e); }
  }

  /** With one file and no failing fsync the status stays good, so every run is watchful. */
  lemma {:induction false} HonestRuns(s: State, es: seq<Event>)
    requires s.bioOk && s.worker != Synced(false) && IsRun(s, es) && AllHonest(es)
    ensures Watchful(s, es)
    decreases |es|
  {
    hide Shape, Next, Allowed;
    if es != [] {
      assert !es[0].Switch? && Honest(es[0]);
      HonestStep(s, es[0]);
      HonestRuns(Next(s, es[0]), es[1..]);
    }
  }

  /** What the status says of the one file, between the fsync of the worker and its report too. */
  ghost predicate Tells(s: State) { s.lost == if s.worker.Synced? then !s.worker.ok else !s.bioOk }

  /** Only the worker fsyncs, and an fsync that fails leaves bytes behind. */
  ghost predicate Plain(s: State, e: Event)
    requires Shape(s)
  {
    && !e.Switch? && (e.DoSync? ==> s.policy != Always)
    && (e == WorkerFsync(false) && s.queue != [] ==> s.files[s.queue[0].file].sync < s.files[s.queue[0].file].end)
  }

  lemma TellsStep(s: State, e: Event)
    requires Inv(s) && Shape(s) && Allowed(s, e) && |s.files| == 1 && Tells(s) && Plain(s, e)
    ensures Tells(Next(s, e))
  {
    hide FilesOk, NeedsOk, JobsOk, ClosedOk, LastOk, WorkerOk, StatusOk, BeginStep, WriteStep, SyncStep, AppendStep;
    if !OfWorker(e) { MainKeeps(s, e); }
  }

  ghost predicate PlainRun(s: State, es: seq<Event>)
    requires IsRun(s, es)
    decreases |es|
  {
    es != [] ==> Plain(s, es[0]) && PlainRun(Next(s, es[0]), es[1..])
  }

  lemma {:induction false} PlainRunTells(s: State, es: seq<Event>)
    requires Inv(s) && |s.files| == 1 && Tells(s) && IsRun(s, es) && PlainRun(s, es)
    ensures Inv(After(s, es)) && |After(s, es).files| == 1 && Tells(After(s, es))
    decreases |es|
  {
    hide Inv, Allowed, Next, Shape, NoneClosing, Tells;
    if es != [] {
      OneFileSound(s, es[0]);
      StepInv(s, es[0]);
      TellsStep(s, es[0]);
      FilesStay(s, es[0]);
      PlainRunTells(Next(s, es[0]), es[1..]);
    }
  }

  /** With one file fsynced by the worker, a publication is right exactly if the status is good. */
  lemma StatusIff(s: State, es: seq<Event>)
    requires Inv(s) && |s.files| == 1 && Tells(s) && IsRun(s, es) && PlainRun(s, es)
    requires After(s, es).main == Publishing(false)
    ensures var t := After(s, es); Promise(t.(pending := t.offset, main := Idle)) <==> t.bioOk
  {
    hide Inv, IsRun, After, PlainRun, Promise;
    PlainRunTells(s, es);
    PublishIff(After(s, es));
    QuietWorker(After(s, es));
  }

  lemma QuietWorker(s: State)
    requires Inv(s) && |s.files| == 1 && s.main == Publishing(false)
    ensures !s.worker.Synced?
  {
    hide FilesOk, NeedsOk, ClosedOk, LastOk, StatusOk, Durable;
    if s.queue != [] {
      assert JobOk(s, s.queue[0]);
      NoFsyncs(s.queue, 0);
    }
  }

  // ----- a closing fsync that fails

  /** Bytes of a closed file that no job will fsync any more. */
  ghost predicate Hole(s: State, j: nat) {
    && FilesOk(s.files) && NeedsOk(s) && JobsOk(s) && (s.main.Syncing? ==> s.buf == 0)
    && j < |s.files| - 1 && s.files[j].sync < s.files[j].end
    && (forall q :: 0 <= q < |Waits(s)| ==> Waits(s)[q].file > j)
    && (s.worker != Waiting ==> s.queue != []) && (s.worker == Synced(true) ==> s.queue[0].file > j)
  }

  lemma HoleBegins(s: State)
    requires Inv(s) && Shape(s) && s.worker == Taken && !Tolerable(s)
    ensures Hole(FsyncStep(s, false), s.queue[0].file)
  {
    hide ClosedOk, LastOk, StatusOk, WorkerOk, FilesOk, Durable, Fsyncs;
    var t, j := FsyncStep(s, false), s.queue[0].file;
    forall q | 0 <= q < |t.queue| ensures JobOk(t, t.queue[q]) { assert JobOk(s, s.queue[q]); }
    LastFileAt(s.files, j);
    forall q | 0 <= q < |Waits(t)| ensures Waits(t)[q].file > j { assert Before(s.queue[0], s.queue[q + 1]); }
  }

  lemma LastFileAt(files: seq<File>, j: nat)
    requires FilesOk(files) && j < |files|
    ensures FileOk(files[j])
  {}

  /** The queue stands still while other files grow or are fsynced. */
  lemma HoleLater(s: State, t: State, j: nat)
    requires Hole(s, j) && SameQueue(s, t) && NeedsOk(t) && t.files[j] == s.files[j] && (t.main.Syncing? ==> t.buf == 0)
    ensures Hole(t, j)
  {
    hide FilesOk, NeedsOk, JobsOk, Later;
    JobsLater(s, t);
    assert Waits(t) == Waits(s);
  }

  lemma HoleSame(s: State, t: State, j: nat)
    requires Hole(s, j) && SameLog(s, t) && (t.main.Syncing? ==> t.buf == 0)
    ensures Hole(t, j) && t.files[j] == s.files[j]
  {
    hide FilesOk, JobsOk, Later;
    LaterSame(s.files);
    HoleLater(s, t, j);
  }

  lemma HoleAppend(s: State, j: nat, bytes: nat, delta: nat)
    requires Hole(s, j) && s.main == Idle && (bytes > 0 ==> delta > 0)
    ensures var t := AppendStep(s, bytes, delta); Hole(t, j) && t.files[j] == s.files[j]
  {
    hide FilesOk, Fsyncs;
    var t := AppendStep(s, bytes, delta);
    assert Waits(t) == Waits(s);
    forall q | 0 <= q < |t.queue| ensures JobOk(t, t.queue[q]) { assert JobOk(s, s.queue[q]); }
  }

  lemma HoleGrow(s: State, t: State, j: nat, n: nat)
    requires Hole(s, j) && n <= s.buf && s.files != [] && var f := Last(s);
      t.files == s.files[|s.files| - 1 := f.(end := f.end + n)] && t.buf == s.buf - n
    requires t.need == s.need && t.queue == s.queue && t.counter == s.counter && t.offset == s.offset
    requires t.worker == s.worker && t.bioOk == s.bioOk && (t.main.Syncing? ==> t.buf == 0)
    ensures Hole(t, j) && t.files[j] == s.files[j]
  {
    hide FilesOk, JobsOk, Later;
    GrownFiles(s.files, n);
    HoleLater(s, t, j);
  }

  lemma HoleWrite(s: State, j: nat, w: Write)
    requires Hole(s, j) && s.main.Writing? && s.files != []
    ensures var t := WriteStep(s, s.main.busy, w); Hole(t, j) && t.files[j] == s.files[j]
  {
    hide Hole;
    var t := WriteStep(s, s.main.busy, w);
    if w.Full? { HoleGrow(s, t, j, s.buf); }
    else if s.policy == Always || w.undone || w.n > s.buf { HoleSame(s, t, j); }
    else { HoleGrow(s, t, j, w.n); }
  }

  lemma HoleOwn(s: State, t: State, j: nat)
    requires Hole(s, j) && Shape(s) && var f := Last(s);
      t == WithLast(s, f.(sync := f.end)).(fsyncTo := f.end, lastFsync := s.now, lost := false,
        main := Publishing(true))
    ensures Hole(t, j) && t.files[j] == s.files[j]
  {
    hide FilesOk, JobsOk, Later;
    SyncedFiles(s.files, |s.files| - 1);
    HoleLater(s, t, j);
  }

  lemma HoleMain(s: State, j: nat, e: Event)
    requires Hole(s, j) && Shape(s) && Allowed(s, e) && !e.DoSync? && !e.Switch? && !OfWorker(e)
    ensures Hole(Next(s, e), j) && Next(s, e).files[j] == s.files[j]
  {
    hide Hole, BeginStep, WriteStep, AppendStep;
    match e {
      case Append(bytes, delta) => HoleAppend(s, j, bytes, delta);
      case DoWrite(w) => HoleWrite(s, j, w);
      case Begin(force) => BeginKeeps(s, force); HoleSame(s, Next(s, e), j);
      case Tick(_) => HoleSame(s, Next(s, e), j);
      case SetPolicy(_) => HoleSame(s, Next(s, e), j);
      case SetNoFsync(_) => HoleSame(s, Next(s, e), j);
      case DoPublish => HoleSame(s, Next(s, e), j);
      case _ =>
    }
  }

  lemma HoleSubmit(s: State, t: State, j: nat, job: Job)
    requires Hole(s, j) && FilesOk(t.files) && NeedsOk(t) && t.worker == s.worker && t.queue == s.queue + [job]
    requires job.file == |s.files| - 1 && JobOk(t, job) && t.need == s.need && !t.main.Syncing?
    requires |s.files| <= |t.files| && forall i :: 0 <= i < |s.files| ==> t.files[i] == s.files[i]
    requires t.counter == s.counter + if job.FsyncJob? then 1 else 0
    ensures Hole(t, j) && t.files[j] == s.files[j]
  {
    hide NeedsOk, FilesOk, Awaits, JobOk, Fsyncs;
    JobsSubmit(s, t, job);
    WaitsSubmit(s, t, job);
  }

  lemma HoleHandOver(s: State, t: State, j: nat)
    requires Hole(s, j) && Shape(s) && s.main.Syncing?
    requires t == s.(queue := s.queue + [FsyncJob(|s.files| - 1, s.offset)], counter := s.counter + 1,
                     fsyncTo := Last(s).end, lastFsync := s.now, main := Idle)
    ensures Hole(t, j) && t.files[j] == s.files[j]
  {
    hide JobsOk, FilesOk;
    LastFileOk(s.files);
    HoleSubmit(s, t, j, FsyncJob(|s.files| - 1, s.offset));
  }

  lemma HoleSync(s: State, j: nat, child: bool, ok: bool)
    requires Hole(s, j) && Shape(s) && s.main.Syncing?
    ensures var t := SyncStep(s, s.main.busy, child, ok); Hole(t, j) && t.files[j] == s.files[j]
  {
    hide Hole;
    var t := SyncStep(s, s.main.busy, child, ok);
    if s.noFsyncOnRewrite && child { HoleSame(s, t, j); }
    else if s.policy == Always && ok { HoleOwn(s, t, j); }
    else if s.policy == EverySec && s.now - s.lastFsync >= 1000 && !s.main.busy { HoleHandOver(s, t, j); }
    else { HoleSame(s, t, j); }
  }

  lemma HoleSwitch(s: State, j: nat)
    requires Hole(s, j) && Shape(s) && s.main == Idle && s.buf == 0
    ensures Hole(SwitchStep(s), j) && SwitchStep(s).files[j] == s.files[j]
  {
    hide Fsyncs, Durable;
    LastFileOk(s.files);
    HoleSubmit(s, SwitchStep(s), j, CloseJob(|s.files| - 1, s.offset));
  }

  lemma HoleFsync(s: State, j: nat, ok: bool)
    requires Hole(s, j) && Shape(s) && s.worker == Taken
    ensures var t := FsyncStep(s, ok); Hole(t, j) && t.files[j] == s.files[j]
  {
    hide JobsOk, Later, FilesOk;
    var t := FsyncStep(s, ok);
    assert Waits(s)[0] == s.queue[0];
    SyncedFiles(s.files, s.queue[0].file);
    LaterSame(s.files);
    JobsLater(s, t.(worker := Taken));
    SameJobs(t.(worker := Taken), t);
    forall q | 0 <= q < |Waits(t)| ensures Waits(t)[q].file > j { HoleWaits(s, t, j, q); }
  }

  lemma SameJobs(s: State, t: State)
    requires JobsOk(s) && t.queue == s.queue && t.counter == s.counter && t.files == s.files && t.need == s.need
    ensures JobsOk(t)
  {
    forall q | 0 <= q < |t.queue| ensures JobOk(t, t.queue[q]) { assert JobOk(s, s.queue[q]); }
  }

  lemma HoleWorker(s: State, j: nat, e: Event)
    requires Hole(s, j) && Shape(s) && Allowed(s, e) && (e.Take? || e.WorkerPublish? || e.Retire?)
    ensures Hole(Next(s, e), j) && Next(s, e).files[j] == s.files[j]
  {
    hide FilesOk, JobsOk, AppendStep, BeginStep, WriteStep, SyncStep, SwitchStep, FsyncStep;
    var t := Next(s, e);
    if e.Retire? {
      RetireJobs(s);
      assert Waits(t) == Waits(s);
    } else {
      SameJobs(s, t);
      forall q | 0 <= q < |Waits(t)| ensures Waits(t)[q].file > j { HoleWaits(s, t, j, q); }
    }
  }

  lemma HoleWaits(s: State, t: State, j: nat, q: nat)
    requires forall k :: 0 <= k < |Waits(s)| ==> Waits(s)[k].file > j
    requires t.queue == s.queue && q < |Waits(t)| && (s.worker.Synced? || s.worker.Finished? ==> t.worker.Finished?)
    ensures Waits(t)[q].file > j
  {
    if Waits(t) == Waits(s) { assert Waits(s)[q].file > j; } else { assert Waits(t)[q] == Waits(s)[q + 1]; }
  }

  lemma HoleStep(s: State, j: nat, e: Event)
    requires Hole(s, j) && Shape(s) && Allowed(s, e)
    ensures Hole(Next(s, e), j) && Next(s, e).files[j] == s.files[j]
  {
    hide Hole, BeginStep, WriteStep, SyncStep, SwitchStep, AppendStep, FsyncStep, PublishStep, RetireStep;
    if e.DoSync? { HoleSync(s, j, e.child, e.ok); }
    else if e.Switch? { HoleSwitch(s, j); }
    else if e.WorkerFsync? { HoleFsync(s, j, e.ok); }
    else if OfWorker(e) { HoleWorker(s, j, e); }
    else { HoleMain(s, j, e); }
  }

  /** One of the threads stores an offset. */
  ghost predicate Publishes(s: State, e: Event) { e.DoPublish? || (e.WorkerPublish? && s.worker == Synced(true)) }

  lemma HolePublishes(s: State, j: nat, e: Event)
    requires Hole(s, j) && Shape(s) && Allowed(s, e) && Publishes(s, e)
    ensures !Promise(Next(s, e))
  {
    hide Fsyncs;
    LastFileAt(s.files, j);
    EndsGrow(s.files, j, |s.files| - 1);
    if e.WorkerPublish? {
      assert JobOk(s, s.queue[0]);
      EndsGrow(s.files, j, s.queue[0].file);
    }
  }

  lemma {:induction false} HoleStays(s: State, j: nat, es: seq<Event>)
    requires Hole(s, j) && IsRun(s, es)
    ensures Hole(After(s, es), j) && After(s, es).files[j] == s.files[j]
    decreases |es|
  {
    hide Hole, Allowed, Next, Shape;
    if es != [] {
      HoleStep(s, j, es[0]);
      HoleStays(Next(s, es[0]), j, es[1..]);
    }
  }

  /** After a closing fsync that failed with bytes left, every publication in every run breaks the promise. */
  lemma CloseFailureIsFinal(s: State, es: seq<Event>, e: Event)
    requires Inv(s) && Shape(s) && s.worker == Taken && !Tolerable(s) && IsRun(FsyncStep(s, false), es)
    ensures var t := After(FsyncStep(s, false), es); Shape(t) && Allowed(t, e) && Publishes(t, e) ==>
      !Promise(Next(t, e))
  {
    hide Inv, Hole, Allowed, Next, Publishes, Promise, FsyncStep, IsRun, After;
    HoleBegins(s);
    HoleStays(FsyncStep(s, false), s.queue[0].file, es);
    var t := After(FsyncStep(s, false), es);
    if Shape(t) && Allowed(t, e) && Publishes(t, e) { HolePublishes(t, s.queue[0].file, e); }
  }

  function Start(policy: Policy): State {
    State(policy, false, 0, 0, 0, [File(0, 0, 0)], 0, 0, 0, 0, true, false, Idle, [], 0, Waiting, map[0 := 0])
  }

  lemma StartInv(policy: Policy)
    ensures Inv(Start(policy)) && Promise(Start(policy))
  {
    hide Awaits, Waits, NeedsOk, Durable, FilesOk, JobsOk;
    var s := Start(policy);
    StartFiles();
    StartNeeds(policy);
    assert JobsOk(s) by { StartJobs(s); }
    assert ClosedOk(s);
    assert LastOk(s);
    assert MainOk(s) && WorkerOk(s) && StatusOk(s);
  }

  lemma StartFiles()
    ensures FilesOk([File(0, 0, 0)]) && Durable([File(0, 0, 0)], 0)
  {}

  lemma StartNeeds(policy: Policy)
    ensures NeedsOk(Start(policy))
  {}

  lemma StartJobs(s: State)
    requires s.queue == [] && s.counter == 0
    ensures JobsOk(s)
  {}

  /** From the start of the server, every interleaving with one file and no failing fsync keeps the promise. */
  lemma HonestFromStart(policy: Policy, es: seq<Event>)
    requires IsRun(Start(policy), es) && AllHonest(es)
    ensures Promise(After(Start(policy), es))
  {
    hide IsRun, After, Promise, Inv, AllHonest, Watchful;
    StartInv(policy);
    HonestRuns(Start(policy), es);
    SingleFileRuns(Start(policy), es);
  }

  // ----- runs that are not guarded

  lemma RunOn(s: State, e: Event, es: seq<Event>)
    requires Shape(s) && Allowed(s, e) && IsRun(Next(s, e), es)
    ensures IsRun(s, [e] + es) && After(s, [e] + es) == After(Next(s, e), es)
  {
    hide Shape, Allowed, Next;
    assert ([e] + es)[1..] == es;
  }

  function Written(now: nat): State {
    State(EverySec, false, now, 0, 0, [File(0, 10, 0)], 0, 0, 1, 0, true, false, Syncing(false), [], 0,
          Waiting, map[0 := 0, 1 := 10])
  }

  /** Ten bytes are appended and written. */
  lemma WriteRun(now: nat, es: seq<Event>)
    requires IsRun(Written(now), es)
    ensures var run := [Tick(now)] + ([Append(10, 1)] + ([Begin(false)] + ([DoWrite(Full)] + es)));
      IsRun(Start(EverySec), run) && After(Start(EverySec), run) == After(Written(now), es)
  {
    hide IsRun, After;
    var s0 := Start(EverySec);
    var s1 := Next(s0, Tick(now));
    var s2 := Next(s1, Append(10, 1));
    assert s2.need == map[0 := 0, 1 := 10];
    var s3 := Next(s2, Begin(false));
    assert s3.main == Writing(false);
    assert Next(s3, DoWrite(Full)) == Written(now);
    RunOn(s3, DoWrite(Full), es);
    RunOn(s2, Begin(false), [DoWrite(Full)] + es);
    RunOn(s1, Append(10, 1), [Begin(false)] + ([DoWrite(Full)] + es));
    RunOn(s0, Tick(now), [Append(10, 1)] + ([Begin(false)] + ([DoWrite(Full)] + es)));
  }

  lemma RunNothing(s: State)
    ensures IsRun(s, []) && After(s, []) == s
  {}

  function ThenPublish(): seq<Event> { [Begin(false)] + ([DoPublish] + []) }

  /** The empty-buffer branch publishes although the first file is not fsynced. */
  lemma PublishRun(s: State)
    requires Shape(s) && s.main == Idle && s.buf == 0 && s.fsyncTo == Last(s).end && s.counter == 0
    requires s.files[0] == File(0, 10, 0) && s.offset in s.need && s.need[s.offset] == 10
    ensures IsRun(s, ThenPublish()) && !Promise(After(s, ThenPublish()))
  {
    hide IsRun, After;
    var t := Next(s, Begin(false));
    assert t == s.(main := Publishing(false));
    var u := Next(t, DoPublish);
    RunNothing(u);
    RunOn(t, DoPublish, []);
    RunOn(s, Begin(false), [DoPublish] + []);
  }

  function Switched(): State {
    State(EverySec, false, 0, 0, 0, [File(0, 10, 0), File(10, 10, 10)], 0, 10, 1, 0, true, false, Idle,
          [CloseJob(0, 1)], 0, Waiting, map[0 := 0, 1 := 10])
  }

  lemma SwitchRun(es: seq<Event>)
    requires IsRun(Switched(), es)
    ensures var run := [DoSync(false, true)] + ([Switch] + es);
      IsRun(Written(0), run) && After(Written(0), run) == After(Switched(), es)
  {
    hide IsRun, After;
    var s := Next(Written(0), DoSync(false, true));
    assert s == Written(0).(main := Idle);
    assert Next(s, Switch) == Switched();
    RunOn(s, Switch, es);
    RunOn(Written(0), DoSync(false, true), [Switch] + es);
  }

  /** After a switch to a new file the empty-buffer branch reports bytes of the old file that are not fsynced. */
  lemma EarlyPublication() returns (es: seq<Event>)
    ensures IsRun(Start(EverySec), es) && !Promise(After(Start(EverySec), es))
    ensures forall i :: 0 <= i < |es| ==> Honest(es[i])
  {
    hide IsRun, After, Promise;
    PublishRun(Switched());
    SwitchRun(ThenPublish());
    WriteRun(0, [DoSync(false, true)] + ([Switch] + ThenPublish()));
    es := [Tick(0)] + ([Append(10, 1)] + ([Begin(false)] + ([DoWrite(Full)] +
      ([DoSync(false, true)] + ([Switch] + ThenPublish())))));
  }

  /** The worker comes to fsync and close a file with bytes left: if that fails, `CloseFailureIsFinal` applies. */
  lemma ClosingReachable() returns (es: seq<Event>)
    ensures IsRun(Start(EverySec), es)
    ensures var t := After(Start(EverySec), es); Shape(t) && t.worker == Taken && !Tolerable(t)
  {
    hide IsRun, After;
    var t := Switched().(worker := Taken);
    RunNothing(t);
    RunOn(Switched(), Take, []);
    SwitchRun([Take] + []);
    WriteRun(0, [DoSync(false, true)] + ([Switch] + ([Take] + [])));
    es := [Tick(0)] + ([Append(10, 1)] + ([Begin(false)] + ([DoWrite(Full)] +
      ([DoSync(false, true)] + ([Switch] + ([Take] + []))))));
  }

  function Submitted(): State {
    State(EverySec, false, 1000, 1000, 0, [File(0, 10, 0)], 0, 10, 1, 0, true, false, Idle,
          [FsyncJob(0, 1)], 1, Waiting, map[0 := 0, 1 := 10])
  }

  function GaveUp(): State { Submitted().(queue := [], counter := 0, bioOk := false, lost := true) }

  lemma WorkerFailsRun(es: seq<Event>)
    requires IsRun(GaveUp(), es)
    ensures var run := [Take] + ([WorkerFsync(false)] + ([WorkerPublish] + ([Retire] + es)));
      IsRun(Submitted(), run) && After(Submitted(), run) == After(GaveUp(), es)
  {
    hide IsRun, After;
    var s0 := Submitted();
    var s1 := s0.(worker := Taken);
    var s2 := s0.(worker := Synced(false), lost := true);
    var s3 := s0.(worker := Finished, bioOk := false, lost := true);
    assert s3.queue[1..] == [];
    RunOn(s3, Retire, es);
    RunOn(s2, WorkerPublish, [Retire] + es);
    RunOn(s1, WorkerFsync(false), [WorkerPublish] + ([Retire] + es));
    RunOn(s0, Take, [WorkerFsync(false)] + ([WorkerPublish] + ([Retire] + es)));
  }

  lemma SubmitRun(es: seq<Event>)
    requires IsRun(Submitted(), es)
    ensures var run := [DoSync(false, true)] + es;
      IsRun(Written(1000), run) && After(Written(1000), run) == After(Submitted(), es)
  {
    hide IsRun, After;
    assert Next(Written(1000), DoSync(false, true)) == Submitted();
    RunOn(Written(1000), DoSync(false, true), es);
  }

  /** After a failed fsync of the worker the empty-buffer branch reports the bytes as fsynced. */
  lemma FailedFsync() returns (es: seq<Event>)
    ensures IsRun(Start(EverySec), es) && !Promise(After(Start(EverySec), es))
    ensures forall i :: 0 <= i < |es| ==> !es[i].Switch?
  {
    hide IsRun, After, Promise;
    PublishRun(GaveUp());
    var e1 := ThenPublish();
    WorkerFailsRun(e1);
    var e2 := [Take] + ([WorkerFsync(false)] + ([WorkerPublish] + ([Retire] + e1)));
    SubmitRun(e2);
    var e3 := [DoSync(false, true)] + e2;
    WriteRun(1000, e3);
    es := [Tick(1000)] + ([Append(10, 1)] + ([Begin(false)] + ([DoWrite(Full)] + e3)));
  }
}
