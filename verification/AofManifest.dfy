/**
 The multi-part append only file of aof.c: the manifest, the files it names and the
 background rewrite, as a state machine.

 A dataset is identified with the history of writes that led to it, so a BASE file
 holds a history and an INCR file holds the writes that came after. Whatever the
 writes mean, two equal histories give equal datasets. One `Unit` is one byte of log.
 Every operation is one step; a crash may come between any two of them, and also
 between the renames and the manifest write of a finished rewrite.
 */
module AofManifest {

  type Unit = nat

  datatype Option<+T> = None | Some(value: T)

  /** `<prefix>.<seq>.base.rdb|aof`, `<prefix>.<seq>.incr.aof` and the temporary INCR file. */
  datatype Name = Base(n: nat, rdb: bool) | Incr(n: nat) | TempIncr

  /** The three lists of a manifest. */
  datatype Files = Files(base: Option<Name>, incr: seq<Name>, hist: seq<Name>)

  datatype Manifest = Manifest(files: Files, baseSeq: nat, incrSeq: nat, dirty: bool)

  datatype Mode = Off | On | WaitRewrite

  /** The append descriptor: closed, open on a named file, or open on a file that lost its name. */
  datatype Fd = Closed | Open(name: Name) | Dangling

  datatype State = State(
    mode: Mode,
    manifest: Manifest,          // server.aof_manifest
    saved: Files,                // the manifest file on disk
    disk: map<Name, seq<Unit>>,
    fd: Fd,
    buf: seq<Unit>,              // server.aof_buf
    data: seq<Unit>,             // the dataset in memory
    child: Option<seq<Unit>>     // a running rewrite and the dataset it forked with
  )

  // ----- replaying files

  function Content(disk: map<Name, seq<Unit>>, n: Name): seq<Unit> { if n in disk then disk[n] else [] }

  function Concat(disk: map<Name, seq<Unit>>, names: seq<Name>): seq<Unit> {
    if names == [] then [] else Concat(disk, names[..|names| - 1]) + Content(disk, names[|names| - 1])
  }

  /** `loadAppendOnlyFiles`: the BASE file, then the INCR files in order. */
  function Replay(disk: map<Name, seq<Unit>>, f: Files): seq<Unit> {
    (if f.base.Some? then Content(disk, f.base.value) else []) + Concat(disk, f.incr)
  }

  // ----- manifest operations

  function Last<T>(s: seq<T>): T requires s != [] { s[|s| - 1] }

  function Init<T>(s: seq<T>): seq<T> requires s != [] { s[..|s| - 1] }

  /** `getNewBaseFileNameAndMarkPreAsHistory`. */
  function NewBase(m: Manifest, rdb: bool): Manifest {
    var hist := if m.files.base.Some? then [m.files.base.value] + m.files.hist else m.files.hist;
    Manifest(Files(Some(Base(m.baseSeq + 1, rdb)), m.files.incr, hist), m.baseSeq + 1, m.incrSeq, true)
  }

  /** `getNewIncrAofName`. */
  function NewIncr(m: Manifest): Manifest {
    m.(files := m.files.(incr := m.files.incr + [Incr(m.incrSeq + 1)]), incrSeq := m.incrSeq + 1, dirty := true)
  }

  /** `markRewrittenIncrAofAsHistory`; `keepLast` when a descriptor is open. */
  function MarkRewritten(m: Manifest, keepLast: bool): Manifest {
    var incr := m.files.incr;
    if incr == [] then m
    else if keepLast then m.(files := m.files.(incr := [Last(incr)], hist := Init(incr) + m.files.hist), dirty := true)
    else m.(files := m.files.(incr := [], hist := incr + m.files.hist), dirty := true)
  }

  /** `aofLoadManifestFromFile`: sequence numbers are read off the lists. */
  function Load(f: Files): Manifest {
    Manifest(f,
             if f.base.Some? && f.base.value.Base? then f.base.value.n else 0,
             if f.incr != [] && Last(f.incr).Incr? then Last(f.incr).n else 0,
             false)
  }

  // ----- operations of the server

  /** One write: always applied, logged when the AOF is on or being switched on. */
  function Write(s: State, u: Unit): State {
    var logged := s.mode == On || (s.mode == WaitRewrite && s.child.Some?);
    s.(data := s.data + [u], buf := if logged then s.buf + [u] else s.buf)
  }

  /** `flushAppendOnlyFile` writing the first `n` bytes of a buffer that is not empty. */
  function Flush(s: State, n: nat): State {
    if 0 < |s.buf| && n <= |s.buf| && s.fd.Open? then
      s.(disk := s.disk[s.fd.name := Content(s.disk, s.fd.name) + s.buf[..n]], buf := s.buf[n..])
    else s
  }

  /** How far `openNewIncrAofForAppend` and the fork get. */
  datatype StartOutcome = OpenFailed | PersistFailed | ForkFailed | Started

  /** `openNewIncrAofForAppend`. */
  function OpenNewIncr(s: State, outcome: StartOutcome): State {
    match s.mode
    case Off => s
    case WaitRewrite =>
      if outcome == OpenFailed then s
      else s.(disk := s.disk[TempIncr := []], fd := Open(TempIncr))
    case On =>
      var m := NewIncr(s.manifest);
      var name := Incr(m.incrSeq);
      if outcome == OpenFailed then s
      else if outcome == PersistFailed then s.(disk := s.disk[name := []])
      else s.(disk := s.disk[name := []], fd := Open(name), manifest := m.(dirty := false), saved := m.files)
  }

  /** `rewriteAppendOnlyFileBackground` after a flush of `n` bytes. */
  function StartRewrite(s: State, n: nat, outcome: StartOutcome): State {
    if s.child.Some? then s
    else
      var s1 := OpenNewIncr(Flush(s, n), outcome);
      if outcome == Started then s1.(child := Some(s1.data)) else s1
  }

  /** The cleanup at the end of `backgroundRewriteDoneHandler`. */
  function CleanUp(s: State): State {
    var s1 := s.(child := None);
    if s.mode == WaitRewrite then
      s1.(buf := [], disk := s.disk - {TempIncr}, fd := if s.fd == Open(TempIncr) then Dangling else s.fd)
    else s1
  }

  /** Where a finished rewrite stops. */
  datatype DoneOutcome = ChildFailed | BaseRenameFailed | IncrRenameFailed | ManifestFailed | Done

  /** The state of the manifest a finished rewrite writes. */
  function Rewritten(s: State, rdb: bool): Manifest {
    var m := NewBase(s.manifest, rdb);
    var m1 := if s.mode == WaitRewrite then NewIncr(m) else m;
    MarkRewritten(m1, s.fd != Closed)
  }

  /** Renaming the temporary INCR file fails if it is not there. */
  function Reached(s: State, outcome: DoneOutcome): DoneOutcome {
    if s.mode == WaitRewrite && TempIncr !in s.disk && (outcome == ManifestFailed || outcome == Done)
    then IncrRenameFailed else outcome
  }

  /** The renames of a finished rewrite; an open descriptor follows its file. */
  function Renamed(s: State, rdb: bool): State
    requires s.child.Some?
  {
    var base := Base(s.manifest.baseSeq + 1, rdb);
    var s1 := s.(disk := s.disk[base := s.child.value]);
    if s.mode == WaitRewrite && TempIncr in s.disk then
      var incr := Incr(s.manifest.incrSeq + 1);
      s1.(disk := s1.disk[incr := s.disk[TempIncr]] - {TempIncr},
          fd := if s.fd == Open(TempIncr) then Open(incr) else s.fd)
    else s1
  }

  /** The descriptor after the renames have been taken back. */
  function Unnamed(fd: Fd, incr: Name): Fd { if fd == Open(incr) then Dangling else fd }

  /** `backgroundRewriteDoneHandler` up to the history deletion. */
  function FinishRewrite(s: State, rdb: bool, outcome: DoneOutcome): State {
    if s.child.None? then s
    else
      var base := Base(s.manifest.baseSeq + 1, rdb);
      var incr := Incr(s.manifest.incrSeq + 1);
      match Reached(s, outcome)
      case ChildFailed => CleanUp(s)
      case BaseRenameFailed => CleanUp(s)
      case IncrRenameFailed => CleanUp(s.(disk := s.disk - {base}))
      case ManifestFailed =>
        var s1 := Renamed(s, rdb);
        if s.mode == WaitRewrite then CleanUp(s1.(disk := s1.disk - {base, incr}, fd := Unnamed(s1.fd, incr)))
        else CleanUp(s1.(disk := s1.disk - {base}))
      case Done =>
        var s1 := Renamed(s, rdb);
        var m := Rewritten(s, rdb);
        s1.(manifest := m.(dirty := false), saved := m.files, child := None,
            mode := if s.mode == WaitRewrite then On else s.mode)
  }

  /** `aofDelHistoryFiles`: unlink what is history, then write the shorter manifest. */
  function DelHistory(s: State, persisted: bool): State {
    var gone := set n | n in s.manifest.files.hist;
    var f := s.manifest.files.(hist := []);
    if s.manifest.files.hist == [] then s
    else s.(disk := s.disk - gone, manifest := s.manifest.(files := f, dirty := !persisted),
            saved := if persisted then f else s.saved)
  }

  /** `stopAppendOnly` after its forced flush; the end offset it records rewrites the manifest file. */
  function Stop(s: State, persisted: bool): State {
    if s.mode == Off then s
    else s.(mode := Off, fd := Closed, buf := [], child := None,
       saved := if s.mode == On && persisted then s.manifest.files else s.saved)
  }

  /**
   `startAppendOnly`. Inside EXEC, or while another kind of child runs, the rewrite is only scheduled (`later`), and
   a rewrite that is already running goes on. Otherwise that one is killed and a new one started, or all given up.
   */
  function Enable(s: State, later: bool, outcome: StartOutcome): State {
    if s.mode != Off then s
    else if later then s.(mode := WaitRewrite)
    else
      var t := StartRewrite(s.(mode := WaitRewrite, child := None), 0, outcome);
      if outcome == Started then t else t.(mode := Off)
  }

  /**
   A crash or shutdown and a restart with the AOF on: `aofLoadManifestFromDisk`,
   `loadAppendOnlyFiles` and `aofOpenIfNeededOnServerStart`.
   */
  function Reopen(s: State, rdb: bool): State {
    var data := Replay(s.disk, s.saved);
    var m := Load(s.saved);
    var m1 := if m.files.base.None? && m.files.incr == [] then NewBase(m, rdb) else m;
    var disk1 := if m.files.base.None? && m.files.incr == [] then s.disk[Base(m.baseSeq + 1, rdb) := data] else s.disk;
    var m2 := if m1.files.incr == [] then NewIncr(m1) else m1;
    var name := Last(m2.files.incr);
    State(On, m2.(dirty := false), m2.files, disk1[name := Content(disk1, name)], Open(name), [], data, None)
  }

  /** A restart with the AOF off; the dataset comes from elsewhere. */
  function ReopenOff(s: State, data: seq<Unit>): State {
    State(Off, Load(s.saved), s.saved, s.disk, Closed, [], data, None)
  }

  /** Where a crash finds a finished rewrite: the BASE file is renamed first, then the INCR file, then the manifest. */
  datatype CrashPoint = NothingRenamed | BaseRenamed | AllRenamed

  function Crashed(s: State, at: CrashPoint, rdb: bool): State {
    if s.child.None? then s
    else
      match at
      case NothingRenamed => s
      case BaseRenamed => s.(disk := s.disk[Base(s.manifest.baseSeq + 1, rdb) := s.child.value])
      case AllRenamed => Renamed(s, rdb)
  }

  // ----- the invariant

  ghost predicate Ascending(names: seq<Name>, bound: nat) {
    && (forall i :: 0 <= i < |names| ==> names[i].Incr? && 1 <= names[i].n <= bound)
    && (forall i, j :: 0 <= i < j < |names| ==> names[i].n < names[j].n)
  }

  /** A history entry lies strictly before everything live, so no new or live file can share its name. */
  ghost predicate Past(h: Name, m: Manifest) {
    match h
    case Base(n, _) => m.files.base.Some? && n < m.baseSeq
    case Incr(n) => 1 <= n <= m.incrSeq && forall i :: 0 <= i < |m.files.incr| && m.files.incr[i].Incr? ==>
      n < m.files.incr[i].n
    case TempIncr => false
  }

  ghost predicate AllPast(hist: seq<Name>, m: Manifest) {
    forall i :: 0 <= i < |hist| ==> Past(hist[i], m)
  }

  ghost predicate OnDisk(names: seq<Name>, disk: map<Name, seq<Unit>>) {
    forall i :: 0 <= i < |names| ==> names[i] in disk
  }

  /** What holds of names and files in every mode. */
  ghost predicate Names(s: State) {
    var m := s.manifest;
    && s.saved.base == m.files.base && s.saved.incr == m.files.incr
    && (m.files.base.Some? ==>
        m.files.base.value.Base? && m.files.base.value.n == m.baseSeq && m.files.base.value in s.disk)
    && Ascending(m.files.incr, m.incrSeq) && OnDisk(m.files.incr, s.disk)
    && AllPast(m.files.hist, m) && AllPast(s.saved.hist, m)
  }

  function BaseContent(disk: map<Name, seq<Unit>>, f: Files): seq<Unit> {
    if f.base.Some? then Content(disk, f.base.value) else []
  }

  /** What holds of the data. */
  ghost predicate Logged(s: State) {
    var f := s.manifest.files;
    match s.mode
    case Off =>
      s.buf == [] && (s.fd == Closed || (s.fd == Open(TempIncr) && TempIncr in s.disk && s.disk[TempIncr] == []))
    case On =>
      && f.incr != [] && s.fd == Open(Last(f.incr))
      && Replay(s.disk, s.saved) + s.buf == s.data
      && (s.child.Some? ==> s.child.value == BaseContent(s.disk, f) + Concat(s.disk, Init(f.incr)))
    case WaitRewrite =>
      if s.child.None? then s.buf == []
      else if s.fd == Closed then TempIncr !in s.disk
      else s.fd == Open(TempIncr) && TempIncr in s.disk && s.child.value + s.disk[TempIncr] + s.buf == s.data
  }

  ghost predicate Inv(s: State) { Names(s) && Logged(s) }

  // ----- framing

  ghost predicate SameOn(d: map<Name, seq<Unit>>, e: map<Name, seq<Unit>>, names: seq<Name>) {
    forall i :: 0 <= i < |names| ==> Content(d, names[i]) == Content(e, names[i])
  }

  lemma {:induction false} ConcatFrame(d: map<Name, seq<Unit>>, e: map<Name, seq<Unit>>, names: seq<Name>)
    requires SameOn(d, e, names)
    ensures Concat(d, names) == Concat(e, names)
    decreases |names|
  {
    if names != [] { ConcatFrame(d, e, Init(names)); }
  }

  lemma ReplayFrame(d: map<Name, seq<Unit>>, e: map<Name, seq<Unit>>, f: Files)
    requires SameOn(d, e, f.incr) && (f.base.Some? ==> Content(d, f.base.value) == Content(e, f.base.value))
    ensures Replay(d, f) == Replay(e, f) && BaseContent(d, f) == BaseContent(e, f)
    ensures f.incr != [] ==> Concat(d, Init(f.incr)) == Concat(e, Init(f.incr))
  {
    ConcatFrame(d, e, f.incr);
    if f.incr != [] { ConcatFrame(d, e, Init(f.incr)); }
  }

  lemma ReplayLast(d: map<Name, seq<Unit>>, f: Files)
    requires f.incr != []
    ensures Replay(d, f) == BaseContent(d, f) + Concat(d, Init(f.incr)) + Content(d, Last(f.incr))
  {
    assert BaseContent(d, f) + (Concat(d, Init(f.incr)) + Content(d, Last(f.incr)))
        == BaseContent(d, f) + Concat(d, Init(f.incr)) + Content(d, Last(f.incr));
  }

  /** A file that no live entry names. */
  ghost predicate NotLive(n: Name, m: Manifest) {
    m.files.base != Some(n) && n !in m.files.incr
  }

  lemma FreshNames(s: State, rdb: bool)
    requires Names(s)
    ensures NotLive(Base(s.manifest.baseSeq + 1, rdb), s.manifest)
    ensures NotLive(Incr(s.manifest.incrSeq + 1), s.manifest)
    ensures NotLive(TempIncr, s.manifest)
  {}

  lemma PastNotLive(s: State, h: Name)
    requires Names(s) && Past(h, s.manifest)
    ensures NotLive(h, s.manifest)
  {}

  /** Changing files that are not live changes nothing that is replayed. */
  lemma LiveFrame(s: State, disk: map<Name, seq<Unit>>)
    requires Names(s)
    requires forall n :: !NotLive(n, s.manifest) ==> (n in s.disk ==> n in disk && disk[n] == s.disk[n])
    ensures Names(s.(disk := disk))
    ensures Replay(disk, s.saved) == Replay(s.disk, s.saved)
    ensures BaseContent(disk, s.manifest.files) == BaseContent(s.disk, s.manifest.files)
    ensures s.manifest.files.incr != [] ==>
              Concat(disk, Init(s.manifest.files.incr)) == Concat(s.disk, Init(s.manifest.files.incr))
  {
    hide Past, Replay, BaseContent, Concat;
    var f := s.manifest.files;
    forall i | 0 <= i < |f.incr| ensures f.incr[i] in disk && Content(disk, f.incr[i]) == Content(s.disk, f.incr[i]) {
      assert !NotLive(f.incr[i], s.manifest);
    }
    if f.base.Some? { assert !NotLive(f.base.value, s.manifest); }
    ReplayFrame(s.disk, disk, s.saved);
    ReplayFrame(s.disk, disk, f);
  }
}
