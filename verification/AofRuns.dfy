/**
 Every run of the append only file keeps its invariant: replaying the persisted
 manifest plus the unflushed buffer gives the dataset, and names never collide.
 */
module AofRuns {
  import opened AofManifest

  lemma WriteInv(s: State, u: Unit)
    requires Inv(s)
    ensures Inv(Write(s, u))
  {
    hide Names, Replay, Concat, BaseContent;
    var t := Write(s, u);
    assert Names(t) by { SameNames(s, t); }
    if s.mode == On {
      assert Replay(s.disk, s.saved) + (s.buf + [u]) == (Replay(s.disk, s.saved) + s.buf) + [u];
    } else if s.mode == WaitRewrite && s.child.Some? && s.fd != Closed {
      var c := s.child.value + s.disk[TempIncr];
      assert c + (s.buf + [u]) == (c + s.buf) + [u];
    }
  }

  lemma SameNames(s: State, t: State)
    requires Names(s) && t.manifest == s.manifest && t.saved == s.saved && t.disk == s.disk
    ensures Names(t)
  {}

  // ----- flushing

  /** Appending to the last INCR file appends to the replay. */
  lemma AppendLast(s: State, more: seq<Unit>)
    requires Names(s) && s.manifest.files.incr != []
    ensures var n := Last(s.manifest.files.incr); var disk := s.disk[n := Content(s.disk, n) + more];
            Names(s.(disk := disk))
            && Replay(disk, s.saved) == Replay(s.disk, s.saved) + more
            && BaseContent(disk, s.manifest.files) == BaseContent(s.disk, s.manifest.files)
            && Concat(disk, Init(s.manifest.files.incr)) == Concat(s.disk, Init(s.manifest.files.incr))
  {
    hide Past;
    var f := s.manifest.files;
    var n := Last(f.incr);
    var disk := s.disk[n := Content(s.disk, n) + more];
    assert forall i :: 0 <= i < |f.incr| - 1 ==> f.incr[i] != n;
    ConcatFrame(s.disk, disk, Init(f.incr));
    ReplayLast(s.disk, s.saved);
    ReplayLast(disk, s.saved);
    var a := BaseContent(s.disk, f) + Concat(s.disk, Init(f.incr));
    assert a + (Content(s.disk, n) + more) == (a + Content(s.disk, n)) + more;
  }

  lemma FlushInv(s: State, n: nat)
    requires Inv(s)
    ensures Inv(Flush(s, n))
  {
    hide Names, Replay, Concat, BaseContent;
    if 0 < |s.buf| && n <= |s.buf| && s.fd.Open? {
      if s.mode == On {
        var more := s.buf[..n];
        assert s.buf == more + s.buf[n..];
        AppendLast(s, more);
        assert (Replay(s.disk, s.saved) + more) + s.buf[n..] == Replay(s.disk, s.saved) + s.buf;
        SameNames(s.(disk := Flush(s, n).disk), Flush(s, n));
      } else {
        WaitFlush(s, n);
      }
    }
  }

  lemma WaitFlush(s: State, n: nat)
    requires Inv(s) && s.mode == WaitRewrite && s.child.Some? && s.fd.Open? && 0 < |s.buf| && n <= |s.buf|
    ensures Inv(Flush(s, n))
  {
    hide Past;
    FreshNames(s, false);
    LiveFrame(s, Flush(s, n).disk);
    var c, x := s.child.value, s.disk[TempIncr];
    assert s.buf == s.buf[..n] + s.buf[n..];
    assert c + (x + s.buf[..n]) + s.buf[n..] == c + x + s.buf;
    SameNames(s.(disk := Flush(s, n).disk), Flush(s, n));
  }

  lemma FlushAll(s: State)
    requires Inv(s)
    ensures s.mode == On ==> Flush(s, |s.buf|).buf == []
    ensures var t := Flush(s, |s.buf|);
            t.data == s.data && t.mode == s.mode && t.child == s.child && t.manifest == s.manifest && t.saved == s.saved
            && t.fd == s.fd
  {
    assert s.buf[|s.buf|..] == [];
  }

  // ----- starting a rewrite

  /** Opening the next INCR file in mode On. */
  lemma OpenOnNames(s: State)
    requires Names(s) && s.mode == On
    ensures Names(OpenNewIncr(s, Started)) && Names(OpenNewIncr(s, PersistFailed))
  {
    hide Past;
    var t := OpenNewIncr(s, Started);
    FreshNames(s, false);
    LiveFrame(s, t.disk);
    OpenedPast(s);
    assert OpenNewIncr(s, PersistFailed) == s.(disk := t.disk);
    AppendIncr(s.manifest.files.incr, s.manifest.incrSeq, t.disk);
    DirtyPast(NewIncr(s.manifest));
  }

  lemma AppendIncr(names: seq<Name>, bound: nat, disk: map<Name, seq<Unit>>)
    requires Ascending(names, bound) && OnDisk(names, disk) && Incr(bound + 1) in disk
    ensures Ascending(names + [Incr(bound + 1)], bound + 1) && OnDisk(names + [Incr(bound + 1)], disk)
  {}

  lemma DirtyPast(m: Manifest)
    ensures forall h :: Past(h, m) ==> Past(h, m.(dirty := false))
  {}

  lemma OpenOnLogged(s: State)
    requires Inv(s) && s.mode == On && s.child.None? && s.buf == []
    ensures var t := OpenNewIncr(s, Started); Logged(t) && Logged(t.(child := Some(t.data)))
  {
    hide Past, Replay, Concat, BaseContent;
    var t := OpenNewIncr(s, Started);
    FreshNames(s, false);
    LiveFrame(s, t.disk);
    var incr := t.manifest.files.incr;
    assert Init(incr) == s.saved.incr && Content(t.disk, Last(incr)) == [];
    var b, c := BaseContent(t.disk, s.saved), Concat(t.disk, s.saved.incr);
    BaseOnly(t.disk, t.saved, s.saved);
    ReplayLast(t.disk, t.saved);
    ReplayParts(t.disk, s.saved);
    assert Replay(t.disk, t.saved) == b + c + [] == b + c == Replay(s.disk, s.saved);
    assert Replay(s.disk, s.saved) + [] == Replay(s.disk, s.saved);
  }

  lemma BaseOnly(d: map<Name, seq<Unit>>, f: Files, g: Files)
    requires f.base == g.base
    ensures BaseContent(d, f) == BaseContent(d, g)
  {}

  lemma ReplayParts(d: map<Name, seq<Unit>>, f: Files)
    ensures Replay(d, f) == BaseContent(d, f) + Concat(d, f.incr)
  {}

  lemma OpenedPast(s: State)
    requires Names(s)
    ensures AllPast(s.manifest.files.hist, NewIncr(s.manifest)) && AllPast(s.saved.hist, NewIncr(s.manifest))
  {
    var m, m' := s.manifest, NewIncr(s.manifest);
    forall h | Past(h, m) ensures Past(h, m') {}
  }

  /** A rewrite may start in any mode; in mode On the forced flush has to drain the buffer. */
  lemma StartInv(s: State, n: nat, outcome: StartOutcome)
    requires Inv(s) && (s.mode == On && outcome.Started? ==> n == |s.buf|)
    ensures Inv(StartRewrite(s, n, outcome))
  {
    hide Names, Logged;
    if s.child.None? {
      FlushInv(s, n);
      FlushKeeps(s, n);
      if n == |s.buf| { FlushAll(s); }
      var f := Flush(s, n);
      match s.mode
      case Off => StartOff(f, outcome);
      case WaitRewrite => StartWait(f, outcome);
      case On => StartOn(f, outcome);
    }
  }

  lemma FlushKeeps(s: State, n: nat)
    ensures var t := Flush(s, n); t.mode == s.mode && t.child == s.child && t.data == s.data
  {}

  lemma StartOff(s: State, outcome: StartOutcome)
    requires Inv(s) && s.mode == Off
    ensures Inv(OpenNewIncr(s, outcome)) && Inv(OpenNewIncr(s, outcome).(child := Some(s.data)))
  {
    hide Past;
  }

  lemma StartWait(s: State, outcome: StartOutcome)
    requires Inv(s) && s.mode == WaitRewrite && s.child.None?
    ensures var t := OpenNewIncr(s, outcome);
            t.data == s.data && Inv(t) && (outcome.Started? ==> Inv(t.(child := Some(s.data))))
  {
    hide Past, Replay, Concat, BaseContent;
    FreshNames(s, false);
    LiveFrame(s, s.disk[TempIncr := []]);
    assert s.data + [] + [] == s.data;
  }

  lemma StartOn(s: State, outcome: StartOutcome)
    requires Inv(s) && s.mode == On && s.child.None? && (outcome.Started? ==> s.buf == [])
    ensures var t := OpenNewIncr(s, outcome);
            t.data == s.data && Inv(t) && (outcome.Started? ==> Inv(t.(child := Some(s.data))))
  {
    match outcome
    case OpenFailed =>
    case PersistFailed => PersistFailedOn(s);
    case ForkFailed => ForkFailedOn(s);
    case Started =>
      OpenOnNames(s);
      OpenOnLogged(s);
      SameNames(OpenNewIncr(s, Started), OpenNewIncr(s, Started).(child := Some(s.data)));
  }

  lemma PersistFailedOn(s: State)
    requires Inv(s) && s.mode == On
    ensures Inv(OpenNewIncr(s, PersistFailed))
  {
    hide Past, Replay, Concat, BaseContent;
    FreshNames(s, false);
    LiveFrame(s, OpenNewIncr(s, PersistFailed).disk);
  }

  /** The new INCR file stays in use when only the fork failed, whatever was left in the buffer. */
  lemma ForkFailedOn(s: State)
    requires Inv(s) && s.mode == On && s.child.None?
    ensures Inv(OpenNewIncr(s, ForkFailed))
  {
    hide Past, Replay, Concat, BaseContent;
    var t := OpenNewIncr(s, ForkFailed);
    assert t == OpenNewIncr(s, Started);
    OpenOnNames(s);
    var drained := s.(buf := [], data := Replay(s.disk, s.saved));
    assert Replay(s.disk, s.saved) + [] == Replay(s.disk, s.saved);
    SameNames(s, drained);
    OpenOnLogged(drained);
    var u := OpenNewIncr(drained, Started);
    assert Replay(t.disk, t.saved) == Replay(u.disk, u.saved) == Replay(u.disk, u.saved) + [];
  }

  // ----- finishing a rewrite

  lemma CleanUpInv(s: State, disk: map<Name, seq<Unit>>, fd: Fd)
    requires Inv(s) && (s.mode != WaitRewrite ==> fd == s.fd)
    requires s.mode == Off && TempIncr in s.disk ==> TempIncr in disk && disk[TempIncr] == s.disk[TempIncr]
    requires forall n :: !NotLive(n, s.manifest) ==> (n in s.disk ==> n in disk && disk[n] == s.disk[n])
    ensures Inv(CleanUp(s.(disk := disk, fd := fd)))
  {
    hide Past, Replay, Concat, BaseContent;
    LiveFrame(s, disk);
    var t := s.(disk := disk);
    FreshNames(t, false);
    LiveFrame(t, disk - {TempIncr});
  }

  /** The history of the manifest a finished rewrite writes lies before its live files. */
  lemma NewBasePast(m: Manifest, rdb: bool)
    requires AllPast(m.files.hist, m)
    requires m.files.base.Some? ==> m.files.base.value.Base? && m.files.base.value.n == m.baseSeq
    ensures AllPast(NewBase(m, rdb).files.hist, NewBase(m, rdb))
  {
    var m' := NewBase(m, rdb);
    forall h | Past(h, m) ensures Past(h, m') {}
    if m.files.base.Some? { assert Past(m.files.base.value, m'); }
  }

  lemma NewIncrPast(m: Manifest)
    requires AllPast(m.files.hist, m)
    ensures AllPast(NewIncr(m).files.hist, NewIncr(m))
  {
    forall h | Past(h, m) ensures Past(h, NewIncr(m)) {}
  }

  lemma MarkedPast(m: Manifest, keepLast: bool)
    requires AllPast(m.files.hist, m) && Ascending(m.files.incr, m.incrSeq)
    ensures AllPast(MarkRewritten(m, keepLast).files.hist, MarkRewritten(m, keepLast))
    ensures Ascending(MarkRewritten(m, keepLast).files.incr, m.incrSeq)
  {
    var m', incr := MarkRewritten(m, keepLast), m.files.incr;
    forall h | Past(h, m) ensures Past(h, m') {}
    if incr != [] {
      if keepLast {
        assert forall i :: 0 <= i < |incr| - 1 ==> Past(incr[i], m');
      } else {
        assert forall i :: 0 <= i < |incr| ==> Past(incr[i], m');
      }
    }
  }

  lemma RewrittenPast(s: State, rdb: bool)
    requires Names(s)
    ensures var m := Rewritten(s, rdb); AllPast(m.files.hist, m) && Ascending(m.files.incr, m.incrSeq)
  {
    hide Past;
    var m0 := NewBase(s.manifest, rdb);
    NewBasePast(s.manifest, rdb);
    if s.mode == WaitRewrite {
      NewIncrPast(m0);
      AppendAscending(m0.files.incr, m0.incrSeq);
      MarkedPast(NewIncr(m0), s.fd != Closed);
    } else {
      MarkedPast(m0, s.fd != Closed);
    }
  }

  lemma AppendAscending(names: seq<Name>, bound: nat)
    requires Ascending(names, bound)
    ensures Ascending(names + [Incr(bound + 1)], bound + 1)
  {}

  lemma DoneNames(s: State, rdb: bool)
    requires Names(s) && s.child.Some? && (s.mode == WaitRewrite ==> TempIncr in s.disk)
    ensures Names(FinishRewrite(s, rdb, Done))
  {
    hide Past, AllPast, Ascending;
    var t := FinishRewrite(s, rdb, Done);
    RewrittenPast(s, rdb);
    RewrittenOnDisk(s, rdb);
    var m := Rewritten(s, rdb);
    CleanPast(m);
  }

  lemma CleanPast(m: Manifest)
    requires AllPast(m.files.hist, m)
    ensures AllPast(m.files.hist, m.(dirty := false))
  {
    DirtyPast(m);
  }

  lemma MarkedSubset(m: Manifest, keepLast: bool)
    ensures forall i :: 0 <= i < |MarkRewritten(m, keepLast).files.incr| ==>
      MarkRewritten(m, keepLast).files.incr[i] in m.files.incr
    ensures MarkRewritten(m, keepLast).files.base == m.files.base && MarkRewritten(m, keepLast).baseSeq == m.baseSeq
  {}

  lemma RewrittenOnDisk(s: State, rdb: bool)
    requires Names(s) && s.child.Some? && (s.mode == WaitRewrite ==> TempIncr in s.disk)
    ensures var m := Rewritten(s, rdb); var disk := Renamed(s, rdb).disk;
            m.files.base == Some(Base(s.manifest.baseSeq + 1, rdb)) && m.baseSeq == s.manifest.baseSeq + 1
            && m.files.base.value in disk && OnDisk(m.files.incr, disk)
  {
    hide Past, MarkRewritten;
    var disk := Renamed(s, rdb).disk;
    var m := NewBase(s.manifest, rdb);
    var m1 := if s.mode == WaitRewrite then NewIncr(m) else m;
    MarkedSubset(m1, s.fd != Closed);
    forall n | n in m1.files.incr ensures n in disk {
      if n in s.manifest.files.incr {
        var i :| 0 <= i < |s.manifest.files.incr| && s.manifest.files.incr[i] == n;
      }
    }
  }

  lemma DoneOnLogged(s: State, rdb: bool)
    requires Inv(s) && s.child.Some? && s.mode == On
    ensures Logged(FinishRewrite(s, rdb, Done))
  {
    hide Past, Concat;
    var t := FinishRewrite(s, rdb, Done);
    var f, last := s.manifest.files, Last(s.manifest.files.incr);
    assert t.saved.incr == [last] && Init([last]) == [];
    assert last in s.disk && t.disk[last] == s.disk[last];
    ConcatOne(t.disk, last);
    ReplayLast(s.disk, s.saved);
    BaseOnly(s.disk, f, s.saved);
    assert Replay(t.disk, t.saved) == s.child.value + s.disk[last];
  }

  lemma ConcatOne(d: map<Name, seq<Unit>>, n: Name)
    ensures Concat(d, [n]) == Content(d, n) && Concat(d, []) == []
  {
    assert [n][..0] == [];
    assert [] + Content(d, n) == Content(d, n);
  }

  lemma DoneWaitLogged(s: State, rdb: bool)
    requires Inv(s) && s.child.Some? && s.mode == WaitRewrite && TempIncr in s.disk
    ensures Logged(FinishRewrite(s, rdb, Done))
  {
    hide Past, Concat;
    var t := FinishRewrite(s, rdb, Done);
    var last := Incr(s.manifest.incrSeq + 1);
    assert t.saved.incr == [last] && Init([last]) == [];
    assert t.disk[last] == s.disk[TempIncr];
    ConcatOne(t.disk, last);
    assert Replay(t.disk, t.saved) == s.child.value + s.disk[TempIncr];
  }

  lemma DoneOffLogged(s: State, rdb: bool)
    requires Inv(s) && s.child.Some? && s.mode == Off
    ensures Logged(FinishRewrite(s, rdb, Done))
  {
    hide Names, MarkRewritten, NewBase;
  }

  lemma ManifestFailedInv(s: State, rdb: bool)
    requires Inv(s) && s.child.Some? && Reached(s, ManifestFailed) == ManifestFailed
    ensures Inv(FinishRewrite(s, rdb, ManifestFailed))
  {
    hide Past, Replay, Concat, BaseContent, Inv, CleanUp;
    var base, incr := Base(s.manifest.baseSeq + 1, rdb), Incr(s.manifest.incrSeq + 1);
    assert Names(s) by { assert Inv(s); InvNames(s); }
    FreshNames(s, rdb);
    var r := Renamed(s, rdb);
    if s.mode == WaitRewrite { CleanUpInv(s, r.disk - {base, incr}, Unnamed(r.fd, incr)); }
    else { CleanUpInv(s, r.disk - {base}, s.fd); }
  }

  lemma InvNames(s: State)
    requires Inv(s)
    ensures Names(s)
  {}

  /** A rewrite may end in any way, in any mode. */
  lemma FinishInv(s: State, rdb: bool, outcome: DoneOutcome)
    requires Inv(s) && (outcome == IncrRenameFailed ==> s.mode == WaitRewrite)
    ensures Inv(FinishRewrite(s, rdb, outcome))
  {
    hide Past, Replay, Concat, BaseContent, Logged, Renamed, Rewritten, CleanUp;
    if s.child.Some? {
      FreshNames(s, rdb);
      match Reached(s, outcome)
      case ChildFailed => CleanUpInv(s, s.disk, s.fd);
      case BaseRenameFailed => CleanUpInv(s, s.disk, s.fd);
      case IncrRenameFailed => CleanUpInv(s, s.disk - {Base(s.manifest.baseSeq + 1, rdb)}, s.fd);
      case ManifestFailed => ManifestFailedInv(s, rdb);
      case Done =>
        DoneNames(s, rdb);
        match s.mode
        case On => DoneOnLogged(s, rdb);
        case WaitRewrite => DoneWaitLogged(s, rdb);
        case Off => DoneOffLogged(s, rdb);
    }
  }

  // ----- history deletion and switching

  /** Deleting history never touches a live file, and whether the manifest write succeeds does not matter. */
  lemma DelHistoryInv(s: State, persisted: bool)
    requires Inv(s)
    ensures Inv(DelHistory(s, persisted))
    ensures forall n :: n in s.disk && !NotLive(n, s.manifest) ==> n in DelHistory(s, persisted).disk
  {
    hide Past, Replay, Concat, BaseContent;
    var t := DelHistory(s, persisted);
    forall h | h in s.manifest.files.hist ensures NotLive(h, s.manifest) && h != TempIncr {
      var i :| 0 <= i < |s.manifest.files.hist| && s.manifest.files.hist[i] == h;
      PastNotLive(s, h);
      PastNotTemp(h, s.manifest);
    }
    LiveFrame(s, t.disk);
    SamePast(s.manifest, t.manifest);
    ReplaySame(t.disk, s.saved, t.saved);
    ReplaySame(t.disk, s.manifest.files, t.manifest.files);
  }

  /** Afterwards no file of the history is on the disk and the history is empty, on the disk too if that worked. */
  lemma HistoryIsGone(s: State, persisted: bool)
    ensures var t := DelHistory(s, persisted);
      && t.manifest.files.hist == [] && (forall h :: h in s.manifest.files.hist ==> h !in t.disk)
      && (forall n :: n in s.disk && n !in s.manifest.files.hist ==> n in t.disk && t.disk[n] == s.disk[n])
      && t.manifest.files.base == s.manifest.files.base && t.manifest.files.incr == s.manifest.files.incr
      && (s.manifest.files.hist != [] && persisted ==> t.saved == t.manifest.files)
  {}

  // ----- what a rewrite is for

  ghost function Writes(s: State, us: seq<Unit>): State
    decreases |us|
  {
    if us == [] then s else Write(Writes(s, us[..|us| - 1]), us[|us| - 1])
  }

  lemma {:induction false} WritesDo(s: State, us: seq<Unit>)
    ensures Writes(s, us) == s.(data := s.data + us,
      buf := if s.mode == On || (s.mode == WaitRewrite && s.child.Some?) then s.buf + us else s.buf)
    decreases |us|
  {
    if us == [] {
      assert s.data + us == s.data && s.buf + us == s.buf;
    } else {
      var front, u := us[..|us| - 1], us[|us| - 1];
      WritesDo(s, front);
      assert s.data + front + [u] == s.data + us && s.buf + front + [u] == s.buf + us;
    }
  }

  /** What is written and flushed while a file is open is at its end. */
  lemma WrittenThrough(a: State, us: seq<Unit>, name: Name)
    requires a.mode == On || (a.mode == WaitRewrite && a.child.Some?)
    requires a.fd == Open(name) && a.buf == [] && name in a.disk
    ensures var b := Flush(Writes(a, us), |us|);
      && b.data == a.data + us && b.buf == [] && name in b.disk && b.disk[name] == a.disk[name] + us
      && b.mode == a.mode && b.fd == a.fd && b.child == a.child && b.manifest == a.manifest
      && (a.disk[name] == [] ==> b.disk[name] == us)
  {
    hide Writes;
    WritesDo(a, us);
    assert a.buf + us == us && us[..|us|] == us && us[|us|..] == [];
    if us == [] { assert a.disk[name] + us == a.disk[name]; }
  }

  /** A rewrite of a running log starts: a new file takes what is written. */
  lemma RewriteStarts(s: State)
    requires Inv(s) && s.mode == On && s.child.None?
    ensures var a, name := StartRewrite(s, |s.buf|, Started), Incr(s.manifest.incrSeq + 1);
      && a.mode == On && a.child == Some(s.data) && a.data == s.data && a.buf == [] && a.fd == Open(name)
      && a.manifest == NewIncr(s.manifest).(dirty := false) && name in a.disk && a.disk[name] == []
  {
    hide Names, Replay, Concat;
    assert s.buf[|s.buf|..] == [];
  }

  /** The fork of a log that is switched on: the temporary file takes what is written. */
  lemma EnableStarts(s: State)
    requires Inv(s) && s.mode == Off
    ensures var a := Enable(s, false, Started);
      && a.mode == WaitRewrite && a.child == Some(s.data) && a.data == s.data && a.buf == [] && a.fd == Open(TempIncr)
      && a.manifest == s.manifest && TempIncr in a.disk && a.disk[TempIncr] == []
  {
    hide Names, Replay, Concat;
  }

  lemma FinishOn(b: State, rdb: bool)
    requires b.mode == On && b.child.Some? && b.fd != Closed
    ensures var t, m := FinishRewrite(b, rdb, Done), MarkRewritten(NewBase(b.manifest, rdb), true);
      && t.manifest == m.(dirty := false) && t.child == None && t.mode == On && t.fd == b.fd && t.buf == b.buf
      && t.data == b.data && t.disk == b.disk[Base(b.manifest.baseSeq + 1, rdb) := b.child.value]
  {
    hide NewBase, MarkRewritten;
  }

  lemma FinishWaiting(b: State, rdb: bool)
    requires b.mode == WaitRewrite && b.child.Some? && b.fd == Open(TempIncr) && TempIncr in b.disk
    ensures var m := MarkRewritten(NewIncr(NewBase(b.manifest, rdb)), true);
      var base, incr := Base(b.manifest.baseSeq + 1, rdb), Incr(b.manifest.incrSeq + 1);
      FinishRewrite(b, rdb, Done) == b.(manifest := m.(dirty := false), saved := m.files, child := None, mode := On,
        fd := Open(incr), disk := b.disk[base := b.child.value][incr := b.disk[TempIncr]] - {TempIncr})
  {
    hide NewBase, NewIncr, MarkRewritten;
  }

  /** Nothing that the new manifest makes history has the name of its BASE file or of its INCR file. */
  lemma NewNamesStay(s: State, rdb: bool)
    requires Names(s)
    ensures var m := MarkRewritten(NewBase(NewIncr(s.manifest), rdb), true);
      && m.files.incr == [Incr(s.manifest.incrSeq + 1)] && m.files.base == Some(Base(s.manifest.baseSeq + 1, rdb))
      && Incr(s.manifest.incrSeq + 1) !in m.files.hist && Base(s.manifest.baseSeq + 1, rdb) !in m.files.hist
      && (forall n :: n in s.manifest.files.incr ==> n in m.files.hist)
      && (s.manifest.files.base.Some? ==> s.manifest.files.base.value in m.files.hist)
  {
    hide OnDisk;
    var was := s.manifest.files;
    assert Init(was.incr + [Incr(s.manifest.incrSeq + 1)]) == was.incr;
    if was.base.Some? { assert ([was.base.value] + was.hist)[0] == was.base.value; }
    forall h | h in was.hist ensures h != Incr(s.manifest.incrSeq + 1) && h != Base(s.manifest.baseSeq + 1, rdb) {
      var i :| 0 <= i < |was.hist| && was.hist[i] == h;
      assert Past(was.hist[i], s.manifest);
    }
  }

  /**
   A rewrite that succeeds compacts the log: the new BASE file holds the dataset at the fork, the one INCR file what
   was written since, and the files of the old log are gone.
   */
  lemma RewriteCompacts(s: State, us: seq<Unit>, rdb: bool)
    requires Inv(s) && s.mode == On && s.child.None?
    ensures var b := Flush(Writes(StartRewrite(s, |s.buf|, Started), us), |us|);
      var t := DelHistory(FinishRewrite(b, rdb, Done), true);
      var base, incr := Base(s.manifest.baseSeq + 1, rdb), Incr(s.manifest.incrSeq + 1);
      && t.mode == On && t.child == None && t.buf == [] && t.data == s.data + us && t.fd == Open(incr)
      && t.saved == t.manifest.files == Files(Some(base), [incr], [])
      && base in t.disk && t.disk[base] == s.data && incr in t.disk && t.disk[incr] == us
      && (forall n :: n in s.manifest.files.incr ==> n !in t.disk)
      && (s.manifest.files.base.Some? ==> s.manifest.files.base.value !in t.disk)
  {
    hide Inv, Names, Flush, Writes, StartRewrite, FinishRewrite, DelHistory;
    RewriteStarts(s);
    var a := StartRewrite(s, |s.buf|, Started);
    WrittenThrough(a, us, Incr(s.manifest.incrSeq + 1));
    assert [] + us == us;
    SameNew(s.manifest, rdb);
    InvFiles(s);
    Compacted(s, Flush(Writes(a, us), |us|), rdb);
  }

  lemma InvFiles(s: State)
    requires Inv(s)
    ensures Names(s) && (s.mode == On ==> s.manifest.files.incr != [])
  {
    hide Names;
  }

  lemma Compacted(s: State, b: State, rdb: bool)
    requires Names(s) && s.manifest.files.incr != [] && b.mode == On && b.child.Some? && b.fd != Closed
    requires b.manifest == NewIncr(s.manifest).(dirty := false) && Incr(s.manifest.incrSeq + 1) in b.disk
    ensures var t := DelHistory(FinishRewrite(b, rdb, Done), true);
      var base, incr := Base(s.manifest.baseSeq + 1, rdb), Incr(s.manifest.incrSeq + 1);
      && t.mode == On && t.child == None && t.buf == b.buf && t.data == b.data && t.fd == b.fd
      && t.saved == t.manifest.files == Files(Some(base), [incr], [])
      && base in t.disk && t.disk[base] == b.child.value && incr in t.disk && t.disk[incr] == b.disk[incr]
      && (forall n :: n in s.manifest.files.incr ==> n !in t.disk)
      && (s.manifest.files.base.Some? ==> s.manifest.files.base.value !in t.disk)
  {
    hide Names, FinishRewrite, MarkRewritten, NewBase;
    NewNamesStay(s, rdb);
    SameNew(s.manifest, rdb);
    FinishOn(b, rdb);
    assert s.manifest.files.incr[0] in FinishRewrite(b, rdb, Done).manifest.files.hist;
  }

  lemma SameNew(m: Manifest, rdb: bool)
    ensures MarkRewritten(NewBase(NewIncr(m).(dirty := false), rdb), true)
         == MarkRewritten(NewBase(NewIncr(m), rdb), true)
  {}

  lemma WaitingDone(b: State, rdb: bool)
    requires b.mode == WaitRewrite && b.child.Some? && b.fd == Open(TempIncr) && TempIncr in b.disk
    ensures var t := FinishRewrite(b, rdb, Done);
      var base, incr := Base(b.manifest.baseSeq + 1, rdb), Incr(b.manifest.incrSeq + 1);
      && t.mode == On && t.child == None && t.buf == b.buf && t.data == b.data && t.fd == Open(incr)
      && t.saved == t.manifest.files && t.saved.base == Some(base) && t.saved.incr == [incr]
      && base in t.disk && t.disk[base] == b.child.value && incr in t.disk && t.disk[incr] == b.disk[TempIncr]
  {
    hide FinishRewrite;
    FinishWaiting(b, rdb);
  }

  lemma WaitingCompacts(a: State, us: seq<Unit>, rdb: bool)
    requires a.mode == WaitRewrite && a.child.Some? && a.fd == Open(TempIncr) && a.buf == []
    requires TempIncr in a.disk && a.disk[TempIncr] == []
    ensures var t := FinishRewrite(Flush(Writes(a, us), |us|), rdb, Done);
      var base, incr := Base(a.manifest.baseSeq + 1, rdb), Incr(a.manifest.incrSeq + 1);
      && t.mode == On && t.child == None && t.buf == [] && t.data == a.data + us && t.fd == Open(incr)
      && t.saved == t.manifest.files && t.saved.base == Some(base) && t.saved.incr == [incr]
      && base in t.disk && t.disk[base] == a.child.value && incr in t.disk && t.disk[incr] == us
  {
    hide Flush, Writes, FinishRewrite;
    WrittenThrough(a, us, TempIncr);
    WaitingDone(Flush(Writes(a, us), |us|), rdb);
  }

  /** So does one that switches the log on, which is on from then. */
  lemma EnableCompacts(s: State, a: State, us: seq<Unit>, rdb: bool)
    requires Inv(s) && s.mode == Off && a == Enable(s, false, Started)
    ensures var b := Flush(Writes(a, us), |us|);
      var t := FinishRewrite(b, rdb, Done);
      var base, incr := Base(s.manifest.baseSeq + 1, rdb), Incr(s.manifest.incrSeq + 1);
      && t.mode == On && t.child == None && t.buf == [] && t.data == s.data + us && t.fd == Open(incr)
      && t.saved == t.manifest.files && t.saved.base == Some(base) && t.saved.incr == [incr]
      && base in t.disk && t.disk[base] == s.data && incr in t.disk && t.disk[incr] == us
  {
    hide Inv, Flush, Writes, Enable, FinishRewrite;
    EnableStarts(s);
    WaitingCompacts(a, us, rdb);
  }

  /** A rewrite that fails leaves a running log as it was. */
  lemma FailedRewrite(s: State, rdb: bool, outcome: DoneOutcome)
    requires Inv(s) && s.mode == On && s.child.Some? && outcome != Done
    ensures var t := FinishRewrite(s, rdb, outcome);
      && t == s.(child := None, disk := t.disk)
      && forall n :: n != Base(s.manifest.baseSeq + 1, rdb) ==>
        (n in t.disk <==> n in s.disk) && (n in t.disk ==> t.disk[n] == s.disk[n])
  {
    hide Names, Replay, Concat;
  }

  lemma PastNotTemp(h: Name, m: Manifest)
    requires Past(h, m)
    ensures h != TempIncr
  {}

  lemma SamePast(m: Manifest, m': Manifest)
    requires m'.files.base == m.files.base && m'.files.incr == m.files.incr
    requires m'.baseSeq == m.baseSeq && m'.incrSeq == m.incrSeq
    ensures forall h :: Past(h, m') <==> Past(h, m)
  {}

  lemma ReplaySame(d: map<Name, seq<Unit>>, f: Files, g: Files)
    requires f.base == g.base && f.incr == g.incr
    ensures Replay(d, f) == Replay(d, g) && BaseContent(d, f) == BaseContent(d, g)
  {}

  lemma StopInv(s: State, persisted: bool)
    requires Inv(s)
    ensures Inv(Stop(s, persisted))
  {
    hide Past, Replay, Concat, BaseContent;
  }

  /**
   When a rewrite may be left running although the log is being switched on: its later writes would go to the
   temporary INCR file. That is harmless if there is none, since the rewrite then fails and is started again, or
   if the file is open and nothing has been written since the fork.
   */
  ghost predicate Harmless(s: State) {
    s.child.None? || (s.fd == Closed && TempIncr !in s.disk) || (s.fd == Open(TempIncr) && s.child.value == s.data)
  }

  lemma EnableNowInv(s: State, outcome: StartOutcome)
    requires Inv(s)
    ensures Inv(Enable(s, false, outcome))
  {
    hide Past, Replay, Concat, BaseContent;
    if s.mode == Off {
      var w := s.(mode := WaitRewrite, child := None);
      SameNames(s, w);
      assert Flush(w, 0) == w;
      StartWait(w, outcome);
      var t := StartRewrite(w, 0, outcome);
      if outcome != Started { SameNames(t, t.(mode := Off)); }
    }
  }

  lemma EnableLater(s: State, outcome: StartOutcome)
    requires Inv(s) && s.mode == Off
    ensures Inv(Enable(s, true, outcome)) <==> Harmless(s)
  {
    hide Past, Replay, Concat, BaseContent;
    SameNames(s, Enable(s, true, outcome));
    if s.child.Some? && s.fd == Open(TempIncr) { assert s.child.value + [] + [] == s.child.value; }
  }

  lemma EnableInv(s: State, later: bool, outcome: StartOutcome)
    requires Inv(s) && (s.mode == Off && later ==> Harmless(s))
    ensures Inv(Enable(s, later, outcome))
  {
    hide Names, Logged, Harmless;
    if later && s.mode == Off { EnableLater(s, outcome); } else if !later { EnableNowInv(s, outcome); }
  }

  /** What goes wrong otherwise, as soon as the rewrite succeeds. */
  lemma HarmDone(s: State, outcome: StartOutcome, rdb: bool)
    requires Inv(s) && s.mode == Off && !Harmless(s)
    ensures var t := FinishRewrite(Enable(s, true, outcome), rdb, Done); t.mode == On && !Inv(t)
    ensures var t := FinishRewrite(Enable(s, true, outcome), rdb, Done);
            if s.fd == Closed then t.saved.incr == [] && t.fd == Closed else Replay(t.disk, t.saved) + t.buf != t.data
  {
    hide Past, Concat;
    var e := Enable(s, true, outcome);
    var t := FinishRewrite(e, rdb, Done);
    var last := Incr(s.manifest.incrSeq + 1);
    if s.fd == Closed {
      assert t.saved.incr == [];
    } else {
      assert t.saved.incr == [last];
      assert t.disk[last] == [];
      ConcatOne(t.disk, last);
      assert Replay(t.disk, t.saved) == s.child.value + [];
    }
  }

  // ----- crashes and restarts

  ghost predicate NoIncrHistory(f: Files) { forall i :: 0 <= i < |f.hist| ==> !f.hist[i].Incr? }

  /**
   When a restart finds no INCR file in the manifest it numbers the next one from 1
   again. That is safe only if no history entry is an INCR file and no bytes are left
   under the first INCR name.
   */
  ghost predicate ReopenSafe(s: State) {
    s.saved.incr != [] || (NoIncrHistory(s.saved) && Content(s.disk, Incr(1)) == [])
  }

  /** Wherever a finished rewrite crashed, it left the persisted manifest and its files alone. */
  lemma CrashKeepsNames(s: State, at: CrashPoint, rdb: bool)
    requires Inv(s)
    ensures Names(Crashed(s, at, rdb)) && Crashed(s, at, rdb).saved == s.saved
    ensures Replay(Crashed(s, at, rdb).disk, s.saved) == Replay(s.disk, s.saved)
  {
    hide Past, Replay, Concat, BaseContent;
    if s.child.Some? {
      FreshNames(s, rdb);
      LiveFrame(s, Crashed(s, at, rdb).disk);
      SameNames(s.(disk := Crashed(s, at, rdb).disk), Crashed(s, at, rdb));
    }
  }

  /** A restart that finds INCR files in the manifest always restores the invariant. */
  lemma ReopenExisting(s: State, rdb: bool)
    requires Names(s) && s.saved.incr != []
    ensures Inv(Reopen(s, rdb))
  {
    hide Concat, BaseContent;
    var t := Reopen(s, rdb);
    assert t.saved == s.saved && t.disk == s.disk;
    forall h | Past(h, s.manifest) ensures Past(h, t.manifest) {}
    assert Replay(s.disk, s.saved) + [] == t.data;
  }

  /** The other restarts: a new INCR file is numbered 1. */
  lemma ReopenFreshShape(s: State, rdb: bool)
    requires Names(s) && s.saved.incr == [] && ReopenSafe(s)
    ensures var t := Reopen(s, rdb);
            t.saved.incr == [Incr(1)] && t.manifest.incrSeq == 1 && t.saved == t.manifest.files
            && t.saved.hist == s.saved.hist && t.saved.base.Some?
            && t.saved.base.value.Base? && t.saved.base.value.n == t.manifest.baseSeq && t.saved.base.value in t.disk
            && Incr(1) in t.disk && t.disk[Incr(1)] == [] && t.data == BaseContent(t.disk, t.saved)
            && (s.saved.base.Some? ==> t.manifest.baseSeq == s.manifest.baseSeq)
  {
    hide Past, AllPast;
    assert Concat(s.disk, []) == [];
    assert BaseContent(s.disk, s.saved) + [] == BaseContent(s.disk, s.saved);
  }

  lemma ReopenFreshNames(s: State, rdb: bool)
    requires Names(s) && s.saved.incr == [] && ReopenSafe(s)
    ensures Names(Reopen(s, rdb))
  {
    hide Reopen;
    ReopenFreshShape(s, rdb);
    var t := Reopen(s, rdb);
    forall i | 0 <= i < |t.saved.hist| ensures Past(t.saved.hist[i], t.manifest) {
      assert Past(s.saved.hist[i], s.manifest) && !s.saved.hist[i].Incr?;
    }
  }

  lemma ReopenFresh(s: State, rdb: bool)
    requires Names(s) && s.saved.incr == [] && ReopenSafe(s)
    ensures Inv(Reopen(s, rdb))
  {
    hide Reopen, Concat, Names, Past;
    ReopenFreshNames(s, rdb);
    ReopenFreshShape(s, rdb);
    ReopenMode(s, rdb);
    var t := Reopen(s, rdb);
    assert Init([Incr(1)]) == [];
    ConcatOne(t.disk, Incr(1));
    assert BaseContent(t.disk, t.saved) + [] == t.data && t.data + [] == t.data;
  }

  lemma ReopenMode(s: State, rdb: bool)
    ensures var t := Reopen(s, rdb);
            t.mode == On && t.buf == [] && t.child == None && t.manifest.files.incr != []
              && t.fd == Open(Last(t.manifest.files.incr))
  {
    hide Replay;
  }

  lemma ReopenUnsafe(s: State, rdb: bool)
    requires Names(s) && !ReopenSafe(s)
    ensures !Inv(Reopen(s, rdb))
  {
    hide Concat;
    var t := Reopen(s, rdb);
    var one := Incr(1);
    assert t.saved.incr == [one];
    if NoIncrHistory(s.saved) {
      ConcatOne(t.disk, one);
      ConcatOne(s.disk, one);
      assert t.data == BaseContent(s.disk, s.saved) + [];
      assert |Replay(t.disk, t.saved)| > |t.data|;
    } else {
      var i :| 0 <= i < |s.saved.hist| && s.saved.hist[i].Incr?;
      assert Past(s.saved.hist[i], s.manifest);
      assert t.saved.hist[i] == s.saved.hist[i];
    }
  }

  /** A restart with the AOF on restores the invariant exactly when it is safe. */
  lemma ReopenIff(s: State, rdb: bool)
    requires Names(s)
    ensures Inv(Reopen(s, rdb)) <==> ReopenSafe(s)
  {
    hide Names, Inv;
    if s.saved.incr != [] { ReopenExisting(s, rdb); }
    else if ReopenSafe(s) { ReopenFresh(s, rdb); }
    else { ReopenUnsafe(s, rdb); }
  }

  lemma ReopenOffInv(s: State, data: seq<Unit>)
    requires Names(s) && (s.saved.incr != [] || NoIncrHistory(s.saved))
    ensures Inv(ReopenOff(s, data))
  {
    var t := ReopenOff(s, data);
    forall i | 0 <= i < |s.saved.hist| ensures Past(s.saved.hist[i], t.manifest) {
      assert Past(s.saved.hist[i], s.manifest);
    }
  }

  // ----- runs

  datatype Event =
    | DoWrite(u: Unit)
    | DoFlush(n: nat)
    | DoStart(n: nat, started: StartOutcome)
    | DoFinish(rdb: bool, finished: DoneOutcome)
    | DoDelHistory(persisted: bool)
    | DoStop(persisted: bool)
    | DoEnable(later: bool, enabled: StartOutcome)
    | DoRestart(at: CrashPoint, rdb: bool)
    | DoRestartOff(at: CrashPoint, rdb: bool, data: seq<Unit>)

  function Step(s: State, e: Event): State {
    match e
    case DoWrite(u) => Write(s, u)
    case DoFlush(n) => Flush(s, n)
    case DoStart(n, outcome) => StartRewrite(s, n, outcome)
    case DoFinish(rdb, outcome) => FinishRewrite(s, rdb, outcome)
    case DoDelHistory(persisted) => DelHistory(s, persisted)
    case DoStop(persisted) => Stop(s, persisted)
    case DoEnable(later, outcome) => Enable(s, later, outcome)
    case DoRestart(at, rdb) => Reopen(Crashed(s, at, rdb), rdb)
    case DoRestartOff(at, rdb, data) => ReopenOff(Crashed(s, at, rdb), data)
  }

  /**
   The conditions on a run: a forced flush before a fork drains the buffer, a restart
   is safe, and no rewrite is left running harmfully when the log is switched on. Only
   an AOF that was off, or not yet on, can be unsafe to restart.
   */
  ghost predicate Allowed(s: State, e: Event) {
    match e
    case DoStart(n, outcome) => s.mode == On && outcome.Started? ==> n == |s.buf|
    case DoFinish(_, outcome) => outcome == IncrRenameFailed ==> s.mode == WaitRewrite
    case DoEnable(later, _) => s.mode == Off && later ==> Harmless(s)
    case DoRestart(at, rdb) => ReopenSafe(Crashed(s, at, rdb))
    case DoRestartOff(_, _, _) => s.saved.incr != [] || NoIncrHistory(s.saved)
    case _ => true
  }

  lemma StepInv(s: State, e: Event)
    requires Inv(s) && Allowed(s, e)
    ensures Inv(Step(s, e))
  {
    hide Names, Logged, Reopen, ReopenOff, FinishRewrite, StartRewrite, DelHistory, Flush, Write, Crashed;
    match e
    case DoWrite(u) => WriteInv(s, u);
    case DoFlush(n) => FlushInv(s, n);
    case DoStart(n, outcome) => StartInv(s, n, outcome);
    case DoFinish(rdb, outcome) => FinishInv(s, rdb, outcome);
    case DoDelHistory(persisted) => DelHistoryInv(s, persisted);
    case DoStop(persisted) => StopInv(s, persisted);
    case DoEnable(later, outcome) => EnableInv(s, later, outcome);
    case DoRestart(at, rdb) =>
      CrashKeepsNames(s, at, rdb);
      ReopenIff(Crashed(s, at, rdb), rdb);
    case DoRestartOff(at, rdb, data) =>
      CrashKeepsNames(s, at, rdb);
      ReopenOffInv(Crashed(s, at, rdb), data);
  }

  function Run(s: State, es: seq<Event>): State {
    if es == [] then s else Step(Run(s, es[..|es| - 1]), es[|es| - 1])
  }

  ghost predicate AllowedRun(s: State, es: seq<Event>) {
    forall i :: 0 <= i < |es| ==> Allowed(Run(s, es[..i]), es[i])
  }

  /** A server that has never had an AOF. */
  function Initial(): State {
    var none := Files(None, [], []);
    State(Off, Manifest(none, 0, 0, false), none, map[], Closed, [], [], None)
  }

  lemma {:induction false} RunInv(s: State, es: seq<Event>)
    requires Inv(s) && AllowedRun(s, es)
    ensures Inv(Run(s, es))
    decreases |es|
  {
    hide Step, Allowed, Names, Logged;
    if es != [] {
      var init := es[..|es| - 1];
      assert forall i :: 0 <= i <= |init| ==> init[..i] == es[..i];
      RunInv(s, init);
      StepInv(Run(s, init), es[|es| - 1]);
    }
  }

  /** Wherever a run leaves the log on, it is open and complete. */
  ghost predicate LogIsWhole(s: State, es: seq<Event>) { Run(s, es).mode == On ==> Inv(Run(s, es)) }

  /**
   Switching the log on inside EXEC: in every run that follows the log is open and complete whenever it is on,
   exactly when the rewrite left running is harmless.
   */
  lemma EnableInExecIff(s: State, outcome: StartOutcome)
    requires Inv(s) && s.mode == Off
    ensures (forall es | AllowedRun(Enable(s, true, outcome), es) :: LogIsWhole(Enable(s, true, outcome), es))
            <==> Harmless(s)
  {
    hide Names, Logged, Enable, FinishRewrite, Harmless, Step, Allowed;
    var t := Enable(s, true, outcome);
    EnableLater(s, outcome);
    if Harmless(s) {
      forall es | AllowedRun(t, es) ensures LogIsWhole(t, es) { RunInv(t, es); }
    } else {
      HarmDone(s, outcome, true);
      FinishAlone(t);
      assert !LogIsWhole(t, [DoFinish(true, Done)]);
    }
  }

  lemma FinishAlone(s: State)
    ensures AllowedRun(s, [DoFinish(true, Done)])
    ensures Run(s, [DoFinish(true, Done)]) == FinishRewrite(s, true, Done)
  {
    hide FinishRewrite;
    var es := [DoFinish(true, Done)];
    assert es[..0] == [] && Run(s, []) == s;
  }

  lemma InitialInv()
    ensures Inv(Initial())
  {}

  /** In every run, while the AOF is on: replay plus buffer is the dataset. */
  lemma EveryRunReplays(es: seq<Event>)
    requires AllowedRun(Initial(), es) && Run(Initial(), es).mode == On
    ensures var s := Run(Initial(), es);
            Replay(s.disk, s.saved) + s.buf == s.data && forall at, rdb :: ReopenSafe(Crashed(s, at, rdb))
  {
    hide Run, Names, Replay;
    InitialInv();
    RunInv(Initial(), es);
    var s := Run(Initial(), es);
    OnHasIncr(s);
    forall at, rdb ensures ReopenSafe(Crashed(s, at, rdb)) { CrashKeepsNames(s, at, rdb); }
  }

  lemma OnHasIncr(s: State)
    requires Inv(s) && s.mode == On
    ensures s.saved.incr != []
  {}

  /** With the AOF on, a crash at any point loses the unflushed buffer and nothing else. */
  lemma CrashLosesTheBuffer(s: State, at: CrashPoint, rdb: bool)
    requires Inv(s) && s.mode == On
    ensures var t := Step(s, DoRestart(at, rdb)); Inv(t) && t.data + s.buf == s.data
  {
    hide Names, Replay, ReopenSafe;
    CrashKeepsNames(s, at, rdb);
    var c := Crashed(s, at, rdb);
    OnHasIncr(s);
    ReopenExisting(c, rdb);
    ReopenData(c, rdb);
  }

  lemma ReopenData(s: State, rdb: bool)
    ensures Reopen(s, rdb).data == Replay(s.disk, s.saved)
  {
    hide Replay;
  }

  /** INCR numbers strictly increase along the manifest, and no history entry names a live or a future file. */
  lemma NamesNeverCollide(s: State, h: Name, rdb: bool)
    requires Inv(s) && (h in s.manifest.files.hist || h in s.saved.hist)
    ensures h !in s.manifest.files.incr && s.manifest.files.base != Some(h)
    ensures h != Incr(s.manifest.incrSeq + 1) && h != Base(s.manifest.baseSeq + 1, rdb)
    ensures forall i, j :: 0 <= i < j < |s.saved.incr| ==> s.saved.incr[i].Incr? && s.saved.incr[j].Incr?
                                                           && s.saved.incr[i].n < s.saved.incr[j].n
  {
    var hist := if h in s.manifest.files.hist then s.manifest.files.hist else s.saved.hist;
    var i :| 0 <= i < |hist| && hist[i] == h;
    assert Past(h, s.manifest);
  }

  // ----- the two conditions are needed

  /** Without draining, the rewritten log repeats what was left in the buffer. */
  lemma DrainIsNeeded(s: State, n: nat, rdb: bool)
    requires Inv(s) && s.mode == On && s.child.None? && 0 < |s.buf| && n <= |s.buf|
    ensures var t := FinishRewrite(StartRewrite(s, n, Started), rdb, Done);
            Replay(t.disk, t.saved) + t.buf == t.data <==> n == |s.buf|
  {
    hide Past, Concat;
    var f := Flush(s, n);
    FlushInv(s, n);
    var a := StartRewrite(s, n, Started);
    assert a == OpenNewIncr(f, Started).(child := Some(f.data));
    var t := FinishRewrite(a, rdb, Done);
    var last := Incr(f.manifest.incrSeq + 1);
    assert a.manifest.files.incr == f.manifest.files.incr + [last];
    assert t.saved.incr == [last];
    ConcatOne(t.disk, last);
    assert t.disk[last] == [];
    assert Replay(t.disk, t.saved) == s.data + [];
    assert t.data == s.data && t.buf == s.buf[n..];
    assert |Replay(t.disk, t.saved) + t.buf| == |s.data| + (|s.buf| - n);
    if n == |s.buf| { assert s.data + [] + t.buf == s.data; }
  }

  /**
   An unsafe restart is reachable: log a write, switch the AOF off, rewrite it while
   off, and restart before the history is gone.
   */
  lemma UnsafeRestartReachable(u: Unit)
    ensures var s := Run(Initial(), [DoRestart(NothingRenamed, true), DoWrite(u), DoFlush(1), DoStop(true),
                                     DoStart(0, Started), DoFinish(true, Done)]);
            Inv(s) && !ReopenSafe(s) && !Inv(Reopen(s, true))
  {
    hide Step, Run, Names, Logged, Reopen, ReopenSafe;
    var e0, e1, e2 := DoRestart(NothingRenamed, true), DoWrite(u), DoFlush(1);
    var e3, e4, e5 := DoStop(true), DoStart(0, Started), DoFinish(true, Done);
    SixSteps(Initial(), e0, e1, e2, e3, e4, e5);
    InitialInv();
    FirstStep(u); LoggedSteps(u); RewriteSteps(u);
    StepInv(Initial(), e0); StepInv(Example(0, u), e1); StepInv(Example(1, u), e2); StepInv(Example(2, u), e3);
    StepInv(Example(3, u), e4); StepInv(Example(4, u), e5);
    ExampleUnsafe(u);
    ReopenIff(Example(5, u), true);
  }

  /** The states of a run that switches the log on, off, rewrites it while off, writes, and switches it on in EXEC. */
  function ExecExample(k: nat, u: Unit): State {
    var none, base := Files(None, [], []), Base(1, true);
    var m := Manifest(none, 0, 0, false);
    var temp: map<Name, seq<Unit>> := map[TempIncr := []];
    var f := Files(Some(base), [], [Incr(1)]);
    if k == 0 then State(WaitRewrite, m, none, temp, Open(TempIncr), [], [], Some([]))
    else if k == 1 then State(Off, m, none, temp, Closed, [], [], None)
    else if k == 2 then State(Off, m, none, temp, Closed, [], [], Some([]))
    else if k == 3 then State(Off, m, none, temp, Closed, [], [u], Some([]))
    else if k == 4 then State(WaitRewrite, m, none, temp, Closed, [], [u], Some([]))
    else State(On, Manifest(f, 1, 1, false), f, map[base := [], Incr(1) := []], Closed, [], [u], None)
  }

  lemma ExecSteps(u: Unit)
    ensures Step(Initial(), DoEnable(false, Started)) == ExecExample(0, u)
    ensures Step(ExecExample(0, u), DoStop(true)) == ExecExample(1, u)
    ensures Step(ExecExample(1, u), DoStart(0, Started)) == ExecExample(2, u)
    ensures Step(ExecExample(2, u), DoWrite(u)) == ExecExample(3, u)
    ensures Step(ExecExample(3, u), DoEnable(true, Started)) == ExecExample(4, u)
  {
    assert Flush(Initial().(mode := WaitRewrite), 0) == Initial().(mode := WaitRewrite);
    assert [] + [u] == [u];
  }

  lemma ExecDone(u: Unit)
    ensures Step(ExecExample(4, u), DoFinish(true, Done)) == ExecExample(5, u)
  {
    var t := Step(ExecExample(4, u), DoFinish(true, Done));
    assert t.disk == ExecExample(5, u).disk;
    assert t.saved == ExecExample(5, u).saved;
  }

  /** A write that is in no file although the log is on: it came after a fork and before EXEC switched the log on. */
  lemma LostInsideExec(u: Unit)
    ensures var s := Run(Initial(), [DoEnable(false, Started), DoStop(true), DoStart(0, Started), DoWrite(u),
                                     DoEnable(true, Started), DoFinish(true, Done)]);
            s.mode == On && s.data == [u] && Replay(s.disk, s.saved) + s.buf == [] && s.fd == Closed
  {
    hide Step, Run;
    SixSteps(Initial(), DoEnable(false, Started), DoStop(true), DoStart(0, Started), DoWrite(u),
             DoEnable(true, Started), DoFinish(true, Done));
    ExecSteps(u);
    ExecDone(u);
    var s := ExecExample(5, u);
    assert Concat(s.disk, s.saved.incr) == [];
  }

  /** The six states of the run above that ends in an unsafe restart. */
  function Example(k: nat, u: Unit): State {
    var b1, b2, i1 := Base(1, true), Base(2, true), Incr(1);
    var f1 := Files(Some(b1), [i1], []);
    var m1 := Manifest(f1, 1, 1, false);
    var f2 := Files(Some(b2), [], [i1, b1]);
    var d2: map<Name, seq<Unit>> := map[b1 := [], i1 := [u]];
    if k == 0 then State(On, m1, f1, map[b1 := [], i1 := []], Open(i1), [], [], None)
    else if k == 1 then State(On, m1, f1, map[b1 := [], i1 := []], Open(i1), [u], [u], None)
    else if k == 2 then State(On, m1, f1, d2, Open(i1), [], [u], None)
    else if k == 3 then State(Off, m1, f1, d2, Closed, [], [u], None)
    else if k == 4 then State(Off, m1, f1, d2, Closed, [], [u], Some([u]))
    else State(Off, Manifest(f2, 2, 1, false), f2, d2[b2 := [u]], Closed, [], [u], None)
  }

  lemma FirstStep(u: Unit)
    ensures Allowed(Initial(), DoRestart(NothingRenamed, true))
    ensures Step(Initial(), DoRestart(NothingRenamed, true)) == Example(0, u)
  {
    assert Replay(Initial().disk, Initial().saved) == [];
  }

  lemma LoggedSteps(u: Unit)
    ensures Step(Example(0, u), DoWrite(u)) == Example(1, u)
    ensures Step(Example(1, u), DoFlush(1)) == Example(2, u)
    ensures Step(Example(2, u), DoStop(true)) == Example(3, u)
  {
    var s := Example(1, u);
    assert [u][..1] == [u] && [u][1..] == [] && [] + [u] == [u];
    assert Flush(s, 1).disk == Example(2, u).disk;
  }

  lemma RewriteSteps(u: Unit)
    ensures Step(Example(3, u), DoStart(0, Started)) == Example(4, u)
    ensures Step(Example(4, u), DoFinish(true, Done)) == Example(5, u)
  {}

  lemma ExampleUnsafe(u: Unit)
    ensures !ReopenSafe(Example(5, u))
  {
    assert Example(5, u).saved.hist[0].Incr?;
  }

  lemma SixSteps(s: State, e0: Event, e1: Event, e2: Event, e3: Event, e4: Event, e5: Event)
    ensures Run(s, [e0, e1, e2, e3, e4, e5]) == Step(Step(Step(Step(Step(Step(s, e0), e1), e2), e3), e4), e5)
  {
    hide Step;
    var es := [e0, e1, e2, e3, e4, e5];
    assert es[..5][..4] == es[..4] && es[..4][..3] == es[..3] && es[..3][..2] == es[..2] && es[..2][..1] == es[..1];
    assert es[..1][..0] == [];
    assert Run(s, es[..1]) == Step(s, e0);
    assert Run(s, es[..2]) == Step(Run(s, es[..1]), e1);
    assert Run(s, es[..3]) == Step(Run(s, es[..2]), e2);
    assert Run(s, es[..4]) == Step(Run(s, es[..3]), e3);
    assert Run(s, es[..5]) == Step(Run(s, es[..4]), e4);
  }
}
