/**
 The manifest and the rewrite handlers of aof.c as objects updated in place. Each
 method is the transition of the same name in `AofManifest`; what the file system
 and the child process do is a parameter.
 */
module AofServer {
  import opened AofManifest

  /** Moving entry `i` from the end of one list to the head of the other. */
  lemma MoveOne(all: seq<Name>, keep: seq<Name>, past: seq<Name>, i: nat, k: nat)
    requires i < k <= |all|
    ensures var incr := all[..i + 1] + keep;
            incr[i] == all[i] && incr[..i] + incr[i + 1..] == all[..i] + keep
    ensures [all[i]] + (all[i + 1..k] + past) == all[i..k] + past
  {
    var incr := all[..i + 1] + keep;
    assert incr[..i] == all[..i] && incr[i + 1..] == keep;
    assert [all[i]] + all[i + 1..k] == all[i..k];
  }

  /** Before and after all entries below `k` have moved. */
  lemma MoveNone(all: seq<Name>, past: seq<Name>, k: nat)
    requires k <= |all|
    ensures all[..k] + all[k..] == all && all[k..k] + past == past
    ensures all[..0] + all[k..] == all[k..] && all[0..k] == all[..k]
  {}

  lemma MarkedAt(m: Manifest, keepLast: bool, k: nat)
    requires m.files.incr != [] && k == if keepLast then |m.files.incr| - 1 else |m.files.incr|
    ensures MarkRewritten(m, keepLast)
         == m.(files := m.files.(incr := m.files.incr[k..], hist := m.files.incr[..k] + m.files.hist), dirty := true)
  {
    var incr := m.files.incr;
    assert incr[..|incr|] == incr;
  }

  class ManifestObject {
    var base: Option<Name>
    var incr: seq<Name>
    var hist: seq<Name>
    var baseSeq: nat
    var incrSeq: nat
    var dirty: bool

    ghost function Value(): Manifest
      reads this
    {
      Manifest(Files(base, incr, hist), baseSeq, incrSeq, dirty)
    }

    function Lists(): Files
      reads this
    {
      Files(base, incr, hist)
    }

    constructor Of(m: Manifest)
      ensures Value() == m
    {
      base, incr, hist := m.files.base, m.files.incr, m.files.hist;
      baseSeq, incrSeq, dirty := m.baseSeq, m.incrSeq, m.dirty;
    }

    /** `aofManifestDup`. */
    constructor Dup(orig: ManifestObject)
      ensures Value() == orig.Value()
    {
      base, incr, hist := orig.base, orig.incr, orig.hist;
      baseSeq, incrSeq, dirty := orig.baseSeq, orig.incrSeq, orig.dirty;
    }

    method NewBaseName(rdb: bool) returns (name: Name)
      modifies this
      ensures Value() == NewBase(old(Value()), rdb) && name == Base(old(baseSeq) + 1, rdb)
      ensures incrSeq == old(incrSeq)
    {
      if base.Some? { hist := [base.value] + hist; }
      baseSeq := baseSeq + 1;
      name := Base(baseSeq, rdb);
      base := Some(name);
      dirty := true;
    }

    method NewIncrName() returns (name: Name)
      modifies this
      ensures Value() == NewIncr(old(Value())) && name == Incr(old(incrSeq) + 1)
    {
      incrSeq := incrSeq + 1;
      name := Incr(incrSeq);
      incr := incr + [name];
      dirty := true;
    }

    /** Walk the INCR list from its tail, moving each entry to the head of the history. */
    method MarkRewrittenIncr(fdOpen: bool)
      modifies this
      ensures Value() == MarkRewritten(old(Value()), fdOpen)
    {
      if |incr| == 0 { return; }
      var i := |incr|;
      if fdOpen { i := i - 1; }
      ghost var all, past, keep := incr, hist, incr[i..];
      ghost var k := i;
      MarkedAt(Value(), fdOpen, k);
      MoveNone(all, past, k);
      hide MarkRewritten;
      while i > 0
        invariant 0 <= i <= k <= |all|
        invariant incr == all[..i] + keep && hist == all[i..k] + past
        modifies this`incr, this`hist
      {
        i := i - 1;
        MoveOne(all, keep, past, i, k);
        hist := [incr[i]] + hist;
        incr := incr[..i] + incr[i + 1..];
      }
      dirty := true;
    }
  }

  class Server {
    var mode: Mode
    var manifest: ManifestObject
    var saved: Files
    var disk: map<Name, seq<Unit>>
    var fd: Fd
    var buf: seq<Unit>
    var data: seq<Unit>
    var child: Option<seq<Unit>>

    ghost function Value(): State
      reads this, manifest
    {
      State(mode, manifest.Value(), saved, disk, fd, buf, data, child)
    }

    constructor (s: State)
      ensures Value() == s && fresh(manifest)
    {
      mode, saved, disk, fd, buf, data, child := s.mode, s.saved, s.disk, s.fd, s.buf, s.data, s.child;
      manifest := new ManifestObject.Of(s.manifest);
    }

    method FeedAppendOnlyFile(u: Unit)
      modifies this
      ensures manifest == old(manifest) && Value() == Write(old(Value()), u)
    {
      data := data + [u];
      if mode == On || (mode == WaitRewrite && child.Some?) { buf := buf + [u]; }
    }

    /** `n` is what write(2) took of the buffer. */
    method FlushAppendOnlyFile(n: nat)
      requires n <= |buf| && fd.Open?
      modifies this
      ensures manifest == old(manifest) && Value() == Flush(old(Value()), n)
    {
      if |buf| == 0 { return; }
      disk := disk[fd.name := Content(disk, fd.name) + buf[..n]];
      buf := buf[n..];
    }

    method OpenNewIncrAofForAppend(outcome: StartOutcome) returns (ok: bool)
      modifies this
      ensures manifest == old(manifest) || fresh(manifest)
      ensures Value() == OpenNewIncr(old(Value()), outcome)
      ensures ok <==> mode == Off || !(outcome.OpenFailed? || (mode == On && outcome.PersistFailed?))
    {
      if mode == Off { return true; }
      if mode == WaitRewrite {
        if outcome.OpenFailed? { return false; }
        disk := disk[TempIncr := []];
        fd := Open(TempIncr);
        return true;
      }
      var temp := new ManifestObject.Dup(manifest);
      var name := temp.NewIncrName();
      if outcome.OpenFailed? { return false; }
      disk := disk[name := []];
      if outcome.PersistFailed? { return false; }
      saved := temp.Lists();
      temp.dirty := false;
      fd := Open(name);
      manifest := temp;
      return true;
    }

    method CleanUpRewrite()
      modifies this
      ensures manifest == old(manifest) && Value() == CleanUp(old(Value()))
    {
      child := None;
      if mode == WaitRewrite {
        buf := [];
        if fd == Open(TempIncr) { fd := Dangling; }
        disk := disk - {TempIncr};
      }
    }

    /** The renames: the child's file becomes the new BASE, the temporary INCR file gets its number. */
    method RenameFiles(newBase: Name, newIncr: Name, ghost rdb: bool)
      requires child.Some? && (mode == WaitRewrite ==> TempIncr in disk)
      requires newBase == Base(manifest.baseSeq + 1, rdb) && newIncr == Incr(manifest.incrSeq + 1)
      modifies this
      ensures manifest == old(manifest) && Value() == Renamed(old(Value()), rdb)
    {
      disk := disk[newBase := child.value];
      if mode == WaitRewrite {
        disk := disk[newIncr := disk[TempIncr]] - {TempIncr};
        if fd == Open(TempIncr) { fd := Open(newIncr); }
      }
    }

    /** Taking the renames back when the manifest could not be written. */
    method UndoRenames(newBase: Name, newIncr: Name)
      modifies this
      ensures manifest == old(manifest)
      ensures var s := old(Value());
              Value() == if s.mode == WaitRewrite
                         then CleanUp(s.(disk := s.disk - {newBase, newIncr}, fd := Unnamed(s.fd, newIncr)))
                         else CleanUp(s.(disk := s.disk - {newBase}))
    {
      disk := disk - {newBase};
      if mode == WaitRewrite {
        disk := disk - {newIncr};
        if fd == Open(newIncr) { fd := Dangling; }
      }
      assert mode == WaitRewrite ==> disk == old(disk) - {newBase, newIncr};
      CleanUpRewrite();
    }

    /** Making the new manifest the persisted and the current one. */
    method Commit(temp: ManifestObject)
      modifies this, temp
      ensures manifest == temp
      ensures Value() == old(Value()).(manifest := old(temp.Value()).(dirty := false), saved := old(temp.Value()).files,
                                       child := None, mode := if old(mode) == WaitRewrite then On else old(mode))
    {
      saved := temp.Lists();
      temp.dirty := false;
      manifest := temp;
      child := None;
      if mode == WaitRewrite { mode := On; }
    }

    /** A scratch manifest with the new BASE and, while waiting for the first rewrite, a new INCR file. */
    method PrepareManifest(rdb: bool) returns (temp: ManifestObject, newBase: Name, newIncr: Name)
      ensures fresh(temp)
      ensures newBase == Base(manifest.baseSeq + 1, rdb) && newIncr == Incr(manifest.incrSeq + 1)
      ensures var m := NewBase(manifest.Value(), rdb);
              temp.Value() == if mode == WaitRewrite then NewIncr(m) else m
    {
      hide NewBase, NewIncr;
      temp := new ManifestObject.Dup(manifest);
      newBase := temp.NewBaseName(rdb);
      newIncr := Incr(manifest.incrSeq + 1);
      if mode == WaitRewrite { newIncr := temp.NewIncrName(); }
    }

    /** `backgroundRewriteDoneHandler` before it deletes the history. */
    method BackgroundRewriteDone(rdb: bool, outcome: DoneOutcome)
      requires child.Some? && (outcome == IncrRenameFailed ==> mode == WaitRewrite)
      modifies this
      ensures manifest == old(manifest) || fresh(manifest)
      ensures Value() == FinishRewrite(old(Value()), rdb, outcome)
    {
      hide MarkRewritten, NewBase, NewIncr, CleanUp, Renamed;
      if outcome.ChildFailed? { CleanUpRewrite(); return; }
      var temp, newBase, newIncr := PrepareManifest(rdb);
      if outcome.BaseRenameFailed? { CleanUpRewrite(); return; }
      if outcome.IncrRenameFailed? || (mode == WaitRewrite && TempIncr !in disk) {
        disk := disk - {newBase};
        CleanUpRewrite();
        return;
      }
      RenamedFd(Value(), rdb);
      RenameFiles(newBase, newIncr, rdb);
      temp.MarkRewrittenIncr(fd != Closed);
      if outcome.ManifestFailed? {
        UndoRenames(newBase, newIncr);
      } else {
        Commit(temp);
      }
    }

    /** The forced flush of `stopAppendOnly` is a step of its own; killing the child loses its rewrite. */
    method StopAppendOnly(persisted: bool)
      requires mode != Off
      modifies this
      ensures manifest == old(manifest) && Value() == Stop(old(Value()), persisted)
    {
      if mode == On && persisted { saved := manifest.Lists(); }
      fd := Closed;
      mode := Off;
      child := None;
      buf := [];
    }

    method RewriteAppendOnlyFileBackground(outcome: StartOutcome) returns (ok: bool)
      requires buf == []
      modifies this
      ensures manifest == old(manifest) || fresh(manifest)
      ensures Value() == StartRewrite(old(Value()), 0, outcome) && (ok <==> old(child).None? && outcome.Started?)
    {
      if child.Some? { return false; }
      var done := OpenNewIncrAofForAppend(outcome);
      if !done || !outcome.Started? { return false; }
      child := Some(data);
      return true;
    }

    /** `later` says that EXEC is running or another child is. */
    method StartAppendOnly(later: bool, outcome: StartOutcome) returns (ok: bool)
      requires mode == Off && buf == []
      modifies this
      ensures manifest == old(manifest) || fresh(manifest)
      ensures Value() == Enable(old(Value()), later, outcome) && (ok <==> later || outcome.Started?)
    {
      hide OpenNewIncr;
      mode := WaitRewrite;
      if later { return true; }
      child := None;
      ok := RewriteAppendOnlyFileBackground(outcome);
      if !ok { mode := Off; }
    }

    /** `aofDelHistoryFiles` with garbage collection enabled. */
    method DelHistoryFiles(persisted: bool)
      modifies this, manifest
      ensures manifest == old(manifest) && Value() == DelHistory(old(Value()), persisted)
    {
      if |manifest.hist| == 0 { return; }
      ghost var all, was := manifest.hist, disk;
      ghost var i := 0;
      while |manifest.hist| > 0
        invariant 0 <= i <= |all| && manifest.hist == all[i..]
        invariant disk == was - set n | n in all[..i]
        invariant manifest == old(manifest) && manifest.base == old(manifest.base)
          && manifest.incr == old(manifest.incr)
        invariant manifest.baseSeq == old(manifest.baseSeq) && manifest.incrSeq == old(manifest.incrSeq)
        invariant mode == old(mode) && saved == old(saved) && fd == old(fd) && buf == old(buf) && data == old(data)
          && child == old(child)
        decreases |all| - i
      {
        assert all[..i + 1] == all[..i] + [all[i]];
        disk := disk - {manifest.hist[0]};
        manifest.hist := manifest.hist[1..];
        i := i + 1;
      }
      assert all[..i] == all;
      manifest.dirty := true;
      if persisted {
        saved := manifest.Lists();
        manifest.dirty := false;
      }
    }
  }

  /** The renames keep the mode, the manifest and whether a descriptor is open. */
  lemma RenamedFd(s: State, rdb: bool)
    requires s.child.Some?
    ensures var r := Renamed(s, rdb);
            r.mode == s.mode && r.manifest == s.manifest && r.saved == s.saved && r.child == s.child
            && (r.fd != Closed <==> s.fd != Closed)
  {}
}
