/**
 What loading makes of a log that was cut at an arbitrary byte: which commands run, what
 is left of the file, what a second load does, and what becomes of commands that are
 appended to the file after the load.
 */
module AofRecovery {
  import opened AofLog
  import opened AofLoader

  /** What the server appends: timestamp annotations and commands. */
  datatype Entry = Stamp(ts: nat) | Do(cmd: Cmd)

  function Print(e: Entry): string {
    match e
    case Stamp(ts) => "#TS:" + Digits(ts) + CRLF
    case Do(c) => Encode(c)
  }

  function PrintAll(es: seq<Entry>): string {
    if es == [] then [] else Print(es[0]) + PrintAll(es[1..])
  }

  ghost predicate GoodEntry(env: Env, e: Entry) {
    match e
    case Stamp(ts) => ts < SIZE_LIMIT
    case Do(c) => Loggable(c) && env.kind(c) != Unknown
  }

  ghost predicate Good(env: Env, es: seq<Entry>) { forall i :: 0 <= i < |es| ==> GoodEntry(env, es[i]) }

  // ----- what the entries mean

  function Apply(env: Env, d: Db, e: Entry): Db { if e.Do? then Process(env, d, e.cmd) else d }

  /** The commands a log stands for: a transaction counts once its EXEC is there. */
  function Play(env: Env, d: Db, es: seq<Entry>): Db
    decreases |es|
  {
    if es == [] then d else Play(env, Apply(env, d, es[0]), es[1..])
  }

  function Meaning(env: Env, es: seq<Entry>): seq<Cmd> { Play(env, EMPTY, es).ran }

  predicate Open(env: Env, es: seq<Entry>) { Play(env, EMPTY, es).multi }

  function Commands(cs: seq<Cmd>): seq<Entry> { seq(|cs|, i requires 0 <= i < |cs| => Do(cs[i])) }

  ghost predicate AllPlain(env: Env, cs: seq<Cmd>) { forall i :: 0 <= i < |cs| ==> env.kind(cs[i]) == Plain }

  /** Plain commands run at once, or wait in an open transaction. */
  lemma {:induction false} PlayPlain(env: Env, d: Db, cs: seq<Cmd>)
    requires AllPlain(env, cs)
    ensures Play(env, d, Commands(cs))
         == if d.multi then d.(queue := d.queue + cs) else d.(ran := d.ran + cs)
    decreases |cs|
  {
    if cs == [] {
      assert d.queue + cs == d.queue && d.ran + cs == d.ran && Commands(cs) == [];
    } else {
      assert Commands(cs)[0] == Do(cs[0]) && Commands(cs)[1..] == Commands(cs[1..]);
      var e := Apply(env, d, Do(cs[0]));
      PlayPlain(env, e, cs[1..]);
      assert d.queue + [cs[0]] + cs[1..] == d.queue + cs && d.ran + [cs[0]] + cs[1..] == d.ran + cs;
    }
  }

  /** Commands mean themselves; a transaction means its commands if it is closed, and nothing if it is not. */
  lemma TransactionMeans(env: Env, before: seq<Cmd>, multi: Cmd, inside: seq<Cmd>, exec: Cmd, after: seq<Cmd>)
    requires AllPlain(env, before) && AllPlain(env, inside) && AllPlain(env, after)
    requires env.kind(multi) == Multi && env.kind(exec) == Exec
    ensures var log := Commands(before) + [Do(multi)] + Commands(inside);
      && Meaning(env, log) == before && Open(env, log)
      && Meaning(env, log + [Do(exec)] + Commands(after)) == before + inside + after
      && !Open(env, log + [Do(exec)] + Commands(after))
  {
    var log := Commands(before) + [Do(multi)] + Commands(inside);
    var d := Db(before, false, []);
    PlayPlain(env, EMPTY, before);
    assert [] + before == before;
    PlayConcat(env, EMPTY, Commands(before), [Do(multi)]);
    PlayEntry(env, d, Do(multi));
    PlayConcat(env, EMPTY, Commands(before) + [Do(multi)], Commands(inside));
    PlayPlain(env, Db(before, true, []), inside);
    assert [] + inside == inside;
    PlayConcat(env, EMPTY, log, [Do(exec)]);
    PlayEntry(env, Db(before, true, inside), Do(exec));
    PlayConcat(env, EMPTY, log + [Do(exec)], Commands(after));
    PlayPlain(env, Db(before + inside, false, []), after);
  }

  lemma PlayEntry(env: Env, d: Db, e: Entry)
    ensures Play(env, d, [e]) == Apply(env, d, e)
  {
    hide Apply;
    assert [e][1..] == [];
  }

  lemma {:induction false} PlayConcat(env: Env, d: Db, a: seq<Entry>, b: seq<Entry>)
    ensures Play(env, d, a + b) == Play(env, Play(env, d, a), b)
    decreases |a|
  {
    hide Apply;
    if a == [] {
      assert a + b == b;
    } else {
      assert (a + b)[1..] == a[1..] + b;
      PlayConcat(env, Apply(env, d, a[0]), a[1..], b);
    }
  }

  lemma PlaySnoc(env: Env, d: Db, es: seq<Entry>)
    requires es != []
    ensures Play(env, d, es) == Apply(env, Play(env, d, es[..|es| - 1]), es[|es| - 1])
  {
    hide Apply;
    var front, last := es[..|es| - 1], [es[|es| - 1]];
    assert es == front + last;
    PlayConcat(env, d, front, last);
    assert last[1..] == [];
  }

  /** How the meaning grows does not depend on what ran before. */
  lemma {:induction false} PlayPrefix(env: Env, d: Db, es: seq<Entry>)
    requires !d.multi && d.queue == []
    ensures Play(env, d, es).ran == d.ran + Meaning(env, es)
    ensures Play(env, d, es).multi == Open(env, es)
  {
    PlayShift(env, d.ran, EMPTY, es);
    assert d.ran + EMPTY.ran == d.ran;
    assert Shift(d.ran, EMPTY) == d;
  }

  function Shift(r: seq<Cmd>, d: Db): Db { d.(ran := r + d.ran) }

  lemma {:induction false} PlayShift(env: Env, r: seq<Cmd>, d: Db, es: seq<Entry>)
    ensures Play(env, Shift(r, d), es) == Shift(r, Play(env, d, es))
    decreases |es|
  {
    hide Apply;
    if es != [] {
      ApplyShift(env, r, d, es[0]);
      PlayShift(env, r, Apply(env, d, es[0]), es[1..]);
    }
  }

  lemma ApplyShift(env: Env, r: seq<Cmd>, d: Db, e: Entry)
    ensures Apply(env, Shift(r, d), e) == Shift(r, Apply(env, d, e))
  {
    if e.Do? {
      assert r + (d.ran + d.queue) == r + d.ran + d.queue;
      assert r + (d.ran + [e.cmd]) == r + d.ran + [e.cmd];
    }
  }

  // ----- whole entries

  /** Reading over a whole entry. */
  lemma EntryWhole(env: Env, e: Entry, rest: string)
    requires GoodEntry(env, e)
    ensures ParseItem(Print(e) + rest) == if e.Do? then Command(e.cmd, rest) else Annotation(rest)
  {
    hide ParseItem, Encode, Digits;
    match e {
      case Do(c) => CommandWhole(c, rest);
      case Stamp(ts) => StampWhole(ts, rest);
    }
  }

  lemma StampChars(ts: nat)
    requires ts < SIZE_LIMIT
    ensures NoNewline("#TS:" + Digits(ts) + ['\r']) && |Digits(ts)| <= 20
  {
    hide Digits;
    ShortNumbers(ts);
    DigitsAreDigits(ts);
  }

  lemma StampWhole(ts: nat, rest: string)
    requires ts < SIZE_LIMIT
    ensures ParseItem(Print(Stamp(ts)) + rest) == Annotation(rest)
  {
    hide Digits, LineLength, ParseArgs, Atoi;
    var x := "#TS:" + Digits(ts) + ['\r'];
    StampChars(ts);
    LineWhole(x, rest, LINE_MAX - 1);
    assert Print(Stamp(ts)) + rest == x + ['\n'] + rest;
    var s := x + ['\n'] + rest;
    assert s[|x| + 1..] == rest && s[0] == '#';
  }

  function Next(env: Env, st: At, e: Entry, end: nat): At {
    if e.Do? then Advance(env, st, e.cmd, end) else st
  }

  /** The loader's state after reading `es` from offset `pos`. */
  function Mark(env: Env, st: At, es: seq<Entry>, pos: nat): At
    decreases |es|
  {
    if es == [] then st
    else var end := pos + |Print(es[0])|; Mark(env, Next(env, st, es[0], end), es[1..], end)
  }

  ghost predicate Behind(st: At, pos: nat) { st.upTo <= pos && st.before <= pos }

  lemma {:induction false} MarkBehind(env: Env, st: At, es: seq<Entry>, pos: nat)
    requires Behind(st, pos)
    ensures Behind(Mark(env, st, es, pos), pos + |PrintAll(es)|)
    ensures Mark(env, st, es, pos).db == Play(env, st.db, es)
    decreases |es|
  {
    hide Print, Process;
    if es != [] {
      var end := pos + |Print(es[0])|;
      MarkBehind(env, Next(env, st, es[0], end), es[1..], end);
    }
  }

  lemma LoopEntry(env: Env, e: Entry, rest: string, pos: nat, st: At)
    requires GoodEntry(env, e) && Behind(st, pos)
    ensures Behind(Next(env, st, e, pos + |Print(e)|), pos + |Print(e)|)
    ensures Loop(env, Print(e) + rest, pos, st)
         == Loop(env, rest, pos + |Print(e)|, Next(env, st, e, pos + |Print(e)|))
  {
    hide ParseItem, Print, Process;
    EntryWhole(env, e, rest);
    var s := Print(e) + rest;
    assert pos + |s| - |rest| == pos + |Print(e)|;
  }

  lemma {:induction false} LoopWhole(env: Env, es: seq<Entry>, rest: string, pos: nat, st: At)
    requires Good(env, es) && Behind(st, pos)
    ensures Behind(Mark(env, st, es, pos), pos + |PrintAll(es)|)
    ensures Loop(env, PrintAll(es) + rest, pos, st)
         == Loop(env, rest, pos + |PrintAll(es)|, Mark(env, st, es, pos))
    decreases |es|
  {
    hide Print, Loop, Next, GoodEntry;
    MarkBehind(env, st, es, pos);
    if es == [] {
      assert PrintAll(es) + rest == rest;
    } else {
      var end := pos + |Print(es[0])|;
      var tail := PrintAll(es[1..]) + rest;
      assert PrintAll(es) + rest == Print(es[0]) + tail;
      LoopEntry(env, es[0], tail, pos, st);
      LoopWhole(env, es[1..], rest, end, Next(env, st, es[0], end));
    }
  }

  // ----- where the loader would cut

  /** How many entries are left when everything after the last command goes. */
  function UpTo(es: seq<Entry>): (n: nat)
    ensures n <= |es|
  {
    if es == [] || es[|es| - 1].Do? then |es| else UpTo(es[..|es| - 1])
  }

  /** How many entries are left when the last MULTI and all after it goes. */
  function Before(env: Env, es: seq<Entry>): (n: nat)
    ensures n <= |es|
  {
    if es == [] then 0
    else
      var front, e := es[..|es| - 1], es[|es| - 1];
      if e.Do? && env.kind(e.cmd) == Multi then UpTo(front) else Before(env, front)
  }

  lemma {:induction false} PrintConcat(a: seq<Entry>, b: seq<Entry>)
    ensures PrintAll(a + b) == PrintAll(a) + PrintAll(b)
    decreases |a|
  {
    hide Print;
    if a == [] {
      assert a + b == b;
    } else {
      assert (a + b)[1..] == a[1..] + b;
      PrintConcat(a[1..], b);
    }
  }

  lemma {:induction false} MarkConcat(env: Env, st: At, a: seq<Entry>, b: seq<Entry>, pos: nat)
    ensures Mark(env, st, a + b, pos) == Mark(env, Mark(env, st, a, pos), b, pos + |PrintAll(a)|)
    decreases |a|
  {
    hide Print, Next;
    if a == [] {
      assert a + b == b;
    } else {
      assert (a + b)[1..] == a[1..] + b;
      var end := pos + |Print(a[0])|;
      MarkConcat(env, Next(env, st, a[0], end), a[1..], b, end);
    }
  }

  const START := At(EMPTY, 0, 0)

  lemma MarkSnoc(env: Env, es: seq<Entry>)
    requires es != []
    ensures Mark(env, START, es, 0)
         == Next(env, Mark(env, START, es[..|es| - 1], 0), es[|es| - 1], |PrintAll(es)|)
  {
    hide Print, Next;
    var front, last := es[..|es| - 1], [es[|es| - 1]];
    assert es == front + last;
    MarkConcat(env, START, front, last, 0);
    PrintConcat(front, last);
    assert last[1..] == [];
    assert PrintAll(last) == Print(last[0]) + [];
  }

  /** The offsets the loader keeps are the ends of whole commands. */
  lemma {:induction false} MarkOffsets(env: Env, es: seq<Entry>)
    requires env.loadTruncated
    ensures Mark(env, START, es, 0).upTo == |PrintAll(es[..UpTo(es)])|
    ensures Mark(env, START, es, 0).before == |PrintAll(es[..Before(env, es)])|
    decreases |es|
  {
    hide Print, Process, PrintAll;
    if es == [] {
      assert es[..0] == [];
      PrintNothing();
    } else {
      var front := es[..|es| - 1];
      MarkSnoc(env, es);
      MarkOffsets(env, front);
      assert es[..|es|] == es;
      assert front[..UpTo(front)] == es[..UpTo(front)];
      assert front[..Before(env, front)] == es[..Before(env, front)];
    }
  }

  lemma PrintNothing()
    ensures PrintAll([]) == []
  {}

  lemma PrintTake(es: seq<Entry>, n: nat)
    requires n <= |es|
    ensures |PrintAll(es[..n])| <= |PrintAll(es)| && PrintAll(es[..n]) == PrintAll(es)[..|PrintAll(es[..n])|]
  {
    hide PrintAll;
    assert es == es[..n] + es[n..];
    PrintConcat(es[..n], es[n..]);
  }

  // ----- the cut

  /** How many whole entries are among the first `k` bytes. */
  function Whole(es: seq<Entry>, k: nat): (m: nat)
    ensures m <= |es|
    decreases |es|
  {
    if es == [] || k < |Print(es[0])| then 0 else 1 + Whole(es[1..], k - |Print(es[0])|)
  }

  /** The entry the cut went through. */
  predicate Torn(es: seq<Entry>, k: nat) { Whole(es, k) < |es| && |PrintAll(es[..Whole(es, k)])| < k }

  predicate TornCommand(es: seq<Entry>, k: nat) { Torn(es, k) && es[Whole(es, k)].Do? }

  predicate TornStamp(es: seq<Entry>, k: nat) { Torn(es, k) && es[Whole(es, k)].Stamp? }

  lemma PrintFirst(es: seq<Entry>)
    requires es != []
    ensures PrintAll(es) == Print(es[0]) + PrintAll(es[1..])
  {}

  /** The bytes before the cut are the whole entries and a part of the next one. */
  lemma {:induction false} CutShape(es: seq<Entry>, k: nat)
    requires k <= |PrintAll(es)|
    ensures |PrintAll(es[..Whole(es, k)])| <= k
    ensures var m := Whole(es, k); var p := k - |PrintAll(es[..m])|;
      if Torn(es, k) then 0 < p < |Print(es[m])| && PrintAll(es)[..k] == PrintAll(es[..m]) + Print(es[m])[..p]
      else p == 0 && PrintAll(es)[..k] == PrintAll(es[..m])
    decreases |es|
  {
    hide Print, PrintAll;
    PrintNothing();
    if es == [] || k < |Print(es[0])| {
      assert es[..0] == [];
      if es != [] { PrintFirst(es); }
      if k > 0 { assert PrintAll(es)[..k] == Print(es[0])[..k]; }
    } else {
      PrintFirst(es);
      var e := Print(es[0]);
      CutShape(es[1..], k - |e|);
      var m := Whole(es[1..], k - |e|);
      assert es[..m + 1][1..] == es[1..][..m];
      PrintFirst(es[..m + 1]);
      assert PrintAll(es)[..k] == e + PrintAll(es[1..])[..k - |e|];
    }
  }

  // ----- loading what is left

  lemma FirstChar(es: seq<Entry>, k: nat)
    requires 0 < k <= |PrintAll(es)|
    ensures PrintAll(es)[0] != 'R'
    ensures !(SIGNATURE <= PrintAll(es)[..k])
  {
    hide Digits, EncodeArgs, PrintAll;
    PrintNothing();
    PrintFirst(es);
    PrintedIsSomething(es[0]);
    assert PrintAll(es)[..k][0] == PrintAll(es)[0] == Print(es[0])[0];
  }

  /** A torn entry: a command is a short read, an annotation is skipped like a whole one. */
  lemma EntryCut(env: Env, e: Entry, p: nat)
    requires GoodEntry(env, e) && 0 < p < |Print(e)|
    ensures ParseItem(Print(e)[..p]) == if e.Do? then Short else Annotation([])
  {
    hide Digits, Encode, ParseItem;
    match e {
      case Do(c) => CommandCut(c, p);
      case Stamp(ts) => StampCut(ts, p);
    }
  }

  lemma StampCut(ts: nat, p: nat)
    requires ts < SIZE_LIMIT && 0 < p < |Print(Stamp(ts))|
    ensures NoNewline(Print(Stamp(ts))[..p]) && p < 30 && Print(Stamp(ts))[..p][0] == '#'
    ensures ParseItem(Print(Stamp(ts))[..p]) == Annotation([])
  {
    hide Digits, LineLength, ParseArgs, Atoi;
    var x := Print(Stamp(ts))[..p];
    StampChars(ts);
    assert forall i :: 0 <= i < p ==> x[i] == ("#TS:" + Digits(ts) + ['\r'])[i];
    LineCut(x, LINE_MAX - 1);
    assert x[..|x|] == x && x[|x|..] == [];
  }

  /** The end of a file that holds `es` and then nothing, or a part of `e`. */
  lemma LoopEnd(env: Env, pos: nat, st: At)
    requires Behind(st, pos)
    ensures Loop(env, [], pos, st)
         == if st.db.multi then UnexpectedEnd(env, st.db.ran, st.before, pos) else Done(Ok, st.db.ran, pos)
  {
    assert ParseItem([]) == End;
  }

  lemma LoopCut(env: Env, e: Entry, p: nat, pos: nat, st: At)
    requires GoodEntry(env, e) && 0 < p < |Print(e)| && Behind(st, pos)
    ensures Loop(env, Print(e)[..p], pos, st)
         == if e.Do? then UnexpectedEnd(env, st.db.ran, st.upTo, pos + p)
            else if st.db.multi then UnexpectedEnd(env, st.db.ran, st.before, pos + p)
            else Done(Ok, st.db.ran, pos + p)
  {
    hide ParseItem, Print;
    EntryCut(env, e, p);
    if e.Stamp? { LoopEnd(env, pos + p, st); }
  }

  ghost predicate Repairs(env: Env) { env.loadTruncated && env.canTruncate }

  /** How many entries a load leaves of a log with these whole entries. */
  function Left(env: Env, whole: seq<Entry>, tornCommand: bool): (n: nat)
    ensures n <= |whole|
  {
    if tornCommand then UpTo(whole) else if Open(env, whole) then Before(env, whole) else |whole|
  }

  /** The loop on a cut file. */
  lemma LoopOnCut(env: Env, es: seq<Entry>, k: nat)
    requires Good(env, es) && Repairs(env) && 0 < k <= |PrintAll(es)|
    ensures var whole := es[..Whole(es, k)]; var r := Loop(env, PrintAll(es)[..k], 0, START);
      && r.ran == Meaning(env, whole)
      && (TornCommand(es, k) || Open(env, whole) ==>
          r.status == Truncated && r.size == |PrintAll(whole[..Left(env, whole, TornCommand(es, k))])|)
      && (!TornCommand(es, k) && !Open(env, whole) ==> r.status == Ok && r.size == k)
  {
    hide Print, PrintAll, Loop, Mark, Play, GoodEntry, Whole, UpTo, Before;
    CutShape(es, k);
    var m := Whole(es, k);
    var whole := es[..m];
    var st, pos := Mark(env, START, whole, 0), |PrintAll(whole)|;
    MarkOffsets(env, whole);
    MarkBehind(env, START, whole, 0);
    if Torn(es, k) {
      LoopWhole(env, whole, Print(es[m])[..k - pos], 0, START);
      LoopCut(env, es[m], k - pos, pos, st);
    } else {
      assert PrintAll(whole) + [] == PrintAll(whole);
      LoopWhole(env, whole, [], 0, START);
      LoopEnd(env, pos, st);
    }
  }

  /** Loading a log cut at any byte runs what its whole commands mean, and leaves whole commands. */
  lemma CutLoads(env: Env, es: seq<Entry>, k: nat)
    requires Good(env, es) && Repairs(env) && 0 < k <= |PrintAll(es)|
    ensures var whole := es[..Whole(es, k)];
      Load(env, PrintAll(es)[..k]) ==
        if TornCommand(es, k) || Open(env, whole)
        then Outcome(Truncated, Meaning(env, whole), PrintAll(whole[..Left(env, whole, TornCommand(es, k))]))
        else Outcome(Ok, Meaning(env, whole), PrintAll(es)[..k])
  {
    hide PrintAll, Loop, Play, Whole, Left, Meaning, GoodEntry;
    var s := PrintAll(es)[..k];
    var whole := es[..Whole(es, k)];
    FirstChar(es, k);
    LoopOnCut(env, es, k);
    assert s[..k] == s;
    var n := Left(env, whole, TornCommand(es, k));
    CutShape(es, k);
    PrintTake(whole, n);
    assert PrintAll(whole) == s[..|PrintAll(whole)|];
    assert PrintAll(whole[..n]) == s[..|PrintAll(whole[..n])|];
  }

  /** Where a cut file may not be truncated, exactly those cuts fail, and no byte of the file is touched. */
  lemma CutFails(env: Env, es: seq<Entry>, k: nat)
    requires Good(env, es) && !Repairs(env) && 0 < k <= |PrintAll(es)|
    ensures var whole := es[..Whole(es, k)];
      Load(env, PrintAll(es)[..k]) ==
        Outcome(if TornCommand(es, k) || Open(env, whole) then Failed else Ok, Meaning(env, whole), PrintAll(es)[..k])
  {
    hide Print, PrintAll, Loop, Mark, Play, GoodEntry, Whole, UpTo, Before;
    FirstChar(es, k);
    CutShape(es, k);
    var m, s := Whole(es, k), PrintAll(es)[..k];
    var whole := es[..m];
    var st, pos := Mark(env, START, whole, 0), |PrintAll(whole)|;
    MarkBehind(env, START, whole, 0);
    assert s[..k] == s;
    if Torn(es, k) {
      LoopWhole(env, whole, Print(es[m])[..k - pos], 0, START);
      LoopCut(env, es[m], k - pos, pos, st);
    } else {
      assert PrintAll(whole) + [] == PrintAll(whole);
      LoopWhole(env, whole, [], 0, START);
      LoopEnd(env, pos, st);
    }
  }

  /** A command that the server does not know ends the load with a failure, whatever follows, and the file stays. */
  lemma UnknownFails(env: Env, es: seq<Entry>, c: Cmd, rest: string)
    requires Good(env, es) && Loggable(c) && env.kind(c) == Unknown
    ensures var file := PrintAll(es) + (Encode(c) + rest);
      SIGNATURE <= file || Load(env, file) == Outcome(Failed, Meaning(env, es), file)
  {
    hide Print, PrintAll, Mark, Play, GoodEntry, Encode, Loggable, ParseItem;
    var file, pos := PrintAll(es) + (Encode(c) + rest), |PrintAll(es)|;
    MarkBehind(env, START, es, 0);
    LoopWhole(env, es, Encode(c) + rest, 0, START);
    CommandWhole(c, rest);
    assert file != [] by { NotEmpty(c, rest); }
    assert file[..|file|] == file;
  }

  /** Neither does the loader go on, nor is anything cut off, where something else than an entry begins. */
  lemma GarbageFails(env: Env, es: seq<Entry>, rest: string)
    requires Good(env, es) && rest != [] && rest[0] != '*' && rest[0] != '#'
    ensures var file := PrintAll(es) + rest;
      SIGNATURE <= file || Load(env, file) == Outcome(Failed, Meaning(env, es), file)
  {
    hide Print, PrintAll, Mark, Play, GoodEntry, ParseItem;
    var file := PrintAll(es) + rest;
    MarkBehind(env, START, es, 0);
    LoopWhole(env, es, rest, 0, START);
    GarbageIsBad(rest);
    assert file != [] && file[..|file|] == file;
  }

  lemma GarbageIsBad(rest: string)
    requires rest != [] && rest[0] != '*' && rest[0] != '#'
    ensures ParseItem(rest) == Bad
  {}

  lemma NotEmpty(c: Cmd, rest: string)
    requires Loggable(c)
    ensures Encode(c) + rest != []
  {
    CommandWhole(c, rest);
    assert ParseItem([]) == End;
  }

  /** A log of whole entries runs what it means, and is left as it is unless a transaction is open. */
  lemma WholeLoads(env: Env, es: seq<Entry>)
    requires Good(env, es) && Repairs(env)
    ensures Load(env, PrintAll(es)) == Outcome(
      if es == [] then Empty else if Open(env, es) then Truncated else Ok,
      Meaning(env, es), PrintAll(es[..Left(env, es, false)]))
  {
    hide Print, PrintAll, GoodEntry, UpTo, Before;
    var k := |PrintAll(es)|;
    assert es[..|es|] == es;
    if es == [] {
      PrintNothing();
    } else {
      AllWhole(es);
      assert PrintAll(es)[..k] == PrintAll(es);
      CutLoads(env, es, k);
    }
  }

  lemma {:induction false} AllWhole(es: seq<Entry>)
    ensures Whole(es, |PrintAll(es)|) == |es| && (es != [] ==> PrintAll(es) != [])
    decreases |es|
  {
    hide Print, PrintAll;
    if es == [] {
      PrintNothing();
    } else {
      PrintFirst(es);
      PrintedIsSomething(es[0]);
      AllWhole(es[1..]);
    }
  }

  lemma PrintedIsSomething(e: Entry)
    ensures Print(e) != []
  {}

  // ----- loading again

  /** Entries after the last command mean nothing. */
  lemma {:induction false} UpToMeans(env: Env, es: seq<Entry>)
    ensures Play(env, EMPTY, es[..UpTo(es)]) == Play(env, EMPTY, es)
    decreases |es|
  {
    hide Process, Play;
    if es == [] || es[|es| - 1].Do? {
      assert es[..|es|] == es;
    } else {
      var front := es[..|es| - 1];
      UpToMeans(env, front);
      assert front[..UpTo(front)] == es[..UpTo(front)];
      PlaySnoc(env, EMPTY, es);
    }
  }

  /** Dropping an open transaction drops nothing that ran. */
  lemma {:induction false} BeforeMeans(env: Env, es: seq<Entry>)
    requires Open(env, es)
    ensures Meaning(env, es[..Before(env, es)]) == Meaning(env, es)
    decreases |es|
  {
    hide Play;
    PlayNothing(env, EMPTY);
    if es != [] {
      var front, e := es[..|es| - 1], es[|es| - 1];
      PlaySnoc(env, EMPTY, es);
      if e.Do? && env.kind(e.cmd) == Multi {
        UpToMeans(env, front);
        assert front[..UpTo(front)] == es[..UpTo(front)];
      } else {
        BeforeMeans(env, front);
        assert front[..Before(env, front)] == es[..Before(env, front)];
      }
    }
  }

  lemma PlayNothing(env: Env, d: Db)
    ensures Play(env, d, []) == d
  {}

  lemma LeftMeans(env: Env, whole: seq<Entry>, torn: bool)
    ensures Meaning(env, whole[..Left(env, whole, torn)]) == Meaning(env, whole)
  {
    hide Play;
    UpToMeans(env, whole);
    if Open(env, whole) { BeforeMeans(env, whole); }
    assert whole[..|whole|] == whole;
  }

  /** The file a load leaves loads again to the same commands. */
  lemma ReloadRunsTheSame(env: Env, es: seq<Entry>, k: nat)
    requires Good(env, es) && Repairs(env) && 0 < k <= |PrintAll(es)|
    ensures var r := Load(env, PrintAll(es)[..k]);
      Load(env, r.file).ran == r.ran == Meaning(env, es[..Whole(es, k)])
  {
    hide PrintAll, Load, Whole, Left, Meaning, GoodEntry, Open;
    CutLoads(env, es, k);
    var whole := es[..Whole(es, k)];
    if TornCommand(es, k) || Open(env, whole) {
      var n := Left(env, whole, TornCommand(es, k));
      LeftMeans(env, whole, TornCommand(es, k));
      WholeLoads(env, whole[..n]);
    }
  }

  // ----- when the file is settled

  /** No MULTI inside a transaction: the server refuses those, so none is ever logged. */
  ghost predicate Flat(env: Env, es: seq<Entry>) {
    forall i :: 0 <= i < |es| && es[i].Do? && env.kind(es[i].cmd) == Multi ==> !Open(env, es[..i])
  }

  lemma FlatTake(env: Env, es: seq<Entry>, n: nat)
    requires Flat(env, es) && n <= |es|
    ensures Flat(env, es[..n])
  {
    hide Open;
    forall i | 0 <= i < n && es[i].Do? && env.kind(es[i].cmd) == Multi ensures !Open(env, es[..n][..i]) {
      assert es[..n][..i] == es[..i];
    }
  }

  /** Going back to before the MULTI leaves no transaction open. */
  lemma {:induction false} BeforeCloses(env: Env, es: seq<Entry>)
    requires Open(env, es) && Flat(env, es)
    ensures !Open(env, es[..Before(env, es)])
    decreases |es|
  {
    hide Play;
    PlayNothing(env, EMPTY);
    if es != [] {
      var front, e := es[..|es| - 1], es[|es| - 1];
      PlaySnoc(env, EMPTY, es);
      if e.Do? && env.kind(e.cmd) == Multi {
        UpToMeans(env, front);
        assert front[..UpTo(front)] == es[..UpTo(front)];
      } else {
        FlatTake(env, es, |es| - 1);
        BeforeCloses(env, front);
        assert front[..Before(env, front)] == es[..Before(env, front)];
      }
    }
  }

  /** What a load leaves has a transaction open exactly when the cut went through one of its commands. */
  lemma LeftOpen(env: Env, whole: seq<Entry>, torn: bool)
    requires Flat(env, whole)
    ensures Open(env, whole[..Left(env, whole, torn)]) <==> torn && Open(env, whole)
  {
    hide Play, UpTo, Before;
    UpToMeans(env, whole);
    if Open(env, whole) { BeforeCloses(env, whole); }
    assert whole[..|whole|] == whole;
  }

  ghost predicate Settled(env: Env, file: string) {
    var r := Load(env, file); (r.status == Ok || r.status == Empty) && r.file == file
  }

  lemma WholeSettles(env: Env, es: seq<Entry>)
    requires Good(env, es) && Repairs(env) && Flat(env, es)
    ensures Settled(env, Load(env, PrintAll(es)).file)
  {
    hide Load, PrintAll, Play, Flat, GoodEntry, UpTo, Before;
    WholeLoads(env, es);
    var n := Left(env, es, false);
    var left := es[..n];
    LeftOpen(env, es, false);
    WholeLoads(env, left);
    assert left[..|left|] == left;
  }

  /** Two loads are enough: after that the file loads without complaint and is not touched. */
  lemma TwoLoadsSettle(env: Env, es: seq<Entry>, k: nat)
    requires Good(env, es) && Repairs(env) && Flat(env, es) && 0 < k <= |PrintAll(es)|
    ensures var first := Load(env, PrintAll(es)[..k]).file;
      Settled(env, Load(env, first).file) && (!TornCommand(es, k) ==> Settled(env, first))
  {
    hide Load, PrintAll, Play, Flat, GoodEntry, UpTo, Before, Whole;
    CutLoads(env, es, k);
    var whole := es[..Whole(es, k)];
    FlatTake(env, es, Whole(es, k));
    if TornCommand(es, k) || Open(env, whole) {
      var n := Left(env, whole, TornCommand(es, k));
      var left := whole[..n];
      FlatTake(env, whole, n);
      WholeSettles(env, left);
      LeftOpen(env, whole, TornCommand(es, k));
      WholeLoads(env, left);
      assert left[..|left|] == left;
    }
  }

  // ----- appending after a load

  /** Loading the file with `more` appended runs what ran and then what `more` means. */
  ghost predicate Replays(env: Env, file: string, ran: seq<Cmd>, more: seq<Entry>) {
    Load(env, file + PrintAll(more)).ran == ran + Meaning(env, more)
  }

  lemma {:induction false} ClosedQueue(env: Env, es: seq<Entry>)
    requires !Open(env, es)
    ensures Play(env, EMPTY, es).queue == []
    decreases |es|
  {
    hide Play;
    PlayNothing(env, EMPTY);
    if es != [] {
      PlaySnoc(env, EMPTY, es);
      var front := es[..|es| - 1];
      if !Open(env, front) { ClosedQueue(env, front); }
    }
  }

  /** Appending to a closed log of whole entries. */
  lemma AppendToClosed(env: Env, es: seq<Entry>, more: seq<Entry>)
    requires Good(env, es) && Good(env, more) && Repairs(env) && !Open(env, es)
    ensures Replays(env, PrintAll(es), Meaning(env, es), more)
  {
    hide Load, PrintAll, Play, GoodEntry;
    PrintConcat(es, more);
    WholeLoads(env, es + more);
    PlayConcat(env, EMPTY, es, more);
    ClosedQueue(env, es);
    PlayPrefix(env, Play(env, EMPTY, es), more);
  }

  ghost predicate PlainCommand(env: Env, c: Cmd) { Loggable(c) && env.kind(c) == Plain }

  lemma PlayOne(env: Env, d: Db, c: Cmd)
    ensures Play(env, d, [Do(c)]) == Process(env, d, c)
  {
    hide Process;
    assert [Do(c)][1..] == [];
  }

  /** A command appended to an open transaction is only queued. */
  lemma AppendToOpen(env: Env, es: seq<Entry>, c: Cmd)
    requires Good(env, es) && Repairs(env) && Open(env, es) && PlainCommand(env, c)
    ensures !Replays(env, PrintAll(es), Meaning(env, es), [Do(c)])
  {
    hide Load, PrintAll, Play, Loggable;
    var more := [Do(c)];
    PrintConcat(es, more);
    assert Good(env, es + more);
    WholeLoads(env, es + more);
    PlayConcat(env, EMPTY, es, more);
    PlayOne(env, EMPTY, c);
    PlayOne(env, Play(env, EMPTY, es), c);
    assert Meaning(env, more) == [c];
    assert |Meaning(env, es) + [c]| == |Meaning(env, es)| + 1;
  }

  lemma SwallowChars(part: string, n: nat)
    requires NoNewline(part) && |part| < 30 && n < SIZE_LIMIT
    ensures var x := part + ['*'] + Digits(n) + ['\r']; NoNewline(x) && |x| < 60
  {
    hide Digits;
    ShortNumbers(n);
    DigitsAreDigits(n);
  }

  /** A line that begins with part of an annotation goes to the end of the header behind it. */
  lemma SwallowLine(part: string, n: nat, rest: string, s: string)
    requires NoNewline(part) && 0 < |part| < 30 && part[0] == '#' && n < SIZE_LIMIT
    requires s == (part + ['*'] + Digits(n) + ['\r']) + ['\n'] + rest
    ensures ParseItem(s) == Annotation(rest)
  {
    hide Digits, LineLength, ParseArgs, Atoi, NoNewline;
    var x := part + ['*'] + Digits(n) + ['\r'];
    SwallowChars(part, n);
    LineWhole(x, rest, LINE_MAX - 1);
    assert s[|x| + 1..] == rest;
    assert s[0] == part[0];
  }

  lemma HeadersGroup(part: string, c: Cmd)
    ensures part + Encode(c) == (part + ['*'] + Digits(|c|) + ['\r']) + ['\n'] + EncodeArgs(c)
  {
    hide Digits, EncodeArgs;
    var a, b, d := ['*'], Digits(|c|), EncodeArgs(c);
    Assoc(part, a + b + CRLF, d);
    Regroup(part, a, b, CRLF);
    assert CRLF == ['\r'] + ['\n'];
    Assoc(part + a + b, ['\r'], ['\n']);
  }

  lemma Assoc(x: string, y: string, z: string)
    ensures x + (y + z) == x + y + z
  {}

  /** A torn annotation swallows the header of the command that is appended to it. */
  lemma StampSwallows(ts: nat, p: nat, c: Cmd)
    requires ts < SIZE_LIMIT && 0 < p < |Print(Stamp(ts))| && Loggable(c)
    ensures ParseItem(Print(Stamp(ts))[..p] + Encode(c)) == Annotation(EncodeArgs(c))
  {
    hide *;
    var part := Print(Stamp(ts))[..p];
    StampCut(ts, p);
    HeadersGroup(part, c);
    LoggableSize(c);
    SwallowLine(part, |c|, EncodeArgs(c), part + Encode(c));
  }

  lemma LoggableSize(c: Cmd)
    requires Loggable(c)
    ensures |c| < SIZE_LIMIT
  {}

  lemma ArgsAreNoCommand(c: Cmd)
    requires Loggable(c)
    ensures ParseItem(EncodeArgs(c)) == Bad
  {
    hide Digits, ParseArgs, Atoi;
    assert EncodeArgs(c) == EncodeArg(c[0]) + EncodeArgs(c[1..]);
    assert EncodeArgs(c)[0] == '$';
  }

  lemma SwallowLoop(env: Env, whole: seq<Entry>, ts: nat, p: nat, c: Cmd)
    requires Good(env, whole) && ts < SIZE_LIMIT && 0 < p < |Print(Stamp(ts))| && Loggable(c)
    ensures Loop(env, PrintAll(whole) + (Print(Stamp(ts))[..p] + Encode(c)), 0, START).ran == Meaning(env, whole)
  {
    hide PrintAll, Play, Loggable, ParseItem, Mark, Print, Encode, EncodeArgs, GoodEntry;
    var rest := Print(Stamp(ts))[..p] + Encode(c);
    LoopWhole(env, whole, rest, 0, START);
    MarkBehind(env, START, whole, 0);
    StampSwallows(ts, p, c);
    ArgsAreNoCommand(c);
  }

  lemma PrintOne(e: Entry)
    ensures PrintAll([e]) == Print(e)
  {
    hide Print;
    assert [e][1..] == [];
  }

  lemma AppendToTornStamp(env: Env, es: seq<Entry>, k: nat, c: Cmd)
    requires Good(env, es) && Repairs(env) && 0 < k <= |PrintAll(es)|
    requires TornStamp(es, k) && PlainCommand(env, c)
    ensures !Replays(env, PrintAll(es)[..k], Meaning(env, es[..Whole(es, k)]), [Do(c)])
  {
    hide Loop, PrintAll, Play, Loggable, Print, Whole;
    CutShape(es, k);
    var m := Whole(es, k);
    var whole := es[..m];
    var p := k - |PrintAll(whole)|;
    var part := Print(es[m])[..p];
    var file := PrintAll(es)[..k] + PrintAll([Do(c)]);
    assert GoodEntry(env, es[m]);
    SwallowLoop(env, whole, es[m].ts, p, c);
    PrintOne(Do(c));
    PrintDo(c);
    assert file == PrintAll(whole) + (part + Encode(c));
    FirstChar(es, k);
    assert file[0] == PrintAll(es)[0];
    PlayOne(env, EMPTY, c);
    assert Meaning(env, [Do(c)]) == [c];
    assert |Meaning(env, whole) + [c]| == |Meaning(env, whole)| + 1;
  }

  lemma PrintDo(c: Cmd)
    ensures Print(Do(c)) == Encode(c)
  {}

  /** The cut went through an annotation and the load did not remove it. */
  ghost predicate KeepsTornStamp(env: Env, es: seq<Entry>, k: nat) {
    TornStamp(es, k) && !Open(env, es[..Whole(es, k)])
  }

  /** The load left a transaction open. */
  ghost predicate KeepsTransaction(env: Env, es: seq<Entry>, k: nat) {
    var whole := es[..Whole(es, k)];
    Open(env, whole[..Left(env, whole, TornCommand(es, k))])
  }

  lemma AppendReplays(env: Env, es: seq<Entry>, k: nat, more: seq<Entry>)
    requires Good(env, es) && Repairs(env) && 0 < k <= |PrintAll(es)| && Good(env, more)
    requires !KeepsTornStamp(env, es, k) && !KeepsTransaction(env, es, k)
    ensures var r := Load(env, PrintAll(es)[..k]); Replays(env, r.file, r.ran, more)
  {
    hide Load, PrintAll, Play, GoodEntry, Whole, UpTo, Before, Replays, Meaning, Open;
    CutLoads(env, es, k);
    CutShape(es, k);
    var whole := es[..Whole(es, k)];
    var left := whole[..Left(env, whole, TornCommand(es, k))];
    LeftMeans(env, whole, TornCommand(es, k));
    AppendToClosed(env, left, more);
    assert whole[..|whole|] == whole;
  }

  lemma AppendLost(env: Env, es: seq<Entry>, k: nat, plain: Cmd)
    requires Good(env, es) && Repairs(env) && 0 < k <= |PrintAll(es)| && PlainCommand(env, plain)
    requires KeepsTornStamp(env, es, k) || KeepsTransaction(env, es, k)
    ensures var r := Load(env, PrintAll(es)[..k]); !Replays(env, r.file, r.ran, [Do(plain)])
  {
    hide Load, PrintAll, Play, GoodEntry, Whole, UpTo, Before, Replays, Meaning, Open, PlainCommand;
    CutLoads(env, es, k);
    var whole := es[..Whole(es, k)];
    if KeepsTornStamp(env, es, k) {
      AppendToTornStamp(env, es, k, plain);
    } else {
      var left := whole[..Left(env, whole, TornCommand(es, k))];
      LeftMeans(env, whole, TornCommand(es, k));
      assert whole[..|whole|] == whole;
      AppendToOpen(env, left, plain);
    }
  }

  /**
   Commands logged after a load are replayed by the next load, whatever they are, exactly when the first load
   left neither a torn annotation nor an open transaction in the file. For a flat log the second happens exactly
   when the cut went through a command inside a transaction (`LeftOpen`).
   */
  lemma AppendReplaysIff(env: Env, es: seq<Entry>, k: nat, plain: Cmd)
    requires Good(env, es) && Repairs(env) && 0 < k <= |PrintAll(es)| && PlainCommand(env, plain)
    ensures var r := Load(env, PrintAll(es)[..k]);
      (forall more :: Good(env, more) ==> Replays(env, r.file, r.ran, more))
      <==> !KeepsTornStamp(env, es, k) && !KeepsTransaction(env, es, k)
  {
    hide Load, PrintAll, Whole, Replays, KeepsTornStamp, KeepsTransaction;
    var r := Load(env, PrintAll(es)[..k]);
    if KeepsTornStamp(env, es, k) || KeepsTransaction(env, es, k) {
      AppendLost(env, es, k, plain);
      assert Good(env, [Do(plain)]);
    } else {
      forall more | Good(env, more) ensures Replays(env, r.file, r.ran, more) {
        AppendReplays(env, es, k, more);
      }
    }
  }

  /** A log cut inside its second command, with a transaction open; and one cut inside an annotation. */
  lemma AppendLostExamples(env: Env, multi: Cmd, write: Cmd)
    requires Loggable(multi) && Loggable(write) && env.kind(multi) == Multi && env.kind(write) == Plain
    ensures KeepsTransaction(env, [Do(multi), Do(write)], |Encode(multi)| + 1)
    ensures KeepsTornStamp(env, [Stamp(7)], 1)
  {
    hide Encode;
    var es := [Do(multi), Do(write)];
    var k := |Encode(multi)| + 1;
    assert es[1..] == [Do(write)];
    EncodedIsLonger(write);
    assert Whole(es[1..], 1) == 0;
    assert Whole(es, k) == 1;
    assert es[..1] == [Do(multi)];
    PrintOne(Do(multi));
    assert TornCommand(es, k);
    var whole := [Do(multi)];
    assert Left(env, whole, true) == 1 && whole[..1] == whole;
    PlayOne(env, EMPTY, multi);
    var stamp := [Stamp(7)];
    assert Whole(stamp, 1) == 0;
    assert stamp[..0] == [];
  }

  lemma EncodedIsLonger(c: Cmd)
    ensures |Encode(c)| > 1
  {}
}
