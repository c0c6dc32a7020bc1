/**
 Loading one append only file (`loadSingleAppendOnlyFile`): the commands of the file are
 run one by one, a transaction runs at its EXEC, and a file that ends too early is cut
 back to its last good offset. A log is a sequence of entries, printed commands and
 timestamp annotations. The file may have been cut at any byte.
 */
module AofLoader {
  import opened AofLog

  // ----- what a command does to the loading client

  /** What the command table says of a command: `Unknown` is a failed look-up. */
  datatype Kind = Plain | Multi | Exec | Unknown

  /** The command table, the `aof-load-truncated` option, and whether truncating the file works. */
  datatype Env = Env(kind: Cmd -> Kind, loadTruncated: bool, canTruncate: bool)

  /** The commands run against the dataset so far and the transaction the fake client has open. */
  datatype Db = Db(ran: seq<Cmd>, multi: bool, queue: seq<Cmd>)

  const EMPTY := Db([], false, [])

  function Process(env: Env, d: Db, c: Cmd): Db {
    var k := env.kind(c);
    if d.multi && k != Exec then d.(queue := d.queue + [c])
    else if k == Multi then Db(d.ran, true, [])
    else if k == Exec then (if d.multi then Db(d.ran + d.queue, false, []) else d)
    else d.(ran := d.ran + [c])
  }

  // ----- the loader

  datatype Status = Ok | Truncated | Failed | Empty | Rdb

  /** The client, `valid_up_to` and `valid_before_multi`. */
  datatype At = At(db: Db, upTo: nat, before: nat)

  function Advance(env: Env, st: At, c: Cmd, end: nat): At {
    At(Process(env, st.db, c),
       if env.loadTruncated then end else st.upTo,
       if env.kind(c) == Multi then st.upTo else st.before)
  }

  /** How loading ended and the size of the file afterwards. */
  datatype Done = Done(status: Status, ran: seq<Cmd>, size: nat)

  /** The file ended where it should not: cut it at `upTo` if that is allowed. */
  function UnexpectedEnd(env: Env, ran: seq<Cmd>, upTo: nat, size: nat): Done {
    if env.loadTruncated && env.canTruncate then Done(Truncated, ran, upTo) else Done(Failed, ran, size)
  }

  /** The loading loop from offset `pos`, where `rest` is still to be read. */
  function Loop(env: Env, rest: string, pos: nat, st: At): (r: Done)
    requires st.upTo <= pos && st.before <= pos
    ensures r.size <= pos + |rest|
    decreases |rest|
  {
    var size := pos + |rest|;
    match ParseItem(rest)
    case End =>
      if st.db.multi then UnexpectedEnd(env, st.db.ran, st.before, size) else Done(Ok, st.db.ran, size)
    case Annotation(after) => Loop(env, after, size - |after|, st)
    case Short => UnexpectedEnd(env, st.db.ran, st.upTo, size)
    case Bad => Done(Failed, st.db.ran, size)
    case Command(c, after) =>
      if env.kind(c) == Unknown then Done(Failed, st.db.ran, size)
      else Loop(env, after, size - |after|, Advance(env, st, c, size - |after|))
  }

  datatype Outcome = Outcome(status: Status, ran: seq<Cmd>, file: string)

  const SIGNATURE := "REDIS"

  function Load(env: Env, s: string): Outcome {
    if s == [] then Outcome(Empty, [], s)
    else if SIGNATURE <= s then Outcome(Rdb, [], s)
    else var r := Loop(env, s, 0, At(EMPTY, 0, 0)); Outcome(r.status, r.ran, s[..r.size])
  }

  // ----- the loader as a program

  /** The inner loop: `argc` arguments. */
  method ReadArgs(s: string, argc: nat) returns (r: Args)
    ensures r == ParseArgs(s, argc)
  {
    hide ParseArg;
    var argv: seq<string>, rest := [], s;
    for j := 0 to argc
      invariant ParseArgs(s, argc) == Prepend(argv, ParseArgs(rest, argc - j))
    {
      var a := ParseArg(rest);
      match a {
        case ShortArg => return ShortArgs;
        case BadArg => return BadArgs;
        case Arg(value, after) =>
          PrependOne(argv, value, ParseArgs(after, argc - j - 1));
          argv := argv + [value];
          rest := after;
      }
    }
    r := Args(argv, rest);
  }

  ghost function Prepend(front: seq<string>, r: Args): Args {
    if r.Args? then Args(front + r.values, r.after) else r
  }

  lemma PrependOne(front: seq<string>, v: string, r: Args)
    ensures Prepend(front, Prepend([v], r)) == Prepend(front + [v], r)
  {
    if r.Args? { assert front + ([v] + r.values) == front + [v] + r.values; }
  }

  /**
   One turn of the loading loop, up to the command look-up. A printed command is read back and what follows it is
   left; a part of one is a short read; nothing is the end.
   */
  method ReadItem(s: string) returns (item: Item)
    ensures item == ParseItem(s) && (item == End <==> s == [])
    ensures forall c, rest | Loggable(c) && s == Encode(c) + rest :: item == Command(c, rest)
    ensures forall c, k | Loggable(c) && 0 < k < |Encode(c)| && s == Encode(c)[..k] :: item == Short
  {
    forall c, rest | Loggable(c) && s == Encode(c) + rest ensures ParseItem(s) == Command(c, rest) {
      CommandWhole(c, rest);
    }
    forall c, k | Loggable(c) && 0 < k < |Encode(c)| && s == Encode(c)[..k] ensures ParseItem(s) == Short {
      CommandCut(c, k);
    }
    hide ParseArgs, Atoi, Encode, Loggable;
    var line := Fgets(s);
    if line.Eof? { return End; }
    var text, rest := line.text, line.rest;
    if text[0] == '#' { return Annotation(rest); }
    if text[0] != '*' { return Bad; }
    if |text| == 1 { return if rest == [] then Short else Bad; }
    if text[1] as int == 0 { return if rest == [] && text[|text| - 1] != '\n' then Short else Bad; }
    var argc := Atoi(text[1..]);
    if argc < 1 { return Bad; }
    var args := ReadArgs(rest, argc);
    match args {
      case ShortArgs => item := Short;
      case BadArgs => item := Bad;
      case Args(values, after) => item := Command(values, after);
    }
  }

  /** Outside a transaction nothing is queued. */
  predicate Orderly(d: Db) { !d.multi ==> d.queue == [] }

  /** Commands that run or wait to run; MULTI and EXEC only begin and end a transaction. */
  predicate Counts(env: Env, d: Db, c: Cmd) { env.kind(c) != Exec && (env.kind(c) == Multi ==> d.multi) }

  /**
   Running one command: inside a transaction nothing runs before EXEC, and no command is lost, doubled or overtaken.
   */
  method RunCommand(env: Env, d: Db, c: Cmd) returns (r: Db)
    ensures r == Process(env, d, c)
    ensures d.ran <= r.ran && (d.multi && env.kind(c) != Exec ==> r.ran == d.ran && r.multi)
    ensures env.kind(c) == Exec && d.multi ==> r == Db(d.ran + d.queue, false, [])
    ensures env.kind(c) == Multi && !d.multi ==> r == Db(d.ran, true, [])
    ensures env.kind(c) == Plain && !d.multi ==> r == d.(ran := d.ran + [c])
    ensures Orderly(d) ==> Orderly(r) && r.ran + r.queue == d.ran + d.queue + if Counts(env, d, c) then [c] else []
  {
    var ran, multi, queue := d.ran, d.multi, d.queue;
    var kind := env.kind(c);
    if multi && kind != Exec {
      queue := queue + [c];
    } else if kind == Multi {
      multi, queue := true, [];
    } else if kind == Exec {
      if multi { ran, multi, queue := ran + queue, false, []; }
    } else {
      ran := ran + [c];
    }
    r := Db(ran, multi, queue);
  }

  /** `loadSingleAppendOnlyFile`, with the file as a string. */
  method LoadSingle(env: Env, file: string) returns (status: Status, ran: seq<Cmd>, left: string)
    ensures Outcome(status, ran, left) == Load(env, file)
  {
    hide ParseItem, Process;
    if file == [] { return Empty, [], file; }
    if SIGNATURE <= file { return Rdb, [], file; }
    var rest := file;
    var client := EMPTY;
    var validUpTo: nat, validBeforeMulti: nat := 0, 0;
    ghost var want := Loop(env, file, 0, At(EMPTY, 0, 0));
    var eof := false;
    assert file[..|file|] == file;
    while !eof
      invariant |rest| <= |file| && validUpTo <= |file| - |rest| && validBeforeMulti <= |file| - |rest|
      invariant !eof ==> want == Loop(env, rest, |file| - |rest|, At(client, validUpTo, validBeforeMulti))
      invariant eof ==> want == UnexpectedEnd(env, client.ran, validUpTo, |file|)
      decreases !eof, |rest|
    {
      var item := ReadItem(rest);
      match item {
        case End =>
          if !client.multi { return Ok, client.ran, file; }
          validUpTo, eof := validBeforeMulti, true;
        case Annotation(after) => rest := after;
        case Short => eof := true;
        case Bad => return Failed, client.ran, file;
        case Command(c, after) =>
          if env.kind(c) == Unknown { return Failed, client.ran, file; }
          if env.kind(c) == Multi { validBeforeMulti := validUpTo; }
          client := RunCommand(env, client, c);
          rest := after;
          if env.loadTruncated { validUpTo := |file| - |rest|; }
      }
    }
    if env.loadTruncated && env.canTruncate { return Truncated, client.ran, file[..validUpTo]; }
    return Failed, client.ran, file;
  }
}
