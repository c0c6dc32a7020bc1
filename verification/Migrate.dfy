/**
 MIGRATE as a protocol (cluster.c): keys are written to the target as RESTORE commands, and
 each is deleted here when its reply says that it was stored. The connection may fail at any
 point; a connection is kept for the next command, with the database that was selected on it.
 */
module Migrate {

  type Key = string
  type Val = string
  type Db = map<Key, Val>

  /** What is to be sent. The values are those the keys had when the command looked them up. */
  datatype Plan = Plan(dbid: int, keys: seq<Key>, vals: seq<Val>, replace: bool, copy: bool, password: bool)

  /** A cached connection: the database this side believes to be selected, or -1, and the one that is. */
  datatype Conn = Conn(last: int, actual: nat)

  const FRESH := Conn(-1, 0)

  /** The clock of the command, which stands still while it runs, and when keys expire. */
  datatype Clock = Clock(now: int, when: map<Key, nat>)

  /**
   How an attempt goes: whether the connection is made, whether all is written, how many RESTORE commands the
   target carries out and which it refuses, whether it accepts AUTH and SELECT, how many reply lines arrive, and
   whether a failure is a timeout.
   */
  datatype Try = Try(connects: bool, wrote: bool, processed: nat, refuses: seq<bool>,
                     authOk: bool, selectOk: bool, heard: nat, timeout: bool)

  // ----- the target

  /** Is the RESTORE for the key at `j` carried out on this database? */
  predicate Stores(p: Plan, t: Try, db: Db, j: nat)
    requires j < |p.keys|
  {
    !(j < |t.refuses| && t.refuses[j]) && (p.replace || p.keys[j] !in db)
  }

  /** The target's database after the first `n` RESTORE commands. */
  function Restored(p: Plan, t: Try, db: Db, n: nat): Db
    requires |p.keys| == |p.vals| && n <= |p.keys|
  {
    if n == 0 then db
    else
      var before := Restored(p, t, db, n - 1);
      if Stores(p, t, before, n - 1) then before[p.keys[n - 1] := p.vals[n - 1]] else before
  }

  /** The reply to the RESTORE at `j` is not an error. */
  predicate Acked(p: Plan, t: Try, db: Db, j: nat)
    requires |p.keys| == |p.vals| && j < |p.keys|
  {
    Stores(p, t, Restored(p, t, db, j), j)
  }

  /** The keys carry one value each. */
  ghost predicate OneValue(p: Plan, source: Db) {
    |p.keys| == |p.vals| && forall j :: 0 <= j < |p.keys| ==> p.keys[j] in source && p.vals[j] == source[p.keys[j]]
  }

  /** What the target has of the source it keeps. */
  lemma {:induction false} RestoresKeep(p: Plan, t: Try, source: Db, db: Db, n: nat, m: nat, k: Key)
    requires OneValue(p, source) && n <= m <= |p.keys| && k in source
    requires k in Restored(p, t, db, n) && Restored(p, t, db, n)[k] == source[k]
    ensures k in Restored(p, t, db, m) && Restored(p, t, db, m)[k] == source[k]
    decreases m
  {
    hide Stores;
    if n < m { RestoresKeep(p, t, source, db, n, m - 1, k); }
  }

  /** What is acknowledged is there. */
  lemma AckedIsThere(p: Plan, t: Try, source: Db, db: Db, j: nat, m: nat)
    requires OneValue(p, source) && j < m <= |p.keys| && Acked(p, t, db, j)
    ensures p.keys[j] in Restored(p, t, db, m) && Restored(p, t, db, m)[p.keys[j]] == source[p.keys[j]]
  {
    RestoresKeep(p, t, source, db, j + 1, m, p.keys[j]);
  }

  /** The target stored the key at `j` before, or among the first `n`. */
  lemma {:induction false} RestoredHas(p: Plan, t: Try, db: Db, n: nat, k: Key)
    requires |p.keys| == |p.vals| && n <= |p.keys|
    ensures k in Restored(p, t, db, n) <==>
      k in db || exists i :: 0 <= i < n && p.keys[i] == k && !(i < |t.refuses| && t.refuses[i])
    decreases n
  {
    if n > 0 { RestoredHas(p, t, db, n - 1, k); }
  }

  /** RESTORE succeeds unless the target refuses it or, without REPLACE, the key is there already. */
  lemma AckedIff(p: Plan, t: Try, db: Db, j: nat)
    requires |p.keys| == |p.vals| && j < |p.keys|
    ensures Acked(p, t, db, j) <==>
      && !(j < |t.refuses| && t.refuses[j])
      && (p.replace || (p.keys[j] !in db
          && forall i :: 0 <= i < j && p.keys[i] == p.keys[j] ==> i < |t.refuses| && t.refuses[i]))
  {
    hide Restored;
    RestoredHas(p, t, db, j, p.keys[j]);
  }

  /** A key that is not sent is left alone. */
  lemma {:induction false} RestoredElsewhere(p: Plan, t: Try, db: Db, n: nat, k: Key)
    requires |p.keys| == |p.vals| && n <= |p.keys| && k !in p.keys
    ensures k in Restored(p, t, db, n) <==> k in db
    ensures k in db ==> Restored(p, t, db, n)[k] == db[k]
    decreases n
  {
    hide Stores;
    if n > 0 { RestoredElsewhere(p, t, db, n - 1, k); }
  }

  // ----- looking up and expiring keys

  /** `keyIsExpired`, with which the look-up finds a key missing. */
  predicate Expired(clock: Clock, k: Key) { k in clock.when && clock.now > clock.when[k] }

  /** The test on the remaining time before a key is sent. */
  predicate TimeIsUp(clock: Clock, k: Key) { k in clock.when && clock.when[k] - clock.now < 0 }

  /** The keys that exist, in order. */
  function Present(source: Db, clock: Clock, args: seq<Key>, n: nat): seq<Key>
    requires n <= |args|
  {
    if n == 0 then []
    else Present(source, clock, args, n - 1)
         + if args[n - 1] in source && !Expired(clock, args[n - 1]) then [args[n - 1]] else []
  }

  /** The key is here, and its time to live, if it has one, is not over. */
  ghost predicate Alive(source: Db, clock: Clock, k: Key) {
    k in source && (k in clock.when ==> clock.when[k] >= clock.now)
  }

  lemma {:induction false} PresentIs(source: Db, clock: Clock, args: seq<Key>, n: nat, k: Key)
    requires n <= |args|
    ensures k in Present(source, clock, args, n) <==>
      exists i :: 0 <= i < n && args[i] == k && k in source && (k in clock.when ==> clock.when[k] >= clock.now)
    decreases n
  {
    if n > 0 {
      PresentIs(source, clock, args, n - 1, k);
      var front := Present(source, clock, args, n - 1);
      assert args[n - 1] == k ==> (k in Present(source, clock, args, n) <==> k in front || Alive(source, clock, k));
    }
  }

  /** The entries of the first `n` keys whose time is not up. */
  function Living(xs: seq<string>, keys: seq<Key>, clock: Clock, n: nat): seq<string>
    requires n <= |xs| == |keys|
  {
    if n == 0 then []
    else Living(xs, keys, clock, n - 1) + if TimeIsUp(clock, keys[n - 1]) then [] else [xs[n - 1]]
  }

  /** The arrays are compacted to the keys whose time is not up. */
  method DropExpired(p: Plan, clock: Clock) returns (r: Plan)
    requires |p.keys| == |p.vals|
    ensures r == p.(keys := Living(p.keys, p.keys, clock, |p.keys|), vals := Living(p.vals, p.keys, clock, |p.keys|))
  {
    var keys, vals := [], [];
    for j := 0 to |p.keys|
      invariant keys == Living(p.keys, p.keys, clock, j) && vals == Living(p.vals, p.keys, clock, j)
    {
      if !TimeIsUp(clock, p.keys[j]) { keys, vals := keys + [p.keys[j]], vals + [p.vals[j]]; }
    }
    r := p.(keys := keys, vals := vals);
  }

  ghost predicate NoneExpired(keys: seq<Key>, clock: Clock) {
    forall i :: 0 <= i < |keys| ==> !Expired(clock, keys[i])
  }

  lemma {:induction false} LivingAll(xs: seq<string>, keys: seq<Key>, clock: Clock, n: nat)
    requires n <= |xs| == |keys| && NoneExpired(keys, clock)
    ensures Living(xs, keys, clock, n) == xs[..n]
    decreases n
  {
    if n > 0 {
      LivingAll(xs, keys, clock, n - 1);
      assert !Expired(clock, keys[n - 1]) && xs[..n] == xs[..n - 1] + [xs[n - 1]];
    }
  }

  /** The clock stands still, so a key that was found is never dropped before it is sent. */
  lemma NothingDropped(p: Plan, clock: Clock)
    requires |p.keys| == |p.vals| && NoneExpired(p.keys, clock)
    ensures p.(keys := Living(p.keys, p.keys, clock, |p.keys|), vals := Living(p.vals, p.keys, clock, |p.keys|)) == p
  {
    LivingAll(p.keys, p.keys, clock, |p.keys|);
    LivingAll(p.vals, p.keys, clock, |p.keys|);
    assert p.keys[..|p.keys|] == p.keys && p.vals[..|p.vals|] == p.vals;
  }

  // ----- the replies

  datatype Outcome = Ok | TargetError | IoError | NoConnection | Retry

  /** Reading the replies: `stopped` is where reading stopped. */
  datatype Replies = Replies(stopped: nat, socketError: bool, targetError: bool, deleted: seq<Key>, source: Db)

  /** The source without some keys. */
  function Without(source: Db, dels: seq<Key>): Db { map k | k in source && k !in dels :: source[k] }

  /** The keys deleted after `n` replies, in order; `bad` says that AUTH or SELECT was refused. */
  function Deleted(p: Plan, t: Try, db: Db, bad: bool, n: nat): seq<Key>
    requires |p.keys| == |p.vals| && n <= |p.keys|
  {
    if n == 0 then []
    else Deleted(p, t, db, bad, n - 1) + if !p.copy && !bad && Acked(p, t, db, n - 1) then [p.keys[n - 1]] else []
  }

  /** One of the first `n` replies is an error. */
  predicate Refused(p: Plan, t: Try, db: Db, bad: bool, n: nat)
    requires |p.keys| == |p.vals| && n <= |p.keys|
  {
    n > 0 && (Refused(p, t, db, bad, n - 1) || bad || !Acked(p, t, db, n - 1))
  }

  lemma {:induction false} DeletedWasAcked(p: Plan, t: Try, db: Db, bad: bool, n: nat, k: Key) returns (j: nat)
    requires |p.keys| == |p.vals| && n <= |p.keys| && k in Deleted(p, t, db, bad, n)
    ensures j < n && p.keys[j] == k && Acked(p, t, db, j) && !p.copy && !bad
    decreases n
  {
    hide Acked;
    if k in Deleted(p, t, db, bad, n - 1) {
      j := DeletedWasAcked(p, t, db, bad, n - 1, k);
    } else {
      j := n - 1;
    }
  }

  /** No error among the replies: all keys are acknowledged, and all are deleted unless they are copied. */
  lemma {:induction false} NotRefused(p: Plan, t: Try, db: Db, bad: bool, n: nat)
    requires |p.keys| == |p.vals| && n <= |p.keys|
    ensures !Refused(p, t, db, bad, n) <==> n == 0 || (!bad && forall j: nat :: j < n ==> Acked(p, t, db, j))
    ensures !Refused(p, t, db, bad, n) && !p.copy ==> Deleted(p, t, db, bad, n) == p.keys[..n]
    decreases n
  {
    hide Acked;
    if n > 0 {
      NotRefused(p, t, db, bad, n - 1);
      assert p.keys[..n] == p.keys[..n - 1] + [p.keys[n - 1]];
    }
  }

  lemma {:induction false} CopyDeletesNothing(p: Plan, t: Try, db: Db, bad: bool, n: nat)
    requires |p.keys| == |p.vals| && n <= |p.keys| && p.copy
    ensures Deleted(p, t, db, bad, n) == []
    decreases n
  {
    hide Acked;
    if n > 0 { CopyDeletesNothing(p, t, db, bad, n - 1); }
  }

  /** The loop over the RESTORE replies; `lines` of them arrive. */
  method ReadReplies(p: Plan, t: Try, source: Db, db: Db, lines: nat, bad: bool) returns (r: Replies)
    requires |p.keys| == |p.vals| && lines <= |p.keys|
    ensures r.stopped == lines && r.socketError == (lines < |p.keys|)
    ensures r.targetError == Refused(p, t, db, bad, lines)
    ensures r.deleted == Deleted(p, t, db, bad, lines) && r.source == Without(source, r.deleted)
  {
    hide Acked;
    var left, dels, error := source, [], false;
    assert Without(source, []) == source;
    var j := 0;
    while j < |p.keys|
      invariant 0 <= j <= lines && left == Without(source, dels)
      invariant error == Refused(p, t, db, bad, j) && dels == Deleted(p, t, db, bad, j)
    {
      if j >= lines { return Replies(j, true, error, dels, left); }
      if bad || !Acked(p, t, db, j) {
        error := true;
      } else if !p.copy {
        left := left - {p.keys[j]};
        dels := dels + [p.keys[j]];
        assert left == Without(source, dels);
      }
      j := j + 1;
    }
    r := Replies(j, false, error, dels, left);
  }

  // ----- one attempt

  /** Both sides and the connection between them. */
  datatype World = World(source: Db, target: map<nat, Db>, conn: Conn)

  function DbOf(target: map<nat, Db>, n: int): Db { if n >= 0 && n in target then target[n] else map[] }

  /** What this side believes of the connection is true. */
  ghost predicate ConnOk(c: Conn) { c.last == -1 || c.last == c.actual }

  function Lines(heard: nat, before: nat, processed: nat): nat {
    if heard <= before then 0 else if heard - before < processed then heard - before else processed
  }

  /** SELECT is sent and accepted; a negative number never is. */
  predicate Selects(w: World, p: Plan, t: Try) { w.conn.last != p.dbid && t.selectOk && p.dbid >= 0 }

  /** The database in which the target carries out the RESTORE commands. */
  function Selected(w: World, p: Plan, t: Try): nat { if Selects(w, p, t) then p.dbid else w.conn.actual }

  /** AUTH or SELECT was refused. */
  predicate Bad(w: World, p: Plan, t: Try) {
    (p.password && !t.authOk) || (w.conn.last != p.dbid && !Selects(w, p, t))
  }

  /** Reply lines that come before those of the keys. */
  function Before(w: World, p: Plan): nat { (if p.password then 1 else 0) + (if w.conn.last != p.dbid then 1 else 0) }

  function Processed(p: Plan, t: Try): nat { if t.processed < |p.keys| then t.processed else |p.keys| }

  datatype Result = Result(world: World, outcome: Outcome, deleted: seq<Key>)

  /**
   From connecting to the reply; `Retry` is a jump to `socket_err` with the keys untouched. The target carries out
   what reaches it whether or not its replies arrive.
   */
  function Tried(w: World, p: Plan, t: Try, mayRetry: bool): Result
    requires |p.keys| == |p.vals|
  {
    if !t.connects then Result(w, NoConnection, [])
    else
      var db := DbOf(w.target, Selected(w, p, t));
      var target := w.target[Selected(w, p, t) := Restored(p, t, db, Processed(p, t))];
      if !t.wrote || t.heard < Before(w, p) then
        Result(World(w.source, target, FRESH), if !t.timeout && mayRetry then Retry else IoError, [])
      else Answered(w, p, t, mayRetry, db, target)
  }

  /** The rest of an attempt, once AUTH and SELECT have been answered. */
  function Answered(w: World, p: Plan, t: Try, mayRetry: bool, db: Db, target: map<nat, Db>): Result
    requires |p.keys| == |p.vals|
  {
    var lines := Lines(t.heard, Before(w, p), Processed(p, t));
    var cut, refused := lines < |p.keys|, Refused(p, t, db, Bad(w, p, t), lines);
    if !refused && cut && lines == 0 && mayRetry && !t.timeout then Result(World(w.source, target, FRESH), Retry, [])
    else
      var dels := Deleted(p, t, db, Bad(w, p, t), lines);
      var conn := if cut then FRESH else Conn(if refused then -1 else p.dbid, Selected(w, p, t));
      var outcome := if refused then TargetError else if cut then IoError else Ok;
      Result(World(Without(w.source, dels), target, conn), outcome, dels)
  }

  method Attempt(w: World, plan: Plan, clock: Clock, t: Try, mayRetry: bool) returns (r: Result)
    requires |plan.keys| == |plan.vals| && NoneExpired(plan.keys, clock)
    ensures r == Tried(w, plan, t, mayRetry)
    ensures OneValue(plan, w.source) ==> SafeAt(w, r.world, Place(w.conn, plan.dbid), r.deleted)
    ensures plan.keys != [] ==> (r.outcome == Ok <==> Succeeds(w, plan, t))
  {
    hide Restored, Refused, Deleted, NoneExpired, Lines, Living, SafeAt, Succeeds, OneValue, Place;
    if OneValue(plan, w.source) { TriedSafe(w, plan, t, mayRetry); }
    if plan.keys != [] { TriedOkIff(w, plan, t, mayRetry); }
    if !t.connects { return Result(w, NoConnection, []); }
    var sent := DropExpired(plan, clock);
    NothingDropped(plan, clock);
    var actual := w.conn.actual;
    if w.conn.last != plan.dbid && t.selectOk && plan.dbid >= 0 { actual := plan.dbid; }
    var db := DbOf(w.target, actual);
    var target := w.target[actual := Restored(sent, t, db, Processed(sent, t))];
    if !t.wrote || t.heard < Before(w, sent) {
      return Result(World(w.source, target, FRESH), if !t.timeout && mayRetry then Retry else IoError, []);
    }
    LinesFit(t.heard, Before(w, sent), Processed(sent, t), |sent.keys|);
    var replies := ReadReplies(sent, t, w.source, db, Lines(t.heard, Before(w, sent), Processed(sent, t)),
      Bad(w, sent, t));
    if !replies.targetError && replies.socketError && replies.stopped == 0 && mayRetry && !t.timeout {
      return Result(World(w.source, target, FRESH), Retry, []);
    }
    var conn := FRESH;
    if !replies.socketError { conn := Conn(if replies.targetError then -1 else sent.dbid, actual); }
    var outcome := if replies.targetError then TargetError else if replies.socketError then IoError else Ok;
    r := Result(World(replies.source, target, conn), outcome, replies.deleted);
  }

  lemma LinesFit(heard: nat, before: nat, processed: nat, n: nat)
    requires processed <= n
    ensures Lines(heard, before, processed) <= processed
    ensures n > 0 ==> (Lines(heard, before, processed) == n <==> processed == n && heard >= before + n)
  {}

  // ----- what an attempt keeps

  /** Where keys go that are deleted here. */
  function Place(c: Conn, dbid: int): int { if c.last != dbid then dbid else c.actual }

  /** Every key of the source is still there, or the target holds it with its value in database `n`. */
  ghost predicate SafeAt(w: World, v: World, n: int, dels: seq<Key>) {
    forall k :: k in w.source ==>
      if k in dels then k in DbOf(v.target, n) && DbOf(v.target, n)[k] == w.source[k]
      else k in v.source && v.source[k] == w.source[k]
  }

  lemma NothingSafe(w: World, n: int)
    ensures forall v: World :: v.source == w.source ==> SafeAt(w, v, n, [])
  {}

  /** Only acknowledged keys are deleted, and they are at the target. */
  lemma DeletedSafe(w: World, v: World, p: Plan, t: Try, db: Db, processed: nat, bad: bool, lines: nat, n: int)
    requires OneValue(p, w.source) && lines <= processed <= |p.keys|
    requires v.source == Without(w.source, Deleted(p, t, db, bad, lines))
    requires !bad ==> DbOf(v.target, n) == Restored(p, t, db, processed)
    ensures SafeAt(w, v, n, Deleted(p, t, db, bad, lines))
  {
    hide Acked, Restored, Deleted, DbOf;
    forall k | k in Deleted(p, t, db, bad, lines)
      ensures k in w.source ==> k in DbOf(v.target, n) && DbOf(v.target, n)[k] == w.source[k]
    {
      var j := DeletedWasAcked(p, t, db, bad, lines, k);
      AckedIsThere(p, t, w.source, db, j, processed);
    }
  }

  lemma SelectedIsPlace(w: World, p: Plan, t: Try)
    requires !Bad(w, p, t)
    ensures Selected(w, p, t) == Place(w.conn, p.dbid)
  {}

  /** Whatever fails, and whatever is believed of the connection, nothing is lost. */
  lemma TriedSafe(w: World, p: Plan, t: Try, mayRetry: bool)
    requires OneValue(p, w.source)
    ensures var r := Tried(w, p, t, mayRetry); SafeAt(w, r.world, Place(w.conn, p.dbid), r.deleted)
    ensures var r := Tried(w, p, t, mayRetry);
      r.world.source == Without(w.source, r.deleted) && (p.copy ==> r.deleted == [])
  {
    hide Restored, Refused, Deleted, SafeAt, Without, Lines, Before, Selected, Bad, Place;
    var r, n := Tried(w, p, t, mayRetry), Place(w.conn, p.dbid);
    NothingSafe(w, n);
    WithoutNothing(w.source);
    if t.connects {
      var bad, processed := Bad(w, p, t), Processed(p, t);
      var db, lines := DbOf(w.target, Selected(w, p, t)), Lines(t.heard, Before(w, p), processed);
      LinesFit(t.heard, Before(w, p), processed, |p.keys|);
      if !bad { SelectedIsPlace(w, p, t); }
      if p.copy { CopyDeletesNothing(p, t, db, bad, lines); }
      if r.world.source == Without(w.source, Deleted(p, t, db, bad, lines)) {
        DeletedSafe(w, r.world, p, t, db, processed, bad, lines, n);
      }
    }
  }

  lemma WithoutNothing(source: Db)
    ensures Without(source, []) == source
  {}

  /** Keys that are not sent stay as they are, in every database of the target. */
  lemma TriedElsewhere(w: World, p: Plan, t: Try, mayRetry: bool, n: int, k: Key)
    requires |p.keys| == |p.vals| && k !in p.keys && k in DbOf(w.target, n)
    ensures var v := Tried(w, p, t, mayRetry).world;
      k in DbOf(v.target, n) && DbOf(v.target, n)[k] == DbOf(w.target, n)[k]
  {
    hide Restored, Refused, Deleted, Without, Lines, Before;
    RestoredElsewhere(p, t, DbOf(w.target, Selected(w, p, t)), Processed(p, t), k);
  }

  /** All was written, carried out, answered and heard, and no answer is an error. */
  ghost predicate Succeeds(w: World, p: Plan, t: Try)
    requires |p.keys| == |p.vals|
  {
    && t.connects && t.wrote && !Bad(w, p, t) && t.processed >= |p.keys| && t.heard >= Before(w, p) + |p.keys|
    && forall j: nat :: j < |p.keys| ==> Acked(p, t, DbOf(w.target, Selected(w, p, t)), j)
  }

  /** OK is replied exactly then. */
  lemma TriedOkIff(w: World, p: Plan, t: Try, mayRetry: bool)
    requires |p.keys| == |p.vals| && p.keys != []
    ensures Tried(w, p, t, mayRetry).outcome == Ok <==> Succeeds(w, p, t)
  {
    hide Restored, Refused, Deleted, Without, Lines, Before, Acked, Selected, Bad;
    if t.connects {
      var db, lines := DbOf(w.target, Selected(w, p, t)), Lines(t.heard, Before(w, p), Processed(p, t));
      LinesFit(t.heard, Before(w, p), Processed(p, t), |p.keys|);
      NotRefused(p, t, db, Bad(w, p, t), lines);
    }
  }

  /**
   The same without the names: no refusal of AUTH, SELECT or RESTORE, no key in the way, and nothing lost on the line.
   */
  lemma OkMeans(w: World, p: Plan, t: Try, mayRetry: bool)
    requires |p.keys| == |p.vals| && p.keys != []
    ensures var select := w.conn.last != p.dbid;
      var place := if select && t.selectOk && p.dbid >= 0 then p.dbid else w.conn.actual;
      var db := if place in w.target then w.target[place] else map[];
      Tried(w, p, t, mayRetry).outcome == Ok <==>
        && t.connects && t.wrote && (p.password ==> t.authOk) && (select ==> t.selectOk && p.dbid >= 0)
        && t.processed >= |p.keys|
        && t.heard >= |p.keys| + (if p.password then 1 else 0) + (if select then 1 else 0)
        && forall j: nat :: j < |p.keys| ==>
             && !(j < |t.refuses| && t.refuses[j])
             && (p.replace || (p.keys[j] !in db && forall i :: 0 <= i < j ==> p.keys[i] != p.keys[j]))
  {
    hide Tried, Acked;
    TriedOkIff(w, p, t, mayRetry);
    var db := DbOf(w.target, Selected(w, p, t));
    forall j: nat | j < |p.keys| ensures Acked(p, t, db, j) <==>
      && !(j < |t.refuses| && t.refuses[j])
      && (p.replace || (p.keys[j] !in db
          && forall i :: 0 <= i < j && p.keys[i] == p.keys[j] ==> i < |t.refuses| && t.refuses[i]))
    {
      AckedIff(p, t, db, j);
    }
    NoRefusals(p, t, db);
  }

  lemma NoRefusals(p: Plan, t: Try, db: Db)
    requires |p.keys| == |p.vals|
    ensures (forall j: nat :: j < |p.keys| ==>
              && !(j < |t.refuses| && t.refuses[j])
              && (p.replace || (p.keys[j] !in db
                  && forall i :: 0 <= i < j && p.keys[i] == p.keys[j] ==> i < |t.refuses| && t.refuses[i])))
       <==> (forall j: nat :: j < |p.keys| ==>
              && !(j < |t.refuses| && t.refuses[j])
              && (p.replace || (p.keys[j] !in db && forall i :: 0 <= i < j ==> p.keys[i] != p.keys[j])))
  {}

  /** Exactly these keys are deleted here: carried out, answered and heard, with nothing refused. */
  lemma DeletedIff(w: World, p: Plan, t: Try, mayRetry: bool, k: Key)
    requires |p.keys| == |p.vals|
    ensures var before := (if p.password then 1 else 0) + (if w.conn.last != p.dbid then 1 else 0);
      k in Tried(w, p, t, mayRetry).deleted <==>
        && t.connects && t.wrote && !p.copy && (p.password ==> t.authOk)
        && (w.conn.last != p.dbid ==> t.selectOk && p.dbid >= 0)
        && exists j: nat :: j < |p.keys| && j < t.processed && before + j < t.heard && p.keys[j] == k
             && Acked(p, t, DbOf(w.target, Selected(w, p, t)), j)
  {
    hide Restored, Refused, Without, Acked;
    if t.connects {
      var lines := Lines(t.heard, Before(w, p), Processed(p, t));
      LinesFit(t.heard, Before(w, p), Processed(p, t), |p.keys|);
      DeletedAt(p, t, DbOf(w.target, Selected(w, p, t)), Bad(w, p, t), lines, k);
    }
  }

  lemma {:induction false} DeletedAt(p: Plan, t: Try, db: Db, bad: bool, n: nat, k: Key)
    requires |p.keys| == |p.vals| && n <= |p.keys|
    ensures k in Deleted(p, t, db, bad, n) <==>
      !p.copy && !bad && exists j: nat :: j < n && p.keys[j] == k && Acked(p, t, db, j)
    decreases n
  {
    hide Acked;
    if n > 0 { DeletedAt(p, t, db, bad, n - 1, k); }
  }

  /** A second attempt follows exactly if the first was made, did not time out, and heard no answer about a key. */
  lemma RetryIff(w: World, p: Plan, t: Try, mayRetry: bool)
    requires |p.keys| == |p.vals| && p.keys != []
    ensures var before := (if p.password then 1 else 0) + (if w.conn.last != p.dbid then 1 else 0);
      Tried(w, p, t, mayRetry).outcome == Retry <==>
        t.connects && mayRetry && !t.timeout && (!t.wrote || t.heard <= before || t.processed == 0)
  {
    hide Restored, Deleted, Without, Acked;
  }

  /** With keys to send, a true belief about the connection stays true. */
  lemma TriedConn(w: World, p: Plan, t: Try, mayRetry: bool)
    requires |p.keys| == |p.vals| && p.keys != [] && ConnOk(w.conn)
    ensures ConnOk(Tried(w, p, t, mayRetry).world.conn)
    ensures Tried(w, p, t, mayRetry).outcome == Retry ==> t.connects && !t.timeout && mayRetry
    ensures Tried(w, p, t, mayRetry).outcome == Retry ==>
      Tried(w, p, t, mayRetry).world.(target := map[]) == World(w.source, map[], FRESH)
        && Tried(w, p, t, mayRetry).deleted == []
  {
    hide Restored, Refused, Deleted, Without, Lines, Before, Acked;
    if t.connects {
      var db, lines := DbOf(w.target, Selected(w, p, t)), Lines(t.heard, Before(w, p), Processed(p, t));
      LinesFit(t.heard, Before(w, p), Processed(p, t), |p.keys|);
      NotRefused(p, t, db, Bad(w, p, t), lines);
    }
  }

  /** The keys are at the target with their values, and here exactly if they are copied. */
  ghost predicate Moved(w: World, v: World, n: int, copy: bool, keys: seq<Key>) {
    forall i :: 0 <= i < |keys| ==>
      && keys[i] in w.source && keys[i] in DbOf(v.target, n)
      && DbOf(v.target, n)[keys[i]] == w.source[keys[i]] && (keys[i] in v.source <==> copy)
  }

  lemma AllMoved(w: World, v: World, p: Plan, t: Try, db: Db, n: int)
    requires OneValue(p, w.source) && DbOf(v.target, n) == Restored(p, t, db, |p.keys|)
    requires forall j: nat :: j < |p.keys| ==> Acked(p, t, db, j)
    requires v.source == if p.copy then w.source else Without(w.source, p.keys)
    ensures Moved(w, v, n, p.copy, p.keys)
  {
    hide Acked, Restored, DbOf;
    forall i | 0 <= i < |p.keys|
      ensures p.keys[i] in DbOf(v.target, n) && DbOf(v.target, n)[p.keys[i]] == w.source[p.keys[i]]
    {
      AckedIsThere(p, t, w.source, db, i, |p.keys|);
    }
  }

  lemma TriedMoves(w: World, p: Plan, t: Try, mayRetry: bool)
    requires OneValue(p, w.source) && p.keys != [] && Tried(w, p, t, mayRetry).outcome == Ok
    ensures Moved(w, Tried(w, p, t, mayRetry).world, Place(w.conn, p.dbid), p.copy, p.keys)
  {
    hide Restored, Refused, Deleted, Without, Lines, Before, Acked, Selected, Bad, Place, Moved;
    TriedOkIff(w, p, t, mayRetry);
    SelectedIsPlace(w, p, t);
    var bad, r := Bad(w, p, t), Tried(w, p, t, mayRetry);
    var db, lines := DbOf(w.target, Selected(w, p, t)), Lines(t.heard, Before(w, p), Processed(p, t));
    LinesFit(t.heard, Before(w, p), Processed(p, t), |p.keys|);
    NotRefused(p, t, db, bad, lines);
    WithoutNothing(w.source);
    if p.copy { CopyDeletesNothing(p, t, db, bad, lines); }
    assert p.keys[..lines] == p.keys;
    AllMoved(w, r.world, p, t, db, Place(w.conn, p.dbid));
  }

  // ----- the command

  /** The arguments, the clock, and how the first and the second attempt go. */
  datatype Command = Command(args: seq<Key>, dbid: int, replace: bool, copy: bool, password: bool,
                             clock: Clock, first: Try, second: Try)

  function Values(source: Db, keys: seq<Key>): seq<Val>
    requires forall i :: 0 <= i < |keys| ==> keys[i] in source
  {
    seq(|keys|, i requires 0 <= i < |keys| => source[keys[i]])
  }

  lemma {:induction false} PresentThere(source: Db, clock: Clock, args: seq<Key>, n: nat)
    requires n <= |args|
    ensures var ks := Present(source, clock, args, n);
      NoneExpired(ks, clock) && forall i :: 0 <= i < |ks| ==> ks[i] in source
    decreases n
  {
    if n > 0 { PresentThere(source, clock, args, n - 1); }
  }

  function Planned(source: Db, c: Command): Plan {
    var keys := Present(source, c.clock, c.args, |c.args|);
    PresentThere(source, c.clock, c.args, |c.args|);
    Plan(c.dbid, keys, Values(source, keys), c.replace, c.copy, c.password)
  }

  lemma PlannedOk(source: Db, c: Command)
    ensures var p := Planned(source, c);
      OneValue(p, source) && |p.keys| == |p.vals| && NoneExpired(p.keys, c.clock) && p.dbid == c.dbid
        && p.copy == c.copy
  {
    PresentThere(source, c.clock, c.args, |c.args|);
  }

  method LookUp(source: Db, c: Command) returns (p: Plan)
    ensures p == Planned(source, c)
  {
    var keys, vals := [], [];
    for j := 0 to |c.args|
      invariant keys == Present(source, c.clock, c.args, j) && |vals| == |keys|
      invariant forall i :: 0 <= i < |keys| ==> keys[i] in source && vals[i] == source[keys[i]]
    {
      if c.args[j] in source && !Expired(c.clock, c.args[j]) {
        keys, vals := keys + [c.args[j]], vals + [source[c.args[j]]];
      }
    }
    assert vals == Values(source, keys);
    p := Plan(c.dbid, keys, vals, c.replace, c.copy, c.password);
  }

  datatype Reply = NoKey | Done(outcome: Outcome)

  /** The new world, the reply, the keys deleted here, and the number of attempts. */
  datatype Migration = Migration(world: World, reply: Reply, deleted: seq<Key>, attempts: nat)

  function Migrated(w: World, c: Command): Migration {
    PlannedOk(w.source, c);
    var p := Planned(w.source, c);
    if p.keys == [] then Migration(w, NoKey, [], 0)
    else
      var one := Tried(w, p, c.first, true);
      if one.outcome != Retry then Migration(one.world, Done(one.outcome), one.deleted, 1)
      else var two := Tried(one.world, p, c.second, false); Migration(two.world, Done(two.outcome), two.deleted, 2)
  }

  /** Where the keys go that a command deletes: the connection of a second attempt is a new one. */
  function Where(w: World, c: Command): int {
    Place(if Migrated(w, c).attempts == 2 then FRESH else w.conn, c.dbid)
  }

  lemma FirstRetry(w: World, p: Plan, t: Try)
    requires |p.keys| == |p.vals|
    ensures var r := Tried(w, p, t, true);
      r.outcome == Retry ==> r.world.source == w.source && r.world.conn == FRESH && r.deleted == [] && !t.timeout
    ensures Tried(w, p, t, false).outcome != Retry
  {
    hide Restored, Refused, Deleted, Without, Lines, Before;
  }

  /** Whatever fails, a key of this side is still here or is at the target with its value. */
  lemma MigratedSafe(w: World, c: Command)
    ensures var m := Migrated(w, c);
      && SafeAt(w, m.world, Where(w, c), m.deleted) && m.world.source == Without(w.source, m.deleted)
      && (c.copy ==> m.deleted == [])
  {
    hide Tried, SafeAt, Planned, OneValue, Without;
    PlannedOk(w.source, c);
    NothingSafe(w, Where(w, c));
    WithoutNothing(w.source);
    var p := Planned(w.source, c);
    if p.keys != [] {
      FirstRetry(w, p, c.first);
      TriedSafe(w, p, c.first, true);
      var u := Tried(w, p, c.first, true).world;
      if Migrated(w, c).attempts == 2 {
        TriedSafe(u, p, c.second, false);
        SafeFrom(w, u, Migrated(w, c).world, Where(w, c), Migrated(w, c).deleted);
      }
    }
  }

  lemma SafeFrom(w: World, u: World, v: World, n: int, dels: seq<Key>)
    requires u.source == w.source && SafeAt(u, v, n, dels)
    ensures SafeAt(w, v, n, dels)
  {}

  lemma MovedFrom(w: World, u: World, v: World, n: int, copy: bool, keys: seq<Key>)
    requires u.source == w.source && Moved(u, v, n, copy, keys)
    ensures Moved(w, v, n, copy, keys)
  {}

  /** The belief about the connection stays true, in every command and without exception. */
  lemma MigratedConn(w: World, c: Command)
    requires ConnOk(w.conn)
    ensures ConnOk(Migrated(w, c).world.conn)
  {
    hide Tried, Planned, OneValue;
    PlannedOk(w.source, c);
    var p := Planned(w.source, c);
    if p.keys != [] {
      TriedConn(w, p, c.first, true);
      TriedConn(Tried(w, p, c.first, true).world, p, c.second, false);
    }
  }

  /** OK means that every key that was found is at the target, and here only if it is copied. */
  lemma MigratedMoves(w: World, c: Command)
    requires Migrated(w, c).reply == Done(Ok)
    ensures Moved(w, Migrated(w, c).world, Where(w, c), c.copy, Present(w.source, c.clock, c.args, |c.args|))
  {
    hide Tried, Moved, OneValue, Present, Values, Place;
    PlannedOk(w.source, c);
    var p := Planned(w.source, c);
    FirstRetry(w, p, c.first);
    if Migrated(w, c).attempts == 1 {
      TriedMoves(w, p, c.first, true);
    } else {
      var u := Tried(w, p, c.first, true).world;
      TriedMoves(u, p, c.second, false);
      MovedFrom(w, u, Migrated(w, c).world, Where(w, c), c.copy, p.keys);
    }
  }

  /** Nothing is deleted when SELECT is refused. */
  lemma DeletesOnlySelected(w: World, p: Plan, t: Try, mayRetry: bool)
    requires |p.keys| == |p.vals| && Tried(w, p, t, mayRetry).deleted != []
    ensures w.conn.last == p.dbid || p.dbid >= 0
  {
    hide Restored, Refused, Without, Lines, Before, Acked;
    var db, lines := DbOf(w.target, Selected(w, p, t)), Lines(t.heard, Before(w, p), Processed(p, t));
    LinesFit(t.heard, Before(w, p), Processed(p, t), |p.keys|);
    var dels := Deleted(p, t, db, Bad(w, p, t), lines);
    var j := DeletedWasAcked(p, t, db, Bad(w, p, t), lines, dels[0]);
  }

  /** Keys that are deleted here go to another database than the one asked for exactly if that is -1. */
  lemma MisplacedIff(w: World, c: Command)
    requires ConnOk(w.conn) && Migrated(w, c).deleted != []
    ensures Where(w, c) != c.dbid <==> c.dbid == -1
  {
    hide Tried, Planned;
    PlannedOk(w.source, c);
    var p := Planned(w.source, c);
    FirstRetry(w, p, c.first);
    var one := Tried(w, p, c.first, true);
    if one.outcome != Retry { DeletesOnlySelected(w, p, c.first, true); }
  }

  /** The input that shows it: MIGRATE to database -1 on a new connection moves the key to database 0 and replies OK. */
  lemma MinusOne(k: Key, v: Val)
    ensures var good := Try(true, true, 1, [], true, true, 1, false);
      var m := Migrated(World(map[k := v], map[], FRESH),
                        Command([k], -1, false, false, false, Clock(0, map[]), good, good));
      m.reply == Done(Ok) && m.deleted == [k] && m.world.source == map[] && m.world.target == map[0 := map[k := v]]
  {
    var good := Try(true, true, 1, [], true, true, 1, false);
    var w := World(map[k := v], map[], FRESH);
    var c := Command([k], -1, false, false, false, Clock(0, map[]), good, good);
    PlannedOk(w.source, c);
    assert Present(w.source, c.clock, c.args, 0) == [];
    assert Present(w.source, c.clock, c.args, 1) == [k];
    var p := Planned(w.source, c);
    assert p.vals == [v];
    OneGoes(w, p, good, k, v);
  }

  lemma OneGoes(w: World, p: Plan, t: Try, k: Key, v: Val)
    requires w == World(map[k := v], map[], FRESH) && p == Plan(-1, [k], [v], false, false, false)
    requires t == Try(true, true, 1, [], true, true, 1, false)
    ensures Tried(w, p, t, true) == Result(World(map[], map[0 := map[k := v]], FRESH), Ok, [k])
  {
    assert Restored(p, t, map[], 0) == map[];
    assert Restored(p, t, map[], 1) == map[k := v];
    assert Acked(p, t, map[], 0);
    assert Deleted(p, t, map[], false, 0) == [] && Deleted(p, t, map[], false, 1) == [k];
    assert !Refused(p, t, map[], false, 0) && !Refused(p, t, map[], false, 1);
    assert Without(w.source, [k]) == map[];
  }

  /** The keys that are sent are the arguments that are here and have not expired. */
  lemma SentAre(w: World, c: Command)
    ensures var found := Present(w.source, c.clock, c.args, |c.args|);
      && (found == [] <==> forall i :: 0 <= i < |c.args| ==> !Alive(w.source, c.clock, c.args[i]))
      && (forall v, n :: Moved(w, v, n, c.copy, found) ==>
          forall i :: 0 <= i < |c.args| && Alive(w.source, c.clock, c.args[i]) ==>
            && c.args[i] in DbOf(v.target, n) && DbOf(v.target, n)[c.args[i]] == w.source[c.args[i]]
            && (c.args[i] in v.source <==> c.copy))
    ensures ConnOk(w.conn) && c.dbid != -1 ==> Where(w, c) == c.dbid
  {
    hide Present, DbOf, Migrated;
    var found := Present(w.source, c.clock, c.args, |c.args|);
    forall i | 0 <= i < |c.args| ensures c.args[i] in found <==> Alive(w.source, c.clock, c.args[i]) {
      PresentIs(w.source, c.clock, c.args, |c.args|, c.args[i]);
    }
    if found != [] {
      PresentIs(w.source, c.clock, c.args, |c.args|, found[0]);
      assert found[0] in found;
    }
    forall v, n, i | Moved(w, v, n, c.copy, found) && 0 <= i < |c.args| && c.args[i] in found
      ensures c.args[i] in DbOf(v.target, n) && DbOf(v.target, n)[c.args[i]] == w.source[c.args[i]]
      ensures c.args[i] in v.source <==> c.copy
    {
      var j :| 0 <= j < |found| && found[j] == c.args[i];
    }
  }

  /** The command that replicas and the append only file get instead. */
  datatype Propagated = AsIs | Del(keys: seq<Key>)

  /** `migrateCommand`: at most two attempts, the second only if the first changed nothing here. */
  method MigrateKeys(w: World, c: Command) returns (v: World, reply: Reply, propagated: Propagated, attempts: nat)
    ensures var dels := if propagated.Del? then propagated.keys else [];
      && Migration(v, reply, dels, attempts) == Migrated(w, c) && (propagated.Del? ==> dels != [] && !c.copy)
      && SafeAt(w, v, Where(w, c), dels) && v.source == Without(w.source, dels)
    ensures attempts <= 2 && (attempts == 2 ==> !c.first.timeout)
    ensures reply == NoKey <==> Present(w.source, c.clock, c.args, |c.args|) == []
    ensures reply == Done(Ok) ==> Moved(w, v, Where(w, c), c.copy, Present(w.source, c.clock, c.args, |c.args|))
    ensures reply == NoKey <==> forall i :: 0 <= i < |c.args| ==> !Alive(w.source, c.clock, c.args[i])
    ensures reply == Done(Ok) ==>
      forall i :: 0 <= i < |c.args| && Alive(w.source, c.clock, c.args[i]) ==>
        && c.args[i] in DbOf(v.target, Where(w, c)) && DbOf(v.target, Where(w, c))[c.args[i]] == w.source[c.args[i]]
        && (c.args[i] in v.source <==> c.copy)
    ensures ConnOk(w.conn) && c.dbid != -1 ==> Where(w, c) == c.dbid
    ensures ConnOk(w.conn) ==> ConnOk(v.conn)
  {
    SentAre(w, c);
    hide Tried, SafeAt, OneValue, Moved, Present, Values, Without, NoneExpired, Place;
    PlannedOk(w.source, c);
    MigratedSafe(w, c);
    if ConnOk(w.conn) { MigratedConn(w, c); }
    if Migrated(w, c).reply == Done(Ok) { MigratedMoves(w, c); }
    var plan := LookUp(w.source, c);
    if plan.keys == [] { return w, NoKey, AsIs, 0; }
    FirstRetry(w, plan, c.first);
    FirstRetry(Tried(w, plan, c.first, true).world, plan, c.second);
    v, attempts := w, 0;
    var mayRetry := true;
    while true
      invariant attempts <= 1 && mayRetry == (attempts == 0)
      invariant v == if attempts == 0 then w else Tried(w, plan, c.first, true).world
      invariant attempts == 1 ==> Tried(w, plan, c.first, true).outcome == Retry
      decreases 1 - attempts
    {
      var r := Attempt(v, plan, c.clock, if attempts == 0 then c.first else c.second, mayRetry);
      v, attempts := r.world, attempts + 1;
      if r.outcome != Retry {
        return v, Done(r.outcome), if r.deleted != [] then Del(r.deleted) else AsIs, attempts;
      }
      mayRetry := false;
    }
  }

  // ----- runs

  /** A command, or the cached connection being closed after a while. */
  datatype Event = Migrate(c: Command) | Forget

  function Step(w: World, e: Event): World { if e.Forget? then w.(conn := FRESH) else Migrated(w, e.c).world }

  function Run(w: World, es: seq<Event>): World {
    if es == [] then w else Step(Run(w, es[..|es| - 1]), es[|es| - 1])
  }

  /** A key of the old source is still here, or it is in database `n` of the target. */
  ghost predicate Kept(w: World, v: World, n: int, k: Key)
    requires k in w.source
  {
    if k in v.source then v.source[k] == w.source[k] else k in DbOf(v.target, n) && DbOf(v.target, n)[k] == w.source[k]
  }

  lemma PlannedFrom(source: Db, c: Command, k: Key)
    requires k !in source
    ensures k !in Planned(source, c).keys
  {
    PlannedOk(source, c);
  }

  /** What a command does to a key that is at the target already. */
  lemma MigratedElsewhere(w: World, c: Command, n: int, k: Key)
    requires k !in w.source && k in DbOf(w.target, n)
    ensures var v := Migrated(w, c).world;
      k !in v.source && k in DbOf(v.target, n) && DbOf(v.target, n)[k] == DbOf(w.target, n)[k]
  {
    hide Tried, Planned, DbOf;
    MigratedSafe(w, c);
    PlannedOk(w.source, c);
    PlannedFrom(w.source, c, k);
    var p := Planned(w.source, c);
    if p.keys != [] {
      TriedElsewhere(w, p, c.first, true, n, k);
      TriedElsewhere(Tried(w, p, c.first, true).world, p, c.second, false, n, k);
    }
  }

  /** Some command of the run names database `n`. */
  ghost predicate AskedFor(es: seq<Event>, n: int) { exists i :: 0 <= i < |es| && es[i].Migrate? && es[i].c.dbid == n }

  ghost predicate NoMinusOne(es: seq<Event>) { forall i :: 0 <= i < |es| && es[i].Migrate? ==> es[i].c.dbid != -1 }

  lemma {:induction false} RunConn(w: World, es: seq<Event>)
    requires ConnOk(w.conn)
    ensures ConnOk(Run(w, es).conn)
    decreases |es|
  {
    hide Migrated;
    if es != [] {
      RunConn(w, es[..|es| - 1]);
      if es[|es| - 1].Migrate? { MigratedConn(Run(w, es[..|es| - 1]), es[|es| - 1].c); }
    }
  }

  lemma AskedMore(es: seq<Event>, n: int)
    requires es != [] && AskedFor(es[..|es| - 1], n)
    ensures AskedFor(es, n)
  {
    var i :| 0 <= i < |es| - 1 && es[..|es| - 1][i].Migrate? && es[..|es| - 1][i].c.dbid == n;
    assert es[i].Migrate?;
  }

  /**
   In every run of MIGRATE commands, whatever fails and however often, every key is still here or is at the target
   with its value. If the run starts without a connection and no command names database -1, it is in a database that
   was asked for.
   */
  lemma {:induction false} EveryRunKeeps(w: World, es: seq<Event>, k: Key) returns (n: int)
    requires k in w.source
    ensures Kept(w, Run(w, es), n, k)
    ensures ConnOk(w.conn) && NoMinusOne(es) && k !in Run(w, es).source ==> AskedFor(es, n)
    decreases |es|
  {
    hide Migrated, Where, Without, DbOf, AskedFor;
    n := 0;
    if es != [] {
      var init, e := es[..|es| - 1], es[|es| - 1];
      var u := Run(w, init);
      n := EveryRunKeeps(w, init, k);
      if ConnOk(w.conn) { RunConn(w, init); }
      if NoMinusOne(es) { assert NoMinusOne(init); }
      if k !in u.source {
        if ConnOk(w.conn) && NoMinusOne(es) { AskedMore(es, n); }
        if e.Migrate? { MigratedElsewhere(u, e.c, n, k); }
      } else if e.Migrate? {
        MigratedSafe(u, e.c);
        n := Where(u, e.c);
        if ConnOk(w.conn) && k in Migrated(u, e.c).deleted { GoesWhereAsked(u, e.c, es); }
        KeptBy(u, e.c, k);
      }
    }
  }

  lemma GoesWhereAsked(u: World, c: Command, es: seq<Event>)
    requires ConnOk(u.conn) && es != [] && es[|es| - 1] == Migrate(c) && Migrated(u, c).deleted != []
    ensures c.dbid != -1 ==> AskedFor(es, Where(u, c))
  {
    hide Migrated, Where;
    MisplacedIff(u, c);
    assert es[|es| - 1].Migrate?;
  }

  lemma KeptBy(u: World, c: Command, k: Key)
    requires k in u.source
    ensures Kept(u, Migrated(u, c).world, Where(u, c), k)
    ensures k !in Migrated(u, c).world.source ==> k in Migrated(u, c).deleted
  {
    hide Migrated, Where;
    MigratedSafe(u, c);
  }
}
