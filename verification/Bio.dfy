/**
 The background job system (`bio.c`): client threads hand jobs to three workers over
 queues that are guarded by one lock each. Every lock region is taken apart into its
 single writes, so that a run is any interleaving of clients and workers. `submitted` and
 `finished` record what was put in and what was carried out, in order.
 */
module Bio {

  datatype Kind = CloseFile | AofFsync | LazyFree | CloseAof | CompCloseFile | CompAofFsync | CompLazyFree

  const WORKERS: nat := 3

  /** `bio_job_to_worker`. */
  function WorkerOf(k: Kind): (w: nat)
    ensures w < WORKERS
  {
    match k
    case CloseFile => 0 case CompCloseFile => 0
    case AofFsync => 1 case CloseAof => 1 case CompAofFsync => 1
    case LazyFree => 2 case CompLazyFree => 2
  }

  predicate IsCompletion(k: Kind) { k == CompCloseFile || k == CompAofFsync || k == CompLazyFree }

  datatype Job = Job(id: nat, kind: Kind)

  datatype Owner = Free | Worker | Client(c: nat)

  /** A worker between two writes: waiting for its lock, at the top of its loop, carrying out a job, and so on. */
  datatype WorkerPc = Asleep | Looking | Running(job: Job) | Ran(job: Job) | Removing(job: Job) | Counting(job: Job)

  /** A client in `bioSubmitJob` or `bioDrainWorker`; `goal` jobs had been submitted when the drain was called. */
  datatype ClientPc =
    | Idle
    | Adding(job: Job)
    | CountingUp(job: Job)
    | Draining(w: nat, goal: nat)
    | DrainWaiting(w: nat, goal: nat)

  datatype Desk = Desk(queue: seq<Job>, owner: Owner, pc: WorkerPc, submitted: seq<Job>, finished: seq<Job>)

  datatype State = State(desks: seq<Desk>, counters: map<Kind, nat>, clients: map<nat, ClientPc>,
                         completions: seq<Job>, delivered: seq<Job>)

  datatype Event =
    | Submit(c: nat, job: Job) | AddTail(c: nat) | CountUp(c: nat)
    | DrainCall(c: nat, w: nat) | DrainTest(c: nat) | DrainWake(c: nat)
    | WakeWorker(w: nat) | Look(w: nat) | Work(w: nat) | Relock(w: nat) | Remove(w: nat) | CountDown(w: nat)
    | Deliver

  // ----- steps

  ghost predicate Shape(s: State) {
    |s.desks| == WORKERS && (forall k: Kind :: k in s.counters)
  }

  /** The worker whose lock the client holds. */
  function Holds(p: ClientPc): int {
    match p
    case Adding(job) => WorkerOf(job.kind)
    case CountingUp(job) => WorkerOf(job.kind)
    case Draining(w, _) => w
    case Idle => -1
    case DrainWaiting(_, _) => -1
  }

  ghost predicate IsFree(s: State, w: nat) requires Shape(s) { w < WORKERS && s.desks[w].owner == Free }

  ghost predicate Allowed(s: State, e: Event)
    requires Shape(s)
  {
    match e
    case Submit(c, job) => c in s.clients && s.clients[c] == Idle && IsFree(s, WorkerOf(job.kind))
    case AddTail(c) => c in s.clients && s.clients[c].Adding?
    case CountUp(c) => c in s.clients && s.clients[c].CountingUp?
    case DrainCall(c, w) => c in s.clients && s.clients[c] == Idle && IsFree(s, w)
    case DrainTest(c) => c in s.clients && s.clients[c].Draining? && s.clients[c].w < WORKERS
    case DrainWake(c) => c in s.clients && s.clients[c].DrainWaiting? && IsFree(s, s.clients[c].w)
    case WakeWorker(w) => IsFree(s, w) && s.desks[w].pc == Asleep
    case Look(w) => w < WORKERS && s.desks[w].pc == Looking
    case Work(w) => w < WORKERS && s.desks[w].pc.Running?
    case Relock(w) => IsFree(s, w) && s.desks[w].pc.Ran?
    case Remove(w) => w < WORKERS && s.desks[w].pc.Removing?
    case CountDown(w) => w < WORKERS && s.desks[w].pc.Counting?
    case Deliver => true
  }

  function SetDesk(s: State, w: nat, d: Desk): State requires w < |s.desks| { s.(desks := s.desks[w := d]) }

  function SetClient(s: State, c: nat, p: ClientPc): State { s.(clients := s.clients[c := p]) }

  function Bump(m: map<Kind, nat>, k: Kind): map<Kind, nat> requires k in m { m[k := m[k] + 1] }

  function Drop(m: map<Kind, nat>, k: Kind): map<Kind, nat>
    requires k in m
  {
    if m[k] > 0 then m[k := m[k] - 1] else m
  }

  /** The steps of a client. */
  ghost function ClientStep(s: State, e: Event): State
    requires Shape(s) && Allowed(s, e)
    requires e.Submit? || e.AddTail? || e.CountUp? || e.DrainCall? || e.DrainTest? || e.DrainWake?
  {
    match e
    case Submit(c, job) =>
      var w := WorkerOf(job.kind);
      SetClient(SetDesk(s, w, s.desks[w].(owner := Client(c))), c, Adding(job))
    case AddTail(c) =>
      var job := s.clients[c].job;
      var d := s.desks[WorkerOf(job.kind)];
      SetClient(SetDesk(s, WorkerOf(job.kind), d.(queue := d.queue + [job], submitted := d.submitted + [job])),
                c, CountingUp(job))
    case CountUp(c) =>
      var job := s.clients[c].job;
      var w := WorkerOf(job.kind);
      SetClient(SetDesk(s, w, s.desks[w].(owner := Free)), c, Idle).(counters := Bump(s.counters, job.kind))
    case DrainCall(c, w) =>
      SetClient(SetDesk(s, w, s.desks[w].(owner := Client(c))), c, Draining(w, |s.desks[w].submitted|))
    case DrainTest(c) =>
      var w, goal := s.clients[c].w, s.clients[c].goal;
      SetClient(SetDesk(s, w, s.desks[w].(owner := Free)), c,
                if s.desks[w].queue == [] then Idle else DrainWaiting(w, goal))
    case DrainWake(c) =>
      var w, goal := s.clients[c].w, s.clients[c].goal;
      SetClient(SetDesk(s, w, s.desks[w].(owner := Client(c))), c, Draining(w, goal))
  }

  /** The steps of a worker, apart from the counters and the completion list. */
  function DeskStep(d: Desk, e: Event): Desk
    requires e.WakeWorker? || e.Look? || (e.Work? && d.pc.Running?) || (e.Relock? && d.pc.Ran?)
      || (e.Remove? && d.pc.Removing?) || (e.CountDown? && d.pc.Counting?)
  {
    match e
    case WakeWorker(_) => d.(pc := Looking, owner := Worker)
    case Look(_) => if d.queue == [] then d.(pc := Asleep, owner := Free)
      else d.(pc := Running(d.queue[0]), owner := Free)
    case Work(_) => d.(pc := Ran(d.pc.job), finished := d.finished + [d.pc.job])
    case Relock(_) => d.(pc := Removing(d.pc.job), owner := Worker)
    case Remove(_) => d.(pc := Counting(d.pc.job), queue := if d.queue == [] then [] else d.queue[1..])
    case CountDown(_) => d.(pc := Looking)
  }

  ghost predicate IsWorkerEvent(e: Event, w: nat) {
    e == WakeWorker(w) || e == Look(w) || e == Work(w) || e == Relock(w) || e == Remove(w) || e == CountDown(w)
  }

  ghost function WorkerStep(s: State, w: nat, e: Event): State
    requires Shape(s) && Allowed(s, e) && w < WORKERS
    requires IsWorkerEvent(e, w)
  {
    var d := s.desks[w];
    var t := SetDesk(s, w, DeskStep(d, e));
    if e.Work? && IsCompletion(d.pc.job.kind) then t.(completions := s.completions + [d.pc.job])
    else if e.CountDown? then t.(counters := Drop(s.counters, d.pc.job.kind))
    else t
  }

  /** `bioPipeReadJobCompList`: the main thread takes the whole list and runs the callbacks in order. */
  function DeliverStep(s: State): State { s.(delivered := s.delivered + s.completions, completions := []) }

  ghost function Next(s: State, e: Event): State
    requires Shape(s) && Allowed(s, e)
  {
    match e
    case WakeWorker(w) => WorkerStep(s, w, e)
    case Look(w) => WorkerStep(s, w, e)
    case Work(w) => WorkerStep(s, w, e)
    case Relock(w) => WorkerStep(s, w, e)
    case Remove(w) => WorkerStep(s, w, e)
    case CountDown(w) => WorkerStep(s, w, e)
    case Deliver => DeliverStep(s)
    case _ => ClientStep(s, e)
  }

  // ----- the invariant

  function Count(q: seq<Job>, k: Kind): nat {
    if q == [] then 0 else (if q[0].kind == k then 1 else 0) + Count(q[1..], k)
  }

  /** The jobs of a worker that are still to be carried out. */
  function Rest(d: Desk): seq<Job> {
    if (d.pc.Ran? || d.pc.Removing?) && d.queue != [] then d.queue[1..] else d.queue
  }

  ghost predicate DeskOk(d: Desk) {
    && d.submitted == d.finished + Rest(d)
    && (d.pc.Running? || d.pc.Ran? || d.pc.Removing? ==> d.queue != [] && d.queue[0] == d.pc.job)
    && (d.owner == Worker <==> d.pc == Looking || d.pc.Removing? || d.pc.Counting?)
  }

  /** The client that holds the lock of worker `w` is inside a lock region of `w`, and no other is. */
  ghost predicate OwnersOk(s: State)
    requires Shape(s)
  {
    && (forall w :: 0 <= w < WORKERS && s.desks[w].owner.Client? ==>
          s.desks[w].owner.c in s.clients && Holds(s.clients[s.desks[w].owner.c]) == w)
    && (forall c :: c in s.clients && Holds(s.clients[c]) >= 0 ==>
          Holds(s.clients[c]) < WORKERS && s.desks[Holds(s.clients[c])].owner == Client(c))
  }

  /** Jobs of kind `k` that the counter is behind: added by the client in the lock region, not yet counted. */
  ghost function Behind(s: State, k: Kind): int
    requires Shape(s)
  {
    var o := s.desks[WorkerOf(k)].owner;
    if o.Client? && o.c in s.clients && s.clients[o.c].CountingUp? && s.clients[o.c].job.kind == k then 1 else 0
  }

  /** Jobs of kind `k` that the counter is ahead: removed by the worker, not yet counted off. */
  ghost function Ahead(s: State, k: Kind): int
    requires Shape(s)
  {
    var p := s.desks[WorkerOf(k)].pc;
    if p.Counting? && p.job.kind == k then 1 else 0
  }

  ghost predicate CounterOk(s: State, k: Kind)
    requires Shape(s)
  {
    s.counters[k] + Behind(s, k) == Count(s.desks[WorkerOf(k)].queue, k) + Ahead(s, k)
  }

  /** Jobs sit in the queue of the worker of their kind. */
  ghost predicate Routed(d: Desk, w: nat) {
    && (forall i :: 0 <= i < |d.queue| ==> WorkerOf(d.queue[i].kind) == w)
    && (d.pc.Running? || d.pc.Ran? || d.pc.Removing? || d.pc.Counting? ==> WorkerOf(d.pc.job.kind) == w)
  }

  ghost predicate DrainOk(s: State, c: nat)
    requires Shape(s) && c in s.clients
  {
    var p := s.clients[c];
    p.Draining? || p.DrainWaiting? ==> p.w < WORKERS && p.goal <= |s.desks[p.w].submitted|
  }

  /** The completion requests among some jobs. */
  function Completions(js: seq<Job>): seq<Job> {
    if js == [] then [] else (if IsCompletion(js[0].kind) then [js[0]] else []) + Completions(js[1..])
  }

  /** The part of the completion list that came from worker `w`. */
  function From(js: seq<Job>, w: nat): seq<Job> {
    if js == [] then [] else (if WorkerOf(js[0].kind) == w then [js[0]] else []) + From(js[1..], w)
  }

  ghost predicate PublishedOk(s: State, w: nat)
    requires Shape(s) && w < WORKERS
  {
    From(s.delivered + s.completions, w) == Completions(s.desks[w].finished)
  }

  ghost predicate DesksOk(s: State)
    requires Shape(s)
  {
    forall w :: 0 <= w < WORKERS ==> DeskOk(s.desks[w]) && Routed(s.desks[w], w)
  }

  ghost predicate CountersOk(s: State) requires Shape(s) { forall k: Kind :: CounterOk(s, k) }

  ghost predicate AllPublished(s: State) requires Shape(s) { forall w :: 0 <= w < WORKERS ==> PublishedOk(s, w) }

  ghost predicate DrainsOk(s: State) requires Shape(s) { forall c :: c in s.clients ==> DrainOk(s, c) }

  ghost predicate Inv(s: State) {
    Shape(s) && OwnersOk(s) && DesksOk(s) && CountersOk(s) && AllPublished(s) && DrainsOk(s)
  }

  // ----- counting

  lemma {:induction false} CountAppend(q: seq<Job>, j: Job, k: Kind)
    ensures Count(q + [j], k) == Count(q, k) + if j.kind == k then 1 else 0
    decreases |q|
  {
    if q == [] {
      assert q + [j] == [j] && [j][1..] == [];
    } else {
      assert (q + [j])[1..] == q[1..] + [j];
      CountAppend(q[1..], j, k);
    }
  }

  lemma {:induction false} CompletionsAppend(q: seq<Job>, j: Job)
    ensures Completions(q + [j]) == Completions(q) + if IsCompletion(j.kind) then [j] else []
    decreases |q|
  {
    hide IsCompletion;
    if q == [] {
      assert q + [j] == [j] && [j][1..] == [];
    } else {
      assert (q + [j])[1..] == q[1..] + [j];
      CompletionsAppend(q[1..], j);
      var x := if IsCompletion(q[0].kind) then [q[0]] else [];
      var y := if IsCompletion(j.kind) then [j] else [];
      assert x + (Completions(q[1..]) + y) == x + Completions(q[1..]) + y;
    }
  }

  lemma {:induction false} FromAppend(q: seq<Job>, j: Job, w: nat)
    ensures From(q + [j], w) == From(q, w) + if WorkerOf(j.kind) == w then [j] else []
    decreases |q|
  {
    hide WorkerOf;
    if q == [] {
      assert q + [j] == [j] && [j][1..] == [];
    } else {
      assert (q + [j])[1..] == q[1..] + [j];
      FromAppend(q[1..], j, w);
      var x := if WorkerOf(q[0].kind) == w then [q[0]] else [];
      var y := if WorkerOf(j.kind) == w then [j] else [];
      assert x + (From(q[1..], w) + y) == x + From(q[1..], w) + y;
    }
  }

  // ----- every step keeps the invariant: clients

  /** Taking and leaving a lock: only the owner of the desk and the client's place change. */
  ghost predicate LockMove(s: State, t: State, w: nat, c: nat, o: Owner, p: ClientPc) {
    && Shape(s) && w < WORKERS && c in s.clients
    && t.desks == s.desks[w := s.desks[w].(owner := o)] && t.clients == s.clients[c := p]
    && t.completions == s.completions && t.delivered == s.delivered && Shape(t)
    && s.desks[w].owner != Worker && o != Worker
  }

  lemma LockDesks(s: State, t: State, w: nat, c: nat, o: Owner, p: ClientPc)
    requires LockMove(s, t, w, c, o, p) && DesksOk(s) && AllPublished(s)
    ensures DesksOk(t) && AllPublished(t)
  {
    hide WorkerOf, Completions, From;
    forall v | 0 <= v < WORKERS ensures DeskOk(t.desks[v]) && Routed(t.desks[v], v) && PublishedOk(t, v) {
      assert DeskOk(s.desks[v]) && Routed(s.desks[v], v) && PublishedOk(s, v);
    }
  }

  lemma LockDrains(s: State, t: State, w: nat, c: nat, o: Owner, p: ClientPc)
    requires LockMove(s, t, w, c, o, p) && DrainsOk(s)
    requires p.Draining? || p.DrainWaiting? ==> p.w < WORKERS && p.goal <= |s.desks[p.w].submitted|
    ensures DrainsOk(t)
  {
    forall d | d in t.clients ensures DrainOk(t, d) { if d != c { assert DrainOk(s, d); } }
  }

  lemma AcquireOwners(s: State, t: State, w: nat, c: nat, p: ClientPc)
    requires LockMove(s, t, w, c, Client(c), p) && OwnersOk(s)
    requires s.desks[w].owner == Free && Holds(s.clients[c]) < 0 && Holds(p) == w
    ensures OwnersOk(t)
  {
    hide Holds;
  }

  lemma AcquireCounters(s: State, t: State, w: nat, c: nat, p: ClientPc)
    requires LockMove(s, t, w, c, Client(c), p) && OwnersOk(s) && CountersOk(s) && t.counters == s.counters
    requires s.desks[w].owner == Free && Holds(s.clients[c]) < 0 && !p.CountingUp?
    ensures CountersOk(t)
  {
    hide Count, WorkerOf, Holds;
    forall k: Kind ensures CounterOk(t, k) { assert CounterOk(s, k); }
  }

  lemma Acquire(s: State, t: State, w: nat, c: nat, p: ClientPc)
    requires Inv(s) && LockMove(s, t, w, c, Client(c), p) && t.counters == s.counters
    requires s.desks[w].owner == Free && Holds(s.clients[c]) < 0 && Holds(p) == w && !p.CountingUp?
    requires p.Draining? || p.DrainWaiting? ==> p.w < WORKERS && p.goal <= |s.desks[p.w].submitted|
    ensures Inv(t)
  {
    hide Holds, OwnersOk, DesksOk, CountersOk, AllPublished, DrainsOk;
    LockDesks(s, t, w, c, Client(c), p);
    LockDrains(s, t, w, c, Client(c), p);
    AcquireOwners(s, t, w, c, p);
    AcquireCounters(s, t, w, c, p);
  }

  lemma ReleaseOwners(s: State, t: State, w: nat, c: nat, p: ClientPc)
    requires LockMove(s, t, w, c, Free, p) && OwnersOk(s) && Holds(s.clients[c]) == w && Holds(p) < 0
    ensures OwnersOk(t) && s.desks[w].owner == Client(c)
  {
    hide Holds;
  }

  /** Leaving the lock region: the counter catches up with the job the client added. */
  lemma ReleaseCounters(s: State, t: State, w: nat, c: nat, p: ClientPc)
    requires LockMove(s, t, w, c, Free, p) && OwnersOk(s) && CountersOk(s)
    requires Holds(s.clients[c]) == w && Holds(p) < 0
    requires if s.clients[c].CountingUp? then t.counters == Bump(s.counters, s.clients[c].job.kind)
             else t.counters == s.counters
    ensures CountersOk(t)
  {
    hide Count;
    forall k: Kind ensures CounterOk(t, k) {
      assert CounterOk(s, k);
      assert s.desks[w].owner == Client(c);
    }
  }

  lemma Release(s: State, t: State, w: nat, c: nat, p: ClientPc)
    requires Inv(s) && LockMove(s, t, w, c, Free, p) && Holds(s.clients[c]) == w && Holds(p) < 0
    requires if s.clients[c].CountingUp? then t.counters == Bump(s.counters, s.clients[c].job.kind)
             else t.counters == s.counters
    requires p.Draining? || p.DrainWaiting? ==> p.w < WORKERS && p.goal <= |s.desks[p.w].submitted|
    ensures Inv(t)
  {
    hide Holds, OwnersOk, DesksOk, CountersOk, AllPublished, DrainsOk;
    LockDesks(s, t, w, c, Free, p);
    LockDrains(s, t, w, c, Free, p);
    ReleaseOwners(s, t, w, c, p);
    ReleaseCounters(s, t, w, c, p);
  }

  /** The client in the lock region adds its job to the queue. */
  lemma AddInv(s: State, c: nat)
    requires Inv(s) && c in s.clients && s.clients[c].Adding?
    ensures Inv(ClientStep(s, AddTail(c)))
  {
    hide OwnersOk, DesksOk, CountersOk, AllPublished, DrainsOk;
    AddOwners(s, c);
    AddDesks(s, c);
    AddCounters(s, c);
    AddDrains(s, c);
  }

  lemma AddOwners(s: State, c: nat)
    requires Inv(s) && c in s.clients && s.clients[c].Adding?
    ensures OwnersOk(ClientStep(s, AddTail(c)))
    ensures s.desks[WorkerOf(s.clients[c].job.kind)].owner == Client(c)
  {
    hide DesksOk, CountersOk, AllPublished, DrainsOk, WorkerOf;
  }

  lemma AddDesks(s: State, c: nat)
    requires Inv(s) && c in s.clients && s.clients[c].Adding?
    ensures var t := ClientStep(s, AddTail(c)); DesksOk(t) && AllPublished(t)
  {
    hide OwnersOk, CountersOk, DrainsOk, WorkerOf, Completions, From;
    var t, job := ClientStep(s, AddTail(c)), s.clients[c].job;
    forall v | 0 <= v < WORKERS ensures DeskOk(t.desks[v]) && Routed(t.desks[v], v) && PublishedOk(t, v) {
      var d := s.desks[v];
      assert DeskOk(d) && Routed(d, v) && PublishedOk(s, v);
      if v == WorkerOf(job.kind) {
        assert Rest(t.desks[v]) == Rest(d) + [job];
      }
    }
  }

  lemma AddCounters(s: State, c: nat)
    requires Inv(s) && c in s.clients && s.clients[c].Adding?
    ensures CountersOk(ClientStep(s, AddTail(c)))
  {
    hide Count, DesksOk, OwnersOk, DrainsOk, AllPublished, WorkerOf;
    AddOwners(s, c);
    var t, job := ClientStep(s, AddTail(c)), s.clients[c].job;
    var w := WorkerOf(job.kind);
    forall k: Kind ensures CounterOk(t, k) {
      assert CounterOk(s, k);
      if WorkerOf(k) == w { CountAppend(s.desks[w].queue, job, k); }
    }
  }

  lemma AddDrains(s: State, c: nat)
    requires Inv(s) && c in s.clients && s.clients[c].Adding?
    ensures DrainsOk(ClientStep(s, AddTail(c)))
  {
    hide DesksOk, OwnersOk, CountersOk, AllPublished, WorkerOf;
    var t := ClientStep(s, AddTail(c));
    forall d | d in t.clients ensures DrainOk(t, d) { if d != c { assert DrainOk(s, d); } }
  }

  // ----- workers

  /** One desk: history, head of the queue and lock stay in step. */
  lemma DeskStepOk(d: Desk, e: Event, w: nat)
    requires DeskOk(d) && Routed(d, w) && IsWorkerEvent(e, w)
    requires e.WakeWorker? ==> d.owner == Free && d.pc == Asleep
    requires e.Look? ==> d.pc == Looking
    requires e.Work? ==> d.pc.Running?
    requires e.Relock? ==> d.owner == Free && d.pc.Ran?
    requires e.Remove? ==> d.pc.Removing?
    requires e.CountDown? ==> d.pc.Counting?
    ensures DeskOk(DeskStep(d, e)) && Routed(DeskStep(d, e), w)
  {
    hide WorkerOf, Routed;
    StepRouted(d, e, w);
    if e.Work? { WorkHistory(d, e); }
  }

  lemma WorkHistory(d: Desk, e: Event)
    requires d.queue != [] && d.pc == Running(d.queue[0]) && d.submitted == d.finished + d.queue && e.Work?
    ensures var t := DeskStep(d, e); t.submitted == t.finished + Rest(t)
  {
    var t := DeskStep(d, e);
    assert d.queue == [d.queue[0]] + d.queue[1..];
    assert d.finished + ([d.queue[0]] + d.queue[1..]) == d.finished + [d.queue[0]] + d.queue[1..];
  }

  lemma StepRouted(d: Desk, e: Event, w: nat)
    requires Routed(d, w) && IsWorkerEvent(e, w)
    requires e.Work? ==> d.pc.Running?
    requires e.Relock? ==> d.pc.Ran?
    requires e.Remove? ==> d.pc.Removing?
    requires e.CountDown? ==> d.pc.Counting?
    ensures Routed(DeskStep(d, e), w)
  {
    hide WorkerOf;
  }

  lemma WorkerDesks(s: State, w: nat, e: Event)
    requires Inv(s) && w < WORKERS && IsWorkerEvent(e, w) && Allowed(s, e)
    ensures DesksOk(WorkerStep(s, w, e))
  {
    hide WorkerOf, OwnersOk, CountersOk, AllPublished, DrainsOk, DeskOk, Routed, DeskStep;
    var t := WorkerStep(s, w, e);
    DeskStepOk(s.desks[w], e, w);
    forall v | 0 <= v < WORKERS ensures DeskOk(t.desks[v]) && Routed(t.desks[v], v) {
      assert DeskOk(s.desks[v]) && Routed(s.desks[v], v);
    }
  }

  lemma WorkerOwners(s: State, w: nat, e: Event)
    requires Inv(s) && w < WORKERS && IsWorkerEvent(e, w) && Allowed(s, e)
    ensures OwnersOk(WorkerStep(s, w, e))
  {
    hide WorkerOf, Holds, CountersOk, AllPublished, DrainsOk, Routed;
    var t := WorkerStep(s, w, e);
    assert DeskOk(s.desks[w]);
    assert t.desks[w].owner == s.desks[w].owner || (!t.desks[w].owner.Client? && !s.desks[w].owner.Client?);
  }

  lemma WorkerDrains(s: State, w: nat, e: Event)
    requires Inv(s) && w < WORKERS && IsWorkerEvent(e, w) && Allowed(s, e)
    ensures DrainsOk(WorkerStep(s, w, e))
  {
    hide WorkerOf, CountersOk, AllPublished, OwnersOk, DesksOk;
    var t := WorkerStep(s, w, e);
    forall d | d in t.clients ensures DrainOk(t, d) { assert DrainOk(s, d); }
  }

  lemma WorkerCounters(s: State, w: nat, e: Event)
    requires Inv(s) && w < WORKERS && IsWorkerEvent(e, w) && Allowed(s, e)
    ensures CountersOk(WorkerStep(s, w, e))
  {
    hide WorkerOf, AllPublished, OwnersOk, DrainsOk;
    var t := WorkerStep(s, w, e);
    forall k: Kind ensures CounterOk(t, k) {
      assert CounterOk(s, k);
      assert DeskOk(s.desks[w]) && Routed(s.desks[w], w);
    }
  }

  lemma WorkerPublishes(s: State, w: nat, e: Event)
    requires Inv(s) && w < WORKERS && IsWorkerEvent(e, w) && Allowed(s, e)
    ensures AllPublished(WorkerStep(s, w, e))
  {
    hide WorkerOf, CountersOk, OwnersOk, DrainsOk, Completions, From, IsCompletion;
    var t := WorkerStep(s, w, e);
    forall v | 0 <= v < WORKERS ensures PublishedOk(t, v) {
      assert PublishedOk(s, v);
      if e.Work? {
        var job := s.desks[w].pc.job;
        assert Routed(s.desks[w], w);
        CompletionsAppend(s.desks[w].finished, job);
        FromAppend(s.delivered + s.completions, job, v);
        assert s.delivered + (s.completions + [job]) == s.delivered + s.completions + [job];
      }
    }
  }

  lemma WorkerInv(s: State, w: nat, e: Event)
    requires Inv(s) && w < WORKERS && IsWorkerEvent(e, w) && Allowed(s, e)
    ensures Inv(WorkerStep(s, w, e))
  {
    hide OwnersOk, DesksOk, CountersOk, AllPublished, DrainsOk, DeskStep;
    WorkerDesks(s, w, e);
    WorkerOwners(s, w, e);
    WorkerDrains(s, w, e);
    WorkerCounters(s, w, e);
    WorkerPublishes(s, w, e);
  }

  // ----- every run

  lemma ClientInv(s: State, e: Event)
    requires Inv(s) && Allowed(s, e)
    requires e.Submit? || e.AddTail? || e.CountUp? || e.DrainCall? || e.DrainTest? || e.DrainWake?
    ensures Inv(ClientStep(s, e))
  {
    hide DesksOk, CountersOk, AllPublished, WorkerOf;
    var t := ClientStep(s, e);
    match e {
      case Submit(c, job) => Acquire(s, t, WorkerOf(job.kind), c, Adding(job));
      case AddTail(c) => AddInv(s, c);
      case CountUp(c) => Release(s, t, WorkerOf(s.clients[c].job.kind), c, Idle);
      case DrainCall(c, w) => Acquire(s, t, w, c, t.clients[c]);
      case DrainTest(c) => assert DrainOk(s, c); Release(s, t, s.clients[c].w, c, t.clients[c]);
      case DrainWake(c) => assert DrainOk(s, c); Acquire(s, t, s.clients[c].w, c, t.clients[c]);
    }
  }

  lemma DeliverInv(s: State)
    requires Inv(s)
    ensures Inv(DeliverStep(s))
  {
    hide From, Completions, WorkerOf, Holds;
    var t := DeliverStep(s);
    forall v | 0 <= v < WORKERS ensures PublishedOk(t, v) {
      assert PublishedOk(s, v);
      assert t.delivered + t.completions == s.delivered + s.completions;
    }
    forall k: Kind ensures CounterOk(t, k) { assert CounterOk(s, k); }
    forall d | d in t.clients ensures DrainOk(t, d) { assert DrainOk(s, d); }
  }

  lemma StepInv(s: State, e: Event)
    requires Inv(s) && Allowed(s, e)
    ensures Inv(Next(s, e))
  {
    hide OwnersOk, DesksOk, CountersOk, AllPublished, DrainsOk, ClientStep, WorkerStep, DeliverStep;
    match e {
      case WakeWorker(w) => WorkerInv(s, w, e);
      case Look(w) => WorkerInv(s, w, e);
      case Work(w) => WorkerInv(s, w, e);
      case Relock(w) => WorkerInv(s, w, e);
      case Remove(w) => WorkerInv(s, w, e);
      case CountDown(w) => WorkerInv(s, w, e);
      case Deliver => DeliverInv(s);
      case _ => ClientInv(s, e);
    }
  }

  ghost predicate IsRun(s: State, es: seq<Event>)
    decreases |es|
  {
    es != [] ==> Shape(s) && Allowed(s, es[0]) && IsRun(Next(s, es[0]), es[1..])
  }

  ghost function After(s: State, es: seq<Event>): State
    requires IsRun(s, es)
    decreases |es|
  {
    if es == [] then s else After(Next(s, es[0]), es[1..])
  }

  lemma {:induction false} RunInv(s: State, es: seq<Event>)
    requires Inv(s) && IsRun(s, es)
    ensures Inv(After(s, es))
    decreases |es|
  {
    hide Inv, Next, Allowed;
    if es != [] {
      StepInv(s, es[0]);
      RunInv(Next(s, es[0]), es[1..]);
    }
  }

  /** The counters as `bioInit` leaves them. */
  function Zero(): map<Kind, nat> {
    map[CloseFile := 0, AofFsync := 0, LazyFree := 0, CloseAof := 0, CompCloseFile := 0, CompAofFsync := 0,
      CompLazyFree := 0]
  }

  const FRESH := Desk([], Free, Asleep, [], [])

  function Start(clients: set<nat>): State {
    State([FRESH, FRESH, FRESH], Zero(), map c | c in clients :: Idle, [], [])
  }

  lemma StartInv(clients: set<nat>)
    ensures Inv(Start(clients))
  {
    hide DeskOk, Routed, PublishedOk, Zero;
    var s := Start(clients);
    ZeroCounts();
    FreshOk();
    assert forall w :: 0 <= w < WORKERS ==> s.desks[w] == FRESH;
    forall w | 0 <= w < WORKERS ensures PublishedOk(s, w) { NothingPublished(s, w); }
  }

  lemma ZeroCounts()
    ensures forall k: Kind :: k in Zero() && Zero()[k] == 0
  {
    forall k: Kind ensures k in Zero() && Zero()[k] == 0 {
      match k {
        case CloseFile => case AofFsync => case LazyFree => case CloseAof =>
        case CompCloseFile => case CompAofFsync => case CompLazyFree =>
      }
    }
  }

  lemma FreshOk()
    ensures DeskOk(FRESH) && forall w :: Routed(FRESH, w)
  {
    assert [] + Rest(FRESH) == [];
  }

  lemma NothingPublished(s: State, w: nat)
    requires Shape(s) && w < WORKERS && s.delivered == [] && s.completions == [] && s.desks[w].finished == []
    ensures PublishedOk(s, w)
  {
    assert s.delivered + s.completions == [];
  }

  // ----- what it means

  /** Each worker carries its jobs out in the order in which they were submitted. */
  lemma Fifo(s: State, w: nat)
    requires Inv(s) && w < WORKERS
    ensures s.desks[w].finished <= s.desks[w].submitted
  {
    assert DeskOk(s.desks[w]);
  }

  /** When the lock is free the counter is the number of jobs of that kind queued or being carried out. */
  lemma PendingIsExact(s: State, k: Kind)
    requires Inv(s) && s.desks[WorkerOf(k)].owner == Free
    ensures s.counters[k] == Count(s.desks[WorkerOf(k)].queue, k)
    ensures s.counters[k] == 0 ==> forall i ::
      |s.desks[WorkerOf(k)].finished| <= i < |s.desks[WorkerOf(k)].submitted| ==>
        s.desks[WorkerOf(k)].submitted[i].kind != k
  {
    hide OwnersOk, DrainsOk, AllPublished, WorkerOf;
    var d := s.desks[WorkerOf(k)];
    assert CounterOk(s, k) && DeskOk(d);
    if s.counters[k] == 0 {
      forall i | |d.finished| <= i < |d.submitted| ensures d.submitted[i].kind != k {
        var q := i - |d.finished|;
        assert d.submitted[i] == Rest(d)[q];
        var r := if Rest(d) == d.queue then q else q + 1;
        assert d.queue[r] == d.submitted[i];
        NoneOfKind(d.queue, k, r);
      }
    }
  }

  lemma {:induction false} NoneOfKind(q: seq<Job>, k: Kind, i: nat)
    requires Count(q, k) == 0 && i < |q|
    ensures q[i].kind != k
    decreases |q|
  {
    if i > 0 { NoneOfKind(q[1..], k, i - 1); }
  }

  /** When a drain finds the queue empty and returns, every job submitted before the call has been carried out. */
  lemma DrainReturns(s: State, c: nat)
    requires Inv(s) && c in s.clients && s.clients[c].Draining?
    requires s.clients[c].w < WORKERS && s.desks[s.clients[c].w].queue == []
    ensures var d := s.desks[s.clients[c].w];
      d.finished == d.submitted && s.clients[c].goal <= |d.finished|
  {
    var d := s.desks[s.clients[c].w];
    assert DrainOk(s, c) && DeskOk(d);
    assert d.finished + [] == d.finished;
  }

  /**
   The completions a worker has published, delivered or not, are those among the jobs it has finished, in their
   order: each once, and only after all jobs that were submitted to the worker before it.
   */
  lemma CompletionsInOrder(s: State, w: nat)
    requires Inv(s) && w < WORKERS
    ensures From(s.delivered + s.completions, w) == Completions(s.desks[w].finished)
    ensures From(s.delivered + s.completions, w) <= Completions(s.desks[w].submitted)
  {
    assert PublishedOk(s, w) && DeskOk(s.desks[w]);
    CompletionsConcat(s.desks[w].finished, Rest(s.desks[w]));
  }

  lemma {:induction false} CompletionsConcat(a: seq<Job>, b: seq<Job>)
    ensures Completions(a + b) == Completions(a) + Completions(b)
    decreases |a|
  {
    hide IsCompletion;
    if a == [] {
      assert a + b == b;
    } else {
      assert (a + b)[1..] == a[1..] + b;
      CompletionsConcat(a[1..], b);
      var x := if IsCompletion(a[0].kind) then [a[0]] else [];
      assert x + (Completions(a[1..]) + Completions(b)) == x + Completions(a[1..]) + Completions(b);
    }
  }

  // ----- what gets done

  /** The event may happen and leads to `t`. */
  ghost predicate Leads(s: State, e: Event, t: State) { Shape(s) && Allowed(s, e) && Next(s, e) == t }

  /** Files are closed by one worker, fsynced and closed AOF files by a second, memory is freed by a third. */
  lemma WorkersOfKinds()
    ensures WorkerOf(CloseAof) == WorkerOf(AofFsync) == WorkerOf(CompAofFsync)
    ensures WorkerOf(CloseFile) == WorkerOf(CompCloseFile) && WorkerOf(LazyFree) == WorkerOf(CompLazyFree)
    ensures WorkerOf(CloseFile) != WorkerOf(AofFsync) && WorkerOf(AofFsync) != WorkerOf(LazyFree)
    ensures WorkerOf(CloseFile) != WorkerOf(LazyFree)
  {}

  /** A submitted job is at the end of the queue of its worker and counted, and the lock is free again. */
  lemma SubmitAdds(s: State, c: nat, job: Job) returns (a: State, b: State, t: State)
    requires Shape(s) && c in s.clients && s.clients[c] == Idle && IsFree(s, WorkerOf(job.kind))
    ensures Leads(s, Submit(c, job), a) && Leads(a, AddTail(c), b) && Leads(b, CountUp(c), t)
    ensures var d, w := s.desks[WorkerOf(job.kind)], WorkerOf(job.kind);
      t == s.(desks := s.desks[w := d.(queue := d.queue + [job], submitted := d.submitted + [job])],
              counters := s.counters[job.kind := s.counters[job.kind] + 1])
  {
    a := Next(s, Submit(c, job));
    b := Next(a, AddTail(c));
    t := Next(b, CountUp(c));
    assert t.clients == s.clients;
  }

  /** A worker that wakes up carries out its oldest job, with the lock free, and publishes a completion. */
  lemma WorkerRuns(s: State, w: nat) returns (a: State, b: State, t: State)
    requires Shape(s) && w < WORKERS && s.desks[w].owner == Free && s.desks[w].pc == Asleep && s.desks[w].queue != []
    ensures Leads(s, WakeWorker(w), a) && Leads(a, Look(w), b) && Leads(b, Work(w), t)
    ensures var job, d := s.desks[w].queue[0], s.desks[w];
      && t.desks == s.desks[w := d.(pc := Ran(job), finished := d.finished + [job])] && t.counters == s.counters
      && t.clients == s.clients && t.delivered == s.delivered
      && t.completions == s.completions
          + (if job.kind.CompCloseFile? || job.kind.CompAofFsync? || job.kind.CompLazyFree? then [job] else [])
  {
    a := Next(s, WakeWorker(w));
    b := Next(a, Look(w));
    t := Next(b, Work(w));
    assert s.completions + [] == s.completions;
  }

  /** Then it takes the job off the queue and off the count. */
  lemma WorkerRetires(s: State, w: nat) returns (a: State, b: State, t: State)
    requires Shape(s) && w < WORKERS && s.desks[w].owner == Free && s.desks[w].pc.Ran? && s.desks[w].queue != []
    ensures Leads(s, Relock(w), a) && Leads(a, Remove(w), b) && Leads(b, CountDown(w), t)
    ensures var d := s.desks[w];
      && t.desks == s.desks[w := d.(pc := Looking, owner := Worker, queue := d.queue[1..])]
      && t.completions == s.completions && t.clients == s.clients && t.delivered == s.delivered
      && (s.counters[d.pc.job.kind] > 0 ==>
          t.counters == s.counters[d.pc.job.kind := s.counters[d.pc.job.kind] - 1])
  {
    a := Next(s, Relock(w));
    b := Next(a, Remove(w));
    t := Next(b, CountDown(w));
  }

  /** With the lock it looks for the next job, and sleeps if there is none. */
  lemma WorkerLooks(s: State, w: nat) returns (t: State)
    requires Shape(s) && w < WORKERS && s.desks[w].pc == Looking
    ensures Leads(s, Look(w), t)
    ensures var d := s.desks[w];
      t == s.(desks := s.desks[w := d.(owner := Free, pc := if d.queue == [] then Asleep else Running(d.queue[0]))])
  {
    t := Next(s, Look(w));
  }
}
