// The job engine (internal/job/queue.go, internal/job/lock.go): a worker pool
// over the persisted queue, one mutex per project, log streams, crashes and
// restarts, as a machine over the program counters of the worker goroutines.
//
// A run is a sequence of events. Each event is one critical section or one
// blocking point of the source, so the runs are all interleavings.
module JobEngine {
  import opened Base
  import opened JobTable
  import LogStreams

  type Worker = nat
  type Key = int

  // Where a worker goroutine is inside worker/dispatch. job is the row as
  // ClaimNext returned it: later changes of the table do not reach it.
  datatype Pc =
    | Idle
    | Claimed(id: JobId, job: Job)     // before locks.Lock
    | Waiting(id: JobId, job: Job)     // mutex looked up, in m.Lock()
    | Handling(id: JobId, job: Job)    // holds the mutex, inside Handle
    | Unlocking(id: JobId, job: Job)   // Handle is over, before locks.Unlock
    | Closing(id: JobId, job: Job)     // unlocked, before closeStreams
    | Draining(id: JobId, job: Job)    // closing the detached channels

  // Booted: the process serves requests. Started: the worker pool runs as well.
  datatype Phase = Down | Booted | Started

  datatype State = State(
    phase: Phase,
    jobs: Table,
    workers: map<Worker, Pc>,
    locks: map<Key, Option<Worker>>,   // the mutexes created so far, and their holders
    claimedBy: map<JobId, Worker>,     // every claim of this process
    streams: LogStreams.State)

  // The key dispatch locks: the job's project, or 0 without one.
  function KeyOf(job: Job): Key { if job.project.Some? then job.project.value else 0 }

  // Between acquiring and releasing the project's mutex.
  predicate Holds(pc: Pc) { pc.Handling? || pc.Unlocking? }
  // Claimed, but closeStreams has not detached the job's streams yet.
  predicate Undrained(pc: Pc) { !pc.Idle? && !pc.Draining? }

  datatype Event =
    | Boot
    | Start(pool: set<Worker>, resumed: bool)          // ResumeInterrupted, then the pool
    | Crash
    | Store(op: Op)                                    // a statement of another goroutine
    | Subscribe(id: JobId, ch: LogStreams.Chan)        // Stream
    | Work(w: Worker, act: Action)

  // What a worker goroutine, or a goroutine of its handler, does next.
  datatype Action =
    | Claim(id: JobId)
    | Lookup                                           // keyedMutex.Lock up to k.mu.Unlock
    | Acquire                                          // m.Lock() returns
    | Finish(status: Status)                           // the handler records a result
    | Emit(e: LogStreams.Event)                        // a goroutine inside Emit moves
    | Return
    | Panic(recorded: bool)                            // recover(), which records "failed"
    | Unlock
    | Hangup                                           // closeStreams under e.mu
    | CloseOne                                         // one close(ch) of its loop
    | Rest                                             // OnFinish, back to the claim loop

  predicate Enabled(s: State, e: Event)
  {
    match e
    case Boot => s.phase.Down?
    case Start(_, _) => s.phase.Booted?
    case Crash => !s.phase.Down?
    // Enqueue, the purges and cascading deletes. Claim, finish and resume are
    // the engine's own statements.
    case Store(op) => !s.phase.Down? && (op.Enq? || op.Purge? || op.Detach?) && Allowed(s.jobs, op)
    // Get succeeded at some earlier moment, so the id was handed out.
    case Subscribe(id, ch) =>
      !s.phase.Down? && id < s.jobs.nextId && LogStreams.Enabled(s.streams, LogStreams.Stream(id, ch))
    case Work(w, act) => s.phase.Started? && w in s.workers && CanDo(s, s.workers[w], act)
  }

  predicate CanDo(s: State, pc: Pc, act: Action)
  {
    && AtPoint(pc, act)
    && (act.Claim? ==> OldestQueued(s.jobs, act.id))
    && (act.Acquire? ==> KeyOf(pc.job) in s.locks && s.locks[KeyOf(pc.job)].None?)
    && (act.Emit? ==> EmitOf(s.streams, act.e, pc.id))
    && (OnStreams(pc, act).Some? ==> LogStreams.Enabled(s.streams, OnStreams(pc, act).value))
  }

  // The program point an action starts from.
  predicate AtPoint(pc: Pc, act: Action)
  {
    match act
    case Claim(_) => pc.Idle?
    case Lookup => pc.Claimed?
    case Acquire => pc.Waiting?
    case Finish(status) => pc.Handling? && Terminal(status)
    case Emit(_) => pc.Handling?
    case Return => pc.Handling?
    case Panic(_) => pc.Handling?
    case Unlock => pc.Unlocking?
    case Hangup => pc.Closing?
    case CloseOne => pc.Draining?
    case Rest => pc.Draining?
  }

  // What an action does to the log streams, if anything.
  function OnStreams(pc: Pc, act: Action): Option<LogStreams.Event>
    requires AtPoint(pc, act)
  {
    match act
    case Acquire => Some(LogStreams.Enter(pc.id))
    case Emit(e) => Some(e)
    case Return => Some(LogStreams.Leave(pc.id))
    case Panic(_) => Some(LogStreams.Leave(pc.id))
    case Hangup => Some(LogStreams.Hangup(pc.id))
    case CloseOne => Some(LogStreams.CloseOne(pc.id))
    case Rest => Some(LogStreams.Drained(pc.id))
    case _ => None
  }

  // e is a step of an Emit call for job id.
  predicate EmitOf(streams: LogStreams.State, e: LogStreams.Event, id: JobId)
  {
    || (e.EmitStart? && e.id == id)
    || (e.EmitSend? && e.e in streams.emits && streams.emits[e.e].id == id)
    || (e.EmitEnd? && e.e in streams.emits && streams.emits[e.e].id == id)
  }

  function Cleared(s: State, phase: Phase): State
  {
    State(phase, s.jobs, map[], map[], map[], LogStreams.EMPTY)
  }

  function Apply(s: State, e: Event): State
    requires Enabled(s, e)
  {
    match e
    case Boot => Cleared(s, Booted)
    case Start(pool, resumed) =>
      s.(phase := Started, workers := map w | w in pool :: Idle, jobs := if resumed then Resumed(s.jobs) else s.jobs)
    case Crash => Cleared(s, Down)
    case Store(op) => s.(jobs := Applied(s.jobs, op))
    case Subscribe(id, ch) => s.(streams := LogStreams.Apply(s.streams, LogStreams.Stream(id, ch)))
    case Work(w, act) =>
      var pc := s.workers[w];
      var jobs := JobsAfter(s.jobs, pc, act);
      State(s.phase, jobs,
            s.workers[w := PcAfter(jobs, pc, act)],
            LocksAfter(s.locks, w, pc, act),
            if act.Claim? then s.claimedBy[act.id := w] else s.claimedBy,
            if OnStreams(pc, act).Some? then LogStreams.Apply(s.streams, OnStreams(pc, act).value) else s.streams)
  }

  function PcAfter(jobs: Table, pc: Pc, act: Action): Pc
    requires AtPoint(pc, act) && (act.Claim? ==> act.id in jobs.rows)
  {
    match act
    case Claim(id) => Claimed(id, jobs.rows[id])
    case Lookup => Waiting(pc.id, pc.job)
    case Acquire => Handling(pc.id, pc.job)
    case Return => Unlocking(pc.id, pc.job)
    case Panic(_) => Unlocking(pc.id, pc.job)
    case Unlock => Closing(pc.id, pc.job)
    case Hangup => Draining(pc.id, pc.job)
    case Rest => Idle
    case _ => pc
  }

  function JobsAfter(t: Table, pc: Pc, act: Action): Table
    requires AtPoint(pc, act)
  {
    match act
    case Claim(id) => WithStatus(t, id, Running)
    case Finish(status) => WithStatus(t, pc.id, status)
    case Panic(recorded) => if recorded then WithStatus(t, pc.id, Failed) else t
    case _ => t
  }

  function LocksAfter(locks: map<Key, Option<Worker>>, w: Worker, pc: Pc, act: Action): map<Key, Option<Worker>>
    requires AtPoint(pc, act)
  {
    match act
    case Lookup => if KeyOf(pc.job) in locks then locks else locks[KeyOf(pc.job) := None]
    case Acquire => locks[KeyOf(pc.job) := Some(w)]
    case Unlock => if KeyOf(pc.job) in locks then locks[KeyOf(pc.job) := None] else locks
    case _ => locks
  }

  // A database as any earlier process may have left it, and nothing running.
  ghost predicate Init(s: State) { s == Cleared(s, Down) && Valid(s.jobs) }

  // ----- the invariant -------------------------------------------------------

  // Nothing is in flight before the pool starts.
  ghost predicate PhaseInv(s: State)
  {
    !s.phase.Started? ==>
      s.workers == map[] && s.locks == map[] && s.claimedBy == map[]
      && s.streams.finished == {} && s.streams.active == {} && s.streams.draining == map[]
  }

  // A mutex is held by exactly the worker that is inside a handler for its key.
  ghost predicate LockInv(workers: map<Worker, Pc>, locks: map<Key, Option<Worker>>)
  {
    && (forall w :: w in workers && Holds(workers[w]) ==>
          KeyOf(workers[w].job) in locks && locks[KeyOf(workers[w].job)] == Some(w))
    && (forall w :: w in workers && workers[w].Waiting? ==> KeyOf(workers[w].job) in locks)
    && (forall k :: k in locks && locks[k].Some? ==>
          && locks[k].value in workers && Holds(workers[locks[k].value])
          && KeyOf(workers[locks[k].value].job) == k)
  }

  // A claimed job is never queued again in this process, and the worker that
  // claimed it owns it until its streams are detached.
  ghost predicate ClaimInv(jobs: Table, workers: map<Worker, Pc>, claimedBy: map<JobId, Worker>, finished: set<JobId>)
  {
    && Valid(jobs)
    && (forall id :: id in claimedBy ==> id < jobs.nextId && !HasStatus(jobs, id, Queued))
    && (forall w :: w in workers && !workers[w].Idle? ==> workers[w].id in claimedBy && claimedBy[workers[w].id] == w)
    && (forall id :: id in claimedBy && id !in finished ==>
          claimedBy[id] in workers && Undrained(workers[claimedBy[id]]) && workers[claimedBy[id]].id == id)
    && (forall id :: id in finished ==> id in claimedBy)
    && (forall w :: w in workers && Undrained(workers[w]) ==> workers[w].id !in finished)
  }

  // The stream machine's view of a job agrees with its worker's.
  ghost predicate LinkInv(workers: map<Worker, Pc>, claimedBy: map<JobId, Worker>, active: set<JobId>, draining: set<JobId>)
  {
    && (forall w :: w in workers ==> (workers[w].Handling? ==> workers[w].id in active))
    && (forall w :: w in workers ==> (workers[w].Draining? ==> workers[w].id in draining))
    && (forall id :: id in active ==> Inside(workers, claimedBy, id) && workers[claimedBy[id]].Handling?)
    && (forall id :: id in draining ==> Inside(workers, claimedBy, id) && workers[claimedBy[id]].Draining?)
  }

  ghost predicate Inside(workers: map<Worker, Pc>, claimedBy: map<JobId, Worker>, id: JobId)
  {
    id in claimedBy && claimedBy[id] in workers && !workers[claimedBy[id]].Idle? && workers[claimedBy[id]].id == id
  }

  ghost predicate Inv(s: State)
  {
    && PhaseInv(s)
    && LockInv(s.workers, s.locks)
    && ClaimInv(s.jobs, s.workers, s.claimedBy, s.streams.finished)
    && LinkInv(s.workers, s.claimedBy, s.streams.active, s.streams.draining.Keys)
    && LogStreams.Inv(s.streams)
  }

  lemma RestartInv(s: State, phase: Phase)
    requires Valid(s.jobs)
    ensures Inv(Cleared(s, phase))
  {
    LogStreams.EmptyInv();
  }

  // The pool starts with every worker idle.
  lemma StartInv(s: State, pool: set<Worker>, resumed: bool)
    requires Inv(s) && s.phase.Booted?
    ensures Inv(Apply(s, Start(pool, resumed)))
  {
  }

  lemma MoveKeepsLocks(workers: map<Worker, Pc>, locks: map<Key, Option<Worker>>, jobs: Table, w: Worker, act: Action)
    requires LockInv(workers, locks) && w in workers && AtPoint(workers[w], act)
    requires act.Claim? ==> act.id in jobs.rows
    requires act.Acquire? ==> KeyOf(workers[w].job) in locks && locks[KeyOf(workers[w].job)].None?
    ensures LockInv(workers[w := PcAfter(jobs, workers[w], act)], LocksAfter(locks, w, workers[w], act))
  {
  }

  // Another statement on the table cannot put a claimed job back in the queue.
  lemma TableKeepsClaims(t: Table, t': Table, workers: map<Worker, Pc>, claimedBy: map<JobId, Worker>, finished: set<JobId>)
    requires ClaimInv(t, workers, claimedBy, finished) && Valid(t') && t.nextId <= t'.nextId
    requires forall id: JobId :: id < t.nextId && HasStatus(t', id, Queued) ==> HasStatus(t, id, Queued)
    ensures ClaimInv(t', workers, claimedBy, finished)
  {
  }

  lemma ClaimKeepsClaims(t: Table, workers: map<Worker, Pc>, claimedBy: map<JobId, Worker>, finished: set<JobId>, w: Worker, id: JobId)
    requires ClaimInv(t, workers, claimedBy, finished) && w in workers && workers[w].Idle? && OldestQueued(t, id)
    ensures id !in claimedBy
    ensures var t' := WithStatus(t, id, Running);
            ClaimInv(t', workers[w := Claimed(id, t'.rows[id])], claimedBy[id := w], finished)
  {
  }

  lemma MoveKeepsClaims(t: Table, workers: map<Worker, Pc>, claimedBy: map<JobId, Worker>, finished: set<JobId>, w: Worker, act: Action)
    requires ClaimInv(t, workers, claimedBy, finished) && w in workers && AtPoint(workers[w], act) && !act.Claim?
    requires act.Rest? ==> workers[w].id in finished
    ensures ClaimInv(t, workers[w := PcAfter(t, workers[w], act)], claimedBy,
                     if act.Hangup? then finished + {workers[w].id} else finished)
  {
  }

  lemma ClaimKeepsLink(t: Table, workers: map<Worker, Pc>, claimedBy: map<JobId, Worker>, active: set<JobId>, draining: set<JobId>, w: Worker, id: JobId)
    requires LinkInv(workers, claimedBy, active, draining)
    requires w in workers && workers[w].Idle? && id in t.rows && id !in claimedBy
    ensures LinkInv(workers[w := Claimed(id, t.rows[id])], claimedBy[id := w], active, draining)
  {
  }

  function ActiveAfter(active: set<JobId>, pc: Pc, act: Action): set<JobId>
    requires AtPoint(pc, act)
  {
    if act.Acquire? then active + {pc.id} else if act.Return? || act.Panic? then active - {pc.id} else active
  }

  function DrainingAfter(draining: set<JobId>, pc: Pc, act: Action): set<JobId>
    requires AtPoint(pc, act)
  {
    if act.Hangup? then draining + {pc.id} else if act.Rest? then draining - {pc.id} else draining
  }

  lemma MoveKeepsLink(t: Table, workers: map<Worker, Pc>, claimedBy: map<JobId, Worker>, finished: set<JobId>, active: set<JobId>, draining: set<JobId>, w: Worker, act: Action)
    requires ClaimInv(t, workers, claimedBy, finished) && LinkInv(workers, claimedBy, active, draining)
    requires w in workers && AtPoint(workers[w], act) && !act.Claim?
    ensures LinkInv(workers[w := PcAfter(t, workers[w], act)], claimedBy,
                    ActiveAfter(active, workers[w], act), DrainingAfter(draining, workers[w], act))
  {
  }

  // The stream event of a move starts or ends that job's handler or drain only.
  lemma StreamsAfterMove(streams: LogStreams.State, pc: Pc, act: Action)
    requires AtPoint(pc, act) && OnStreams(pc, act).Some? && LogStreams.Enabled(streams, OnStreams(pc, act).value)
    requires act.Emit? ==> EmitOf(streams, act.e, pc.id)
    ensures var streams' := LogStreams.Apply(streams, OnStreams(pc, act).value);
            && streams'.active == ActiveAfter(streams.active, pc, act)
            && streams'.draining.Keys == DrainingAfter(streams.draining.Keys, pc, act)
            && streams'.finished == if act.Hangup? then streams.finished + {pc.id} else streams.finished
  {
  }

  lemma WorkKeepsInv(s: State, w: Worker, act: Action)
    requires Inv(s) && Enabled(s, Work(w, act))
    ensures Inv(Apply(s, Work(w, act)))
  {
    var s' := Apply(s, Work(w, act));
    var pc := s.workers[w];
    MoveKeepsLocks(s.workers, s.locks, s'.jobs, w, act);
    if OnStreams(pc, act).Some? {
      LogStreams.StepKeepsInv(s.streams, OnStreams(pc, act).value);
      StreamsAfterMove(s.streams, pc, act);
    }
    if act.Claim? {
      ClaimKeepsClaims(s.jobs, s.workers, s.claimedBy, s.streams.finished, w, act.id);
      ClaimKeepsLink(s'.jobs, s.workers, s.claimedBy, s.streams.active, s.streams.draining.Keys, w, act.id);
    } else {
      TableKeepsClaims(s.jobs, s'.jobs, s.workers, s.claimedBy, s.streams.finished);
      MoveKeepsClaims(s'.jobs, s.workers, s.claimedBy, s.streams.finished, w, act);
      MoveKeepsLink(s'.jobs, s.workers, s.claimedBy, s.streams.finished, s.streams.active, s.streams.draining.Keys, w, act);
    }
  }

  lemma StepKeepsInv(s: State, e: Event)
    requires Inv(s) && Enabled(s, e)
    ensures Inv(Apply(s, e))
  {
    match e
    case Work(w, act) => WorkKeepsInv(s, w, act);
    case Subscribe(id, ch) => LogStreams.StepKeepsInv(s.streams, LogStreams.Stream(id, ch));
    case Boot => RestartInv(s, Booted);
    case Crash => RestartInv(s, Down);
    case Start(pool, resumed) => StartInv(s, pool, resumed);
    case Store(op) => TableKeepsClaims(s.jobs, Applied(s.jobs, op), s.workers, s.claimedBy, s.streams.finished);
  }

  // ----- runs ----------------------------------------------------------------

  // ss are the states of a run from a cold database, es the events between them.
  ghost predicate Run(ss: seq<State>, es: seq<Event>)
  {
    && |ss| == |es| + 1 && Init(ss[0])
    && forall i :: 0 <= i < |es| ==> Enabled(ss[i], es[i]) && ss[i + 1] == Apply(ss[i], es[i])
  }

  lemma {:induction false} RunInv(ss: seq<State>, es: seq<Event>, n: nat)
    requires Run(ss, es) && n < |ss|
    ensures Inv(ss[n])
  {
    if n == 0 {
      RestartInv(ss[0], Down);
    } else {
      RunInv(ss, es, n - 1);
      StepKeepsInv(ss[n - 1], es[n - 1]);
    }
  }

  // At most one handler runs per project key, in every interleaving.
  lemma OneHandlerPerProject(ss: seq<State>, es: seq<Event>, n: nat, v: Worker, w: Worker)
    requires Run(ss, es) && n < |ss|
    requires v in ss[n].workers && w in ss[n].workers
    requires ss[n].workers[v].Handling? && ss[n].workers[w].Handling?
    requires KeyOf(ss[n].workers[v].job) == KeyOf(ss[n].workers[w].job)
    ensures v == w
  {
    RunInv(ss, es, n);
  }

  lemma {:induction false} ClaimRemembered(ss: seq<State>, es: seq<Event>, i: nat, j: nat, id: JobId)
    requires Run(ss, es) && i <= j < |ss| && id in ss[i].claimedBy
    requires forall k :: i <= k < j ==> !es[k].Crash?
    ensures id in ss[j].claimedBy
    decreases j - i
  {
    if i < j {
      ClaimRemembered(ss, es, i, j - 1, id);
      RunInv(ss, es, j - 1);
      StepRemembers(ss[j - 1], es[j - 1], id);
    }
  }

  lemma StepRemembers(s: State, e: Event, id: JobId)
    requires PhaseInv(s) && Enabled(s, e) && !e.Crash? && id in s.claimedBy
    ensures id in Apply(s, e).claimedBy
  {
  }

  // No job is claimed twice in one process: a second claim of an id comes after
  // a crash.
  lemma NoDoubleClaim(ss: seq<State>, es: seq<Event>, i: nat, j: nat, v: Worker, w: Worker, id: JobId)
    requires Run(ss, es) && i < j < |es|
    requires es[i] == Work(v, Action.Claim(id)) && es[j] == Work(w, Action.Claim(id))
    ensures exists k :: i < k < j && es[k].Crash?
  {
    if forall k :: i < k < j ==> !es[k].Crash? {
      ClaimRemembered(ss, es, i + 1, j, id);
      RunInv(ss, es, j);
      var s := ss[j];
      ClaimKeepsClaims(s.jobs, s.workers, s.claimedBy, s.streams.finished, w, id);
      assert false;
    }
  }

  // Moves towards the end of the dispatch: neither another result nor another
  // log line.
  predicate Forward(act: Action) { !act.Finish? && !(act.Emit? && act.e.EmitStart?) }

  ghost predicate CanMove(s: State, w: Worker) { exists act :: Enabled(s, Work(w, act)) && Forward(act) }

  // A handler can return as soon as its emits are over, and those never block.
  lemma HandlerMoves(s: State, w: Worker) returns (act: Action)
    requires LogStreams.Inv(s.streams) && s.phase.Started? && w in s.workers && s.workers[w].Handling?
    requires s.workers[w].id in s.streams.active
    ensures Enabled(s, Work(w, act)) && Forward(act)
  {
    var id := s.workers[w].id;
    if LogStreams.Quiet(s.streams, id) {
      act := Return;
    } else {
      var e :| e in s.streams.emits && s.streams.emits[e].id == id;
      var pending := s.streams.emits[e].pending;
      if pending == [] {
        act := Emit(LogStreams.EmitEnd(e));
      } else {
        assert pending[0] in pending && LogStreams.Lists(s.streams.subs, id, pending[0]);
        act := Emit(LogStreams.EmitSend(e));
      }
    }
  }

  lemma DrainMoves(s: State, w: Worker) returns (act: Action)
    requires LogStreams.Inv(s.streams) && s.phase.Started? && w in s.workers && s.workers[w].Draining?
    requires s.workers[w].id in s.streams.draining
    ensures Enabled(s, Work(w, act)) && Forward(act)
  {
    var list := s.streams.draining[s.workers[w].id];
    if list == [] {
      act := Rest;
    } else {
      assert list[0] in list;
      act := CloseOne;
    }
  }

  // A busy worker that is not waiting for a mutex can always move.
  lemma UnblockedMoves(s: State, w: Worker)
    requires Inv(s) && s.phase.Started? && w in s.workers && !s.workers[w].Idle? && !s.workers[w].Waiting?
    ensures CanMove(s, w)
  {
    match s.workers[w]
    case Claimed(_, _) => assert Enabled(s, Work(w, Lookup));
    case Handling(_, _) => var act := HandlerMoves(s, w);
    case Unlocking(_, _) => assert Enabled(s, Work(w, Unlock));
    case Closing(_, _) => assert Enabled(s, Work(w, Hangup));
    case Draining(_, _) => var act := DrainMoves(s, w);
  }

  // A worker waits for a key only while another worker is inside a handler for
  // that key, and that worker can move: no cycle of waiting workers exists.
  lemma NoDeadlock(ss: seq<State>, es: seq<Event>, n: nat, w: Worker)
    requires Run(ss, es) && n < |ss| && ss[n].phase.Started?
    requires w in ss[n].workers && ss[n].workers[w].Waiting?
    ensures var s := ss[n];
            || Enabled(s, Work(w, Acquire))
            || exists v :: v in s.workers && v != w && Holds(s.workers[v])
                 && KeyOf(s.workers[v].job) == KeyOf(s.workers[w].job) && CanMove(s, v)
  {
    RunInv(ss, es, n);
    var s := ss[n];
    var key := KeyOf(s.workers[w].job);
    if s.locks[key].Some? {
      UnblockedMoves(s, s.locks[key].value);
    } else {
      assert Enabled(s, Work(w, Acquire));
    }
  }

  // Over any run with crashes and reboots the jobs table moves by single
  // statements, so NoJobLostOrInvented applies to it.
  lemma RunOfTable(ss: seq<State>, es: seq<Event>)
    requires Run(ss, es)
    ensures TableRun(seq(|ss|, i requires 0 <= i < |ss| => ss[i].jobs))
  {
    var ts := seq(|ss|, i requires 0 <= i < |ss| => ss[i].jobs);
    forall i | 0 <= i < |ts| - 1 ensures Follows(ts[i], ts[i + 1]) {
      StepOfTable(ss[i], es[i]);
    }
  }

  lemma StepOfTable(s: State, e: Event)
    requires Enabled(s, e)
    ensures Follows(s.jobs, Apply(s, e).jobs)
  {
    var t, t' := s.jobs, Apply(s, e).jobs;
    match e
    case Start(_, resumed) => if resumed { assert Allowed(t, Resume) && t' == Applied(t, Resume); }
    case Store(op) => assert Allowed(t, op) && t' == Applied(t, op);
    case Work(w, act) =>
      var id := s.workers[w];
      match act {
        case Claim(id) => assert Allowed(t, Op.Claim(id)) && t' == Applied(t, Op.Claim(id));
        case Finish(st) => assert Allowed(t, Fin(id.id, st)) && t' == Applied(t, Fin(id.id, st));
        case Panic(recorded) => if recorded { assert Allowed(t, Fin(id.id, Failed)) && t' == Applied(t, Fin(id.id, Failed)); }
        case _ =>
      }
    case _ =>
  }

  // Whatever crashed in between, a job that was terminal once is never queued
  // or running again, and a job that disappeared was terminal before.
  lemma JobsSurvive(ss: seq<State>, es: seq<Event>, i: nat, j: nat, id: JobId)
    requires Run(ss, es) && i <= j < |ss| && id in ss[i].jobs.rows
    ensures Terminal(ss[i].jobs.rows[id].status) && id in ss[j].jobs.rows ==> Terminal(ss[j].jobs.rows[id].status)
    ensures id !in ss[j].jobs.rows ==>
              exists k :: i <= k < j && id in ss[k].jobs.rows && Terminal(ss[k].jobs.rows[id].status)
  {
    RunOfTable(ss, es);
    var ts := seq(|ss|, i requires 0 <= i < |ss| => ss[i].jobs);
    NoJobLostOrInvented(ts, i, j, id);
    if id !in ss[j].jobs.rows {
      var k :| i <= k < j && id in ts[k].rows && Terminal(ts[k].rows[id].status);
      assert ts[k] == ss[k].jobs;
    }
  }

  // The life of a subscriber's channel in one process. Nothing is ever sent on a
  // closed channel or closed twice; a channel of a job dispatched here is closed
  // exactly once as soon as the dispatch is over, also when it was subscribed
  // afterwards; a channel of a job this process never dispatched stays open.
  lemma ClosedExactlyOnce(ss: seq<State>, es: seq<Event>, n: nat, ch: LogStreams.Chan)
    requires Run(ss, es) && n < |ss| && ch in ss[n].streams.chans
    ensures var s := ss[n]; var c := s.streams.chans[ch];
            && !s.streams.faulted
            && (c.closes == 0 || c.closes == 1)
            && (c.id in s.claimedBy && !Inside(s.workers, s.claimedBy, c.id) ==> c.closes == 1)
            && (c.id !in s.claimedBy ==> c.closes == 0)
  {
    RunInv(ss, es, n);
  }

  // A subscription after the job's streams were closed gets a closed channel.
  lemma LateSubscriber(s: State, id: JobId, ch: LogStreams.Chan)
    requires Inv(s) && Enabled(s, Subscribe(id, ch))
    ensures var s' := Apply(s, Subscribe(id, ch));
            s'.streams.chans[ch].closes == 1 <==>
              id in s.claimedBy && !(Inside(s.workers, s.claimedBy, id) && Undrained(s.workers[s.claimedBy[id]]))
  {
  }
}
