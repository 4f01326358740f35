// The persisted jobs table (internal/store/jobs.go).
//
// The table is a value; every SQL statement of the repository is a function on
// it, and class Jobs is the repository object that applies them in place.
module JobTable {
  import opened Base

  type JobId = nat

  datatype Status = Queued | Running | Success | Failed | Canceled

  // queued and running rows belong to the worker pool; the rest are finished.
  predicate Terminal(s: Status) { s.Success? || s.Failed? || s.Canceled? }

  datatype Job = Job(
    kind: string, project: Option<int>, service: Option<int>, status: Status,
    scope: string, requestedBy: string, createdAt: int)

  // nextId is SQLite's AUTOINCREMENT counter: an id is never handed out twice,
  // not even after its row was purged.
  datatype Table = Table(rows: map<JobId, Job>, nextId: JobId)

  ghost predicate Valid(t: Table) { forall id :: id in t.rows ==> id < t.nextId }

  predicate HasStatus(t: Table, id: JobId, s: Status) { id in t.rows && t.rows[id].status == s }

  // The row ClaimNext's subquery selects: the smallest queued id.
  predicate OldestQueued(t: Table, id: JobId)
  {
    HasStatus(t, id, Queued) && forall other :: other in t.rows && t.rows[other].status == Queued ==> id <= other
  }

  // Enqueue's defaults: an empty scope or requester is filled in.
  function Defaults(j: Job): Job
  {
    j.(scope := if j.scope == "" then "service" else j.scope,
       requestedBy := if j.requestedBy == "" then "user" else j.requestedBy)
  }

  function Inserted(t: Table, j: Job): Table
  {
    Table(t.rows[t.nextId := Defaults(j)], t.nextId + 1)
  }

  function WithStatus(t: Table, id: JobId, s: Status): Table
  {
    if id in t.rows then t.(rows := t.rows[id := t.rows[id].(status := s)]) else t
  }

  function Resumed(t: Table): Table
  {
    t.(rows := map id | id in t.rows ::
         if t.rows[id].status == Running then t.rows[id].(status := Queued) else t.rows[id])
  }

  // DeleteFinished is Purged with no cut-off; DeleteFinishedBefore has one.
  function Purged(t: Table, before: Option<int>): Table
  {
    t.(rows := map id | id in t.rows
         && !(Terminal(t.rows[id].status) && (before.None? || t.rows[id].createdAt < before.value)) :: t.rows[id])
  }

  // ON DELETE SET NULL on project_id and service_id.
  function Detached(t: Table, project: Option<int>, services: set<int>): Table
  {
    t.(rows := map id | id in t.rows :: DetachedJob(t.rows[id], project, services))
  }

  function DetachedJob(j: Job, project: Option<int>, services: set<int>): Job
  {
    j.(project := if project.Some? && j.project == project then None else j.project,
       service := if j.service.Some? && j.service.value in services then None else j.service)
  }

  // ----- the repository object ---------------------------------------------

  // A non-empty table with a queued row has an oldest one.
  lemma {:induction false} OldestExists(t: Table, ids: set<JobId>)
    requires ids == set id | id in t.rows && t.rows[id].status == Queued
    requires ids != {}
    ensures exists id :: id in t.rows && OldestQueued(t, id)
  {
    var least := LeastOf(ids);
    assert forall other :: other in t.rows && t.rows[other].status == Queued ==> other in ids;
    assert OldestQueued(t, least);
  }

  lemma {:induction false} LeastOf(ids: set<JobId>) returns (least: JobId)
    requires ids != {}
    ensures least in ids && forall id :: id in ids ==> least <= id
  {
    var some :| some in ids;
    var rest := ids - {some};
    assert ids == rest + {some};
    if rest == {} {
      least := some;
    } else {
      var smaller := LeastOf(rest);
      least := if some <= smaller then some else smaller;
    }
  }

  class Jobs {
    var table: Table

    constructor ()
      ensures Valid(table) && table == Table(map[], 1)
    {
      table := Table(map[], 1);
    }

    // status None is the empty string, which means queued.
    method Enqueue(job: Job, status: Option<Status>) returns (id: JobId)
      requires Valid(table)
      modifies this
      ensures Valid(table) && id == old(table).nextId && id !in old(table).rows
      ensures table == Inserted(old(table), job.(status := if status.None? then Queued else status.value))
    {
      id := table.nextId;
      var row := Defaults(job.(status := if status.None? then Queued else status.value));
      table := Table(table.rows[id := row], id + 1);
    }

    // Some(id) is the claimed row; None means the queue is empty.
    method ClaimNext() returns (claimed: Option<JobId>)
      requires Valid(table)
      modifies this
      ensures Valid(table)
      ensures claimed.None? <==> forall id :: id in old(table).rows ==> old(table).rows[id].status != Queued
      ensures claimed.None? ==> table == old(table)
      ensures claimed.Some? ==> OldestQueued(old(table), claimed.value)
      ensures claimed.Some? ==> table == WithStatus(old(table), claimed.value, Running)
    {
      var queued := set id | id in table.rows && table.rows[id].status == Queued;
      if queued == {} {
        forall id | id in table.rows ensures table.rows[id].status != Queued {
          assert id !in queued;
        }
        return None;
      }
      OldestExists(table, queued);
      var id :| id in table.rows && OldestQueued(table, id);
      table := WithStatus(table, id, Running);
      claimed := Some(id);
    }

    method Finish(id: JobId, status: Status)
      requires Valid(table)
      modifies this
      ensures Valid(table) && table == WithStatus(old(table), id, status)
    {
      if id in table.rows {
        table := table.(rows := table.rows[id := table.rows[id].(status := status)]);
      }
    }

    method ResumeRunning() returns (affected: nat)
      requires Valid(table)
      modifies this
      ensures Valid(table) && table == Resumed(old(table))
      ensures affected == |set id | id in old(table).rows && old(table).rows[id].status == Running|
    {
      affected := |set id | id in table.rows && table.rows[id].status == Running|;
      table := Resumed(table);
    }
  }

  predicate Waiting(t: Table, id: JobId) { HasStatus(t, id, Queued) || HasStatus(t, id, Running) }

  // The queue after these jobs were claimed and settled, in this order.
  function Settled(t: Table, order: seq<JobId>, outcome: JobId -> Status): Table
  {
    t.(rows := map id | id in t.rows :: if id in order then t.rows[id].(status := outcome(id)) else t.rows[id])
  }

  // Some way through: these were settled, the rest of the waiting ones are queued,
  // and all of them have higher ids.
  ghost predicate Draining(first: Table, t: Table, order: seq<JobId>, outcome: JobId -> Status)
  {
    && t.nextId == first.nextId && t.rows.Keys == first.rows.Keys
    && (forall id :: id in t.rows ==> t.rows[id] == RowDraining(first, id, order, outcome))
    && (forall id :: id in order ==> Waiting(first, id))
    && (forall i, j :: 0 <= i < j < |order| ==> order[i] < order[j])
    && (forall other: JobId :: Waiting(first, other) && other !in order ==> Above(order, other))
  }

  predicate Above(order: seq<JobId>, id: JobId) { forall i :: 0 <= i < |order| ==> order[i] < id }

  function RowDraining(first: Table, id: JobId, order: seq<JobId>, outcome: JobId -> Status): Job
    requires id in first.rows
  {
    var row := first.rows[id];
    if id in order then row.(status := outcome(id)) else if Waiting(first, id) then row.(status := Queued) else row
  }

  lemma QueuedAreLeft(first: Table, t: Table, order: seq<JobId>, outcome: JobId -> Status, x: JobId)
    requires Draining(first, t, order, outcome) && Terminal(outcome(x))
    ensures HasStatus(t, x, Queued) <==> Waiting(first, x) && x !in order
  {
    if x in t.rows { assert t.rows[x] == RowDraining(first, x, order, outcome); }
  }

  lemma DrainOne(first: Table, t: Table, order: seq<JobId>, outcome: JobId -> Status, id: JobId)
    requires Draining(first, t, order, outcome) && OldestQueued(t, id) && forall x :: Terminal(outcome(x))
    ensures Waiting(first, id) && id !in order
    ensures Draining(first, WithStatus(WithStatus(t, id, Running), id, outcome(id)), order + [id], outcome)
  {
    hide Above, Waiting;
    QueuedAreLeft(first, t, order, outcome, id);
    forall other: JobId | Waiting(first, other) && other !in order + [id] ensures Above(order + [id], other) {
      QueuedAreLeft(first, t, order, outcome, other);
      AboveMore(order, id, other);
    }
    AboveIsAscending(order, id);
    var after := WithStatus(WithStatus(t, id, Running), id, outcome(id));
    forall x | x in after.rows ensures after.rows[x] == RowDraining(first, x, order + [id], outcome) {
      assert t.rows[x] == RowDraining(first, x, order, outcome);
    }
  }

  lemma AboveMore(order: seq<JobId>, id: JobId, other: JobId)
    requires Above(order, other) && id < other
    ensures Above(order + [id], other)
  {
  }

  lemma AboveIsAscending(order: seq<JobId>, id: JobId)
    requires Above(order, id) && forall i, j :: 0 <= i < j < |order| ==> order[i] < order[j]
    ensures forall i, j :: 0 <= i < j < |order + [id]| ==> (order + [id])[i] < (order + [id])[j]
  {
  }

  lemma Drained(first: Table, t: Table, order: seq<JobId>, outcome: JobId -> Status)
    requires Draining(first, t, order, outcome) && (forall x :: Terminal(outcome(x))) && forall id :: !HasStatus(t, id, Queued)
    ensures t == Settled(first, order, outcome)
    ensures forall id :: id in order <==> Waiting(first, id)
    ensures forall id :: !Waiting(t, id)
  {
    forall id | id in t.rows ensures t.rows[id] == Settled(first, order, outcome).rows[id] && !Waiting(t, id) && (id in order <==> Waiting(first, id)) {
      assert t.rows[id] == RowDraining(first, id, order, outcome) && !HasStatus(t, id, Queued);
    }
    assert t.rows == Settled(first, order, outcome).rows;
  }

  lemma ResumedDrains(t: Table, outcome: JobId -> Status)
    ensures Draining(t, Resumed(t), [], outcome)
  {
  }

  // A boot and then one worker until its queue is empty (cmd/dockbrr/main.go:256,
  // internal/job/queue.go:152-206): every job that was waiting or interrupted
  // runs exactly once, by ascending id, and nothing else changes.
  method Drain(jobs: Jobs, outcome: JobId -> Status) returns (order: seq<JobId>)
    requires Valid(jobs.table) && forall id :: Terminal(outcome(id))
    modifies jobs
    ensures Valid(jobs.table) && jobs.table == Settled(old(jobs.table), order, outcome)
    ensures forall id :: id in order <==> Waiting(old(jobs.table), id)
    ensures forall i, j :: 0 <= i < j < |order| ==> order[i] < order[j]
    ensures forall id :: !Waiting(jobs.table, id)
  {
    hide Draining, Settled, Resumed, WithStatus, OldestQueued;
    ghost var first := jobs.table;
    var affected := jobs.ResumeRunning();
    ResumedDrains(first, outcome);
    order := [];
    ghost var todo := set id | id in first.rows && Waiting(first, id);
    while true
      invariant Valid(jobs.table) && Draining(first, jobs.table, order, outcome)
      invariant todo == set id | id in first.rows && Waiting(first, id) && id !in order
      decreases |todo|
    {
      ghost var was := jobs.table;
      var claimed := jobs.ClaimNext();
      if claimed.None? { break; }
      DrainOne(first, was, order, outcome, claimed.value);
      jobs.Finish(claimed.value, outcome(claimed.value));
      order := order + [claimed.value];
      todo := todo - {claimed.value};
    }
    Drained(first, jobs.table, order, outcome);
    assert forall i, j :: 0 <= i < j < |order| ==> order[i] < order[j] by { Ascending(first, jobs.table, order, outcome); }
  }

  lemma Ascending(first: Table, t: Table, order: seq<JobId>, outcome: JobId -> Status)
    requires Draining(first, t, order, outcome)
    ensures forall i, j :: 0 <= i < j < |order| ==> order[i] < order[j]
  {
  }

  // ----- conservation over runs of the table -------------------------------

  // One committed statement on the table. Finish only ever writes a terminal
  // status: its callers pass "success" or "failed".
  datatype Op =
    | Enq(job: Job)
    | Claim(id: JobId)
    | Fin(id: JobId, status: Status)
    | Resume
    | Purge(before: Option<int>)
    | Detach(project: Option<int>, services: set<int>)

  predicate Allowed(t: Table, op: Op)
  {
    match op
    case Enq(j) => j.status == Queued
    case Claim(id) => OldestQueued(t, id)
    case Fin(_, s) => Terminal(s)
    case _ => true
  }

  function Applied(t: Table, op: Op): Table
    requires Allowed(t, op)
  {
    match op
    case Enq(j) => Inserted(t, j)
    case Claim(id) => WithStatus(t, id, Running)
    case Fin(id, s) => WithStatus(t, id, s)
    case Resume => Resumed(t)
    case Purge(before) => Purged(t, before)
    case Detach(p, ss) => Detached(t, p, ss)
  }

  // A run of the table, over any number of processes: each state follows from
  // the one before by one statement, or repeats it.
  ghost predicate TableRun(ts: seq<Table>)
  {
    |ts| > 0 && Valid(ts[0]) && forall i :: 0 <= i < |ts| - 1 ==> Follows(ts[i], ts[i + 1])
  }

  ghost predicate Follows(t: Table, t': Table)
  {
    t' == t || exists op :: Allowed(t, op) && t' == Applied(t, op)
  }

  // What a single statement keeps. Removal needs a terminal row; a terminal row
  // stays terminal; a row that appears carries the next id.
  ghost predicate Keeps(t: Table, t': Table)
  {
    && Valid(t') && t.nextId <= t'.nextId
    && (forall id :: id in t.rows && id !in t'.rows ==> Terminal(t.rows[id].status))
    && (forall id :: id in t.rows && id in t'.rows && Terminal(t.rows[id].status) ==> Terminal(t'.rows[id].status))
    && (forall id :: id in t'.rows && id !in t.rows ==> t.nextId <= id && t'.rows[id].status == Queued)
  }

  lemma StepKeeps(t: Table, t': Table)
    requires Valid(t) && Follows(t, t')
    ensures Keeps(t, t')
  {
  }

  lemma {:induction false} RunValid(ts: seq<Table>, n: nat)
    requires TableRun(ts) && n < |ts|
    ensures Valid(ts[n])
  {
    if n > 0 {
      RunValid(ts, n - 1);
      StepKeeps(ts[n - 1], ts[n]);
    }
  }

  // No job is lost or invented. Over any run, with any number of crashes and
  // resumes: a terminal job never becomes queued or running again (1); a job
  // leaves the table only after it was terminal (2); a job that appears was
  // enqueued with a fresh id in between (3).
  lemma {:induction false} NoJobLostOrInvented(ts: seq<Table>, i: nat, j: nat, id: JobId)
    requires TableRun(ts) && i <= j < |ts|
    ensures id in ts[i].rows && Terminal(ts[i].rows[id].status) && id in ts[j].rows ==> Terminal(ts[j].rows[id].status)
    ensures id in ts[i].rows && id !in ts[j].rows ==>
              exists k :: i <= k < j && id in ts[k].rows && Terminal(ts[k].rows[id].status)
    ensures id !in ts[i].rows && id in ts[j].rows ==> ts[i].nextId <= id
    ensures id < ts[i].nextId && id !in ts[i].rows ==> id !in ts[j].rows
    ensures ts[i].nextId <= ts[j].nextId
    decreases j - i
  {
    if i < j {
      RunValid(ts, i);
      RunValid(ts, j - 1);
      NoJobLostOrInvented(ts, i, j - 1, id);
      StepKeeps(ts[j - 1], ts[j]);
    }
  }

  // Resume turns exactly the running rows into queued ones, and changes nothing
  // else about any row.
  lemma ResumeExactlyRunning(t: Table, id: JobId)
    requires id in t.rows
    ensures Resumed(t).rows.Keys == t.rows.Keys
    ensures HasStatus(Resumed(t), id, Queued) <==> HasStatus(t, id, Queued) || HasStatus(t, id, Running)
    ensures Resumed(t).rows[id] != t.rows[id] <==> HasStatus(t, id, Running)
    ensures !HasStatus(Resumed(t), id, Running)
    ensures Resumed(t).rows[id].(status := t.rows[id].status) == t.rows[id]
  {
  }

  // Resume then claim: the interrupted jobs stand in the queue by their ids
  // again, among those that were waiting.
  lemma ResumeThenClaim(t: Table, id: JobId)
    ensures OldestQueued(Resumed(t), id) <==>
              && (HasStatus(t, id, Running) || HasStatus(t, id, Queued))
              && forall other :: HasStatus(t, other, Running) || HasStatus(t, other, Queued) ==> id <= other
  {
    if OldestQueued(Resumed(t), id) {
      forall other | HasStatus(t, other, Running) || HasStatus(t, other, Queued) ensures id <= other {
        assert HasStatus(Resumed(t), other, Queued);
      }
    } else if HasStatus(Resumed(t), id, Queued) {
      var other :| other in Resumed(t).rows && Resumed(t).rows[other].status == Queued && other < id;
      assert HasStatus(t, other, Running) || HasStatus(t, other, Queued);
    }
  }

  // A recorded result settles a job: nothing but its status changes, the others
  // keep their place in the queue, it can be neither claimed nor resumed, and the
  // purge of finished jobs takes it. A job whose row is gone stays gone.
  lemma FinishSettles(t: Table, id: JobId, status: Status)
    requires Terminal(status)
    ensures var t' := WithStatus(t, id, status);
            && t'.rows.Keys == t.rows.Keys
            && (forall other :: other in t.rows && other != id ==> t'.rows[other] == t.rows[other])
            && (id in t.rows ==> t'.rows[id].status == status && t'.rows[id].(status := t.rows[id].status) == t.rows[id])
            && !OldestQueued(t', id)
            && (!HasStatus(t, id, Queued) ==> forall other :: OldestQueued(t', other) <==> OldestQueued(t, other))
            && (id in t.rows ==> Resumed(t').rows[id] == t'.rows[id])
            && id !in Purged(t', None).rows
  {
    var t' := WithStatus(t, id, status);
    assert forall x, st :: x != id ==> (HasStatus(t', x, st) <==> HasStatus(t, x, st));
  }

  // A purge takes exactly the terminal rows, those created before the cut-off
  // when there is one; the rest are as they were, the queue order included, and
  // it makes no difference whether a resume comes before or after it.
  lemma PurgedExactly(t: Table, before: Option<int>)
    ensures var t' := Purged(t, before);
            && (forall id :: id in t'.rows <==>
                  id in t.rows && !(Terminal(t.rows[id].status) && (before.None? || t.rows[id].createdAt < before.value)))
            && (forall id :: id in t'.rows ==> t'.rows[id] == t.rows[id])
            && (forall id :: OldestQueued(t', id) <==> OldestQueued(t, id))
            && Purged(Resumed(t), before) == Resumed(t')
  {
    var t' := Purged(t, before);
    assert forall x :: HasStatus(t', x, Queued) <==> HasStatus(t, x, Queued);
    assert Purged(Resumed(t), before).rows == Resumed(t').rows;
    forall id | OldestQueued(t', id) || OldestQueued(t, id) ensures OldestQueued(t', id) && OldestQueued(t, id) {
      forall other | other in t.rows && t.rows[other].status == Queued ensures other in t'.rows {}
    }
  }
}
