// The scheduler's automatic applies (cmd/dockbrr/main.go:691-720,
// internal/store/projects.go:181-186).
module AutoApply {
  import opened Base
  import J = JobTable
  import U = UpdateTable

  // A service with what the loop reads of its project, if the project is there.
  datatype Project = Project(unmanaged: bool, autoUpdate: bool)
  datatype Service = Service(id: U.ServiceId, projectId: int, project: Option<Project>, autoUpdate: Option<bool>, pinned: bool, drifted: bool)

  // A digest pin opts out unless it has drifted; a service without a setting of
  // its own follows its project.
  predicate EffectiveAutoUpdate(p: Project, s: Service)
  {
    p.autoUpdate && !(s.pinned && !s.drifted) && (s.autoUpdate.None? || s.autoUpdate.value)
  }

  ghost predicate HasOpen(t: U.Table, s: U.ServiceId) { exists id: U.UpdateId :: U.Open(t, id, s) }

  ghost predicate Due(t: U.Table, s: Service)
  {
    s.project.Some? && !s.project.value.unmanaged && EffectiveAutoUpdate(s.project.value, s) && HasOpen(t, s.id)
  }

  function JobFor(s: Service, now: int): J.Job
  {
    J.Job("apply", Some(s.projectId), Some(s.id), J.Queued, "service", "scheduler", now)
  }

  // The rows from nextId on are the jobs of the due services among the first n,
  // in order, one each; ids are those services.
  ghost predicate Enqueued(before: J.Table, after: J.Table, t: U.Table, svcs: seq<Service>, works: nat -> bool, now: int, n: nat, ids: seq<nat>)
    requires n <= |svcs|
  {
    Grown(before, after, svcs, now, n, ids) && Chosen(t, svcs, works, n, ids)
  }

  ghost predicate Grown(before: J.Table, after: J.Table, svcs: seq<Service>, now: int, n: nat, ids: seq<nat>)
    requires n <= |svcs|
  {
    && after.nextId == before.nextId + |ids|
    && (forall id :: id in before.rows ==> id in after.rows && after.rows[id] == before.rows[id])
    && (forall id :: id in after.rows && id !in before.rows ==> before.nextId <= id < after.nextId)
    && (forall k :: 0 <= k < |ids| ==> ids[k] < n)
    && (forall id :: before.nextId <= id < after.nextId ==> id in after.rows && after.rows[id] == JobFor(svcs[ids[id - before.nextId]], now))
  }

  ghost predicate Chosen(t: U.Table, svcs: seq<Service>, works: nat -> bool, n: nat, ids: seq<nat>)
    requires n <= |svcs|
  {
    && (forall i: nat :: i in ids <==> i < n && Due(t, svcs[i]) && works(i))
    && (forall a, b :: 0 <= a < b < |ids| ==> ids[a] < ids[b])
  }

  // works: the enqueue for the i-th service succeeds. ids: the services that
  // got a job.
  method Tick(svcs: seq<Service>, updates: U.Updates, jobs: J.Jobs, works: nat -> bool, now: int) returns (ids: seq<nat>)
    requires J.Valid(jobs.table)
    modifies jobs
    ensures J.Valid(jobs.table)
    ensures Enqueued(old(jobs.table), jobs.table, updates.t, svcs, works, now, |svcs|, ids)
  {
    hide Grown, Chosen;
    ids := [];
    var i := 0;
    NothingEnqueued(jobs.table, updates.t, svcs, works, now);
    while i < |svcs|
      invariant 0 <= i <= |svcs| && J.Valid(jobs.table)
      invariant Grown(old(jobs.table), jobs.table, svcs, now, i, ids) && Chosen(updates.t, svcs, works, i, ids)
    {
      var s, enqueued := svcs[i], false;
      if s.project.Some? && !s.project.value.unmanaged && EffectiveAutoUpdate(s.project.value, s) {
        var open := updates.GetLatestOpenByService(s.id);
        enqueued := open.Some? && works(i);
      }
      assert enqueued <==> Due(updates.t, s) && works(i);
      OneMoreChosen(updates.t, svcs, works, i, ids, enqueued);
      ghost var was := jobs.table;
      if enqueued {
        var id := jobs.Enqueue(JobFor(s, now), None);
        OneMoreGrown(old(jobs.table), was, jobs.table, svcs, now, i, ids);
        ids := ids + [i];
      } else {
        SameGrown(old(jobs.table), was, svcs, now, i, ids);
      }
      i := i + 1;
    }
  }

  lemma NothingEnqueued(t: J.Table, upd: U.Table, svcs: seq<Service>, works: nat -> bool, now: int)
    ensures Grown(t, t, svcs, now, 0, []) && Chosen(upd, svcs, works, 0, [])
  {
  }

  lemma OneMoreChosen(t: U.Table, svcs: seq<Service>, works: nat -> bool, i: nat, ids: seq<nat>, chosen: bool)
    requires i < |svcs| && Chosen(t, svcs, works, i, ids) && (chosen <==> Due(t, svcs[i]) && works(i))
    ensures Chosen(t, svcs, works, i + 1, if chosen then ids + [i] else ids)
  {
    forall k | 0 <= k < |ids| ensures ids[k] < i { assert ids[k] in ids; }
  }

  lemma SameGrown(before: J.Table, t: J.Table, svcs: seq<Service>, now: int, i: nat, ids: seq<nat>)
    requires i < |svcs| && Grown(before, t, svcs, now, i, ids)
    ensures Grown(before, t, svcs, now, i + 1, ids)
  {
  }

  lemma OneMoreGrown(before: J.Table, was: J.Table, t: J.Table, svcs: seq<Service>, now: int, i: nat, ids: seq<nat>)
    requires i < |svcs| && J.Valid(was) && Grown(before, was, svcs, now, i, ids)
    requires t == J.Inserted(was, JobFor(svcs[i], now))
    ensures Grown(before, t, svcs, now, i + 1, ids + [i])
  {
  }

  // A job the tick adds is an apply of a service that is due; a service whose
  // updates are all rolled back, dismissed or closed gets none.
  lemma OnlyDueServices(before: J.Table, after: J.Table, t: U.Table, svcs: seq<Service>, works: nat -> bool, now: int, ids: seq<nat>, id: J.JobId)
    requires Enqueued(before, after, t, svcs, works, now, |svcs|, ids)
    requires id in after.rows && id !in before.rows
    ensures after.rows[id].kind == "apply" && after.rows[id].service.Some? && HasOpen(t, after.rows[id].service.value)
    ensures exists k :: 0 <= k < |svcs| && Due(t, svcs[k]) && after.rows[id] == JobFor(svcs[k], now)
  {
    var k := ids[id - before.nextId];
    assert k in ids;
    assert Due(t, svcs[k]) && after.rows[id] == JobFor(svcs[k], now);
  }
}
