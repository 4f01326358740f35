// "A rolled-back update is never re-applied on its own": the job engine, the
// updates table and the handlers' reads and writes of it as one machine.
//
// Apply handlers read a row's id first and write its status by that id later
// (internal/job/worker.go:137-180, 283-330; internal/job/standalone.go:100-196),
// while rollbacks, checks and users change statuses. The engine's exclusion per
// project is what keeps such a late write off a rolled_back row.
module RollbackSafety {
  import opened Base
  import J = JobTable
  import E = JobEngine
  import U = UpdateTable

  type Service = U.ServiceId

  // Where a running handler stands in its use of the updates table.
  datatype Hand =
    | Fresh                                       // nothing read yet
    | Picked(service: Service, id: U.UpdateId)    // holds the id of the update to apply
    | Siblings                                    // applied; refreshing the project's other services
    | Sibling(service: Service, id: U.UpdateId)   // holds the id of a sibling's open update
    | Over

  datatype Sys = Sys(eng: E.State, upd: U.Table, hand: map<E.Worker, Hand>)

  datatype Event =
    | Engine(e: E.Event)
    | Cascade(project: Option<int>, services: set<Service>)   // a project or services are deleted
    | Pick(w: E.Worker, id: U.UpdateId)                       // GetLatestOpenByService
    | Fail(w: E.Worker, st: U.Status)                         // failApply, or superseded by the precheck
    | Apply(w: E.Worker, now: int)                            // MarkApplied
    | PickSibling(w: E.Worker, service: Service, id: U.UpdateId)
    | ApplySibling(w: E.Worker, now: int)
    | SkipSibling(w: E.Worker)                                // its target is not what runs now
    | RollBack(w: E.Worker, digest: string)                   // MarkRolledBack at svc.CurrentDigest
    | Check(op: U.Op)                                         // a statement of a detection
    | Reopen(service: Service)                                // a scoped manual check
    | Dismiss(id: U.UpdateId)
    | Restore(id: U.UpdateId)

  // Every enqueuer sets the job's project to the project of its service.
  predicate Consistent(projectOf: Service -> int, j: J.Job)
  {
    j.service.Some? ==> j.project == Some(projectOf(j.service.value))
  }

  predicate Running(s: Sys, w: E.Worker, kind: string)
  {
    && s.eng.phase.Started? && w in s.eng.workers && s.eng.workers[w].Handling? && w in s.hand
    && s.eng.workers[w].job.kind == kind && s.eng.workers[w].job.service.Some?
  }

  function ServiceOf(s: Sys, w: E.Worker): Service
    requires w in s.eng.workers && s.eng.workers[w].Handling? && s.eng.workers[w].job.service.Some?
  {
    s.eng.workers[w].job.service.value
  }

  ghost predicate Enabled(projectOf: Service -> int, s: Sys, e: Event)
  {
    match e
    case Engine(x) =>
      E.Enabled(s.eng, x) && (x.Store? ==> !x.op.Detach? && (x.op.Enq? ==> Consistent(projectOf, x.op.job)))
    case Cascade(p, services) =>
      E.Enabled(s.eng, E.Store(J.Detach(p, services)))
      && forall id :: id in s.eng.jobs.rows && p.Some? && s.eng.jobs.rows[id].project == p && s.eng.jobs.rows[id].service.Some?
           ==> s.eng.jobs.rows[id].service.value in services
    case Pick(w, id) => Running(s, w, "apply") && s.hand[w].Fresh? && U.LatestOpen(s.upd, ServiceOf(s, w), id)
    case Fail(w, st) => Running(s, w, "apply") && s.hand[w].Picked? && (st.Failed? || st.Superseded?)
    case Apply(w, _) => Running(s, w, "apply") && s.hand[w].Picked?
    case PickSibling(w, sib, id) =>
      Running(s, w, "apply") && s.hand[w].Siblings? && s.eng.workers[w].job.scope == "project"
      && sib != ServiceOf(s, w) && projectOf(sib) == projectOf(ServiceOf(s, w)) && U.LatestOpen(s.upd, sib, id)
    case ApplySibling(w, _) => Running(s, w, "apply") && s.hand[w].Sibling?
    case SkipSibling(w) => Running(s, w, "apply") && s.hand[w].Sibling?
    case RollBack(w, _) => Running(s, w, "rollback") && s.hand[w].Fresh?
    case Check(op) => op.RecordDrift? || op.SupersedeAll? || op.DeleteStaleCurrent? || op.SetChangelog?
                      || (op.Upsert? && op.st.Current?)
    case _ => true
  }

  // The updates statement an event commits, if any.
  ghost function Statement(s: Sys, e: Event): Option<U.Op>
    requires e.Fail? || e.Apply? ==> Running(s, e.w, "apply") && s.hand[e.w].Picked?
    requires e.ApplySibling? ==> Running(s, e.w, "apply") && s.hand[e.w].Sibling?
    requires e.RollBack? ==> Running(s, e.w, "rollback")
  {
    match e
    case Cascade(_, services) => Some(U.DeleteServices(services))
    case Fail(w, st) => Some(U.SetStatus(s.hand[w].id, st))
    case Apply(w, now) => Some(U.MarkApplied(s.hand[w].id, now))
    case ApplySibling(w, now) => Some(U.MarkApplied(s.hand[w].id, now))
    case RollBack(w, digest) => Some(U.MarkRolledBack(ServiceOf(s, w), digest))
    case Check(op) => Some(op)
    case Reopen(service) => Some(U.Reopen(service))
    case Dismiss(id) => Some(U.SetStatus(id, U.Dismissed))
    case Restore(id) => Some(U.SetStatus(id, U.Available))
    case _ => None
  }

  function HandAfter(s: Sys, e: Event): map<E.Worker, Hand>
    requires e.Fail? || e.Apply? || e.Pick? ==> Running(s, e.w, "apply")
  {
    match e
    case Engine(x) =>
      if x.Boot? || x.Crash? || x.Start? then map[]
      else if x.Work? && x.act.Acquire? then s.hand[x.w := Fresh]
      else if x.Work? && (x.act.Return? || x.act.Panic?) then s.hand - {x.w}
      else s.hand
    case Pick(w, id) => s.hand[w := Picked(ServiceOf(s, w), id)]
    case Fail(w, _) => s.hand[w := Over]
    case Apply(w, _) => s.hand[w := Siblings]
    case PickSibling(w, sib, id) => s.hand[w := Sibling(sib, id)]
    case ApplySibling(w, _) => s.hand[w := Siblings]
    case SkipSibling(w) => s.hand[w := Siblings]
    case RollBack(w, _) => s.hand[w := Over]
    case _ => s.hand
  }

  ghost function Next(projectOf: Service -> int, s: Sys, e: Event): Sys
    requires Enabled(projectOf, s, e)
  {
    Sys(
      match e case Engine(x) => E.Apply(s.eng, x)
              case Cascade(p, services) => E.Apply(s.eng, E.Store(J.Detach(p, services)))
              case _ => s.eng,
      if Statement(s, e).Some? then U.Run(s.upd, Statement(s, e).value) else s.upd,
      HandAfter(s, e))
  }

  ghost predicate Init(projectOf: Service -> int, s: Sys)
  {
    && E.Init(s.eng) && U.Valid(s.upd) && U.Unique(s.upd) && s.hand == map[]
    && forall id :: id in s.eng.jobs.rows ==> Consistent(projectOf, s.eng.jobs.rows[id])
  }

  // ----- the invariant -------------------------------------------------------

  ghost predicate JobsInv(projectOf: Service -> int, eng: E.State)
  {
    && (forall id :: id in eng.jobs.rows ==> Consistent(projectOf, eng.jobs.rows[id]))
    && (forall w :: w in eng.workers && !eng.workers[w].Idle? ==> Consistent(projectOf, eng.workers[w].job))
  }

  predicate Holding(h: Hand) { h.Picked? || h.Sibling? }

  // An id in a handler's hands names a row of its project, and that row is not
  // rolled_back.
  ghost predicate HandInv(projectOf: Service -> int, eng: E.State, upd: U.Table, hand: map<E.Worker, Hand>)
  {
    && (forall w :: w in hand ==> w in eng.workers && eng.workers[w].Handling?)
    && (forall w :: w in hand && Holding(hand[w]) ==>
          E.KeyOf(eng.workers[w].job) == projectOf(hand[w].service) && Safe(upd, hand[w].service, hand[w].id))
  }

  ghost predicate Safe(upd: U.Table, service: Service, id: U.UpdateId)
  {
    id < upd.nextId && (id in upd.rows ==> upd.rows[id].service == service && !upd.rows[id].status.RolledBack?)
  }

  ghost predicate Inv(projectOf: Service -> int, s: Sys)
  {
    && E.Inv(s.eng) && U.Valid(s.upd) && U.Unique(s.upd)
    && JobsInv(projectOf, s.eng) && HandInv(projectOf, s.eng, s.upd, s.hand)
  }

  lemma EngineKeepsJobs(projectOf: Service -> int, eng: E.State, e: E.Event)
    requires E.Inv(eng) && JobsInv(projectOf, eng) && E.Enabled(eng, e)
    requires e.Store? ==> (e.op.Enq? ==> Consistent(projectOf, e.op.job))
    requires e.Store? && e.op.Detach? && e.op.project.Some? ==>
      forall id :: id in eng.jobs.rows && eng.jobs.rows[id].project == e.op.project && eng.jobs.rows[id].service.Some?
        ==> eng.jobs.rows[id].service.value in e.op.services
    ensures JobsInv(projectOf, E.Apply(eng, e))
  {
    hide E.Inv;
  }

  // A statement that cannot roll the row back keeps the id safe to write to.
  lemma StatementKeepsSafe(upd: U.Table, op: U.Op, service: Service, id: U.UpdateId)
    requires U.Valid(upd) && Safe(upd, service, id)
    requires U.Unique(upd) && op != U.SetStatus(id, U.RolledBack)
    requires op.MarkRolledBack? ==> op.s != service
    ensures Safe(U.Run(upd, op), service, id)
  {
    U.OpKeeps(upd, op);
    if id in upd.rows && id in U.Run(upd, op).rows && U.Run(upd, op).rows[id].status.RolledBack? {
      U.OnlyMarkRollsBack(upd, op, id);
    }
  }

  // The exclusion argument: while a handler holds an id of a project, no other
  // worker is inside a handler for that project.
  lemma NoRollbackMeanwhile(projectOf: Service -> int, s: Sys, w: E.Worker, v: E.Worker, digest: string)
    requires Inv(projectOf, s) && Enabled(projectOf, s, RollBack(w, digest))
    requires v in s.hand && Holding(s.hand[v])
    ensures s.hand[v].service != ServiceOf(s, w)
  {
  }

  lemma HeldIdStaysSafe(projectOf: Service -> int, s: Sys, e: Event, v: E.Worker)
    requires Inv(projectOf, s) && Enabled(projectOf, s, e) && !e.Engine? && !e.Cascade?
    requires v in s.hand && Holding(s.hand[v]) && Statement(s, e).Some?
    ensures Safe(U.Run(s.upd, Statement(s, e).value), s.hand[v].service, s.hand[v].id)
  {
    if e.RollBack? { NoRollbackMeanwhile(projectOf, s, e.w, v, e.digest); }
    StatementKeepsSafe(s.upd, Statement(s, e).value, s.hand[v].service, s.hand[v].id);
  }

  // Only a pick puts an id into a hand, and it picks an open row of the job's
  // own project.
  lemma HandsAfter(projectOf: Service -> int, s: Sys, e: Event, upd: U.Table)
    requires HandInv(projectOf, s.eng, s.upd, s.hand) && JobsInv(projectOf, s.eng) && U.Valid(s.upd)
    requires !e.Engine? && !e.Cascade? && Enabled(projectOf, s, e)
    requires e.Pick? || e.PickSibling? ==> upd == s.upd
    requires forall v :: v in s.hand && Holding(s.hand[v]) ==> Safe(upd, s.hand[v].service, s.hand[v].id)
    ensures HandInv(projectOf, s.eng, upd, HandAfter(s, e))
  {
  }

  lemma StepKeepsHands(projectOf: Service -> int, s: Sys, e: Event)
    requires Inv(projectOf, s) && Enabled(projectOf, s, e) && !e.Engine? && !e.Cascade?
    ensures HandInv(projectOf, s.eng, Next(projectOf, s, e).upd, HandAfter(s, e))
  {
    var upd := Next(projectOf, s, e).upd;
    forall v | v in s.hand && Holding(s.hand[v]) ensures Safe(upd, s.hand[v].service, s.hand[v].id) {
      if Statement(s, e).Some? {
        HeldIdStaysSafe(projectOf, s, e, v);
      }
    }
    HandsAfter(projectOf, s, e, upd);
  }

  // The engine never moves a worker that holds an id out of its handler without
  // dropping the id.
  lemma EngineKeepsHands(projectOf: Service -> int, s: Sys, x: E.Event)
    requires HandInv(projectOf, s.eng, s.upd, s.hand) && E.Enabled(s.eng, x)
    ensures HandInv(projectOf, E.Apply(s.eng, x), s.upd, HandAfter(s, Engine(x)))
  {
  }

  lemma CascadeKeepsHands(projectOf: Service -> int, eng: E.State, upd: U.Table, hand: map<E.Worker, Hand>, services: set<Service>)
    requires HandInv(projectOf, eng, upd, hand) && U.Valid(upd) && U.Unique(upd)
    ensures HandInv(projectOf, eng, U.ServicesDeleted(upd, services), hand)
  {
  }

  lemma EngineKeepsInv(projectOf: Service -> int, s: Sys, x: E.Event)
    requires Inv(projectOf, s) && Enabled(projectOf, s, Engine(x))
    ensures Inv(projectOf, Sys(E.Apply(s.eng, x), s.upd, HandAfter(s, Engine(x))))
  {
    E.StepKeepsInv(s.eng, x);
    EngineKeepsJobs(projectOf, s.eng, x);
    EngineKeepsHands(projectOf, s, x);
  }

  lemma CascadeKeepsInv(projectOf: Service -> int, s: Sys, p: Option<int>, services: set<Service>)
    requires Inv(projectOf, s) && Enabled(projectOf, s, Cascade(p, services))
    ensures Inv(projectOf, Sys(E.Apply(s.eng, E.Store(J.Detach(p, services))), U.ServicesDeleted(s.upd, services), s.hand))
  {
    var x := E.Store(J.Detach(p, services));
    E.StepKeepsInv(s.eng, x);
    EngineKeepsJobs(projectOf, s.eng, x);
    U.OpKeeps(s.upd, U.DeleteServices(services));
    CascadeKeepsHands(projectOf, E.Apply(s.eng, x), s.upd, s.hand, services);
  }

  lemma TableKeepsInv(projectOf: Service -> int, s: Sys, e: Event)
    requires Inv(projectOf, s) && Enabled(projectOf, s, e) && !e.Engine? && !e.Cascade?
    ensures Inv(projectOf, Sys(s.eng, Next(projectOf, s, e).upd, HandAfter(s, e)))
  {
    StepKeepsHands(projectOf, s, e);
    if Statement(s, e).Some? {
      U.OpKeeps(s.upd, Statement(s, e).value);
    }
  }

  lemma StepKeepsInv(projectOf: Service -> int, s: Sys, e: Event)
    requires Inv(projectOf, s) && Enabled(projectOf, s, e)
    ensures Inv(projectOf, Next(projectOf, s, e))
  {
    hide E.Inv, E.Apply, Enabled;
    if e.Engine? {
      EngineKeepsInv(projectOf, s, e.e);
    } else if e.Cascade? {
      CascadeKeepsInv(projectOf, s, e.project, e.services);
    } else {
      TableKeepsInv(projectOf, s, e);
    }
  }

  // ----- runs ----------------------------------------------------------------

  ghost predicate Run(projectOf: Service -> int, ss: seq<Sys>, es: seq<Event>)
  {
    && |ss| == |es| + 1 && Init(projectOf, ss[0])
    && forall i :: 0 <= i < |es| ==> Enabled(projectOf, ss[i], es[i]) && ss[i + 1] == Next(projectOf, ss[i], es[i])
  }

  lemma {:induction false} RunInv(projectOf: Service -> int, ss: seq<Sys>, es: seq<Event>, n: nat)
    requires Run(projectOf, ss, es) && n < |ss|
    ensures Inv(projectOf, ss[n])
  {
    if n == 0 {
      E.RestartInv(ss[0].eng, E.Down);
    } else {
      RunInv(projectOf, ss, es, n - 1);
      StepKeepsInv(projectOf, ss[n - 1], es[n - 1]);
    }
  }

  // The events that may lift a row's rolled_back: a scoped manual check of its
  // service, a dismiss or restore of the row, or the deletion of its service.
  predicate Lifts(e: Event, r: U.Row, id: U.UpdateId)
  {
    || e == Reopen(r.service)
    || e == Dismiss(id) || e == Restore(id)
    || (e.Cascade? && r.service in e.services)
  }

  lemma StepKeepsRolledBack(projectOf: Service -> int, s: Sys, e: Event, id: U.UpdateId)
    requires Inv(projectOf, s) && Enabled(projectOf, s, e)
    requires id in s.upd.rows && s.upd.rows[id].status.RolledBack? && !Lifts(e, s.upd.rows[id], id)
    ensures var upd' := Next(projectOf, s, e).upd;
            id in upd'.rows && upd'.rows[id].status.RolledBack? && upd'.rows[id].service == s.upd.rows[id].service
    ensures !(e.Pick? && e.id == id) && !(e.PickSibling? && e.id == id)
  {
    if Statement(s, e).Some? {
      U.OpKeeps(s.upd, Statement(s, e).value);
      U.WhatLiftsRolledBack(s.upd, Statement(s, e).value, id);
    }
  }

  // Once a row is rolled_back, no interleaving of scheduled checks, applies,
  // rollbacks, sibling refreshes, auto-applies, crashes and restarts changes its
  // status, and no handler ever picks it up, until one of the lifting events.
  lemma {:induction false} RolledBackIsSticky(
    projectOf: Service -> int, ss: seq<Sys>, es: seq<Event>, i: nat, j: nat, id: U.UpdateId)
    requires Run(projectOf, ss, es) && i <= j < |ss|
    requires id in ss[i].upd.rows && ss[i].upd.rows[id].status.RolledBack?
    requires forall k :: i <= k < j ==> !Lifts(es[k], ss[i].upd.rows[id], id)
    ensures id in ss[j].upd.rows && ss[j].upd.rows[id].status.RolledBack?
    ensures ss[j].upd.rows[id].service == ss[i].upd.rows[id].service
    ensures forall k :: i <= k < j ==> !(es[k].Pick? && es[k].id == id) && !(es[k].PickSibling? && es[k].id == id)
    decreases j - i
  {
    hide Inv, Enabled, Next;
    if i < j {
      RolledBackIsSticky(projectOf, ss, es, i, j - 1, id);
      RunInv(projectOf, ss, es, j - 1);
      StepKeepsRolledBack(projectOf, ss[j - 1], es[j - 1], id);
    }
  }

  // The exclusion is needed. Two applies of one service that both picked the row
  // before either wrote: the first applies it, a rollback reverts it, the late
  // failure of the second overwrites rolled_back, and the next scheduled check
  // opens the row again for auto-apply.
  lemma LateWriteWouldReopen(t: U.Table, s: Service, id: U.UpdateId, now: int)
    requires U.Valid(t) && U.Unique(t) && U.Open(t, id, s)
    ensures var digest := t.rows[id].toDigest;
            var t2 := U.MarkedRolledBack(U.MarkedApplied(t, id, now), s, digest);
            var t3 := U.WithStatus(t2, id, U.Failed);
            && t2.rows[id].status.RolledBack?
            && U.Open(U.DriftRecorded(t3, U.Drift(s, "", digest, "", "", "", ""), now), id, s)
  {
    var digest := t.rows[id].toDigest;
    var t1 := U.MarkedApplied(t, id, now);
    var t2 := U.MarkedRolledBack(t1, s, digest);
    U.OpKeeps(t, U.MarkApplied(id, now));
    U.OpKeeps(t1, U.MarkRolledBack(s, digest));
    U.OpKeeps(t2, U.SetStatus(id, U.Failed));
    U.FindIs(U.WithStatus(t2, id, U.Failed), id);
  }
}
