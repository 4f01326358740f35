// Discovery (internal/discovery/discovery.go:56-171, 207-391,
// internal/store/services.go:36-75, 121-128): grouping the listed containers,
// and the cycle that marks services gone and prunes them after a grace.
module Discovery {
  import opened Base

  // ----- grouping (discovery.go:56-171) ---------------------------------------------------

  // project and service are the compose labels, "" without one; selfUpdate marks
  // dockbrr's own update helper.
  datatype Container = Container(id: string, name: string, project: string, service: string, state: string, selfUpdate: bool)

  datatype Found = Found(ids: seq<string>, state: string)

  // Project name to service name. The sorted order of the output is not kept.
  type Groups = map<string, map<string, Found>>

  function Place(g: Groups, c: Container): Groups
  {
    if c.selfUpdate then g
    else if c.project != "" then
      var svcs := if c.project in g then g[c.project] else map[];
      if c.service == "" then g[c.project := svcs]
      else g[c.project := svcs[c.service := Merged(svcs, c)]]
    else if c.name in g then g
    else g[c.name := map[c.name := Found([c.id], c.state)]]
  }

  // A replica joins the entry its first container made.
  function Merged(svcs: map<string, Found>, c: Container): Found
  {
    if c.service in svcs then svcs[c.service].(ids := svcs[c.service].ids + [c.id]) else Found([c.id], c.state)
  }

  function Grouped(cs: seq<Container>): Groups
  {
    if cs == [] then map[] else Place(Grouped(cs[..|cs| - 1]), cs[|cs| - 1])
  }

  method Group(cs: seq<Container>) returns (g: Groups)
    ensures g == Grouped(cs)
  {
    g := map[];
    for i := 0 to |cs|
      invariant g == Grouped(cs[..i])
    {
      assert cs[..i + 1][..i] == cs[..i];
      g := Place(g, cs[i]);
    }
    assert cs[..|cs|] == cs;
  }

  predicate Seen(g: Groups, project: string, service: string) { project in g && service in g[project] }

  predicate Labelled(c: Container, project: string, service: string)
  {
    !c.selfUpdate && project != "" && service != "" && c.project == project && c.service == service
  }

  // The container makes its project known.
  predicate Opens(c: Container, project: string)
  {
    !c.selfUpdate && (if c.project != "" then c.project == project else c.name == project)
  }

  // A standalone container counts unless an earlier one opened a project of the
  // same name.
  predicate Stands(cs: seq<Container>, i: nat, name: string)
    requires i < |cs|
  {
    !cs[i].selfUpdate && cs[i].project == "" && cs[i].name == name && forall j :: 0 <= j < i ==> !Opens(cs[j], name)
  }

  lemma {:induction false} OpenedProjects(cs: seq<Container>, project: string)
    ensures project in Grouped(cs) <==> exists i :: 0 <= i < |cs| && Opens(cs[i], project)
  {
    if cs != [] {
      var init := cs[..|cs| - 1];
      OpenedProjects(init, project);
      assert forall i :: 0 <= i < |init| ==> init[i] == cs[i];
    }
  }

  // Which services a cycle sees: those some container is labelled with, and the
  // standalone containers whose name was still free.
  lemma {:induction false} SeenExactly(cs: seq<Container>, project: string, service: string)
    ensures Seen(Grouped(cs), project, service) <==>
              (exists i :: 0 <= i < |cs| && Labelled(cs[i], project, service))
              || (project == service && exists i :: 0 <= i < |cs| && Stands(cs, i, project))
  {
    if cs != [] {
      var init, c := cs[..|cs| - 1], cs[|cs| - 1];
      SeenExactly(init, project, service);
      OpenedProjects(init, project);
      assert forall i :: 0 <= i < |init| ==> init[i] == cs[i];
      assert forall i :: 0 <= i < |init| ==> (Stands(init, i, project) <==> Stands(cs, i, project));
      assert Labelled(c, project, service) <==> Labelled(cs[|cs| - 1], project, service);
      if c.project == "" && !c.selfUpdate && c.name == project {
        assert Stands(cs, |cs| - 1, project) <==> project !in Grouped(init);
      }
    }
  }

  // The ids of a service's containers, in listing order.
  function Members(cs: seq<Container>, project: string, service: string): seq<string>
  {
    if cs == [] then []
    else
      var i := |cs| - 1;
      Members(cs[..i], project, service)
      + if Labelled(cs[i], project, service) || (project == service && Stands(cs, i, project)) then [cs[i].id] else []
  }

  function IdsIn(g: Groups, project: string, service: string): seq<string>
  {
    if Seen(g, project, service) then g[project][service].ids else []
  }

  lemma PlaceAdds(g: Groups, c: Container, project: string, service: string)
    ensures IdsIn(Place(g, c), project, service) == IdsIn(g, project, service)
              + if Labelled(c, project, service)
                   || (project == service && !c.selfUpdate && c.project == "" && c.name == project && project !in g) then [c.id] else []
  {
  }

  lemma {:induction false} IdsExactly(cs: seq<Container>, project: string, service: string)
    ensures IdsIn(Grouped(cs), project, service) == Members(cs, project, service)
  {
    hide Place, IdsIn, Labelled;
    if cs == [] {
      NothingIn(project, service);
    } else {
      var init := cs[..|cs| - 1];
      IdsExactly(init, project, service);
      PlaceAdds(Grouped(init), cs[|cs| - 1], project, service);
      OpenedProjects(init, project);
      assert forall j :: 0 <= j < |init| ==> init[j] == cs[j];
    }
  }

  lemma NothingIn(project: string, service: string)
    ensures IdsIn(map[], project, service) == []
  {
  }

  // ----- the store ----------------------------------------------------------------------------

  type ProjectId = nat
  type ServiceId = nat

  datatype Project = Project(name: string, manual: bool)

  datatype Service = Service(project: ProjectId, name: string, ids: seq<string>, state: string, goneSince: Option<int>)

  datatype Store = Store(projects: map<ProjectId, Project>, services: map<ServiceId, Service>, nextProject: ProjectId, nextService: ServiceId)

  type Key = (string, string)

  // The names a service goes by.
  function KeyOf(s: Store, id: ServiceId): Key
  {
    if id in s.services && s.services[id].project in s.projects
    then (s.projects[s.services[id].project].name, s.services[id].name) else ("", "")
  }

  ghost predicate Valid(s: Store)
  {
    && (forall p :: p in s.projects ==> p < s.nextProject)
    && (forall id :: id in s.services ==> id < s.nextService && s.services[id].project in s.projects)
    && (forall p, q :: p in s.projects && q in s.projects && s.projects[p].name == s.projects[q].name ==> p == q)
    && (forall a, b :: a in s.services && b in s.services && SameService(s.services[a], s.services[b]) ==> a == b)
  }

  predicate SameService(a: Service, b: Service) { a.project == b.project && a.name == b.name }

  predicate SeenIn(g: Groups, s: Store, id: ServiceId)
  {
    Seen(g, KeyOf(s, id).0, KeyOf(s, id).1)
  }

  predicate IsManual(s: Store, id: ServiceId)
    requires id in s.services && s.services[id].project in s.projects
  {
    s.projects[s.services[id].project].manual
  }

  function Refreshed(r: Service, f: Found): Service { r.(ids := f.ids, state := f.state, goneSince := None) }

  // CURRENT_TIMESTAMP has whole seconds; time is in milliseconds here.
  function Stamp(t: int): int { t - t % 1000 }

  // MarkGone: gone_since is set once, on the way into gone.
  function Gone(r: Service, now: int): Service
  {
    r.(state := "gone", goneSince := if r.goneSince.Some? then r.goneSince else Some(Stamp(now)))
  }

  // One cycle: when it marks, when it prunes, and whether and after how many
  // seconds it does; a negative grace counts as none.
  datatype Cycle = Cycle(seen: Groups, marksAt: int, prunesAt: int, prune: bool, graceSecs: int)

  function Cutoff(c: Cycle): int { c.prunesAt - 1000 * if c.graceSecs < 0 then 0 else c.graceSecs }

  predicate Expired(r: Service, c: Cycle) { c.prune && r.state == "gone" && r.goneSince.Some? && r.goneSince.value < Cutoff(c) }

  // What becomes of the service's row: refreshed when seen, left alone in a
  // manual project, else marked gone and, once expired, deleted.
  function RowAfter(s: Store, id: ServiceId, c: Cycle): Option<Service>
    requires id in s.services && s.services[id].project in s.projects
  {
    var r := s.services[id];
    if SeenIn(c.seen, s, id) then Some(Refreshed(r, FoundAt(c.seen, KeyOf(s, id))))
    else if IsManual(s, id) then Some(r)
    else if Expired(Gone(r, c.marksAt), c) then None
    else Some(Gone(r, c.marksAt))
  }

  // ----- what a cycle does -----------------------------------------------------------------------

  ghost predicate HasRow(s: Store, k: Key) { exists id :: id in s.services && KeyOf(s, id) == k }

  // The projects are those from before and new, discovered ones.
  ghost predicate ProjectsGrow(before: Store, after: Store, g: Groups)
  {
    && before.nextProject <= after.nextProject && before.nextService <= after.nextService
    && (forall p :: p in before.projects ==> p in after.projects && after.projects[p] == before.projects[p])
    && (forall p :: p in after.projects && p !in before.projects ==> before.nextProject <= p && !after.projects[p].manual && after.projects[p].name in g)
  }

  // The upserts of the keys in done, so far: rows from before are refreshed or
  // as they were,
  ghost predicate RowsKept(before: Store, after: Store, g: Groups, done: set<Key>)
  {
    forall id :: id in before.services ==> id in after.services && after.services[id] == RowWhen(before, id, g, done)
  }

  function RowWhen(before: Store, id: ServiceId, g: Groups, done: set<Key>): Service
    requires id in before.services
  {
    if KeyOf(before, id) in done then Refreshed(before.services[id], FoundAt(g, KeyOf(before, id))) else before.services[id]
  }

  // new rows belong to them and are not gone,
  ghost predicate RowsNew(before: Store, after: Store, g: Groups, done: set<Key>)
  {
    forall id :: id in after.services && id !in before.services ==>
      var k := KeyOf(after, id); before.nextService <= id && k in done && IsFresh(after.services[id], FoundAt(g, k))
  }

  predicate IsFresh(r: Service, f: Found) { r.ids == f.ids && r.state == f.state && r.goneSince.None? }

  // and each of them has a row.
  ghost predicate Covered(after: Store, done: set<Key>) { forall k :: k in done ==> HasRow(after, k) }

  ghost predicate Upserted(before: Store, after: Store, g: Groups, done: set<Key>)
  {
    && Valid(after) && ProjectsGrow(before, after, g)
    && RowsKept(before, after, g, done) && RowsNew(before, after, g, done) && Covered(after, done)
  }

  function FoundAt(g: Groups, k: Key): Found { if Seen(g, k.0, k.1) then g[k.0][k.1] else Found([], "") }

  function Keys(g: Groups): (ks: set<Key>)
    ensures forall k :: k in ks <==> Seen(g, k.0, k.1)
  {
    set p, n | p in g && n in g[p] :: (p, n)
  }

  // ----- the reconciler ------------------------------------------------------------------------------

  class Reconciler {
    var st: Store

    constructor (st: Store)
      requires Valid(st)
      ensures Valid(this.st) && this.st == st
    {
      this.st := st;
    }

    // The manual project of the name, or projects.Upsert (discovery.go:244-265).
    method ProjectFor(name: string) returns (pid: ProjectId)
      requires Valid(st)
      modifies this
      ensures Valid(st) && pid in st.projects && st.projects[pid].name == name
      ensures st == if pid in old(st).projects then old(st)
                    else old(st).(projects := old(st).projects[pid := Project(name, false)], nextProject := pid + 1)
      ensures pid !in old(st).projects ==> pid == old(st).nextProject
    {
      if exists p :: p in st.projects && st.projects[p].name == name {
        pid :| pid in st.projects && st.projects[pid].name == name;
      } else {
        pid := st.nextProject;
        st := st.(projects := st.projects[pid := Project(name, false)], nextProject := pid + 1);
      }
    }

    // services.Upsert clears gone_since on both branches.
    method UpsertService(pid: ProjectId, name: string, f: Found) returns (id: ServiceId)
      requires Valid(st) && pid in st.projects
      modifies this
      ensures Valid(st) && id in st.services && OneUpsert(old(st), st, pid, id, name, f) && st.projects == old(st).projects
    {
      hide Valid;
      ghost var was := st;
      NextIsFree(st);
      if exists x :: x in st.services && st.services[x].project == pid && st.services[x].name == name {
        id :| id in st.services && st.services[id].project == pid && st.services[id].name == name;
        st := st.(services := st.services[id := Refreshed(st.services[id], f)]);
      } else {
        id := st.nextService;
        st := st.(services := st.services[id := Service(pid, name, f.ids, f.state, None)], nextService := id + 1);
      }
      UpsertIsValid(was, st, pid, id, name, f);
    }

    method UpsertAll(g: Groups)
      requires Valid(st)
      modifies this
      ensures Upserted(old(st), st, g, Keys(g))
      ensures Contained(old(st), st) && forall p :: p in g ==> HasProject(st, p)
    {
      hide Upserted;
      ghost var done: set<Key> := {};
      NothingUpserted(st, g);
      var todo := g.Keys;
      while todo != {}
        invariant todo <= g.Keys && Upserted(old(st), st, g, done) && Contained(old(st), st)
        invariant forall k :: k in done <==> Seen(g, k.0, k.1) && k.0 !in todo
        invariant forall p :: p in g && p !in todo ==> HasProject(st, p)
        decreases |todo|
      {
        var p :| p in todo;
        todo := todo - {p};
        ghost var was := st;
        done := UpsertGroup(g, p, done, old(st));
        forall q | HasProject(was, q) ensures HasProject(st, q) {
          var x :| x in was.projects && was.projects[x].name == q;
          assert x in st.projects && st.projects[x].name == q;
        }
      }
      assert done == Keys(g);
    }

    method UpsertGroup(g: Groups, p: string, ghost done: set<Key>, ghost before: Store) returns (ghost now: set<Key>)
      requires Valid(before) && p in g && Upserted(before, st, g, done)
      modifies this
      ensures Upserted(before, st, g, now)
      ensures forall k :: k in now <==> k in done || (k.0 == p && k.1 in g[p])
      ensures Contained(old(st), st) && HasProject(st, p)
    {
      hide Upserted, Valid, OneUpsert;
      ghost var was := st;
      UpsertedIsValid(before, st, g, done);
      var pid := ProjectFor(p);
      ProjectKeeps(before, was, st, g, done, pid, p);
      now := done;
      var todo := g[p].Keys;
      while todo != {}
        invariant todo <= g[p].Keys && Upserted(before, st, g, now) && Valid(st)
        invariant forall k :: k in now <==> k in done || (k.0 == p && k.1 in g[p] && k.1 !in todo)
        invariant pid in st.projects && st.projects[pid].name == p && Contained(old(st), st)
        decreases |todo|
      {
        var n :| n in todo;
        was := st;
        var id := UpsertService(pid, n, g[p][n]);
        OneMoreUpserted(before, was, st, g, now, (p, n), pid, id);
        todo := todo - {n};
        now := now + {(p, n)};
      }
    }

    // discovery.go:326-340; known: the projects listed when the cycle began.
    method MarkGoneAll(g: Groups, known: set<ProjectId>, now: int)
      requires Valid(st)
      modifies this
      ensures MarkedGone(old(st), st, {}, g, known, now)
    {
      hide Valid, MarkedGone;
      var todo := st.services.Keys;
      ghost var before := st;
      NothingMarked(st, g, known, now);
      while todo != {}
        invariant MarkedGone(before, st, todo, g, known, now)
        decreases |todo|
      {
        var id :| id in todo;
        MarkedKeys(before, st, todo, g, known, now, id);
        ghost var was := st;
        if id in st.services && st.services[id].project in known && !IsManual(st, id) && !SeenIn(g, st, id) {
          st := st.(services := st.services[id := Gone(st.services[id], now)]);
        }
        OneMoreMarked(before, was, st, todo, id, g, known, now);
        todo := todo - {id};
      }
    }

    // discovery.go:342-391: the expired services of a project, then the project
    // when it is left empty.
    method Prune(c: Cycle)
      requires Valid(st)
      modifies this
      ensures if c.prune then Pruned(old(st), st, {}, c) else st == old(st)
    {
      hide Valid, Pruned, PrunedOne;
      if !c.prune { return; }
      var todo := st.projects.Keys;
      ghost var before := st;
      NothingPruned(st, c);
      while todo != {}
        invariant todo <= before.projects.Keys && Pruned(before, st, todo, c)
        decreases |todo|
      {
        var p :| p in todo;
        PrunedKeeps(before, st, todo, c, p);
        ghost var was := st;
        if !st.projects[p].manual { PruneProject(p, c); }
        OneMorePruned(before, was, st, todo, p, c);
        todo := todo - {p};
      }
    }

    method PruneProject(p: ProjectId, c: Cycle)
      requires p in st.projects
      modifies this
      ensures PrunedOne(old(st), st, p, c)
    {
      ghost var before := st;
      st := st.(services := map id | id in st.services && !(st.services[id].project == p && Expired(st.services[id], c)) :: st.services[id]);
      if !exists id :: id in st.services && st.services[id].project == p {
        st := st.(projects := st.projects - {p});
      }
    }

    // One cycle whose store calls all work.
    method Reconcile(cs: seq<Container>, marksAt: int, prunesAt: int, prune: bool, graceSecs: int)
      requires Valid(st)
      modifies this
      ensures Reconciled(old(st), st, Cycle(Grouped(cs), marksAt, prunesAt, prune, graceSecs))
    {
      hide Valid, Upserted, MarkedGone, Pruned, Reconciled;
      var g := Group(cs);
      var known := st.projects.Keys;
      ghost var before := st;
      UpsertAll(g);
      UpsertedIsValid(before, st, g, Keys(g));
      ghost var upserted := st;
      MarkGoneAll(g, known, marksAt);
      MarkedIsValid(upserted, st, g, known, marksAt);
      ghost var marked := st;
      var c := Cycle(g, marksAt, prunesAt, prune, graceSecs);
      Prune(c);
      CycleIsReconciled(before, upserted, marked, st, known, c);
    }
  }

  // The services outside todo marked: gone when their project was listed, is
  // not manual and has no such service any more.
  ghost predicate MarkedGone(before: Store, after: Store, todo: set<ServiceId>, g: Groups, known: set<ProjectId>, now: int)
  {
    && after == before.(services := after.services) && after.services.Keys == before.services.Keys
    && forall id :: id in before.services ==>
         after.services[id] == if id !in todo && Marks(before, id, g, known) then Gone(before.services[id], now) else before.services[id]
  }

  predicate Marks(s: Store, id: ServiceId, g: Groups, known: set<ProjectId>)
    requires id in s.services
  {
    s.services[id].project in known && s.services[id].project in s.projects && !IsManual(s, id) && !SeenIn(g, s, id)
  }

  lemma NothingMarked(s: Store, g: Groups, known: set<ProjectId>, now: int)
    ensures MarkedGone(s, s, s.services.Keys, g, known, now)
  {
  }

  lemma MarkedKeys(before: Store, after: Store, todo: set<ServiceId>, g: Groups, known: set<ProjectId>, now: int, id: ServiceId)
    requires Valid(before) && MarkedGone(before, after, todo, g, known, now)
    ensures id in after.services ==> after.services[id].project in after.projects && after.projects == before.projects
    ensures KeyOf(after, id) == KeyOf(before, id)
  {
  }

  lemma OneMoreMarked(before: Store, was: Store, now: Store, todo: set<ServiceId>, id: ServiceId, g: Groups, known: set<ProjectId>, at: int)
    requires Valid(before) && MarkedGone(before, was, todo, g, known, at) && id in todo
    requires now == if id in was.services && was.services[id].project in known && was.services[id].project in was.projects
                       && !IsManual(was, id) && !SeenIn(g, was, id)
                    then was.(services := was.services[id := Gone(was.services[id], at)]) else was
    ensures MarkedGone(before, now, todo - {id}, g, known, at)
  {
    MarkedKeys(before, was, todo, g, known, at, id);
  }

  lemma MarkedIsValid(before: Store, after: Store, g: Groups, known: set<ProjectId>, now: int)
    requires Valid(before) && MarkedGone(before, after, {}, g, known, now)
    ensures Valid(after)
  {
    hide Marks;
    assert forall id :: id in before.services ==> SameService(after.services[id], before.services[id]);
  }

  // The projects outside todo pruned.
  ghost predicate Pruned(before: Store, after: Store, todo: set<ProjectId>, c: Cycle)
  {
    && after == before.(services := after.services, projects := after.projects)
    && (forall id :: id in after.services ==> id in before.services && after.services[id] == before.services[id])
    && (forall p :: p in after.projects ==> p in before.projects && after.projects[p] == before.projects[p])
    && (forall id :: id in before.services ==>
          (id in after.services <==> before.services[id].project in todo || !Discovered(before, before.services[id].project) || !Expired(before.services[id], c)))
    && (forall p :: p in before.projects ==>
          (p in after.projects <==> p in todo || !Discovered(before, p) || HasServices(after, p)))
  }

  predicate Discovered(s: Store, p: ProjectId) { p in s.projects && !s.projects[p].manual }

  ghost predicate HasServices(s: Store, p: ProjectId) { exists id :: id in s.services && s.services[id].project == p }

  lemma NothingPruned(s: Store, c: Cycle)
    requires Valid(s)
    ensures Pruned(s, s, s.projects.Keys, c)
  {
  }

  lemma PrunedKeeps(before: Store, after: Store, todo: set<ProjectId>, c: Cycle, p: ProjectId)
    requires Pruned(before, after, todo, c) && p in todo && p in before.projects
    ensures p in after.projects && after.projects[p] == before.projects[p]
  {
  }

  ghost predicate PrunedOne(was: Store, now: Store, p: ProjectId, c: Cycle)
  {
    && now == was.(services := now.services, projects := now.projects)
    && (forall id :: id in now.services <==> id in was.services && !(was.services[id].project == p && Expired(was.services[id], c)))
    && (forall id :: id in now.services ==> now.services[id] == was.services[id])
    && now.projects == if HasServices(now, p) then was.projects else was.projects - {p}
  }

  lemma OneMorePruned(before: Store, was: Store, now: Store, todo: set<ProjectId>, p: ProjectId, c: Cycle)
    requires Pruned(before, was, todo, c) && p in todo && p in before.projects
    requires if before.projects[p].manual then now == was else PrunedOne(was, now, p, c)
    ensures Pruned(before, now, todo - {p}, c)
  {
    forall q | q in before.projects && q != p ensures HasServices(now, q) <==> HasServices(was, q) {
      if HasServices(was, q) {
        var id :| id in was.services && was.services[id].project == q;
        assert id in now.services && now.services[id].project == q;
      }
    }
  }

  // What a cycle leaves.
  ghost predicate Reconciled(before: Store, after: Store, c: Cycle)
    requires Valid(before)
  {
    && Valid(after)
    && (forall id :: id in before.services ==>
          RowAfter(before, id, c) == if id in after.services then Some(after.services[id]) else None)
    && (forall id :: id in after.services && id !in before.services ==>
          before.nextService <= id && SeenIn(c.seen, after, id) && IsFresh(after.services[id], FoundAt(c.seen, KeyOf(after, id))))
    && (forall k :: k in Keys(c.seen) ==> HasRow(after, k))
    && (forall p :: p in before.projects ==> if p in after.projects then after.projects[p] == before.projects[p]
          else c.prune && !before.projects[p].manual && forall id :: id in after.services ==> after.services[id].project != p)
  }

  ghost predicate HasProject(s: Store, p: string) { exists q :: q in s.projects && s.projects[q].name == p }

  ghost predicate Contained(a: Store, b: Store) { forall q :: q in a.projects ==> q in b.projects && b.projects[q] == a.projects[q] }

  lemma NothingUpserted(s: Store, g: Groups)
    requires Valid(s)
    ensures Upserted(s, s, g, {})
  {
  }

  lemma UpsertedIsValid(before: Store, after: Store, g: Groups, done: set<Key>)
    requires Upserted(before, after, g, done)
    ensures Valid(after)
  {
  }

  // Finding or inserting a project changes no row and no row's key.
  lemma ProjectKeeps(before: Store, was: Store, now: Store, g: Groups, done: set<Key>, pid: ProjectId, p: string)
    requires Valid(before) && Upserted(before, was, g, done) && Valid(now) && p in g
    requires pid !in was.projects ==> pid == was.nextProject
    requires now == if pid in was.projects then was
                    else was.(projects := was.projects[pid := Project(p, false)], nextProject := pid + 1)
    ensures Upserted(before, now, g, done)
  {
    hide KeyOf, RowWhen, RowsNew, ProjectsGrow, Valid;
    UpsertedIsValid(before, was, g, done);
    ProjectKeepsKeys(was, now, pid, p);
    GrowsByProject(before, was, now, g, pid, p);
    RowsNewSame(before, was, now, g, done);
    forall k | k in done ensures HasRow(now, k) {
      var y :| y in was.services && KeyOf(was, y) == k;
      assert KeyOf(now, y) == k;
    }
  }

  lemma GrowsByProject(before: Store, was: Store, now: Store, g: Groups, pid: ProjectId, p: string)
    requires ProjectsGrow(before, was, g) && p in g
    requires pid !in was.projects ==> pid == was.nextProject
    requires now == if pid in was.projects then was
                    else was.(projects := was.projects[pid := Project(p, false)], nextProject := pid + 1)
    ensures ProjectsGrow(before, now, g)
  {
  }

  lemma ProjectKeepsKeys(was: Store, now: Store, pid: ProjectId, p: string)
    requires Valid(was) && now.services == was.services
    requires now.projects == if pid in was.projects then was.projects else was.projects[pid := Project(p, false)]
    ensures forall id :: id in was.services ==> KeyOf(now, id) == KeyOf(was, id)
  {
  }

  lemma RowsNewSame(before: Store, was: Store, now: Store, g: Groups, done: set<Key>)
    requires RowsNew(before, was, g, done) && now.services == was.services
    requires forall id :: id in was.services ==> KeyOf(now, id) == KeyOf(was, id)
    ensures RowsNew(before, now, g, done)
  {
    hide KeyOf;
  }

  // What one services.Upsert does to the table.
  ghost predicate OneUpsert(was: Store, now: Store, pid: ProjectId, id: ServiceId, name: string, f: Found)
  {
    && (id in was.services ==> SameService(was.services[id], Service(pid, name, f.ids, f.state, None)))
    && (id !in was.services ==> id == was.nextService)
    && now == if id in was.services then was.(services := was.services[id := Refreshed(was.services[id], f)])
              else was.(services := was.services[id := Service(pid, name, f.ids, f.state, None)], nextService := id + 1)
  }

  lemma NextIsFree(s: Store)
    requires Valid(s)
    ensures s.nextService !in s.services
  {
  }

  lemma UpsertIsValid(was: Store, now: Store, pid: ProjectId, id: ServiceId, name: string, f: Found)
    requires Valid(was) && pid in was.projects && OneUpsert(was, now, pid, id, name, f)
    requires id !in was.services ==> forall x :: x in was.services ==> !(was.services[x].project == pid && was.services[x].name == name)
    ensures Valid(now)
  {
  }

  lemma OneMoreUpserted(before: Store, was: Store, now: Store, g: Groups, done: set<Key>, k: Key, pid: ProjectId, id: ServiceId)
    requires Valid(before) && Upserted(before, was, g, done) && Valid(now) && Seen(g, k.0, k.1)
    requires pid in was.projects && was.projects[pid].name == k.0
    requires OneUpsert(was, now, pid, id, k.1, g[k.0][k.1])
    ensures Upserted(before, now, g, done + {k})
  {
    hide RowsKept, RowsNew, Covered, OneUpsert;
    var f := g[k.0][k.1];
    KeysStay(was, now, pid, id, k, f);
    KeysCarried(before, was, g, done);
    OnlyRow(was, now, pid, id, k, f);
    GrowsOn(before, was, now, g, pid, id, k, f);
    KeptMore(before, was, now, g, done, k, pid, id);
    NewMore(before, was, now, g, done, k, id);
    CoveredMore(was, now, done, k, id);
  }

  lemma GrowsOn(before: Store, was: Store, now: Store, g: Groups, pid: ProjectId, id: ServiceId, k: Key, f: Found)
    requires ProjectsGrow(before, was, g) && OneUpsert(was, now, pid, id, k.1, f) && Valid(was)
    ensures ProjectsGrow(before, now, g) && now.nextService >= was.nextService
    ensures id in now.services && forall x :: x in was.services ==> x in now.services
  {
  }

  lemma KeysStay(was: Store, now: Store, pid: ProjectId, id: ServiceId, k: Key, f: Found)
    requires Valid(was) && pid in was.projects && was.projects[pid].name == k.0
    requires OneUpsert(was, now, pid, id, k.1, f)
    ensures KeyOf(now, id) == k && forall x :: x in was.services ==> KeyOf(now, x) == KeyOf(was, x)
  {
  }

  lemma KeptMore(before: Store, was: Store, now: Store, g: Groups, done: set<Key>, k: Key, pid: ProjectId, id: ServiceId)
    requires RowsKept(before, was, g, done) && Seen(g, k.0, k.1)
    requires forall x :: x in before.services ==> KeyOf(was, x) == KeyOf(before, x)
    requires forall x :: x in was.services && KeyOf(was, x) == k ==> x == id
    requires id in was.services ==> KeyOf(was, id) == k
    requires OneUpsert(was, now, pid, id, k.1, g[k.0][k.1])
    ensures RowsKept(before, now, g, done + {k})
  {
    hide KeyOf;
    forall x | x in before.services ensures x in now.services && now.services[x] == RowWhen(before, x, g, done + {k}) {
      assert was.services[x] == RowWhen(before, x, g, done);
      if KeyOf(before, x) == k { assert x == id; }
    }
  }

  lemma KeysCarried(before: Store, was: Store, g: Groups, done: set<Key>)
    requires Valid(before) && ProjectsGrow(before, was, g) && RowsKept(before, was, g, done)
    ensures forall x :: x in before.services ==> KeyOf(was, x) == KeyOf(before, x)
  {
    forall x | x in before.services ensures KeyOf(was, x) == KeyOf(before, x) {
      assert was.services[x] == RowWhen(before, x, g, done);
    }
  }

  // The row the upsert writes is the only one of its key.
  lemma OnlyRow(was: Store, now: Store, pid: ProjectId, id: ServiceId, k: Key, f: Found)
    requires Valid(was) && Valid(now) && pid in was.projects && was.projects[pid].name == k.0
    requires OneUpsert(was, now, pid, id, k.1, f)
    ensures forall x :: x in was.services && KeyOf(was, x) == k ==> x == id
    ensures id in was.services ==> KeyOf(was, id) == k
  {
    forall x | x in was.services && KeyOf(was, x) == k ensures x == id {
      assert was.services[x].project == pid;
      assert SameService(now.services[x], now.services[id]);
    }
  }

  lemma NewMore(before: Store, was: Store, now: Store, g: Groups, done: set<Key>, k: Key, id: ServiceId)
    requires RowsNew(before, was, g, done) && ProjectsGrow(before, was, g) && Seen(g, k.0, k.1)
    requires KeyOf(now, id) == k && forall x :: x in was.services ==> KeyOf(now, x) == KeyOf(was, x)
    requires exists pid :: OneUpsert(was, now, pid, id, k.1, g[k.0][k.1])
    ensures RowsNew(before, now, g, done + {k})
  {
  }

  lemma CoveredMore(was: Store, now: Store, done: set<Key>, k: Key, id: ServiceId)
    requires Covered(was, done) && KeyOf(now, id) == k && id in now.services
    requires forall x :: x in was.services ==> x in now.services && KeyOf(now, x) == KeyOf(was, x)
    ensures Covered(now, done + {k})
  {
    forall x | x in done + {k} ensures HasRow(now, x) {
      if x in done {
        var y :| y in was.services && KeyOf(was, y) == x;
        assert KeyOf(now, y) == x;
      }
    }
  }

  // Up to the pruning: a row from before is refreshed, left alone or marked.
  lemma RowMarked(before: Store, upserted: Store, marked: Store, known: set<ProjectId>, c: Cycle, id: ServiceId)
    requires Valid(before) && Upserted(before, upserted, c.seen, Keys(c.seen)) && known == before.projects.Keys
    requires MarkedGone(upserted, marked, {}, c.seen, known, c.marksAt) && id in before.services
    ensures id in marked.services && marked.services[id].project == before.services[id].project
    ensures marked.services[id] ==
              if SeenIn(c.seen, before, id) then Refreshed(before.services[id], FoundAt(c.seen, KeyOf(before, id)))
              else if IsManual(before, id) then before.services[id] else Gone(before.services[id], c.marksAt)
    ensures IsManual(before, id) <==> !Discovered(marked, before.services[id].project)
  {
    KeysCarried(before, upserted, c.seen, Keys(c.seen));
    assert upserted.services[id] == RowWhen(before, id, c.seen, Keys(c.seen));
  }

  // A row the cycle inserts is seen, so it is not marked.
  lemma NewRowMarked(before: Store, upserted: Store, marked: Store, known: set<ProjectId>, c: Cycle, id: ServiceId)
    requires Valid(before) && Upserted(before, upserted, c.seen, Keys(c.seen))
    requires MarkedGone(upserted, marked, {}, c.seen, known, c.marksAt) && id in marked.services && id !in before.services
    ensures before.nextService <= id && SeenIn(c.seen, marked, id) && IsFresh(marked.services[id], FoundAt(c.seen, KeyOf(marked, id)))
  {
    assert KeyOf(marked, id) == KeyOf(upserted, id);
  }

  lemma PrunedIsValid(before: Store, after: Store, c: Cycle)
    requires Valid(before) && Pruned(before, after, {}, c)
    ensures Valid(after)
    ensures forall id :: id in after.services ==> KeyOf(after, id) == KeyOf(before, id)
  {
    forall id | id in after.services ensures after.services[id].project in after.projects {
      assert HasServices(after, after.services[id].project);
    }
  }

  // A seen service's row is not gone, so it is not pruned.
  lemma SeenRowStays(before: Store, upserted: Store, marked: Store, after: Store, known: set<ProjectId>, c: Cycle, k: Key)
    requires Valid(before) && Upserted(before, upserted, c.seen, Keys(c.seen)) && known == before.projects.Keys
    requires MarkedGone(upserted, marked, {}, c.seen, known, c.marksAt) && Valid(marked)
    requires if c.prune then Pruned(marked, after, {}, c) else after == marked
    requires k in Keys(c.seen)
    ensures HasRow(after, k)
  {
    hide Valid, Upserted, MarkedGone;
    assert HasRow(upserted, k) by { UpsertedCovers(before, upserted, c.seen, Keys(c.seen), k); }
    var id :| id in upserted.services && KeyOf(upserted, id) == k;
    SeenNotGone(before, upserted, marked, known, c, id);
    if c.prune { PrunedIsValid(marked, after, c); }
    assert id in after.services && KeyOf(after, id) == k;
  }

  lemma UpsertedCovers(before: Store, upserted: Store, g: Groups, done: set<Key>, k: Key)
    requires Upserted(before, upserted, g, done) && k in done
    ensures HasRow(upserted, k)
  {
  }

  lemma SeenNotGone(before: Store, upserted: Store, marked: Store, known: set<ProjectId>, c: Cycle, id: ServiceId)
    requires Valid(before) && Upserted(before, upserted, c.seen, Keys(c.seen)) && known == before.projects.Keys
    requires MarkedGone(upserted, marked, {}, c.seen, known, c.marksAt)
    requires id in upserted.services && KeyOf(upserted, id) in Keys(c.seen)
    ensures id in marked.services && marked.services[id].goneSince.None? && KeyOf(marked, id) == KeyOf(upserted, id)
  {
    if id in before.services {
      KeysCarried(before, upserted, c.seen, Keys(c.seen));
      RowMarked(before, upserted, marked, known, c, id);
    } else {
      NewRowMarked(before, upserted, marked, known, c, id);
    }
  }

  lemma ProjectsAfter(before: Store, upserted: Store, marked: Store, after: Store, known: set<ProjectId>, c: Cycle, p: ProjectId)
    requires Upserted(before, upserted, c.seen, Keys(c.seen)) && MarkedGone(upserted, marked, {}, c.seen, known, c.marksAt)
    requires if c.prune then Pruned(marked, after, {}, c) else after == marked
    requires p in before.projects
    ensures if p in after.projects then after.projects[p] == before.projects[p]
            else c.prune && !before.projects[p].manual && forall id :: id in after.services ==> after.services[id].project != p
  {
    assert p in marked.projects && marked.projects[p] == before.projects[p];
    if p !in after.projects && exists id :: id in after.services && after.services[id].project == p {
      assert HasServices(after, p);
    }
  }

  lemma OldRow(before: Store, upserted: Store, marked: Store, after: Store, known: set<ProjectId>, c: Cycle, id: ServiceId)
    requires Valid(before) && Upserted(before, upserted, c.seen, Keys(c.seen)) && known == before.projects.Keys
    requires MarkedGone(upserted, marked, {}, c.seen, known, c.marksAt)
    requires if c.prune then Pruned(marked, after, {}, c) else after == marked
    requires id in before.services && ProjectOfRow(before, id)
    ensures RowAfter(before, id, c) == if id in after.services then Some(after.services[id]) else None
  {
    hide Valid, Upserted, MarkedGone, KeyOf, Cutoff;
    RowMarked(before, upserted, marked, known, c, id);
  }

  lemma NewRow(before: Store, upserted: Store, marked: Store, after: Store, known: set<ProjectId>, c: Cycle, id: ServiceId)
    requires Valid(before) && Upserted(before, upserted, c.seen, Keys(c.seen)) && Valid(marked)
    requires MarkedGone(upserted, marked, {}, c.seen, known, c.marksAt)
    requires if c.prune then Pruned(marked, after, {}, c) else after == marked
    requires id in after.services && id !in before.services
    ensures before.nextService <= id && SeenIn(c.seen, after, id) && IsFresh(after.services[id], FoundAt(c.seen, KeyOf(after, id)))
  {
    hide Valid, Upserted, MarkedGone, KeyOf;
    if c.prune { PrunedIsValid(marked, after, c); }
    assert id in marked.services && after.services[id] == marked.services[id];
    NewRowMarked(before, upserted, marked, known, c, id);
  }

  lemma CycleIsReconciled(before: Store, upserted: Store, marked: Store, after: Store, known: set<ProjectId>, c: Cycle)
    requires Valid(before) && Upserted(before, upserted, c.seen, Keys(c.seen)) && known == before.projects.Keys
    requires MarkedGone(upserted, marked, {}, c.seen, known, c.marksAt) && Valid(marked)
    requires if c.prune then Pruned(marked, after, {}, c) else after == marked
    ensures Reconciled(before, after, c)
  {
    hide Valid, Upserted, MarkedGone, Pruned, KeyOf, HasRow, RowAfter;
    if c.prune { PrunedIsValid(marked, after, c); }
    forall id | id in before.services
      ensures ProjectOfRow(before, id) && RowAfter(before, id, c) == if id in after.services then Some(after.services[id]) else None
    {
      RowExists(before, id);
      OldRow(before, upserted, marked, after, known, c, id);
    }
    forall id | id in after.services && id !in before.services
      ensures before.nextService <= id && SeenIn(c.seen, after, id) && IsFresh(after.services[id], FoundAt(c.seen, KeyOf(after, id)))
    {
      NewRow(before, upserted, marked, after, known, c, id);
    }
    forall k | k in Keys(c.seen) ensures HasRow(after, k) {
      SeenRowStays(before, upserted, marked, after, known, c, k);
    }
    forall p | p in before.projects
      ensures if p in after.projects then after.projects[p] == before.projects[p]
              else c.prune && !before.projects[p].manual && forall id :: id in after.services ==> after.services[id].project != p
    {
      ProjectsAfter(before, upserted, marked, after, known, c, p);
    }
  }

  predicate ProjectOfRow(s: Store, id: ServiceId)
    requires id in s.services
  {
    s.services[id].project in s.projects
  }

  lemma RowExists(s: Store, id: ServiceId)
    requires Valid(s) && id in s.services
    ensures ProjectOfRow(s, id)
  {
  }

  // ----- runs of cycles ---------------------------------------------------------------------------

  // No other writer of service state.
  ghost predicate Run(ss: seq<Store>, cs: seq<Cycle>)
  {
    && |ss| == |cs| + 1
    && forall i :: 0 <= i < |cs| ==> Valid(ss[i]) && Reconciled(ss[i], ss[i + 1], cs[i])
  }

  // The service is there and unseen at every cycle from i up to k.
  ghost predicate AbsentSince(ss: seq<Store>, cs: seq<Cycle>, id: ServiceId, i: nat, k: nat)
    requires |ss| == |cs| + 1
  {
    i <= k <= |cs| && forall j :: i <= j < k ==> id in ss[j].services && !SeenIn(cs[j].seen, ss[j], id)
  }

  lemma GoneAfterCycle(before: Store, after: Store, c: Cycle, id: ServiceId)
    requires Valid(before) && Reconciled(before, after, c)
    requires id in after.services && after.services[id].goneSince.Some?
    ensures id in before.services
    ensures before.services[id].goneSince.None? ==> !SeenIn(c.seen, before, id) && after.services[id].goneSince == Some(Stamp(c.marksAt))
    ensures before.services[id].goneSince.Some? ==> after.services[id].goneSince == before.services[id].goneSince && !SeenIn(c.seen, before, id)
  {
    hide KeyOf, HasRow;
    assert id in before.services;
    assert Some(after.services[id]) == RowAfter(before, id, c);
  }

  // gone_since tells when: the cycle that stamped it found the service gone, and
  // no cycle since has seen it. None: it was stamped before the run.
  lemma {:induction false} GoneSinceTells(ss: seq<Store>, cs: seq<Cycle>, k: nat, id: ServiceId) returns (start: Option<nat>)
    requires Run(ss, cs) && k < |ss|
    requires id in ss[k].services && ss[k].services[id].goneSince.Some?
    ensures start.Some? ==>
              && start.value < k && AbsentSince(ss, cs, id, start.value, k)
              && ss[start.value].services[id].goneSince.None?
              && ss[k].services[id].goneSince == Some(Stamp(cs[start.value].marksAt))
    ensures start.None? ==> AbsentSince(ss, cs, id, 0, k) && id in ss[0].services
    ensures forall j :: (if start.Some? then start.value + 1 else 0) <= j <= k ==>
                          id in ss[j].services && ss[j].services[id].goneSince == ss[k].services[id].goneSince
    decreases k
  {
    hide Reconciled, SeenIn, Valid;
    if k == 0 { return None; }
    var was := ss[k - 1];
    GoneAfterCycle(was, ss[k], cs[k - 1], id);
    start := Some(k - 1);
    if was.services[id].goneSince.Some? {
      start := GoneSinceTells(ss, cs, k - 1, id);
    }
  }

  lemma DeletedNow(before: Store, after: Store, c: Cycle, id: ServiceId)
    requires Valid(before) && Reconciled(before, after, c) && id in before.services && id !in after.services
    ensures c.prune && !SeenIn(c.seen, before, id) && Cutoff(c) <= c.prunesAt
    ensures before.services[id].project in before.projects && !IsManual(before, id)
    ensures (if before.services[id].goneSince.Some? then before.services[id].goneSince.value else Stamp(c.marksAt)) < Cutoff(c)
  {
    hide KeyOf, HasRow;
    assert RowAfter(before, id, c).None?;
  }

  // A service is deleted only by a pruning cycle, only when no cycle since its
  // gone_since has seen it, and only when that is longer ago than the clamped
  // grace; its project was not a manual one. None: it was gone all along, since
  // the time the run found in its row.
  lemma DeletedOnlyAfterGrace(ss: seq<Store>, cs: seq<Cycle>, k: nat, id: ServiceId) returns (start: Option<nat>)
    requires Run(ss, cs) && k < |cs|
    requires id in ss[k].services && id !in ss[k + 1].services
    ensures start.Some? ==>
              && start.value <= k && AbsentSince(ss, cs, id, start.value, k + 1)
              && Stamp(cs[start.value].marksAt) < Cutoff(cs[k])
    ensures start.None? ==>
              && AbsentSince(ss, cs, id, 0, k + 1) && id in ss[0].services
              && ss[0].services[id].goneSince.Some? && ss[0].services[id].goneSince.value < Cutoff(cs[k])
    ensures cs[k].prune && Cutoff(cs[k]) <= cs[k].prunesAt
    ensures ss[k].services[id].project in ss[k].projects && !IsManual(ss[k], id)
  {
    hide KeyOf, HasRow, RowAfter, Reconciled, SeenIn, Valid, Cutoff, IsManual;
    assert Valid(ss[k]) && Reconciled(ss[k], ss[k + 1], cs[k]);
    DeletedNow(ss[k], ss[k + 1], cs[k], id);
    start := Some(k);
    if ss[k].services[id].goneSince.Some? {
      start := GoneSinceTells(ss, cs, k, id);
    }
  }

  // And the other way round: a pruning cycle deletes every such service.
  lemma ExpiredIsDeleted(before: Store, after: Store, c: Cycle, id: ServiceId)
    requires Valid(before) && Reconciled(before, after, c) && id in before.services
    ensures id !in after.services <==>
              c.prune && !IsManual(before, id) && !SeenIn(c.seen, before, id) && Gone(before.services[id], c.marksAt).goneSince.value < Cutoff(c)
  {
    hide KeyOf, HasRow;
    assert RowAfter(before, id, c) == if id in after.services then Some(after.services[id]) else None;
  }

  // A manual project and its services survive every run, and none of them is
  // ever marked gone.
  lemma {:induction false} ManualIsNeverPruned(ss: seq<Store>, cs: seq<Cycle>, k: nat, id: ServiceId)
    requires Run(ss, cs) && k < |ss| && id in ss[0].services && ss[0].services[id].goneSince.None?
    requires Valid(ss[0]) && IsManual(ss[0], id)
    ensures id in ss[k].services && ss[k].services[id].goneSince.None?
    ensures ss[k].services[id].project == ss[0].services[id].project
    ensures ss[k].services[id].project in ss[k].projects && IsManual(ss[k], id)
  {
    hide KeyOf, HasRow;
    if k > 0 {
      ManualIsNeverPruned(ss, cs, k - 1, id);
      var was, c := ss[k - 1], cs[k - 1];
      assert Reconciled(was, ss[k], c);
      assert RowAfter(was, id, c) == if id in ss[k].services then Some(ss[k].services[id]) else None;
      assert was.services[id].project in was.projects;
    }
  }
}
