// Apply and rollback of a compose service (internal/job/worker.go:122-357,
// 381-592).
module ComposeApply {
  import opened Base
  import opened Utf8
  import opened ComposeFile
  import opened ComposeHistory
  import D = Daemon
  import T = Tags

  datatype Snapshot = Snapshot(prevRepo: Bytes, prevDigest: string, blob: Option<Text>)

  // Where the raw compose files declare the service's image.
  datatype ImageLine = ImageLine(path: Path, line: int, ref: Bytes, rewritable: bool)

  // What an apply reads before it touches anything. loaded: the rows were read,
  // the compose files parsed and the target re-resolved; moved: the registry no
  // longer serves the recorded digest; dependents: the services that borrow a
  // namespace from this one, and whether dockbrr tracks each.
  datatype Request = Request(
    loaded: bool, moved: bool, hashed: bool,
    configFiles: seq<Path>, overridePath: Path, containers: seq<Id>, prevDigest: string, toDigest: string,
    cls: T.TagClass, writeBack: bool, imageRef: Bytes, repo: Bytes, trackedTag: Bytes, updateTag: Bytes,
    imageLine: Option<ImageLine>, dependents: seq<bool>)
  {
    predicate CrossTag() { updateTag != [] && updateTag != trackedTag }
  }

  datatype Plan = Rewrite(path: Path, raw: Bytes, edited: Bytes) | Pin | Plain

  // The outside: files, stored snapshots, and what each call after n effects does.
  class Host {
    var disk: Files
    var snapshots: seq<Snapshot>
    var log: seq<Effect>
    ghost var begin: nat       // where the job's history begins
    ghost var start: Phase     // and in which phase
    ghost var phase: Phase     // the phase it has reached
    ghost var marks: seq<string>   // the statuses it has written
    ghost var pending: set<Path>   // and its overrides still there
    const works: nat -> bool
    const answers: nat -> D.Status
    const found: nat -> Option<seq<Id>>

    ghost predicate Valid()
      reads this
    {
      begin <= |log| && phase == PhaseOf(log, begin, start) && marks == Statuses(log, begin) && pending == Pending(log, begin)
    }

    constructor (disk: Files, works: nat -> bool, answers: nat -> D.Status, found: nat -> Option<seq<Id>>)
      ensures Valid() && this.disk == disk && snapshots == [] && log == []
    {
      begin, start, phase, marks, pending := 0, Unsnapped, Unsnapped, [], {};
      this.disk, snapshots, log, this.works, this.answers, this.found := disk, [], [], works, answers, found;
    }

    method Append(e: Effect)
      requires Valid()
      modifies this`log, this`phase, this`marks, this`pending
      ensures Valid() && log == old(log) + [e] && phase == Next(old(phase), e)
      ensures marks == old(marks) + StatusOf(e) && pending == PendingAfter(old(pending), e)
    {
      Appended(log, e, begin, start);
      StatusAppended(log, e, begin);
      PendingAppended(log, e, begin);
      log := log + [e];
      phase, marks, pending := Next(phase, e), marks + StatusOf(e), PendingAfter(pending, e);
    }

    // A job's history begins here.
    ghost method Begin(s: Phase)
      modifies this`begin, this`start, this`phase, this`marks, this`pending
      ensures Valid() && begin == |log| && start == s && phase == s && marks == [] && pending == {}
    {
      begin, start, phase, marks, pending := |log|, s, s, [], {};
    }

    // Every call from effect n on works, and every look finds a container ready.
    ghost predicate Smooth(n: nat) { forall i: nat :: n <= i ==> works(i) && D.Ready(answers(i)) }

    method Run(verb: Verb, files: seq<Path>) returns (ok: bool)
      requires Valid()
      modifies this`log, this`phase, this`marks, this`pending
      ensures Valid() && marks == old(marks) && pending == old(pending)
      ensures ok == works(|old(log)|) && log == old(log) + [Ran(verb, files, ok)]
      ensures phase == Next(old(phase), Ran(verb, files, ok))
    {
      ok := works(|log|);
      Append(Ran(verb, files, ok));
    }

    method WriteFile(path: Path, content: Bytes) returns (ok: bool)
      requires Valid()
      modifies this`log, this`disk, this`phase, this`marks, this`pending
      ensures Valid() && marks == old(marks) && pending == old(pending)
      ensures ok == works(|old(log)|) && log == old(log) + [FileWritten(path, ok)]
      ensures disk == WriteFileAtomic(old(disk), path, content, ok)
      ensures phase == Next(old(phase), FileWritten(path, ok))
    {
      ok := works(|log|);
      disk := WriteFileAtomic(disk, path, content, ok);
      Append(FileWritten(path, ok));
    }

    // A failed write leaves no file behind.
    method WriteOverride(path: Path, pin: ImagePin) returns (ok: bool)
      requires Valid()
      modifies this`log, this`phase, this`marks, this`pending
      ensures Valid() && marks == old(marks) && pending == old(pending) + if ok then {path} else {}
      ensures ok == works(|old(log)|) && log == old(log) + [OverrideWritten(path, pin, ok)]
      ensures phase == Next(old(phase), OverrideWritten(path, pin, ok))
    {
      ok := works(|log|);
      Append(OverrideWritten(path, pin, ok));
    }

    method InspectStatus(id: Id) returns (st: D.Status)
      requires Valid()
      modifies this`log, this`phase, this`marks, this`pending
      ensures Valid() && marks == old(marks) && pending == old(pending)
      ensures st == answers(|old(log)|) && log == old(log) + [Inspected(id, st)]
      ensures phase == Next(old(phase), Inspected(id, st))
    {
      st := answers(|log|);
      Append(Inspected(id, st));
    }

    method LocateService(dependent: Option<nat>) returns (ids: Option<seq<Id>>)
      requires Valid()
      modifies this`log, this`phase, this`marks, this`pending
      ensures Valid() && marks == old(marks) && pending == old(pending)
      ensures ids == found(|old(log)|) && log == old(log) + [Located(dependent, ids)]
      ensures phase == Next(old(phase), Located(dependent, ids))
    {
      ids := found(|log|);
      Append(Located(dependent, ids));
    }

    // Snapshots.Insert: nothing is stored when it fails.
    method Insert(s: Snapshot) returns (ok: bool)
      requires Valid()
      modifies this`log, this`snapshots, this`phase, this`marks, this`pending
      ensures Valid() && marks == old(marks) && pending == old(pending)
      ensures ok == works(|old(log)|)
      ensures ok ==> log == old(log) + [SnapshotStored] && snapshots == old(snapshots) + [s] && phase == Next(old(phase), SnapshotStored)
      ensures !ok ==> log == old(log) && snapshots == old(snapshots) && phase == old(phase)
    {
      ok := works(|log|);
      if ok {
        snapshots := snapshots + [s];
        Append(SnapshotStored);
      }
    }
  }

  // ----- the plan (worker.go:181-209) ----------------------------------------------------

  // A floating tag is never rewritten or pinned; an exact one is rewritten where
  // the file allows it and pinned by an override where it does not.
  ghost predicate Planned(q: Request, disk: Files, plan: Plan)
  {
    && (plan.Plain? <==> (!q.CrossTag() || q.cls.Floating?))
    && (plan.Rewrite? ==> RewritesRef(q, disk, plan))
    && (plan.Pin? ==> !Rewritable(q, disk))
  }

  // The plan replaces the tracked reference on its line by the suggested one.
  ghost predicate RewritesRef(q: Request, disk: Files, plan: Plan)
    requires plan.Rewrite?
  {
    && q.cls.Exact? && q.writeBack && q.imageLine.Some? && plan.path == q.imageLine.value.path
    && plan.path in disk && plan.raw == disk[plan.path]
    && 1 <= q.imageLine.value.line <= |Split(plan.raw)|
    && var at := Site(plan.raw, q.imageRef, q.imageLine.value.line);
    && At(plan.raw, at, q.imageRef)
    && plan.edited == Splice(plan.raw, at, |q.imageRef|, q.repo + [0x3A] + q.updateTag)
  }

  ghost predicate Rewritable(q: Request, disk: Files)
  {
    && q.cls.Exact? && q.writeBack && q.imageLine.Some? && q.imageLine.value.rewritable
    && q.imageLine.value.ref == q.imageRef && q.imageLine.value.path in disk
    && var raw, line := disk[q.imageLine.value.path], q.imageLine.value.line;
    && 1 <= line <= |Split(raw)| && Contains(Split(raw)[line - 1], q.imageRef)
  }

  method Decide(q: Request, disk: Files) returns (plan: Plan)
    ensures Planned(q, disk, plan)
  {
    var newTag := if q.CrossTag() then q.updateTag else q.trackedTag;
    if q.writeBack && q.cls.Exact? && newTag != q.trackedTag && q.imageLine.Some? {
      var loc := q.imageLine.value;
      if loc.rewritable && loc.ref == q.imageRef && loc.path in disk {
        var r := ReplaceImageLine(disk[loc.path], loc.ref, q.repo + [0x3A] + newTag, loc.line);
        if r.Ok? { return Rewrite(loc.path, disk[loc.path], r.value); }
      }
    }
    plan := if q.CrossTag() && !q.cls.Floating? then Pin else Plain;
  }

  // ----- the health gate (worker.go:428-468) ----------------------------------------------

  // From m on, one sweep saw every id ready.
  ghost predicate SweptReady(log: seq<Effect>, m: int, ids: seq<Id>)
  {
    && 0 <= m && m + |ids| <= |log|
    && forall i :: m <= i < m + |ids| ==> log[i].Inspected? && log[i].id == ids[i - m] && D.Ready(log[i].status)
  }

  ghost predicate OnlyInspections(log: seq<Effect>, n: nat) { forall i :: n <= i < |log| ==> log[i].Inspected? }

  datatype Sweep = AllReady | NotYet | Unhealthy

  // A look that ends its sweep: an error, or a container that will not come up.
  predicate Stops(st: D.Status) { st.Unknown? || D.Broken(st) }

  method SweepOnce(h: Host, ids: seq<Id>) returns (r: Sweep)
    requires h.Valid() && !h.phase.Closed?
    modifies h`log, h`phase, h`marks, h`pending
    ensures old(h.log) <= h.log && OnlyInspections(h.log, |old(h.log)|)
    ensures h.Valid() && h.phase == old(h.phase) && h.marks == old(h.marks) && h.pending == old(h.pending)
    ensures r.AllReady? <==> |h.log| == |old(h.log)| + |ids| && SweptReady(h.log, |old(h.log)|, ids)
    ensures r.Unhealthy? <==> |h.log| > |old(h.log)| && D.Broken(h.log[|h.log| - 1].status)
    ensures |h.log| <= |old(h.log)| + |ids|
    ensures !r.AllReady? ==> exists i :: |old(h.log)| <= i < |h.log| && !D.Ready(h.log[i].status)
    ensures forall i :: |old(h.log)| <= i < |h.log| - 1 ==> !Stops(h.log[i].status)
    ensures |h.log| < |old(h.log)| + |ids| ==> |h.log| > |old(h.log)| && Stops(h.log[|h.log| - 1].status)
    ensures h.Smooth(|old(h.log)|) ==> r.AllReady?
  {
    hide PhaseOf, Statuses, Pending;
    ghost var m := |h.log|;
    var allReady := true;
    var k := 0;
    while k < |ids|
      invariant 0 <= k <= |ids| && |h.log| == m + k && old(h.log) <= h.log && OnlyInspections(h.log, m)
      invariant h.Valid() && h.phase == old(h.phase) && h.marks == old(h.marks) && h.pending == old(h.pending)
      invariant forall i :: m <= i < m + k ==> h.log[i].id == ids[i - m] && !Stops(h.log[i].status)
      invariant allReady <==> forall i :: m <= i < m + k ==> D.Ready(h.log[i].status)
      invariant forall i :: m <= i < m + k ==> h.log[i].status == h.answers(i)
    {
      ghost var was := h.log;
      var st := h.InspectStatus(ids[k]);
      assert h.log[m + k].status == st && forall i :: m <= i < m + k ==> h.log[i] == was[i];
      if st.Unknown? { return NotYet; }
      if D.Broken(st) { return Unhealthy; }
      allReady := allReady && D.Ready(st);
      k := k + 1;
    }
    r := if allReady then AllReady else NotYet;
  }

  lemma NothingSwept(log: seq<Effect>, ids: seq<Id>)
    requires ids == []
    ensures SweptReady(log, |log|, ids)
  {
  }

  method HealthGate(h: Host, ids: seq<Id>, polls: nat) returns (ok: bool)
    requires h.Valid() && !h.phase.Closed?
    modifies h`log, h`phase, h`marks, h`pending
    ensures old(h.log) <= h.log && OnlyInspections(h.log, |old(h.log)|)
    ensures h.Valid() && h.phase == old(h.phase) && h.marks == old(h.marks) && h.pending == old(h.pending)
    ensures ok ==> |old(h.log)| <= |h.log| - |ids| && SweptReady(h.log, |h.log| - |ids|, ids)
    ensures !ok ==> exists i :: |old(h.log)| <= i && |h.log| - |ids| <= i < |h.log| && !D.Ready(h.log[i].status)
    ensures forall i :: |old(h.log)| <= i < |h.log| - 1 ==> !D.Broken(h.log[i].status)
    ensures h.Smooth(|old(h.log)|) ==> ok
  {
    hide PhaseOf, Statuses, Pending, SweptReady;
    if |ids| == 0 {
      NothingSwept(h.log, ids);
      return true;
    }
    var left := polls;
    while true
      invariant old(h.log) <= h.log && OnlyInspections(h.log, |old(h.log)|)
      invariant h.Valid() && h.phase == old(h.phase) && h.marks == old(h.marks) && h.pending == old(h.pending)
      invariant forall i :: |old(h.log)| <= i < |h.log| ==> !D.Broken(h.log[i].status)
      decreases left
    {
      var r := SweepOnce(h, ids);
      if r.Unhealthy? { return false; }
      if r.AllReady? { return true; }
      if left == 0 { return false; }
      left := left - 1;
    }
  }

  // ----- the shared tail --------------------------------------------------------------------

  // fail, failApply and succeed: the update's new status, if any, and the result.
  method Finish(h: Host, status: Option<string>, success: bool)
    requires h.Valid()
    requires var p := h.phase; !p.Closed? && !p.Violated? && (success ==> p.Running?)
    modifies h`log, h`phase, h`marks, h`pending
    ensures h.log == old(h.log) + (if status.Some? then [Marked(status.value)] else []) + [Finished(success)]
    ensures h.Valid() && h.phase == Closed(success) && h.pending == old(h.pending)
    ensures h.marks == old(h.marks) + if status.Some? then [status.value] else []
  {
    if status.Some? { h.Append(Marked(status.value)); }
    h.Append(Finished(success));
  }

  // The ids the look-ups from effect a up to b found.
  function Gathered(log: seq<Effect>, a: nat, b: nat): seq<Id>
    requires b <= |log|
  {
    if b <= a then []
    else Gathered(log, a, b - 1) + if log[b - 1].Located? && log[b - 1].ids.Some? then log[b - 1].ids.value else []
  }

  lemma GatherOne(log: seq<Effect>, e: Effect, a: nat)
    requires a <= |log|
    ensures Gathered(log + [e], a, |log| + 1) == Gathered(log, a, |log|) + if e.Located? && e.ids.Some? then e.ids.value else []
  {
    GatheredKeeps(log, log + [e], a, |log|);
  }

  lemma NothingGathered(log: seq<Effect>, a: nat)
    requires a == |log|
    ensures Gathered(log, a, a) == []
  {
  }

  lemma {:induction false} GatheredKeeps(log: seq<Effect>, more: seq<Effect>, a: nat, b: nat)
    requires b <= |log| && log <= more
    ensures Gathered(log, a, b) == Gathered(more, a, b)
    decreases b
  {
    if a < b { GatheredKeeps(log, more, a, b - 1); }
  }

  // The dependents dockbrr tracks, in order.
  function Tracked(dependents: seq<bool>): seq<nat>
  {
    if dependents == [] then []
    else Tracked(dependents[..|dependents| - 1]) + if dependents[|dependents| - 1] then [|dependents| - 1] else []
  }

  lemma TrackedOneMore(dependents: seq<bool>, k: nat)
    requires k < |dependents|
    ensures Tracked(dependents[..k + 1]) == if dependents[k] then Tracked(dependents[..k]) + [k] else Tracked(dependents[..k])
  {
    assert dependents[..k + 1][..k] == dependents[..k];
  }

  lemma NoneTracked(dependents: seq<bool>)
    ensures Tracked(dependents[..0]) == []
  {
  }

  // From effect a to b each of these dependents is looked up, in order.
  ghost predicate LookedUp(log: seq<Effect>, a: nat, b: nat, dependents: seq<nat>)
  {
    && a + |dependents| == b <= |log|
    && forall i :: a <= i < b ==> log[i].Located? && log[i].dependent == Some(dependents[i - a])
  }

  // From effect a to b the dependents are recreated by force on the files, and
  // if that works and the services can be listed the tracked ones are looked up.
  ghost predicate Recreated(log: seq<Effect>, a: nat, b: nat, files: seq<Path>, dependents: seq<bool>, listed: bool)
  {
    if dependents == [] then a == b
    else
      && a < b <= |log| && log[a].Ran? && log[a].verb.ForceRecreate? && log[a].files == files
      && LookedUp(log, a + 1, b, if log[a].ok && listed then Tracked(dependents) else [])
  }

  lemma RecreatedKeeps(log: seq<Effect>, more: seq<Effect>, a: nat, b: nat, files: seq<Path>, dependents: seq<bool>, listed: bool)
    requires log <= more && Recreated(log, a, b, files, dependents, listed)
    ensures Recreated(more, a, b, files, dependents, listed)
  {
    hide Tracked;
  }

  lemma OneMoreLookedUp(log: seq<Effect>, a: nat, b: nat, dependents: seq<nat>, k: nat, ids: Option<seq<Id>>)
    requires LookedUp(log, a, b, dependents) && b == |log|
    ensures LookedUp(log + [Located(Some(k), ids)], a, b + 1, dependents + [k])
  {
  }

  // worker.go:381-421. Failures are warnings: the result is what was found.
  method ForceRecreateDependents(h: Host, files: seq<Path>, dependents: seq<bool>, listed: bool)
    returns (extra: seq<Id>)
    requires h.Valid() && h.phase == Running(files)
    modifies h`log, h`phase, h`marks, h`pending
    ensures h.Valid() && old(h.log) <= h.log && h.phase == Running(files) && h.marks == old(h.marks) && h.pending == old(h.pending)
    ensures extra == Gathered(h.log, |old(h.log)|, |h.log|)
    ensures Recreated(h.log, |old(h.log)|, |h.log|, files, dependents, listed)
    ensures |dependents| > 0 ==> h.log[|old(h.log)|].ok == h.works(|old(h.log)|)
  {
    hide PhaseOf, Statuses, Pending, Gathered, Tracked, LookedUp;
    extra := [];
    ghost var a, was := |h.log|, h.log;
    NothingGathered(was, a);
    if |dependents| == 0 { return; }
    var ok := h.Run(ForceRecreate, files);
    GatherOne(was, Ran(ForceRecreate, files, ok), a);
    NothingLookedUp(h.log);
    if !ok || !listed { return; }
    var k := 0;
    NoneTracked(dependents);
    while k < |dependents|
      invariant 0 <= k <= |dependents| && h.Valid() && old(h.log) <= h.log
      invariant h.phase == Running(files) && h.marks == old(h.marks) && h.pending == old(h.pending)
      invariant extra == Gathered(h.log, a, |h.log|)
      invariant |h.log| > a && h.log[a] == Ran(ForceRecreate, files, true)
      invariant LookedUp(h.log, a + 1, |h.log|, Tracked(dependents[..k]))
    {
      TrackedOneMore(dependents, k);
      if dependents[k] {
        was := h.log;
        var ids := h.LocateService(Some(k));
        GatherOne(was, Located(Some(k), ids), a);
        OneMoreLookedUp(was, a + 1, |was|, Tracked(dependents[..k]), k, ids);
        if ids.Some? { extra := extra + ids.value; }
      }
      k := k + 1;
    }
    assert dependents[..k] == dependents;
  }

  lemma NothingLookedUp(log: seq<Effect>)
    ensures LookedUp(log, |log|, |log|, [])
  {
  }

  // A pull and an up of these files, one after the other.
  predicate RanOn(log: seq<Effect>, i: nat, files: seq<Path>)
  {
    i + 2 <= |log| && log[i] == Ran(Pull, files, true) && log[i + 1] == Ran(Up, files, true)
  }

  // After the up, effect a - 1, the dependents are recreated and the service is
  // looked up, effect m - 1; the ids polled are its new containers, or the old
  // ones when they cannot be found, and those of the dependents.
  ghost predicate Polls(log: seq<Effect>, a: nat, m: int, q: Request, files: seq<Path>, listed: bool, polled: seq<Id>)
  {
    && a < m <= |log| && Recreated(log, a, m - 1, files, q.dependents, listed)
    && log[m - 1].Located? && log[m - 1].dependent.None?
    && var ids := log[m - 1].ids;
      polled == (if ids.Some? && ids.value != [] then ids.value else q.containers) + Gathered(log, a, m - 1)
  }

  // And just before effect e one sweep saw every polled id ready.
  ghost predicate Gated(log: seq<Effect>, a: nat, m: nat, e: int, q: Request, files: seq<Path>, listed: bool, polled: seq<Id>)
  {
    && 2 <= a < m && m + |polled| <= e <= |log|
    && RanOn(log, a - 2, files)
    && Polls(log, a, m, q, files, listed, polled)
    && SweptReady(log, e - |polled|, polled)
  }

  lemma GatedKeeps(log: seq<Effect>, more: seq<Effect>, a: nat, m: nat, e: int, q: Request, files: seq<Path>, listed: bool, polled: seq<Id>)
    requires log <= more && Gated(log, a, m, e, q, files, listed, polled)
    ensures Gated(more, a, m, e, q, files, listed, polled)
  {
    hide Recreated;
    GatheredKeeps(log, more, a, m - 1);
    RecreatedKeeps(log, more, a, m - 1, files, q.dependents, listed);
  }

  // Everything after a successful up, to the end of the gate.
  method Gate(h: Host, q: Request, files: seq<Path>, listed: bool, polls: nat)
    returns (ok: bool, polled: seq<Id>, ghost m: nat)
    requires h.Valid() && h.phase == Running(files)
    requires 2 <= |h.log| && RanOn(h.log, |h.log| - 2, files)
    modifies h`log, h`phase, h`marks, h`pending
    ensures h.Valid() && old(h.log) <= h.log && h.phase == Running(files) && h.marks == old(h.marks) && h.pending == old(h.pending)
    ensures Polls(h.log, |old(h.log)|, m, q, files, listed, polled)
    ensures ok ==> Gated(h.log, |old(h.log)|, m, |h.log|, q, files, listed, polled)
    ensures h.Smooth(|old(h.log)|) ==> ok
  {
    hide PhaseOf, Statuses, Pending, Gathered, Tracked, SweptReady, Recreated;
    ghost var a := |h.log|;
    var extra := ForceRecreateDependents(h, files, q.dependents, listed);
    ghost var was := h.log;
    var ids := h.LocateService(None);
    polled := (if ids.Some? && ids.value != [] then ids.value else q.containers) + extra;
    GatheredKeeps(was, h.log, a, |was|);
    RecreatedKeeps(was, h.log, a, |was|, files, q.dependents, listed);
    m := |h.log|;
    ok := HealthGate(h, polled, polls);
    GatheredKeeps(was, h.log, a, m - 1);
    RecreatedKeeps(was, h.log, a, m - 1, files, q.dependents, listed);
  }

  // pull, up, gate, and the result (worker.go:250-291, without the siblings).
  method PullUpGate(h: Host, q: Request, files: seq<Path>, listed: bool, polls: nat)
    returns (success: bool, polled: seq<Id>, ghost a: nat, ghost m: nat)
    requires h.Valid() && h.phase.Armed?
    modifies h`log, h`phase, h`marks, h`pending
    ensures h.Valid() && old(h.log) <= h.log && h.phase == Closed(success)
    ensures h.marks == old(h.marks) + [if success then "applied" else "failed"] && h.pending == old(h.pending) && |h.log| >= 2
    ensures h.Smooth(|old(h.log)|) ==> success
    ensures success ==> a == |old(h.log)| + 2 <= |h.log| && Gated(h.log, a, m, |h.log| - 2, q, files, listed, polled)
  {
    hide PhaseOf, Statuses, Pending, Gated;
    success, polled, a, m := false, [], 0, 0;
    var ok := h.Run(Pull, files);
    if ok {
      ok := h.Run(Up, files);
      if ok {
        a := |h.log|;
        ok, polled, m := Gate(h, q, files, listed, polls);
      }
    }
    ghost var was := h.log;
    success := ok;
    Finish(h, Some(if success then "applied" else "failed"), success);
    if success { GatedKeeps(was, h.log, a, m, |was|, q, files, listed, polled); }
  }

  // ----- apply ---------------------------------------------------------------------------------

  // The snapshot of an apply: it carries the file's text when the plan edits it.
  function SnapshotFor(q: Request, plan: Plan): Snapshot
  {
    Snapshot(q.repo, q.prevDigest, if plan.Rewrite? then Some(Blob(plan.path, plan.raw)) else None)
  }

  function FilesFor(q: Request, plan: Plan): seq<Path>
  {
    if plan.Pin? then q.configFiles + [q.overridePath] else q.configFiles
  }

  // Effect i is the plan's staged edit, if it has one.
  predicate StagedBy(log: seq<Effect>, i: int, q: Request, plan: Plan)
  {
    match plan
    case Plain => true
    case Rewrite(path, _, _) => 0 <= i < |log| && log[i] == FileWritten(path, true)
    case Pin => 0 <= i < |log| && log[i] == OverrideWritten(q.overridePath, ImagePin(q.repo, q.updateTag, q.toDigest), true)
  }

  // listed: the project's services could be listed for the dependents.
  method RunApply(h: Host, q: Request, listed: bool, polls: nat)
    returns (success: bool, plan: Plan, polled: seq<Id>, ghost a: nat, ghost m: nat, ghost e: nat)
    modifies h
    ensures old(h.log) <= h.log
    ensures SnapshotFirst(h.log, |old(h.log)|) && InOrder(h.log, |old(h.log)|)
    ensures FinishedOnce(h.log, |old(h.log)|, success)
    ensures success ==> |old(h.log)| < a <= |h.log| && Gated(h.log, a, m, e, q, FilesFor(q, plan), listed, polled) && StagedBy(h.log, a - 3, q, plan)
    ensures OverridesRemoved(h.log, |old(h.log)|)
    ensures h.snapshots == old(h.snapshots) || (q.loaded && !q.moved && q.hashed && h.snapshots == old(h.snapshots) + [SnapshotFor(q, plan)])
    ensures h.disk == old(h.disk) ||
              (plan.Rewrite? && h.disk == WriteFileAtomic(old(h.disk), plan.path, plan.edited, true)
               && h.snapshots == old(h.snapshots) + [SnapshotFor(q, plan)])
    ensures q.loaded && !q.moved ==> Planned(q, old(h.disk), plan)
    ensures Statuses(h.log, |old(h.log)|) ==
              if !q.loaded || (!q.moved && h.snapshots == old(h.snapshots)) then []
              else if q.moved then ["superseded"] else [if success then "applied" else "failed"]
    ensures q.loaded && !q.moved && q.hashed && h.Smooth(|old(h.log)|) ==> success
    ensures success ==> |h.snapshots| > |old(h.snapshots)|
    ensures success ==> q.loaded && !q.moved && (plan.Rewrite? ==> h.disk == WriteFileAtomic(old(h.disk), plan.path, plan.edited, true))
  {
    hide PhaseOf, Statuses, Pending, Gated, InOrder, SnapshotFirst, FinishedOnce, WriteFileAtomic, SnapshotFor, Planned, FilesFor;
    ghost var n := |h.log|;
    h.Begin(Unsnapped);
    success, polled, a, m, e := false, [], 0, 0, 0;
    plan := Plain;
    if !q.loaded || q.moved {
      Finish(h, if q.loaded then Some("superseded") else None, false);
    } else {
      plan := Decide(q, h.disk);
      var saved := TakeSnapshot(h, q, plan);
      if saved {
        success, polled, a, m, e := ApplyPlan(h, q, plan, listed, polls);
      } else {
        Finish(h, None, false);
      }
    }
    ClosedInOrder(h.log, n, Unsnapped, success);
    NothingPending(h.log, n);
  }

  // worker.go:339-357: the first container's state is best effort, the hash of
  // the compose files is not.
  method TakeSnapshot(h: Host, q: Request, plan: Plan) returns (ok: bool)
    requires h.Valid() && h.phase.Unsnapped?
    modifies h`log, h`phase, h`marks, h`pending, h`snapshots
    ensures h.Valid() && old(h.log) <= h.log && h.marks == old(h.marks) && h.pending == old(h.pending) && h.phase == if ok then Armed else Unsnapped
    ensures |q.containers| > 0 ==> |h.log| > |old(h.log)| && h.log[|old(h.log)|].Inspected? && h.log[|old(h.log)|].id == q.containers[0]
    ensures ok ==> q.hashed
    ensures q.hashed && h.Smooth(|old(h.log)|) ==> ok
    ensures h.snapshots == if ok then old(h.snapshots) + [SnapshotFor(q, plan)] else old(h.snapshots)
  {
    if |q.containers| > 0 {
      var st := h.InspectStatus(q.containers[0]);
    }
    if !q.hashed { return false; }
    ok := h.Insert(SnapshotFor(q, plan));
  }

  // The staged edit, the only mutation before pull and up.
  method Stage(h: Host, q: Request, plan: Plan) returns (staged: bool, files: seq<Path>)
    requires h.Valid() && h.phase.Armed?
    modifies h`log, h`phase, h`marks, h`pending, h`disk
    ensures h.Valid() && old(h.log) <= h.log && h.marks == old(h.marks) && h.phase == if staged then Armed else Dead
    ensures h.Smooth(|old(h.log)|) ==> staged
    ensures h.disk == if plan.Rewrite? && staged then WriteFileAtomic(old(h.disk), plan.path, plan.edited, true) else old(h.disk)
    ensures files == FilesFor(q, plan)
    ensures h.pending == old(h.pending) + if plan.Pin? && staged then {q.overridePath} else {}
    ensures staged ==> StagedBy(h.log, |h.log| - 1, q, plan)
  {
    files, staged := q.configFiles, true;
    if plan.Rewrite? {
      staged := h.WriteFile(plan.path, plan.edited);
    } else if plan.Pin? {
      staged := h.WriteOverride(q.overridePath, ImagePin(q.repo, q.updateTag, q.toDigest));
      files := files + [q.overridePath];
    }
  }

  // The staged edit and everything after it.
  method ApplyPlan(h: Host, q: Request, plan: Plan, listed: bool, polls: nat)
    returns (success: bool, polled: seq<Id>, ghost a: nat, ghost m: nat, ghost e: nat)
    requires h.Valid() && h.phase.Armed?
    modifies h`log, h`phase, h`marks, h`pending, h`disk
    ensures h.Valid() && old(h.log) <= h.log && h.phase == Closed(success)
    ensures h.marks == old(h.marks) + [if success then "applied" else "failed"]
    ensures h.pending <= old(h.pending)
    ensures h.Smooth(|old(h.log)|) ==> success
    ensures success ==> |old(h.log)| < a <= |h.log| && Gated(h.log, a, m, e, q, FilesFor(q, plan), listed, polled) && StagedBy(h.log, a - 3, q, plan)
    ensures h.disk == old(h.disk) || (plan.Rewrite? && h.disk == WriteFileAtomic(old(h.disk), plan.path, plan.edited, true))
    ensures success && plan.Rewrite? ==> h.disk == WriteFileAtomic(old(h.disk), plan.path, plan.edited, true)
  {
    hide PhaseOf, Statuses, Pending, Gated, WriteFileAtomic;
    success, polled, a, m, e := false, [], 0, 0, 0;
    var staged, files := Stage(h, q, plan);
    if !staged {
      Finish(h, Some("failed"), false);
      return;
    }
    success, polled, a, m := PullUpGate(h, q, files, listed, polls);
    e := |h.log| - 2;
    if plan.Pin? {
      ghost var was := h.log;
      h.Append(OverrideRemoved(q.overridePath));
      if success { GatedKeeps(was, h.log, a, m, e, q, files, listed, polled); }
    }
  }

  // ----- rollback ---------------------------------------------------------------------------------

  predicate Restorable(blob: Text) { ReadBlob(blob).Some? && ReadBlob(blob).value.0 != [] }

  // Then the dependents are recreated and the service looked up, effect m - 1.
  ghost predicate RolledBackOn(log: seq<Effect>, i: nat, m: nat, q: Request, files: seq<Path>, listed: bool)
  {
    && RanOn(log, i, files)
    && i + 2 < m <= |log| && Recreated(log, i + 2, m - 1, files, q.dependents, listed)
    && log[m - 1].Located? && log[m - 1].dependent.None?
  }

  lemma RolledBackMade(log: seq<Effect>, ids: Option<seq<Id>>, i: nat, q: Request, files: seq<Path>, listed: bool)
    requires RanOn(log, i, files) && Recreated(log, i + 2, |log|, files, q.dependents, listed)
    ensures RolledBackOn(log + [Located(None, ids)], i, |log| + 1, q, files, listed)
  {
    RecreatedKeeps(log, log + [Located(None, ids)], i + 2, |log|, files, q.dependents, listed);
  }

  lemma RolledBackKeeps(log: seq<Effect>, more: seq<Effect>, i: nat, m: nat, q: Request, files: seq<Path>, listed: bool)
    requires log <= more && RolledBackOn(log, i, m, q, files, listed)
    ensures RolledBackOn(more, i, m, q, files, listed)
  {
    hide Recreated;
    RecreatedKeeps(log, more, i + 2, m - 1, files, q.dependents, listed);
  }

  predicate InPlace(s: Snapshot) { s.blob.Some? && Restorable(s.blob.value) }

  function RollbackFiles(q: Request, s: Snapshot): seq<Path>
  {
    if InPlace(s) then q.configFiles else q.configFiles + [q.overridePath]
  }

  function RollbackEdit(q: Request, s: Snapshot, ok: bool): Effect
  {
    if InPlace(s) then FileWritten(EncodeAll(ReadBlob(s.blob.value).value.0), ok)
    else OverrideWritten(q.overridePath, ImagePin(s.prevRepo, [], s.prevDigest), ok)
  }

  // The file as the snapshot carries it, or an override that pins the digest.
  method StageRollback(h: Host, q: Request, s: Snapshot) returns (staged: bool, files: seq<Path>)
    requires h.Valid() && h.phase.Armed?
    modifies h`log, h`phase, h`marks, h`pending, h`disk
    ensures h.Valid() && old(h.log) <= h.log && h.marks == old(h.marks) && h.phase == if staged then Armed else Dead
    ensures h.pending == old(h.pending) + if !InPlace(s) && staged then {q.overridePath} else {}
    ensures h.Smooth(|old(h.log)|) ==> staged
    ensures h.disk == if InPlace(s) && staged then Restored(old(h.disk), s.blob.value, true) else old(h.disk)
    ensures files == RollbackFiles(q, s) && h.log == old(h.log) + [RollbackEdit(q, s, staged)]
  {
    files := q.configFiles;
    if InPlace(s) {
      var b := ReadBlob(s.blob.value).value;
      staged := h.WriteFile(EncodeAll(b.0), EncodeAll(b.1));
    } else {
      staged := h.WriteOverride(q.overridePath, ImagePin(s.prevRepo, [], s.prevDigest));
      files := files + [q.overridePath];
    }
  }

  // worker.go:472-592. loaded: the rows could be read. restored: the compose
  // file was put back.
  method RunRollback(h: Host, q: Request, snapshot: Option<Snapshot>, listed: bool) returns (success: bool, restored: bool, ghost m: nat)
    modifies h`log, h`phase, h`marks, h`pending, h`begin, h`start, h`disk
    ensures old(h.log) <= h.log && InOrder(h.log, |old(h.log)|) && FinishedOnce(h.log, |old(h.log)|, success)
    ensures success ==> q.loaded && snapshot.Some? && snapshot.value.prevDigest != ""
    ensures Statuses(h.log, |old(h.log)|) == if success then ["rolled_back"] else []
    ensures q.loaded && snapshot.Some? && snapshot.value.prevDigest != "" && h.Smooth(|old(h.log)|) ==> success
    ensures restored ==> snapshot.Some? && InPlace(snapshot.value)
    ensures h.disk == if restored then Restored(old(h.disk), snapshot.value.blob.value, true) else old(h.disk)
    ensures success && InPlace(snapshot.value) ==> restored
    ensures success ==>
              && |h.log| > |old(h.log)| && h.log[|old(h.log)|] == RollbackEdit(q, snapshot.value, true)
              && RolledBackOn(h.log, |old(h.log)| + 1, m, q, RollbackFiles(q, snapshot.value), listed)
    ensures OverridesRemoved(h.log, |old(h.log)|)
  {
    hide PhaseOf, Statuses, Pending, InOrder, FinishedOnce, Restored;
    ghost var n := |h.log|;
    h.Begin(Armed);
    success, restored, m := false, false, 0;
    if !q.loaded || snapshot.None? || snapshot.value.prevDigest == "" {
      Finish(h, None, false);
    } else {
      success, restored, m := RollbackTo(h, q, snapshot.value, listed);
    }
    ClosedInOrder(h.log, n, Armed, success);
    NothingPending(h.log, n);
  }

  method RollbackTo(h: Host, q: Request, s: Snapshot, listed: bool) returns (success: bool, restored: bool, ghost m: nat)
    requires h.Valid() && h.phase.Armed?
    modifies h`log, h`phase, h`marks, h`pending, h`disk
    ensures h.Valid() && old(h.log) <= h.log && h.phase == Closed(success)
    ensures h.marks == old(h.marks) + if success then ["rolled_back"] else []
    ensures h.Smooth(|old(h.log)|) ==> success
    ensures restored ==> InPlace(s)
    ensures h.disk == if restored then Restored(old(h.disk), s.blob.value, true) else old(h.disk)
    ensures success && InPlace(s) ==> restored
    ensures success ==> |h.log| > |old(h.log)| && h.log[|old(h.log)|] == RollbackEdit(q, s, true)
    ensures success ==> RolledBackOn(h.log, |old(h.log)| + 1, m, q, RollbackFiles(q, s), listed)
    ensures h.pending <= old(h.pending)
  {
    hide PhaseOf, Statuses, Pending, Restored, RolledBackOn;
    ghost var n := |h.log|;
    var staged, files := StageRollback(h, q, s);
    restored := staged && InPlace(s);
    success, m := false, 0;
    if staged {
      success, m := RollbackPullUp(h, q, files, listed);
      if !InPlace(s) {
        ghost var was := h.log;
        h.Append(OverrideRemoved(q.overridePath));
        if success { RolledBackKeeps(was, h.log, n + 1, m, q, files, listed); }
      }
    } else {
      Finish(h, None, false);
    }
  }

  method RollbackPullUp(h: Host, q: Request, files: seq<Path>, listed: bool) returns (success: bool, ghost m: nat)
    requires h.Valid() && h.phase.Armed?
    modifies h`log, h`phase, h`marks, h`pending
    ensures h.Valid() && old(h.log) <= h.log && h.phase == Closed(success)
    ensures h.marks == old(h.marks) + if success then ["rolled_back"] else []
    ensures h.Smooth(|old(h.log)|) ==> success
    ensures h.pending == old(h.pending)
    ensures success ==> RolledBackOn(h.log, |old(h.log)|, m, q, files, listed)
  {
    hide PhaseOf, Statuses, Pending, Gathered, Tracked, Recreated, RolledBackOn;
    m := 0;
    ghost var n := |h.log|;
    success := h.Run(Pull, files);
    if success {
      success := h.Run(Up, files);
      if success {
        var extra := ForceRecreateDependents(h, files, q.dependents, listed);
        ghost var was := h.log;
        var ids := h.LocateService(None);
        m := |h.log|;
        RolledBackMade(was, ids, n, q, files, listed);
      }
    }
    ghost var was := h.log;
    Finish(h, if success then Some("rolled_back") else None, success);
    if success { RolledBackKeeps(was, h.log, n, m, q, files, listed); }
  }

  // An apply, then a rollback from the snapshot it stored, whatever becomes of
  // either: files change only by an edit of the plan's, and once the rollback has
  // put the file back every file is as before, byte for byte, exactly when the
  // edited one was well-formed UTF-8. When every call works it is put back.
  method ApplyThenRollback(h: Host, q: Request, q': Request, listed: bool, polls: nat)
    returns (plan: Plan, applied: bool, undone: bool, restored: bool)
    modifies h
    ensures |h.snapshots| > |old(h.snapshots)| && plan.Rewrite? && plan.path != [] && WellFormed(plan.path) ==>
              && (undone ==> restored) && plan.path in old(h.disk)
              && (restored ==> (h.disk == old(h.disk) <==> WellFormed(old(h.disk)[plan.path])))
    ensures |h.snapshots| > |old(h.snapshots)| && !plan.Rewrite? ==> !restored && h.disk == old(h.disk)
    ensures q.loaded && !q.moved && q.hashed && q.prevDigest != "" && q'.loaded && h.Smooth(|old(h.log)|) ==>
              |h.snapshots| > |old(h.snapshots)| && applied && undone
  {
    hide SnapshotFirst, InOrder, FinishedOnce, Gated, StagedBy, OverridesRemoved, RolledBackOn, Statuses, Restored, WriteFileAtomic, ReadBlob, Blob;
    ghost var before := h.disk;
    var polled: seq<Id>;
    ghost var a, m, e;
    applied, plan, polled, a, m, e := RunApply(h, q, listed, polls);
    ghost var between := h.disk;
    var last := if h.snapshots == [] then None else Some(h.snapshots[|h.snapshots| - 1]);
    undone, restored, m := RunRollback(h, q', last, listed);
    if |h.snapshots| > |old(h.snapshots)| && plan.Rewrite? && plan.path != [] && WellFormed(plan.path) {
      RollbackUndoesEdit(before, q, plan);
      RestoreOverwrites(before, plan.path, plan.edited, last.value.blob.value);
    }
  }

  // An edit that did not happen makes no difference to the restore.
  lemma RestoreOverwrites(before: Files, path: Path, edited: Bytes, blob: Text)
    requires ReadBlob(blob).Some? && ReadBlob(blob).value.0 != [] && EncodeAll(ReadBlob(blob).value.0) == path
    ensures Restored(WriteFileAtomic(before, path, edited, true), blob, true) == Restored(before, blob, true)
  {
    hide ReadBlob;
    var content := EncodeAll(ReadBlob(blob).value.1);
    assert before[path := edited][path := content] == before[path := content];
  }

  // What an apply's edit leaves and a rollback from that apply's snapshot
  // restores: all files as before, byte for byte, exactly when the edited file
  // was well-formed UTF-8.
  lemma RollbackUndoesEdit(before: Files, q: Request, plan: Plan)
    requires plan.Rewrite? && plan.path in before && plan.raw == before[plan.path] && plan.path != [] && WellFormed(plan.path)
    ensures InPlace(SnapshotFor(q, plan)) && EncodeAll(ReadBlob(SnapshotFor(q, plan).blob.value).value.0) == plan.path
    ensures Restored(WriteFileAtomic(before, plan.path, plan.edited, true), SnapshotFor(q, plan).blob.value, true) == before
            <==> WellFormed(plan.raw)
  {
    RollbackRestoresFile(before, plan.path, plan.edited);
    BlobRoundTrip(plan.path, plan.raw);
    Reread(plan.path);
  }
}
