// Apply and rollback of a standalone container (internal/job/standalone.go):
// stop and rename the old container aside, create and start the new one, gate
// its health, then drop the old one or put it back.
module Standalone {
  import opened Base
  import opened Daemon

  function Aside(name: string): string { name + "-dockbrr-old" }

  // Refused: nothing was mutated. Restored: a failure after mutation began;
  // from is where restoreOld's calls start in the history. Vanished: the
  // container to roll back was gone, so every call about it failed.
  datatype Outcome = Refused | Restored(from: nat) | Vanished | Done(newId: Id)

  function NewOf(r: Outcome): Option<Id> { if r.Done? then Some(r.newId) else None }

  // ----- statements about the history since its n-th effect -------------------

  // A create left a container behind although it returned no id.
  ghost predicate HalfCreated(log: seq<Effect>, n: nat, m: nat) { exists i :: n <= i < m <= |log| && Orphan(log[i]) }

  predicate Orphan(e: Effect) { e.Created? && !e.ok }

  predicate Removes(e: Effect, id: Id) { e.Called? && (e.op == Remove(id) || e.op == ForceRemove(id)) }

  // Nothing removed id, marked the update or finished the job.
  ghost predicate Harmless(log: seq<Effect>, n: nat, id: Id)
  {
    forall i :: n <= i < |log| ==> !Removes(log[i], id) && !log[i].Finished? && !log[i].Marked?
  }

  // ----- statements about the containers ---------------------------------------

  // Back, or up, under the name.
  ghost predicate Home(cs: Containers, id: Id, name: string, image: string) { id in cs && cs[id] == Container(name, image, true) }

  ghost predicate NothingNew(before: Containers, after: Containers) { forall id :: id in after ==> id in before }

  // Containers other than id under other names than the service's two are as
  // they were.
  ghost predicate Bystanders(before: Containers, after: Containers, id: Id, name: string)
  {
    forall c :: c in before && c != id && before[c].name !in {name, Aside(name)} ==> c in after && after[c] == before[c]
  }

  ghost predicate NamesKept(before: Containers, after: Containers, id: Id)
  {
    forall c :: c in before && c in after && c != id ==> after[c].name == before[c].name
  }

  // Another container from before has kept the name: clearing it failed.
  ghost predicate Squatted(before: Containers, after: Containers, id: Id, name: string)
  {
    exists c :: c in before && c != id && Named(after, c, name)
  }

  // Stop, then remove; neither error is looked at.
  method StopAndRemove(d: Docker, id: Id, ghost keep: Id)
    requires d.Valid() && id != keep
    modifies d
    ensures d.Valid() && d.nextId == old(d.nextId)
    ensures |d.log| == |old(d.log)| + 2 && old(d.log) <= d.log && Harmless(d.log, |old(d.log)|, keep)
    ensures !HalfCreated(d.log, |old(d.log)|, |d.log|)
    ensures FineSince(d.log, |old(d.log)|) ==> id !in d.cs
    ensures NothingNew(old(d.cs), d.cs) && forall c :: c in d.cs ==> d.cs[c].name == old(d.cs)[c].name
    ensures forall c :: c in old(d.cs) && c != id ==> c in d.cs && d.cs[c] == old(d.cs)[c]
  {
    ghost var n := |d.log|;
    var stopped := d.ContainerStop(id);
    var removed := d.ContainerRemove(id);
    assert d.log[n].Called? && d.log[n + 1].Called?;
  }

  // Best effort: what fails here surfaces in the following rename or create.
  method ClearNameConflict(d: Docker, wantName: string, keepId: Id)
    requires d.Valid()
    modifies d
    ensures d.Valid() && d.nextId == old(d.nextId)
    ensures old(d.log) <= d.log && Harmless(d.log, |old(d.log)|, keepId)
    ensures !HalfCreated(d.log, |old(d.log)|, |d.log|)
    ensures NothingNew(old(d.cs), d.cs) && forall id :: id in d.cs ==> d.cs[id].name == old(d.cs)[id].name
    ensures forall id :: id in old(d.cs) && (id == keepId || old(d.cs)[id].name != wantName) ==> id in d.cs && d.cs[id] == old(d.cs)[id]
    ensures FineSince(d.log, |old(d.log)|) ==> forall id :: Named(d.cs, id, wantName) ==> id == keepId
  {
    ghost var n := |d.log|;
    var found := d.ContainerIDByName(wantName);
    assert d.log[n].Called?;
    if found.Err? || found.value.None? || found.value.value == keepId { return; }
    StopAndRemove(d, found.value.value, keepId);
  }

  // Leftovers of an interrupted attempt that hold our names; never the current
  // container, which may hold either name or another.
  method ClearLeftovers(d: Docker, oldId: Id, name: string)
    requires d.Valid()
    modifies d
    ensures d.Valid() && d.nextId == old(d.nextId)
    ensures old(d.log) <= d.log && Harmless(d.log, |old(d.log)|, oldId)
    ensures !HalfCreated(d.log, |old(d.log)|, |d.log|)
    ensures NothingNew(old(d.cs), d.cs) && Bystanders(old(d.cs), d.cs, oldId, name)
    ensures forall id :: id in d.cs ==> d.cs[id].name == old(d.cs)[id].name
    ensures oldId in old(d.cs) ==> oldId in d.cs && d.cs[oldId] == old(d.cs)[oldId]
    ensures FineSince(d.log, |old(d.log)|) ==> forall id :: id in d.cs && d.cs[id].name in {name, Aside(name)} ==> id == oldId
  {
    ClearNameConflict(d, Aside(name), oldId);
    ghost var first, cs := d.log, d.cs;
    ClearNameConflict(d, name, oldId);
    if FineSince(d.log, |old(d.log)|) {
      FinePrefix(first, d.log, |old(d.log)|);
      forall id | id in d.cs && d.cs[id].name in {name, Aside(name)} ensures id == oldId {
        assert Named(cs, id, Aside(name)) || Named(d.cs, id, name);
      }
    }
  }

  lemma WellPrefix(log: seq<Effect>, more: seq<Effect>, n: nat, oldId: Id)
    requires log <= more && FineSince(more, n) && AllReady(more, n, oldId)
    ensures FineSince(log, n) && AllReady(log, n, oldId)
  {
    assert forall i :: n <= i < |log| ==> log[i] == more[i];
  }

  lemma ReadyLater(log: seq<Effect>, n: nat, m: nat, oldId: Id)
    requires n <= m && AllReady(log, n, oldId)
    ensures AllReady(log, m, oldId)
  {
  }

  lemma FinePrefix(log: seq<Effect>, more: seq<Effect>, n: nat)
    requires log <= more && FineSince(more, n)
    ensures FineSince(log, n)
  {
    assert forall i :: n <= i < |log| ==> log[i] == more[i];
  }

  // Stop, then rename aside.
  method SetAside(d: Docker, oldId: Id, name: string) returns (ok: bool)
    requires d.Valid() && oldId in d.cs
    modifies d
    ensures d.Valid() && d.nextId == old(d.nextId)
    ensures old(d.log) <= d.log && Harmless(d.log, |old(d.log)|, oldId) && !HalfCreated(d.log, |old(d.log)|, |d.log|)
    ensures oldId in d.cs && d.cs == old(d.cs)[oldId := d.cs[oldId]]
    ensures d.cs[oldId].image == old(d.cs)[oldId].image && d.cs[oldId].name in {old(d.cs)[oldId].name, Aside(name)}
    ensures ok ==> d.cs[oldId] == Container(Aside(name), old(d.cs)[oldId].image, false) && NameFree(old(d.cs), Aside(name))
    ensures NameFree(old(d.cs), Aside(name)) && FineSince(d.log, |old(d.log)|) ==> ok
  {
    hide HalfCreated, Harmless, NameFree, UniqueNames;
    ghost var n := |d.log|;
    ok := d.ContainerStop(oldId);
    assert d.log[n].Called?;
    SameNames(old(d.cs), d.cs, Aside(name));
    if ok {
      ok := d.ContainerRename(oldId, Aside(name));
      assert d.log[n + 1].Called?;
    }
    CallsAreHarmless(d.log, n, oldId);
  }

  lemma SameNames(a: Containers, b: Containers, name: string)
    requires a.Keys == b.Keys && forall id :: id in a ==> b[id].name == a[id].name
    ensures NameFree(a, name) <==> NameFree(b, name)
  {
  }

  lemma CallsAreHarmless(log: seq<Effect>, n: nat, id: Id)
    requires forall i :: n <= i < |log| ==> log[i].Called? && !Removes(log[i], id)
    ensures Harmless(log, n, id) && !HalfCreated(log, n, |log|)
  {
  }

  // The part of recreate that moves the old container out of the way; one that
  // is aside already is refused its own name.
  method StepAside(d: Docker, oldId: Id, name: string) returns (ok: bool)
    requires d.Valid() && oldId in d.cs
    modifies d
    ensures d.Valid() && d.nextId == old(d.nextId)
    ensures old(d.log) <= d.log && Harmless(d.log, |old(d.log)|, oldId)
    ensures !HalfCreated(d.log, |old(d.log)|, |d.log|)
    ensures NothingNew(old(d.cs), d.cs) && NamesKept(old(d.cs), d.cs, oldId)
    ensures oldId in d.cs && d.cs[oldId].image == old(d.cs)[oldId].image && d.cs[oldId].name in {old(d.cs)[oldId].name, Aside(name)}
    ensures ok ==> d.cs[oldId] == Container(Aside(name), old(d.cs)[oldId].image, false) && old(d.cs)[oldId].name != Aside(name)
    ensures Bystanders(old(d.cs), d.cs, oldId, name)
    ensures FineSince(d.log, |old(d.log)|) ==> ok == (old(d.cs)[oldId].name != Aside(name))
    ensures FineSince(d.log, |old(d.log)|) ==> forall id :: Named(d.cs, id, name) ==> id == oldId
  {
    ClearLeftovers(d, oldId, name);
    ghost var cleared, cs := d.log, d.cs;
    ok := SetAside(d, oldId, name);
    assert cs[oldId] == old(d.cs)[oldId];
    if FineSince(d.log, |old(d.log)|) { FinePrefix(cleared, d.log, |old(d.log)|); }
  }

  lemma FreedBySettingAside(cs: Containers, oldId: Id, name: string)
    requires Named(cs, oldId, Aside(name)) && forall id :: Named(cs, id, name) ==> id == oldId
    ensures NameFree(cs, name)
  {
    assert |Aside(name)| > |name|;
    forall id | id in cs ensures cs[id].name != name {
      assert Named(cs, id, name) <==> cs[id].name == name;
    }
  }

  // newId is what the caller learns; ok is a nil error. The old container may
  // start under any name: dockbrr's own crash leaves it aside.
  method Recreate(d: Docker, oldId: Id, image: string, name: string) returns (newId: Option<Id>, ok: bool)
    requires d.Valid() && oldId in d.cs
    modifies d
    ensures d.Valid()
    ensures old(d.log) <= d.log && Harmless(d.log, |old(d.log)|, oldId)
    ensures oldId in d.cs && d.cs[oldId].image == old(d.cs)[oldId].image && d.cs[oldId].name in {old(d.cs)[oldId].name, Aside(name)}
    ensures ok ==> newId.Some? && Home(d.cs, newId.value, name, image) && !d.cs[oldId].running
    ensures ok ==> |d.log| > |old(d.log)| && d.log[|d.log| - 1] == Called(Start(newId.value), Fine, true)
    ensures newId.Some? ==>
              && !HalfCreated(d.log, |old(d.log)|, |d.log|)
              && Named(d.cs, newId.value, name) && newId.value !in old(d.cs) && d.cs[oldId].name == Aside(name)
              && old(d.cs)[oldId].name != Aside(name)
              && forall id :: id in d.cs ==> id in old(d.cs) || id == newId.value
    ensures newId.None? && !HalfCreated(d.log, |old(d.log)|, |d.log|) ==> NothingNew(old(d.cs), d.cs)
    ensures HalfCreated(d.log, |old(d.log)|, |d.log|) ==> old(d.cs)[oldId].name != Aside(name) && !ok
    ensures newId.None? && HalfCreated(d.log, |old(d.log)|, |d.log|) ==>
              d.cs[oldId].name == Aside(name) && exists id :: Named(d.cs, id, name) && id !in old(d.cs)
    ensures Bystanders(old(d.cs), d.cs, oldId, name) && NamesKept(old(d.cs), d.cs, oldId)
    ensures FineSince(d.log, |old(d.log)|) ==> ok == (old(d.cs)[oldId].name != Aside(name))
    ensures FineSince(d.log, |old(d.log)|) ==> forall id :: Named(d.cs, id, name) ==> id == oldId || id !in old(d.cs)
  {
    var aside := StepAside(d, oldId, name);
    if !aside { return None, false; }
    ghost var steppedAside, cs := d.log, d.cs;
    ghost var next := d.nextId;
    newId, ok := CreateAndStart(d, image, name, oldId);
    if HalfCreated(d.log, |steppedAside|, |d.log|) { assert next !in old(d.cs); }
    if FineSince(d.log, |old(d.log)|) {
      assert FineSince(d.log, |steppedAside|);
      FinePrefix(steppedAside, d.log, |old(d.log)|);
      FreedBySettingAside(cs, oldId, name);
    }
  }

  // Create under the name, then start; a name in use fails the create.
  method CreateAndStart(d: Docker, image: string, name: string, ghost oldId: Id) returns (newId: Option<Id>, ok: bool)
    requires d.Valid() && oldId in d.cs
    modifies d
    ensures d.Valid() && old(d.log) <= d.log && Harmless(d.log, |old(d.log)|, oldId)
    ensures forall id :: id in old(d.cs) ==> id in d.cs && d.cs[id] == old(d.cs)[id]
    ensures forall id :: id in d.cs && id !in old(d.cs) ==> old(d.nextId) <= id
    ensures ok ==> newId.Some? && Home(d.cs, newId.value, name, image)
    ensures ok ==> |d.log| > |old(d.log)| && d.log[|d.log| - 1] == Called(Start(newId.value), Fine, true)
    ensures newId.Some? ==>
              && !HalfCreated(d.log, |old(d.log)|, |d.log|)
              && Named(d.cs, newId.value, name) && old(d.nextId) <= newId.value
              && forall id :: id in d.cs ==> id in old(d.cs) || id == newId.value
    ensures newId.None? && !HalfCreated(d.log, |old(d.log)|, |d.log|) ==> d.cs == old(d.cs)
    ensures newId.None? && HalfCreated(d.log, |old(d.log)|, |d.log|) ==> Named(d.cs, old(d.nextId), name)
    ensures NameFree(old(d.cs), name) && FineSince(d.log, |old(d.log)|) ==> ok
  {
    hide UniqueNames, NameFree;
    ghost var n := |d.log|;
    var created := d.ContainerCreateFromInspect(image, name);
    assert d.log[n].Called?;
    if created.Err? {
      if |d.log| > n + 1 {
        assert Orphan(d.log[n + 1]);
      }
      return None, false;
    }
    ghost var m := |d.log|;
    ok := d.ContainerStart(created.value);
    assert d.log[m].Called?;
    newId := Some(created.value);
  }

  // Whether a container other than these two has the name.
  ghost predicate Taken(cs: Containers, name: string, oldId: Id, newId: Option<Id>)
  {
    exists id :: Named(cs, id, name) && id != oldId && Some(id) != newId
  }

  method BringBack(d: Docker, oldId: Id, name: string)
    requires d.Valid() && oldId in d.cs
    modifies d
    ensures d.Valid() && d.nextId == old(d.nextId)
    ensures |d.log| == |old(d.log)| + 2 && old(d.log) <= d.log && Harmless(d.log, |old(d.log)|, oldId)
    ensures !HalfCreated(d.log, |old(d.log)|, |d.log|)
    ensures oldId in d.cs && d.cs == old(d.cs)[oldId := d.cs[oldId]] && d.cs[oldId].image == old(d.cs)[oldId].image
    ensures FineSince(d.log, |old(d.log)|) ==> d.cs[oldId].running
    ensures FineSince(d.log, |old(d.log)|) ==>
              (d.cs[oldId].name == name <==> Named(old(d.cs), oldId, name) || NameFree(old(d.cs), name))
  {
    hide HalfCreated, Harmless;
    ghost var n := |d.log|;
    var renamed := d.ContainerRename(oldId, name);
    var started := d.ContainerStart(oldId);
    assert d.log[n].Called? && d.log[n + 1].Called?;
    CallsAreHarmless(d.log, n, oldId);
  }

  // When its calls go through, the old container runs again and the new one is
  // gone; the old one gets its name back unless someone else has it.
  method RestoreOld(d: Docker, oldId: Id, name: string, newId: Option<Id>)
    requires d.Valid() && oldId in d.cs && newId != Some(oldId)
    modifies d
    ensures d.Valid()
    ensures old(d.log) <= d.log && Harmless(d.log, |old(d.log)|, oldId)
    ensures !HalfCreated(d.log, |old(d.log)|, |d.log|)
    ensures FineSince(d.log, |old(d.log)|) ==>
              && oldId in d.cs && d.cs[oldId].running && d.cs[oldId].image == old(d.cs)[oldId].image
              && (newId.Some? ==> newId.value !in d.cs)
              && (Named(d.cs, oldId, name) <==> Named(old(d.cs), oldId, name) || !Taken(old(d.cs), name, oldId, newId))
    ensures NothingNew(old(d.cs), d.cs)
    ensures forall id :: id in old(d.cs) && id != oldId && Some(id) != newId ==> id in d.cs && d.cs[id] == old(d.cs)[id]
  {
    ghost var n, before := |d.log|, d.cs;
    if newId.Some? {
      StopAndRemove(d, newId.value, oldId);
    }
    ghost var m, mid := |d.log|, d.cs;
    BringBack(d, oldId, name);
    if FineSince(d.log, n) {
      assert forall id :: id in mid && id != oldId ==> id in before && Some(id) != newId;
    }
  }

  // One poll per expiry of the poll timer before the timeout ends the loop.
  method HealthGate(d: Docker, id: Id, polls: nat) returns (ok: bool)
    modifies d`log
    ensures old(d.log) < d.log && forall i :: |old(d.log)| <= i < |d.log| ==> d.log[i].Inspected? && d.log[i].id == id
    ensures ok <==> Ready(d.log[|d.log| - 1].status)
    ensures forall i :: |old(d.log)| <= i < |d.log| - 1 ==> !Ready(d.log[i].status) && !Broken(d.log[i].status)
  {
    var left := polls;
    while true
      invariant old(d.log) <= d.log
      invariant forall i :: |old(d.log)| <= i < |d.log| ==> d.log[i].Inspected? && d.log[i].id == id
      invariant forall i :: |old(d.log)| <= i < |d.log| ==> !Ready(d.log[i].status) && !Broken(d.log[i].status)
      decreases left
    {
      var st := d.InspectStatus(id);
      if Broken(st) { return false; }
      if Ready(st) { return true; }
      if left == 0 { return false; }
      left := left - 1;
    }
  }

  // Every look at a container but the old one found it ready.
  ghost predicate AllReady(log: seq<Effect>, n: nat, oldId: Id)
  {
    forall i :: n <= i < |log| && log[i].Inspected? && log[i].id != oldId ==> Ready(log[i].status)
  }

  predicate ReadyPoll(e: Effect, id: Id) { e.Inspected? && e.id == id && Ready(e.status) }

  // Before effect m the container was started and a later poll of it found it
  // ready.
  ghost predicate Gated(log: seq<Effect>, n: nat, m: nat, id: Id)
  {
    exists s, j :: n <= s < j < m <= |log| && log[s] == Called(Start(id), Fine, true) && ReadyPoll(log[j], id)
  }

  // What cannot be undone: the old container's removal, the success, and a
  // status written for it.
  predicate Final(e: Effect, oldId: Id, newId: Option<Id>)
  {
    Removes(e, oldId) || e == Finished(true) || (e.Marked? && newId.Some?)
  }

  // It comes only after the new container passed its gate.
  ghost predicate FinalOnlyAfterGate(log: seq<Effect>, n: nat, oldId: Id, newId: Option<Id>)
  {
    forall i :: n <= i < |log| && Final(log[i], oldId, newId) ==> newId.Some? && Gated(log, n, i, newId.value)
  }

  lemma GatedKeeps(log: seq<Effect>, more: seq<Effect>, n: nat, n': nat, m: nat, m': nat, id: Id)
    requires log <= more && n' <= n && m <= m' <= |more| && Gated(log, n, m, id)
    ensures Gated(more, n', m', id)
  {
    var s, j :| n <= s < j < m <= |log| && log[s] == Called(Start(id), Fine, true) && ReadyPoll(log[j], id);
    assert more[s] == log[s] && more[j] == log[j];
  }

  // The outcome of a replacement begun at effect n, in terms of the containers.
  ghost predicate Replaced(before: Containers, after: Containers, log: seq<Effect>, n: nat, oldId: Id, image: string, name: string, r: Outcome)
    requires oldId in before
  {
    match r
    case Refused => false
    case Vanished => false
    case Done(newId) =>
      && newId !in before && Home(after, newId, name, image)
      && (forall id :: id in after ==> id in before || id == newId)
      && (oldId in after ==> after[oldId] == Container(Aside(name), before[oldId].image, false) && !FineSince(log, n))
      && before[oldId].name != Aside(name) && Gated(log, n, |log|, newId)
    case Restored(from) =>
      && n <= from <= |log|
      && (FineSince(log, from) ==>
            && oldId in after && after[oldId].running && after[oldId].image == before[oldId].image
            && ((Home(after, oldId, name, before[oldId].image) && NothingNew(before, after))
                <==> !HalfCreated(log, n, from) && !Squatted(before, after, oldId, name)))
      && (Squatted(before, after, oldId, name) ==> before[oldId].name != name && !FineSince(log, n))
      && (HalfCreated(log, n, from) ==> before[oldId].name != Aside(name) && !FineSince(log, n))
  }

  // When every call goes through, a replacement is done or the old container is
  // home with nothing new beside it, and a resumed one, whose old container an
  // earlier attempt left aside, always comes home.
  lemma DoneOrHome(before: Containers, after: Containers, log: seq<Effect>, n: nat, oldId: Id, image: string, name: string, r: Outcome)
    requires oldId in before && FineSince(log, n) && Replaced(before, after, log, n, oldId, image, name, r)
    ensures r.Done? || (Home(after, oldId, name, before[oldId].image) && NothingNew(before, after))
    ensures before[oldId].name == Aside(name) ==> r.Restored? && Home(after, oldId, name, before[oldId].image)
  {
  }

  // What a failed replacement leaves, from what Recreate and RestoreOld promise.
  lemma RestoredOutcome(before: Containers, mid: Containers, after: Containers, mlog: seq<Effect>, log: seq<Effect>, n: nat,
                        oldId: Id, image: string, name: string, newId: Option<Id>)
    requires oldId in before && oldId in mid && mid[oldId].image == before[oldId].image && UniqueNames(before) && UniqueNames(mid)
    requires n <= |mlog| && mlog <= log && NamesKept(before, mid, oldId)
    requires newId.Some? ==>
               && !HalfCreated(mlog, n, |mlog|) && newId.value !in before && Named(mid, newId.value, name)
               && forall id :: id in mid ==> id in before || id == newId.value
    requires newId.None? && !HalfCreated(mlog, n, |mlog|) ==> NothingNew(before, mid)
    requires newId.None? && HalfCreated(mlog, n, |mlog|) ==> exists id :: Named(mid, id, name) && id !in before
    requires HalfCreated(mlog, n, |mlog|) ==> before[oldId].name != Aside(name) && !FineSince(mlog, n)
    requires FineSince(mlog, n) ==> forall id :: Named(mid, id, name) ==> id == oldId || id !in before
    requires FineSince(log, |mlog|) ==>
               && oldId in after && after[oldId].running && after[oldId].image == mid[oldId].image
               && (newId.Some? ==> newId.value !in after)
               && (Named(after, oldId, name) <==> Named(mid, oldId, name) || !Taken(mid, name, oldId, newId))
    requires NothingNew(mid, after)
    requires forall id :: id in mid && id != oldId && Some(id) != newId ==> id in after && after[id] == mid[id]
    ensures Replaced(before, after, log, n, oldId, image, name, Restored(|mlog|))
  {
    hide UniqueNames, FineSince, HalfCreated, Squatted, Taken, NamesKept;
    HalfPrefix(mlog, log, n);
    SquattedIsTaken(before, mid, after, oldId, name, newId);
    OneHolder(mid, name, oldId, newId);
    if newId.None? && HalfCreated(mlog, n, |mlog|) {
      OrphanTakes(before, mid, oldId, name);
    } else {
      TakenIsSquatted(before, mid, after, oldId, name, newId);
    }
    if FineSince(log, n) { FinePrefix(mlog, log, n); }
  }

  lemma HalfPrefix(mlog: seq<Effect>, log: seq<Effect>, n: nat)
    requires mlog <= log
    ensures HalfCreated(log, n, |mlog|) <==> HalfCreated(mlog, n, |mlog|)
  {
  }

  lemma OneHolder(cs: Containers, name: string, oldId: Id, newId: Option<Id>)
    requires UniqueNames(cs)
    ensures Taken(cs, name, oldId, newId) ==> !Named(cs, oldId, name)
  {
  }

  lemma OrphanTakes(before: Containers, mid: Containers, oldId: Id, name: string)
    requires oldId in before && exists id :: Named(mid, id, name) && id !in before
    ensures Taken(mid, name, oldId, None)
  {
  }

  // Whoever keeps the name has had it all along.
  lemma SquattedIsTaken(before: Containers, mid: Containers, after: Containers, oldId: Id, name: string, newId: Option<Id>)
    requires oldId in before && UniqueNames(before) && NamesKept(before, mid, oldId) && NothingNew(mid, after)
    requires newId.Some? ==> newId.value !in before
    requires forall id :: id in mid && id != oldId && Some(id) != newId ==> id in after && after[id] == mid[id]
    ensures Squatted(before, after, oldId, name) ==>
              && Taken(mid, name, oldId, newId) && before[oldId].name != name
              && exists id :: Named(mid, id, name) && id != oldId && id in before
  {
    if Squatted(before, after, oldId, name) {
      var c :| c in before && c != oldId && Named(after, c, name);
      assert Named(mid, c, name) && Named(before, c, name);
    }
  }

  lemma TakenIsSquatted(before: Containers, mid: Containers, after: Containers, oldId: Id, name: string, newId: Option<Id>)
    requires forall id :: id in mid ==> id in before || Some(id) == newId
    requires forall id :: id in mid && id != oldId && Some(id) != newId ==> id in after && after[id] == mid[id]
    ensures Taken(mid, name, oldId, newId) ==> Squatted(before, after, oldId, name)
  {
    if Taken(mid, name, oldId, newId) {
      var c :| Named(mid, c, name) && c != oldId && Some(c) != newId;
      assert Named(after, c, name);
    }
  }

  // Gate the new container, then drop the old one: looks at the new one and, if
  // the last of them found it ready, the removal.
  method GateThenDrop(d: Docker, oldId: Id, newId: Id, polls: nat) returns (ok: bool)
    requires d.Valid() && newId != oldId
    modifies d
    ensures d.Valid() && old(d.log) <= d.log && d.nextId == old(d.nextId)
    ensures ok ==> |d.log| >= |old(d.log)| + 2 && ReadyPoll(d.log[|d.log| - 2], newId)
    ensures ok ==> d.log[|d.log| - 1].Called? && d.log[|d.log| - 1].op == Remove(oldId)
    ensures !ok ==> |d.log| > |old(d.log)| && !ReadyPoll(d.log[|d.log| - 1], newId) && d.cs == old(d.cs)
    ensures forall i :: |old(d.log)| <= i < |d.log| - (if ok then 1 else 0) ==> d.log[i].Inspected? && d.log[i].id == newId
    ensures oldId in d.cs ==> d.cs == old(d.cs)
    ensures oldId !in d.cs ==> d.cs == old(d.cs) - {oldId}
    ensures ok && FineSince(d.log, |old(d.log)|) ==> oldId in d.cs ==> d.cs[oldId].running
    ensures AllReady(d.log, |old(d.log)|, oldId) ==> ok
  {
    ok := HealthGate(d, newId, polls);
    ghost var gate := |d.log| - 1;
    if ok {
      var removed := d.ContainerRemove(oldId);
      assert d.log[gate].id != oldId && d.log[gate + 1].Called?;
    }
  }

  // What the gate's looks and the removal after them say of the whole history.
  lemma GatePassed(made: seq<Effect>, log: seq<Effect>, n: nat, oldId: Id, newId: Id)
    requires n < |made| && made <= log && Harmless(made, n, oldId) && made[|made| - 1] == Called(Start(newId), Fine, true)
    requires |log| >= |made| + 2 && ReadyPoll(log[|log| - 2], newId) && log[|log| - 1].Called?
    requires forall i :: |made| <= i < |log| - 1 ==> log[i].Inspected?
    ensures FinalOnlyAfterGate(log, n, oldId, Some(newId)) && Gated(log, n, |log|, newId)
  {
    assert log[|made| - 1] == made[|made| - 1];
    assert Gated(log, n, |log| - 1, newId);
    GatedKeeps(log, log, n, n, |log| - 1, |log|, newId);
    assert forall i :: n <= i < |made| ==> !Final(made[i], oldId, Some(newId));
  }

  lemma NothingFinal(log: seq<Effect>, n: nat, oldId: Id)
    requires Harmless(log, n, oldId)
    ensures FinalOnlyAfterGate(log, n, oldId, None)
  {
  }

  // recreate, gate, then drop the old container or restore it: the body shared
  // by apply (standalone.go:169-187) and rollback (standalone.go:349-362).
  method Replace(d: Docker, oldId: Id, image: string, name: string, polls: nat) returns (r: Outcome)
    requires d.Valid() && oldId in d.cs
    modifies d
    ensures d.Valid() && old(d.log) <= d.log && (r.Done? || r.Restored?)
    ensures Replaced(old(d.cs), d.cs, d.log, |old(d.log)|, oldId, image, name, r)
    ensures FinalOnlyAfterGate(d.log, |old(d.log)|, oldId, NewOf(r))
    ensures !r.Done? ==> Harmless(d.log, |old(d.log)|, oldId)
    ensures forall i :: |old(d.log)| <= i < |d.log| ==> !d.log[i].Finished? && !d.log[i].Marked?
    ensures Bystanders(old(d.cs), d.cs, oldId, name)
    ensures FineSince(d.log, |old(d.log)|) && AllReady(d.log, |old(d.log)|, oldId) ==> r.Done? == (old(d.cs)[oldId].name != Aside(name))
  {
    hide Replaced, FinalOnlyAfterGate, Gated, Harmless, FineSince, AllReady, HalfCreated, Bystanders, NamesKept, UniqueNames;
    ghost var n := |d.log|;
    var newId, ok := Recreate(d, oldId, image, name);
    ghost var made, recreated := d.log, d.cs;
    if ok {
      ok := GateThenDrop(d, oldId, newId.value, polls);
      GateIsQuiet(made, d.log, n, oldId);
      if ok {
        GatePassed(made, d.log, n, oldId, newId.value);
        FineSuffix(d.log, n, |made|);
        BystandersStay(old(d.cs), recreated, d.cs, oldId, newId, name);
        DoneOutcome(old(d.cs), d.cs, d.log, n, oldId, image, name, newId.value);
        return Done(newId.value);
      }
      LooksAreHarmless(made, d.log, n, oldId);
    }
    var from := |d.log|;
    ghost var mid, mlog := d.cs, d.log;
    RestoreOld(d, oldId, name, newId);
    r := Restored(from);
    BystandersStay(old(d.cs), mid, d.cs, oldId, newId, name);
    HarmlessOverall(mlog, d.log, n, oldId);
    NothingFinal(d.log, n, oldId);
    assert FineSince(mlog, n) ==> FineSince(made, n) by { if FineSince(mlog, n) { FinePrefix(made, mlog, n); } }
    RestoredOutcome(old(d.cs), mid, d.cs, mlog, d.log, n, oldId, image, name, newId);
    if FineSince(d.log, n) && AllReady(d.log, n, oldId) {
      WellPrefix(mlog, d.log, n, oldId);
      WellPrefix(made, mlog, n, oldId);
      ReadyLater(mlog, n, |made|, oldId);
    }
  }

  lemma FineSuffix(log: seq<Effect>, n: nat, m: nat)
    requires n <= m
    ensures FineSince(log, n) ==> FineSince(log, m)
  {
  }

  lemma LooksAreHarmless(made: seq<Effect>, log: seq<Effect>, n: nat, oldId: Id)
    requires n <= |made| && made <= log && Harmless(made, n, oldId) && forall i :: |made| <= i < |log| ==> log[i].Inspected?
    ensures Harmless(log, n, oldId)
  {
    assert forall i :: n <= i < |made| ==> made[i] == log[i];
  }

  // The gate writes no result and creates nothing.
  lemma GateIsQuiet(made: seq<Effect>, log: seq<Effect>, n: nat, oldId: Id)
    requires n <= |made| && made <= log && Harmless(made, n, oldId) && !HalfCreated(made, n, |made|)
    requires forall i :: |made| <= i < |log| ==> log[i].Inspected? || log[i].Called?
    ensures forall i :: n <= i < |log| ==> !log[i].Finished? && !log[i].Marked?
    ensures !HalfCreated(log, n, |log|)
  {
    forall i | n <= i < |log| ensures !log[i].Finished? && !log[i].Marked? && !Orphan(log[i]) {
      if i < |made| { assert log[i] == made[i]; }
    }
  }

  lemma BystandersStay(before: Containers, mid: Containers, after: Containers, oldId: Id, newId: Option<Id>, name: string)
    requires Bystanders(before, mid, oldId, name) && (newId.Some? ==> newId.value !in before)
    requires forall id :: id in mid && id != oldId && Some(id) != newId ==> id in after && after[id] == mid[id]
    ensures Bystanders(before, after, oldId, name)
  {
  }

  lemma DoneOutcome(before: Containers, after: Containers, log: seq<Effect>, n: nat, oldId: Id, image: string, name: string, newId: Id)
    requires oldId in before && newId !in before && Home(after, newId, name, image) && before[oldId].name != Aside(name)
    requires forall id :: id in after ==> id in before || id == newId
    requires oldId in after ==> after[oldId] == Container(Aside(name), before[oldId].image, false) && !FineSince(log, n)
    requires Gated(log, n, |log|, newId)
    ensures Replaced(before, after, log, n, oldId, image, name, Done(newId))
  {
  }

  // A harmless stretch after a harmless one, without a result in either.
  lemma HarmlessOverall(made: seq<Effect>, log: seq<Effect>, n: nat, oldId: Id)
    requires n <= |made| && made <= log && Harmless(made, n, oldId) && Harmless(log, |made|, oldId)
    ensures Harmless(log, n, oldId)
    ensures forall i :: n <= i < |log| ==> !log[i].Finished? && !log[i].Marked?
  {
    assert forall i :: n <= i < |made| ==> made[i] == log[i];
  }

  // ----- the handlers ------------------------------------------------------------

  // What the handler reads before it acts: the rows, the container the service
  // row names, and whether the registry still serves the recorded digest.
  datatype Target = Unreachable | Moved | Current

  // The job is finished once, as the last effect.
  ghost predicate FinishedOnce(log: seq<Effect>, n: nat, success: bool)
  {
    n < |log| && log[|log| - 1] == Finished(success) && forall i :: n <= i < |log| - 1 ==> !log[i].Finished?
  }

  ghost predicate NoMutation(log: seq<Effect>, n: nat) { forall i :: n <= i < |log| ==> !Mutates(log[i]) }

  // The notes written around a replacement do not disturb what it promises.
  lemma ReplacedWithin(before: Containers, after: Containers, inner: seq<Effect>, log: seq<Effect>, n: nat, m: nat,
                       oldId: Id, image: string, name: string, r: Outcome)
    requires oldId in before && n <= m <= |inner| && inner <= log
    requires Replaced(before, after, inner, m, oldId, image, name, r)
    requires forall i :: |inner| <= i < |log| ==> !Mutates(log[i])
    requires forall i :: n <= i < m ==> !Mutates(log[i])
    ensures Replaced(before, after, log, n, oldId, image, name, r)
  {
    hide Gated;
    assert FineSince(log, n) ==> FineSince(inner, m);
    if r.Done? {
      GatedKeeps(inner, log, m, n, |inner|, |log|, r.newId);
    } else if r.Restored? {
      assert FineSince(log, r.from) ==> FineSince(inner, r.from);
      assert HalfCreated(log, n, r.from) <==> HalfCreated(inner, m, r.from) by {
        if HalfCreated(inner, m, r.from) {
          var i :| m <= i < r.from <= |inner| && Orphan(inner[i]);
          assert Orphan(log[i]);
        }
      }
    }
  }

  // And what the handler writes after it comes after the gate.
  lemma FinalWithin(inner: seq<Effect>, log: seq<Effect>, n: nat, m: nat, oldId: Id, r: Outcome)
    requires n <= m <= |inner| && inner <= log && FinalOnlyAfterGate(inner, m, oldId, NewOf(r))
    requires r.Done? ==> Gated(inner, m, |inner|, r.newId)
    requires forall i :: n <= i < m ==> !Final(log[i], oldId, NewOf(r))
    requires !r.Done? ==> forall i :: |inner| <= i < |log| ==> !Final(log[i], oldId, None)
    ensures FinalOnlyAfterGate(log, n, oldId, NewOf(r))
  {
    hide Gated;
    forall i | n <= i < |log| && Final(log[i], oldId, NewOf(r)) ensures r.Done? && Gated(log, n, i, r.newId) {
      if i < |inner| {
        assert m <= i && Final(inner[i], oldId, NewOf(r));
        GatedKeeps(inner, log, m, n, i, i, r.newId);
      } else {
        GatedKeeps(inner, log, m, n, |inner|, i, r.newId);
      }
    }
  }

  method Finish(d: Docker, ghost n: nat, status: Option<string>, success: bool)
    requires n <= |d.log| && forall i :: n <= i < |d.log| ==> !d.log[i].Finished?
    modifies d`log
    ensures d.log == old(d.log) + (if status.Some? then [Marked(status.value)] else []) + [Finished(success)]
    ensures FinishedOnce(d.log, n, success)
  {
    if status.Some? { d.Note(Marked(status.value)); }
    d.Note(Finished(success));
  }

  // The statuses written since n, in order.
  function Marks(log: seq<Effect>, n: nat): (r: seq<string>)
    ensures (forall i :: n <= i < |log| ==> !log[i].Marked?) ==> r == []
  {
    if |log| <= n then []
    else Marks(log[..|log| - 1], n) + if log[|log| - 1].Marked? then [log[|log| - 1].newStatus] else []
  }

  lemma MarksAtEnd(log: seq<Effect>, n: nat, status: Option<string>, success: bool)
    requires n <= |log| && forall i :: n <= i < |log| ==> !log[i].Marked?
    ensures Marks(log + (if status.Some? then [Marked(status.value)] else []) + [Finished(success)], n) == if status.Some? then [status.value] else []
  {
    var marked := log + if status.Some? then [Marked(status.value)] else [];
    if status.Some? {
      assert marked[..|log|] == log;
    } else {
      assert marked == log;
    }
    assert (marked + [Finished(success)])[..|marked|] == marked;
  }

  // Giving up before anything was mutated.
  method GiveUp(d: Docker, ghost n: nat, status: Option<string>)
    requires n <= |d.log| && Untouched(d.log, n)
    modifies d`log
    ensures old(d.log) <= d.log && NoMutation(d.log, n) && FinishedOnce(d.log, n, false)
    ensures Marks(d.log, n) == if status.Some? then [status.value] else []
    ensures PullFailed(d.log, n) <==> PullFailed(old(d.log), n)
  {
    hide Marks, PullFailed;
    ghost var was := d.log;
    MarksAtEnd(d.log, n, status, false);
    Finish(d, n, status, false);
    PullFailedLater(was, d.log, n);
  }

  lemma PullFailedLater(log: seq<Effect>, more: seq<Effect>, n: nat)
    requires n <= |log| && log <= more && forall i :: |log| <= i < |more| ==> !more[i].Called?
    ensures PullFailed(more, n) <==> PullFailed(log, n)
  {
    if PullFailed(log, n) {
      var i :| n <= i < |log| && FailedPull(log[i]);
      assert more[i] == log[i];
    }
  }

  ghost predicate PullFailed(log: seq<Effect>, n: nat) { exists i :: n <= i < |log| && FailedPull(log[i]) }

  predicate FailedPull(e: Effect) { e.Called? && e.op.Pull? && !e.ok }

  // Nothing mutated, no status written, the job open.
  ghost predicate Untouched(log: seq<Effect>, n: nat)
  {
    forall i :: n <= i < |log| ==> !Mutates(log[i]) && !log[i].Finished? && !log[i].Marked?
  }

  // A replacement and what the handler writes after it: n is where the handler
  // began, what it did until now mutated nothing.
  method ReplaceAndFinish(d: Docker, ghost n: nat, oldId: Id, image: string, name: string, polls: nat, failure: Option<string>, success: string)
    returns (r: Outcome)
    requires d.Valid() && oldId in d.cs
    requires n <= |d.log| && Untouched(d.log, n)
    modifies d
    ensures d.Valid() && old(d.log) <= d.log && (r.Done? || r.Restored?)
    ensures FinishedOnce(d.log, n, r.Done?)
    ensures Marks(d.log, n) == if r.Done? then [success] else if failure.Some? then [failure.value] else []
    ensures Replaced(old(d.cs), d.cs, d.log, n, oldId, image, name, r)
    ensures FinalOnlyAfterGate(d.log, n, oldId, NewOf(r))
    ensures Bystanders(old(d.cs), d.cs, oldId, name)
    ensures FineSince(d.log, n) && AllReady(d.log, n, oldId) ==> r.Done? == (old(d.cs)[oldId].name != Aside(name))
  {
    hide Marks, Replaced, FinalOnlyAfterGate, Gated, Bystanders;
    ghost var m := |d.log|;
    r := Replace(d, oldId, image, name, polls);
    ghost var inner := d.log;
    var status := if r.Done? then Some(success) else failure;
    Finish(d, n, status, r.Done?);
    MarksAtEnd(inner, n, status, r.Done?);
    ReplacedWithin(old(d.cs), d.cs, inner, d.log, n, m, oldId, image, name, r);
    assert r.Done? ==> Gated(inner, m, |inner|, r.newId) by { DoneIsGated(old(d.cs), d.cs, inner, m, oldId, image, name, r); }
    FinalWithin(inner, d.log, n, m, oldId, r);
  }

  lemma DoneIsGated(before: Containers, after: Containers, log: seq<Effect>, n: nat, oldId: Id, image: string, name: string, r: Outcome)
    requires oldId in before && Replaced(before, after, log, n, oldId, image, name, r)
    ensures r.Done? ==> Gated(log, n, |log|, r.newId)
  {
  }

  // An apply inspects the container, then stores the snapshot, then pulls;
  // whatever it mutates comes later.
  ghost predicate ApplyOrder(log: seq<Effect>, n: nat, id: Id, image: string)
  {
    && |log| >= n + 3
    && log[n].Inspected? && log[n].id == id
    && log[n + 1] == SnapshotTaken
    && log[n + 2] == Called(Pull(image), Fine, true)
  }

  // standalone.go:90-200. payload: the precheck's inspect returned a body;
  // saved: the snapshot row could be written.
  method RunApply(d: Docker, container: Option<Id>, target: Target, payload: bool, saved: bool, image: string, name: string, polls: nat)
    returns (r: Outcome)
    requires d.Valid()
    modifies d
    ensures d.Valid() && old(d.log) <= d.log
    ensures FinishedOnce(d.log, |old(d.log)|, r.Done?)
    ensures r.Refused? ==> d.cs == old(d.cs) && NoMutation(d.log, |old(d.log)|)
    ensures r.Refused? ==>
              Marks(d.log, |old(d.log)|) == (if target.Moved? && container.Some? then ["superseded"]
                                             else if PullFailed(d.log, |old(d.log)|) then ["failed"] else [])
    ensures !r.Vanished?
    ensures !r.Refused? ==>
              && target.Current? && container.Some? && container.value in old(d.cs)
              && Applied(old(d.cs), d.cs, d.log, |old(d.log)|, container.value, image, name, r)
    ensures (target.Current? && container.Some? && container.value in old(d.cs) && payload && saved
             && d.log[|old(d.log)|].Inspected? && d.log[|old(d.log)|].status.Status?
             && FineSince(d.log, |old(d.log)|) && AllReady(d.log, |old(d.log)|, container.value)) ==>
              r.Done? == (old(d.cs)[container.value].name != Aside(name))
  {
    hide Applied, Marks, NoMutation, FineSince, AllReady;
    r := Outcome.Refused;
    if container.None? || target.Unreachable? {
      GiveUp(d, |d.log|, None);
    } else if target.Moved? {
      GiveUp(d, |d.log|, Some("superseded"));
    } else {
      r := ApplyCurrent(d, container.value, payload, saved, image, name, polls);
    }
  }

  ghost predicate Applied(before: Containers, after: Containers, log: seq<Effect>, n: nat, id: Id, image: string, name: string, r: Outcome)
    requires id in before
  {
    && ApplyOrder(log, n, id, image)
    && Marks(log, n) == [if r.Done? then "applied" else "failed"]
    && Replaced(before, after, log, n, id, image, name, r)
    && FinalOnlyAfterGate(log, n, id, NewOf(r))
    && Bystanders(before, after, id, name)
  }

  // From the inspect precheck on (standalone.go:137-200).
  method ApplyCurrent(d: Docker, oldId: Id, payload: bool, saved: bool, image: string, name: string, polls: nat) returns (r: Outcome)
    requires d.Valid()
    modifies d
    ensures d.Valid() && old(d.log) <= d.log
    ensures FinishedOnce(d.log, |old(d.log)|, r.Done?)
    ensures r.Refused? ==> d.cs == old(d.cs) && NoMutation(d.log, |old(d.log)|)
    ensures r.Refused? ==> Marks(d.log, |old(d.log)|) == if PullFailed(d.log, |old(d.log)|) then ["failed"] else []
    ensures !r.Vanished?
    ensures !r.Refused? ==> oldId in old(d.cs) && Applied(old(d.cs), d.cs, d.log, |old(d.log)|, oldId, image, name, r)
    ensures d.log[|old(d.log)|].Inspected? && d.log[|old(d.log)|].id == oldId
    ensures (oldId in old(d.cs) && payload && saved && d.log[|old(d.log)|].status.Status?
             && FineSince(d.log, |old(d.log)|) && AllReady(d.log, |old(d.log)|, oldId)) ==>
              r.Done? == (old(d.cs)[oldId].name != Aside(name))
  {
    hide Replaced, FinalOnlyAfterGate, Gated, Bystanders, Marks, AllReady, NoMutation;
    ghost var n := |d.log|;
    r := Outcome.Refused;
    var st := d.InspectStatus(oldId);
    if st.Unknown? || !payload || oldId !in d.cs || !saved {
      GiveUp(d, n, None);
      return;
    }
    d.Note(SnapshotTaken);
    var pulled := d.ImagePull(image);
    if !pulled {
      assert FailedPull(d.log[n + 2]);
      GiveUp(d, n, Some("failed"));
      assert d.log[n + 2].Called?;
      return;
    }
    r := ReplaceAndFinish(d, n, oldId, image, name, polls, Some("failed"), "applied");
  }

  // What becomes of the containers when the one to roll back is gone: the
  // holders of its two names are cleared, running or not, and nothing replaces
  // them.
  ghost predicate Cleared(before: Containers, after: Containers, log: seq<Effect>, n: nat, oldId: Id, name: string)
  {
    && NothingNew(before, after) && NamesKept(before, after, oldId) && Bystanders(before, after, oldId, name)
    && (FineSince(log, n) ==> NameFree(after, name) && NameFree(after, Aside(name)))
  }

  // When the calls go through, exactly the holders of the two names go and
  // every other container stays as it was.
  lemma ClearedExactly(before: Containers, after: Containers, log: seq<Effect>, n: nat, oldId: Id, name: string)
    requires oldId !in before && FineSince(log, n) && Cleared(before, after, log, n, oldId, name)
    ensures forall c :: c in after <==> c in before && before[c].name !in {name, Aside(name)}
    ensures forall c :: c in after ==> after[c] == before[c]
  {
    forall c | c in after ensures c in before && before[c].name !in {name, Aside(name)} && after[c] == before[c] {
      assert c in before && after[c].name == before[c].name;
    }
  }

  // So a rollback by a stale id ends a running service: its container, under the
  // service's name but another id, is removed and none put in its place.
  lemma StaleIdEndsService(after: Containers, log: seq<Effect>, n: nat)
    requires FineSince(log, n) && Cleared(map[2 := Container("web", "img", true)], after, log, n, 1, "web")
    ensures after == map[]
  {
    ClearedExactly(map[2 := Container("web", "img", true)], after, log, n, 1, "web");
  }

  // recreate and restoreOld of a container that is gone: leftovers under its
  // names are cleared, and every call about it fails.
  method RecreateVanished(d: Docker, oldId: Id, name: string)
    requires d.Valid() && oldId !in d.cs
    modifies d
    ensures d.Valid() && old(d.log) <= d.log && JobOpen(d.log, |old(d.log)|)
    ensures Cleared(old(d.cs), d.cs, d.log, |old(d.log)|, oldId, name)
    ensures |d.log| >= |old(d.log)| + 3 && FailedCalls(d.log[|d.log| - 3..], [Stop(oldId), Rename(oldId, name), Start(oldId)])
  {
    ClearLeftovers(d, oldId, name);
    ghost var cleared := d.log;
    var stopped := d.ContainerStop(oldId);
    var renamed := d.ContainerRename(oldId, name);
    var started := d.ContainerStart(oldId);
    if FineSince(d.log, |old(d.log)|) { FinePrefix(cleared, d.log, |old(d.log)|); }
  }

  predicate FailedCalls(log: seq<Effect>, ops: seq<Op>)
  {
    |log| == |ops| && forall i :: 0 <= i < |log| ==> log[i].Called? && log[i].op == ops[i] && !log[i].ok
  }

  // No status written, the job open.
  ghost predicate JobOpen(log: seq<Effect>, n: nat) { forall i :: n <= i < |log| ==> !log[i].Finished? && !log[i].Marked? }

  // standalone.go:315-377. snapshot: the previous digest-pinned reference, when
  // the latest snapshot exists and holds the previous container's state.
  method RunRollback(d: Docker, container: Option<Id>, snapshot: Option<string>, name: string, polls: nat) returns (r: Outcome)
    requires d.Valid()
    modifies d
    ensures d.Valid() && old(d.log) <= d.log
    ensures FinishedOnce(d.log, |old(d.log)|, r.Done?)
    ensures Marks(d.log, |old(d.log)|) == if r.Done? then ["rolled_back"] else []
    ensures r.Refused? ==> d.cs == old(d.cs) && NoMutation(d.log, |old(d.log)|)
    ensures !r.Refused? <==>
              container.Some? && snapshot.Some? && |d.log| > |old(d.log)| && d.log[|old(d.log)|] == Called(Pull(snapshot.value), Fine, true)
    ensures !r.Refused? ==> (r.Vanished? <==> container.value !in old(d.cs))
    ensures r.Vanished? ==> Cleared(old(d.cs), d.cs, d.log, |old(d.log)|, container.value, name)
    ensures r.Done? || r.Restored? ==>
              && Replaced(old(d.cs), d.cs, d.log, |old(d.log)|, container.value, snapshot.value, name, r)
              && FinalOnlyAfterGate(d.log, |old(d.log)|, container.value, NewOf(r))
              && Bystanders(old(d.cs), d.cs, container.value, name)
    ensures (container.Some? && container.value in old(d.cs) && snapshot.Some?
             && FineSince(d.log, |old(d.log)|) && AllReady(d.log, |old(d.log)|, container.value)) ==>
              r.Done? == (old(d.cs)[container.value].name != Aside(name))
  {
    hide Replaced, FinalOnlyAfterGate, Gated, Bystanders, Marks, AllReady, NoMutation, Cleared;
    ghost var n := |d.log|;
    r := Outcome.Refused;
    if snapshot.None? || container.None? {
      GiveUp(d, n, None);
      return;
    }
    var pulled := d.ImagePull(snapshot.value);
    if !pulled {
      GiveUp(d, n, None);
      assert d.log[n].Called?;
      return;
    }
    ghost var began := d.log;
    if container.value !in d.cs {
      RecreateVanished(d, container.value, name);
      ghost var inner := d.log;
      MarksAtEnd(d.log, n, None, false);
      Finish(d, n, None, false);
      ClearedWithin(old(d.cs), d.cs, inner, d.log, n, |began|, container.value, name);
      return Vanished;
    }
    r := ReplaceAndFinish(d, n, container.value, snapshot.value, name, polls, None, "rolled_back");
  }

  lemma ClearedWithin(before: Containers, after: Containers, inner: seq<Effect>, log: seq<Effect>, n: nat, m: nat, oldId: Id, name: string)
    requires n <= m && inner <= log && Cleared(before, after, inner, m, oldId, name)
    ensures Cleared(before, after, log, n, oldId, name)
  {
    if FineSince(log, n) { FinePrefix(inner, log, n); }
  }
}
