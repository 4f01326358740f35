// The self-update swap (internal/docker/selfupdate.go:165-237): the helper
// replaces dockbrr's own container and puts the old image back if the new one
// cannot be brought up.
module SelfUpdate {
  import opened Base
  import opened Daemon

  // Kept: an error before the target was removed. The others follow its
  // removal; from is where the rollback's own calls start in the history.
  datatype Outcome = Kept | Swapped | RolledBack(from: nat) | RollbackFailed(from: nat)

  // Exactly one container holds the name: id, running the image.
  ghost predicate OnlyHolder(cs: Containers, name: string, id: Id, image: string)
  {
    && (forall c :: Named(cs, c, name) <==> c == id)
    && id in cs && cs[id] == Container(name, image, true)
  }

  predicate Other(cs: Containers, id: Id, name: string) { id in cs && cs[id].name != name }

  // The containers under any other name are the same, before and after.
  ghost predicate OthersUntouched(before: Containers, after: Containers, name: string)
  {
    forall c: Id :: (Other(before, c, name) <==> Other(after, c, name)) && (Other(before, c, name) ==> after[c] == before[c])
  }

  // The shared end of both creates: create under a free name, then start.
  method CreateAndStart(d: Docker, image: string, name: string) returns (r: Result<Id>, ok: bool)
    requires d.Valid() && NameFree(d.cs, name)
    modifies d
    ensures d.Valid() && old(d.nextId) <= d.nextId
    ensures |old(d.log)| < |d.log| && old(d.log) <= d.log
    ensures ok ==> r.Ok? && OnlyHolder(d.cs, name, r.value, image)
    ensures ok <==> FineSince(d.log, |old(d.log)|)
    ensures OthersUntouched(old(d.cs), d.cs, name)
    ensures forall id :: id in d.cs ==> id in old(d.cs) || old(d.nextId) <= id
    ensures r.Ok? ==> old(d.nextId) <= r.value
    ensures |d.log| > |old(d.log)| + 1 && d.log[|old(d.log)| + 1].Created? && d.log[|old(d.log)| + 1].ok ==> r == Ok(d.log[|old(d.log)| + 1].id)
  {
    ghost var n := |d.log|;
    r := d.ContainerCreateFromInspect(image, name);
    assert d.log[n].Called?;
    if r.Err? { return r, false; }
    ghost var k := |d.log|;
    ok := d.ContainerStart(r.value);
    assert d.log[k].Called?;
  }

  // Brings the old image back under the name, which a failed create may still
  // hold. It succeeds exactly when its own daemon calls go through.
  method Rollback(d: Docker, oldImage: string, name: string) returns (ok: bool)
    requires d.Valid()
    modifies d
    ensures d.Valid() && old(d.log) < d.log && d.log[|old(d.log)|].Called?
    ensures ok <==> FineSince(d.log, |old(d.log)|)
    ensures ok ==> exists id :: OnlyHolder(d.cs, name, id, oldImage)
    ensures OthersUntouched(old(d.cs), d.cs, name)
    ensures forall id :: id in d.cs ==> id in old(d.cs) || old(d.nextId) <= id
  {
    ghost var n := |d.log|;
    var holder := d.ContainerIDByName(name);
    assert d.log[n].Called?;
    if holder.Err? { return false; }
    if holder.value.Some? {
      var freed := d.ContainerForceRemove(holder.value.value);
      assert d.log[n + 1].Called?;
      if !freed { return false; }
    }
    ghost var cleared := d.log;
    var r;
    r, ok := CreateAndStart(d, oldImage, name);
    SplitFine(cleared, d.log, n);
  }

  // A stretch of calls and what follows it.
  lemma SplitFine(log: seq<Effect>, more: seq<Effect>, n: nat)
    requires n <= |log| && log <= more
    ensures FineSince(more, n) <==> FineSince(log, n) && FineSince(more, |log|)
  {
    assert forall i :: n <= i < |log| ==> more[i] == log[i];
  }

  // parsed: the target's inspect JSON could be read.
  method SwapContainer(d: Docker, target: Id, newImage: string, parsed: bool) returns (r: Outcome)
    requires d.Valid()
    modifies d
    ensures d.Valid()
    ensures !r.Kept? ==> target in old(d.cs) && target !in d.cs
    ensures r.Swapped? ==> exists id :: OnlyHolder(d.cs, old(d.cs)[target].name, id, newImage)
    ensures r.RolledBack? ==> exists id :: OnlyHolder(d.cs, old(d.cs)[target].name, id, old(d.cs)[target].image)
    ensures r.RolledBack? || r.RollbackFailed? ==> r.from <= |d.log| && (r.RolledBack? <==> FineSince(d.log, r.from))
    ensures if target in old(d.cs) then OthersUntouched(old(d.cs), d.cs, old(d.cs)[target].name) else d.cs == old(d.cs)
    ensures |old(d.log)| < |d.log| && d.log[|old(d.log)|].Inspected?
    ensures target in old(d.cs) && parsed && d.log[|old(d.log)|].status.Status? && FineSince(d.log, |old(d.log)|) ==> r.Swapped?
  {
    hide OthersUntouched, OnlyHolder;
    ghost var n := |d.log|;
    if target in d.cs { TargetApart(d.cs, d.cs, target); }
    var st := d.InspectStatus(target);
    if st.Unknown? || !parsed || target !in d.cs { return Kept; }
    var name, oldImage := d.cs[target].name, d.cs[target].image;

    var stopped := d.ContainerStop(target);
    assert d.log[n + 1].Called?;
    TargetApart(old(d.cs), d.cs, target);
    if !stopped { return Kept; }
    var removed := d.ContainerRemove(target);
    assert d.log[n + 2].Called?;
    TargetApart(old(d.cs), d.cs, target);
    if !removed { return Kept; }
    ghost var removedLog, without := d.log, d.cs;
    r := BringUp(d, oldImage, newImage, name);
    SplitFine(removedLog, d.log, n);
    UntouchedTrans(old(d.cs), without, d.cs, name);
  }

  // Only the target differs, or is missing.
  lemma TargetApart(before: Containers, after: Containers, target: Id)
    requires target in before && UniqueNames(before)
    requires forall id :: id in after ==> id in before && (id != target ==> after[id] == before[id])
    requires forall id :: id in before && id != target ==> id in after
    requires target in after ==> after[target].name == before[target].name
    ensures OthersUntouched(before, after, before[target].name)
  {
  }

  lemma UntouchedTrans(a: Containers, b: Containers, c: Containers, name: string)
    requires OthersUntouched(a, b, name) && OthersUntouched(b, c, name)
    ensures OthersUntouched(a, c, name)
  {
  }

  // A new container whose id was returned is removed before the rollback starts.
  predicate DropsUnstarted(log: seq<Effect>, n: nat, from: nat)
  {
    |log| > n + 1 && log[n + 1].Created? && log[n + 1].ok ==>
      n + 1 < from <= |log| && log[from - 1].Called? && log[from - 1].op == Remove(log[n + 1].id)
  }

  // What follows the removal of the target.
  method BringUp(d: Docker, oldImage: string, newImage: string, name: string) returns (r: Outcome)
    requires d.Valid() && NameFree(d.cs, name)
    modifies d
    ensures d.Valid() && !r.Kept? && old(d.log) <= d.log
    ensures FineSince(d.log, |old(d.log)|) ==> r.Swapped?
    ensures r.Swapped? ==> exists id :: OnlyHolder(d.cs, name, id, newImage)
    ensures r.RolledBack? ==> exists id :: OnlyHolder(d.cs, name, id, oldImage)
    ensures r.RolledBack? || r.RollbackFailed? ==> r.from <= |d.log| && (r.RolledBack? <==> FineSince(d.log, r.from))
    ensures !r.Swapped? ==> DropsUnstarted(d.log, |old(d.log)|, r.from)
    ensures OthersUntouched(old(d.cs), d.cs, name)
    ensures forall id :: id in d.cs ==> id in old(d.cs) || old(d.nextId) <= id
  {
    ghost var n := |d.log|;
    var created, up := CreateAndStart(d, newImage, name);
    ghost var tried := d.log;
    if up { return Swapped; }
    if created.Ok? {
      var cleared := d.ContainerRemove(created.value);
    }
    var from := |d.log|;
    var back := Rollback(d, oldImage, name);
    SplitFine(tried, d.log, n);
    r := if back then RolledBack(from) else RollbackFailed(from);
  }
}
