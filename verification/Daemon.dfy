// A Docker daemon as the orchestrators see it (internal/docker/lifecycle.go,
// internal/docker/recreate.go:36-51, internal/docker/inspect.go): containers
// with unique names, and calls that may fail in every way.
module Daemon {
  import opened Base

  type Id = nat

  datatype Container = Container(name: string, image: string, running: bool)

  // What happens to one call. Refused fails without effect; Lost takes effect
  // but is answered with an error (a broken connection, or for a create the
  // network connect that follows it, recreate.go:45-49).
  datatype Fault = Fine | Refused | Lost

  datatype Op =
    | Pull(ref: string)
    | Stop(id: Id)
    | Start(id: Id)
    | Rename(id: Id, name: string)
    | Create(name: string, image: string)
    | Remove(id: Id)
    | ForceRemove(id: Id)
    | Lookup(name: string)
    | Inspect(id: Id)

  // What InspectStatus answers: an error, or state and health.
  datatype Status = Unknown | Status(state: string, health: string)

  // One entry of the history: daemon calls, and the orchestrator's own writes.
  datatype Effect =
    | Called(op: Op, fault: Fault, ok: bool)
    | Inspected(id: Id, status: Status)
    | Created(id: Id, image: string, ok: bool)     // a container now exists; ok: its id was returned
    | SnapshotTaken
    | Marked(newStatus: string)                     // the update row's new status
    | Finished(success: bool)

  predicate Ready(st: Status) { st.Status? && st.state == "running" && (st.health == "" || st.health == "healthy") }
  predicate Broken(st: Status) { st.Status? && (st.state == "exited" || st.health == "unhealthy") }

  type Containers = map<Id, Container>

  predicate Named(cs: Containers, id: Id, name: string) { id in cs && cs[id].name == name }

  ghost predicate NameFree(cs: Containers, name: string) { forall id :: id in cs ==> cs[id].name != name }

  ghost predicate UniqueNames(cs: Containers)
  {
    forall a, b :: a in cs && b in cs && cs[a].name == cs[b].name ==> a == b
  }

  // Every call since the n-th effect went through.
  ghost predicate FineSince(log: seq<Effect>, n: nat) { forall i :: n <= i < |log| && log[i].Called? ==> log[i].fault.Fine? }

  predicate Mutates(e: Effect)
  {
    e.Created? || (e.Called? && (e.op.Stop? || e.op.Start? || e.op.Rename? || e.op.Create? || e.op.Remove? || e.op.ForceRemove?))
  }

  class Docker {
    var cs: Containers
    var nextId: Id
    var log: seq<Effect>
    const faults: nat -> Fault       // what happens to the call made after n effects
    const answers: nat -> Status     // what an inspect made after n effects answers

    ghost predicate Valid()
      reads this
    {
      UniqueNames(cs) && forall id :: id in cs ==> id < nextId
    }

    // The fate of the next call.
    function Fate(): Fault
      reads this
    {
      faults(|log|)
    }

    constructor (cs: Containers, nextId: Id, faults: nat -> Fault, answers: nat -> Status)
      requires UniqueNames(cs) && forall id :: id in cs ==> id < nextId
      ensures Valid() && this.cs == cs && this.nextId == nextId && log == []
    {
      this.cs, this.nextId, this.log, this.faults, this.answers := cs, nextId, [], faults, answers;
    }

    method ImagePull(ref: string) returns (ok: bool)
      modifies this`log
      ensures ok == old(Fate()).Fine? && log == old(log) + [Called(Pull(ref), old(Fate()), ok)]
    {
      var fault := Fate();
      ok := fault.Fine?;
      log := log + [Called(Pull(ref), fault, ok)];
    }

    method ContainerStop(id: Id) returns (ok: bool)
      requires Valid()
      modifies this`cs, this`log
      ensures Valid() && ok == (old(Fate()).Fine? && id in old(cs))
      ensures cs == if id in old(cs) && !old(Fate()).Refused? then old(cs)[id := old(cs)[id].(running := false)] else old(cs)
      ensures log == old(log) + [Called(Stop(id), old(Fate()), ok)]
    {
      var fault := Fate();
      ok := fault.Fine? && id in cs;
      if id in cs && !fault.Refused? { cs := cs[id := cs[id].(running := false)]; }
      log := log + [Called(Stop(id), fault, ok)];
    }

    method ContainerStart(id: Id) returns (ok: bool)
      requires Valid()
      modifies this`cs, this`log
      ensures Valid() && ok == (old(Fate()).Fine? && id in old(cs))
      ensures cs == if id in old(cs) && !old(Fate()).Refused? then old(cs)[id := old(cs)[id].(running := true)] else old(cs)
      ensures log == old(log) + [Called(Start(id), old(Fate()), ok)]
    {
      var fault := Fate();
      ok := fault.Fine? && id in cs;
      if id in cs && !fault.Refused? { cs := cs[id := cs[id].(running := true)]; }
      log := log + [Called(Start(id), fault, ok)];
    }

    // The daemon refuses a name in use, also the container's own.
    method ContainerRename(id: Id, name: string) returns (ok: bool)
      requires Valid()
      modifies this`cs, this`log
      ensures Valid() && ok == (old(Fate()).Fine? && id in old(cs) && NameFree(old(cs), name))
      ensures cs == if id in old(cs) && NameFree(old(cs), name) && !old(Fate()).Refused?
                    then old(cs)[id := old(cs)[id].(name := name)] else old(cs)
      ensures log == old(log) + [Called(Rename(id, name), old(Fate()), ok)]
    {
      var fault := Fate();
      var free := id in cs && forall c :: c in cs ==> cs[c].name != name;
      ok := fault.Fine? && free;
      if free && !fault.Refused? { cs := cs[id := cs[id].(name := name)]; }
      log := log + [Called(Rename(id, name), fault, ok)];
    }

    // Without force: a running container is not removed.
    method ContainerRemove(id: Id) returns (ok: bool)
      requires Valid()
      modifies this`cs, this`log
      ensures Valid() && ok == (old(Fate()).Fine? && id in old(cs) && !old(cs)[id].running)
      ensures cs == if id in old(cs) && !old(cs)[id].running && !old(Fate()).Refused? then old(cs) - {id} else old(cs)
      ensures log == old(log) + [Called(Remove(id), old(Fate()), ok)]
    {
      var fault := Fate();
      var can := id in cs && !cs[id].running;
      ok := fault.Fine? && can;
      if can && !fault.Refused? { cs := cs - {id}; }
      log := log + [Called(Remove(id), fault, ok)];
    }

    method ContainerForceRemove(id: Id) returns (ok: bool)
      requires Valid()
      modifies this`cs, this`log
      ensures Valid() && ok == (old(Fate()).Fine? && id in old(cs))
      ensures cs == if id in old(cs) && !old(Fate()).Refused? then old(cs) - {id} else old(cs)
      ensures log == old(log) + [Called(ForceRemove(id), old(Fate()), ok)]
    {
      var fault := Fate();
      ok := fault.Fine? && id in cs;
      if id in cs && !fault.Refused? { cs := cs - {id}; }
      log := log + [Called(ForceRemove(id), fault, ok)];
    }

    // Err(None) means no id was returned, which includes a container that was
    // created before a later step of the call failed.
    method ContainerCreateFromInspect(image: string, name: string) returns (r: Result<Id>)
      requires Valid()
      modifies this`cs, this`nextId, this`log
      ensures Valid() && old(nextId) <= nextId
      ensures r.Ok? <==> old(Fate()).Fine? && NameFree(old(cs), name)
      ensures r.Ok? ==> r.value == old(nextId)
      ensures if NameFree(old(cs), name) && !old(Fate()).Refused?
              then cs == old(cs)[old(nextId) := Container(name, image, false)] && nextId == old(nextId) + 1
                   && log == old(log) + [Called(Create(name, image), old(Fate()), r.Ok?), Created(old(nextId), image, r.Ok?)]
              else cs == old(cs) && log == old(log) + [Called(Create(name, image), old(Fate()), false)]
    {
      var fault := Fate();
      var free := forall c :: c in cs ==> cs[c].name != name;
      log := log + [Called(Create(name, image), fault, fault.Fine? && free)];
      if !free || fault.Refused? { return Err; }
      cs := cs[nextId := Container(name, image, false)];
      log := log + [Created(nextId, image, fault.Fine?)];
      nextId := nextId + 1;
      return if fault.Fine? then Ok(nextId - 1) else Err;
    }

    // Ok(None): no container has the name.
    method ContainerIDByName(name: string) returns (r: Result<Option<Id>>)
      requires Valid()
      modifies this`log
      ensures r.Ok? == old(Fate()).Fine?
      ensures r.Ok? && r.value.Some? ==> Named(cs, r.value.value, name)
      ensures r.Ok? && r.value.None? ==> NameFree(cs, name)
      ensures log == old(log) + [Called(Lookup(name), old(Fate()), r.Ok?)]
    {
      var fault := Fate();
      log := log + [Called(Lookup(name), fault, fault.Fine?)];
      if !fault.Fine? { return Err; }
      if exists c :: c in cs && cs[c].name == name {
        var id :| id in cs && cs[id].name == name;
        return Ok(Some(id));
      }
      r := Ok(None);
    }

    method InspectStatus(id: Id) returns (st: Status)
      modifies this`log
      ensures st == answers(|old(log)|) && log == old(log) + [Inspected(id, st)]
    {
      st := answers(|log|);
      log := log + [Inspected(id, st)];
    }

    method Note(e: Effect)
      modifies this`log
      ensures log == old(log) + [e]
    {
      log := log + [e];
    }
  }
}
