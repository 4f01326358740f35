// The history of a compose apply or rollback (internal/job/worker.go:122-592)
// and the order its effects come in: snapshot, staged edit, pull, up, result.
// Phases accept a history step by step; OrderHolds says what acceptance means.
module ComposeHistory {
  import opened Base
  import opened Utf8
  import D = Daemon

  type Id = D.Id
  type Path = Bytes

  datatype Verb = Pull | Up | ForceRecreate

  // The image a temporary override names; no tag pins the digest alone.
  datatype ImagePin = ImagePin(repo: Bytes, tag: Bytes, digest: string)

  datatype Effect =
    | SnapshotStored
    | FileWritten(path: Path, ok: bool)
    | OverrideWritten(path: Path, pin: ImagePin, ok: bool)
    | OverrideRemoved(path: Path)
    | Ran(verb: Verb, files: seq<Path>, ok: bool)    // ok: it ran and exited with 0
    | Located(dependent: Option<nat>, ids: Option<seq<Id>>)    // None: the service itself
    | Inspected(id: Id, status: D.Status)
    | Marked(newStatus: string)
    | Finished(success: bool)

  // ----- the order of effects ---------------------------------------------------------

  // Dead: a mutation failed, so nothing may follow but the bookkeeping.
  datatype Phase = Unsnapped | Armed | Pulled(files: seq<Path>) | Running(files: seq<Path>) | Dead | Closed(success: bool) | Violated

  function Next(p: Phase, e: Effect): Phase
  {
    match e
    case SnapshotStored => if p.Unsnapped? then Armed else Violated
    case FileWritten(_, ok) => Staged(p, ok)
    case OverrideWritten(_, _, ok) => Staged(p, ok)
    case OverrideRemoved(_) => p
    case Ran(Pull, fs, ok) => if !p.Armed? then Violated else if ok then Pulled(fs) else Dead
    case Ran(Up, fs, ok) => if p != Pulled(fs) then Violated else if ok then Running(fs) else Dead
    case Ran(ForceRecreate, fs, _) => if p == Running(fs) then p else Violated
    case Finished(success) => if p.Closed? || p.Violated? || (success && !p.Running?) then Violated else Closed(success)
    case _ => if p.Closed? then Violated else p
  }

  function Staged(p: Phase, ok: bool): Phase { if !p.Armed? then Violated else if ok then Armed else Dead }

  function PhaseOf(log: seq<Effect>, n: nat, start: Phase): Phase
  {
    if |log| <= n then start else Next(PhaseOf(log[..|log| - 1], n, start), log[|log| - 1])
  }

  lemma Appended(log: seq<Effect>, e: Effect, n: nat, start: Phase)
    requires n <= |log|
    ensures PhaseOf(log + [e], n, start) == Next(PhaseOf(log, n, start), e)
  {
    assert (log + [e])[..|log|] == log;
  }

  // The update's statuses written since n, in order.
  function Statuses(log: seq<Effect>, n: nat): seq<string>
  {
    if |log| <= n then [] else Statuses(log[..|log| - 1], n) + StatusOf(log[|log| - 1])
  }

  function StatusOf(e: Effect): seq<string> { if e.Marked? then [e.newStatus] else [] }

  lemma StatusAppended(log: seq<Effect>, e: Effect, n: nat)
    requires n <= |log|
    ensures Statuses(log + [e], n) == Statuses(log, n) + StatusOf(e)
  {
    assert (log + [e])[..|log|] == log;
  }

  // The temporary overrides written since n and not removed.
  function Pending(log: seq<Effect>, n: nat): set<Path>
  {
    if |log| <= n then {} else PendingAfter(Pending(log[..|log| - 1], n), log[|log| - 1])
  }

  function PendingAfter(ps: set<Path>, e: Effect): set<Path>
  {
    match e
    case OverrideWritten(path, _, true) => ps + {path}
    case OverrideRemoved(path) => ps - {path}
    case _ => ps
  }

  lemma PendingAppended(log: seq<Effect>, e: Effect, n: nat)
    requires n <= |log|
    ensures Pending(log + [e], n) == PendingAfter(Pending(log, n), e)
  {
    assert (log + [e])[..|log|] == log;
  }

  ghost predicate RemovedAfter(log: seq<Effect>, i: nat, path: Path) { exists k :: i < k < |log| && log[k] == OverrideRemoved(path) }

  // Every override that was written is removed later.
  ghost predicate OverridesRemoved(log: seq<Effect>, n: nat)
  {
    forall i :: n <= i < |log| && log[i].OverrideWritten? && log[i].ok ==> RemovedAfter(log, i, log[i].path)
  }

  // What is written is pending until it is removed.
  lemma {:induction false} PendingTells(log: seq<Effect>, n: nat, i: nat)
    requires n <= i < |log| && log[i].OverrideWritten? && log[i].ok
    ensures log[i].path in Pending(log, n) || RemovedAfter(log, i, log[i].path)
  {
    var init := log[..|log| - 1];
    if i < |log| - 1 {
      PendingTells(init, n, i);
      if RemovedAfter(init, i, log[i].path) {
        var k :| i < k < |init| && init[k] == OverrideRemoved(log[i].path);
        assert log[k] == OverrideRemoved(log[i].path);
      } else {
        assert log[|log| - 1] == OverrideRemoved(log[i].path) || log[i].path in Pending(log, n);
      }
    }
  }

  lemma NothingPending(log: seq<Effect>, n: nat)
    requires Pending(log, n) == {}
    ensures OverridesRemoved(log, n)
  {
    forall i | n <= i < |log| && log[i].OverrideWritten? && log[i].ok ensures RemovedAfter(log, i, log[i].path) {
      PendingTells(log, n, i);
    }
  }

  predicate Touches(e: Effect) { e.FileWritten? || e.OverrideWritten? || e.Ran? }

  ghost predicate StoredBefore(log: seq<Effect>, n: nat, i: nat) { exists j :: n <= j < i && j < |log| && log[j].SnapshotStored? }

  ghost predicate PulledBefore(log: seq<Effect>, n: nat, i: nat, files: seq<Path>)
  {
    exists j :: n <= j < i && j < |log| && log[j] == Ran(Pull, files, true)
  }

  // ----- what a history in order satisfies, in plain terms

  // No file write, override write or compose verb before the snapshot is stored.
  ghost predicate SnapshotFirst(log: seq<Effect>, n: nat)
  {
    forall i :: n <= i < |log| && Touches(log[i]) ==> StoredBefore(log, n, i)
  }

  // No up before a pull of the same files exited with 0.
  ghost predicate PullFirst(log: seq<Effect>, n: nat)
  {
    forall i :: n <= i < |log| && log[i].Ran? && !log[i].verb.Pull? ==> PulledBefore(log, n, i, log[i].files)
  }

  // After a failed pull or up nothing is written and no verb runs.
  ghost predicate StopsAtFailure(log: seq<Effect>, n: nat)
  {
    forall i, k :: n <= i < k < |log| && log[i].Ran? && !log[i].ok && !log[i].verb.ForceRecreate? ==> !Touches(log[k])
  }

  // Only the removal of the temporary override comes after the job's result.
  ghost predicate FinishLast(log: seq<Effect>, n: nat)
  {
    forall i, k :: n <= i < k < |log| && log[i].Finished? ==> log[k].OverrideRemoved?
  }

  ghost predicate UpBeforeSuccess(log: seq<Effect>, n: nat)
  {
    forall i :: n <= i < |log| && log[i] == Finished(true) ==> exists j :: n <= j < i && IsUp(log[j])
  }

  predicate IsUp(e: Effect) { e.Ran? && e.verb.Up? && e.ok }

  ghost predicate InOrder(log: seq<Effect>, n: nat)
  {
    PullFirst(log, n) && StopsAtFailure(log, n) && FinishLast(log, n) && UpBeforeSuccess(log, n)
  }

  predicate Alive(p: Phase) { p.Armed? || p.Pulled? || p.Running? }

  // A violation stays one, so every prefix of a good history is good.
  lemma {:induction false} PrefixGood(log: seq<Effect>, n: nat, k: nat, start: Phase)
    requires n <= k <= |log| && !PhaseOf(log, n, start).Violated?
    ensures !PhaseOf(log[..k], n, start).Violated?
    decreases |log|
  {
    if k < |log| {
      PrefixGood(log[..|log| - 1], n, k, start);
      assert log[..|log| - 1][..k] == log[..k];
    } else {
      assert log[..k] == log;
    }
  }

  lemma StepAt(log: seq<Effect>, n: nat, i: nat, start: Phase)
    requires n <= i < |log| && !PhaseOf(log, n, start).Violated?
    ensures PhaseOf(log[..i + 1], n, start) == Next(PhaseOf(log[..i], n, start), log[i])
    ensures !PhaseOf(log[..i + 1], n, start).Violated?
  {
    PrefixGood(log, n, i + 1, start);
    assert log[..i + 1][..i] == log[..i];
  }

  lemma {:induction false} WhenStored(log: seq<Effect>, n: nat, start: Phase) returns (j: nat)
    requires n <= |log| && start.Unsnapped? && Alive(PhaseOf(log, n, start))
    ensures n <= j < |log| && log[j].SnapshotStored?
  {
    if log[|log| - 1].SnapshotStored? {
      j := |log| - 1;
    } else {
      j := WhenStored(log[..|log| - 1], n, start);
    }
  }

  lemma {:induction false} WhenPulled(log: seq<Effect>, n: nat, start: Phase) returns (j: nat)
    requires n <= |log| && (start.Unsnapped? || start.Armed?)
    requires PhaseOf(log, n, start).Pulled? || PhaseOf(log, n, start).Running?
    ensures n <= j < |log| && log[j] == Ran(Pull, PhaseOf(log, n, start).files, true)
  {
    var last := log[|log| - 1];
    if last.Ran? && last.verb.Pull? {
      j := |log| - 1;
    } else {
      j := WhenPulled(log[..|log| - 1], n, start);
    }
  }

  lemma {:induction false} WhenUp(log: seq<Effect>, n: nat, start: Phase) returns (j: nat)
    requires n <= |log| && (start.Unsnapped? || start.Armed?) && PhaseOf(log, n, start).Running?
    ensures n <= j < |log| && IsUp(log[j])
  {
    var last := log[|log| - 1];
    if last.Ran? && last.verb.Up? {
      j := |log| - 1;
    } else {
      j := WhenUp(log[..|log| - 1], n, start);
    }
  }

  // Once dead or closed a history has no further mutation, once closed nothing
  // but the removal of the override.
  lemma {:induction false} StaysDown(log: seq<Effect>, n: nat, i: nat, k: nat, start: Phase)
    requires n <= i <= k < |log| && !PhaseOf(log, n, start).Violated?
    requires PhaseOf(log[..i], n, start).Dead? || PhaseOf(log[..i], n, start).Closed?
    ensures !Touches(log[k]) && (PhaseOf(log[..i], n, start).Closed? ==> log[k].OverrideRemoved?)
    ensures PhaseOf(log[..k + 1], n, start).Dead? || PhaseOf(log[..k + 1], n, start).Closed?
    ensures PhaseOf(log[..i], n, start).Closed? ==> PhaseOf(log[..k + 1], n, start).Closed?
    decreases k
  {
    if i < k { StaysDown(log, n, i, k - 1, start); }
    StepAt(log, n, k, start);
  }

  // Every history the phases accept is in order.
  lemma OrderHolds(log: seq<Effect>, n: nat, start: Phase)
    requires n <= |log| && (start.Unsnapped? || start.Armed?) && !PhaseOf(log, n, start).Violated?
    ensures InOrder(log, n) && (start.Unsnapped? ==> SnapshotFirst(log, n))
  {
    if start.Unsnapped? { SnapshotFirstHolds(log, n, start); }
    PullFirstHolds(log, n, start);
    StopsHold(log, n, start);
    UpBeforeSuccessHolds(log, n, start);
  }

  lemma SnapshotFirstHolds(log: seq<Effect>, n: nat, start: Phase)
    requires n <= |log| && start.Unsnapped? && !PhaseOf(log, n, start).Violated?
    ensures SnapshotFirst(log, n)
  {
    forall i | n <= i < |log| && Touches(log[i]) ensures StoredBefore(log, n, i) {
      StepAt(log, n, i, start);
      var j := WhenStored(log[..i], n, start);
      assert log[j] == log[..i][j];
    }
  }

  lemma PullFirstHolds(log: seq<Effect>, n: nat, start: Phase)
    requires n <= |log| && (start.Unsnapped? || start.Armed?) && !PhaseOf(log, n, start).Violated?
    ensures PullFirst(log, n)
  {
    forall i | n <= i < |log| && log[i].Ran? && !log[i].verb.Pull? ensures PulledBefore(log, n, i, log[i].files) {
      StepAt(log, n, i, start);
      var j := WhenPulled(log[..i], n, start);
      assert log[j] == log[..i][j];
    }
  }

  lemma StopsHold(log: seq<Effect>, n: nat, start: Phase)
    requires n <= |log| && (start.Unsnapped? || start.Armed?) && !PhaseOf(log, n, start).Violated?
    ensures StopsAtFailure(log, n) && FinishLast(log, n)
  {
    forall i, k | n <= i < k < |log| && log[i].Ran? && !log[i].ok && !log[i].verb.ForceRecreate? ensures !Touches(log[k]) {
      StepAt(log, n, i, start);
      StaysDown(log, n, i + 1, k, start);
    }
    forall i, k | n <= i < k < |log| && log[i].Finished? ensures log[k].OverrideRemoved? {
      StepAt(log, n, i, start);
      StaysDown(log, n, i + 1, k, start);
    }
  }

  lemma UpBeforeSuccessHolds(log: seq<Effect>, n: nat, start: Phase)
    requires n <= |log| && (start.Unsnapped? || start.Armed?) && !PhaseOf(log, n, start).Violated?
    ensures UpBeforeSuccess(log, n)
  {
    forall i | n <= i < |log| && log[i] == Finished(true) ensures exists j :: n <= j < i && IsUp(log[j]) {
      StepAt(log, n, i, start);
      var j := WhenUp(log[..i], n, start);
      assert log[j] == log[..i][j];
    }
  }

  // The job's result is recorded once.
  ghost predicate FinishedOnce(log: seq<Effect>, n: nat, success: bool)
  {
    exists j :: n <= j < |log| && log[j] == Finished(success) && forall i :: n <= i < |log| && log[i].Finished? ==> i == j
  }

  // A closed history holds one Finished, with the success it was closed with.
  lemma {:induction false} ClosedOnce(log: seq<Effect>, n: nat, start: Phase) returns (j: nat)
    requires n <= |log| && (start.Unsnapped? || start.Armed?) && PhaseOf(log, n, start).Closed?
    ensures n <= j < |log| && log[j] == Finished(PhaseOf(log, n, start).success)
    ensures forall i :: n <= i < |log| && log[i].Finished? ==> i == j
  {
    if log[|log| - 1].Finished? {
      j := |log| - 1;
      forall i | n <= i < |log| && log[i].Finished? ensures i == j {
        if i < j {
          StepAt(log, n, i, start);
          StaysDown(log, n, i + 1, j, start);
        }
      }
    } else {
      j := ClosedOnce(log[..|log| - 1], n, start);
      forall i | n <= i < |log| - 1 ensures log[i] == log[..|log| - 1][i] {}
    }
  }

  // All of it for a closed history.
  lemma ClosedInOrder(log: seq<Effect>, n: nat, start: Phase, success: bool)
    requires n <= |log| && (start.Unsnapped? || start.Armed?) && PhaseOf(log, n, start) == Closed(success)
    ensures InOrder(log, n) && (start.Unsnapped? ==> SnapshotFirst(log, n)) && FinishedOnce(log, n, success)
  {
    hide InOrder, SnapshotFirst;
    OrderHolds(log, n, start);
    var j := ClosedOnce(log, n, start);
  }
}
