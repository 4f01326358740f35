// Which update a rollback marks (internal/job/worker.go:472-592,
// internal/job/standalone.go:315-377): it restores the digest in the service's
// latest snapshot, and marks the applied row at the service's current digest.
// The two belong together only after an apply that went through.
module RollbackTarget {
  import opened Base
  import U = UpdateTable

  // Taken by an apply of the update, whose digest is to, while prev was current.
  datatype Snapshot = Snapshot(prev: string, update: U.UpdateId, to: string)

  // One service: its current_digest, its snapshots, oldest first, the updates
  // table, and the update whose apply is between its snapshot and its result.
  datatype State = State(current: string, snapshots: seq<Snapshot>, upd: U.Table, applying: Option<U.UpdateId>)

  // What the refresh of the service row records after an up: the digest asked
  // for, another one found running, or nothing because it fails.
  datatype Refresh = AsAsked | Found(digest: string) | Lost

  datatype Event =
    | Store(id: U.UpdateId)                 // an apply stores its snapshot
    | Succeed(refresh: Refresh, now: int)   // it ends applied
    | Fail                                  // it ends failed
    | Crash                                 // or with its process
    | RollBack(refresh: Refresh)            // a rollback that succeeds; one that fails writes nothing
    | Observe(digest: string)               // discovery writes the running digest
    | Statement(op: U.Op)                   // any other statement on the updates table

  function Last(st: State): Snapshot
    requires st.snapshots != []
  {
    st.snapshots[|st.snapshots| - 1]
  }

  predicate Enabled(st: State, s: U.ServiceId, e: Event)
  {
    match e
    case Store(id) => st.applying.None? && id in st.upd.rows && st.upd.rows[id].service == s
    case Succeed(_, _) => st.applying.Some? && st.snapshots != []
    case Fail => st.applying.Some?
    case RollBack(_) => st.applying.None? && st.snapshots != []
    case _ => true
  }

  function Recorded(current: string, asked: string, r: Refresh): string
  {
    match r
    case AsAsked => asked
    case Found(digest) => digest
    case Lost => current
  }

  ghost function Next(st: State, s: U.ServiceId, e: Event): State
    requires Enabled(st, s, e)
  {
    match e
    case Store(id) => st.(snapshots := st.snapshots + [Snapshot(st.current, id, st.upd.rows[id].toDigest)], applying := Some(id))
    case Succeed(r, now) =>
      st.(current := Recorded(st.current, Last(st).to, r), upd := U.MarkedApplied(st.upd, st.applying.value, now), applying := None)
    case Fail => st.(upd := U.WithStatus(st.upd, st.applying.value, U.Failed), applying := None)
    case Crash => st.(applying := None)
    case RollBack(r) => st.(current := Recorded(st.current, Last(st).prev, r), upd := U.MarkedRolledBack(st.upd, s, st.current))
    case Observe(digest) => st.(current := digest)
    case Statement(op) => st.(upd := U.Run(st.upd, op))
  }

  ghost predicate Run(sts: seq<State>, es: seq<Event>, s: U.ServiceId)
  {
    && |sts| == |es| + 1
    && sts[0].snapshots == [] && sts[0].applying.None? && U.Valid(sts[0].upd) && U.Unique(sts[0].upd)
    && forall i :: 0 <= i < |es| ==> Enabled(sts[i], s, es[i]) && sts[i + 1] == Next(sts[i], s, es[i])
  }

  // Where a run leaves the service, by what last decided it: at the digest of
  // the apply that took the last snapshot, at the one before that apply, or
  // wherever something else put it.
  datatype Place = Target | Previous | Elsewhere

  function PlaceAfter(es: seq<Event>): Place
  {
    if es == [] then Elsewhere
    else
      var before := PlaceAfter(es[..|es| - 1]);
      match es[|es| - 1]
      case Store(_) => Previous
      case Succeed(r, _) => if r.AsAsked? then Target else if r.Lost? then before else Elsewhere
      case RollBack(r) => if r.AsAsked? then Previous else if r.Lost? then before else Elsewhere
      case Observe(_) => Elsewhere
      case _ => before
  }

  // The snapshots name rows of the service by their own key, and a row that is
  // gone stays gone.
  ghost predicate Inv(st: State, s: U.ServiceId)
  {
    && U.Valid(st.upd) && U.Unique(st.upd)
    && (forall i :: 0 <= i < |st.snapshots| ==> FitsRow(st.upd, s, st.snapshots[i]))
    && (st.applying.Some? ==> st.snapshots != [] && Last(st).update == st.applying.value)
  }

  ghost predicate FitsRow(t: U.Table, s: U.ServiceId, x: Snapshot)
  {
    x.update < t.nextId && (x.update in t.rows ==> U.Keyed(t.rows[x.update], s, x.to))
  }

  function StatementOf(st: State, s: U.ServiceId, e: Event): Option<U.Op>
    requires Enabled(st, s, e)
  {
    match e
    case Succeed(_, now) => Some(U.MarkApplied(st.applying.value, now))
    case Fail => Some(U.SetStatus(st.applying.value, U.Failed))
    case RollBack(_) => Some(U.MarkRolledBack(s, st.current))
    case Statement(op) => Some(op)
    case _ => None
  }

  lemma StepKeepsInv(st: State, s: U.ServiceId, e: Event)
    requires Inv(st, s) && Enabled(st, s, e)
    ensures Inv(Next(st, s, e), s)
  {
    hide U.Run;
    var op, st' := StatementOf(st, s, e), Next(st, s, e);
    if op.Some? {
      assert st'.upd == U.Run(st.upd, op.value) by { StatementRuns(st, s, e); }
      U.OpKeeps(st.upd, op.value);
    }
  }

  lemma StatementRuns(st: State, s: U.ServiceId, e: Event)
    requires Enabled(st, s, e)
    ensures Next(st, s, e).upd == if StatementOf(st, s, e).Some? then U.Run(st.upd, StatementOf(st, s, e).value) else st.upd
  {
  }

  lemma {:induction false} RunKeepsInv(sts: seq<State>, es: seq<Event>, s: U.ServiceId, k: nat)
    requires Run(sts, es, s) && k < |sts|
    ensures Inv(sts[k], s)
  {
    hide Inv, Next, Enabled;
    if k > 0 {
      RunKeepsInv(sts, es, s, k - 1);
      assert Enabled(sts[k - 1], s, es[k - 1]) && sts[k] == Next(sts[k - 1], s, es[k - 1]);
      StepKeepsInv(sts[k - 1], s, es[k - 1]);
    } else {
      InitInv(sts[0], s);
    }
  }

  lemma InitInv(st: State, s: U.ServiceId)
    requires st.snapshots == [] && st.applying.None? && U.Valid(st.upd) && U.Unique(st.upd)
    ensures Inv(st, s)
  {
  }

  // The run's events decide where the service is relative to its last snapshot.
  lemma {:induction false} PlaceTells(sts: seq<State>, es: seq<Event>, s: U.ServiceId, k: nat)
    requires Run(sts, es, s) && k < |sts|
    ensures var st, place := sts[k], PlaceAfter(es[..k]);
            && (!place.Elsewhere? ==> st.snapshots != [])
            && (place.Target? ==> st.current == Last(st).to)
            && (place.Previous? ==> st.current == Last(st).prev)
    decreases k
  {
    hide U.Run;
    if k > 0 {
      PlaceTells(sts, es, s, k - 1);
      assert es[..k][..k - 1] == es[..k - 1];
      assert Enabled(sts[k - 1], s, es[k - 1]) && sts[k] == Next(sts[k - 1], s, es[k - 1]);
    }
  }

  ghost predicate Marks(t: U.Table, t': U.Table, id: U.UpdateId) { id in t.rows && id in t'.rows && t'.rows[id].status != t.rows[id].status }

  // A rollback in any state marks the update whose snapshot it restores exactly
  // when that update's row is applied and its digest is the current one; what it
  // marks instead is an applied row at the current digest.
  lemma MarksRestored(st: State, s: U.ServiceId, r: Refresh)
    requires Inv(st, s) && Enabled(st, s, RollBack(r))
    ensures var st', x := Next(st, s, RollBack(r)), Last(st);
            && (Marks(st.upd, st'.upd, x.update) <==>
                  x.update in st.upd.rows && st.upd.rows[x.update].status.Applied? && st.current == x.to)
            && (forall id :: Marks(st.upd, st'.upd, id) <==> U.IsRow(st.upd, id, s, st.current) && st.upd.rows[id].status.Applied?)
            && (forall id :: Marks(st.upd, st'.upd, id) ==> st'.upd.rows[id].status.RolledBack?)
  {
    assert FitsRow(st.upd, s, Last(st));
  }

  // After any run: if an apply's success decided where the service is, a rollback
  // marks that apply's update and nothing else; if a stored snapshot or a rollback did
  // (the last apply failed or its process died, or it was rolled back already),
  // the rollback restores the digest that is current and marks its row, if that
  // was applied: an update that stays running.
  lemma RollbackMarks(sts: seq<State>, es: seq<Event>, s: U.ServiceId, r: Refresh)
    requires Run(sts, es, s)
    requires Enabled(sts[|es|], s, RollBack(r))
    ensures var st, place := sts[|es|], PlaceAfter(es);
            var st', x := Next(st, s, RollBack(r)), Last(st);
            && (place.Target? && x.update in st.upd.rows ==>
                  forall id :: Marks(st.upd, st'.upd, id) <==> id == x.update && st.upd.rows[id].status.Applied?)
            && (place.Previous? ==> forall id :: Marks(st.upd, st'.upd, id) ==> U.IsRow(st.upd, id, s, x.prev))
            && (place.Previous? && x.prev != x.to ==> !Marks(st.upd, st'.upd, x.update))
            && (place.Previous? && r.AsAsked? ==> st'.current == st.current)
  {
    hide Run, Marks;
    RunLength(sts, es, s);
    var st := sts[|es|];
    assert es[..|es|] == es;
    PlaceTells(sts, es, s, |es|);
    RunKeepsInv(sts, es, s, |es|);
    MarksRestored(st, s, r);
    forall id | U.IsRow(st.upd, id, s, Last(st).to) && Last(st).update in st.upd.rows ensures id == Last(st).update {
      assert FitsRow(st.upd, s, Last(st));
      assert U.SameKey(st.upd.rows[id], st.upd.rows[Last(st).update]);
    }
  }

  lemma RunLength(sts: seq<State>, es: seq<Event>, s: U.ServiceId)
    requires Run(sts, es, s)
    ensures |sts| == |es| + 1
  {
  }

  // ----- an example ---------------------------------------------------------------

  // B is applied over A; the apply of C fails after its snapshot; a rollback.
  function Example(s: U.ServiceId): seq<Event>
  {
    [Store(1), Succeed(AsAsked, 1), Statement(U.RecordDrift(ToC(s), 0)), Store(2), Fail, RollBack(AsAsked)]
  }

  function ToC(s: U.ServiceId): U.Drift { U.Drift(s, "B", "C", "", "", "", "") }

  function RowB(s: U.ServiceId, st: U.Status): U.Row
  {
    U.NewRow(U.Drift(s, "A", "B", "", "", "", ""), st, 0).(appliedAt := if st.Available? then None else Some(1))
  }

  function RowC(s: U.ServiceId, st: U.Status): U.Row { U.NewRow(ToC(s), st, 0) }

  function States(s: U.ServiceId): seq<State>
  {
    var b, c := Snapshot("A", 1, "B"), Snapshot("B", 2, "C");
    var open := U.Table(map[1 := RowB(s, U.Available)], 2);
    var both := U.Table(map[1 := RowB(s, U.Applied), 2 := RowC(s, U.Available)], 3);
    var failed := U.Table(map[1 := RowB(s, U.Applied), 2 := RowC(s, U.Failed)], 3);
    [State("A", [], open, None), State("A", [b], open, Some(1)), State("B", [b], U.Table(map[1 := RowB(s, U.Applied)], 2), None),
     State("B", [b], both, None), State("B", [b, c], both, Some(2)), State("B", [b, c], failed, None),
     State("B", [b, c], U.Table(map[1 := RowB(s, U.RolledBack), 2 := RowC(s, U.Failed)], 3), None)]
  }

  lemma ExampleSteps(s: U.ServiceId, k: nat)
    requires k < 6
    ensures Enabled(States(s)[k], s, Example(s)[k]) && States(s)[k + 1] == Next(States(s)[k], s, Example(s)[k])
  {
    hide U.DriftRecorded, U.MarkedRolledBack;
    DetectsC(s);
    MarksB(s);
  }

  lemma DetectsC(s: U.ServiceId)
    ensures U.DriftRecorded(U.Table(map[1 := RowB(s, U.Applied)], 2), ToC(s), 0) == U.Table(map[1 := RowB(s, U.Applied), 2 := RowC(s, U.Available)], 3)
  {
    var t := U.Table(map[1 := RowB(s, U.Applied)], 2);
    assert U.Find(t, s, "C").None?;
    assert U.DriftRecorded(t, ToC(s), 0).rows == map[1 := RowB(s, U.Applied), 2 := RowC(s, U.Available)];
  }

  lemma MarksB(s: U.ServiceId)
    ensures U.MarkedRolledBack(U.Table(map[1 := RowB(s, U.Applied), 2 := RowC(s, U.Failed)], 3), s, "B")
            == U.Table(map[1 := RowB(s, U.RolledBack), 2 := RowC(s, U.Failed)], 3)
  {
    var t := U.Table(map[1 := RowB(s, U.Applied), 2 := RowC(s, U.Failed)], 3);
    assert U.MarkedRolledBack(t, s, "B").rows == map[1 := RowB(s, U.RolledBack), 2 := RowC(s, U.Failed)];
  }

  // The rollback restores B, which never stopped running, and marks the update
  // to B rolled back; the update to C stays failed.
  lemma FailedApplyMarksEarlier(s: U.ServiceId)
    ensures |States(s)| == 7 && Run(States(s), Example(s), s)
    ensures var before, after := States(s)[5], States(s)[6];
            && before.current == after.current == Last(before).prev == "B"
            && before.upd.rows == map[1 := RowB(s, U.Applied), 2 := RowC(s, U.Failed)]
            && after.upd.rows == map[1 := RowB(s, U.RolledBack), 2 := RowC(s, U.Failed)]
  {
    hide Next, Enabled;
    forall k | 0 <= k < 6
      ensures Enabled(States(s)[k], s, Example(s)[k]) && States(s)[k + 1] == Next(States(s)[k], s, Example(s)[k])
    {
      ExampleSteps(s, k);
    }
  }
}
