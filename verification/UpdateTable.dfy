// The updates table (internal/store/updates.go): detected image updates and
// their status.
//
// The table is a value; every SQL statement is a function on it, and class
// Updates is the repository object that applies them in place. RecordDrift, the
// one multi-statement transaction, is written out statement by statement.
module UpdateTable {
  import opened Base

  type UpdateId = nat
  type ServiceId = int

  datatype Status = Available | Dismissed | Applied | Failed | Superseded | RolledBack | Current

  datatype Row = Row(
    service: ServiceId, fromDigest: string, toDigest: string, fromVersion: string, toVersion: string,
    tag: string, severity: string, changelog: string, changelogStatus: string,
    status: Status, detectedAt: int, appliedAt: Option<int>)

  // nextId is SQLite's AUTOINCREMENT counter.
  datatype Table = Table(rows: map<UpdateId, Row>, nextId: UpdateId)

  ghost predicate Valid(t: Table) { forall id :: id in t.rows ==> id < t.nextId }

  // UNIQUE(service_id, to_digest).
  ghost predicate Unique(t: Table)
  {
    forall a, b :: a in t.rows && b in t.rows && SameKey(t.rows[a], t.rows[b]) ==> a == b
  }

  predicate SameKey(a: Row, b: Row) { a.service == b.service && a.toDigest == b.toDigest }

  predicate Keyed(r: Row, s: ServiceId, digest: string) { r.service == s && r.toDigest == digest }

  predicate IsRow(t: Table, id: UpdateId, s: ServiceId, digest: string) { id in t.rows && Keyed(t.rows[id], s, digest) }

  // SELECT id WHERE service_id=? AND to_digest=?
  ghost function Find(t: Table, s: ServiceId, digest: string): (r: Option<UpdateId>)
    ensures r.Some? ==> IsRow(t, r.value, s, digest)
    ensures r.None? <==> forall id :: id in t.rows ==> !Keyed(t.rows[id], s, digest)
  {
    if exists id :: IsRow(t, id, s, digest) then
      var id :| IsRow(t, id, s, digest);
      Some(id)
    else
      assert forall id :: id in t.rows && Keyed(t.rows[id], s, digest) ==> IsRow(t, id, s, digest);
      None
  }

  predicate Open(t: Table, id: UpdateId, s: ServiceId) { id in t.rows && t.rows[id].service == s && t.rows[id].status.Available? }

  // GetLatestOpenByService: ORDER BY detected_at DESC, id DESC LIMIT 1.
  ghost predicate LatestOpen(t: Table, s: ServiceId, id: UpdateId)
  {
    && Open(t, id, s)
    && forall other: UpdateId :: Open(t, other, s) ==>
         t.rows[other].detectedAt < t.rows[id].detectedAt
         || (t.rows[other].detectedAt == t.rows[id].detectedAt && other <= id)
  }

  // HasSurfacedByService: some row of the service has a changelog the dashboard
  // shows.
  predicate Surfaced(t: Table, s: ServiceId)
  {
    exists id :: id in t.rows && t.rows[id].service == s
      && (t.rows[id].status.Available? || t.rows[id].status.Dismissed? || t.rows[id].status.RolledBack? || t.rows[id].status.Applied?)
  }

  // HasResolvedCurrentAtDigest.
  predicate BaselineCached(t: Table, s: ServiceId, digest: string)
  {
    exists id :: id in t.rows && Keyed(t.rows[id], s, digest) && t.rows[id].status.Current? && t.rows[id].changelog != ""
  }

  // ----- statements ----------------------------------------------------------

  function WithStatus(t: Table, id: UpdateId, st: Status): Table
  {
    if id in t.rows then t.(rows := t.rows[id := t.rows[id].(status := st)]) else t
  }

  function MarkedApplied(t: Table, id: UpdateId, now: int): Table
  {
    if id in t.rows then t.(rows := t.rows[id := t.rows[id].(status := Applied, appliedAt := Some(now))]) else t
  }

  function SupersededAll(t: Table, s: ServiceId): Table
  {
    t.(rows := map id | id in t.rows ::
         if t.rows[id].service == s && t.rows[id].status.Available? then t.rows[id].(status := Superseded) else t.rows[id])
  }

  // The tail of RecordDrift: every open update of the service but the kept one.
  function SupersededOthers(t: Table, s: ServiceId, keep: string): Table
  {
    t.(rows := map id | id in t.rows ::
         if t.rows[id].service == s && t.rows[id].status.Available? && t.rows[id].toDigest != keep
         then t.rows[id].(status := Superseded) else t.rows[id])
  }

  function MarkedRolledBack(t: Table, s: ServiceId, digest: string): Table
  {
    t.(rows := map id | id in t.rows ::
         if Keyed(t.rows[id], s, digest) && t.rows[id].status.Applied? then t.rows[id].(status := RolledBack) else t.rows[id])
  }

  function Reopened(t: Table, s: ServiceId): Table
  {
    t.(rows := map id | id in t.rows ::
         if t.rows[id].service == s && t.rows[id].status.RolledBack? then t.rows[id].(status := Available) else t.rows[id])
  }

  function StaleCurrentDeleted(t: Table, s: ServiceId, keep: string): Table
  {
    t.(rows := map id | id in t.rows
         && !(t.rows[id].service == s && t.rows[id].status.Current? && t.rows[id].toDigest != keep) :: t.rows[id])
  }

  // ON DELETE CASCADE from services.
  function ServicesDeleted(t: Table, ss: set<ServiceId>): Table
  {
    t.(rows := map id | id in t.rows && t.rows[id].service !in ss :: t.rows[id])
  }

  function ChangelogSet(t: Table, id: UpdateId, text: string, status: string): Table
  {
    if id in t.rows then
      t.(rows := t.rows[id := t.rows[id].(changelog := if status == "" then text else t.rows[id].changelog, changelogStatus := status)])
    else t
  }

  // What a detection reports to RecordDrift, or the scanner to Upsert.
  datatype Drift = Drift(
    service: ServiceId, fromDigest: string, toDigest: string, fromVersion: string, toVersion: string,
    tag: string, severity: string)

  function Severity(d: Drift): string { if d.severity == "" then "digest-only" else d.severity }

  function NewRow(d: Drift, st: Status, now: int): Row
  {
    Row(d.service, d.fromDigest, d.toDigest, d.fromVersion, d.toVersion, d.tag, Severity(d), "", "", st, now, None)
  }

  function Insert(t: Table, r: Row): Table { Table(t.rows[t.nextId := r], t.nextId + 1) }

  // Upsert's ON CONFLICT branch: the status stays.
  function Overwritten(r: Row, d: Drift): Row
  {
    r.(fromDigest := d.fromDigest, fromVersion := d.fromVersion, toVersion := d.toVersion, tag := d.tag, severity := Severity(d))
  }

  ghost function Upserted(t: Table, d: Drift, st: Status, now: int): Table
  {
    var found := Find(t, d.service, d.toDigest);
    if found.Some? then t.(rows := t.rows[found.value := Overwritten(t.rows[found.value], d)])
    else Insert(t, NewRow(d, st, now))
  }

  // failed, superseded and applied rows are open again once re-detected;
  // dismissed, rolled_back and current ones are not.
  function Redetected(st: Status): Status
  {
    if st.Failed? || st.Superseded? || st.Applied? then Available else st
  }

  predicate Graded(severity: string) { severity == "major" || severity == "minor" || severity == "patch" }

  // RecordDrift's UPDATE of an existing row: blanks and "digest-only" never wipe
  // what an earlier cycle resolved.
  function Refreshed(r: Row, d: Drift): Row
  {
    r.(fromDigest := d.fromDigest,
       fromVersion := if d.fromVersion == "" then r.fromVersion else d.fromVersion,
       toVersion := if d.toVersion == "" then r.toVersion else d.toVersion,
       tag := d.tag,
       severity := if Severity(d) == "digest-only" && Graded(r.severity) then r.severity else Severity(d),
       status := Redetected(r.status))
  }

  ghost function DriftRecorded(t: Table, d: Drift, now: int): Table
  {
    SupersededOthers(Touched(t, d, now), d.service, d.toDigest)
  }

  // RecordDrift before its tail: the row of the detected digest.
  ghost function Touched(t: Table, d: Drift, now: int): Table
  {
    var found := Find(t, d.service, d.toDigest);
    if found.Some? then t.(rows := t.rows[found.value := Refreshed(t.rows[found.value], d)])
    else Insert(t, NewRow(d, Available, now))
  }

  // The select finds the row that is there.
  lemma FindIs(t: Table, id: UpdateId)
    requires Unique(t) && id in t.rows
    ensures Find(t, t.rows[id].service, t.rows[id].toDigest) == Some(id)
  {
    var found := Find(t, t.rows[id].service, t.rows[id].toDigest);
    assert Keyed(t.rows[id], t.rows[id].service, t.rows[id].toDigest);
    assert SameKey(t.rows[found.value], t.rows[id]);
  }

  // ----- the repository object -----------------------------------------------

  class Updates {
    var t: Table

    constructor ()
      ensures Valid(t) && Unique(t) && t.rows == map[]
    {
      t := Table(map[], 1);
    }

    // stmt is the statement of the transaction that fails, if any: 0 begin,
    // 1 the select, 2 the update or insert, 3 the supersede, 4 the commit.
    method RecordDrift(d: Drift, now: int, stmt: Option<nat>) returns (r: Result<(UpdateId, bool)>)
      requires Valid(t) && Unique(t)
      modifies this
      ensures Valid(t) && Unique(t)
      ensures r.Err? <==> stmt.Some? && stmt.value <= 4
      ensures r.Err? ==> t == old(t)
      ensures r.Ok? ==> t == DriftRecorded(old(t), d, now) && IsRow(t, r.value.0, d.service, d.toDigest)
      ensures r.Ok? ==> (r.value.1 <==> Find(old(t), d.service, d.toDigest).None?)
    {
      if stmt == Some(0) || stmt == Some(1) { return Err; }
      var existing := Select(d.service, d.toDigest);
      if stmt == Some(2) { return Err; }
      var tx, id;
      if existing.Some? {
        id := existing.value;
        tx := t.(rows := t.rows[id := Refreshed(t.rows[id], d)]);
      } else {
        id := t.nextId;
        tx := Insert(t, NewRow(d, Available, now));
      }
      if stmt == Some(3) || stmt == Some(4) { return Err; }
      assert IsRow(tx, id, d.service, d.toDigest);
      DriftKeeps(t, d, now);
      t := SupersededOthers(tx, d.service, d.toDigest);
      r := Ok((id, existing.None?));
    }

    method Select(s: ServiceId, digest: string) returns (r: Option<UpdateId>)
      requires Unique(t)
      ensures r == Find(t, s, digest)
    {
      r := None;
      if exists x :: x in t.rows && Keyed(t.rows[x], s, digest) {
        var id :| id in t.rows && Keyed(t.rows[id], s, digest);
        FindIs(t, id);
        r := Some(id);
      }
    }

    method Upsert(d: Drift, st: Status, now: int) returns (id: UpdateId)
      requires Valid(t) && Unique(t)
      modifies this
      ensures Valid(t) && Unique(t) && t == Upserted(old(t), d, st, now) && IsRow(t, id, d.service, d.toDigest)
    {
      UpsertKeeps(t, d, st, now);
      var existing := Select(d.service, d.toDigest);
      if existing.Some? {
        id := existing.value;
        t := t.(rows := t.rows[id := Overwritten(t.rows[id], d)]);
      } else {
        id := t.nextId;
        t := Insert(t, NewRow(d, st, now));
      }
    }

    // Walks the open rows of the service for the newest one.
    method GetLatestOpenByService(s: ServiceId) returns (r: Option<UpdateId>)
      ensures r.Some? ==> LatestOpen(t, s, r.value)
      ensures r.None? ==> forall id: UpdateId :: !Open(t, id, s)
    {
      var todo := t.rows.Keys;
      r := None;
      while todo != {}
        invariant todo <= t.rows.Keys
        invariant r.None? ==> forall id: UpdateId :: Open(t, id, s) ==> id in todo
        invariant r.Some? ==> Open(t, r.value, s)
        invariant r.Some? ==> forall id: UpdateId :: Open(t, id, s) && id !in todo ==>
                    t.rows[id].detectedAt < t.rows[r.value].detectedAt
                    || (t.rows[id].detectedAt == t.rows[r.value].detectedAt && id <= r.value)
        decreases |todo|
      {
        var id :| id in todo;
        todo := todo - {id};
        if Open(t, id, s) {
          if r.None? || t.rows[r.value].detectedAt < t.rows[id].detectedAt
             || (t.rows[r.value].detectedAt == t.rows[id].detectedAt && r.value < id) {
            r := Some(id);
          }
        }
      }
    }

    method SupersedeAllOpen(s: ServiceId)
      modifies this
      ensures t == SupersededAll(old(t), s)
    {
      t := SupersededAll(t, s);
    }

    method MarkRolledBack(s: ServiceId, digest: string)
      modifies this
      ensures t == MarkedRolledBack(old(t), s, digest)
    {
      t := MarkedRolledBack(t, s, digest);
    }

    method ReopenRolledBack(s: ServiceId)
      modifies this
      ensures t == Reopened(old(t), s)
    {
      t := Reopened(t, s);
    }

    method DeleteStaleCurrent(s: ServiceId, keep: string)
      modifies this
      ensures t == StaleCurrentDeleted(old(t), s, keep)
    {
      t := StaleCurrentDeleted(t, s, keep);
    }

    // SetChangelog for status "", SetChangelogStatus otherwise.
    method SetChangelog(id: UpdateId, text: string, status: string)
      modifies this
      ensures t == ChangelogSet(old(t), id, text, status)
    {
      t := ChangelogSet(t, id, text, status);
    }

    method SetStatus(id: UpdateId, st: Status)
      modifies this
      ensures t == WithStatus(old(t), id, st)
    {
      if id in t.rows {
        t := t.(rows := t.rows[id := t.rows[id].(status := st)]);
      }
    }

    method MarkApplied(id: UpdateId, now: int)
      modifies this
      ensures t == MarkedApplied(old(t), id, now)
    {
      if id in t.rows {
        t := t.(rows := t.rows[id := t.rows[id].(status := Applied, appliedAt := Some(now))]);
      }
    }
  }

  // ----- what the statements keep --------------------------------------------

  datatype Op =
    | RecordDrift(d: Drift, now: int)
    | Upsert(d: Drift, st: Status, now: int)
    | SupersedeAll(s: ServiceId)
    | MarkRolledBack(s: ServiceId, digest: string)
    | Reopen(s: ServiceId)
    | DeleteStaleCurrent(s: ServiceId, keep: string)
    | DeleteServices(ss: set<ServiceId>)
    | SetStatus(id: UpdateId, st: Status)
    | MarkApplied(id: UpdateId, now: int)
    | SetChangelog(id: UpdateId, text: string, status: string)

  ghost function Run(t: Table, op: Op): Table
  {
    match op
    case RecordDrift(d, now) => DriftRecorded(t, d, now)
    case Upsert(d, st, now) => Upserted(t, d, st, now)
    case SupersedeAll(s) => SupersededAll(t, s)
    case MarkRolledBack(s, digest) => MarkedRolledBack(t, s, digest)
    case Reopen(s) => Reopened(t, s)
    case DeleteStaleCurrent(s, keep) => StaleCurrentDeleted(t, s, keep)
    case DeleteServices(ss) => ServicesDeleted(t, ss)
    case SetStatus(id, st) => WithStatus(t, id, st)
    case MarkApplied(id, now) => MarkedApplied(t, id, now)
    case SetChangelog(id, text, status) => ChangelogSet(t, id, text, status)
  }

  // What every statement keeps: the key stays unique, no row moves to another
  // service or digest, and no deleted id is used again.
  ghost predicate Keeps(t: Table, t': Table)
  {
    && Valid(t') && Unique(t') && t.nextId <= t'.nextId
    && (forall id :: id in t.rows && id in t'.rows ==> SameKey(t.rows[id], t'.rows[id]))
    && (forall id :: id in t'.rows && id !in t.rows ==> t.nextId <= id)
  }

  // Writing a row under its own key, and removing rows, is harmless.
  lemma RewriteKeeps(t: Table, t': Table)
    requires Valid(t) && Unique(t) && t'.nextId == t.nextId
    requires forall id :: id in t'.rows ==> id in t.rows && SameKey(t.rows[id], t'.rows[id])
    ensures Keeps(t, t')
  {
  }

  lemma InsertKeeps(t: Table, r: Row)
    requires Valid(t) && Unique(t) && Find(t, r.service, r.toDigest).None?
    ensures Keeps(t, Insert(t, r))
  {
    forall id | id in t.rows ensures !SameKey(t.rows[id], r) && !SameKey(r, t.rows[id]) {
      assert !Keyed(t.rows[id], r.service, r.toDigest);
    }
  }

  lemma KeepsTrans(t: Table, t1: Table, t2: Table)
    requires Keeps(t, t1) && Keeps(t1, t2)
    requires forall id :: id in t2.rows ==> id in t1.rows
    ensures Keeps(t, t2)
  {
  }

  lemma DriftKeeps(t: Table, d: Drift, now: int)
    requires Valid(t) && Unique(t)
    ensures Keeps(t, DriftRecorded(t, d, now))
  {
    var found := Find(t, d.service, d.toDigest);
    var t1 := Touched(t, d, now);
    if found.Some? { RewriteKeeps(t, t1); } else { InsertKeeps(t, NewRow(d, Available, now)); }
    RewriteKeeps(t1, SupersededOthers(t1, d.service, d.toDigest));
    KeepsTrans(t, t1, SupersededOthers(t1, d.service, d.toDigest));
  }

  lemma UpsertKeeps(t: Table, d: Drift, st: Status, now: int)
    requires Valid(t) && Unique(t)
    ensures Keeps(t, Upserted(t, d, st, now))
  {
    var found := Find(t, d.service, d.toDigest);
    if found.Some? { RewriteKeeps(t, Upserted(t, d, st, now)); } else { InsertKeeps(t, NewRow(d, st, now)); }
  }

  lemma OpKeeps(t: Table, op: Op)
    requires Valid(t) && Unique(t)
    ensures Keeps(t, Run(t, op))
  {
    match op
    case RecordDrift(d, now) => DriftKeeps(t, d, now);
    case Upsert(d, st, now) => UpsertKeeps(t, d, st, now);
    case _ => RewriteKeeps(t, Run(t, op));
  }

  // The only statement that makes a row rolled_back is MarkRolledBack on its
  // own key, and only from applied.
  lemma OnlyMarkRollsBack(t: Table, op: Op, id: UpdateId)
    requires Valid(t) && id in t.rows && !t.rows[id].status.RolledBack?
    requires id in Run(t, op).rows && Run(t, op).rows[id].status.RolledBack?
    ensures op == SetStatus(id, RolledBack)
            || (t.rows[id].status.Applied? && op == MarkRolledBack(t.rows[id].service, t.rows[id].toDigest))
  {
  }

  // The statements that can take a row out of rolled_back.
  lemma WhatLiftsRolledBack(t: Table, op: Op, id: UpdateId)
    requires Valid(t) && id in t.rows && t.rows[id].status.RolledBack?
    ensures (id !in Run(t, op).rows || !Run(t, op).rows[id].status.RolledBack?) <==>
            || op == Reopen(t.rows[id].service)
            || (op.DeleteServices? && t.rows[id].service in op.ss)
            || (op.SetStatus? && op.id == id && !op.st.RolledBack?)
            || (op.MarkApplied? && op.id == id)
  {
  }

  // ----- one drift, one open row ----------------------------------------------

  // After RecordDrift no other target of the service is open, and its own row
  // is open exactly when the user or the baseline had not claimed it: dismissed,
  // rolled_back and current rows keep their status.
  lemma DriftLeavesOneOpen(t: Table, d: Drift, now: int)
    requires Valid(t) && Unique(t)
    ensures var t' := DriftRecorded(t, d, now); var found := Find(t, d.service, d.toDigest);
            && (forall id: UpdateId :: Open(t', id, d.service) ==> t'.rows[id].toDigest == d.toDigest)
            && (forall a: UpdateId, b: UpdateId :: Open(t', a, d.service) && Open(t', b, d.service) ==> a == b)
            && ((exists id: UpdateId :: Open(t', id, d.service)) <==>
                  found.None? || !(t.rows[found.value].status.Dismissed? || t.rows[found.value].status.RolledBack? || t.rows[found.value].status.Current?))
  {
    var t1, t' := Touched(t, d, now), DriftRecorded(t, d, now);
    DriftKeeps(t, d, now);
    var found := Find(t, d.service, d.toDigest);
    var id := if found.Some? then found.value else t.nextId;
    assert Keyed(t1.rows[id], d.service, d.toDigest) && t'.rows[id] == t1.rows[id];
    assert t'.rows[id].status == if found.Some? then Redetected(t.rows[id].status) else Available;
    if t'.rows[id].status.Available? {
      assert Open(t', id, d.service);
    }
    forall other: UpdateId | Open(t', other, d.service) ensures other == id && t'.rows[other].toDigest == d.toDigest {
      assert t'.rows[other].toDigest == d.toDigest;
      assert SameKey(t'.rows[other], t'.rows[id]);
    }
  }

  // Detecting the same digest again changes nothing: the caller's duplicate
  // suppression is sound.
  lemma RedetectionIsIdempotent(t: Table, d: Drift, now: int, later: int)
    requires Valid(t) && Unique(t)
    ensures Find(DriftRecorded(t, d, now), d.service, d.toDigest).Some?
    ensures DriftRecorded(DriftRecorded(t, d, now), d, later) == DriftRecorded(t, d, now)
  {
    var t1 := DriftRecorded(t, d, now);
    DriftKeeps(t, d, now);
    var found := Find(t, d.service, d.toDigest);
    var id := if found.Some? then found.value else t.nextId;
    assert t1.rows[id] == Touched(t, d, now).rows[id];
    TouchedAgain(t1, id, d, later);
    SupersededAgain(Touched(t, d, now), d.service, d.toDigest);
  }

  lemma TouchedAgain(t: Table, id: UpdateId, d: Drift, later: int)
    requires Unique(t) && IsRow(t, id, d.service, d.toDigest) && Refreshed(t.rows[id], d) == t.rows[id]
    ensures Find(t, d.service, d.toDigest).Some? && Touched(t, d, later) == t
  {
    FindIs(t, id);
    assert t.rows[id := t.rows[id]] == t.rows;
  }

  lemma SupersededAgain(t: Table, s: ServiceId, keep: string)
    ensures SupersededOthers(SupersededOthers(t, s, keep), s, keep) == SupersededOthers(t, s, keep)
  {
    assert SupersededOthers(SupersededOthers(t, s, keep), s, keep).rows == SupersededOthers(t, s, keep).rows;
  }

  // ----- what the single statements leave ----------------------------------------

  predicate OnlyStatus(a: Row, b: Row) { b.(status := a.status) == a }

  // SupersedeAllOpen closes exactly the service's open rows; what the other
  // services have open, and which of it is the latest, stays.
  lemma SupersededExactly(t: Table, s: ServiceId)
    ensures var t' := SupersededAll(t, s);
            && t'.rows.Keys == t.rows.Keys && SupersededAll(t', s) == t'
            && (forall id: UpdateId :: !Open(t', id, s))
            && (forall id :: id in t.rows ==> OnlyStatus(t.rows[id], t'.rows[id]))
            && (forall id :: id in t.rows ==> t'.rows[id].status == if Open(t, id, s) then Superseded else t.rows[id].status)
            && (forall x, id: UpdateId :: x != s ==> (LatestOpen(t', x, id) <==> LatestOpen(t, x, id)))
  {
    var t' := SupersededAll(t, s);
    assert SupersededAll(t', s).rows == t'.rows;
    assert forall x, id: UpdateId :: x != s ==> (Open(t', id, x) <==> Open(t, id, x));
  }

  // MarkRolledBack changes at most one row, the one of its key, and that only
  // from applied.
  lemma RolledBackExactly(t: Table, s: ServiceId, digest: string)
    requires Unique(t)
    ensures var t', found := MarkedRolledBack(t, s, digest), Find(t, s, digest);
            && t'.rows.Keys == t.rows.Keys
            && (forall id :: id in t.rows && Some(id) != found ==> t'.rows[id] == t.rows[id])
            && (found.Some? ==> OnlyStatus(t.rows[found.value], t'.rows[found.value]))
            && (found.Some? ==> t'.rows[found.value].status == if t.rows[found.value].status.Applied? then RolledBack else t.rows[found.value].status)
  {
    forall id | id in t.rows && Keyed(t.rows[id], s, digest) ensures Find(t, s, digest) == Some(id) { FindIs(t, id); }
  }

  // A rollback, then a detection of the same digest: the update is open again
  // exactly when it was neither applied nor already out of reach. So an applied
  // update stays reverted, a failed one does not.
  lemma RollbackThenDetection(t: Table, d: Drift, now: int)
    requires Valid(t) && Unique(t)
    ensures var found := Find(t, d.service, d.toDigest);
            (exists id: UpdateId :: Open(DriftRecorded(MarkedRolledBack(t, d.service, d.toDigest), d, now), id, d.service))
            <==> (found.None? || !(t.rows[found.value].status.Applied? || t.rows[found.value].status.Dismissed?
                                   || t.rows[found.value].status.RolledBack? || t.rows[found.value].status.Current?))
  {
    hide DriftRecorded, MarkedRolledBack;
    var t', found := MarkedRolledBack(t, d.service, d.toDigest), Find(t, d.service, d.toDigest);
    OpKeeps(t, MarkRolledBack(d.service, d.toDigest));
    RolledBackExactly(t, d.service, d.toDigest);
    DriftLeavesOneOpen(t', d, now);
    assert Find(t', d.service, d.toDigest) == found by { SameFind(t, t', d.service, d.toDigest); }
  }

  lemma SameFind(t: Table, t': Table, s: ServiceId, digest: string)
    requires Unique(t') && t'.rows.Keys == t.rows.Keys && forall id :: id in t.rows ==> SameKey(t.rows[id], t'.rows[id])
    ensures Find(t', s, digest) == Find(t, s, digest)
  {
    var found := Find(t, s, digest);
    if found.Some? {
      FindIs(t', found.value);
    } else {
      assert forall id :: id in t'.rows ==> !Keyed(t'.rows[id], s, digest);
    }
  }

  // ReopenRolledBack opens exactly the service's rolled_back rows besides those
  // already open, and so undoes a rollback of its own service.
  lemma ReopenedExactly(t: Table, s: ServiceId)
    ensures var t' := Reopened(t, s);
            && t'.rows.Keys == t.rows.Keys
            && (forall id :: id in t.rows ==> OnlyStatus(t.rows[id], t'.rows[id]))
            && (forall id: UpdateId :: Open(t', id, s) <==> Open(t, id, s) || (id in t.rows && t.rows[id].service == s && t.rows[id].status.RolledBack?))
            && (forall id :: id in t.rows && !Open(t', id, s) ==> t'.rows[id] == t.rows[id])
            && (forall id :: id in t.rows && t.rows[id].service == s ==> !t'.rows[id].status.RolledBack?)
  {
  }

  // DeleteStaleCurrent leaves no baseline of the service but that at the kept
  // digest, and every other row, open ones among them, as it was.
  lemma StaleCurrentExactly(t: Table, s: ServiceId, keep: string)
    ensures var t' := StaleCurrentDeleted(t, s, keep);
            && (forall id :: id in t'.rows ==> id in t.rows && t'.rows[id] == t.rows[id])
            && (forall id :: id in t.rows && id !in t'.rows ==> t.rows[id].service == s && t.rows[id].status.Current? && t.rows[id].toDigest != keep)
            && (forall id :: id in t'.rows && t'.rows[id].service == s && t'.rows[id].status.Current? ==> t'.rows[id].toDigest == keep)
            && (forall x, id: UpdateId :: Open(t', id, x) <==> Open(t, id, x))
  {
  }

  // SetStatus and MarkApplied look at nothing but the id: whatever the row has
  // become in the meantime is overwritten, its key and every other row stay, and
  // a row that is gone is not brought back. MarkApplied also records the time.
  lemma WritesById(t: Table, id: UpdateId, st: Status, now: int)
    requires Valid(t) && Unique(t)
    ensures var t', a := WithStatus(t, id, st), MarkedApplied(t, id, now);
            && Keeps(t, t') && Keeps(t, a) && t'.rows.Keys == t.rows.Keys == a.rows.Keys
            && (forall other :: other in t.rows && other != id ==> t'.rows[other] == a.rows[other] == t.rows[other])
            && (id in t.rows ==> OnlyStatus(t.rows[id], t'.rows[id]) && t'.rows[id].status == st)
            && (id in t.rows ==> OnlyStatus(t.rows[id], a.rows[id].(appliedAt := t.rows[id].appliedAt)))
            && (id in t.rows ==> a.rows[id].status.Applied? && a.rows[id].appliedAt == Some(now))
  {
    OpKeeps(t, SetStatus(id, st));
    OpKeeps(t, MarkApplied(id, now));
  }
}
