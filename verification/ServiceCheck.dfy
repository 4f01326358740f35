// One check of a service (internal/scan/scan.go:69-257): detection, then the
// changelog of what it found or of the running version.
module ServiceCheck {
  import opened Base
  import U = UpdateTable
  import opened Detection

  // What the changelog resolver comes to; no text is an answer too.
  datatype Notes = Throttled | Broken | Notes(text: string)

  class Scanner {
    const detector: Detector
    var notifiedTo: map<U.ServiceId, string>
    var notified: seq<(U.ServiceId, string)>     // the refresh hints sent, oldest first

    constructor (detector: Detector)
      ensures this.detector == detector && notifiedTo == map[] && notified == []
    {
      this.detector, notifiedTo, notified := detector, map[], [];
    }

    ghost predicate Valid()
      reads this, detector, detector.updates
    {
      detector.Valid()
    }

    // Each drift is hinted once until it clears or moves on.
    method MarkNotified(id: U.ServiceId, digest: string)
      modifies this
      ensures notifiedTo == old(notifiedTo)[id := digest]
      ensures notified == if id in old(notifiedTo) && old(notifiedTo)[id] == digest then old(notified) else old(notified) + [(id, digest)]
    {
      if id in notifiedTo && notifiedTo[id] == digest { return; }
      notifiedTo := notifiedTo[id := digest];
      notified := notified + [(id, digest)];
    }

    method StoreNotes(id: U.UpdateId, notes: Notes) returns (rateLimited: bool)
      requires Valid()
      modifies detector.updates
      ensures Valid() && rateLimited == notes.Throttled?
      ensures detector.updates.t == NotesStored(old(detector.updates.t), id, notes)
    {
      U.OpKeeps(detector.updates.t, U.SetChangelog(id, if notes.Notes? then notes.text else "", if notes.Throttled? then "rate_limited" else ""));
      rateLimited := notes.Throttled?;
      if notes.Throttled? {
        detector.updates.SetChangelog(id, "", "rate_limited");
      } else if notes.Notes? && notes.text != "" {
        detector.updates.SetChangelog(id, notes.text, "");
      }
    }

    // scan.go:160-236. version: the name found for the running version.
    method EnsureCurrentChangelog(svc: Service, version: string, notes: Notes, now: int) returns (rateLimited: bool)
      requires Valid()
      modifies detector.updates
      ensures Valid()
      ensures detector.updates.t == BaselineEnsured(old(detector.updates.t), svc, version, notes, now)
      ensures rateLimited <==> WantsBaseline(old(detector.updates.t), svc) && notes.Throttled?
    {
      var updates := detector.updates;
      rateLimited := false;
      if svc.currentDigest == "" { return; }
      U.OpKeeps(updates.t, U.DeleteStaleCurrent(svc.id, svc.currentDigest));
      updates.DeleteStaleCurrent(svc.id, svc.currentDigest);
      if U.Surfaced(updates.t, svc.id) || U.BaselineCached(updates.t, svc.id, svc.currentDigest) { return; }
      var id := updates.Upsert(Baseline(svc, version), U.Current, now);
      U.FindIs(updates.t, id);
      rateLimited := StoreNotes(id, notes);
    }

    // The changelog of a drift, on the row it was recorded in.
    method NoteDrift(s: U.ServiceId, digest: string, notes: Notes) returns (rateLimited: bool)
      requires Valid()
      modifies detector.updates
      ensures Valid() && rateLimited == notes.Throttled?
      ensures detector.updates.t == DriftNoted(old(detector.updates.t), s, digest, notes)
    {
      var id := detector.updates.Select(s, digest);
      rateLimited := notes.Throttled?;
      if id.Some? {
        rateLimited := StoreNotes(id.value, notes);
      }
    }

    // known: the service row could be read. w is the world of the detection.
    method CheckService(known: bool, svc: Service, version: string, w: World, notes: Notes, now: int)
      returns (rateLimited: bool, v: Verdict, ghost t: Target, ghost d: U.Drift)
      requires Valid()
      modifies this, detector, detector.updates, detector.cache
      ensures Valid()
      ensures !known ==> v.Error? && detector.updates.t == old(detector.updates.t)
      ensures Hinted(old(notifiedTo), old(notified), notifiedTo, notified, svc.id, v)
      ensures rateLimited ==> notes.Throttled?
      ensures v.Drifted? ==> rateLimited == notes.Throttled?
      ensures known ==> Checked(old(detector.updates.t), detector.updates.t, svc, version, w, notes, now, v, t, d)
    {
      hide U.DriftRecorded, BaselineEnsured, NotesStored, VersionsKept, StatesAfter, IsTarget;
      t, d := Target(None, "", Remote("", "", "", "", "")), U.Drift(svc.id, "", "", "", "", "", "");
      rateLimited := false;
      if !known { return false, Error, t, d; }
      v, t, d := detector.Detect(svc, w, now);
      if v.Error? { return; }
      if v.Drifted? {
        MarkNotified(svc.id, v.digest);
        rateLimited := NoteDrift(svc.id, v.digest, notes);
      } else {
        notifiedTo := notifiedTo - {svc.id};
        rateLimited := EnsureCurrentChangelog(svc, version, notes, now);
      }
    }

    // A manual check of one service or project lifts rolled_back first.
    method CheckServiceFresh(known: bool, svc: Service, version: string, w: World, notes: Notes, now: int)
      returns (rateLimited: bool, v: Verdict, ghost t: Target, ghost d: U.Drift)
      requires Valid()
      modifies this, detector, detector.updates, detector.cache
      ensures Valid()
      ensures !known ==> v.Error? && detector.updates.t == U.Reopened(old(detector.updates.t), svc.id)
      ensures Hinted(old(notifiedTo), old(notified), notifiedTo, notified, svc.id, v)
      ensures rateLimited ==> notes.Throttled?
      ensures v.Drifted? ==> rateLimited == notes.Throttled?
      ensures known ==>
                Checked(U.Reopened(old(detector.updates.t), svc.id), detector.updates.t, svc, version, w, notes, now, v, t, d)
    {
      U.OpKeeps(detector.updates.t, U.Reopen(svc.id));
      detector.updates.ReopenRolledBack(svc.id);
      rateLimited, v, t, d := CheckService(known, svc, version, w, notes, now);
    }
  }

  // A drift is remembered, and hinted unless it is the one remembered; a check
  // without drift forgets; a failed one does neither.
  ghost predicate Hinted(to: map<U.ServiceId, string>, hints: seq<(U.ServiceId, string)>,
                         to': map<U.ServiceId, string>, hints': seq<(U.ServiceId, string)>, id: U.ServiceId, v: Verdict)
  {
    match v
    case Drifted(digest) => to' == to[id := digest] && hints' == if id in to && to[id] == digest then hints else hints + [(id, digest)]
    case Error => to' == to && hints' == hints
    case _ => to' == to - {id} && hints' == hints
  }

  // The check resolves the running version's changelog.
  predicate WantsBaseline(t: U.Table, svc: Service)
  {
    && svc.currentDigest != ""
    && var t1 := U.StaleCurrentDeleted(t, svc.id, svc.currentDigest);
    !U.Surfaced(t1, svc.id) && !U.BaselineCached(t1, svc.id, svc.currentDigest)
  }

  function NotesStored(t: U.Table, id: U.UpdateId, notes: Notes): U.Table
  {
    match notes
    case Throttled => U.ChangelogSet(t, id, "", "rate_limited")
    case Broken => t
    case Notes(text) => if text == "" then t else U.ChangelogSet(t, id, text, "")
  }

  ghost function DriftNoted(t: U.Table, s: U.ServiceId, digest: string, notes: Notes): U.Table
  {
    var id := U.Find(t, s, digest);
    if id.Some? then NotesStored(t, id.value, notes) else t
  }

  // The synthetic row of the running version: from and to are the same.
  function Baseline(svc: Service, version: string): U.Drift
  {
    var name := if version == "" then TagOf(svc) else version;
    U.Drift(svc.id, svc.currentDigest, svc.currentDigest, name, name, TagOf(svc), "current")
  }

  ghost function BaselineEnsured(t: U.Table, svc: Service, version: string, notes: Notes, now: int): U.Table
  {
    if svc.currentDigest == "" then t
    else
      var t1 := U.StaleCurrentDeleted(t, svc.id, svc.currentDigest);
      if U.Surfaced(t1, svc.id) || U.BaselineCached(t1, svc.id, svc.currentDigest) then t1
      else
        var t2 := U.Upserted(t1, Baseline(svc, version), U.Current, now);
        var id := U.Find(t2, svc.id, svc.currentDigest);
        if id.Some? then NotesStored(t2, id.value, notes) else t2
  }

  // The updates table after a check, by verdict.
  ghost predicate Checked(before: U.Table, after: U.Table, svc: Service, version: string, w: World, notes: Notes, now: int,
                          v: Verdict, t: Target, d: U.Drift)
  {
    match v
    case NoVerdict => after == BaselineEnsured(before, svc, version, notes, now)
    case UpToDate => after == BaselineEnsured(U.SupersededAll(before, svc.id), svc, version, notes, now)
    case Drifted(digest) =>
      && digest == t.remote.digest && d.service == svc.id && d.toDigest == digest
      && after == DriftNoted(U.DriftRecorded(before, d, now), svc.id, digest, notes)
    case Error => after == before || (d.service == svc.id && after == U.DriftRecorded(before, d, now))
  }

  // ----- what a check leaves ------------------------------------------------------------------

  ghost predicate OthersUntouched(before: U.Table, after: U.Table, s: U.ServiceId)
  {
    && (forall id :: id in before.rows && before.rows[id].service != s ==> id in after.rows && after.rows[id] == before.rows[id])
    && (forall id :: id in after.rows && after.rows[id].service != s ==> id in before.rows && before.rows[id] == after.rows[id])
  }

  lemma OthersTrans(a: U.Table, b: U.Table, c: U.Table, s: U.ServiceId)
    requires OthersUntouched(a, b, s) && OthersUntouched(b, c, s)
    ensures OthersUntouched(a, c, s)
  {
  }

  // A step that keeps the table's invariants, touches one service and opens
  // nothing.
  ghost predicate Quiet(t: U.Table, t': U.Table, s: U.ServiceId)
  {
    && U.Valid(t') && U.Unique(t') && OthersUntouched(t, t', s)
    && forall id: U.UpdateId, x: U.ServiceId :: U.Open(t', id, x) ==> U.Open(t, id, x)
  }

  lemma QuietTrans(a: U.Table, b: U.Table, c: U.Table, s: U.ServiceId)
    requires Quiet(a, b, s) && Quiet(b, c, s)
    ensures Quiet(a, c, s)
  {
  }

  lemma DeleteIsQuiet(t: U.Table, s: U.ServiceId, keep: string)
    requires U.Valid(t) && U.Unique(t)
    ensures Quiet(t, U.StaleCurrentDeleted(t, s, keep), s)
  {
  }

  // The upsert of a baseline inserts a current row or keeps a status.
  lemma UpsertIsQuiet(t: U.Table, b: U.Drift, now: int)
    requires U.Valid(t) && U.Unique(t)
    ensures Quiet(t, U.Upserted(t, b, U.Current, now), b.service)
  {
    U.UpsertKeeps(t, b, U.Current, now);
  }

  lemma NotesAreQuiet(t: U.Table, id: U.UpdateId, notes: Notes)
    requires U.Valid(t) && U.Unique(t) && id in t.rows
    ensures Quiet(t, NotesStored(t, id, notes), t.rows[id].service)
    ensures forall x :: x in NotesStored(t, id, notes).rows <==> x in t.rows
  {
  }

  lemma BaselineIsQuiet(t: U.Table, svc: Service, version: string, notes: Notes, now: int)
    requires U.Valid(t) && U.Unique(t)
    ensures Quiet(t, BaselineEnsured(t, svc, version, notes, now), svc.id)
  {
    hide Quiet, U.Upserted, U.StaleCurrentDeleted, NotesStored;
    if svc.currentDigest == "" {
      NoChangeIsQuiet(t, svc.id);
      return;
    }
    var t1, b := U.StaleCurrentDeleted(t, svc.id, svc.currentDigest), Baseline(svc, version);
    DeleteIsQuiet(t, svc.id, svc.currentDigest);
    QuietIsValid(t, t1, svc.id);
    if !U.Surfaced(t1, svc.id) && !U.BaselineCached(t1, svc.id, svc.currentDigest) {
      var t2 := U.Upserted(t1, b, U.Current, now);
      UpsertIsQuiet(t1, b, now);
      QuietTrans(t, t1, t2, svc.id);
      QuietIsValid(t1, t2, svc.id);
      var id := U.Find(t2, svc.id, svc.currentDigest);
      if id.Some? {
        NotesAreQuiet(t2, id.value, notes);
        QuietTrans(t, t2, NotesStored(t2, id.value, notes), svc.id);
      }
    }
  }

  lemma NoChangeIsQuiet(t: U.Table, s: U.ServiceId)
    requires U.Valid(t) && U.Unique(t)
    ensures Quiet(t, t, s)
  {
  }

  lemma QuietIsValid(t: U.Table, t': U.Table, s: U.ServiceId)
    requires Quiet(t, t', s)
    ensures U.Valid(t') && U.Unique(t')
  {
  }

  // Whatever mix of reopen, restore, apply and failure came before: a check
  // that finds the service up to date leaves none of its updates open, one that
  // finds drift at most one, at the detected digest; the key stays unique, and
  // other services' rows are as they were.
  lemma CheckLeavesAtMostOne(before: U.Table, after: U.Table, svc: Service, version: string, w: World, notes: Notes, now: int,
                             v: Verdict, t: Target, d: U.Drift)
    requires U.Valid(before) && U.Unique(before)
    requires Checked(before, after, svc, version, w, notes, now, v, t, d)
    ensures U.Valid(after) && U.Unique(after) && OthersUntouched(before, after, svc.id)
    ensures v.UpToDate? ==> forall id: U.UpdateId :: !U.Open(after, id, svc.id)
    ensures v.Drifted? ==>
              && (forall id: U.UpdateId :: U.Open(after, id, svc.id) ==> after.rows[id].toDigest == v.digest)
              && (forall a: U.UpdateId, b: U.UpdateId :: U.Open(after, a, svc.id) && U.Open(after, b, svc.id) ==> a == b)
  {
    hide Checked, U.DriftRecorded, BaselineEnsured;
    if v.UpToDate? {
      UpToDateLeavesNone(before, after, svc, version, w, notes, now, v, t, d);
    } else if v.NoVerdict? {
      NoVerdictOpensNothing(before, after, svc, version, w, notes, now, v, t, d);
    } else {
      DriftLeavesOne(before, after, svc, version, w, notes, now, v, t, d);
    }
  }

  lemma UpToDateLeavesNone(before: U.Table, after: U.Table, svc: Service, version: string, w: World, notes: Notes, now: int,
                           v: Verdict, t: Target, d: U.Drift)
    requires U.Valid(before) && U.Unique(before) && v.UpToDate?
    requires Checked(before, after, svc, version, w, notes, now, v, t, d)
    ensures U.Valid(after) && U.Unique(after) && OthersUntouched(before, after, svc.id)
    ensures forall id: U.UpdateId :: !U.Open(after, id, svc.id)
  {
    hide BaselineEnsured;
    var closed := U.SupersededAll(before, svc.id);
    U.RewriteKeeps(before, closed);
    BaselineIsQuiet(closed, svc, version, notes, now);
    OthersTrans(before, closed, after, svc.id);
  }

  lemma NoVerdictOpensNothing(before: U.Table, after: U.Table, svc: Service, version: string, w: World, notes: Notes, now: int,
                              v: Verdict, t: Target, d: U.Drift)
    requires U.Valid(before) && U.Unique(before) && v.NoVerdict?
    requires Checked(before, after, svc, version, w, notes, now, v, t, d)
    ensures U.Valid(after) && U.Unique(after) && OthersUntouched(before, after, svc.id)
  {
    hide BaselineEnsured;
    BaselineIsQuiet(before, svc, version, notes, now);
  }

  lemma DriftTouchesOwn(t: U.Table, d: U.Drift, now: int)
    requires U.Valid(t) && U.Unique(t)
    ensures OthersUntouched(t, U.DriftRecorded(t, d, now), d.service)
  {
    U.DriftKeeps(t, d, now);
  }

  lemma DriftLeavesOne(before: U.Table, after: U.Table, svc: Service, version: string, w: World, notes: Notes, now: int,
                       v: Verdict, t: Target, d: U.Drift)
    requires U.Valid(before) && U.Unique(before) && (v.Drifted? || v.Error?)
    requires Checked(before, after, svc, version, w, notes, now, v, t, d)
    ensures U.Valid(after) && U.Unique(after) && OthersUntouched(before, after, svc.id)
    ensures v.Drifted? ==>
              && (forall id: U.UpdateId :: U.Open(after, id, svc.id) ==> after.rows[id].toDigest == v.digest)
              && (forall a: U.UpdateId, b: U.UpdateId :: U.Open(after, a, svc.id) && U.Open(after, b, svc.id) ==> a == b)
  {
    hide U.DriftRecorded;
    U.DriftKeeps(before, d, now);
    DriftTouchesOwn(before, d, now);
    U.DriftLeavesOneOpen(before, d, now);
    if v.Drifted? {
      var recorded := U.DriftRecorded(before, d, now);
      var id := U.Find(recorded, svc.id, v.digest);
      if id.Some? {
        NotesAreQuiet(recorded, id.value, notes);
        OthersTrans(before, recorded, after, svc.id);
      }
    }
  }

  // ----- the baseline row -----------------------------------------------------------------------

  // Storing notes changes no status and no key.
  lemma NotesKeepRows(t: U.Table, id: U.UpdateId, notes: Notes, x: U.UpdateId)
    requires id in t.rows
    ensures x in NotesStored(t, id, notes).rows <==> x in t.rows
    ensures x in t.rows ==> NotesStored(t, id, notes).rows[x].status == t.rows[x].status && U.SameKey(NotesStored(t, id, notes).rows[x], t.rows[x])
  {
  }

  ghost predicate HasBaseline(t: U.Table, s: U.ServiceId, digest: string)
  {
    exists id: U.UpdateId :: U.IsRow(t, id, s, digest) && t.rows[id].status.Current?
  }

  // With a unique key, the row the select finds decides.
  lemma BaselineIsFound(t: U.Table, s: U.ServiceId, digest: string)
    requires U.Unique(t)
    ensures HasBaseline(t, s, digest) <==> U.Find(t, s, digest).Some? && t.rows[U.Find(t, s, digest).value].status.Current?
  {
    if HasBaseline(t, s, digest) {
      var id: U.UpdateId :| U.IsRow(t, id, s, digest) && t.rows[id].status.Current?;
      U.FindIs(t, id);
    }
  }

  // The row the baseline's upsert leaves, and the one it meets.
  lemma UpsertedRow(t: U.Table, b: U.Drift, now: int)
    requires U.Valid(t) && U.Unique(t)
    ensures var t', had := U.Upserted(t, b, U.Current, now), U.Find(t, b.service, b.toDigest);
            var found := U.Find(t', b.service, b.toDigest);
            && found == Some(if had.Some? then had.value else t.nextId)
            && t'.rows[found.value].status == (if had.Some? then t.rows[had.value].status else U.Current)
  {
    U.UpsertKeeps(t, b, U.Current, now);
    var t', had := U.Upserted(t, b, U.Current, now), U.Find(t, b.service, b.toDigest);
    U.FindIs(t', if had.Some? then had.value else t.nextId);
  }

  // Deleting the stale baselines leaves the row at the running digest.
  lemma DeletedKeepsRow(t: U.Table, s: U.ServiceId, digest: string)
    requires U.Valid(t) && U.Unique(t)
    ensures U.Find(U.StaleCurrentDeleted(t, s, digest), s, digest) == U.Find(t, s, digest)
    ensures U.Surfaced(U.StaleCurrentDeleted(t, s, digest), s) <==> U.Surfaced(t, s)
  {
    var t', had := U.StaleCurrentDeleted(t, s, digest), U.Find(t, s, digest);
    if had.Some? {
      assert U.Unique(t');
      U.FindIs(t', had.value);
    }
    if U.Surfaced(t, s) {
      var id :| id in t.rows && t.rows[id].service == s
        && (t.rows[id].status.Available? || t.rows[id].status.Dismissed? || t.rows[id].status.RolledBack? || t.rows[id].status.Applied?);
      assert id in t'.rows && t'.rows[id] == t.rows[id];
    }
  }

  // An up-to-date check of a service whose history nothing surfaces leaves a
  // baseline at the running digest exactly when no other row holds that digest:
  // the upsert keeps the status of a superseded or failed row it meets.
  lemma BaselineExactly(t: U.Table, svc: Service, version: string, notes: Notes, now: int)
    requires U.Valid(t) && U.Unique(t) && svc.currentDigest != "" && !U.Surfaced(t, svc.id)
    ensures var had := U.Find(t, svc.id, svc.currentDigest);
            HasBaseline(BaselineEnsured(t, svc, version, notes, now), svc.id, svc.currentDigest)
            <==> (had.None? || t.rows[had.value].status.Current?)
  {
    hide U.Upserted, NotesStored, HasBaseline, U.Surfaced;
    var s, digest, b := svc.id, svc.currentDigest, Baseline(svc, version);
    var t1 := U.StaleCurrentDeleted(t, s, digest);
    DeletedKeepsRow(t, s, digest);
    U.RewriteKeeps(t, t1);
    BaselineIsFound(t1, s, digest);
    if U.BaselineCached(t1, s, digest) {
      var id :| id in t1.rows && U.Keyed(t1.rows[id], s, digest) && t1.rows[id].status.Current?;
      U.FindIs(t1, id);
    } else {
      var t2 := U.Upserted(t1, b, U.Current, now);
      UpsertedRow(t1, b, now);
      U.UpsertKeeps(t1, b, U.Current, now);
      var found := U.Find(t2, s, digest).value;
      var t' := NotesStored(t2, found, notes);
      NotesAreQuiet(t2, found, notes);
      QuietIsValid(t2, t', s);
      NotesKeepRows(t2, found, notes, found);
      U.FindIs(t', found);
      BaselineIsFound(t', s, digest);
    }
  }

  // The failing case is the ordinary one after a self-update: the update to the
  // running digest was never marked applied, the check supersedes it, and the
  // service is left without a baseline.
  lemma SelfUpdatedHasNoBaseline(svc: Service, version: string, notes: Notes, now: int)
    requires svc.currentDigest != ""
    ensures var d := U.Drift(svc.id, "", svc.currentDigest, "", "", "", "");
            var t := U.Insert(U.Table(map[], 1), U.NewRow(d, U.Available, now));
            var t' := BaselineEnsured(U.SupersededAll(t, svc.id), svc, version, notes, now);
            !HasBaseline(t', svc.id, svc.currentDigest)
  {
    var d := U.Drift(svc.id, "", svc.currentDigest, "", "", "", "");
    var t := U.SupersededAll(U.Insert(U.Table(map[], 1), U.NewRow(d, U.Available, now)), svc.id);
    assert U.Keyed(t.rows[1], svc.id, svc.currentDigest);
    U.FindIs(t, 1);
    BaselineExactly(t, svc, version, notes, now);
  }
}
