// Drift detection for one service (internal/detect/detect.go:57-317, 420-469):
// the HEAD shortcut, the full resolve, and naming the running version.
module Detection {
  import opened Base
  import opened Versions
  import opened Tags
  import opened VersionLookup
  import U = UpdateTable

  datatype Service = Service(
    id: U.ServiceId, imageRef: string, currentDigest: string, currentImageId: string, imageVersion: string, imageLocal: bool)

  // A resolved remote image. version is its OCI version label, labels the label
  // set as stored.
  datatype Remote = Remote(digest: string, platformDigest: string, configDigest: string, version: string, labels: string)

  datatype Resolution = Resolved(remote: Remote) | Throttled | Missing | Broken

  // What the registry answers during one detection. drift is the statement of
  // RecordDrift that fails, if any; event: the history entry could be stored.
  datatype World = World(
    head: Result<string>, resolve: string -> Resolution, registry: Registry, drift: Option<nat>, event: bool)

  // The images row of a (repo, digest): Upsert owns tag and labels,
  // SetResolvedVersion the other two (internal/store/images.go:46-116).
  datatype Image = Image(tag: string, labels: string, resolvedVersion: string, versionResolved: bool)
  type Images = map<(string, string), Image>

  function ImageSeen(images: Images, repo: string, tag: string, remote: Remote): Images
  {
    var k := (repo, remote.digest);
    images[k := if k in images then images[k].(tag := tag, labels := remote.labels) else Image(tag, remote.labels, "", false)]
  }

  function VersionSet(images: Images, repo: string, digest: string, version: string): Images
  {
    var k := (repo, digest);
    if k in images then images[k := images[k].(resolvedVersion := version, versionResolved := true)] else images
  }

  // The rows of the tracked image and of the target, if that is another tag.
  function Observed(images: Images, svc: Service, tracked: Remote, t: Target): Images
  {
    var seen := ImageSeen(images, RepoOf(svc), TagOf(svc), tracked);
    if t.tag == TagOf(svc) then seen else ImageSeen(seen, RepoOf(svc), t.tag, t.remote)
  }

  // The running version is looked up: the digest floats, the tag does not name
  // it and no earlier look-up has.
  predicate WantsName(images: Images, svc: Service)
  {
    && svc.currentDigest != "" && SemverOrEmpty(TagOf(svc)) == "" && Tracks(svc, Floating)
    && !((RepoOf(svc), svc.currentDigest) in images && images[(RepoOf(svc), svc.currentDigest)].versionResolved)
  }

  function LookedUp(m: Cache, svc: Service, remote: Remote, reg: Registry, listing: seq<string>): (string, bool)
  {
    Matched(m, RepoOf(svc), reg, RunningConfig(svc, remote), SemverTagPref(remote.version), listing)
  }

  // The service's running version is named and its tag floats: what makes it
  // eligible for the shortcut.
  predicate IsNamed(images: Images, svc: Service)
  {
    var k := (RepoOf(svc), svc.currentDigest);
    Tracks(svc, Floating) && k in images && images[k].versionResolved
  }

  // A conclusive look-up leaves the running image's row, if it has one, resolved
  // to the release it found or the label; any other changes nothing.
  ghost predicate RunningNamed(before: Images, after: Images, m: Cache, svc: Service, remote: Remote, reg: Registry, listing: seq<string>)
  {
    if !WantsName(before, svc) then after == before
    else
      && (reg.tags.Ok? ==> IsListing(reg.tags.value, listing))
      && var looked := LookedUp(m, svc, remote, reg, listing);
      after == if looked == ("", false) then before else VersionSet(before, RepoOf(svc), svc.currentDigest, NamedVersion(looked.0, remote.version))
  }

  // The remote-state row of a (repo, tag), replaced as a whole.
  datatype RemoteState = RemoteState(digest: string, labels: string, status: string, resolvedAt: int)
  type RemoteStates = map<(string, string), RemoteState>

  // NoVerdict covers the services that cannot be compared and failed resolves.
  datatype Verdict = NoVerdict | UpToDate | Drifted(digest: string) | Error

  function RepoOf(svc: Service): string { SplitRef(svc.imageRef).0 }

  function TagOf(svc: Service): string { SplitRef(svc.imageRef).1 }

  predicate Tracks(svc: Service, cls: TagClass) { ClassifyTag(RepoOf(svc) + ":" + TagOf(svc)) == cls }

  // ----- what a full detection promises -------------------------------------------------------

  datatype Db = Db(images: Images, states: RemoteStates, upd: U.Table)

  // The digest and status of every remote state; the others keep theirs.
  ghost predicate StatesAfter(before: RemoteStates, after: RemoteStates, key: (string, string), digest: string, status: string)
  {
    && key in after && after[key].digest == digest && after[key].status == status
    && (forall k :: k in before && k != key ==> k in after && after[k] == before[k])
    && (forall k :: k in after ==> k in before || k == key)
  }

  // The version columns of every image row stay, but for the running image's
  // while it has none; rows seen for the first time have none either.
  ghost predicate VersionsKept(before: Images, after: Images, running: (string, string))
  {
    && (forall k :: k in before && (k != running || before[k].versionResolved) ==>
          k in after && after[k].versionResolved == before[k].versionResolved && after[k].resolvedVersion == before[k].resolvedVersion)
    && (forall k :: k in after && k !in before && k != running ==> !after[k].versionResolved)
  }

  // The row of an observed image has its tag and labels.
  predicate Recorded(images: Images, repo: string, tag: string, remote: Remote)
  {
    var k := (repo, remote.digest);
    k in images && images[k].tag == tag && images[k].labels == remote.labels
  }

  // The name of one end of a drift: a version the tag or the label gives, or a
  // release tag whose config digest is that end's.
  predicate NamedBy(name: string, known: set<string>, reg: Registry, configDigest: string)
  {
    name in known || (configDigest != "" && reg.truth(name) == configDigest)
  }

  predicate EndsNamed(svc: Service, t: Target, reg: Registry, fromVer: string, toVer: string)
  {
    var tag := TagOf(svc);
    && (SemverOrEmpty(tag) != "" ==> fromVer == tag)
    && (SemverOrEmpty(tag) == "" ==> NamedBy(fromVer, {svc.imageVersion}, reg, svc.currentImageId))
    && (t.tag != tag && SemverOrEmpty(t.tag) != "" && SemverOrEmpty(tag) != "" ==> toVer == t.tag)
    && (toVer == "" ==> fromVer == "")
    && NamedBy(toVer, {SemverOrEmpty(t.tag), t.remote.version, fromVer}, reg, t.remote.configDigest)
  }

  // How both ends come by their names: the tag's or the label's version, and for
  // a floating tag a release found by digest where it says more.
  ghost predicate Named(m: Cache, svc: Service, t: Target, reg: Registry, fromVer: string, toVer: string, l: seq<string>, l': seq<string>)
  {
    var tag := TagOf(svc);
    var from := if SemverOrEmpty(tag) != "" then SemverOrEmpty(tag) else svc.imageVersion;
    var to := if t.tag != tag && SemverOrEmpty(t.tag) != "" then SemverOrEmpty(t.tag) else t.remote.version;
    if SemverOrEmpty(tag) == "" && Tracks(svc, Floating) then
      && (reg.tags.Ok? ==> IsListing(reg.tags.value, l) && IsListing(reg.tags.value, l'))
      && fromVer == Preferred(Matched(m, RepoOf(svc), reg, svc.currentImageId, SemverTagPref(svc.imageVersion), l).0, from)
      && var found := Preferred(Matched(m, RepoOf(svc), reg, t.remote.configDigest, SemverTagPref(t.remote.version), l').0, to);
      toVer == if found == "" then fromVer else found
    else fromVer == from && toVer == if to == "" then from else to
  }

  function Preferred(found: string, known: string): string { if found != "" && PreferDigestTag(found, known) then found else known }

  predicate Serves(remote: Remote, digest: string) { remote.digest == digest || remote.platformDigest == digest }

  function StatusOf(r: Resolution): string
  {
    match r
    case Resolved(_) => "ok"
    case Throttled => "rate_limited"
    case Missing => "not_found"
    case Broken => "error"
  }

  // The image the running one is compared with: the tracked tag's, or for an
  // exact tag the newest of its stream when it resolves.
  datatype Target = Target(newer: Option<string>, tag: string, remote: Remote)

  ghost predicate IsTarget(svc: Service, w: World, tracked: Remote, t: Target)
  {
    if Tracks(svc, Exact) && w.registry.tags.Ok? then
      && IsAnswer(TagOf(svc), w.registry.tags.value, t.newer)
      && if t.newer.Some? && w.resolve(RepoOf(svc) + ":" + t.newer.value).Resolved?
         then t.tag == t.newer.value && t.remote == w.resolve(RepoOf(svc) + ":" + t.newer.value).remote
         else t.tag == TagOf(svc) && t.remote == tracked
    else t.tag == TagOf(svc) && t.remote == tracked
  }

  // d: the drift handed to RecordDrift.
  ghost predicate FullSpec(before: Db, after: Db, svc: Service, w: World, now: int, v: Verdict, t: Target, d: U.Drift)
  {
    var res := w.resolve(svc.imageRef);
    && StatesAfter(before.states, after.states, (RepoOf(svc), TagOf(svc)), if res.Resolved? then res.remote.digest else "", StatusOf(res))
    && VersionsKept(before.images, after.images, (RepoOf(svc), svc.currentDigest))
    && (!res.Resolved? ==> v.NoVerdict? && after.upd == before.upd && after.images == before.images)
    && (res.Resolved? ==> IsTarget(svc, w, res.remote, t) && Compared(before.upd, after.upd, svc, w, now, v, t, d))
  }

  // Up to date closes every open update of the service; drift records one.
  ghost predicate Compared(before: U.Table, after: U.Table, svc: Service, w: World, now: int, v: Verdict, t: Target, d: U.Drift)
  {
    if Serves(t.remote, svc.currentDigest) then v.UpToDate? && after == U.SupersededAll(before, svc.id)
    else
      && d.service == svc.id && d.fromDigest == svc.currentDigest && d.toDigest == t.remote.digest && d.tag == t.tag
      && d.severity == Severity(d.fromVersion, d.toVersion)
      && if w.drift.Some? && w.drift.value <= 4 then v.Error? && after == before
         else
           && after == U.DriftRecorded(before, d, now)
           && v == if !w.event && U.Find(before, svc.id, d.toDigest).None? then Error else Drifted(d.toDigest)
  }

  // ----- the detector ------------------------------------------------------------------------------

  class Detector {
    const updates: U.Updates
    const cache: TagDigests
    var images: Images
    var states: RemoteStates

    constructor (updates: U.Updates, cache: TagDigests)
      ensures this.updates == updates && this.cache == cache && images == map[] && states == map[]
    {
      this.updates, this.cache, images, states := updates, cache, map[], map[];
    }

    ghost predicate Valid()
      reads this, updates
    {
      U.Valid(updates.t) && U.Unique(updates.t)
    }

    ghost function Tables(): Db
      reads this, updates
    {
      Db(images, states, updates.t)
    }

    predicate Eligible(svc: Service)
      reads this
    {
      IsNamed(images, svc)
    }

    // detect.go:224-256: the stored labels survive the refresh of the row.
    method HeadShortcut(svc: Service, w: World, now: int) returns (handled: bool)
      modifies this`states, updates
      ensures handled <==> old(Eligible(svc)) && w.head == Ok(svc.currentDigest)
      ensures Tables() == if handled then Shortcut(old(Tables()), svc, now) else old(Tables())
    {
      if !Eligible(svc) || w.head != Ok(svc.currentDigest) { return false; }
      var k := (RepoOf(svc), TagOf(svc));
      var labels := if k in states && states[k].labels != "" then states[k].labels else "{}";
      states := states[k := RemoteState(w.head.value, labels, "ok", now)];
      updates.SupersedeAllOpen(svc.id);
      handled := true;
    }

    // detect.go:84-213.
    method FullDetect(svc: Service, w: World, now: int) returns (v: Verdict, ghost t: Target, ghost d: U.Drift, ghost listing: seq<string>)
      requires Valid()
      modifies this`images, this`states, updates, cache
      ensures Valid()
      ensures FullSpec(old(Tables()), Tables(), svc, w, now, v, t, d)
      ensures Learned(old(cache.m), cache.m, RepoOf(svc), w.registry)
      ensures var res, key := w.resolve(svc.imageRef), (RepoOf(svc), TagOf(svc));
              key in states && states[key].resolvedAt == now && states[key].labels == (if res.Resolved? then res.remote.labels else "{}")
      ensures w.resolve(svc.imageRef).Resolved? ==>
                var seen, remote := Observed(old(images), svc, w.resolve(svc.imageRef).remote, t), w.resolve(svc.imageRef).remote;
                if v.UpToDate? then RunningNamed(seen, images, old(cache.m), svc, remote, w.registry, listing) else images == seen
      ensures w.resolve(svc.imageRef).Resolved? ==> Recorded(images, RepoOf(svc), t.tag, t.remote)
      ensures w.resolve(svc.imageRef).Resolved? && !v.UpToDate? ==>
                exists l, l' :: Named(old(cache.m), svc, t, w.registry, d.fromVersion, d.toVersion, l, l')
      ensures w.resolve(svc.imageRef).Resolved? && !v.UpToDate? && Agrees(old(cache.m), RepoOf(svc), w.registry.truth) ==>
                EndsNamed(svc, t, w.registry, d.fromVersion, d.toVersion)
    {
      hide Agrees, EndsNamed, Named, SplitRef, Compared, IsTarget, Learned, Matched, RunningNamed, Observed;
      listing := [];
      t, d := Target(None, "", Remote("", "", "", "", "")), U.Drift(svc.id, "", "", "", "", "", "");
      LearnsNothing(cache.m, RepoOf(svc), w.registry);
      var res := w.resolve(svc.imageRef);
      if !res.Resolved? {
        states := states[(RepoOf(svc), TagOf(svc)) := RemoteState("", "{}", StatusOf(res), now)];
        return NoVerdict, t, d, listing;
      }
      states := states[(RepoOf(svc), TagOf(svc)) := RemoteState(res.remote.digest, res.remote.labels, "ok", now)];
      var target := Observe(svc, w, res.remote);
      ghost var seen := images;
      v, d, listing := Compare(svc, w, res.remote, target, now);
      KeptTrans(old(images), seen, images, (RepoOf(svc), svc.currentDigest));
      t := target;
    }

    // The image rows of the tracked tag and of the target.
    method Observe(svc: Service, w: World, remote: Remote) returns (t: Target)
      modifies this`images
      ensures IsTarget(svc, w, remote, t) && images == Observed(old(images), svc, remote, t)
      ensures VersionsKept(old(images), images, (RepoOf(svc), svc.currentDigest))
      ensures Recorded(images, RepoOf(svc), t.tag, t.remote) && (RepoOf(svc), remote.digest) in images
    {
      hide SplitRef, IsTarget, ClassifyTag, VersionsKept, ImageSeen, Recorded;
      ghost var before, running := images, (RepoOf(svc), svc.currentDigest);
      SeenKeeps(images, RepoOf(svc), TagOf(svc), remote, running);
      images := ImageSeen(images, RepoOf(svc), TagOf(svc), remote);
      ghost var tracked := images;
      t := PickTarget(svc, w, remote);
      if t.tag != TagOf(svc) {
        SeenKeeps(images, RepoOf(svc), t.tag, t.remote, running);
        images := ImageSeen(images, RepoOf(svc), t.tag, t.remote);
        KeptTrans(before, tracked, images, running);
      }
    }

    method Compare(svc: Service, w: World, remote: Remote, t: Target, now: int) returns (v: Verdict, ghost d: U.Drift, ghost listing: seq<string>)
      requires Valid()
      modifies this`images, updates, cache
      ensures Valid()
      ensures Compared(old(updates.t), updates.t, svc, w, now, v, t, d)
      ensures !v.UpToDate? ==> exists l, l' :: Named(old(cache.m), svc, t, w.registry, d.fromVersion, d.toVersion, l, l')
      ensures !v.UpToDate? && Agrees(old(cache.m), RepoOf(svc), w.registry.truth) ==>
                EndsNamed(svc, t, w.registry, d.fromVersion, d.toVersion)
      ensures if v.UpToDate? then RunningNamed(old(images), images, old(cache.m), svc, remote, w.registry, listing) else images == old(images)
      ensures VersionsKept(old(images), images, (RepoOf(svc), svc.currentDigest))
      ensures forall k :: k in old(images) ==> k in images && images[k].tag == old(images)[k].tag && images[k].labels == old(images)[k].labels
      ensures Learned(old(cache.m), cache.m, RepoOf(svc), w.registry)
    {
      hide SplitRef, ClassifyTag, Severity, Learned, Matched, PreferDigestTag, EndsNamed, Named, Agrees, RunningNamed, VersionsKept;
      listing := [];
      d := U.Drift(svc.id, "", "", "", "", "", "");
      if Serves(t.remote, svc.currentDigest) {
        ShortcutKeeps(updates.t, svc.id);
        updates.SupersedeAllOpen(svc.id);
        ghost var before, known := images, cache.m;
        listing := ResolveCurrentVersion(svc, remote, w.registry);
        NamingKeeps(before, images, known, svc, remote, w.registry, listing);
        return UpToDate, d, listing;
      }
      ghost var known := cache.m;
      var fromVer, toVer, l, l' := NameEnds(svc, t, w.registry);
      if Agrees(known, RepoOf(svc), w.registry.truth) { NamesAreSound(known, svc, t, w.registry, fromVer, toVer, l, l'); }
      var drift := U.Drift(svc.id, svc.currentDigest, t.remote.digest, fromVer, toVer, t.tag, Severity(fromVer, toVer));
      var r := updates.RecordDrift(drift, now, w.drift);
      v := if r.Err? || (r.value.1 && !w.event) then Error else Drifted(drift.toDigest);
      d := drift;
      NothingKept(images, (RepoOf(svc), svc.currentDigest));
    }

    // The semver scan of an exact tag (detect.go:125-147).
    method PickTarget(svc: Service, w: World, tracked: Remote) returns (t: Target)
      ensures IsTarget(svc, w, tracked, t)
      ensures t.tag == TagOf(svc) ==> t.remote == tracked
    {
      hide IsAnswer, SplitRef, ClassifyTag;
      t := Target(None, TagOf(svc), tracked);
      if Tracks(svc, Exact) && w.registry.tags.Ok? {
        var newer := NewerSemverTag(TagOf(svc), w.registry.tags.value);
        t := t.(newer := newer);
        if newer.Some? {
          var r := w.resolve(RepoOf(svc) + ":" + newer.value);
          AnswerDiffers(TagOf(svc), w.registry.tags.value, newer.value);
          if r.Resolved? { t := Target(newer, newer.value, r.remote); }
        }
      }
    }

    // The version names of both ends of a drift (detect.go:170-210).
    method NameEnds(svc: Service, t: Target, reg: Registry) returns (fromVer: string, toVer: string, ghost l: seq<string>, ghost l': seq<string>)
      modifies cache
      ensures Learned(old(cache.m), cache.m, RepoOf(svc), reg)
      ensures Named(old(cache.m), svc, t, reg, fromVer, toVer, l, l')
    {
      hide Learned, Matched, SplitRef, ClassifyTag, ParseCore, ExactSemver, PreferDigestTag, IsListing;
      var repo, tag := RepoOf(svc), TagOf(svc);
      l, l' := [], [];
      fromVer := if SemverOrEmpty(tag) != "" then SemverOrEmpty(tag) else svc.imageVersion;
      toVer := if t.tag != tag && SemverOrEmpty(t.tag) != "" then SemverOrEmpty(t.tag) else t.remote.version;
      ghost var before := cache.m;
      LearnsNothing(before, repo, reg);
      if SemverOrEmpty(tag) == "" && Tracks(svc, Floating) {
        var f, _, listing := MatchVersionByDigest(cache, repo, svc.currentImageId, SemverTagPref(svc.imageVersion), reg);
        ghost var between := cache.m;
        if f != "" && PreferDigestTag(f, fromVer) { fromVer := f; }
        var o, _, others := MatchVersionByDigest(cache, repo, t.remote.configDigest, SemverTagPref(t.remote.version), reg);
        l, l' := listing, others;
        LearnedMatches(before, between, repo, reg, t.remote.configDigest, SemverTagPref(t.remote.version), others);
        LearnedTrans(before, between, cache.m, repo, reg);
        if o != "" && PreferDigestTag(o, toVer) { toVer := o; }
      }
      if toVer == "" { toVer := fromVer; }
    }

    // detect.go:438-469: attempted once per digest, and not recorded when the
    // look-up was inconclusive.
    method ResolveCurrentVersion(svc: Service, remote: Remote, reg: Registry) returns (ghost listing: seq<string>)
      modifies this`images, cache
      ensures Learned(old(cache.m), cache.m, RepoOf(svc), reg)
      ensures !WantsName(old(images), svc) ==> cache.m == old(cache.m)
      ensures RunningNamed(old(images), images, old(cache.m), svc, remote, reg, listing)
    {
      hide Learned, Matched, IsListing, SplitRef, ClassifyTag, ParseCore, PreferDigestTag, ExactSemver;
      var repo, tag := RepoOf(svc), TagOf(svc);
      LearnsNothing(cache.m, repo, reg);
      listing := [];
      var k := (repo, svc.currentDigest);
      if svc.currentDigest == "" || SemverOrEmpty(tag) != "" || !Tracks(svc, Floating) || (k in images && images[k].versionResolved) {
        return;
      }
      var tagName, conclusive, found := MatchVersionByDigest(cache, repo, RunningConfig(svc, remote), SemverTagPref(remote.version), reg);
      listing := found;
      if tagName == "" && !conclusive { return; }
      images := VersionSet(images, repo, svc.currentDigest, NamedVersion(tagName, remote.version));
    }

    // detect.go:57-84.
    method Detect(svc: Service, w: World, now: int) returns (v: Verdict, ghost t: Target, ghost d: U.Drift)
      requires Valid()
      modifies this`images, this`states, updates, cache
      ensures Valid()
      ensures Unmonitored(svc) ==> v.NoVerdict? && Tables() == old(Tables())
      ensures !Unmonitored(svc) && svc.imageLocal ==>
                v.NoVerdict? && updates.t == old(updates.t) && images == old(images)
                && states == old(states)[(RepoOf(svc), TagOf(svc)) := RemoteState("", "{}", "local", now)]
      ensures !Unmonitored(svc) && !svc.imageLocal ==>
                if old(Eligible(svc)) && w.head == Ok(svc.currentDigest) then v.UpToDate? && Tables() == Shortcut(old(Tables()), svc, now)
                else FullSpec(old(Tables()), Tables(), svc, w, now, v, t, d)
      ensures !Unmonitored(svc) && !svc.imageLocal && HeadAgrees(svc, w) ==> FullSpec(old(Tables()), Tables(), svc, w, now, v, t, d)
      ensures v.UpToDate? ==> updates.t == U.SupersededAll(old(updates.t), svc.id)
      ensures v.Drifted? ==> exists l, l' :: Named(old(cache.m), svc, t, w.registry, d.fromVersion, d.toVersion, l, l')
      ensures v.Drifted? && Agrees(old(cache.m), RepoOf(svc), w.registry.truth) ==>
                EndsNamed(svc, t, w.registry, d.fromVersion, d.toVersion)
      ensures Learned(old(cache.m), cache.m, RepoOf(svc), w.registry)
    {
      hide FullSpec, Shortcut, Learned, Agrees, EndsNamed, Named;
      t, d := Target(None, "", Remote("", "", "", "", "")), U.Drift(svc.id, "", "", "", "", "", "");
      LearnsNothing(cache.m, RepoOf(svc), w.registry);
      if Unmonitored(svc) { return NoVerdict, t, d; }
      if svc.imageLocal {
        states := states[(RepoOf(svc), TagOf(svc)) := RemoteState("", "{}", "local", now)];
        return NoVerdict, t, d;
      }
      ghost var before := Tables();
      var handled := HeadShortcut(svc, w, now);
      if handled {
        if HeadAgrees(svc, w) {
          t := Target(None, TagOf(svc), w.resolve(svc.imageRef).remote);
          ShortcutRefines(before, svc, w, now, t, d);
        }
        ShortcutKeeps(before.upd, svc.id);
        ShortcutCloses(before, svc, now);
        return UpToDate, t, d;
      }
      ghost var listing;
      v, t, d, listing := FullDetect(svc, w, now);
      if v.UpToDate? || v.Drifted? { FullSettles(before, Tables(), svc, w, now, v, t, d); }
    }
  }

  predicate Unmonitored(svc: Service) { svc.imageRef == "" || svc.currentDigest == "" }

  // A HEAD that answers reports the digest the full resolve reports.
  ghost predicate HeadAgrees(svc: Service, w: World)
  {
    w.head.Ok? ==> w.resolve(svc.imageRef).Resolved? && w.resolve(svc.imageRef).remote.digest == w.head.value
  }

  // The config digest of the running image; up to date, it is the remote's.
  function RunningConfig(svc: Service, remote: Remote): string
  {
    if svc.currentImageId == "" then remote.configDigest else svc.currentImageId
  }

  function NamedVersion(tagName: string, version: string): string
  {
    if tagName == "" || !PreferDigestTag(tagName, version) then version else tagName
  }

  function SemverOrEmpty(v: string): string { if ParseCore(v).Some? then v else "" }

  function SemverTagPref(version: string): string { if ExactSemver(version) then version else "" }

  // With a cache that agrees with the registry each name is one of its end.
  lemma NamesAreSound(m: Cache, svc: Service, t: Target, reg: Registry, fromVer: string, toVer: string, l: seq<string>, l': seq<string>)
    requires Agrees(m, RepoOf(svc), reg.truth) && Named(m, svc, t, reg, fromVer, toVer, l, l')
    ensures EndsNamed(svc, t, reg, fromVer, toVer)
  {
    hide Matched, Agrees, SplitRef, ClassifyTag, ParseCore, ExactSemver, PreferDigestTag, IsListing;
    MatchIsSound(m, RepoOf(svc), reg, svc.currentImageId, SemverTagPref(svc.imageVersion), l);
    MatchIsSound(m, RepoOf(svc), reg, t.remote.configDigest, SemverTagPref(t.remote.version), l');
  }

  lemma NamingKeeps(before: Images, after: Images, m: Cache, svc: Service, remote: Remote, reg: Registry, listing: seq<string>)
    requires RunningNamed(before, after, m, svc, remote, reg, listing)
    ensures VersionsKept(before, after, (RepoOf(svc), svc.currentDigest))
    ensures forall k :: k in before ==> k in after && after[k].tag == before[k].tag && after[k].labels == before[k].labels
  {
    hide SplitRef, Matched, ClassifyTag, IsListing;
  }

  // When an up-to-date full detection makes the next one eligible for the
  // shortcut: exactly when the version was named before, or the tag floats
  // without naming it, the running digest has a row and the look-up is
  // conclusive.
  lemma EligibleAfterFull(before: Images, after: Images, m: Cache, svc: Service, remote: Remote, t: Target, reg: Registry, listing: seq<string>)
    requires svc.currentDigest != "" && t.tag == TagOf(svc)
    requires RunningNamed(Observed(before, svc, remote, t), after, m, svc, remote, reg, listing)
    ensures IsNamed(after, svc) <==>
              || IsNamed(before, svc)
              || (Tracks(svc, Floating) && SemverOrEmpty(TagOf(svc)) == ""
                  && (remote.digest == svc.currentDigest || (RepoOf(svc), svc.currentDigest) in before)
                  && LookedUp(m, svc, remote, reg, listing) != ("", false))
  {
    hide SplitRef, Matched, ClassifyTag, IsListing, ParseCore;
  }

  lemma NothingKept(images: Images, running: (string, string))
    ensures VersionsKept(images, images, running)
  {
  }

  lemma SeenKeeps(images: Images, repo: string, tag: string, remote: Remote, running: (string, string))
    ensures VersionsKept(images, ImageSeen(images, repo, tag, remote), running)
    ensures Recorded(ImageSeen(images, repo, tag, remote), repo, tag, remote) && (repo, remote.digest) in ImageSeen(images, repo, tag, remote)
    ensures forall k :: k in images ==> k in ImageSeen(images, repo, tag, remote)
  {
  }

  // The newer tag is another tag.
  lemma AnswerDiffers(current: string, tags: seq<string>, best: string)
    requires IsAnswer(current, tags, Some(best))
    ensures best != current
  {
    hide TagStream;
  }

  lemma KeptTrans(a: Images, b: Images, c: Images, running: (string, string))
    requires VersionsKept(a, b, running) && VersionsKept(b, c, running)
    ensures VersionsKept(a, c, running)
  {
  }

  lemma LearnsNothing(m: Cache, repo: string, reg: Registry)
    ensures Learned(m, m, repo, reg)
  {
  }

  // ----- the shortcut against the full path ----------------------------------------------------------

  function Shortcut(db: Db, svc: Service, now: int): Db
  {
    var k := (RepoOf(svc), TagOf(svc));
    var labels := if k in db.states && db.states[k].labels != "" then db.states[k].labels else "{}";
    Db(db.images, db.states[k := RemoteState(svc.currentDigest, labels, "ok", now)], U.SupersededAll(db.upd, svc.id))
  }

  lemma ShortcutCloses(db: Db, svc: Service, now: int)
    ensures Shortcut(db, svc, now).upd == U.SupersededAll(db.upd, svc.id)
  {
  }

  lemma FullSettles(before: Db, after: Db, svc: Service, w: World, now: int, v: Verdict, t: Target, d: U.Drift)
    requires FullSpec(before, after, svc, w, now, v, t, d) && (v.UpToDate? || v.Drifted?)
    ensures w.resolve(svc.imageRef).Resolved? && (v.UpToDate? ==> after.upd == U.SupersededAll(before.upd, svc.id))
  {
    hide IsTarget, StatesAfter, VersionsKept;
  }

  lemma ShortcutKeeps(upd: U.Table, s: U.ServiceId)
    requires U.Valid(upd) && U.Unique(upd)
    ensures U.Valid(U.SupersededAll(upd, s)) && U.Unique(U.SupersededAll(upd, s))
  {
    U.RewriteKeeps(upd, U.SupersededAll(upd, s));
  }

  // For an eligible service whose HEAD reports the running digest, the shortcut
  // does what the full path promises.
  lemma ShortcutRefines(before: Db, svc: Service, w: World, now: int, t: Target, d: U.Drift)
    requires Tracks(svc, Floating) && w.head == Ok(svc.currentDigest) && HeadAgrees(svc, w)
    requires t == Target(None, TagOf(svc), w.resolve(svc.imageRef).remote)
    ensures FullSpec(before, Shortcut(before, svc, now), svc, w, now, UpToDate, t, d)
  {
  }

  predicate SameVersion(a: Image, b: Image) { a.resolvedVersion == b.resolvedVersion && a.versionResolved == b.versionResolved }

  // And whatever the full path leaves is, in verdict, updates, remote digest and
  // status and resolved versions, what the shortcut leaves.
  lemma ShortcutIsInvisible(before: Db, full: Db, svc: Service, w: World, now: int, v: Verdict, t: Target, d: U.Drift)
    requires Tracks(svc, Floating) && w.head == Ok(svc.currentDigest) && HeadAgrees(svc, w)
    requires var k := (RepoOf(svc), svc.currentDigest); k in before.images && before.images[k].versionResolved
    requires FullSpec(before, full, svc, w, now, v, t, d)
    ensures var short := Shortcut(before, svc, now);
            && v.UpToDate? && full.upd == short.upd
            && (forall k :: k in full.states <==> k in short.states)
            && (forall k :: k in full.states ==> full.states[k].digest == short.states[k].digest && full.states[k].status == short.states[k].status)
            && (forall k :: k in short.images ==> k in full.images && SameVersion(full.images[k], short.images[k]))
  {
  }
}
