// Naming a floating image by the release tag with its config digest, through
// the permanent tag-digest cache (internal/detect/detect.go:323-383,
// internal/store/tag_digests.go).
module VersionLookup {
  import opened Base
  import opened Versions
  import opened Tags

  type Cache = map<(string, string), string>

  // What a config lookup comes to.
  datatype Lookup = Found(digest: string) | RateLimited | Failed

  datatype Fate = Answers | Limited | Breaks

  // The registry during one scan of one repository: the tag list, the true
  // config digest of every tag, the fate of asking for it, and whether the
  // cache can be read and written for a tag.
  datatype Registry = Registry(
    tags: Result<seq<string>>, truth: string -> string, fate: string -> Fate,
    readable: string -> bool, writable: string -> bool)

  // The cache says what the registry says.
  ghost predicate Agrees(m: Cache, repo: string, truth: string -> string)
  {
    forall t :: (repo, t) in m ==> m[(repo, t)] == truth(t)
  }

  function Ask(reg: Registry, t: string): Lookup
  {
    match reg.fate(t)
    case Answers => Found(reg.truth(t))
    case Limited => RateLimited
    case Breaks => Failed
  }

  // A look-up through the cache.
  function Asked(m: Cache, repo: string, reg: Registry, t: string): Lookup
  {
    if reg.readable(t) && (repo, t) in m then Found(m[(repo, t)]) else Ask(reg, t)
  }

  function Hit(m: Cache, repo: string, tag: string): Option<string>
  {
    if (repo, tag) in m then Some(m[(repo, tag)]) else None
  }

  function Stored(m: Cache, repo: string, tag: string, digest: string): Cache
  {
    if digest == "" then m else m[(repo, tag) := digest]
  }

  // What is put is what is got, for that tag alone; an empty answer leaves no
  // trace; putting a digest again changes nothing; and storing what the registry
  // says keeps the cache in agreement, so that every hit is the registry's digest.
  lemma PutThenGet(m: Cache, repo: string, tag: string, digest: string, r: string, t: string, truth: string -> string)
    ensures Hit(Stored(m, repo, tag, digest), r, t) == if digest != "" && (r, t) == (repo, tag) then Some(digest) else Hit(m, r, t)
    ensures Hit(m, repo, tag) == Some(digest) ==> Stored(m, repo, tag, digest) == m
    ensures Hit(Stored(m, repo, tag, digest), r, t) == Some("") ==> Hit(m, r, t) == Some("")
    ensures Agrees(m, repo, truth) && (digest == truth(tag) || digest == "") ==>
              && Agrees(Stored(m, repo, tag, digest), repo, truth)
              && (Hit(Stored(m, repo, tag, digest), repo, t).Some? ==> Hit(Stored(m, repo, tag, digest), repo, t).value == truth(t))
  {
    if Hit(m, repo, tag) == Some(digest) { assert m[(repo, tag) := digest] == m; }
  }

  class TagDigests {
    var m: Cache

    constructor ()
      ensures m == map[]
    {
      m := map[];
    }

    method Get(repo: string, tag: string) returns (r: Option<string>)
      ensures r == Hit(m, repo, tag)
    {
      r := if (repo, tag) in m then Some(m[(repo, tag)]) else None;
    }

    // Never caches a non-answer.
    method Put(repo: string, tag: string, digest: string)
      modifies this
      ensures m == Stored(old(m), repo, tag, digest)
    {
      if digest != "" { m := m[(repo, tag) := digest]; }
    }
  }

  // The cache only ever grows by what the registry answered.
  ghost predicate Learned(before: Cache, after: Cache, repo: string, reg: Registry)
  {
    && (forall k :: k in before ==> k in after)
    && (forall k :: k in after && (k !in before || after[k] != before[k]) ==> k.0 == repo && reg.fate(k.1).Answers? && after[k] == reg.truth(k.1))
    && (forall k :: k in before && reg.readable(k.1) ==> after[k] == before[k])
  }

  method CandidateConfigDigest(cache: TagDigests, repo: string, tag: string, reg: Registry) returns (r: Lookup)
    modifies cache
    ensures r == Asked(old(cache.m), repo, reg, tag)
    ensures Learned(old(cache.m), cache.m, repo, reg)
    ensures r.Found? && r.digest != "" && reg.writable(tag) ==> Hit(cache.m, repo, tag) == Some(r.digest)
  {
    if reg.readable(tag) {
      var hit := cache.Get(repo, tag);
      if hit.Some? { return Found(hit.value); }
    }
    r := Ask(reg, tag);
    if r.Found? && reg.writable(tag) {
      cache.Put(repo, tag, r.digest);
    }
  }

  lemma LearnedAgrees(before: Cache, after: Cache, repo: string, reg: Registry)
    requires Learned(before, after, repo, reg) && Agrees(before, repo, reg.truth)
    ensures Agrees(after, repo, reg.truth)
  {
  }

  // What the scan asked before does not change what it asks next.
  lemma LearnedAsks(before: Cache, after: Cache, repo: string, reg: Registry, t: string)
    requires Learned(before, after, repo, reg)
    ensures Asked(after, repo, reg, t) == Asked(before, repo, reg, t)
  {
  }

  lemma {:induction false} LearnedSweeps(before: Cache, after: Cache, repo: string, reg: Registry, wanted: string, cands: seq<string>)
    requires Learned(before, after, repo, reg)
    ensures Sweep(after, repo, reg, wanted, cands) == Sweep(before, repo, reg, wanted, cands)
  {
    hide Learned;
    if cands != [] {
      LearnedAsks(before, after, repo, reg, cands[0]);
      LearnedSweeps(before, after, repo, reg, wanted, cands[1..]);
    }
  }

  lemma LearnedMatches(before: Cache, after: Cache, repo: string, reg: Registry, wanted: string, prefer: string, listing: seq<string>)
    requires Learned(before, after, repo, reg)
    ensures Matched(after, repo, reg, wanted, prefer, listing) == Matched(before, repo, reg, wanted, prefer, listing)
  {
    hide Learned, Asked;
    LearnedAsks(before, after, repo, reg, prefer);
    LearnedSweeps(before, after, repo, reg, wanted, Capped(listing));
  }

  lemma LearnedTrans(a: Cache, b: Cache, c: Cache, repo: string, reg: Registry)
    requires Learned(a, b, repo, reg) && Learned(b, c, repo, reg)
    ensures Learned(a, c, repo, reg)
  {
  }

  // ----- the candidates (semver.go:90-113) ------------------------------------------------

  predicate Candidate(t: string) { Stable(t) }

  function CoreOf(t: string): Core { if ParseCore(t).Some? then ParseCore(t).value else Core(0, 0, 0) }

  function Kept(tags: seq<string>): seq<string>
  {
    if tags == [] then []
    else Kept(tags[..|tags| - 1]) + if Candidate(tags[|tags| - 1]) then [tags[|tags| - 1]] else []
  }

  ghost predicate Descending(s: seq<string>) { forall i, j :: 0 <= i < j < |s| ==> !Less(CoreOf(s[i]), CoreOf(s[j])) }

  // The stable tags, newest first; tags of one core in any order, as sort.Slice
  // leaves them.
  ghost predicate IsListing(tags: seq<string>, listing: seq<string>)
  {
    multiset(listing) == multiset(Kept(tags)) && Descending(listing)
  }

  method Insert(s: seq<string>, t: string) returns (r: seq<string>)
    requires Descending(s)
    ensures Descending(r) && multiset(r) == multiset(s) + multiset{t}
  {
    hide Less, CoreOf;
    var i := |s|;
    while i > 0 && Less(CoreOf(s[i - 1]), CoreOf(t))
      invariant 0 <= i <= |s|
      invariant forall k :: i <= k < |s| ==> Less(CoreOf(s[k]), CoreOf(t))
    {
      i := i - 1;
    }
    r := s[..i] + [t] + s[i..];
    assert s == s[..i] + s[i..];
    InsertedDescending(s, i, t);
  }

  lemma InsertedDescending(s: seq<string>, i: nat, t: string)
    requires Descending(s) && i <= |s| && (i > 0 ==> !Less(CoreOf(s[i - 1]), CoreOf(t)))
    requires forall k :: i <= k < |s| ==> Less(CoreOf(s[k]), CoreOf(t))
    ensures Descending(s[..i] + [t] + s[i..])
  {
    hide CoreOf;
    var r := s[..i] + [t] + s[i..];
    forall a, b | 0 <= a < b < |r| ensures !Less(CoreOf(r[a]), CoreOf(r[b])) {
      if b == i && a < i - 1 { assert !Less(CoreOf(s[a]), CoreOf(s[i - 1])); }
    }
  }

  method SemverTagsDesc(tags: seq<string>) returns (listing: seq<string>)
    ensures IsListing(tags, listing)
  {
    hide Descending, Stable;
    listing := [];
    assert Descending([]) by { EmptyDescending(); }
    for i := 0 to |tags|
      invariant Descending(listing) && multiset(listing) == multiset(Kept(tags[..i]))
    {
      assert tags[..i + 1][..i] == tags[..i];
      if Candidate(tags[i]) {
        listing := Insert(listing, tags[i]);
      }
    }
    assert tags[..|tags|] == tags;
  }

  lemma EmptyDescending()
    ensures Descending([])
  {
  }

  // ----- the reverse look-up ------------------------------------------------------------------

  const REVERSE_SCAN_CAP := 50

  function Capped(listing: seq<string>): seq<string>
  {
    if |listing| > REVERSE_SCAN_CAP then listing[..REVERSE_SCAN_CAP] else listing
  }

  // Newest first: the first candidate with the digest; a rate limit aborts, any
  // other failure only skips the tag. The flag is false for an abort.
  function Sweep(m: Cache, repo: string, reg: Registry, wanted: string, cands: seq<string>): (string, bool)
  {
    if cands == [] then ("", true)
    else
      var cd := Asked(m, repo, reg, cands[0]);
      if cd.RateLimited? then ("", false)
      else if cd == Found(wanted) then (cands[0], true)
      else Sweep(m, repo, reg, wanted, cands[1..])
  }

  function Matched(m: Cache, repo: string, reg: Registry, wanted: string, prefer: string, listing: seq<string>): (string, bool)
  {
    if wanted == "" then ("", true)
    else if prefer != "" && Asked(m, repo, reg, prefer) == Found(wanted) then (prefer, true)
    else if reg.tags.Err? then ("", false)
    else Sweep(m, repo, reg, wanted, Capped(listing))
  }

  method MatchVersionByDigest(cache: TagDigests, repo: string, wanted: string, prefer: string, reg: Registry)
    returns (tag: string, conclusive: bool, ghost listing: seq<string>)
    modifies cache
    ensures reg.tags.Ok? ==> IsListing(reg.tags.value, listing)
    ensures (tag, conclusive) == Matched(old(cache.m), repo, reg, wanted, prefer, listing)
    ensures Learned(old(cache.m), cache.m, repo, reg)
  {
    ghost var before := cache.m;
    var cands := [];
    if reg.tags.Ok? { cands := SemverTagsDesc(reg.tags.value); }
    listing := cands;
    if wanted == "" { return "", true, listing; }
    if prefer != "" {
      var cd := CandidateConfigDigest(cache, repo, prefer, reg);
      if cd == Found(wanted) { return prefer, true, listing; }
    }
    if reg.tags.Err? { return "", false, listing; }
    tag, conclusive := Scan(cache, repo, wanted, Capped(cands), before, reg);
  }

  method Scan(cache: TagDigests, repo: string, wanted: string, cands: seq<string>, ghost before: Cache, reg: Registry)
    returns (tag: string, conclusive: bool)
    requires Learned(before, cache.m, repo, reg)
    modifies cache
    ensures (tag, conclusive) == Sweep(before, repo, reg, wanted, cands)
    ensures Learned(before, cache.m, repo, reg)
  {
    hide Learned, Asked;
    var i := 0;
    while i < |cands|
      invariant 0 <= i <= |cands| && Learned(before, cache.m, repo, reg)
      invariant Sweep(before, repo, reg, wanted, cands) == Sweep(before, repo, reg, wanted, cands[i..])
    {
      ghost var was := cache.m;
      var cd := CandidateConfigDigest(cache, repo, cands[i], reg);
      LearnedAsks(before, was, repo, reg, cands[i]);
      LearnedTrans(before, was, cache.m, repo, reg);
      assert cands[i..][1..] == cands[i + 1..];
      if cd.RateLimited? { return "", false; }
      if cd == Found(wanted) { return cands[i], true; }
      i := i + 1;
    }
    tag, conclusive := "", true;
  }

  // ----- what the look-up means -------------------------------------------------------------------

  // A returned tag has the digest that was asked for, and an inconclusive scan
  // returns none.
  lemma {:induction false} SweepIsSound(m: Cache, repo: string, reg: Registry, wanted: string, cands: seq<string>)
    requires Agrees(m, repo, reg.truth)
    ensures var (tag, conclusive) := Sweep(m, repo, reg, wanted, cands);
            && (!conclusive ==> tag == "")
            && (tag != "" ==> tag in cands && reg.truth(tag) == wanted)
  {
    if cands != [] { SweepIsSound(m, repo, reg, wanted, cands[1..]); }
  }

  // A conclusive miss is one: every candidate that could be asked has another
  // digest.
  lemma {:induction false} MissIsReal(m: Cache, repo: string, reg: Registry, wanted: string, cands: seq<string>, t: string)
    requires Agrees(m, repo, reg.truth) && "" !in cands && t in cands && Reachable(m, repo, reg, t)
    requires Sweep(m, repo, reg, wanted, cands) == ("", true)
    ensures reg.truth(t) != wanted
  {
    if t != cands[0] { MissIsReal(m, repo, reg, wanted, cands[1..], t); }
  }

  // The look-up of t does not fail.
  predicate Reachable(m: Cache, repo: string, reg: Registry, t: string)
  {
    (reg.readable(t) && (repo, t) in m) || reg.fate(t).Answers?
  }

  lemma MatchIsSound(m: Cache, repo: string, reg: Registry, wanted: string, prefer: string, listing: seq<string>)
    requires Agrees(m, repo, reg.truth)
    ensures var (tag, conclusive) := Matched(m, repo, reg, wanted, prefer, listing);
            && (!conclusive ==> tag == "")
            && (tag != "" ==> wanted != "" && reg.truth(tag) == wanted && (tag == prefer || tag in listing))
  {
    SweepIsSound(m, repo, reg, wanted, Capped(listing));
  }

  // The same look-up without a cache.
  lemma {:induction false} SweepNeedsNoCache(m: Cache, repo: string, reg: Registry, wanted: string, cands: seq<string>)
    requires Agrees(m, repo, reg.truth)
    requires forall t :: t in cands ==> reg.fate(t).Answers?
    ensures Sweep(m, repo, reg, wanted, cands) == Sweep(map[], repo, reg, wanted, cands)
  {
    if cands != [] {
      assert cands[0] in cands;
      SweepNeedsNoCache(m, repo, reg, wanted, cands[1..]);
    }
  }

  // With no failed look-ups the cached reverse look-up returns what an uncached
  // one returns.
  lemma CacheIsTransparent(m: Cache, repo: string, reg: Registry, wanted: string, prefer: string, listing: seq<string>)
    requires Agrees(m, repo, reg.truth)
    requires forall t :: t == prefer || t in listing ==> reg.fate(t).Answers?
    ensures Matched(m, repo, reg, wanted, prefer, listing) == Matched(map[], repo, reg, wanted, prefer, listing)
  {
    SweepNeedsNoCache(m, repo, reg, wanted, Capped(listing));
  }

  // The sweep returns the newest release with the digest among those it may
  // look at; an older one never hides a newer one.
  lemma {:induction false} NewestWins(m: Cache, repo: string, reg: Registry, wanted: string, cands: seq<string>)
    requires Agrees(m, repo, reg.truth) && Descending(cands)
    requires forall t :: t in cands ==> t != "" && Reachable(m, repo, reg, t)
    ensures var (tag, conclusive) := Sweep(m, repo, reg, wanted, cands);
            && conclusive
            && (tag == "" <==> forall t :: t in cands ==> reg.truth(t) != wanted)
            && (tag != "" ==> forall t :: t in cands && reg.truth(t) == wanted ==> !Less(CoreOf(tag), CoreOf(t)))
  {
    hide CoreOf, Less;
    if cands != [] {
      assert cands[0] in cands;
      forall i, j | 0 <= i < j < |cands| - 1 ensures !Less(CoreOf(cands[1..][i]), CoreOf(cands[1..][j])) {
        assert cands[1..][i] == cands[i + 1] && cands[1..][j] == cands[j + 1];
      }
      forall t | t in cands[1..] ensures t in cands {}
      NewestWins(m, repo, reg, wanted, cands[1..]);
      forall t | t in cands && t != cands[0] ensures t in cands[1..] {}
      if reg.truth(cands[0]) == wanted {
        forall t | t in cands && t != cands[0] ensures !Less(CoreOf(cands[0]), CoreOf(t)) {
          var j :| 0 <= j < |cands| && cands[j] == t;
          assert 0 < j;
        }
        LessIrreflexive(CoreOf(cands[0]));
      }
    }
  }

  lemma LessIrreflexive(c: Core)
    ensures !Less(c, c)
  {
  }
}
