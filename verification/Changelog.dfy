// The notes shown for an update (internal/changelog/github.go:199-400,
// internal/changelog/resolver.go:99-115): which releases lie in the span, how
// they are rendered into a budget, and the final cap.
module Changelog {
  import opened Base
  import opened Utf8
  import opened Versions
  import opened Tags

  datatype Release = Release(tag: string, body: Bytes)

  // ----- tags ----------------------------------------------------------------------------------

  function DropPrefix(s: string, p: string): string { if p <= s then s[|p|..] else s }

  // github.go:399-406.
  function NormalizeTag(tag: string): string
  {
    var t := DropPrefix(DropPrefix(StripNamePrefix(tag), "release-"), "v");
    t[..IndexOf(t, '_')]
  }

  function Lower(c: char): char { if 'A' <= c <= 'Z' then (c as int + 32) as char else c }

  function Lowered(s: string): (t: string)
    ensures |t| == |s|
  {
    seq(|s|, i requires 0 <= i < |s| => Lower(s[i]))
  }

  // ^(rc|alpha|beta|pre|preview|dev|snapshot|nightly|canary|milestone|ea|m\d|b\d), either case.
  predicate PrereleaseMarker(seg: string)
  {
    var s := Lowered(seg);
    || "rc" <= s || "alpha" <= s || "beta" <= s || "pre" <= s || "dev" <= s || "snapshot" <= s || "nightly" <= s
    || "canary" <= s || "milestone" <= s || "ea" <= s
    || (|s| >= 2 && (s[0] == 'm' || s[0] == 'b') && IsDigit(s[1]))
  }

  predicate IsPrerelease(norm: string)
  {
    var i := IndexOf(norm, '-');
    i < |norm| && PrereleaseMarker(norm[i + 1..])
  }

  // The version of a stable release.
  function StableCore(tag: string): Option<Core>
  {
    var norm := NormalizeTag(tag);
    if IsPrerelease(norm) then None else ParseCore(norm)
  }

  // ----- the span (github.go:312-335) --------------------------------------------------------------

  // In (from, to].
  predicate InSpan(r: Release, from: Core, to: Core)
  {
    var c := StableCore(r.tag);
    c.Some? && Less(from, c.value) && !Less(to, c.value)
  }

  function CoreAt(rels: seq<Release>, i: nat): Core
    requires i < |rels|
  {
    var c := StableCore(rels[i].tag);
    if c.Some? then c.value else Core(0, 0, 0)
  }

  // Listing i is shown before listing j: higher version, or the same and listed
  // earlier.
  predicate Before(rels: seq<Release>, i: nat, j: nat)
    requires i < |rels| && j < |rels|
  {
    Less(CoreAt(rels, j), CoreAt(rels, i)) || (CoreAt(rels, j) == CoreAt(rels, i) && i < j)
  }

  ghost predicate Ordered(rels: seq<Release>, ids: seq<nat>)
  {
    && (forall k :: 0 <= k < |ids| ==> ids[k] < |rels|)
    && forall a, b :: 0 <= a < b < |ids| ==> Before(rels, ids[a], ids[b])
  }

  // The listings of the span, in the order they are shown.
  ghost predicate IsSpan(rels: seq<Release>, from: Core, to: Core, ids: seq<nat>)
  {
    Ordered(rels, ids) && forall i: nat :: i in ids <==> i < |rels| && InSpan(rels[i], from, to)
  }

  function Picked(rels: seq<Release>, ids: seq<nat>): seq<Release>
    requires forall k :: 0 <= k < |ids| ==> ids[k] < |rels|
  {
    seq(|ids|, k requires 0 <= k < |ids| => rels[ids[k]])
  }

  method ReleasesInSpan(rels: seq<Release>, from: Core, to: Core) returns (span: seq<Release>, ids: seq<nat>)
    ensures IsSpan(rels, from, to, ids) && span == Picked(rels, ids)
  {
    hide Less, StableCore;
    var keep: seq<nat> := [];
    for i := 0 to |rels|
      invariant forall k :: 0 <= k < |keep| ==> keep[k] < i
      invariant forall a, b :: 0 <= a < b < |keep| ==> keep[a] < keep[b]
      invariant forall x: nat :: x in keep <==> x < i && InSpan(rels[x], from, to)
    {
      if InSpan(rels[i], from, to) { keep := keep + [i]; }
    }
    ids := SortStable(rels, keep);
    assert forall i: nat :: i in ids <==> i in keep;
    span := Picked(rels, ids);
  }

  // sort.SliceStable by version, highest first.
  method SortStable(rels: seq<Release>, keep: seq<nat>) returns (ids: seq<nat>)
    requires forall k :: 0 <= k < |keep| ==> keep[k] < |rels|
    requires forall a, b :: 0 <= a < b < |keep| ==> keep[a] < keep[b]
    ensures Ordered(rels, ids) && forall i: nat :: i in ids <==> i in keep
  {
    hide Before, CoreAt, Less;
    ids := [];
    for n := 0 to |keep|
      invariant Ordered(rels, ids) && forall i: nat :: i in ids <==> i in keep[..n]
    {
      var x, k := keep[n], |ids|;
      assert forall i: nat :: i in keep[..n] ==> i < x;
      while k > 0 && Less(CoreAt(rels, ids[k - 1]), CoreAt(rels, x))
        invariant 0 <= k <= |ids|
        invariant forall j :: k <= j < |ids| ==> Less(CoreAt(rels, ids[j]), CoreAt(rels, x))
      {
        k := k - 1;
      }
      Inserted(rels, ids, k, x);
      InsertedMembers(ids, k, x);
      ids := ids[..k] + [x] + ids[k..];
    }
    assert keep[..|keep|] == keep;
  }

  lemma InsertedMembers(ids: seq<nat>, k: nat, x: nat)
    requires k <= |ids|
    ensures forall i: nat :: i in ids[..k] + [x] + ids[k..] <==> i in ids || i == x
  {
    assert ids == ids[..k] + ids[k..];
  }

  lemma Inserted(rels: seq<Release>, ids: seq<nat>, k: nat, x: nat)
    requires Ordered(rels, ids) && k <= |ids| && x < |rels| && forall i: nat :: i in ids ==> i < x
    requires k > 0 ==> !Less(CoreAt(rels, ids[k - 1]), CoreAt(rels, x))
    requires forall j :: k <= j < |ids| ==> Less(CoreAt(rels, ids[j]), CoreAt(rels, x))
    ensures Ordered(rels, ids[..k] + [x] + ids[k..])
  {
    hide Before, CoreAt, Less;
    var r := ids[..k] + [x] + ids[k..];
    forall a, b | 0 <= a < b < |r| ensures Before(rels, r[a], r[b]) {
      if b == k {
        assert ids[k - 1] in ids && ids[a] in ids;
        if a < k - 1 { assert Before(rels, ids[a], ids[k - 1]); }
        BeforeInserted(rels, ids[a], ids[k - 1], x);
      } else if a == k {
        AfterInserted(rels, x, ids[b - 1]);
      } else {
        var a', b' := if a < k then a else a - 1, if b < k then b else b - 1;
        assert Before(rels, ids[a'], ids[b']);
      }
    }
  }

  lemma BeforeInserted(rels: seq<Release>, i: nat, j: nat, x: nat)
    requires i < |rels| && j < x < |rels| && !Less(CoreAt(rels, j), CoreAt(rels, x)) && (i == j || Before(rels, i, j))
    requires i < x
    ensures Before(rels, i, x)
  {
    hide CoreAt;
  }

  lemma AfterInserted(rels: seq<Release>, x: nat, j: nat)
    requires x < |rels| && j < |rels| && Less(CoreAt(rels, j), CoreAt(rels, x))
    ensures Before(rels, x, j)
  {
    hide CoreAt;
  }

  // ----- the span is determined -------------------------------------------------------------------

  lemma BeforeIsStrict(rels: seq<Release>, i: nat, j: nat)
    requires i < |rels| && j < |rels| && Before(rels, i, j)
    ensures !Before(rels, j, i) && i != j
  {
    hide CoreAt;
  }

  // Membership and order leave one span, not the sort's choice.
  lemma {:induction false} SpanIsUnique(rels: seq<Release>, ids: seq<nat>, others: seq<nat>)
    requires Ordered(rels, ids) && Ordered(rels, others) && forall i: nat :: i in ids <==> i in others
    ensures ids == others
    decreases |ids|
  {
    hide Before;
    EmptyTogether(ids, others);
    if ids != [] {
      FirstIsFirst(rels, ids, others);
      OrderedTail(rels, ids);
      OrderedTail(rels, others);
      forall i: nat ensures i in ids[1..] <==> i in others[1..] {
        TailMembers(rels, ids, i);
        TailMembers(rels, others, i);
      }
      SpanIsUnique(rels, ids[1..], others[1..]);
      assert ids == [ids[0]] + ids[1..] && others == [others[0]] + others[1..];
    }
  }

  lemma HasMember(ids: seq<nat>)
    requires ids != []
    ensures exists i: nat :: i in ids
  {
    assert ids[0] in ids;
  }

  lemma EmptyTogether(ids: seq<nat>, others: seq<nat>)
    requires forall i: nat :: i in ids <==> i in others
    ensures ids == [] <==> others == []
  {
    if ids != [] { HasMember(ids); }
    if others != [] { HasMember(others); }
  }

  lemma FirstIsFirst(rels: seq<Release>, ids: seq<nat>, others: seq<nat>)
    requires Ordered(rels, ids) && Ordered(rels, others) && ids != [] && others != []
    requires forall i: nat :: i in ids <==> i in others
    ensures ids[0] == others[0]
  {
    hide Before;
    assert ids[0] in others && others[0] in ids;
    var a :| 0 <= a < |others| && others[a] == ids[0];
    var b :| 0 <= b < |ids| && ids[b] == others[0];
    if a > 0 { BeforeIsStrict(rels, others[0], others[a]); }
    if b > 0 { assert Before(rels, ids[0], ids[b]); }
  }

  lemma OrderedTail(rels: seq<Release>, ids: seq<nat>)
    requires Ordered(rels, ids) && ids != []
    ensures Ordered(rels, ids[1..])
  {
    hide Before;
    forall a, b | 0 <= a < b < |ids| - 1 ensures Before(rels, ids[1..][a], ids[1..][b]) {
      assert Before(rels, ids[a + 1], ids[b + 1]);
    }
  }

  lemma TailMembers(rels: seq<Release>, ids: seq<nat>, i: nat)
    requires Ordered(rels, ids) && ids != []
    ensures i in ids[1..] <==> i in ids && i != ids[0]
  {
    hide Before;
    if i in ids[1..] {
      var k :| 0 <= k < |ids| - 1 && ids[1..][k] == i;
      assert Before(rels, ids[0], ids[k + 1]);
      BeforeIsStrict(rels, ids[0], ids[k + 1]);
    }
  }

  // A listed stable release of the target version heads the span.
  lemma TargetHeadsSpan(rels: seq<Release>, from: Core, to: Core, ids: seq<nat>, t: nat)
    requires IsSpan(rels, from, to, ids) && t < |rels| && StableCore(rels[t].tag) == Some(to) && Less(from, to)
    ensures ids != [] && CoreAt(rels, ids[0]) == to && ids[0] <= t
  {
    hide StableCore;
    LessIsStrict(to);
    assert t in ids;
    var k :| 0 <= k < |ids| && ids[k] == t;
    if k > 0 { assert Before(rels, ids[0], ids[k]); }
    assert ids[0] in ids;
  }

  // The release found for the target version is part of the span exactly when
  // it is no pre-release, which a partial version does not rule out.
  lemma TargetInSpan(rels: seq<Release>, from: Core, to: Core, ids: seq<nat>, t: nat)
    requires IsSpan(rels, from, to, ids) && t < |rels| && ParseCore(NormalizeTag(rels[t].tag)) == Some(to) && Less(from, to)
    ensures t in ids <==> !IsPrerelease(NormalizeTag(rels[t].tag))
  {
    hide NormalizeTag, ParseCore, IsPrerelease;
    LessIsStrict(to);
  }

  lemma LessIsStrict(c: Core)
    ensures !Less(c, c)
  {
  }

  // ----- the target release (github.go:215-277) ---------------------------------------------------

  function Dots(s: string): nat { if s == [] then 0 else Dots(s[..|s| - 1]) + if s[|s| - 1] == '.' then 1 else 0 }

  // Leading numeric components, whatever the suffix.
  function CoreComponents(norm: string): nat
  {
    var a, b := IndexOf(norm, '-'), IndexOf(norm, '+');
    Dots(norm[..if a < b then a else b]) + 1
  }

  predicate Partial(version: string) { DropPrefix(version, "v") != "" && Dots(DropPrefix(version, "v")) < 2 }

  function NormAt(rels: seq<Release>, i: nat): string
    requires i < |rels|
  {
    NormalizeTag(rels[i].tag)
  }

  // The release is a patch of the partial version.
  predicate Patches(rels: seq<Release>, version: string, i: nat)
  {
    i < |rels| && DropPrefix(version, "v") + "." <= NormAt(rels, i) && ParseCore(NormAt(rels, i)).Some?
  }

  function ReadAt(rels: seq<Release>, i: nat): Core
    requires i < |rels|
  {
    var c := ParseCore(NormAt(rels, i));
    if c.Some? then c.value else Core(0, 0, 0)
  }

  // The release has the core of the full version.
  predicate SameCore(rels: seq<Release>, version: string, i: nat)
  {
    var v := NormalizeTag(version);
    && i < |rels| && ParseCore(v).Some? && CoreComponents(v) <= 3
    && ParseCore(NormAt(rels, i)) == ParseCore(v) && !IsPrerelease(NormAt(rels, i)) && CoreComponents(NormAt(rels, i)) <= 3
  }

  // The ways a release can match.
  datatype Tier = ByTag(want: seq<string>) | ByPatch(version: string) | ByName(version: string) | ByCore(version: string)

  predicate Meets(rels: seq<Release>, tier: Tier, i: nat)
  {
    i < |rels| && match tier
      case ByTag(want) => rels[i].tag in want
      case ByPatch(version) => Patches(rels, version, i)
      case ByName(version) => SameCore(rels, version, i) && NormAt(rels, i) == NormalizeTag(version)
      case ByCore(version) => SameCore(rels, version, i)
  }

  ghost predicate IsFirst(rels: seq<Release>, tier: Tier, i: nat) { Meets(rels, tier, i) && forall j: nat :: j < i ==> !Meets(rels, tier, j) }

  ghost predicate IsNone(rels: seq<Release>, tier: Tier) { forall i: nat :: !Meets(rels, tier, i) }

  // An exact tag wins; a partial version takes its newest patch, the first
  // listed of equals; a full one an exact normalized tag, else the first listed
  // build of its core.
  ghost predicate IsTarget(rels: seq<Release>, want: seq<string>, version: string, r: Option<nat>)
  {
    if !IsNone(rels, ByTag(want)) then r.Some? && IsFirst(rels, ByTag(want), r.value)
    else if Partial(version) then
      match r
      case None => IsNone(rels, ByPatch(version))
      case Some(best) => NewestAmong(rels, ByPatch(version), best)
    else if !IsNone(rels, ByName(version)) then r.Some? && IsFirst(rels, ByName(version), r.value)
    else
      match r
      case None => IsNone(rels, ByCore(version))
      case Some(best) => IsFirst(rels, ByCore(version), best)
  }

  ghost predicate NewestAmong(rels: seq<Release>, tier: Tier, best: nat)
  {
    && Meets(rels, tier, best)
    && forall j: nat :: Meets(rels, tier, j) ==> !Less(ReadAt(rels, best), ReadAt(rels, j)) && (j < best ==> Less(ReadAt(rels, j), ReadAt(rels, best)))
  }

  method FindRelease(rels: seq<Release>, want: seq<string>, version: string) returns (r: Option<nat>)
    ensures IsTarget(rels, want, version, r)
  {
    hide NormalizeTag, ParseCore, IsPrerelease, CoreComponents, Partial, Patches, SameCore;
    for i := 0 to |rels|
      invariant forall j: nat :: j < i ==> !Meets(rels, ByTag(want), j)
    {
      if rels[i].tag in want {
        assert Meets(rels, ByTag(want), i);
        return Some(i);
      }
    }
    if Partial(version) {
      r := NewestPatch(rels, version);
    } else {
      r := SameCoreRelease(rels, version);
    }
  }

  method NewestPatch(rels: seq<Release>, version: string) returns (r: Option<nat>)
    ensures if r.None? then IsNone(rels, ByPatch(version)) else NewestAmong(rels, ByPatch(version), r.value)
  {
    hide NormalizeTag, ParseCore, ReadAt, Patches;
    var tier := ByPatch(version);
    r := None;
    for i := 0 to |rels|
      invariant r.None? ==> forall j: nat :: j < i ==> !Meets(rels, tier, j)
      invariant r.Some? ==> r.value < i && Meets(rels, tier, r.value)
      invariant r.Some? ==> forall j: nat :: j < i && Meets(rels, tier, j) ==>
                  !Less(ReadAt(rels, r.value), ReadAt(rels, j)) && (j < r.value ==> Less(ReadAt(rels, j), ReadAt(rels, r.value)))
    {
      if Meets(rels, tier, i) && (r.None? || Less(ReadAt(rels, r.value), ReadAt(rels, i))) {
        r := Some(i);
      }
    }
  }

  method SameCoreRelease(rels: seq<Release>, version: string) returns (r: Option<nat>)
    ensures if !IsNone(rels, ByName(version)) then r.Some? && IsFirst(rels, ByName(version), r.value)
            else if r.Some? then IsFirst(rels, ByCore(version), r.value) else IsNone(rels, ByCore(version))
  {
    hide SameCore, NormalizeTag;
    r := None;
    for i := 0 to |rels|
      invariant forall j: nat :: j < i ==> !Meets(rels, ByName(version), j)
      invariant r.None? ==> forall j: nat :: j < i ==> !Meets(rels, ByCore(version), j)
      invariant r.Some? ==> r.value < i && IsFirst(rels, ByCore(version), r.value)
    {
      if Meets(rels, ByCore(version), i) {
        if Meets(rels, ByName(version), i) { return Some(i); }
        if r.None? { r := Some(i); }
      }
    }
  }

  // ----- rendering (github.go:343-381) --------------------------------------------------------------

  const MAX_BYTES := 65536
  const NOTE_RESERVE := 512
  const BUDGET := MAX_BYTES - NOTE_RESERVE

  function Decimal(n: nat): (s: string)
    ensures s != [] && AllDigits(s)
  {
    if n < 10 then [('0' as int + n) as char] else Decimal(n / 10) + [('0' as int + n % 10) as char]
  }

  // The number in a note is the number that was put there.
  lemma {:induction false} DecimalReads(n: nat)
    ensures DigitsValue(Decimal(n)) == n
  {
    var s := Decimal(n);
    if n < 10 {
      assert s[..|s| - 1] == [];
    } else {
      DecimalReads(n / 10);
      assert s[..|s| - 1] == Decimal(n / 10);
    }
  }

  function OmittedNote(n: nat, link: string): Bytes
  {
    if n == 0 then BytesOf("\n\n---\n\n_Older releases omitted, see the [full comparison](" + link + ")._")
    else BytesOf("\n\n---\n\n_" + Decimal(n) + " earlier " + (if n == 1 then "release" else "releases")
                 + " omitted, see the [full comparison](" + link + ")._")
  }

  // Bodies are trimmed; only the white space ASCII knows is told apart here.
  predicate Blank(b: Byte) { b == 32 || 9 <= b <= 13 }

  function TrimBytes(s: Bytes): Bytes
  {
    if s != [] && Blank(s[0]) then TrimBytes(s[1..])
    else if s != [] && Blank(s[|s| - 1]) then TrimBytes(s[..|s| - 1])
    else s
  }

  function Section(span: seq<Release>, i: nat): Bytes
    requires i < |span|
  {
    (if i > 0 then BytesOf("\n\n---\n\n") else []) + BytesOf("## " + span[i].tag + "\n\n") + TrimBytes(span[i].body)
  }

  // The first k sections.
  function Sections(span: seq<Release>, k: nat): Bytes
    requires k <= |span|
  {
    if k == 0 then [] else Sections(span, k - 1) + Section(span, k - 1)
  }

  // What is shown of a span: k sections, which are all of them or as many as the
  // budget holds (the first always is), and what the note says.
  ghost predicate Shows(span: seq<Release>, k: nat)
  {
    && k <= |span| && (span != [] ==> k >= 1)
    && (k > 1 ==> |Sections(span, k)| <= BUDGET)
    && (k < |span| ==> |Sections(span, k + 1)| > BUDGET)
  }

  method RenderSpan(span: seq<Release>, link: string, complete: bool) returns (text: Bytes, k: nat)
    ensures span == [] ==> text == [] && k == 0
    ensures |span| == 1 && complete ==> text == span[0].body && k == 1
    ensures |span| > 1 || (|span| == 1 && !complete) ==>
              && Shows(span, k)
              && text == Sections(span, k) + (if k < |span| then OmittedNote(|span| - k, link) else if complete then [] else OmittedNote(0, link))
  {
    hide Section, OmittedNote;
    if |span| == 0 { return [], 0; }
    if |span| == 1 && complete { return span[0].body, 1; }
    text, k := [], 0;
    while k < |span|
      invariant 0 <= k <= |span| && text == Sections(span, k) && (k > 1 ==> |text| <= BUDGET) && (k > 0 ==> |text| > 0)
    {
      SectionNotEmpty(span, k);
      if |text| > 0 && |text| + |Section(span, k)| > BUDGET {
        return text + OmittedNote(|span| - k, link), k;
      }
      text, k := text + Section(span, k), k + 1;
    }
    if !complete { text := text + OmittedNote(0, link); }
  }

  lemma SectionNotEmpty(span: seq<Release>, i: nat)
    requires i < |span|
    ensures |Section(span, i)| > 0
  {
    var s := "## " + span[i].tag + "\n\n";
    assert |EncodeAll(Chars(s))| > 0;
  }

  // The shown sections are determined by the budget, and with the note's number
  // they account for the whole span.
  lemma ShownIsUnique(span: seq<Release>, k: nat, m: nat)
    requires Shows(span, k) && Shows(span, m)
    ensures k == m
  {
    if k < m {
      SectionsGrow(span, k + 1, m);
    } else if m < k {
      SectionsGrow(span, m + 1, k);
    }
  }

  lemma {:induction false} SectionsGrow(span: seq<Release>, k: nat, m: nat)
    requires k <= m <= |span|
    ensures |Sections(span, k)| <= |Sections(span, m)|
  {
    hide Section;
    if k < m { SectionsGrow(span, k, m - 1); }
  }

  // ----- the cap (resolver.go:107-113) -----------------------------------------------------------------

  const ELLIPSIS: Bytes := [0xE2, 0x80, 0xA6]

  method Cap(s: Bytes) returns (r: Bytes)
    ensures |r| <= MAX_BYTES
    ensures |s| <= MAX_BYTES ==> r == s
    ensures |s| > MAX_BYTES ==> exists cut: nat :: CutAt(s, cut) && r == s[..cut] + ELLIPSIS
    ensures WellFormed(s) ==> WellFormed(r)
    ensures WellFormed(s) && |s| > MAX_BYTES ==> |r| > MAX_BYTES - 4
  {
    if |s| <= MAX_BYTES { return s; }
    var cut := MAX_BYTES - |ELLIPSIS|;
    while cut > 0 && Tail(s[cut])
      invariant 0 <= cut <= MAX_BYTES - |ELLIPSIS|
      invariant forall i :: cut < i <= MAX_BYTES - |ELLIPSIS| ==> Tail(s[i])
    {
      cut := cut - 1;
    }
    assert CutAt(s, cut);
    r := s[..cut] + ELLIPSIS;
    if WellFormed(s) {
      StartNearby(s, MAX_BYTES - |ELLIPSIS|);
      CutAtStart(s, cut);
      assert WellFormed(ELLIPSIS) by { assert ELLIPSIS[3..] == []; }
      WellFormedConcat(s[..cut], ELLIPSIS);
    }
  }

  // The last place at or before the cap where a character may start.
  ghost predicate CutAt(s: Bytes, cut: nat)
  {
    && cut <= MAX_BYTES - |ELLIPSIS| < |s|
    && (cut > 0 ==> !Tail(s[cut]))
    && forall i :: cut < i <= MAX_BYTES - |ELLIPSIS| ==> Tail(s[i])
  }

  // When the first section fits the budget and the note its reserve, the cap
  // leaves a rendered span alone, note and all.
  lemma NoteSurvivesCap(span: seq<Release>, k: nat, note: Bytes)
    requires Shows(span, k) && span != [] && |Sections(span, 1)| <= BUDGET && |note| <= NOTE_RESERVE
    ensures |Sections(span, k) + note| <= MAX_BYTES
  {
  }
}
