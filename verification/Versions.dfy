// Version strings and tags (internal/detect/semver.go, internal/detect/tagclass.go).
module Versions {
  import opened Base

  datatype Core = Core(major: nat, minor: nat, patch: nat)

  // ----- the order of cores (semver.go:142-150) --------------------------------------

  // The major, minor, patch part of the precedence of Semantic Versioning 2.0.0,
  // section 11.
  predicate Less(a: Core, b: Core)
  {
    if a.major != b.major then a.major < b.major
    else if a.minor != b.minor then a.minor < b.minor
    else a.patch < b.patch
  }

  // ----- reading a version (semver.go:152-181) ----------------------------------------

  predicate IsDigit(c: char) { '0' <= c <= '9' }

  // unicode.IsSpace.
  predicate IsSpace(c: char)
  {
    c in {'\t', '\n', '\r', ' ', '\U{0B}', '\U{0C}', '\U{85}', '\U{A0}', '\U{1680}', '\U{2028}', '\U{2029}', '\U{202F}', '\U{205F}', '\U{3000}'}
    || '\U{2000}' <= c <= '\U{200A}'
  }

  function TrimLeft(s: string): (r: string)
    ensures |r| <= |s|
  {
    if s != [] && IsSpace(s[0]) then TrimLeft(s[1..]) else s
  }

  function TrimRight(s: string): (r: string)
    ensures |r| <= |s|
  {
    if s != [] && IsSpace(s[|s| - 1]) then TrimRight(s[..|s| - 1]) else s
  }

  function TrimSpace(s: string): string { TrimRight(TrimLeft(s)) }

  function DropV(s: string): string { if s != [] && s[0] == 'v' then s[1..] else s }

  // The index of the first c in s, |s| when there is none.
  function IndexOf(s: string, c: char): (i: nat)
    ensures i <= |s| && (i < |s| ==> s[i] == c) && forall k :: 0 <= k < i ==> s[k] != c
  {
    if s == [] || s[0] == c then 0 else 1 + IndexOf(s[1..], c)
  }

  function DigitsValue(s: string): nat
  {
    if s == [] then 0
    else 10 * DigitsValue(s[..|s| - 1]) + if IsDigit(s[|s| - 1]) then s[|s| - 1] as int - '0' as int else 0
  }

  predicate AllDigits(s: string) { forall i :: 0 <= i < |s| ==> IsDigit(s[i]) }

  const MAX_INT: int := 0x7FFF_FFFF_FFFF_FFFF

  // strconv.Atoi on a text without a sign.
  function Atoi(s: string): Option<nat>
  {
    if s != [] && AllDigits(s) && DigitsValue(s) <= MAX_INT then Some(DigitsValue(s)) else None
  }

  // The first k dot-separated numbers of s, zeros for those it lacks; the rest
  // of s is not looked at.
  function Numbers(s: string, k: nat): (r: Option<seq<nat>>)
    ensures r.Some? ==> |r.value| == k
  {
    if k == 0 then Some([])
    else
      var dot := IndexOf(s, '.');
      var n := Atoi(s[..dot]);
      if n.None? then None
      else if dot == |s| then Some([n.value] + seq(k - 1, _ => 0))
      else
        var rest := Numbers(s[dot + 1..], k - 1);
        if rest.None? then None else Some([n.value] + rest.value)
  }

  // Before the build metadata, then before the pre-release.
  function Release(s: string): string
  {
    var t := s[..IndexOf(s, '+')];
    t[..IndexOf(t, '-')]
  }

  function ParseCore(v: string): Option<Core>
  {
    var s := DropV(TrimSpace(v));
    if s == [] then None
    else
      var ns := Numbers(Release(s), 3);
      if ns.None? then None else Some(Core(ns.value[0], ns.value[1], ns.value[2]))
  }

  // ----- version streams (semver.go:68-84) ----------------------------------------------

  function LeadingDigits(s: string): (n: nat)
    ensures n <= |s| && AllDigits(s[..n]) && (n < |s| ==> !IsDigit(s[n]))
  {
    if s == [] || !IsDigit(s[0]) then 0
    else
      var n := LeadingDigits(s[1..]);
      assert s[..n + 1] == [s[0]] + s[1..][..n];
      n + 1
  }

  // How much of s the pattern \d+(\.\d+){0,k-1} takes, 0 when it does not match.
  function CoreLength(s: string, k: nat): (n: nat)
    requires k >= 1
    ensures n <= |s|
    decreases k
  {
    var n := LeadingDigits(s);
    if n == 0 then 0
    else if k == 1 || n == |s| || s[n] != '.' || CoreLength(s[n + 1..], k - 1) == 0 then n
    else n + 1 + CoreLength(s[n + 1..], k - 1)
  }

  datatype Stream = Stream(core: Core, flavor: string)

  // The tag split by ^(v?)(\d+(?:\.\d+){0,2})(.*)$: the flavor is the v and
  // what follows the core. The last part may not hold a newline.
  function TagStream(tag: string): Option<Stream>
  {
    var t := TrimSpace(tag);
    var s := DropV(t);
    var n := CoreLength(s, 3);
    if n == 0 || '\n' in s[n..] then None
    else
      var ns := Numbers(s[..n], 3);
      if ns.None? then None
      else Some(Stream(Core(ns.value[0], ns.value[1], ns.value[2]), t[..|t| - |s|] + s[n..]))
  }

  // ----- the newest tag of the stream (semver.go:49-65) -------------------------------------

  predicate SameStream(current: string, t: string)
  {
    TagStream(current).Some? && TagStream(t).Some? && TagStream(t).value.flavor == TagStream(current).value.flavor
  }

  predicate Newer(current: string, t: string) { SameStream(current, t) && Less(TagStream(current).value.core, TagStream(t).value.core) }

  // r is a maximum of the newer tags of the stream, None when there is none.
  ghost predicate IsAnswer(current: string, tags: seq<string>, r: Option<string>)
  {
    match r
    case None => forall t :: t in tags ==> !Newer(current, t)
    case Some(best) =>
      && best in tags && Newer(current, best)
      && forall t :: t in tags && SameStream(current, t) ==> !Less(TagStream(best).value.core, TagStream(t).value.core)
  }

  method NewerSemverTag(current: string, tags: seq<string>) returns (r: Option<string>)
    ensures IsAnswer(current, tags, r)
  {
    hide TagStream;
    r := None;
    var cur := TagStream(current);
    if cur.None? { return; }
    var bestCore := cur.value.core;
    for i := 0 to |tags|
      invariant r.None? ==> bestCore == cur.value.core
      invariant r.Some? ==> r.value in tags && Newer(current, r.value) && bestCore == TagStream(r.value).value.core
      invariant forall j :: 0 <= j < i && SameStream(current, tags[j]) ==> !Less(bestCore, TagStream(tags[j]).value.core)
    {
      var s := TagStream(tags[i]);
      if s.Some? && s.value.flavor == cur.value.flavor && Less(bestCore, s.value.core) {
        r, bestCore := Some(tags[i]), s.value.core;
      }
    }
  }

  // It answers exactly when some listed tag of the stream is newer.
  lemma AnswersWhenNewer(current: string, tags: seq<string>, r: Option<string>)
    requires IsAnswer(current, tags, r)
    ensures r.Some? <==> exists t :: t in tags && Newer(current, t)
  {
  }

  // Two listings of the same tags, in any order and with any repetition, give
  // the same core.
  lemma OrderDoesNotMatter(current: string, tags: seq<string>, others: seq<string>, r: Option<string>, r': Option<string>)
    requires forall t :: t in tags <==> t in others
    requires IsAnswer(current, tags, r) && IsAnswer(current, others, r')
    ensures r.Some? <==> r'.Some?
    ensures r.Some? ==> TagStream(r.value).value == TagStream(r'.value).value
  {
  }

  // Asking again from the answer finds nothing.
  lemma AskingAgain(current: string, tags: seq<string>, best: string, r: Option<string>)
    requires IsAnswer(current, tags, Some(best)) && IsAnswer(best, tags, r)
    ensures r.None?
  {
    if r.Some? {
      assert SameStream(current, r.value);
      assert false;
    }
  }

  // ----- the two readings agree ----------------------------------------------------------------

  lemma {:induction false} LeadingDigitsIs(d: string, rest: string)
    requires AllDigits(d) && (rest == [] || !IsDigit(rest[0]))
    ensures LeadingDigits(d + rest) == |d|
  {
    if d == [] {
      assert d + rest == rest;
    } else {
      LeadingDigitsIs(d[1..], rest);
      assert (d + rest)[1..] == d[1..] + rest;
    }
  }

  // The pattern on a number and what follows it.
  lemma PatternStep(d: string, rest: string, k: nat)
    requires k >= 1 && d != [] && AllDigits(d) && (rest == [] || !IsDigit(rest[0]))
    ensures rest == [] || rest[0] != '.' || k == 1 ==> CoreLength(d + rest, k) == |d|
    ensures rest != [] && rest[0] == '.' && k > 1 ==>
              CoreLength(d + rest, k) == |d| + if CoreLength(rest[1..], k - 1) == 0 then 0 else 1 + CoreLength(rest[1..], k - 1)
  {
    LeadingDigitsIs(d, rest);
    if rest != [] { assert (d + rest)[|d|] == rest[0] && (d + rest)[|d| + 1..] == rest[1..]; }
  }

  // When the first k numbers of c can be read, the pattern takes exactly their
  // text, also when c is followed by a build or pre-release suffix.
  lemma {:induction false} PatternTakesNumbers(c: string, tail: string, k: nat)
    requires k >= 1 && Numbers(c, k).Some?
    requires tail == [] || tail[0] == '+' || tail[0] == '-'
    ensures 0 < CoreLength(c + tail, k) <= |c|
    ensures Numbers(c[..CoreLength(c + tail, k)], k) == Numbers(c, k)
    decreases k
  {
    hide CoreLength, Numbers, Atoi;
    var d, rest := FirstNumberOf(c, k);
    assert c + tail == d + (rest + tail);
    PatternStep(d, rest + tail, k);
    FirstNumber(d, rest, k);
    FirstNumber(d, "", k);
    assert d + "" == d && c[..|d|] == d;
    if rest != [] && k > 1 {
      var more := rest[1..];
      assert (rest + tail)[1..] == more + tail;
      PatternTakesNumbers(more, tail, k - 1);
      var m := CoreLength(more + tail, k - 1);
      assert c[..|d| + 1 + m] == d + ("." + more[..m]);
      FirstNumber(d, "." + more[..m], k);
      assert ("." + more[..m])[1..] == more[..m];
    } else if rest != [] {
      NoNumbers(rest[1..]);
      assert seq(0, _ => 0) == [];
    }
  }

  lemma NoNumbers(s: string)
    ensures Numbers(s, 0) == Some([])
  {
  }

  // A text whose numbers can be read starts with digits, then ends or goes on
  // with a dot and the other numbers.
  lemma FirstNumberOf(c: string, k: nat) returns (d: string, rest: string)
    requires k >= 1 && Numbers(c, k).Some?
    ensures c == d + rest && (rest == [] || rest[0] == '.')
    ensures d != [] && AllDigits(d) && Atoi(d).Some?
    ensures rest != [] ==> Numbers(rest[1..], k - 1).Some?
  {
    var dot := IndexOf(c, '.');
    d, rest := c[..dot], c[dot..];
    if rest != [] { assert rest[1..] == c[dot + 1..]; }
  }

  function Prepended(n: nat, more: Option<seq<nat>>): Option<seq<nat>>
  {
    if more.None? then None else Some([n] + more.value)
  }

  // Reading digits that end the text or are followed by a dot.
  lemma FirstNumber(d: string, rest: string, k: nat)
    requires k >= 1 && Atoi(d).Some? && (rest == [] || rest[0] == '.')
    ensures rest == [] ==> Numbers(d + rest, k) == Some([Atoi(d).value] + seq(k - 1, _ => 0))
    ensures rest != [] ==> Numbers(d + rest, k) == Prepended(Atoi(d).value, Numbers(rest[1..], k - 1))
  {
    var s := d + rest;
    assert IndexOf(s, '.') == |d| by {
      var i := IndexOf(s, '.');
      if i < |d| { assert IsDigit(d[i]); }
    }
    assert s[..|d|] == d;
    if rest != [] { assert s[|d| + 1..] == rest[1..]; }
  }

  lemma ReleaseIsPrefix(s: string)
    ensures Release(s) <= s
    ensures |Release(s)| < |s| ==> s[|Release(s)|] in {'+', '-'}
  {
  }

  lemma PatternTakesRelease(s: string)
    requires Numbers(Release(s), 3).Some?
    ensures Numbers(s[..CoreLength(s, 3)], 3) == Numbers(Release(s), 3)
  {
    var c := Release(s);
    ReleaseIsPrefix(s);
    assert s == c + s[|c|..];
    PatternTakesNumbers(c, s[|c|..], 3);
    assert s[..CoreLength(s, 3)] == c[..CoreLength(s, 3)];
  }

  // A tag that both readings accept has one core: the suggested tag's severity
  // is judged by the numbers it was chosen by.
  lemma ReadingsAgree(tag: string)
    requires TagStream(tag).Some? && ParseCore(tag).Some?
    ensures TagStream(tag).value.core == ParseCore(tag).value
  {
    PatternTakesRelease(DropV(TrimSpace(tag)));
  }

  // ----- severity (semver.go:19-36) -----------------------------------------------------------

  function Severity(from: string, to: string): string
  {
    var f, t := ParseCore(from), ParseCore(to);
    if f.None? || t.None? then "digest-only"
    else if f.value.major != t.value.major then "major"
    else if f.value.minor != t.value.minor then "minor"
    else if f.value.patch != t.value.patch then "patch"
    else "digest-only"
  }

  // A suggested tag is never graded digest-only when both ends can be read.
  lemma SuggestionIsGraded(current: string, tags: seq<string>, best: string)
    requires IsAnswer(current, tags, Some(best)) && ParseCore(current).Some? && ParseCore(best).Some?
    ensures Severity(current, best) in {"major", "minor", "patch"}
  {
    ReadingsAgree(current);
    ReadingsAgree(best);
  }
}
