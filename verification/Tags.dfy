// Image references and how tightly a tag pins an image (internal/detect/tagclass.go,
// internal/detect/detect.go:478-488).
module Tags {
  import opened Base
  import opened Versions

  // The last c in s, |s| when there is none.
  function LastIndexOf(s: string, c: char): (i: nat)
    ensures i <= |s| && (i < |s| ==> s[i] == c && c !in s[i + 1..])
    ensures i == |s| ==> c !in s
  {
    if s == [] then 0
    else if s[|s| - 1] == c then |s| - 1
    else
      var i := LastIndexOf(s[..|s| - 1], c);
      if i == |s| - 1 then |s| else i
  }

  // Repository and tag: what follows an @ is dropped, and the last colon counts
  // only when no slash follows it (a registry's port is not a tag).
  function SplitRef(ref: string): (string, string)
  {
    var r := ref[..IndexOf(ref, '@')];
    var colon := LastIndexOf(r, ':');
    if colon < |r| && '/' !in r[colon + 1..] then (r[..colon], r[colon + 1..]) else (r, "latest")
  }

  // A reference put together from a repository and a tag comes apart into them.
  lemma SplitRefRoundTrip(repo: string, tag: string)
    requires '@' !in repo && '@' !in tag && ':' !in tag && '/' !in tag
    ensures SplitRef(repo + ":" + tag) == (repo, tag)
  {
    var ref := repo + ":" + tag;
    var at := IndexOf(ref, '@');
    assert at == |ref| && ref[..at] == ref;
    LastIndexIs(repo, ':', tag);
    assert ref[..at][..|repo|] == repo && ref[..at][|repo| + 1..] == tag;
  }

  lemma {:induction false} LastIndexIs(a: string, c: char, b: string)
    requires c !in b
    ensures LastIndexOf(a + [c] + b, c) == |a|
  {
    var s := a + [c] + b;
    if b != [] {
      assert s[..|s| - 1] == a + [c] + b[..|b| - 1];
      LastIndexIs(a, c, b[..|b| - 1]);
    }
  }

  // ^v?\d+\.\d+\.\d+(?:[-+].*)?$
  predicate ExactSemver(s: string)
  {
    var a := DropV(s);
    var i := LeadingDigits(a);
    && 0 < i < |a| && a[i] == '.'
    && var b := a[i + 1..];
    var j := LeadingDigits(b);
    && 0 < j < |b| && b[j] == '.'
    && var c := b[j + 1..];
    var k := LeadingDigits(c);
    && 0 < k && (k == |c| || (c[k] in {'-', '+'} && '\n' !in c[k..]))
  }

  datatype TagClass = Floating | Exact | Digest

  predicate HasAt(s: string, sub: string, i: nat) { i + |sub| <= |s| && s[i..i + |sub|] == sub }

  predicate Contains(s: string, sub: string) { exists i :: 0 <= i <= |s| && HasAt(s, sub, i) }

  function ClassifyTag(ref: string): TagClass
  {
    if Contains(ref, "@sha256:") then Digest
    else if ExactSemver(SplitRef(ref).1) then Exact
    else Floating
  }

  // A stable release tag: X.Y.Z with an optional v, nothing behind it.
  predicate Stable(t: string) { ExactSemver(t) && '-' !in t && '+' !in t && ParseCore(t).Some? }

  predicate IsLetter(c: char) { 'a' <= c <= 'z' || 'A' <= c <= 'Z' }

  function NameLength(s: string): (n: nat)
    ensures n <= |s|
  {
    if s == [] || !(IsLetter(s[0]) || IsDigit(s[0])) then 0 else 1 + NameLength(s[1..])
  }

  // ^[A-Za-z][A-Za-z0-9]*-(v?\d.*)$
  function StripNamePrefix(s: string): string
  {
    var t := TrimSpace(s);
    var n := NameLength(t);
    if 0 < n < |t| && IsLetter(t[0]) && t[n] == '-' && LeadingDigits(DropV(t[n + 1..])) > 0 && '\n' !in t[n + 1..]
    then t[n + 1..] else s
  }

  // Whether a tag found by digest corrects the label: it does unless the label
  // already names the same version.
  function PreferDigestTag(tag: string, version: string): bool
  {
    var lc := ParseCore(StripNamePrefix(version));
    lc.None? || lc.value != (if ParseCore(tag).Some? then ParseCore(tag).value else Core(0, 0, 0))
  }
}
