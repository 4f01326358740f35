// The compose file on disk: the one-line rewrite of an image reference
// (internal/compose/rewrite.go:84-95), the atomic write, and the snapshot blob
// that carries the previous text through JSON (internal/job/worker.go:625-633).
module ComposeFile {
  import opened Base
  import opened Utf8

  const NEWLINE: Byte := 10

  // ----- lines -------------------------------------------------------------------

  function Split(s: Bytes): (lines: seq<Bytes>)
    ensures |lines| >= 1
    ensures forall i :: 0 <= i < |lines| ==> NEWLINE !in lines[i]
  {
    if s == [] then [[]]
    else
      var rest := Split(s[1..]);
      if s[0] == NEWLINE then [[]] + rest else [[s[0]] + rest[0]] + rest[1..]
  }

  function Join(lines: seq<Bytes>): Bytes
    requires |lines| >= 1
  {
    if |lines| == 1 then lines[0] else lines[0] + [NEWLINE] + Join(lines[1..])
  }

  lemma {:induction false} JoinSplit(s: Bytes)
    ensures Join(Split(s)) == s
  {
    if s != [] {
      JoinSplit(s[1..]);
      var rest := Split(s[1..]);
      assert s == [s[0]] + s[1..];
      if s[0] == NEWLINE {
        assert Split(s)[1..] == rest;
      } else {
        assert Split(s)[1..] == rest[1..];
      }
    }
  }

  lemma {:induction false} SplitAt(a: Bytes, b: Bytes)
    requires NEWLINE !in a
    ensures Split(a + [NEWLINE] + b) == [a] + Split(b)
    ensures Split(a) == [a]
  {
    var s := a + [NEWLINE] + b;
    if a == [] {
      assert s[1..] == b;
    } else {
      SplitAt(a[1..], b);
      assert s[1..] == a[1..] + [NEWLINE] + b;
      assert a == [a[0]] + a[1..];
    }
  }

  lemma {:induction false} SplitJoin(lines: seq<Bytes>)
    requires |lines| >= 1 && forall i :: 0 <= i < |lines| ==> NEWLINE !in lines[i]
    ensures Split(Join(lines)) == lines
  {
    if |lines| == 1 {
      SplitAt(lines[0], []);
    } else {
      SplitJoin(lines[1..]);
      SplitAt(lines[0], Join(lines[1..]));
    }
  }

  // s with the n bytes at the given place replaced.
  function Splice(s: Bytes, at: nat, n: nat, middle: Bytes): Bytes
    requires at + n <= |s|
  {
    s[..at] + middle + s[at + n..]
  }

  // How many bytes come before line i.
  function Offset(lines: seq<Bytes>, i: nat): nat
    requires i < |lines|
  {
    if i == 0 then 0 else |lines[0]| + 1 + Offset(lines[1..], i - 1)
  }

  // Changing one line changes those bytes of the text and no others.
  lemma {:induction false} JoinUpdated(lines: seq<Bytes>, i: nat, line: Bytes)
    requires i < |lines|
    ensures Offset(lines, i) + |lines[i]| <= |Join(lines)|
    ensures Join(lines)[Offset(lines, i)..Offset(lines, i) + |lines[i]|] == lines[i]
    ensures Join(lines[i := line]) == Splice(Join(lines), Offset(lines, i), |lines[i]|, line)
  {
    if i == 0 {
      assert lines[0 := line][1..] == lines[1..];
    } else {
      JoinUpdated(lines[1..], i - 1, line);
      JoinUpdatedBehind(lines, i, line);
    }
  }

  lemma JoinUpdatedBehind(lines: seq<Bytes>, i: nat, line: Bytes)
    requires 0 < i < |lines|
    requires var tail, o := lines[1..], Offset(lines[1..], i - 1);
             && o + |lines[i]| <= |Join(tail)| && Join(tail)[o..o + |lines[i]|] == lines[i]
             && Join(tail[i - 1 := line]) == Splice(Join(tail), o, |lines[i]|, line)
    ensures Offset(lines, i) + |lines[i]| <= |Join(lines)|
    ensures Join(lines)[Offset(lines, i)..Offset(lines, i) + |lines[i]|] == lines[i]
    ensures Join(lines[i := line]) == Splice(Join(lines), Offset(lines, i), |lines[i]|, line)
  {
    hide Splice;
    var head, tail := lines[0] + [NEWLINE], lines[1..];
    assert lines[i := line][1..] == tail[i - 1 := line];
    Behind(head, Join(tail), Offset(tail, i - 1), |lines[i]|, line);
  }

  // Splicing behind a common head.
  lemma Behind(head: Bytes, tail: Bytes, o: nat, n: nat, middle: Bytes)
    requires o + n <= |tail|
    ensures (head + tail)[|head| + o..|head| + o + n] == tail[o..o + n]
    ensures Splice(head + tail, |head| + o, n, middle) == head + Splice(tail, o, n, middle)
  {
    assert (head + tail)[..|head| + o] == head + tail[..o];
    assert (head + tail)[|head| + o + n..] == tail[o + n..];
  }

  // ----- the rewrite -----------------------------------------------------------------

  predicate At(s: Bytes, p: nat, ref: Bytes) { p + |ref| <= |s| && s[p..p + |ref|] == ref }

  // The first place where ref occurs in s, |s| + 1 when it does not.
  function Find(s: Bytes, ref: Bytes, from: nat): (p: nat)
    requires from <= |s| + 1
    ensures from <= p <= |s| + 1
    ensures p <= |s| ==> At(s, p, ref)
    ensures forall k :: from <= k < p ==> !At(s, k, ref)
    decreases |s| + 1 - from
  {
    if from == |s| + 1 || At(s, from, ref) then from else Find(s, ref, from + 1)
  }

  predicate Contains(s: Bytes, ref: Bytes) { Find(s, ref, 0) <= |s| }

  // Where in the text the rewrite puts the new reference.
  function Site(content: Bytes, oldRef: Bytes, line: int): nat
    requires 1 <= line <= |Split(content)|
  {
    Offset(Split(content), line - 1) + Find(Split(content)[line - 1], oldRef, 0)
  }

  // line counts from 1.
  method ReplaceImageLine(content: Bytes, oldRef: Bytes, newRef: Bytes, line: int) returns (r: Result<Bytes>)
    ensures r.Ok? <==> 1 <= line <= |Split(content)| && Contains(Split(content)[line - 1], oldRef)
    ensures r.Ok? ==>
              var q := Site(content, oldRef, line);
              && At(content, q, oldRef)
              && r.value == Splice(content, q, |oldRef|, newRef)
    ensures r.Ok? && NEWLINE !in newRef ==>
              && |Split(r.value)| == |Split(content)|
              && forall k :: 0 <= k < |Split(content)| && k != line - 1 ==> Split(r.value)[k] == Split(content)[k]
  {
    var lines := Split(content);
    if line < 1 || line > |lines| { return Err; }
    var i := line - 1;
    var p := Find(lines[i], oldRef, 0);
    if p > |lines[i]| { return Err; }
    var edited := Splice(lines[i], p, |oldRef|, newRef);
    JoinSplit(content);
    Rewritten(content, lines, i, p, oldRef, newRef, edited);
    lines := lines[i := edited];
    r := Ok(Join(lines));
  }

  lemma Rewritten(content: Bytes, lines: seq<Bytes>, i: nat, p: nat, oldRef: Bytes, newRef: Bytes, edited: Bytes)
    requires i < |lines| && content == Join(lines) && forall k :: 0 <= k < |lines| ==> NEWLINE !in lines[k]
    requires At(lines[i], p, oldRef) && edited == Splice(lines[i], p, |oldRef|, newRef)
    ensures At(content, Offset(lines, i) + p, oldRef)
    ensures Join(lines[i := edited]) == Splice(content, Offset(lines, i) + p, |oldRef|, newRef)
    ensures NEWLINE !in newRef ==> Split(Join(lines[i := edited])) == lines[i := edited]
  {
    hide Join, Offset, Split, Splice;
    Spliced(content, lines, i, lines[i], p, |oldRef|, newRef);
    if NEWLINE !in newRef { StillLines(lines, i, p, |oldRef|, newRef); }
  }

  // The other lines stay when the new reference brings no newline.
  lemma StillLines(lines: seq<Bytes>, i: nat, p: nat, n: nat, newRef: Bytes)
    requires forall k :: 0 <= k < |lines| ==> NEWLINE !in lines[k]
    requires i < |lines| && p + n <= |lines[i]| && NEWLINE !in newRef
    ensures Split(Join(lines[i := Splice(lines[i], p, n, newRef)])) == lines[i := Splice(lines[i], p, n, newRef)]
  {
    assert NEWLINE !in Splice(lines[i], p, n, newRef);
    SplitJoin(lines[i := Splice(lines[i], p, n, newRef)]);
  }

  // Splicing line i of a text at p is splicing the text at the line's offset plus p.
  lemma Spliced(content: Bytes, lines: seq<Bytes>, i: nat, line: Bytes, p: nat, n: nat, newRef: Bytes)
    requires i < |lines| && content == Join(lines) && line == lines[i] && p + n <= |line|
    ensures Offset(lines, i) + p + n <= |content|
    ensures content[Offset(lines, i) + p..Offset(lines, i) + p + n] == line[p..p + n]
    ensures Join(lines[i := Splice(line, p, n, newRef)]) == Splice(content, Offset(lines, i) + p, n, newRef)
  {
    hide Join, Offset, Splice;
    JoinUpdated(lines, i, Splice(line, p, n, newRef));
    SpliceLine(content, Offset(lines, i), line, p, n, newRef);
  }

  lemma SliceOfSlice(s: Bytes, a: nat, b: nat, c: nat, d: nat)
    requires a <= b <= |s| && c <= d <= b - a
    ensures s[a..b][c..d] == s[a + c..a + d]
  {
    forall k | 0 <= k < d - c ensures s[a..b][c..d][k] == s[a + c..a + d][k] {}
  }

  // Splicing within a line is splicing within the text that holds it.
  lemma SpliceLine(content: Bytes, o: nat, line: Bytes, p: nat, n: nat, newRef: Bytes)
    requires o + |line| <= |content| && content[o..o + |line|] == line && p + n <= |line|
    ensures Splice(content, o, |line|, Splice(line, p, n, newRef)) == Splice(content, o + p, n, newRef)
    ensures content[o + p..o + p + n] == line[p..p + n]
  {
    var e := o + |line|;
    SliceOfSlice(content, o, e, 0, p);
    SliceOfSlice(content, o, e, p, p + n);
    SliceOfSlice(content, o, e, p + n, |line|);
    assert line[..p] == content[o..o + p] && line[p + n..] == content[o + p + n..e];
    assert content[..o] + content[o..o + p] == content[..o + p];
    assert content[o + p + n..e] + content[e..] == content[o + p + n..];
  }

  // ----- files -------------------------------------------------------------------------

  type Files = map<Bytes, Bytes>

  // The temporary file is renamed over the path only after everything else
  // worked: either all of the new content is there or none of it.
  function WriteFileAtomic(files: Files, path: Bytes, content: Bytes, ok: bool): Files
  {
    if ok then files[path := content] else files
  }

  // ----- the blob ------------------------------------------------------------------------

  type Text = seq<Rune>

  const QUOTE: Rune := 0x22
  const BACKSLASH: Rune := 0x5C
  const LETTER_U: Rune := 0x75

  function Hex(d: int): Rune
    requires 0 <= d < 16
  {
    if d < 10 then 0x30 + d else 0x61 + (d - 10)
  }

  // The value of a hexadecimal digit in either case, 16 for anything else.
  function HexValue(r: Rune): (d: int)
    ensures 0 <= d <= 16
  {
    if 0x30 <= r <= 0x39 then r - 0x30
    else if 0x61 <= r <= 0x66 then r - 0x61 + 10
    else if 0x41 <= r <= 0x46 then r - 0x41 + 10
    else 16
  }

  function Escaped(r: Rune): Text
    requires r < 0x10000
  {
    [BACKSLASH, LETTER_U, Hex(r / 16 / 16 / 16), Hex(r / 16 / 16 % 16), Hex(r / 16 % 16), Hex(r % 16)]
  }

  // What json.Marshal writes for one character: HTML's special characters and
  // the two line separators are escaped as well.
  function Quoted(r: Rune): Text
  {
    if r == QUOTE || r == BACKSLASH then [BACKSLASH, r]
    else if r == 0x08 then [BACKSLASH, 0x62]
    else if r == 0x0C then [BACKSLASH, 0x66]
    else if r == 0x0A then [BACKSLASH, 0x6E]
    else if r == 0x0D then [BACKSLASH, 0x72]
    else if r == 0x09 then [BACKSLASH, 0x74]
    else if r < 0x20 || r == 0x3C || r == 0x3E || r == 0x26 || r == 0x2028 || r == 0x2029 then Escaped(r)
    else [r]
  }

  // A byte that is not part of a well-formed character becomes \ufffd.
  function Quote(s: Bytes): Text
    decreases |s|
  {
    if s == [] then []
    else if Width(s) == 0 then Escaped(REPLACEMENT) + Quote(s[1..])
    else Quoted(First(s)) + Quote(s[Width(s)..])
  }

  // Reads one character of a JSON string: it and the number of characters of
  // the text it took; None ends or rejects.
  function ReadOne(t: Text): (r: Option<(Rune, nat)>)
    ensures r.Some? ==> 1 <= r.value.1 <= |t| && t[0] != QUOTE
  {
    if t == [] || t[0] == QUOTE || t[0] < 0x20 then None
    else if t[0] != BACKSLASH then Some((t[0], 1))
    else if |t| < 2 then None
    else if t[1] in {QUOTE, BACKSLASH, 0x2F} then Some((t[1], 2))
    else if t[1] == 0x62 then Some((0x08, 2))
    else if t[1] == 0x66 then Some((0x0C, 2))
    else if t[1] == 0x6E then Some((0x0A, 2))
    else if t[1] == 0x72 then Some((0x0D, 2))
    else if t[1] == 0x74 then Some((0x09, 2))
    else if t[1] == LETTER_U && |t| >= 6 && HexValue(t[2]) < 16 && HexValue(t[3]) < 16 && HexValue(t[4]) < 16 && HexValue(t[5]) < 16 then
      var code := ((HexValue(t[2]) * 16 + HexValue(t[3])) * 16 + HexValue(t[4])) * 16 + HexValue(t[5]);
      Some((if 0xD800 <= code < 0xE000 then REPLACEMENT else code, 6))
    else None
  }

  // The string up to its closing quote, and what follows the quote.
  function ReadString(t: Text): (r: Option<(Text, Text)>)
    ensures r.Some? ==> |r.value.1| < |t|
    decreases |t|
  {
    if t != [] && t[0] == QUOTE then Some(([], t[1..]))
    else
      var c := ReadOne(t);
      if c.None? then None
      else
        var rest := ReadString(t[c.value.1..]);
        if rest.None? then None else Some(([c.value.0] + rest.value.0, rest.value.1))
  }

  lemma ReadEscaped(r: Rune, rest: Text)
    requires r < 0x10000
    ensures ReadOne(Escaped(r) + rest) == Some((r, 6))
  {
    var a: int, b: int, c: int := r / 16, r / 16 / 16, r / 16 / 16 / 16;
    assert r == a * 16 + r % 16 && a == b * 16 + a % 16 && b == c * 16 + b % 16;
    var t := Escaped(r) + rest;
    assert HexValue(t[2]) == c && HexValue(t[3]) == b % 16 && HexValue(t[4]) == a % 16 && HexValue(t[5]) == r % 16;
  }

  lemma ReadQuoted(r: Rune, rest: Text)
    ensures ReadOne(Quoted(r) + rest) == Some((r, |Quoted(r)|))
  {
    if r < 0x10000 { ReadEscaped(r, rest); }
  }

  lemma ReadStep(head: Text, r: Rune, more: Text, rs: Text, rest: Text)
    requires head != [] && ReadOne(head + more) == Some((r, |head|)) && ReadString(more) == Some((rs, rest))
    ensures ReadString(head + more) == Some(([r] + rs, rest))
  {
    hide ReadOne;
    assert (head + more)[|head|..] == more;
  }

  lemma ReadEnd(rest: Text)
    ensures ReadString([QUOTE] + rest) == Some(([], rest))
  {
    assert ([QUOTE] + rest)[1..] == rest;
  }

  // The first character of s: its width, and what Quote writes for it before
  // the rest of the string.
  lemma QuoteFirst(s: Bytes, rest: Text) returns (w: nat, r: Rune, head: Text)
    requires s != []
    ensures 0 < w <= |s| && Runes(s) == [r] + Runes(s[w..])
    ensures head != [] && Quote(s) == head + Quote(s[w..])
    ensures ReadOne(head + (Quote(s[w..]) + [QUOTE] + rest)) == Some((r, |head|))
  {
    if Width(s) == 0 {
      w, r, head := 1, REPLACEMENT, Escaped(REPLACEMENT);
      ReadEscaped(r, Quote(s[w..]) + [QUOTE] + rest);
    } else {
      w, r, head := Width(s), First(s), Quoted(First(s));
      ReadQuoted(r, Quote(s[w..]) + [QUOTE] + rest);
    }
  }

  // Whatever the bytes, reading back what was quoted gives their characters.
  lemma {:induction false} QuoteRoundTrip(s: Bytes, rest: Text)
    ensures ReadString(Quote(s) + [QUOTE] + rest) == Some((Runes(s), rest))
    decreases |s|
  {
    if s == [] {
      ReadEnd(rest);
      assert Quote(s) + [QUOTE] + rest == [QUOTE] + rest;
    } else {
      QuoteRoundTripMore(s, rest);
    }
  }

  lemma {:induction false} QuoteRoundTripMore(s: Bytes, rest: Text)
    requires s != []
    ensures ReadString(Quote(s) + [QUOTE] + rest) == Some((Runes(s), rest))
    decreases |s|, 0
  {
    hide ReadOne, ReadString, Quote, Runes;
    var w, r, head := QuoteFirst(s, rest);
    var more := Quote(s[w..]) + [QUOTE] + rest;
    QuoteRoundTrip(s[w..], rest);
    ReadStep(head, r, more, Runes(s[w..]), rest);
    assert Quote(s) + [QUOTE] + rest == head + more;
  }

  const OPEN: string := "{\"path\":\""
  const MIDDLE: string := ",\"content\":\""
  const CLOSE: string := "}"

  // blobJSON, worker.go:627-633.
  function Blob(path: Bytes, content: Bytes): Text
  {
    Chars(OPEN) + Quote(path) + [QUOTE] + (Chars(MIDDLE) + Quote(content) + [QUOTE] + Chars(CLOSE))
  }

  // json.Unmarshal on a blob of that layout: the path and the content.
  function ReadBlob(t: Text): Option<(Text, Text)>
  {
    var open, middle := Chars(OPEN), Chars(MIDDLE);
    if !(open <= t) then None
    else
      var path := ReadString(t[|open|..]);
      if path.None? || !(middle <= path.value.1) then None
      else
        var content := ReadString(path.value.1[|middle|..]);
        if content.None? || content.value.1 != Chars(CLOSE) then None else Some((path.value.0, content.value.0))
  }

  lemma BlobRoundTrip(path: Bytes, content: Bytes)
    ensures ReadBlob(Blob(path, content)) == Some((Runes(path), Runes(content)))
  {
    var inner := Quote(content) + [QUOTE] + Chars(CLOSE);
    var outer := Quote(path) + [QUOTE] + (Chars(MIDDLE) + inner);
    assert Blob(path, content) == Chars(OPEN) + outer by {
      assert Chars(MIDDLE) + Quote(content) + [QUOTE] + Chars(CLOSE) == Chars(MIDDLE) + inner;
    }
    QuoteRoundTrip(path, Chars(MIDDLE) + inner);
    QuoteRoundTrip(content, Chars(CLOSE));
    assert (Chars(OPEN) + outer)[|Chars(OPEN)|..] == outer;
    assert (Chars(MIDDLE) + inner)[|Chars(MIDDLE)|..] == inner;
  }

  // The files after a rollback from a snapshot that carries the blob.
  function Restored(files: Files, blob: Text, ok: bool): Files
  {
    var b := ReadBlob(blob);
    if b.Some? && b.value.0 != [] then WriteFileAtomic(files, EncodeAll(b.value.0), EncodeAll(b.value.1), ok) else files
  }

  // An apply that rewrote the file, then a rollback from that apply's snapshot:
  // every file is back byte for byte exactly when the text was well-formed
  // UTF-8 (anything else comes back with U+FFFD in place of the stray bytes).
  lemma RollbackRestoresFile(files: Files, path: Bytes, edited: Bytes)
    requires path in files && WellFormed(path) && path != []
    ensures Restored(WriteFileAtomic(files, path, edited, true), Blob(path, files[path]), true) == files[path := EncodeAll(Runes(files[path]))]
    ensures Restored(WriteFileAtomic(files, path, edited, true), Blob(path, files[path]), true) == files <==> WellFormed(files[path])
  {
    BlobRoundTrip(path, files[path]);
    Reread(path);
    Coerced(files[path]);
    var after := Restored(WriteFileAtomic(files, path, edited, true), Blob(path, files[path]), true);
    assert after == files[path := EncodeAll(Runes(files[path]))];
    assert after[path] == EncodeAll(Runes(files[path]));
  }
}
