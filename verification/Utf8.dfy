// UTF-8 as section 4 of RFC 3629 defines it, and the two operations dockbrr
// leans on: reading bytes as characters with U+FFFD for what is not well formed
// (what a JSON encoding does), and cutting a text at a character boundary.
module Utf8 {
  type Byte = b: int | 0 <= b < 256
  type Bytes = seq<Byte>

  // A Unicode scalar value.
  type Rune = r: int | 0 <= r < 0xD800 || 0xE000 <= r <= 0x10FFFF

  const REPLACEMENT: Rune := 0xFFFD

  predicate Tail(b: Byte) { 0x80 <= b <= 0xBF }

  // The second byte of a character that starts with b: RFC 3629 narrows its
  // range for the first bytes E0, ED, F0 and F4.
  predicate Second(b: Byte, c: Byte)
  {
    Tail(c) && (b == 0xE0 ==> 0xA0 <= c) && (b == 0xED ==> c <= 0x9F) && (b == 0xF0 ==> 0x90 <= c) && (b == 0xF4 ==> c <= 0x8F)
  }

  // The length of the well-formed character s starts with; 0 when it starts
  // with none.
  function Width(s: Bytes): (w: nat)
    ensures w <= |s| && w <= 4
    ensures w > 0 ==> !Tail(s[0]) && forall i :: 1 <= i < w ==> Tail(s[i])
  {
    if s == [] then 0
    else if s[0] < 0x80 then 1
    else if 0xC2 <= s[0] <= 0xDF && |s| >= 2 && Tail(s[1]) then 2
    else if 0xE0 <= s[0] <= 0xEF && |s| >= 3 && Second(s[0], s[1]) && Tail(s[2]) then 3
    else if 0xF0 <= s[0] <= 0xF4 && |s| >= 4 && Second(s[0], s[1]) && Tail(s[2]) && Tail(s[3]) then 4
    else 0
  }

  predicate WellFormed(s: Bytes)
    decreases |s|
  {
    s == [] || (Width(s) > 0 && WellFormed(s[Width(s)..]))
  }

  // ----- cutting -----------------------------------------------------------------

  // A prefix that contains the first character sees the same one.
  lemma WidthOfPrefix(s: Bytes, k: nat)
    requires Width(s) <= k <= |s| && Width(s) > 0
    ensures Width(s[..k]) == Width(s)
  {
  }

  lemma {:induction false} WellFormedConcat(a: Bytes, b: Bytes)
    requires WellFormed(a) && WellFormed(b)
    ensures WellFormed(a + b)
    decreases |a|
  {
    if a == [] {
      assert a + b == b;
    } else {
      var w := Width(a);
      WidthOfPrefix(a, w);
      assert (a + b)[..w] == a[..w] && (a + b)[w..] == a[w..] + b;
      assert Width(a + b) == w;
      WellFormedConcat(a[w..], b);
    }
  }

  // A well-formed text may be cut before any byte that is not a tail byte.
  lemma {:induction false} CutAtStart(s: Bytes, cut: nat)
    requires WellFormed(s) && cut <= |s| && (cut < |s| ==> !Tail(s[cut]))
    ensures WellFormed(s[..cut]) && WellFormed(s[cut..])
    decreases |s|
  {
    if cut == 0 {
      assert s[..cut] == [] && s[cut..] == s;
    } else {
      var w := Width(s);
      CutAtStart(s[w..], cut - w);
      WidthOfPrefix(s, cut);
      assert s[..cut][w..] == s[w..][..cut - w] && s[cut..] == s[w..][cut - w..];
    }
  }

  // Of any four consecutive bytes of a well-formed text one starts a character.
  lemma {:induction false} StartNearby(s: Bytes, cut: nat)
    requires WellFormed(s) && cut < |s|
    ensures exists i :: cut - 3 <= i <= cut && 0 <= i && !Tail(s[i])
    decreases |s|
  {
    var w := Width(s);
    if cut < w {
      assert !Tail(s[0]);
    } else {
      StartNearby(s[w..], cut - w);
      var i :| cut - w - 3 <= i <= cut - w && 0 <= i && !Tail(s[w..][i]);
      assert !Tail(s[w + i]);
    }
  }

  // ----- characters ----------------------------------------------------------------

  // The character at the start of s.
  function First(s: Bytes): (r: Rune)
    requires Width(s) > 0
  {
    var a: int, w := s[0], Width(s);
    if w == 1 then a
    else
      var b: int := s[1] - 0x80;
      if w == 2 then (a - 0xC0) * 64 + b
      else
        var c: int := s[2] - 0x80;
        if w == 3 then (a - 0xE0) * 4096 + b * 64 + c
        else
          var d: int := s[3] - 0x80;
          (a - 0xF0) * 262144 + b * 4096 + c * 64 + d
  }

  function Encode(r: Rune): (s: Bytes)
    ensures Width(s) == |s| > 0
  {
    if r < 0x80 then [r]
    else if r < 0x800 then [0xC0 + r / 64, 0x80 + r % 64]
    else if r < 0x10000 then [0xE0 + r / 64 / 64, 0x80 + r / 64 % 64, 0x80 + r % 64]
    else [0xF0 + r / 64 / 64 / 64, 0x80 + r / 64 / 64 % 64, 0x80 + r / 64 % 64, 0x80 + r % 64]
  }

  function Runes(s: Bytes): (rs: seq<Rune>)
    decreases |s|
  {
    if s == [] then []
    else if Width(s) == 0 then [REPLACEMENT] + Runes(s[1..])
    else [First(s)] + Runes(s[Width(s)..])
  }

  function EncodeAll(rs: seq<Rune>): (s: Bytes)
    ensures WellFormed(s)
  {
    if rs == [] then []
    else
      assert Encode(rs[0])[|Encode(rs[0])|..] == [];
      WellFormedConcat(Encode(rs[0]), EncodeAll(rs[1..]));
      Encode(rs[0]) + EncodeAll(rs[1..])
  }

  lemma EncodeFirst(s: Bytes)
    requires Width(s) > 0
    ensures Encode(First(s)) == s[..Width(s)]
  {
    var r: int, w := First(s), Width(s);
    if w == 2 {
      Digits(r, s[0] - 0xC0, s[1] - 0x80);
    } else if w == 3 {
      var a: int, b: int := s[0] - 0xE0, s[1] - 0x80;
      Digits(r, a * 64 + b, s[2] - 0x80);
      Digits(a * 64 + b, a, b);
      assert r >= 0x800;
      assert s[..w] == [s[0], s[1], s[2]];
    } else if w == 4 {
      var a: int, b: int, c: int := s[0] - 0xF0, s[1] - 0x80, s[2] - 0x80;
      Digits(r, a * 4096 + b * 64 + c, s[3] - 0x80);
      Digits(a * 4096 + b * 64 + c, a * 64 + b, c);
      Digits(a * 64 + b, a, b);
      assert r >= 0x10000;
      assert s[..w] == [s[0], s[1], s[2], s[3]];
    }
  }

  lemma Digits(n: int, high: int, low: int)
    requires n == high * 64 + low && 0 <= low < 64
    ensures n / 64 == high && n % 64 == low
  {
  }

  // Reading as characters and writing them out again gives the same bytes
  // exactly when the bytes were well formed.
  lemma {:induction false} Coerced(s: Bytes)
    ensures EncodeAll(Runes(s)) == s <==> WellFormed(s)
  {
    if WellFormed(s) { Reread(s); }
  }

  lemma {:induction false} Reread(s: Bytes)
    requires WellFormed(s)
    ensures EncodeAll(Runes(s)) == s
    decreases |s|
  {
    if s != [] {
      var w := Width(s);
      Reread(s[w..]);
      EncodeFirst(s);
      var rest := Runes(s[w..]);
      assert Runes(s) == [First(s)] + rest && Runes(s)[1..] == rest;
      assert EncodeAll(Runes(s)) == s[..w] + s[w..];
    }
  }

  // A text's characters, and its bytes.
  function Chars(s: string): (t: seq<Rune>)
    ensures |t| == |s|
  {
    seq(|s|, i requires 0 <= i < |s| => s[i] as int)
  }

  function BytesOf(s: string): (b: Bytes)
    ensures WellFormed(b)
  {
    EncodeAll(Chars(s))
  }
}
