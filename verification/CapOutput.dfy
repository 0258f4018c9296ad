/**
 Capping output to its two ends without splitting a character, in the two copies the
 repository has (packages/runner-core/src/redact.ts, apps/api/src/sandbox/output.ts).

 A buffer is the UTF-8 form of a string: RFC 3629, sections 3 and 4.
 */
module CapOutput {

  type Byte = b: int | 0 <= b < 256

  // (b & 0xc0) === 0x80
  predicate Continues(b: Byte) {
    0x80 <= b < 0xC0
  }

  // ---------- UTF-8, as RFC 3629 section 4 writes it ----------

  function CharLength(first: Byte): (n: nat)
    ensures n <= 4
  {
    if first < 0x80 then 1
    else if 0xC2 <= first <= 0xDF then 2
    else if 0xE0 <= first <= 0xEF then 3
    else if 0xF0 <= first <= 0xF4 then 4
    else 0
  }

  // The second byte's narrowed ranges rule out overlong forms, surrogates, and code points past U+10FFFF.
  predicate SecondByte(first: Byte, second: Byte) {
    && Continues(second)
    && (first == 0xE0 ==> 0xA0 <= second)
    && (first == 0xED ==> second <= 0x9F)
    && (first == 0xF0 ==> 0x90 <= second)
    && (first == 0xF4 ==> second <= 0x8F)
  }

  predicate IsChar(s: seq<Byte>) {
    && s != [] && CharLength(s[0]) == |s|
    && (|s| > 1 ==> SecondByte(s[0], s[1]))
    && forall i :: 1 <= i < |s| ==> Continues(s[i])
  }

  // Characters one after another; the first byte of each says how many bytes it has.
  predicate ValidUtf8(s: seq<Byte>)
    decreases |s|
  {
    s == []
    || (var n := CharLength(s[0]);
        1 <= n <= |s| && IsChar(s[..n]) && ValidUtf8(s[n..]))
  }

  lemma FirstChar(s: seq<Byte>) returns (n: nat)
    requires ValidUtf8(s) && s != []
    ensures n == CharLength(s[0]) && 1 <= n <= |s| && n <= 4 && IsChar(s[..n]) && ValidUtf8(s[n..])
    ensures !Continues(s[0]) && forall i :: 1 <= i < n ==> Continues(s[i])
    ensures n < |s| ==> !Continues(s[n])
  {
    n := CharLength(s[0]);
    forall i | 1 <= i < n
      ensures Continues(s[i])
    {
      assert s[..n][i] == s[i];
    }
    if n < |s| {
      assert s[n..][0] == s[n];
    }
  }

  predicate AtBoundary(s: seq<Byte>, p: nat)
    requires p <= |s|
  {
    p == |s| || !Continues(s[p])
  }

  lemma CharThenValid(c: seq<Byte>, rest: seq<Byte>)
    requires IsChar(c) && ValidUtf8(rest)
    ensures ValidUtf8(c + rest)
  {
    assert (c + rest)[..|c|] == c && (c + rest)[|c|..] == rest;
  }

  /** Cutting where no continuation byte stands leaves valid text on both sides. */
  lemma {:induction false} BoundaryCuts(s: seq<Byte>, p: nat)
    requires ValidUtf8(s) && p <= |s| && AtBoundary(s, p)
    ensures ValidUtf8(s[..p]) && ValidUtf8(s[p..])
    decreases |s|
  {
    if s != [] && p > 0 {
      var n := FirstChar(s);
      BoundaryCuts(s[n..], p - n);
      CharThenValid(s[..n], s[n..][..p - n]);
      assert s[..p] == s[..n] + s[n..][..p - n] && s[n..][p - n..] == s[p..];
    } else {
      assert s[..p] == [] && s[p..] == s;
    }
  }

  // And nowhere else does a cut leave valid text before it.
  lemma {:induction false} ValidFrontEndsThere(s: seq<Byte>, p: nat)
    requires ValidUtf8(s) && p <= |s| && ValidUtf8(s[..p])
    ensures AtBoundary(s, p)
    decreases |s|
  {
    if p < |s| {
      var n := FirstChar(s);
      if p > 0 {
        assert s[..p][0] == s[0];
        assert s[..p][n..] == s[n..][..p - n];
        ValidFrontEndsThere(s[n..], p - n);
      }
    }
  }

  lemma ValidBackStartsThere(s: seq<Byte>, p: nat)
    requires p <= |s| && ValidUtf8(s[p..])
    ensures AtBoundary(s, p)
  {
    if p < |s| {
      var n := FirstChar(s[p..]);
    }
  }

  /** No character has more than three continuation bytes. */
  lemma {:induction false} NoFourContinue(s: seq<Byte>, p: nat)
    requires ValidUtf8(s) && p + 4 <= |s|
    ensures exists i :: p <= i < p + 4 && !Continues(s[i])
    decreases |s|
  {
    var n := FirstChar(s);
    if p >= n {
      NoFourContinue(s[n..], p - n);
      var i :| p - n <= i < p - n + 4 && !Continues(s[n..][i]);
      assert !Continues(s[i + n]);
    } else if p == 0 {
      assert !Continues(s[0]);
    } else {
      assert !Continues(s[n]);
    }
  }

  // ---------- The boundary searches ----------

  function Before(buf: seq<Byte>, offset: nat): (o: nat)
    requires offset <= |buf|
    ensures o <= offset
    ensures forall i :: o < i <= offset && i < |buf| ==> Continues(buf[i])
    ensures o == 0 || AtBoundary(buf, o)
  {
    if offset > 0 && offset < |buf| && Continues(buf[offset]) then Before(buf, offset - 1) else offset
  }

  function AtOrAfter(buf: seq<Byte>, offset: nat): (o: nat)
    requires offset <= |buf|
    ensures offset <= o <= |buf| && AtBoundary(buf, o)
    ensures forall i :: offset <= i < o ==> Continues(buf[i])
    decreases |buf| - offset
  {
    if offset < |buf| && Continues(buf[offset]) then AtOrAfter(buf, offset + 1) else offset
  }

  /** In valid text a search moves at most three bytes, and stops on a boundary. */
  lemma SearchesAreShort(buf: seq<Byte>, offset: nat)
    requires ValidUtf8(buf) && offset <= |buf|
    ensures AtBoundary(buf, Before(buf, offset)) && offset - Before(buf, offset) <= 3
    ensures AtOrAfter(buf, offset) - offset <= 3
  {
    var back, on := Before(buf, offset), AtOrAfter(buf, offset);
    if buf != [] {
      var n := FirstChar(buf);
    }
    if offset - back > 3 {
      NoFourContinue(buf, back + 1);
      assert false;
    }
    if on - offset > 3 {
      NoFourContinue(buf, offset);
      assert false;
    }
  }

  method RunnerBoundaryBefore(buf: seq<Byte>, offset: nat) returns (o: nat)
    requires offset <= |buf|
    ensures o == Before(buf, offset)
  {
    o := offset;
    while o > 0 && o < |buf| && Continues(buf[o])
      invariant o <= offset && Before(buf, o) == Before(buf, offset)
    {
      o := o - 1;
    }
  }

  // The sandbox copy reads a byte past the end as zero, which continues nothing.
  method SandboxBoundaryBefore(buf: seq<Byte>, index: nat) returns (i: nat)
    requires index <= |buf|
    ensures i == Before(buf, index)
  {
    i := index;
    while i > 0 && Continues(if i < |buf| then buf[i] else 0)
      invariant i <= index && Before(buf, i) == Before(buf, index)
    {
      i := i - 1;
    }
  }

  method BoundaryAtOrAfter(buf: seq<Byte>, offset: nat) returns (o: nat)
    requires offset <= |buf|
    ensures o == AtOrAfter(buf, offset)
  {
    o := offset;
    while o < |buf| && Continues(buf[o])
      invariant offset <= o <= |buf| && AtOrAfter(buf, o) == AtOrAfter(buf, offset)
      decreases |buf| - o
    {
      o := o + 1;
    }
  }

  // ---------- capOutput ----------

  // The text as it was, or its two ends around a note of how many bytes went.
  datatype Capped = Whole(text: seq<Byte>) | Cut(head: seq<Byte>, elided: nat, tail: seq<Byte>)

  method RunnerCap(buf: seq<Byte>, maxBytes: nat) returns (capped: Capped)
    ensures capped == CapOf(buf, maxBytes)
  {
    if |buf| <= maxBytes {
      return Whole(buf);
    }
    var half := maxBytes / 2;
    var h := RunnerBoundaryBefore(buf, half);
    var t := BoundaryAtOrAfter(buf, |buf| - half);
    return Cut(buf[..h], |buf| - maxBytes, buf[t..]);
  }

  method SandboxCap(buf: seq<Byte>, maxBytes: nat) returns (capped: Capped, truncated: bool)
    ensures capped == CapOf(buf, maxBytes) && truncated == capped.Cut?
  {
    if |buf| <= maxBytes {
      return Whole(buf), false;
    }
    var half := maxBytes / 2;
    var h := SandboxBoundaryBefore(buf, half);
    var t := BoundaryAtOrAfter(buf, |buf| - half);
    return Cut(buf[..h], |buf| - maxBytes, buf[t..]), true;
  }

  function CapOf(buf: seq<Byte>, maxBytes: nat): Capped {
    if |buf| <= maxBytes then Whole(buf)
    else Cut(buf[..Before(buf, maxBytes / 2)], |buf| - maxBytes, buf[AtOrAfter(buf, |buf| - maxBytes / 2)..])
  }

  // Where the two cuts fall.
  lemma CutsFall(buf: seq<Byte>, maxBytes: nat, h: nat, t: nat)
    requires ValidUtf8(buf) && |buf| > maxBytes
    requires h == Before(buf, maxBytes / 2) && t == AtOrAfter(buf, |buf| - maxBytes / 2)
    ensures h <= t <= |buf| && h + (|buf| - t) <= maxBytes
    ensures |buf| - maxBytes <= t - h <= |buf| - maxBytes + 7
    ensures ValidUtf8(buf[..h]) && ValidUtf8(buf[t..])
  {
    SearchesAreShort(buf, maxBytes / 2);
    SearchesAreShort(buf, |buf| - maxBytes / 2);
    BoundaryCuts(buf, h);
    BoundaryCuts(buf, t);
  }

  // No longer valid head, and no longer valid tail, fits its half of the limit.
  ghost predicate LongestEnds(buf: seq<Byte>, half: nat, head: seq<Byte>, tail: seq<Byte>) {
    && |head| <= half && |tail| <= half <= |buf|
    && (forall h :: |head| < h <= half ==> !ValidUtf8(buf[..h]))
    && (forall t :: |buf| - half <= t < |buf| - |tail| ==> !ValidUtf8(buf[t..]))
  }

  lemma EndsAreLongest(buf: seq<Byte>, half: nat)
    requires ValidUtf8(buf) && half <= |buf|
    ensures LongestEnds(buf, half, buf[..Before(buf, half)], buf[AtOrAfter(buf, |buf| - half)..])
  {
    var h0, t0 := Before(buf, half), AtOrAfter(buf, |buf| - half);
    forall h | h0 < h <= half
      ensures !ValidUtf8(buf[..h])
    {
      if ValidUtf8(buf[..h]) {
        ValidFrontEndsThere(buf, h);
      }
    }
    forall t | |buf| - half <= t < t0
      ensures !ValidUtf8(buf[t..])
    {
      if ValidUtf8(buf[t..]) {
        ValidBackStartsThere(buf, t);
      }
    }
  }

  /** A cut keeps a head and a tail of the text that are each valid and never overlap, each the longest of that kind in
      its half of the limit. The number printed is the bytes past the limit; those really gone are at least as many,
      and at most seven more. */
  lemma CutKeepsBothEnds(buf: seq<Byte>, maxBytes: nat)
    requires ValidUtf8(buf)
    ensures |buf| <= maxBytes ==> CapOf(buf, maxBytes) == Whole(buf)
    ensures |buf| > maxBytes ==> var c := CapOf(buf, maxBytes);
      && c.Cut? && ValidUtf8(c.head) && ValidUtf8(c.tail)
      && |c.head| + |c.tail| <= maxBytes < |buf|
      && c.head == buf[..|c.head|] && c.tail == buf[|buf| - |c.tail|..]
      && LongestEnds(buf, maxBytes / 2, c.head, c.tail)
      && c.elided == |buf| - maxBytes && c.elided <= |buf| - |c.head| - |c.tail| <= c.elided + 7
  {
    if |buf| > maxBytes {
      var half := maxBytes / 2;
      EndsAreLongest(buf, half);
      CutsFall(buf, maxBytes, Before(buf, half), AtOrAfter(buf, |buf| - half));
    }
  }

  predicate LosesSevenMore(buf: seq<Byte>, c: Capped) {
    c.Cut? && |buf| - |c.head| - |c.tail| == c.elided + 7
  }

  /** Seven more is reached: both searches move three bytes, and the limit is odd. */
  lemma SevenMoreIsReached()
    ensures exists buf: seq<Byte>, maxBytes: nat :: ValidUtf8(buf) && LosesSevenMore(buf, CapOf(buf, maxBytes))
  {
    var face: seq<Byte> := [0xF0, 0x9F, 0x98, 0x80];
    var buf := face + face;
    assert face[..4] == face && face[4..] == [] && IsChar(face) && ValidUtf8(face);
    assert buf[..4] == face && buf[4..] == face && ValidUtf8(buf);
    var c := CapOf(buf, 7);
    assert Before(buf, 3) == 0 && AtOrAfter(buf, 5) == 8 by {
      assert Before(buf, 0) == 0 && Before(buf, 1) == 0 && Before(buf, 2) == 0;
      assert AtOrAfter(buf, 8) == 8 && AtOrAfter(buf, 7) == 8 && AtOrAfter(buf, 6) == 8;
    }
    assert ValidUtf8(buf) && LosesSevenMore(buf, c);
  }
}
