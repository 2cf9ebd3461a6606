/**
 Go strings as byte sequences, decoded front to back the way `range` and the
 `unicode/utf8` package do: a well-formed sequence (section 4 of RFC 3629) is one
 rune, and every byte that starts no well-formed sequence is a rune of width one
 (U+FFFD). Everything the renderer does to text cuts such a sequence somewhere; the
 notion that makes cuts safe is `Boundary`.
 */
module Utf8 {

  type byte = b: int | 0 <= b < 256
  type bytes = seq<byte>

  const RUNE_ERROR := 0xFFFD
  const NEWLINE: byte := 10
  const SPACE: byte := 32

  predicate IsContinuation(b: byte) { 0x80 <= b < 0xC0 }

  /** `utf8.RuneStart`. */
  predicate RuneStart(b: byte) { !IsContinuation(b) }

  /** Width of the well-formed sequence at the front of `s`, zero when there is none. */
  function WellFormedWidth(s: bytes): (w: nat)
    requires s != []
    ensures w <= 4 && w <= |s|
  {
    var b := s[0];
    if b < 0x80 then 1
    else if 0xC2 <= b < 0xE0 then
      if |s| >= 2 && IsContinuation(s[1]) then 2 else 0
    else if 0xE0 <= b < 0xF0 then
      if |s| >= 3 && IsContinuation(s[1]) && IsContinuation(s[2])
         && (b == 0xE0 ==> s[1] >= 0xA0) && (b == 0xED ==> s[1] < 0xA0) then 3 else 0
    else if 0xF0 <= b < 0xF5 then
      if |s| >= 4 && IsContinuation(s[1]) && IsContinuation(s[2]) && IsContinuation(s[3])
         && (b == 0xF0 ==> s[1] >= 0x90) && (b == 0xF4 ==> s[1] < 0x90) then 4 else 0
    else 0
  }

  /** Bytes consumed by decoding one rune: the width, or one byte when ill-formed. */
  function Step(s: bytes): (w: nat)
    requires s != []
    ensures 1 <= w <= 4 && w <= |s|
  {
    if WellFormedWidth(s) == 0 then 1 else WellFormedWidth(s)
  }

  /** The first rune of `s`. */
  function FirstRune(s: bytes): int
    requires s != []
  {
    match WellFormedWidth(s)
    case 0 => RUNE_ERROR
    case 1 => s[0]
    case 2 => Tail(s[0], s[1], 0xC0)
    case 3 => Tail(Tail(s[0], s[1], 0xE0), s[2], 0)
    case _ => Tail(Tail(Tail(s[0], s[1], 0xF0), s[2], 0), s[3], 0)
  }

  /** One more continuation byte of a code point. */
  function Tail(high: int, low: int, lead: int): int
  {
    (high - lead) * 64 + (low - 0x80)
  }

  /** `unicode.IsSpace`: the White_Space property. */
  predicate IsSpaceRune(r: int)
  {
    9 <= r <= 13 || r == 32 || r == 0x85 || r == 0xA0 || r == 0x1680 || 0x2000 <= r <= 0x200A
    || r == 0x2028 || r == 0x2029 || r == 0x202F || r == 0x205F || r == 0x3000
  }

  predicate StartsWithSpace(s: bytes)
  {
    s != [] && IsSpaceRune(FirstRune(s))
  }

  /** Every rune of `s` is well formed. */
  predicate Valid(s: bytes)
  {
    s == [] || (WellFormedWidth(s) > 0 && Valid(s[WellFormedWidth(s)..]))
  }

  /** The bytes of the non-space runes of `s`, in order: what a cut or a join must not lose. */
  function Content(s: bytes): bytes
  {
    if s == [] then [] else Head(s) + Content(s[Step(s)..])
  }

  /** Offset `i` falls between two runes of `s`. */
  predicate Boundary(s: bytes, i: nat)
  {
    i == 0 || (s != [] && i >= Step(s) && Boundary(s[Step(s)..], i - Step(s)))
  }

  /** Decoding looks only at the bytes it consumes. */
  lemma DecodeIsLocal(s: bytes, t: bytes)
    requires s != [] && Step(s) <= |t| <= |s| && t == s[..|t|]
    ensures Step(t) == Step(s) && FirstRune(t) == FirstRune(s)
    ensures WellFormedWidth(t) == WellFormedWidth(s)
  {
  }

  lemma {:induction false} BoundaryInRange(s: bytes, i: nat)
    requires Boundary(s, i)
    ensures i <= |s|
    decreases |s|
  {
    if i > 0 { BoundaryInRange(s[Step(s)..], i - Step(s)); }
  }

  lemma {:induction false} EndIsBoundary(s: bytes)
    ensures Boundary(s, |s|)
    decreases |s|
  {
    if s != [] { EndIsBoundary(s[Step(s)..]); }
  }

  /** Rune-start bytes are boundaries, even in ill-formed text. */
  lemma {:induction false} RuneStartIsBoundary(s: bytes, i: nat)
    requires i < |s| && RuneStart(s[i])
    ensures Boundary(s, i)
    decreases |s|
  {
    if i > 0 {
      assert i >= Step(s);
      if i > Step(s) { RuneStartIsBoundary(s[Step(s)..], i - Step(s)); }
    }
  }

  /** Cutting at or past the first rune leaves that rune alone. */
  lemma CutStep(s: bytes, i: nat)
    requires s != [] && Step(s) <= i <= |s|
    ensures Step(s[..i]) == Step(s) && WellFormedWidth(s[..i]) == WellFormedWidth(s)
    ensures StartsWithSpace(s[..i]) == StartsWithSpace(s)
    ensures s[..i][..Step(s)] == s[..Step(s)]
    ensures s[..i][Step(s)..] == s[Step(s)..][..i - Step(s)]
    ensures s[Step(s)..][i - Step(s)..] == s[i..]
  {
    DecodeIsLocal(s, s[..i]);
  }

  /** What the first rune contributes to the content. */
  function Head(s: bytes): bytes
    requires s != []
  {
    if StartsWithSpace(s) then [] else s[..Step(s)]
  }

  lemma ContentUnfold(s: bytes)
    requires s != []
    ensures Content(s) == Head(s) + Content(s[Step(s)..])
  {
  }

  /** A boundary cut loses no content. */
  lemma {:induction false} CutAtBoundary(s: bytes, i: nat)
    requires Boundary(s, i)
    ensures i <= |s|
    ensures Content(s) == Content(s[..i]) + Content(s[i..])
    decreases |s|
  {
    BoundaryInRange(s, i);
    if i == 0 {
      assert s[0..] == s;
    } else {
      var w := Step(s);
      CutStep(s, i);
      CutAtBoundary(s[w..], i - w);
      ContentUnfold(s);
      ContentUnfold(s[..i]);
    }
  }

  /** Both halves of valid text cut at a boundary are valid. */
  lemma {:induction false} CutValid(s: bytes, i: nat)
    requires Boundary(s, i) && Valid(s)
    ensures i <= |s| && Valid(s[..i]) && Valid(s[i..])
    decreases |s|
  {
    BoundaryInRange(s, i);
    if i == 0 {
      assert s[0..] == s;
    } else {
      CutStep(s, i);
      CutValid(s[Step(s)..], i - Step(s));
    }
  }

  /** Where `a` ends is a boundary of `a + b` if `b` starts a rune or `a` is valid. */
  lemma {:induction false} JoinIsBoundary(a: bytes, b: bytes)
    requires b == [] || RuneStart(b[0]) || Valid(a)
    ensures Boundary(a + b, |a|)
    decreases |a|
  {
    if b == [] {
      assert a + b == a;
      EndIsBoundary(a);
    } else if RuneStart(b[0]) {
      RuneStartIsBoundary(a + b, |a|);
    } else if a != [] {
      assert (a + b)[..|a|] == a;
      assert WellFormedWidth(a + b) == WellFormedWidth(a);
      assert (a + b)[Step(a)..] == a[Step(a)..] + b;
      JoinIsBoundary(a[Step(a)..], b);
    }
  }

  lemma {:induction false} ContentOfJoin(a: bytes, b: bytes)
    requires b == [] || RuneStart(b[0]) || Valid(a)
    ensures Content(a + b) == Content(a) + Content(b)
  {
    JoinIsBoundary(a, b);
    CutAtBoundary(a + b, |a|);
    assert (a + b)[..|a|] == a && (a + b)[|a|..] == b;
  }

  lemma {:induction false} ValidJoin(a: bytes, b: bytes)
    requires Valid(a) && Valid(b)
    ensures Valid(a + b)
    decreases |a|
  {
    if a == [] {
      assert a + b == b;
    } else {
      assert (a + b)[..|a|] == a;
      assert WellFormedWidth(a + b) == WellFormedWidth(a);
      assert (a + b)[Step(a)..] == a[Step(a)..] + b;
      ValidJoin(a[Step(a)..], b);
    }
  }

  /** Every cut into a run of continuation bytes is a boundary. */
  lemma {:induction false} TailBoundary(s: bytes, i: nat)
    requires i <= |s| && forall k :: 0 <= k < i ==> IsContinuation(s[k])
    ensures Boundary(s, i)
    decreases i
  {
    if i > 0 { TailBoundary(s[1..], i - 1); }
  }
}
