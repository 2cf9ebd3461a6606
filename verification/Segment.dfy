/**
 Text segmentation of the batch renderer (internal/render/text.go): blank-line
 paragraphs, whitespace normalisation, greedy packing under a byte cap, and the
 sentence-then-rune hard split of a paragraph that is too long.
 */
module Segment {
  import opened Utf8
  import opened GoStrings
  import opened Seqs

  const DEFAULT_MAX_SEGMENT_CHARS := 1500

  function EffectiveCap(maxChars: int): (cap: nat)
    ensures cap >= 1
  {
    if maxChars <= 0 then DEFAULT_MAX_SEGMENT_CHARS else maxChars
  }

  // ---------------------------------------------------------------- paragraphs

  /** What one more line closes off, given the lines `cur` of the open paragraph. */
  function Closed(cur: bytes, line: bytes): seq<bytes>
  {
    if Blank(line) && cur != [] then [cur] else []
  }

  /** The open paragraph after one more line. */
  function Open(cur: bytes, line: bytes): bytes
  {
    if Blank(line) then [] else if cur == [] then line else cur + [SPACE] + line
  }

  /** The paragraphs of `lines`, given the lines of `cur` already read. */
  function Gather(lines: seq<bytes>, cur: bytes): seq<bytes>
  {
    if lines == [] then (if cur == [] then [] else [cur])
    else Closed(cur, lines[0]) + Gather(lines[1..], Open(cur, lines[0]))
  }

  lemma GatherStep(lines: seq<bytes>, i: nat, cur: bytes)
    requires i < |lines|
    ensures Gather(lines[i..], cur) == Closed(cur, lines[i]) + Gather(lines[i + 1..], Open(cur, lines[i]))
  {
    Next(lines, i);
  }

  function Paragraphs(text: bytes): seq<bytes> { Gather(Lines(text), []) }

  method SplitParagraphs(text: bytes) returns (paras: seq<bytes>)
    ensures paras == Paragraphs(text)
  {
    hide Utf8.Content, TrimSpace, Lines;
    var lines := Lines(text);
    var cur: bytes := [];
    paras := [];
    for i := 0 to |lines|
      invariant paras + Gather(lines[i..], cur) == Paragraphs(text)
    {
      var line := lines[i];
      ghost var before, open := paras, cur;
      TrimSpaceKeeps(line);
      if TrimSpace(line) == [] {
        if cur != [] {
          paras := paras + [cur];
          cur := [];
        }
      } else {
        if cur != [] { cur := cur + [SPACE]; }
        cur := cur + line;
      }
      assert paras == before + Closed(open, line) && cur == Open(open, line);
      GatherStep(lines, i, open);
      hide Open, Closed, Gather;
      Assoc(before, Closed(open, line), Gather(lines[i + 1..], cur));
    }
    if cur != [] { paras := paras + [cur]; }
  }

  lemma One(s: bytes)
    ensures Contents([s]) == Content(s)
  {
    assert Contents([s][1..]) == [];
  }

  lemma LineKeeps(cur: bytes, line: bytes)
    requires cur == [] || !Blank(cur)
    ensures Contents(Closed(cur, line)) + Content(Open(cur, line)) == Content(cur) + Content(line)
    ensures Valid(cur) && Valid(line) ==> Valid(Open(cur, line))
    ensures Open(cur, line) == [] || !Blank(Open(cur, line))
  {
    assert Content([]) == [] && Valid([]);
    One(cur);
    SeparatedContent(cur, SPACE, line);
    hide Utf8.Content;
    if cur != [] && Valid(cur) && Valid(line) {
      ValidJoin(cur, [SPACE]);
      ValidJoin(cur + [SPACE], line);
    }
  }

  lemma {:induction false} GatherKeeps(lines: seq<bytes>, cur: bytes)
    requires cur == [] || !Blank(cur)
    ensures Contents(Gather(lines, cur)) == Content(cur) + Contents(lines)
    ensures AllValid(lines) && Valid(cur) ==> AllValid(Gather(lines, cur))
    ensures forall i :: 0 <= i < |Gather(lines, cur)| ==> !Blank(Gather(lines, cur)[i])
  {
    assert Content([]) == [];
    hide Utf8.Content, Utf8.Valid, Open;
    if lines == [] {
      One(cur);
    } else {
      var closed, open := Closed(cur, lines[0]), Open(cur, lines[0]);
      LineKeeps(cur, lines[0]);
      GatherKeeps(lines[1..], open);
      ContentsOfJoin(closed, Gather(lines[1..], open));
      Assoc(Contents(closed), Content(open), Contents(lines[1..]));
      Assoc(Content(cur), Content(lines[0]), Contents(lines[1..]));
    }
  }

  /** A normalised paragraph: non-empty, one line, visible at both ends. */
  predicate Tidy(p: bytes)
  {
    p != [] && Trimmed(p) && NEWLINE !in p && NormalizeWhitespace(p) == p
  }

  predicate AllTidy(paras: seq<bytes>)
  {
    forall i :: 0 <= i < |paras| ==> Tidy(paras[i])
  }

  function NormalizeAll(paras: seq<bytes>): (r: seq<bytes>)
    ensures |r| == |paras|
    ensures forall i :: 0 <= i < |r| ==> r[i] == NormalizeWhitespace(paras[i])
  {
    if paras == [] then [] else [NormalizeWhitespace(paras[0])] + NormalizeAll(paras[1..])
  }

  /** The normalised paragraphs of a text: all that planning ever looks at. */
  function Paras(text: bytes): seq<bytes> { NormalizeAll(Paragraphs(text)) }

  lemma {:induction false} NormalizeAllKeeps(paras: seq<bytes>)
    requires forall i :: 0 <= i < |paras| ==> !Blank(paras[i])
    ensures AllTidy(NormalizeAll(paras))
    ensures Contents(NormalizeAll(paras)) == Contents(paras)
    ensures AllValid(paras) ==> AllValid(NormalizeAll(paras))
  {
    hide Utf8.Content, Utf8.Valid, Blank, NormalizeWhitespace, Trimmed;
    if paras != [] {
      OneTidy(paras[0]);
      NormalizeAllKeeps(paras[1..]);
      assert NormalizeAll(paras)[1..] == NormalizeAll(paras[1..]);
    }
  }

  lemma OneTidy(para: bytes)
    requires !Blank(para)
    ensures Tidy(NormalizeWhitespace(para)) && Content(NormalizeWhitespace(para)) == Content(para)
    ensures Valid(para) ==> Valid(NormalizeWhitespace(para))
  {
    NormalizeKeeps(para);
    NormalizeOneLine(para);
    NormalizeIdempotent(para);
    hide NormalizeWhitespace;
  }

  lemma ParasKeep(text: bytes)
    ensures AllTidy(Paras(text))
    ensures Contents(Paras(text)) == Content(text)
    ensures Valid(text) ==> AllValid(Paras(text))
  {
    LinesKeep(text);
    GatherKeeps(Lines(text), []);
    NormalizeAllKeeps(Paragraphs(text));
  }

  // ---------------------------------------------------------------- long paragraphs

  /** A sentence ends just before offset `i`. */
  predicate SentenceBreak(s: bytes, i: nat)
  {
    1 <= i < |s| && s[i - 1] in {46, 33, 63} && s[i] == SPACE
  }

  /** The last sentence break before offset `n`, or -1. */
  function LastBreakBelow(s: bytes, n: nat): (b: int)
    requires n <= |s|
    ensures b == -1 || (1 <= b < n && SentenceBreak(s, b))
    ensures forall j: nat :: b < j < n ==> !SentenceBreak(s, j)
  {
    if n == 0 then -1 else if SentenceBreak(s, n - 1) then n - 1 else LastBreakBelow(s, n - 1)
  }

  method LastSentenceBreak(s: bytes) returns (best: int)
    ensures best == LastBreakBelow(s, |s|)
    ensures best == -1 || SentenceBreak(s, best)
    ensures forall j: nat :: SentenceBreak(s, j) ==> j <= best
  {
    best := -1;
    var i := 1;
    while i < |s|
      invariant 1 <= i && (s == [] || i <= |s|)
      invariant best == -1 || (1 <= best < i && SentenceBreak(s, best))
      invariant forall j: nat :: best < j < i ==> !SentenceBreak(s, j)
    {
      if (s[i - 1] == 46 || s[i - 1] == 33 || s[i - 1] == 63) && s[i] == SPACE { best := i; }
      i := i + 1;
    }
  }

  /** The nearest rune start at or before `i`, zero when there is none past the front. */
  function BackUp(p: bytes, i: nat): (c: nat)
    requires i < |p|
    ensures c <= i && (c > 0 ==> RuneStart(p[c]))
    ensures forall k :: c < k <= i ==> IsContinuation(p[k])
  {
    if i == 0 || RuneStart(p[i]) then i else BackUp(p, i - 1)
  }

  /** Where an over-long paragraph is cut. */
  function Cut(p: bytes, cap: nat): (c: nat)
    requires 1 <= cap < |p|
    ensures 1 <= c <= cap
  {
    if LastBreakBelow(p[..cap], cap) > 0 then LastBreakBelow(p[..cap], cap)
    else if BackUp(p, cap) > 0 then BackUp(p, cap)
    else cap
  }

  function LongSplit(p: bytes, cap: nat): seq<bytes>
    requires cap >= 1
    decreases |p|
  {
    if |p| <= cap then (if p == [] then [] else [p])
    else [TrimSpace(p[..Cut(p, cap)])] + LongSplit(TrimSpace(p[Cut(p, cap)..]), cap)
  }

  method FindCut(p: bytes, maxChars: nat) returns (cut: int)
    requires 1 <= maxChars < |p|
    ensures cut == Cut(p, maxChars)
  {
    cut := LastSentenceBreak(p[..maxChars]);
    if cut <= 0 {
      cut := maxChars;
      while cut > 0 && !RuneStart(p[cut])
        invariant 0 <= cut <= maxChars && BackUp(p, cut) == BackUp(p, maxChars)
      {
        cut := cut - 1;
      }
      if cut == 0 { cut := maxChars; }
    }
  }

  /** A sentence of `p` ends before offset `i`. */
  predicate EndsSentence(p: bytes, i: nat) { 1 <= i < |p| && p[i - 1] in {46, 33, 63} && p[i] == 32 }

  /** An over-long paragraph is cut behind its last sentence that ends below the cap; without one at the last rune start
      up to the cap; without one at the cap. */
  lemma CutPrefers(p: bytes, cap: nat)
    requires 1 <= cap < |p|
    ensures var c := Cut(p, cap);
      if exists i: nat :: i < cap && EndsSentence(p, i)
      then c < cap && EndsSentence(p, c) && forall i: nat :: c < i < cap ==> !EndsSentence(p, i)
      else if exists i :: 1 <= i <= cap && RuneStart(p[i])
      then c <= cap && RuneStart(p[c]) && forall i :: c < i <= cap ==> !RuneStart(p[i])
      else c == cap
  {
    forall i: nat | i < cap ensures SentenceBreak(p[..cap], i) <==> EndsSentence(p, i) { }
    var b, u := LastBreakBelow(p[..cap], cap), BackUp(p, cap);
    assert b > 0 ==> EndsSentence(p, b);
    assert b <= 0 ==> forall i: nat :: i < cap ==> !EndsSentence(p, i);
    assert forall i :: u < i <= cap ==> !RuneStart(p[i]);
    hide LastBreakBelow, BackUp;
  }

  lemma LongSplitStep(chunks: seq<bytes>, p: bytes, cap: nat)
    requires 1 <= cap < |p|
    ensures var c := Cut(p, cap);
      chunks + [TrimSpace(p[..c])] + LongSplit(TrimSpace(p[c..]), cap) == chunks + LongSplit(p, cap)
  {
    hide TrimSpace, Cut;
    Assoc(chunks, [TrimSpace(p[..Cut(p, cap)])], LongSplit(TrimSpace(p[Cut(p, cap)..]), cap));
  }

  lemma LongSplitEnd(chunks: seq<bytes>, p: bytes, cap: nat)
    requires 1 <= cap && |p| <= cap
    ensures chunks + LongSplit(p, cap) == if p == [] then chunks else chunks + [p]
  {
    assert chunks + [] == chunks;
  }

  method SplitLong(para: bytes, maxChars: nat) returns (chunks: seq<bytes>)
    requires maxChars >= 1
    ensures chunks == LongSplit(para, maxChars)
  {
    hide LongSplit, TrimSpace, Cut;
    var p := para;
    chunks := [];
    assert [] + LongSplit(para, maxChars) == LongSplit(para, maxChars);
    while |p| > maxChars
      invariant chunks + LongSplit(p, maxChars) == LongSplit(para, maxChars)
      decreases |p|
    {
      var cut := FindCut(p, maxChars);
      LongSplitStep(chunks, p, maxChars);
      chunks := chunks + [TrimSpace(p[..cut])];
      p := TrimSpace(p[cut..]);
    }
    LongSplitEnd(chunks, p, maxChars);
    if p != [] { chunks := chunks + [p]; }
  }

  lemma LooseByte(s: bytes)
    requires s != [] && WellFormedWidth(s) == 0
    ensures Content(s) == s[..1] + Content(s[1..]) && Step(s) == 1
  {
    ContentUnfold(s);
  }

  /** Bytes that start no rune stand for themselves. */
  lemma {:induction false} LooseBytes(s: bytes, n: nat)
    requires n <= |s| && forall k :: 0 <= k < n ==> IsContinuation(s[k])
    ensures Content(s) == s[..n] + Content(s[n..])
    decreases n
  {
    if n == 0 {
      hide Utf8.Content;
      assert s[..0] == [] && s[0..] == s;
      assert [] + Content(s) == Content(s);
    } else {
      assert IsContinuation(s[0]);
      LooseByte(s);
      hide Utf8.Content, Utf8.Step, Utf8.WellFormedWidth, Utf8.IsContinuation;
      assert forall k :: 0 <= k < n - 1 ==> s[1..][k] == s[k + 1];
      LooseBytes(s[1..], n - 1);
      DropDrop(s, 1, n - 1);
      TakeSplit(s, 1, n);
      Assoc(s[..1], s[1..][..n - 1], Content(s[n..]));
    }
  }

  lemma StepTail(s: bytes, k: nat)
    requires s != [] && 1 <= k < Step(s)
    ensures IsContinuation(s[k])
  {
  }

  /** The front of a broken rune is loose bytes. */
  lemma PartialHead(p: bytes, c: nat)
    requires p != [] && 1 <= c < Step(p) && !StartsWithSpace(p)
    ensures Content(p[..c]) == p[..c] && !StartsWithSpace(p[..c])
  {
    var a := p[..c];
    forall k | 1 <= k < c ensures IsContinuation(p[k]) { StepTail(p, k); }
    assert a[0] == p[0] && WellFormedWidth(a) == 0;
    LooseByte(a);
    hide Utf8.Content, Utf8.Step, Utf8.WellFormedWidth;
    LooseBytes(a[1..], c - 1);
    EmptyContent();
    assert a[1..][..c - 1] == a[1..] && a[1..][c - 1..] == [];
    SplitAt(a, 1);
  }

  /** And so is the rest of it. */
  lemma PartialRest(p: bytes, c: nat)
    requires p != [] && 1 <= c < Step(p)
    ensures Content(p[c..]) == p[c..Step(p)] + Content(p[Step(p)..])
  {
    var w := Step(p);
    forall k | c <= k < w ensures IsContinuation(p[k]) { StepTail(p, k); }
    hide Utf8.Content, Utf8.Step, Utf8.WellFormedWidth;
    LooseBytes(p[c..], w - c);
    DropDrop(p, c, w - c);
    assert p[c..][..w - c] == p[c..w];
  }

  /** Even a cut inside the first rune keeps every byte of it, if that rune is visible. */
  lemma CutInsideRune(p: bytes, c: nat)
    requires p != [] && 1 <= c < Step(p) && !StartsWithSpace(p)
    ensures Content(p) == Content(p[..c]) + Content(p[c..])
    ensures !StartsWithSpace(p[..c])
  {
    hide Utf8.Content, Utf8.WellFormedWidth;
    var w := Step(p);
    PartialHead(p, c);
    PartialRest(p, c);
    ContentUnfold(p);
    assert p[..c] + p[c..w] == p[..w];
    Assoc(p[..c], p[c..w], Content(p[w..]));
  }

  /** Where a paragraph is cut is a boundary, or lies inside its first rune. */
  lemma {:induction false} CutIsSafe(p: bytes, cap: nat)
    requires 1 <= cap < |p|
    ensures Boundary(p, Cut(p, cap)) || (Cut(p, cap) == cap < Step(p))
  {
    var b, c := LastBreakBelow(p[..cap], cap), Cut(p, cap);
    if b > 0 {
      assert p[b] == SPACE;
      RuneStartIsBoundary(p, c);
    } else if BackUp(p, cap) > 0 {
      RuneStartIsBoundary(p, c);
    } else if cap >= Step(p) {
      TailBoundary(p[Step(p)..], cap - Step(p));
    }
  }

  lemma {:induction false} CutKeeps(p: bytes, cap: nat)
    requires 1 <= cap < |p| && Trimmed(p)
    ensures Content(p) == Content(p[..Cut(p, cap)]) + Content(p[Cut(p, cap)..])
    ensures !Blank(p[..Cut(p, cap)])
    ensures cap >= 4 && Valid(p) ==> Valid(p[..Cut(p, cap)]) && Valid(p[Cut(p, cap)..])
  {
    var c := Cut(p, cap);
    CutIsSafe(p, cap);
    if Boundary(p, c) {
      CutAtBoundary(p, c);
      if Valid(p) { CutValid(p, c); }
      CutStep(p, c);
    } else {
      CutInsideRune(p, c);
    }
    TrimmedNotBlank(p[..c]);
  }

  lemma PartsCons(x: bytes, rest: seq<bytes>)
    ensures Contents([x] + rest) == Content(x) + Contents(rest)
    ensures AllValid([x] + rest) <==> Valid(x) && AllValid(rest)
  {
    assert ([x] + rest)[0] == x && ([x] + rest)[1..] == rest;
    assert AllValid([x] + rest) ==> forall i :: 0 <= i < |rest| ==> rest[i] == ([x] + rest)[i + 1];
  }

  /** Splitting loses nothing, and every chunk is visible and fits. */
  lemma OneChunk(p: bytes, cap: nat)
    requires cap >= 1 && |p| <= cap
    ensures var chunks := LongSplit(p, cap);
      && Contents(chunks) == Content(p) && (forall i :: 0 <= i < |chunks| ==> 1 <= |chunks[i]| <= cap)
      && (Valid(p) ==> AllValid(chunks))
  {
    hide Cut, Utf8.Content, Utf8.Valid, TrimSpace;
    One(p);
    EmptyContent();
    assert p == [] ==> Contents([]) == [];
  }

  lemma {:induction false} LongSplitKeeps(p: bytes, cap: nat)
    requires cap >= 1 && Trimmed(p)
    ensures Contents(LongSplit(p, cap)) == Content(p)
    ensures forall i :: 0 <= i < |LongSplit(p, cap)| ==> 1 <= |LongSplit(p, cap)[i]| <= cap
    ensures cap >= 4 && Valid(p) ==> AllValid(LongSplit(p, cap))
    decreases |p|
  {
    if |p| <= cap {
      OneChunk(p, cap);
    } else {
      var c := Cut(p, cap);
      hide TrimSpace, Cut, Utf8.Content, Utf8.Valid, Trimmed, Blank, Contents, AllValid;
      CutKeeps(p, cap);
      TrimSpaceKeeps(p[..c]);
      TrimSpaceKeeps(p[c..]);
      var first, rest := TrimSpace(p[..c]), LongSplit(TrimSpace(p[c..]), cap);
      assert LongSplit(p, cap) == [first] + rest;
      LongSplitKeeps(TrimSpace(p[c..]), cap);
      hide LongSplit;
      PartsCons(first, rest);
    }
  }

  // ---------------------------------------------------------------- packing

  function Flush(buf: bytes): seq<bytes> { if TrimSpace(buf) == [] then [] else [TrimSpace(buf)] }

  /** What one more paragraph forces out, given the collected `buf`. */
  function Emitted(para: bytes, buf: bytes, cap: nat): seq<bytes>
    requires cap >= 1
  {
    if para == [] then []
    else if |para| > cap then Flush(buf) + LongSplit(para, cap)
    else if buf != [] && |buf| + 1 + |para| > cap then Flush(buf)
    else []
  }

  /** What is collected after one more paragraph. */
  function Collected(para: bytes, buf: bytes, cap: nat): bytes
  {
    if para == [] then buf
    else if |para| > cap then []
    else if buf == [] || |buf| + 1 + |para| > cap then para
    else buf + [NEWLINE] + para
  }

  /** The segments of `paras` when `buf` is already collected. */
  function Pack(paras: seq<bytes>, buf: bytes, cap: nat): seq<bytes>
    requires cap >= 1
  {
    if paras == [] then Flush(buf)
    else Emitted(paras[0], buf, cap) + Pack(paras[1..], Collected(paras[0], buf, cap), cap)
  }

  lemma PackStep(paras: seq<bytes>, i: nat, buf: bytes, cap: nat)
    requires i < |paras| && cap >= 1
    ensures Pack(paras[i..], buf, cap)
         == Emitted(paras[i], buf, cap) + Pack(paras[i + 1..], Collected(paras[i], buf, cap), cap)
  {
    Next(paras, i);
  }

  function Segments(text: bytes, maxChars: int): seq<bytes>
  {
    Pack(Paras(text), [], EffectiveCap(maxChars))
  }

  method SegmentText(text: bytes, maxChars: int) returns (segs: seq<bytes>)
    ensures segs == Segments(text, maxChars)
  {
    var cap := maxChars;
    if cap <= 0 { cap := DEFAULT_MAX_SEGMENT_CHARS; }
    segs := [];
    var buf: bytes := [];
    var paras := SplitParagraphs(text);
    for i := 0 to |paras|
      invariant segs + Pack(Paras(text)[i..], buf, cap) == Segments(text, maxChars)
    {
      hide Emitted, Collected, Pack, Flush, NormalizeWhitespace;
      var para := NormalizeWhitespace(paras[i]);
      PackStep(Paras(text), i, buf, cap);
      Assoc(segs, Emitted(para, buf, cap), Pack(Paras(text)[i + 1..], Collected(para, buf, cap), cap));
      segs, buf := AddParagraph(segs, buf, para, cap);
    }
    segs := segs + Flush(buf);
  }

  /** The loop body: one normalised paragraph. */
  method AddParagraph(segs: seq<bytes>, buf: bytes, para: bytes, cap: nat) returns (segsOut: seq<bytes>, bufOut: bytes)
    requires cap >= 1
    ensures segsOut == segs + Emitted(para, buf, cap) && bufOut == Collected(para, buf, cap)
  {
    hide Flush, LongSplit;
    segsOut, bufOut := segs, buf;
    if para != [] {
      if |para| > cap {
        var chunks := SplitLong(para, cap);
        Assoc(segs, Flush(buf), LongSplit(para, cap));
        segsOut := segsOut + Flush(bufOut) + chunks;
        bufOut := [];
      } else {
        if bufOut != [] && |bufOut| + 1 + |para| > cap {
          segsOut := segsOut + Flush(bufOut);
          bufOut := [];
        }
        if bufOut != [] { bufOut := bufOut + [NEWLINE]; }
        bufOut := bufOut + para;
      }
    }
  }

  lemma {:induction false} FlushKeeps(buf: bytes)
    ensures Contents(Flush(buf)) == Content(buf)
    ensures forall i :: 0 <= i < |Flush(buf)| ==> 1 <= |Flush(buf)[i]| <= |buf|
    ensures Valid(buf) ==> AllValid(Flush(buf))
  {
    TrimSpaceKeeps(buf);
    One(TrimSpace(buf));
  }

  /** A usable segment: not empty and within the cap. */
  predicate Fits(segs: seq<bytes>, cap: nat)
  {
    forall i :: 0 <= i < |segs| ==> 1 <= |segs[i]| <= cap
  }

  lemma LongParaKeeps(para: bytes, buf: bytes, cap: nat)
    requires cap >= 1 && Tidy(para) && |buf| <= cap < |para|
    ensures Contents(Emitted(para, buf, cap)) == Content(buf) + Content(para) && Fits(Emitted(para, buf, cap), cap)
  {
    hide Utf8.Content, Flush, Contents, LongSplit, TrimSpace, NormalizeWhitespace, Utf8.Valid;
    FlushKeeps(buf);
    LongSplitKeeps(para, cap);
    ContentsOfJoin(Flush(buf), LongSplit(para, cap));
    FitsJoin(Flush(buf), LongSplit(para, cap), cap);
  }

  lemma FitsJoin(a: seq<bytes>, b: seq<bytes>, cap: nat)
    requires Fits(a, cap) && Fits(b, cap)
    ensures Fits(a + b, cap)
  {
  }

  lemma ParaKeeps(para: bytes, buf: bytes, cap: nat)
    requires cap >= 1 && Tidy(para) && |buf| <= cap
    ensures Contents(Emitted(para, buf, cap)) + Content(Collected(para, buf, cap)) == Content(buf) + Content(para)
    ensures Fits(Emitted(para, buf, cap), cap) && |Collected(para, buf, cap)| <= cap
  {
    hide Flush, LongSplit, TrimSpace, NormalizeWhitespace, Utf8.Valid, Trimmed, Utf8.WellFormedWidth;
    EmptyContent();
    FlushKeeps(buf);
    if |para| > cap {
      LongParaKeeps(para, buf, cap);
    } else if buf != [] && |buf| + 1 + |para| <= cap {
      SeparatedContent(buf, NEWLINE, para);
    }
  }

  lemma ParaValid(para: bytes, buf: bytes, cap: nat)
    requires cap >= 4 && Tidy(para) && Valid(para) && Valid(buf)
    ensures AllValid(Emitted(para, buf, cap)) && Valid(Collected(para, buf, cap))
  {
    assert Valid([]) && Valid([NEWLINE]);
    hide Utf8.Valid, Utf8.Content;
    FlushKeeps(buf);
    LongSplitKeeps(para, cap);
    ValidJoin(buf, [NEWLINE]);
    ValidJoin(buf + [NEWLINE], para);
  }

  lemma {:induction false} PackKeeps(paras: seq<bytes>, buf: bytes, cap: nat)
    requires cap >= 1 && AllTidy(paras) && |buf| <= cap
    ensures Contents(Pack(paras, buf, cap)) == Content(buf) + Contents(paras)
    ensures Fits(Pack(paras, buf, cap), cap)
  {
    hide Utf8.Content, Emitted, Collected, Flush;
    FlushKeeps(buf);
    if paras != [] {
      var p, next := paras[0], Collected(paras[0], buf, cap);
      ParaKeeps(p, buf, cap);
      PackKeeps(paras[1..], next, cap);
      ContentsOfJoin(Emitted(p, buf, cap), Pack(paras[1..], next, cap));
      Assoc(Contents(Emitted(p, buf, cap)), Content(next), Contents(paras[1..]));
      Assoc(Content(buf), Content(p), Contents(paras[1..]));
    }
  }

  lemma {:induction false} PackValid(paras: seq<bytes>, buf: bytes, cap: nat)
    requires cap >= 4 && AllTidy(paras) && AllValid(paras) && Valid(buf)
    ensures AllValid(Pack(paras, buf, cap))
  {
    hide Utf8.Content, Utf8.Valid, Emitted, Collected, Flush;
    FlushKeeps(buf);
    if paras != [] {
      ParaValid(paras[0], buf, cap);
      PackValid(paras[1..], Collected(paras[0], buf, cap), cap);
    }
  }

  // ---------------------------------------------------------------- main results

  /** Segmentation loses and invents nothing, for every byte string and every cap. */
  lemma SegmentsKeepContent(text: bytes, maxChars: int)
    ensures Contents(Segments(text, maxChars)) == Content(text)
  {
    ParasKeep(text);
    PackKeeps(Paras(text), [], EffectiveCap(maxChars));
  }

  /** Every segment is non-empty and at most the cap. */
  lemma SegmentsFit(text: bytes, maxChars: int)
    ensures Fits(Segments(text, maxChars), EffectiveCap(maxChars))
  {
    ParasKeep(text);
    PackKeeps(Paras(text), [], EffectiveCap(maxChars));
  }

  lemma SegmentsValid(text: bytes, maxChars: int)
    requires Valid(text) && EffectiveCap(maxChars) >= 4
    ensures AllValid(Segments(text, maxChars))
  {
    ParasKeep(text);
    PackValid(Paras(text), [], EffectiveCap(maxChars));
  }

  /** U+1F600, one rune of four bytes. */
  const EMOJI: bytes := [0xF0, 0x9F, 0x98, 0x80]

  lemma EmojiParas()
    ensures Valid(EMOJI) && Paras(EMOJI) == [EMOJI]
  {
    assert WellFormedWidth(EMOJI) == 4 && !StartsWithSpace(EMOJI) && EMOJI[4..] == [];
    assert Word(EMOJI);
    hide Utf8.WellFormedWidth, Utf8.Step;
    FieldsPeel(EMOJI, []);
    assert EMOJI + [] == EMOJI && Fields([]) == [];
    assert NormalizeWhitespace(EMOJI) == EMOJI;
    assert !Blank(EMOJI) by { SpacelessContent(EMOJI); }
    assert LineEnd(EMOJI) == 4 by {
      assert LineEnd(EMOJI[1..][1..][1..]) == 1;
    }
    assert Lines(EMOJI)[1..] == [];
    assert Paragraphs(EMOJI) == [EMOJI];
    assert NormalizeAll([EMOJI][1..]) == [];
  }

  lemma TruncatedRune(cap: nat)
    requires 1 <= cap < 4
    ensures !Valid(TrimSpace(EMOJI[..cap])) && TrimSpace(EMOJI[..cap]) != []
  {
    var head := EMOJI[..cap];
    assert WellFormedWidth(head) == 0 && LeadingSpace(head) == 0;
    assert !Blank(head) by { ContentUnfold(head); }
    VisibleEndFacts(head);
    assert head[0..] == head;
  }

  lemma EmojiCut(cap: nat)
    requires 1 <= cap < 4
    ensures Cut(EMOJI, cap) == cap
  {
    var b := LastBreakBelow(EMOJI[..cap], cap);
    assert forall k :: 0 <= k < cap ==> EMOJI[k] != SPACE;
    assert b <= 0;
    assert forall k :: 1 <= k <= cap ==> IsContinuation(EMOJI[k]);
  }

  lemma PackLong(p: bytes, cap: nat)
    requires 1 <= cap < |p|
    ensures Pack([p], [], cap) == LongSplit(p, cap) + Pack([], Collected(p, [], cap), cap)
  {
    FlushKeeps([]);
    assert Flush([]) + LongSplit(p, cap) == LongSplit(p, cap);
    assert [p][1..] == [];
  }

  /** A cap below four bytes cuts that rune apart. */
  lemma SmallCapBreaksRunes(cap: int)
    requires 1 <= cap < 4
    ensures !AllValid(Segments(EMOJI, cap))
  {
    EmojiParas();
    TruncatedRune(cap);
    var rest := Pack([], Collected(EMOJI, [], cap), cap);
    assert Segments(EMOJI, cap) == LongSplit(EMOJI, cap) + rest by { PackLong(EMOJI, cap); }
    assert LongSplit(EMOJI, cap)[0] == TrimSpace(EMOJI[..cap]) by { EmojiCut(cap); }
    assert Segments(EMOJI, cap)[0] == TrimSpace(EMOJI[..cap]);
  }

  /** Segments of valid text stay valid for every text exactly when the cap holds a rune. */
  lemma ValidityNeedsFourBytes(maxChars: int)
    ensures (forall text | Valid(text) :: AllValid(Segments(text, maxChars))) <==> EffectiveCap(maxChars) >= 4
  {
    if EffectiveCap(maxChars) >= 4 {
      forall text | Valid(text) ensures AllValid(Segments(text, maxChars)) { SegmentsValid(text, maxChars); }
    } else {
      EmojiParas();
      SmallCapBreaksRunes(maxChars);
    }
  }
}
