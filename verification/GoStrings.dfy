/**
 The functions of Go's `strings` package that the renderer is built from: TrimSpace,
 Fields, Join and Split on a newline. Each is described by what it keeps: `Content`.
 */
module GoStrings {
  import opened Utf8
  import opened Seqs

  /** No rune of `s` is anything but white space; `strings.TrimSpace(s) == ""`. */
  predicate Blank(s: bytes) { Content(s) == [] }

  /** No rune of `s` is white space. */
  predicate Spaceless(s: bytes)
  {
    s == [] || (!StartsWithSpace(s) && Spaceless(s[Step(s)..]))
  }

  /** A field: what `strings.Fields` returns. */
  predicate Word(s: bytes) { s != [] && Spaceless(s) }

  /** `s` is empty or starts with something visible. */
  predicate Trimmed(s: bytes) { s == [] || !StartsWithSpace(s) }

  /** Where the leading white space ends. */
  function LeadingSpace(s: bytes): (i: nat)
    ensures i <= |s|
  {
    if StartsWithSpace(s) then Step(s) + LeadingSpace(s[Step(s)..]) else 0
  }

  /** Where the last visible rune ends. */
  function VisibleEnd(s: bytes): (i: nat)
    ensures i <= |s|
  {
    if s == [] then 0
    else if VisibleEnd(s[Step(s)..]) > 0 then Step(s) + VisibleEnd(s[Step(s)..])
    else if StartsWithSpace(s) then 0
    else Step(s)
  }

  lemma EmptyContent()
    ensures Content([]) == []
  {
  }

  lemma {:induction false} LeadingSpaceFacts(s: bytes)
    ensures Boundary(s, LeadingSpace(s))
    ensures Trimmed(s[LeadingSpace(s)..])
    ensures Content(s[LeadingSpace(s)..]) == Content(s)
    decreases |s|
  {
    hide Utf8.WellFormedWidth, Utf8.Content, Utf8.FirstRune;
    if StartsWithSpace(s) {
      var w, k := Step(s), LeadingSpace(s[Step(s)..]);
      LeadingSpaceFacts(s[w..]);
      DropDrop(s, w, k);
      ContentUnfold(s);
    } else {
      SplitAt(s, 0);
    }
  }

  lemma {:induction false} VisibleEndFacts(s: bytes)
    ensures Boundary(s, VisibleEnd(s))
    ensures VisibleEnd(s) == 0 <==> Blank(s)
    ensures Blank(s[VisibleEnd(s)..])
    decreases |s|
  {
    hide Utf8.WellFormedWidth, Utf8.Content, Utf8.FirstRune;
    if s == [] {
      EmptyContent();
    } else {
      var w, k := Step(s), VisibleEnd(s[Step(s)..]);
      VisibleEndFacts(s[w..]);
      ContentUnfold(s);
      DropDrop(s, w, k);
      SplitAt(s, 0);
    }
  }

  function TrimLeft(s: bytes): bytes { s[LeadingSpace(s)..] }

  function TrimRight(s: bytes): bytes { s[..VisibleEnd(s)] }

  /** `strings.TrimSpace`. */
  function TrimSpace(s: bytes): (t: bytes)
    ensures |t| <= |s|
  {
    TrimRight(TrimLeft(s))
  }

  lemma TrimRightKeeps(s: bytes)
    ensures Content(TrimRight(s)) == Content(s)
    ensures Valid(s) ==> Valid(TrimRight(s))
    ensures Trimmed(s) ==> Trimmed(TrimRight(s))
  {
    VisibleEndFacts(s);
    CutAtBoundary(s, VisibleEnd(s));
    if Valid(s) { CutValid(s, VisibleEnd(s)); }
    if TrimRight(s) != [] { CutStep(s, VisibleEnd(s)); }
  }

  lemma TrimSpaceKeeps(s: bytes)
    ensures Content(TrimSpace(s)) == Content(s)
    ensures Valid(s) ==> Valid(TrimSpace(s))
    ensures Trimmed(TrimSpace(s))
    ensures TrimSpace(s) == [] <==> Blank(s)
  {
    LeadingSpaceFacts(s);
    VisibleEndFacts(TrimLeft(s));
    TrimRightKeeps(TrimLeft(s));
    if Valid(s) { CutValid(s, LeadingSpace(s)); }
  }

  /** Trimming text that starts and ends with something visible changes nothing. */
  lemma TrimSpaceIdle(s: bytes)
    requires Trimmed(s) && VisibleEnd(s) == |s|
    ensures TrimSpace(s) == s
  {
  }

  lemma {:induction false} TrimmedNotBlank(s: bytes)
    requires s != [] && Trimmed(s)
    ensures !Blank(s)
  {
    ContentUnfold(s);
  }

  /** The last visible rune of a text is that of the part behind any boundary. */
  lemma {:induction false} VisibleEndBehind(s: bytes, i: nat)
    requires Boundary(s, i) && i <= |s| && !Blank(s[i..])
    ensures VisibleEnd(s) == i + VisibleEnd(s[i..])
    decreases |s|
  {
    hide Utf8.Content, Utf8.WellFormedWidth;
    VisibleEndFacts(s[i..]);
    if i == 0 {
      SplitAt(s, 0);
    } else {
      BoundaryInRange(s[Step(s)..], i - Step(s));
      DropDrop(s, Step(s), i - Step(s));
      VisibleEndBehind(s[Step(s)..], i - Step(s));
    }
  }

  lemma {:induction false} SpacelessEndsVisible(s: bytes)
    requires Spaceless(s)
    ensures VisibleEnd(s) == |s|
    decreases |s|
  {
    if s != [] { SpacelessEndsVisible(s[Step(s)..]); }
  }

  /** Behind an ASCII separator there is a boundary. */
  lemma {:induction false} BoundaryBehindSeparator(a: bytes, sep: byte, b: bytes)
    requires sep == SPACE || sep == NEWLINE
    ensures Boundary(a + [sep] + b, |a| + 1)
  {
    RuneStartIsBoundary(a + [sep] + b, |a|);
    NextBoundary(a + [sep] + b, |a|);
  }

  lemma {:induction false} NextBoundary(s: bytes, i: nat)
    requires Boundary(s, i) && i < |s| && s[i] < 0x80
    ensures Boundary(s, i + 1)
    decreases |s|
  {
    if i > 0 {
      CutStep(s, i);
      NextBoundary(s[Step(s)..], i - Step(s));
    }
  }

  // ---------------------------------------------------------------- Fields

  /** Where the field at the front of `s` ends. */
  function FieldEnd(s: bytes): (i: nat)
    ensures i <= |s|
  {
    if s == [] || StartsWithSpace(s) then 0 else Step(s) + FieldEnd(s[Step(s)..])
  }

  lemma {:induction false} FieldIsSpaceless(s: bytes)
    ensures Spaceless(s[..FieldEnd(s)]) && Boundary(s, FieldEnd(s))
    decreases |s|
  {
    if FieldEnd(s) > 0 {
      CutStep(s, FieldEnd(s));
      FieldIsSpaceless(s[Step(s)..]);
    }
  }

  /** `strings.Fields`. */
  function Fields(s: bytes): (fs: seq<bytes>)
    decreases |s|
  {
    var t := TrimLeft(s);
    if t == [] then [] else [t[..FieldEnd(t)]] + Fields(t[FieldEnd(t)..])
  }

  /** `strings.Join`. */
  function Join(parts: seq<bytes>, sep: bytes): bytes
  {
    if parts == [] then []
    else if |parts| == 1 then parts[0]
    else parts[0] + sep + Join(parts[1..], sep)
  }

  /** The renderer's normalizeWhitespace. */
  function NormalizeWhitespace(s: bytes): bytes { Join(Fields(s), [SPACE]) }

  lemma {:induction false} FieldsAreWords(s: bytes)
    ensures forall i :: 0 <= i < |Fields(s)| ==> Word(Fields(s)[i])
    decreases |s|
  {
    var t := TrimLeft(s);
    if t != [] {
      LeadingSpaceFacts(s);
      FieldIsSpaceless(t);
      FieldsAreWords(t[FieldEnd(t)..]);
    }
  }

  lemma {:induction false} FieldsAreValid(s: bytes)
    requires Valid(s)
    ensures forall i :: 0 <= i < |Fields(s)| ==> Valid(Fields(s)[i])
    decreases |s|
  {
    hide Utf8.WellFormedWidth, Utf8.Valid, Utf8.Content, Utf8.Boundary;
    var t := TrimLeft(s);
    if t != [] {
      LeadingSpaceFacts(s);
      CutValid(s, LeadingSpace(s));
      FieldIsSpaceless(t);
      CutValid(t, FieldEnd(t));
      FieldsAreValid(t[FieldEnd(t)..]);
    }
  }

  function Concat(parts: seq<bytes>): bytes
  {
    if parts == [] then [] else parts[0] + Concat(parts[1..])
  }

  lemma {:induction false} ConcatOfJoin(a: seq<bytes>, b: seq<bytes>)
    ensures Concat(a + b) == Concat(a) + Concat(b)
  {
    if a == [] {
      assert a + b == b;
    } else {
      assert (a + b)[1..] == a[1..] + b;
      ConcatOfJoin(a[1..], b);
    }
  }

  lemma {:induction false} SpacelessContent(s: bytes)
    requires Spaceless(s)
    ensures Content(s) == s
    decreases |s|
  {
    if s != [] {
      SpacelessContent(s[Step(s)..]);
      ContentUnfold(s);
    }
  }

  lemma {:induction false} FieldsContent(s: bytes)
    ensures Concat(Fields(s)) == Content(s)
    decreases |s|
  {
    var t := TrimLeft(s);
    LeadingSpaceFacts(s);
    if t != [] {
      var e := FieldEnd(t);
      FieldIsSpaceless(t);
      SpacelessContent(t[..e]);
      CutAtBoundary(t, e);
      FieldsContent(t[e..]);
      assert Fields(s)[1..] == Fields(t[e..]);
    }
  }

  /** One leading separator, a space or a newline, adds no content. */
  lemma SeparatorContent(sep: byte, rest: bytes)
    requires sep == SPACE || sep == NEWLINE
    ensures Content([sep] + rest) == Content(rest)
  {
    var t := [sep] + rest;
    assert t[0] == sep && Step(t) == 1 && StartsWithSpace(t);
    assert t[1..] == rest;
    ContentUnfold(t);
  }

  /** Joining over a separator joins the contents. */
  lemma SeparatedContent(a: bytes, sep: byte, rest: bytes)
    requires sep == SPACE || sep == NEWLINE
    ensures Content(a + [sep] + rest) == Content(a) + Content(rest)
  {
    assert a + [sep] + rest == a + ([sep] + rest);
    ContentOfJoin(a, [sep] + rest);
    SeparatorContent(sep, rest);
  }

  /** A join keeps the start of its first word. */
  lemma JoinTrimmed(f: bytes, t: bytes)
    requires Word(f) && (t == [] || RuneStart(t[0]))
    ensures Trimmed(f + t) && TrimLeft(f + t) == f + t
  {
    JoinIsBoundary(f, t);
    CutStep(f + t, |f|);
    assert (f + t)[..|f|] == f;
  }

  lemma {:induction false} FieldEndOfWord(f: bytes, rest: bytes)
    requires Spaceless(f) && (rest == [] || (RuneStart(rest[0]) && StartsWithSpace(rest)))
    ensures FieldEnd(f + rest) == |f|
    decreases |f|
  {
    if f == [] {
      assert f + rest == rest;
    } else {
      JoinIsBoundary(f, rest);
      CutStep(f + rest, |f|);
      assert (f + rest)[..|f|] == f;
      assert (f + rest)[Step(f)..] == f[Step(f)..] + rest;
      FieldEndOfWord(f[Step(f)..], rest);
    }
  }

  /** Peeling the first word off a string. */
  lemma FieldsPeel(f: bytes, t: bytes)
    requires Word(f) && (t == [] || (RuneStart(t[0]) && StartsWithSpace(t)))
    ensures Fields(f + t) == [f] + Fields(t)
  {
    JoinTrimmed(f, t);
    FieldEndOfWord(f, t);
    var s := f + t;
    assert s[..|f|] == f && s[|f|..] == t;
  }

  lemma FieldsSkipSpace(rest: bytes)
    ensures Fields([SPACE] + rest) == Fields(rest)
  {
    var t := [SPACE] + rest;
    assert t[1..] == rest;
    assert LeadingSpace(t) == 1 + LeadingSpace(rest);
    assert TrimLeft(t) == TrimLeft(rest);
  }

  lemma FieldsPeelSpace(f: bytes, rest: bytes)
    requires Word(f)
    ensures Fields(f + [SPACE] + rest) == [f] + Fields(rest)
  {
    assert f + [SPACE] + rest == f + ([SPACE] + rest);
    FieldsPeel(f, [SPACE] + rest);
    FieldsSkipSpace(rest);
  }

  /** Splitting a single-space join of words gives the words back. */
  lemma {:induction false} FieldsOfJoin(words: seq<bytes>)
    requires forall i :: 0 <= i < |words| ==> Word(words[i])
    ensures Fields(Join(words, [SPACE])) == words
  {
    if |words| == 1 {
      FieldsPeel(words[0], []);
      assert words[0] + [] == words[0] && Fields([]) == [];
    } else if |words| > 1 {
      FieldsOfJoin(words[1..]);
      FieldsPeelSpace(words[0], Join(words[1..], [SPACE]));
    }
  }

  /** Normalising twice is normalising once. */
  lemma NormalizeIdempotent(s: bytes)
    ensures Fields(NormalizeWhitespace(s)) == Fields(s)
    ensures NormalizeWhitespace(NormalizeWhitespace(s)) == NormalizeWhitespace(s)
  {
    FieldsAreWords(s);
    FieldsOfJoin(Fields(s));
  }

  lemma {:induction false} WordsJoinContent(words: seq<bytes>)
    requires forall i :: 0 <= i < |words| ==> Word(words[i])
    ensures Content(Join(words, [SPACE])) == Concat(words)
    ensures words != [] ==> Join(words, [SPACE]) != [] && Trimmed(Join(words, [SPACE]))
  {
    if |words| == 1 {
      SpacelessContent(words[0]);
      assert Concat(words[1..]) == [];
    } else if |words| > 1 {
      var f, rest := words[0], Join(words[1..], [SPACE]);
      assert f + [SPACE] + rest == f + ([SPACE] + rest);
      SpacelessContent(f);
      SeparatedContent(f, SPACE, rest);
      JoinTrimmed(f, [SPACE] + rest);
      WordsJoinContent(words[1..]);
    }
  }

  /** Normalising keeps the content, in order, and yields trimmed text. */
  lemma NormalizeKeeps(s: bytes)
    ensures Content(NormalizeWhitespace(s)) == Content(s)
    ensures NormalizeWhitespace(s) == [] <==> Blank(s)
    ensures Trimmed(NormalizeWhitespace(s))
    ensures Valid(s) ==> Valid(NormalizeWhitespace(s))
  {
    FieldsAreWords(s);
    FieldsContent(s);
    WordsJoinContent(Fields(s));
    if Valid(s) {
      FieldsAreValid(s);
      ValidWordsJoin(Fields(s));
    }
    if Fields(s) == [] { assert Concat(Fields(s)) == []; }
  }

  lemma {:induction false} ValidWordsJoin(words: seq<bytes>)
    requires forall i :: 0 <= i < |words| ==> Valid(words[i])
    ensures Valid(Join(words, [SPACE]))
  {
    if |words| > 1 {
      ValidWordsJoin(words[1..]);
      ValidJoin(words[0], [SPACE]);
      ValidJoin(words[0] + [SPACE], Join(words[1..], [SPACE]));
    }
  }

  // ---------------------------------------------------------------- Lines

  lemma {:induction false} SpacelessHasNoNewline(f: bytes, i: nat)
    requires Spaceless(f) && i < |f|
    ensures f[i] != NEWLINE
    decreases |f|
  {
    if f[i] == NEWLINE && i > 0 {
      RuneStartIsBoundary(f, i);
      SpacelessHasNoNewline(f[Step(f)..], i - Step(f));
    }
  }

  lemma {:induction false} WordsJoinOneLine(words: seq<bytes>)
    requires forall i :: 0 <= i < |words| ==> Word(words[i])
    ensures NEWLINE !in Join(words, [SPACE])
  {
    if words != [] {
      forall i | 0 <= i < |words[0]| ensures words[0][i] != NEWLINE { SpacelessHasNoNewline(words[0], i); }
      WordsJoinOneLine(words[1..]);
    }
  }

  /** Normalised text is one line. */
  lemma NormalizeOneLine(s: bytes)
    ensures NEWLINE !in NormalizeWhitespace(s)
  {
    FieldsAreWords(s);
    WordsJoinOneLine(Fields(s));
  }

  /** Length of the first line of `s`. */
  function LineEnd(s: bytes): (e: nat)
    ensures e <= |s| && (e < |s| ==> s[e] == NEWLINE)
    ensures NEWLINE !in s[..e]
  {
    if s == [] || s[0] == NEWLINE then 0
    else
      assert s[..1 + LineEnd(s[1..])] == [s[0]] + s[1..][..LineEnd(s[1..])];
      1 + LineEnd(s[1..])
  }

  /** `strings.Split(s, "\n")`. */
  function Lines(s: bytes): (ls: seq<bytes>)
    ensures ls != []
    decreases |s|
  {
    var e := LineEnd(s);
    if e == |s| then [s] else [s[..e]] + Lines(s[e + 1..])
  }

  /** The contents of several strings, one after the other. */
  function Contents(parts: seq<bytes>): bytes
  {
    if parts == [] then [] else Content(parts[0]) + Contents(parts[1..])
  }

  predicate AllValid(parts: seq<bytes>)
  {
    forall i :: 0 <= i < |parts| ==> Valid(parts[i])
  }

  lemma {:induction false} ContentsOfJoin(a: seq<bytes>, b: seq<bytes>)
    ensures Contents(a + b) == Contents(a) + Contents(b)
  {
    if a == [] {
      assert a + b == b;
    } else {
      assert (a + b)[1..] == a[1..] + b;
      ContentsOfJoin(a[1..], b);
    }
  }

  lemma {:induction false} LinesKeep(s: bytes)
    ensures Contents(Lines(s)) == Content(s)
    ensures Valid(s) ==> AllValid(Lines(s))
    decreases |s|
  {
    var e := LineEnd(s);
    if e == |s| {
      assert Contents([]) == [];
    } else {
      assert s == s[..e] + [NEWLINE] + s[e + 1..];
      SeparatedContent(s[..e], NEWLINE, s[e + 1..]);
      if Valid(s) {
        RuneStartIsBoundary(s, e);
        CutValid(s, e);
        assert s[e..][1..] == s[e + 1..];
      }
      LinesKeep(s[e + 1..]);
      assert Lines(s)[1..] == Lines(s[e + 1..]);
    }
  }
}
