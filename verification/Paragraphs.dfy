/**
 What a paragraph is (splitParagraphs in internal/render/text.go): a maximal run of lines that are not blank,
 joined by single spaces.
 */
module Paragraphs {
  import opened Utf8
  import opened GoStrings
  import opened Seqs
  import opened Segment

  /** A stretch of lines, from `start` up to `end`. */
  datatype Stretch = Stretch(start: nat, end: nat)

  /** Visible lines with a blank line, or nothing, on either side. */
  predicate MaximalRun(lines: seq<bytes>, s: Stretch)
  {
    && s.start < s.end <= |lines|
    && (forall i :: s.start <= i < s.end ==> !Blank(lines[i]))
    && (s.start == 0 || Blank(lines[s.start - 1]))
    && (s.end == |lines| || Blank(lines[s.end]))
  }

  predicate Within(i: nat, s: Stretch) { s.start <= i < s.end }

  /** All maximal runs that start at or behind line `from`, in order. */
  ghost predicate RunsFrom(lines: seq<bytes>, from: nat, runs: seq<Stretch>)
  {
    && (forall k :: 0 <= k < |runs| ==> from <= runs[k].start && MaximalRun(lines, runs[k]))
    && (forall j, k :: 0 <= j < k < |runs| ==> runs[j].end <= runs[k].start)
    && (forall i :: from <= i < |lines| && !Blank(lines[i]) ==> exists k :: 0 <= k < |runs| && Within(i, runs[k]))
  }

  /** The lines of a stretch, joined by single spaces. */
  function Text(lines: seq<bytes>, s: Stretch): bytes
    requires s.start <= s.end <= |lines|
  {
    Join(lines[s.start..s.end], [SPACE])
  }

  predicate Texts(lines: seq<bytes>, runs: seq<Stretch>, paras: seq<bytes>)
  {
    |paras| == |runs|
    && forall k :: 0 <= k < |runs| ==>
         runs[k].start <= runs[k].end <= |lines| && paras[k] == Text(lines, runs[k])
  }

  lemma {:induction false} JoinOneMore(parts: seq<bytes>, p: bytes, sep: bytes)
    requires parts != []
    ensures Join(parts + [p], sep) == Join(parts, sep) + sep + p
  {
    if |parts| == 1 {
      assert (parts + [p])[1..] == [p];
    } else {
      assert (parts + [p])[1..] == parts[1..] + [p];
      JoinOneMore(parts[1..], p, sep);
      Assoc(parts[0] + sep, Join(parts[1..], sep), sep + p);
      Assoc(Join(parts[1..], sep), sep, p);
      Assoc(parts[0] + sep + Join(parts[1..], sep), sep, p);
    }
  }

  lemma {:induction false} JoinVisible(parts: seq<bytes>, sep: bytes)
    requires parts != [] && parts[0] != []
    ensures Join(parts, sep) != []
  {
  }

  lemma VisibleIsSomething(line: bytes)
    requires !Blank(line)
    ensures line != []
  {
    EmptyContent();
  }

  /** A run that reaches line `i` and goes no further. */
  lemma RunEnds(lines: seq<bytes>, s: nat, i: nat, rest: seq<Stretch>)
    requires s < i <= |lines| && MaximalRun(lines, Stretch(s, i))
    requires RunsFrom(lines, i, rest)
    ensures RunsFrom(lines, s, [Stretch(s, i)] + rest)
  {
    hide Blank;
    var runs := [Stretch(s, i)] + rest;
    forall l | s <= l < |lines| && !Blank(lines[l]) ensures exists k :: 0 <= k < |runs| && Within(l, runs[k]) {
      if l < i {
        assert Within(l, runs[0]);
      } else {
        var k :| 0 <= k < |rest| && Within(l, rest[k]);
        assert Within(l, runs[k + 1]);
      }
    }
  }

  /** A blank line starts no run. */
  lemma RunsSkip(lines: seq<bytes>, i: nat, runs: seq<Stretch>)
    requires i < |lines| && Blank(lines[i]) && RunsFrom(lines, i + 1, runs)
    ensures RunsFrom(lines, i, runs)
  {
    hide Blank;
  }

  /** Reading on from line `i`, with the lines since `s` open. */
  lemma {:induction false} GatherRuns(lines: seq<bytes>, s: nat, i: nat) returns (runs: seq<Stretch>)
    requires s <= i <= |lines| && (s == 0 || Blank(lines[s - 1]))
    requires forall j :: s <= j < i ==> !Blank(lines[j])
    ensures RunsFrom(lines, s, runs)
    ensures Texts(lines, runs, Gather(lines[i..], Join(lines[s..i], [SPACE])))
    decreases |lines| - i
  {
    hide Blank, RunsFrom;
    hide Gather, Open, Closed, Join, Texts;
    OpenIsVisible(lines, s, i);
    if i == |lines| {
      runs := LastRun(lines, s);
    } else if Blank(lines[i]) {
      var rest := GatherRuns(lines, i + 1, i + 1);
      runs := RunCloses(lines, s, i, rest);
    } else {
      runs := GatherRuns(lines, s, i + 1);
      GatherStep(lines, i, Join(lines[s..i], [SPACE]));
      OpenLine(lines, s, i);
      assert [] + Gather(lines[i + 1..], Join(lines[s..i + 1], [SPACE]))
        == Gather(lines[i + 1..], Join(lines[s..i + 1], [SPACE]));
    }
  }

  lemma OpenIsVisible(lines: seq<bytes>, s: nat, i: nat)
    requires s <= i <= |lines| && forall j :: s <= j < i ==> !Blank(lines[j])
    ensures s < i ==> Join(lines[s..i], [SPACE]) != []
  {
    hide Blank;
    if s < i {
      VisibleIsSomething(lines[s]);
      JoinVisible(lines[s..i], [SPACE]);
    }
  }

  /** A blank line closes the open run, if there is one. */
  lemma RunCloses(lines: seq<bytes>, s: nat, i: nat, rest: seq<Stretch>) returns (runs: seq<Stretch>)
    requires s <= i < |lines| && (s == 0 || Blank(lines[s - 1])) && Blank(lines[i])
    requires forall j :: s <= j < i ==> !Blank(lines[j])
    requires s < i ==> Join(lines[s..i], [SPACE]) != []
    requires RunsFrom(lines, i + 1, rest)
    requires Texts(lines, rest, Gather(lines[i + 1..], Join(lines[i + 1..i + 1], [SPACE])))
    ensures RunsFrom(lines, s, runs)
    ensures Texts(lines, runs, Gather(lines[i..], Join(lines[s..i], [SPACE])))
  {
    hide Blank, RunsFrom, Gather;
    var cur := Join(lines[s..i], [SPACE]);
    GatherStep(lines, i, cur);
    RunsSkip(lines, i, rest);
    assert lines[i + 1..i + 1] == [];
    if s < i {
      runs := [Stretch(s, i)] + rest;
      RunEnds(lines, s, i, rest);
    } else {
      runs := rest;
      assert lines[s..i] == [];
      assert [] + Gather(lines[i + 1..], []) == Gather(lines[i + 1..], []);
    }
  }

  lemma LastRun(lines: seq<bytes>, s: nat) returns (runs: seq<Stretch>)
    requires s <= |lines| && (s == 0 || Blank(lines[s - 1]))
    requires forall j :: s <= j < |lines| ==> !Blank(lines[j])
    requires s < |lines| ==> Join(lines[s..|lines|], [SPACE]) != []
    ensures RunsFrom(lines, s, runs)
    ensures Texts(lines, runs, Gather(lines[|lines|..], Join(lines[s..|lines|], [SPACE])))
  {
    hide Blank;
    runs := if s < |lines| then [Stretch(s, |lines|)] else [];
    assert lines[s..|lines|] == lines[s..];
    if s < |lines| { assert forall i :: s <= i < |lines| ==> Within(i, runs[0]); }
  }

  lemma OpenLine(lines: seq<bytes>, s: nat, i: nat)
    requires s <= i < |lines| && !Blank(lines[i]) && (s < i ==> Join(lines[s..i], [SPACE]) != [])
    ensures Open(Join(lines[s..i], [SPACE]), lines[i]) == Join(lines[s..i + 1], [SPACE])
    ensures Closed(Join(lines[s..i], [SPACE]), lines[i]) == []
  {
    hide Blank;
    assert lines[s..i + 1] == lines[s..i] + [lines[i]];
    if s < i { JoinOneMore(lines[s..i], lines[i], [SPACE]); } else { assert lines[s..i] == []; }
  }

  // ---------------------------------------------------------------- main results

  /** The paragraphs of a text are its maximal runs of visible lines, in order, each joined by single spaces. */
  lemma ParagraphsAreRuns(text: bytes) returns (runs: seq<Stretch>)
    ensures RunsFrom(Lines(text), 0, runs) && Texts(Lines(text), runs, Segment.Paragraphs(text))
  {
    runs := GatherRuns(Lines(text), 0, 0);
    assert Lines(text)[0..] == Lines(text);
  }

  /** Neighbouring visible lines are in one run, and lines with a blank line between them never are. */
  lemma RunsTogether(lines: seq<bytes>, runs: seq<Stretch>, i: nat, j: nat)
    requires RunsFrom(lines, 0, runs) && i < j < |lines| && !Blank(lines[i]) && !Blank(lines[j])
    ensures (exists k :: 0 <= k < |runs| && Within(i, runs[k]) && Within(j, runs[k]))
      <==> forall l :: i <= l <= j ==> !Blank(lines[l])
  {
    hide Blank;
    var k :| 0 <= k < |runs| && Within(i, runs[k]);
  }

  /** The runs of a text are unique, so the paragraphs are determined. */
  lemma RunIsUnique(lines: seq<bytes>, a: Stretch, b: Stretch, i: nat)
    requires MaximalRun(lines, a) && MaximalRun(lines, b) && Within(i, a) && Within(i, b)
    ensures a == b
  {
    hide Blank;
  }
}
