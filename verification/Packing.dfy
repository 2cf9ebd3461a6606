/**
 How well segmentation packs: when every paragraph fits the cap, the segments are the
 newline-joined groups of some in-order grouping of the paragraphs, and no grouping
 whose groups fit the cap has fewer.
 */
module Packing {
  import opened Utf8
  import opened GoStrings
  import opened Seqs
  import opened Segment

  function JoinLines(group: seq<bytes>): bytes { Join(group, [NEWLINE]) }

  function Flatten(groups: seq<seq<bytes>>): seq<bytes>
  {
    if groups == [] then [] else groups[0] + Flatten(groups[1..])
  }

  function JoinAll(groups: seq<seq<bytes>>): seq<bytes>
  {
    if groups == [] then [] else [JoinLines(groups[0])] + JoinAll(groups[1..])
  }

  /** An in-order grouping of `paras` whose joined groups fit the cap. */
  predicate Grouping(groups: seq<seq<bytes>>, paras: seq<bytes>, cap: nat)
  {
    && Flatten(groups) == paras
    && forall i :: 0 <= i < |groups| ==> groups[i] != [] && |JoinLines(groups[i])| <= cap
  }

  predicate AllFit(paras: seq<bytes>, cap: nat)
  {
    forall i :: 0 <= i < |paras| ==> |paras[i]| <= cap
  }

  /** The groups greedy packing forms, with `cur` already collected. */
  function Greedy(paras: seq<bytes>, cur: seq<bytes>, cap: nat): seq<seq<bytes>>
  {
    if paras == [] then (if cur == [] then [] else [cur])
    else if cur != [] && |JoinLines(cur)| + 1 + |paras[0]| > cap then [cur] + Greedy(paras[1..], [paras[0]], cap)
    else Greedy(paras[1..], cur + [paras[0]], cap)
  }

  // ---------------------------------------------------------------- segments are groups

  /** Visible at both ends, so that flushing trims nothing. */
  predicate Clean(buf: bytes)
  {
    buf != [] && Trimmed(buf) && VisibleEnd(buf) == |buf|
  }

  lemma {:induction false} WordsJoinEndsVisible(words: seq<bytes>)
    requires forall i :: 0 <= i < |words| ==> Word(words[i])
    ensures VisibleEnd(Join(words, [SPACE])) == |Join(words, [SPACE])|
  {
    if |words| == 1 {
      SpacelessEndsVisible(words[0]);
    } else if |words| > 1 {
      var a, b := words[0], Join(words[1..], [SPACE]);
      WordsJoinEndsVisible(words[1..]);
      WordsJoinContent(words[1..]);
      JoinEndsVisible(a, SPACE, b);
    }
  }

  lemma JoinEndsVisible(a: bytes, sep: byte, b: bytes)
    requires sep == SPACE || sep == NEWLINE
    requires b != [] && Trimmed(b) && VisibleEnd(b) == |b|
    ensures VisibleEnd(a + [sep] + b) == |a + [sep] + b|
  {
    BoundaryBehindSeparator(a, sep, b);
    TrimmedNotBlank(b);
    JoinSlices(a + [sep], b);
    VisibleEndBehind(a + [sep] + b, |a| + 1);
  }

  lemma TidyIsClean(p: bytes)
    requires Tidy(p)
    ensures Clean(p)
  {
    FieldsAreWords(p);
    WordsJoinEndsVisible(Fields(p));
  }

  lemma CleanJoin(a: bytes, b: bytes)
    requires Clean(a) && Clean(b)
    ensures Clean(a + [NEWLINE] + b)
  {
    JoinEndsVisible(a, NEWLINE, b);
    Assoc(a, [NEWLINE], b);
    RuneStartIsBoundary(a + [NEWLINE] + b, |a|);
    CutStep(a + [NEWLINE] + b, |a|);
    assert (a + [NEWLINE] + b)[..|a|] == a;
  }

  lemma {:induction false} JoinLinesGrows(cur: seq<bytes>, p: bytes)
    requires cur != []
    ensures JoinLines(cur + [p]) == JoinLines(cur) + [NEWLINE] + p
  {
    if |cur| == 1 {
      assert cur + [p] == [cur[0], p] && [cur[0], p][1..] == [p];
      assert JoinLines([p]) == p;
    } else {
      assert (cur + [p])[1..] == cur[1..] + [p];
      JoinLinesGrows(cur[1..], p);
      Assoc(cur[0] + [NEWLINE], JoinLines(cur[1..]), [NEWLINE]);
      Assoc(cur[0] + [NEWLINE], JoinLines(cur[1..]) + [NEWLINE], p);
    }
  }

  /** What is collected stands for a group of paragraphs. */
  predicate Collecting(cur: seq<bytes>, buf: bytes)
  {
    buf == JoinLines(cur) && (cur == [] || Clean(buf))
  }

  lemma {:induction false} PackIsGreedy(paras: seq<bytes>, cur: seq<bytes>, buf: bytes, cap: nat)
    requires cap >= 1 && AllTidy(paras) && AllFit(paras, cap) && Collecting(cur, buf)
    ensures Pack(paras, buf, cap) == JoinAll(Greedy(paras, cur, cap))
  {
    hide Trimmed, VisibleEnd;
    if cur == [] { TrimSpaceKeeps(buf); } else { TrimSpaceIdle(buf); }
    assert Flush(buf) == if cur == [] then [] else [buf];
    if paras == [] {
      assert cur != [] ==> [cur][1..] == [];
    } else {
      var p := paras[0];
      TidyIsClean(p);
      if cur != [] && |buf| + 1 + |p| > cap {
        PackIsGreedy(paras[1..], [p], p, cap);
        var g := Greedy(paras[1..], [p], cap);
        assert ([cur] + g)[1..] == g;
      } else {
        if cur != [] {
          CleanJoin(buf, p);
          JoinLinesGrows(cur, p);
        } else {
          assert cur + [p] == [p];
        }
        PackIsGreedy(paras[1..], cur + [p], Collected(p, buf, cap), cap);
      }
    }
  }

  lemma {:induction false} GreedyGroups(paras: seq<bytes>, cur: seq<bytes>, cap: nat)
    requires AllFit(paras, cap) && |JoinLines(cur)| <= cap
    ensures Grouping(Greedy(paras, cur, cap), cur + paras, cap)
  {
    if paras == [] {
      assert cur + paras == cur;
      if cur != [] { assert [cur][1..] == [] && Flatten([cur]) == cur + []; }
    } else {
      var p := paras[0];
      Assoc(cur, [p], paras[1..]);
      assert paras == [p] + paras[1..];
      if cur != [] && |JoinLines(cur)| + 1 + |p| > cap {
        GreedyGroups(paras[1..], [p], cap);
        var g := Greedy(paras[1..], [p], cap);
        assert ([cur] + g)[1..] == g;
      } else {
        if cur != [] { JoinLinesGrows(cur, p); } else { assert cur + [p] == [p]; }
        GreedyGroups(paras[1..], cur + [p], cap);
      }
    }
  }

  // ---------------------------------------------------------------- greedy is optimal

  /** How many groups greedy forms, by lengths alone: `len` is collected, zero for nothing. */
  function Count(paras: seq<bytes>, len: nat, cap: nat): nat
  {
    if paras == [] then (if len == 0 then 0 else 1)
    else if len > 0 && len + 1 + |paras[0]| > cap then 1 + Count(paras[1..], |paras[0]|, cap)
    else Count(paras[1..], if len == 0 then |paras[0]| else len + 1 + |paras[0]|, cap)
  }

  predicate NonEmpty(paras: seq<bytes>)
  {
    forall i :: 0 <= i < |paras| ==> paras[i] != []
  }

  lemma {:induction false} GreedyCount(paras: seq<bytes>, cur: seq<bytes>, cap: nat)
    requires NonEmpty(paras) && (cur == [] <==> JoinLines(cur) == [])
    ensures |Greedy(paras, cur, cap)| == Count(paras, |JoinLines(cur)|, cap)
  {
    if paras != [] {
      var p := paras[0];
      if cur != [] && |JoinLines(cur)| + 1 + |p| > cap {
        GreedyCount(paras[1..], [p], cap);
      } else {
        if cur != [] { JoinLinesGrows(cur, p); } else { assert cur + [p] == [p]; }
        GreedyCount(paras[1..], cur + [p], cap);
      }
    }
  }

  /** A fuller buffer costs at most one more group, and never saves one. */
  lemma {:induction false} FullerBuffer(paras: seq<bytes>, less: nat, more: nat, cap: nat)
    requires NonEmpty(paras) && 0 < less <= more
    ensures Count(paras, less, cap) <= Count(paras, more, cap) <= 1 + Count(paras, less, cap)
  {
    if paras != [] {
      var n := |paras[0]|;
      if more + 1 + n <= cap {
        FullerBuffer(paras[1..], less + 1 + n, more + 1 + n, cap);
      } else if less + 1 + n <= cap {
        FullerBuffer(paras[1..], n, less + 1 + n, cap);
      }
    }
  }

  /** Starting afresh saves at most the group being collected. */
  lemma {:induction false} FreshBuffer(paras: seq<bytes>, len: nat, cap: nat)
    requires NonEmpty(paras) && len > 0
    ensures Count(paras, len, cap) <= 1 + Count(paras, 0, cap)
  {
    if paras != [] && len + 1 + |paras[0]| <= cap {
      FullerBuffer(paras[1..], |paras[0]|, len + 1 + |paras[0]|, cap);
    }
  }

  /** A group that fits is collected whole. */
  lemma {:induction false} Absorb(cur: seq<bytes>, group: seq<bytes>, rest: seq<bytes>, cap: nat)
    requires NonEmpty(group) && NonEmpty(cur) && |JoinLines(cur + group)| <= cap
    ensures Count(group + rest, |JoinLines(cur)|, cap) == Count(rest, |JoinLines(cur + group)|, cap)
    decreases |group|
  {
    JoinLinesEmpty(cur);
    if group == [] {
      assert group + rest == rest && cur + group == cur;
    } else {
      var p := group[0];
      assert (group + rest)[1..] == group[1..] + rest;
      assert cur + group == cur + [p] + group[1..];
      JoinLinesPrefix(cur + [p], group[1..]);
      if cur != [] { JoinLinesGrows(cur, p); } else { assert cur + [p] == [p]; }
      Absorb(cur + [p], group[1..], rest, cap);
    }
  }

  lemma {:induction false} JoinLinesEmpty(group: seq<bytes>)
    requires NonEmpty(group)
    ensures group == [] <==> JoinLines(group) == []
  {
  }

  lemma {:induction false} JoinLinesPrefix(a: seq<bytes>, b: seq<bytes>)
    requires a != []
    ensures |JoinLines(a)| <= |JoinLines(a + b)|
    decreases |b|
  {
    if b == [] {
      assert a + b == a;
    } else {
      JoinLinesGrows(a, b[0]);
      assert a + b == a + [b[0]] + b[1..];
      JoinLinesPrefix(a + [b[0]], b[1..]);
    }
  }

  lemma {:induction false} CountIsLeast(groups: seq<seq<bytes>>, paras: seq<bytes>, cap: nat)
    requires Grouping(groups, paras, cap) && NonEmpty(paras)
    ensures Count(paras, 0, cap) <= |groups|
  {
    if groups != [] {
      var group, rest := groups[0], Flatten(groups[1..]);
      assert forall i :: 0 <= i < |group| ==> group[i] == paras[i];
      assert forall i :: 0 <= i < |rest| ==> rest[i] == paras[|group| + i];
      assert [] + group == group;
      Absorb([], group, rest, cap);
      JoinLinesEmpty(group);
      FreshBuffer(rest, |JoinLines(group)|, cap);
      CountIsLeast(groups[1..], rest, cap);
    }
  }

  // ---------------------------------------------------------------- main results

  /** When every paragraph fits, the segments are exactly the joined groups of a grouping. */
  lemma SegmentsAreGroups(text: bytes, maxChars: int) returns (groups: seq<seq<bytes>>)
    requires AllFit(Paras(text), EffectiveCap(maxChars))
    ensures Grouping(groups, Paras(text), EffectiveCap(maxChars))
    ensures Segments(text, maxChars) == JoinAll(groups)
  {
    var paras, cap := Paras(text), EffectiveCap(maxChars);
    ParasKeep(text);
    PackIsGreedy(paras, [], [], cap);
    GreedyGroups(paras, [], cap);
    assert [] + paras == paras;
    groups := Greedy(paras, [], cap);
  }

  lemma {:induction false} JoinAllLength(groups: seq<seq<bytes>>)
    ensures |JoinAll(groups)| == |groups|
  {
    if groups != [] { JoinAllLength(groups[1..]); }
  }

  lemma {:induction false} GroupingFits(groups: seq<seq<bytes>>, paras: seq<bytes>, cap: nat)
    requires Grouping(groups, paras, cap)
    ensures AllFit(paras, cap)
  {
    if groups != [] {
      GroupingFits(groups[1..], Flatten(groups[1..]), cap);
      forall i | 0 <= i < |paras| ensures |paras[i]| <= cap {
        if i < |groups[0]| {
          assert paras[i] == groups[0][i];
          MemberLength(groups[0], i);
        } else {
          assert paras[i] == Flatten(groups[1..])[i - |groups[0]|];
        }
      }
    }
  }

  lemma {:induction false} MemberLength(group: seq<bytes>, i: nat)
    requires i < |group|
    ensures |group[i]| <= |JoinLines(group)|
  {
    if |group| > 1 && i > 0 { MemberLength(group[1..], i - 1); }
  }

  /** No in-order grouping within the cap has fewer groups than there are segments. */
  lemma SegmentsAreFewest(text: bytes, maxChars: int, groups: seq<seq<bytes>>)
    requires Grouping(groups, Paras(text), EffectiveCap(maxChars))
    ensures |Segments(text, maxChars)| <= |groups|
  {
    var paras, cap := Paras(text), EffectiveCap(maxChars);
    ParasKeep(text);
    GroupingFits(groups, paras, cap);
    PackIsGreedy(paras, [], [], cap);
    JoinAllLength(Greedy(paras, [], cap));
    GreedyCount(paras, [], cap);
    CountIsLeast(groups, paras, cap);
  }
}
