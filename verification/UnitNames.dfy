/** Output file names of a multi-file render: "NNN-slug.wav" (internal/render/units.go). */
module UnitNames {
  import opened Utf8
  import opened GoStrings
  import opened Seqs
  import opened ResumeKey

  const DASH: byte := 45
  const DOT: byte := 46
  const ZERO: byte := 48
  const WAV: bytes := [46, 119, 97, 118]

  /** RenderUnit; the source reference does not affect output. */
  datatype Unit = Unit(id: bytes, title: bytes, text: bytes)

  predicate SlugByte(b: byte) { 97 <= b <= 122 || 48 <= b <= 57 }

  predicate SafeByte(b: byte) { SlugByte(b) || b == DASH }

  predicate Safe(s: bytes) { forall i :: 0 <= i < |s| ==> SafeByte(s[i]) }

  function SkipUnsafe(s: bytes): (t: bytes)
    ensures |t| <= |s|
  {
    if s == [] || SlugByte(s[0]) then s else SkipUnsafe(s[1..])
  }

  /** Every run of bytes outside [a-z0-9] becomes one dash. */
  function DashRuns(s: bytes): bytes
    decreases |s|
  {
    if s == [] then []
    else if SlugByte(s[0]) then [s[0]] + DashRuns(s[1..])
    else [DASH] + DashRuns(SkipUnsafe(s[1..]))
  }

  function TrimLeadingDashes(s: bytes): bytes
  {
    if s != [] && s[0] == DASH then TrimLeadingDashes(s[1..]) else s
  }

  function TrimTrailingDashes(s: bytes): bytes
  {
    if s != [] && s[|s| - 1] == DASH then TrimTrailingDashes(s[..|s| - 1]) else s
  }

  function TrimDashes(s: bytes): bytes { TrimTrailingDashes(TrimLeadingDashes(s)) }

  function Slugify(w: World, s: bytes): bytes
  {
    var t := TrimDashes(DashRuns(w.lower(TrimSpace(s))));
    if |t| > 40 then TrimDashes(t[..40]) else t
  }

  /** What a slug may look like. */
  predicate SlugShape(s: bytes)
  {
    Safe(s) && |s| <= 40 && (s != [] ==> s[0] != DASH && s[|s| - 1] != DASH)
  }

  lemma {:induction false} DashRunsSafe(s: bytes)
    ensures Safe(DashRuns(s))
    decreases |s|
  {
    if s != [] { DashRunsSafe(if SlugByte(s[0]) then s[1..] else SkipUnsafe(s[1..])); }
  }

  lemma {:induction false} TrimLeadingFacts(s: bytes)
    requires Safe(s)
    ensures Safe(TrimLeadingDashes(s)) && |TrimLeadingDashes(s)| <= |s|
    ensures TrimLeadingDashes(s) != [] ==> TrimLeadingDashes(s)[0] != DASH
  {
    if s != [] && s[0] == DASH { TrimLeadingFacts(s[1..]); }
  }

  lemma {:induction false} TrimTrailingFacts(s: bytes)
    requires Safe(s)
    ensures Safe(TrimTrailingDashes(s)) && |TrimTrailingDashes(s)| <= |s|
    ensures TrimTrailingDashes(s) != [] ==> TrimTrailingDashes(s)[0] == s[0]
    ensures TrimTrailingDashes(s) != [] ==> TrimTrailingDashes(s)[|TrimTrailingDashes(s)| - 1] != DASH
  {
    if s != [] && s[|s| - 1] == DASH { TrimTrailingFacts(s[..|s| - 1]); }
  }

  lemma TrimDashesFacts(s: bytes)
    requires Safe(s)
    ensures Safe(TrimDashes(s)) && |TrimDashes(s)| <= |s|
    ensures TrimDashes(s) != [] ==> TrimDashes(s)[0] != DASH && TrimDashes(s)[|TrimDashes(s)| - 1] != DASH
  {
    TrimLeadingFacts(s);
    TrimTrailingFacts(TrimLeadingDashes(s));
  }

  /** A slug is file-system safe, at most 40 bytes, and neither starts nor ends with a dash. */
  lemma SlugifyShape(w: World, s: bytes)
    ensures SlugShape(Slugify(w, s))
  {
    var t := DashRuns(w.lower(TrimSpace(s)));
    DashRunsSafe(w.lower(TrimSpace(s)));
    TrimDashesFacts(t);
    if |TrimDashes(t)| > 40 { TrimDashesFacts(TrimDashes(t)[..40]); }
  }

  // ---------------------------------------------------------------- what a slug keeps

  /** A word and what stands between it and the next. */
  datatype Part = Part(word: bytes, gap: bytes)

  /** Words are of slug bytes and gaps of other bytes; only the last gap may be empty. */
  predicate Wordy(parts: seq<Part>)
  {
    forall k :: 0 <= k < |parts| ==>
      && parts[k].word != [] && (forall i :: 0 <= i < |parts[k].word| ==> SlugByte(parts[k].word[i]))
      && (k + 1 < |parts| ==> parts[k].gap != []) && Gap(parts[k].gap)
  }

  predicate Gap(s: bytes) { forall i :: 0 <= i < |s| ==> !SlugByte(s[i]) }

  function Written(parts: seq<Part>): bytes
  {
    if parts == [] then [] else parts[0].word + (parts[0].gap + Written(parts[1..]))
  }

  /** The words with one dash between them. */
  function Joined(parts: seq<Part>): bytes
  {
    if parts == [] then []
    else parts[0].word + (if |parts| == 1 then [] else [DASH] + Joined(parts[1..]))
  }

  lemma {:induction false} SkipGap(gap: bytes, rest: bytes)
    requires Gap(gap) && (rest == [] || SlugByte(rest[0]))
    ensures SkipUnsafe(gap + rest) == rest
  {
    if gap == [] {
      assert gap + rest == rest;
    } else {
      assert (gap + rest)[1..] == gap[1..] + rest;
      SkipGap(gap[1..], rest);
    }
  }

  lemma DashesOfGap(gap: bytes, rest: bytes)
    requires Gap(gap) && gap != [] && (rest == [] || SlugByte(rest[0]))
    ensures DashRuns(gap + rest) == [DASH] + DashRuns(rest)
  {
    assert (gap + rest)[1..] == gap[1..] + rest;
    SkipGap(gap[1..], rest);
  }

  lemma {:induction false} DashesOfWord(word: bytes, rest: bytes)
    requires forall i :: 0 <= i < |word| ==> SlugByte(word[i])
    ensures DashRuns(word + rest) == word + DashRuns(rest)
  {
    if word == [] {
      assert word + rest == rest;
    } else {
      assert (word + rest)[1..] == word[1..] + rest;
      DashesOfWord(word[1..], rest);
      Assoc([word[0]], word[1..], DashRuns(rest));
      assert [word[0]] + word[1..] == word;
    }
  }

  function LastGap(parts: seq<Part>): bytes { if parts == [] then [] else parts[|parts| - 1].gap }

  lemma WrittenStarts(parts: seq<Part>)
    requires Wordy(parts)
    ensures Written(parts) == [] || SlugByte(Written(parts)[0])
    ensures parts != [] ==> Wordy(parts[1..]) && Joined(parts) != []
    ensures parts == [] ==> Joined(parts) == [] && Written(parts) == []
  {
  }

  lemma {:induction false} DashesOfWords(parts: seq<Part>)
    requires Wordy(parts)
    ensures DashRuns(Written(parts)) == Joined(parts) + (if LastGap(parts) == [] then [] else [DASH])
  {
    if parts != [] {
      var first, rest := parts[0], parts[1..];
      WrittenStarts(parts);
      WrittenStarts(rest);
      DashesOfWords(rest);
      DashesOfWord(first.word, first.gap + Written(rest));
      if first.gap != [] {
        DashesOfGap(first.gap, Written(rest));
      } else {
        assert first.gap + Written(rest) == [];
      }
      var end: bytes := if LastGap(parts) == [] then [] else [DASH];
      hide DashRuns, Written;
      if rest != [] {
        assert LastGap(rest) == LastGap(parts);
        Assoc(first.word, [DASH] + Joined(rest), end);
        Assoc([DASH], Joined(rest), end);
      } else {
        assert first.word + [] == first.word;
      }
    }
  }

  /** Joined words have no dash at either end and no two in a row. */
  predicate Neat(s: bytes)
  {
    && (s != [] ==> s[0] != DASH && s[|s| - 1] != DASH)
    && forall i :: 0 <= i < |s| - 1 ==> s[i] != DASH || s[i + 1] != DASH
  }

  lemma {:induction false} JoinedNeat(parts: seq<Part>)
    requires Wordy(parts)
    ensures Neat(Joined(parts))
  {
    if parts != [] {
      WrittenStarts(parts);
      JoinedNeat(parts[1..]);
      NeatJoin(parts[0].word, Joined(parts[1..]));
      assert |parts| == 1 ==> Joined(parts) == parts[0].word;
      if |parts| > 1 { WrittenStarts(parts[1..]); }
    }
  }

  lemma NeatJoin(word: bytes, rest: bytes)
    requires word != [] && (forall i :: 0 <= i < |word| ==> SlugByte(word[i])) && Neat(rest)
    ensures Neat(word) && (rest != [] ==> Neat(word + ([DASH] + rest)))
  {
    if rest != [] {
      var s := word + ([DASH] + rest);
      forall i | 0 <= i < |s| - 1 ensures s[i] != DASH || s[i + 1] != DASH {
        if i < |word| {
          assert SlugByte(word[i]);
        } else if i == |word| {
          assert s[i + 1] == rest[0];
        } else {
          assert s[i] == rest[i - |word| - 1] && s[i + 1] == rest[i - |word|];
        }
      }
    }
  }

  /** Trimming takes off at most one dash at each end of neat text. */
  lemma TrimNeat(before: bytes, s: bytes, after: bytes)
    requires before in {[], [DASH]} && after in {[], [DASH]} && Neat(s) && s != []
    ensures TrimDashes(before + (s + after)) == s
  {
    assert before == [DASH] ==> (before + (s + after))[1..] == s + after;
    assert before == [] ==> before + (s + after) == s + after;
    assert (s + after)[0] == s[0];
    assert TrimLeadingDashes(s + after) == s + after;
    assert TrimLeadingDashes(before + (s + after)) == s + after;
    assert after == [] ==> s + after == s;
    assert after == [DASH] ==> (s + after)[..|s + after| - 1] == s && (s + after)[|s|] == DASH;
    assert TrimTrailingDashes(s) == s;
  }

  /** The slug of a text is its words, of small letters and digits, with one dash between them: all of them up to
      forty bytes, else the first forty without a dash at their end. */
  lemma SlugOfWords(w: World, s: bytes, lead: bytes, parts: seq<Part>)
    requires w.lower(TrimSpace(s)) == lead + Written(parts) && Gap(lead) && Wordy(parts)
    ensures var all := Joined(parts);
      Slugify(w, s) == if |all| <= 40 then all else if all[39] == DASH then all[..39] else all[..40]
  {
    var all := Joined(parts);
    WrittenStarts(parts);
    DashesOfWords(parts);
    JoinedNeat(parts);
    var end: bytes := if LastGap(parts) == [] then [] else [DASH];
    if lead != [] {
      DashesOfGap(lead, Written(parts));
    } else {
      assert lead + Written(parts) == Written(parts);
    }
    var before: bytes := if lead == [] then [] else [DASH];
    assert DashRuns(lead + Written(parts)) == before + (all + end) by { assert [] + (all + end) == all + end; }
    hide DashRuns, Written, Joined, Wordy;
    if all == [] {
      OnlyGap(before);
      assert before + (all + end) == before;
    } else {
      TrimNeat(before, all, end);
      if |all| > 40 { CutNeat(all); }
    }
  }

  lemma OnlyGap(before: bytes)
    requires before in {[], [DASH]}
    ensures TrimDashes(before) == []
  {
    assert before == [DASH] ==> before[1..] == [];
    assert TrimLeadingDashes([]) == [];
    assert TrimLeadingDashes(before) == [];
  }

  lemma CutNeat(all: bytes)
    requires Neat(all) && |all| > 40
    ensures TrimDashes(all[..40]) == if all[39] == DASH then all[..39] else all[..40]
  {
    var s := if all[39] == DASH then all[..39] else all[..40];
    var end: bytes := if all[39] == DASH then [DASH] else [];
    assert Neat(s) by {
      assert all[39] == DASH ==> all[38] != DASH;
      assert forall i :: 0 <= i < |s| ==> s[i] == all[i];
    }
    assert [] + (s + end) == all[..40];
    TrimNeat([], s, end);
  }

  /** "%03d". */
  function Pad3(n: nat): bytes
  {
    var d := Itoa(n);
    if |d| == 1 then [ZERO, ZERO] + d else if |d| == 2 then [ZERO] + d else d
  }

  function Suffix(w: World, u: Unit): bytes
  {
    var slug := if Slugify(w, u.title) == [] then Slugify(w, u.id) else Slugify(w, u.title);
    if slug == [] then WAV else [DASH] + slug + WAV
  }

  function Filename(w: World, index: nat, u: Unit): bytes { Pad3(index) + Suffix(w, u) }

  lemma {:induction false} LeadingZero(s: seq<int>)
    ensures Atoi([48] + s) == Atoi(s)
  {
    if s == [] {
      assert [48][..0] == [];
      assert [48] + s == [48];
      assert Atoi([48]) == 10 * Atoi([48][..0]) + 0;
    } else {
      assert ([48] + s)[..|s|] == [48] + s[..|s| - 1];
      LeadingZero(s[..|s| - 1]);
    }
  }

  lemma AtoiOfPad3(n: nat)
    ensures Atoi(Pad3(n)) == n
  {
    var d := Itoa(n);
    AtoiOfItoa(n);
    LeadingZero(d);
    LeadingZero([48] + d);
    assert [ZERO, ZERO] + d == [48] + ([48] + d);
  }

  function DigitRun(s: bytes): nat
  {
    if s == [] || !(48 <= s[0] <= 57) then 0 else 1 + DigitRun(s[1..])
  }

  lemma {:induction false} DigitRunOfJoin(a: bytes, b: bytes)
    requires forall i :: 0 <= i < |a| ==> 48 <= a[i] <= 57
    requires b != [] && !(48 <= b[0] <= 57)
    ensures DigitRun(a + b) == |a|
  {
    if a == [] {
      assert a + b == b;
    } else {
      assert (a + b)[1..] == a[1..] + b;
      DigitRunOfJoin(a[1..], b);
    }
  }

  /** Distinct indices give distinct names, whatever the titles and ids. */
  lemma NamesDistinct(w: World, i: nat, u: Unit, j: nat, v: Unit)
    requires Filename(w, i, u) == Filename(w, j, v)
    ensures i == j
  {
    NumberFirst(w, i, u);
    NumberFirst(w, j, v);
    AtoiOfPad3(i);
    AtoiOfPad3(j);
    hide Filename, Pad3;
  }

  /** The leading digits of a name are its number. */
  lemma NumberFirst(w: World, i: nat, u: Unit)
    ensures var name := Filename(w, i, u); DigitRun(name) <= |name| && name[..DigitRun(name)] == Pad3(i)
  {
    hide Slugify;
    DigitRunOfJoin(Pad3(i), Suffix(w, u));
    JoinSlices(Pad3(i), Suffix(w, u));
  }

  /** No name holds a NUL byte, so a name never confuses a resume key. */
  lemma NameIsClear(w: World, i: nat, u: Unit)
    ensures NUL !in Filename(w, i, u) && Filename(w, i, u) != []
  {
    hide Slugify;
    SlugifyShape(w, u.title);
    SlugifyShape(w, u.id);
  }
}
