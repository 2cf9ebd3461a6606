/**
 Preparing narration sections through a batch provider, with resume over the saved plan
 (internal/narrate/prepare.go). A prepared file carries what it was produced from, and a
 prompt or extracted text stands for its hash. Extracted and prepared files are distinct.
 */
module Prepare {
  import opened Wrappers

  /** The three prompts; None is an empty path, which has the empty hash. */
  datatype Prompts = Prompts(system: Option<string>, style: Option<string>, pronunciation: Option<string>)

  const NoPrompts := Prompts(None, None, None)

  /** A section of the plan; `extracted` is the recorded hash of its extracted text. */
  datatype Section = Section(
    id: string, extractedPath: string, extracted: Option<string>, provider: string, model: string)

  /** The plan; a plan without prompts has three empty hashes. */
  datatype Plan = Plan(sections: seq<Section>, prompts: Prompts)

  /** What Transform returns. */
  datatype Output = Output(text: string, provider: string, model: string)

  /** A prepared file and where it came from. */
  datatype Artifact = Artifact(output: Output, prompts: Prompts, extracted: string)

  datatype Disk = Disk(plan: Plan, extracted: map<string, string>, prepared: map<string, Artifact>)

  // ---------------------------------------------------------------- file names

  predicate Kept(c: char) { 'a' <= c <= 'z' || 'A' <= c <= 'Z' || '0' <= c <= '9' || c == '-' || c == '_' }

  function Dashed(id: string): string { seq(|id|, i requires 0 <= i < |id| => if Kept(id[i]) then id[i] else '-') }

  function TrimFront(s: string): string { if s != "" && s[0] == '-' then TrimFront(s[1..]) else s }

  function TrimBack(s: string): string { if s != "" && s[|s| - 1] == '-' then TrimBack(s[..|s| - 1]) else s }

  /** sanitizeID. */
  function SanitizeID(id: string): string { TrimBack(TrimFront(Dashed(id))) }

  /** Nothing but dashes and what becomes one. */
  predicate Dashes(s: string) { forall i :: 0 <= i < |s| ==> s[i] == '-' || !Kept(s[i]) }

  lemma {:induction false} TrimmedFront(front: string, s: string)
    requires (forall i :: 0 <= i < |front| ==> front[i] == '-') && s != "" && s[0] != '-'
    ensures TrimFront(front + s) == s
  {
    if front == "" {
      assert front + s == s;
    } else {
      assert (front + s)[1..] == front[1..] + s;
      TrimmedFront(front[1..], s);
    }
  }

  lemma {:induction false} TrimmedBack(s: string, back: string)
    requires (forall i :: 0 <= i < |back| ==> back[i] == '-') && s != "" && s[|s| - 1] != '-'
    ensures TrimBack(s + back) == s
  {
    if back == "" {
      assert s + back == s;
    } else {
      var n := |back| - 1;
      assert (s + back)[..|s + back| - 1] == s + back[..n];
      TrimmedBack(s, back[..n]);
    }
  }

  /** A file name keeps the letters, digits, dashes and underscores of the id in their places, has a dash for every
      other character, and leaves out those at either end. */
  lemma FileNameOf(front: string, middle: string, back: string)
    requires Dashes(front) && Dashes(back) && middle != ""
    requires Kept(middle[0]) && middle[0] != '-' && Kept(middle[|middle| - 1]) && middle[|middle| - 1] != '-'
    ensures var name := SanitizeID(front + middle + back);
      |name| == |middle| && forall i :: 0 <= i < |middle| ==> name[i] == if Kept(middle[i]) then middle[i] else '-'
  {
    assert Dashed(front + middle + back) == Dashed(front) + (Dashed(middle) + Dashed(back));
    hide Kept;
    assert Dashed(middle)[0] == middle[0] && Dashed(middle)[|middle| - 1] == middle[|middle| - 1];
    TrimmedFront(Dashed(front), Dashed(middle) + Dashed(back));
    TrimmedBack(Dashed(middle), Dashed(back));
  }

  /** No two sections share an output file. */
  predicate DistinctFiles(sections: seq<Section>)
  {
    forall i, j :: 0 <= i < j < |sections| ==> SanitizeID(sections[i].id) != SanitizeID(sections[j].id)
  }

  // ---------------------------------------------------------------- one run

  /** Prepared by a real provider: a pass-through copy never counts. */
  predicate Real(s: Section) { s.provider != "" && s.provider != "passthrough" && s.model != "" }

  /** A call of Prepare: its options, the prompts it resolves, and what Transform answers for each section. */
  datatype Call = Call(resume: bool, overwrite: bool, prompts: Prompts, answers: seq<Option<Output>>)

  /** Every section has an answer, and its extracted text can be read. */
  predicate Runnable(d: Disk, c: Call)
  {
    && |c.answers| == |d.plan.sections|
    && forall i :: 0 <= i < |d.plan.sections| ==> d.plan.sections[i].extractedPath in d.extracted
  }

  function Text(d: Disk, i: nat): string
    requires i < |d.plan.sections| && d.plan.sections[i].extractedPath in d.extracted
  {
    d.extracted[d.plan.sections[i].extractedPath]
  }

  /** Section `i` is left as it is; `prepared` are the files when the loop gets to it. */
  predicate Skips(d: Disk, c: Call, i: nat, prepared: map<string, Artifact>)
    requires Runnable(d, c) && i < |d.plan.sections|
  {
    var s := d.plan.sections[i];
    && c.resume && !c.overwrite && s.extracted == Some(Text(d, i)) && d.plan.prompts == c.prompts
    && SanitizeID(s.id) in prepared && Real(s)
  }

  datatype Progress = Progress(sections: seq<Section>, prepared: map<string, Artifact>, failed: bool)

  /** The failed section and those after it lose their prepared identity. */
  function ClearFrom(sections: seq<Section>, i: nat): (r: seq<Section>)
    ensures |r| == |sections|
    ensures forall j :: 0 <= j < |sections| ==>
      r[j] == if j < i then sections[j] else sections[j].(provider := "", model := "")
  {
    seq(|sections|, j requires 0 <= j < |sections| =>
      if j < i then sections[j] else sections[j].(provider := "", model := ""))
  }

  /** One turn of the loop. */
  function Turn(d: Disk, c: Call, p: Progress, i: nat): (r: Progress)
    requires Runnable(d, c) && i < |d.plan.sections| == |p.sections|
    ensures |r.sections| == |p.sections|
  {
    var s := d.plan.sections[i].(extracted := Some(Text(d, i)));
    if Skips(d, c, i, p.prepared) then p.(sections := p.sections[i := s])
    else
      match c.answers[i]
      case None => p.(sections := ClearFrom(p.sections[i := s], i), failed := true)
      case Some(out) =>
        p.(sections := p.sections[i := s.(provider := out.provider, model := out.model)],
           prepared := p.prepared[SanitizeID(s.id) := Artifact(out, c.prompts, Text(d, i))])
  }

  /** The loop state after `n` sections; a failed Transform stops the loop. */
  function After(d: Disk, c: Call, n: nat): (p: Progress)
    requires Runnable(d, c) && n <= |d.plan.sections|
    ensures |p.sections| == |d.plan.sections|
  {
    if n == 0 then Progress(d.plan.sections, d.prepared, false)
    else
      var p := After(d, c, n - 1);
      if p.failed then p else Turn(d, c, p, n - 1)
  }

  /** The disk after a call that reaches the save. */
  function Saved(d: Disk, c: Call): Disk
    requires Runnable(d, c)
  {
    var p := After(d, c, |d.plan.sections|);
    Disk(Plan(p.sections, c.prompts), d.extracted, p.prepared)
  }

  // ---------------------------------------------------------------- truthful plans

  /** A section recorded with a real provider and model has, if any, a file produced by them from the recorded
      text and prompts. */
  predicate TruthfulSection(s: Section, prompts: Prompts, prepared: map<string, Artifact>)
  {
    Real(s) && SanitizeID(s.id) in prepared ==>
      var a := prepared[SanitizeID(s.id)];
      Some(a.extracted) == s.extracted && a.prompts == prompts
      && a.output.provider == s.provider && a.output.model == s.model
  }

  predicate Truthful(d: Disk)
  {
    forall i :: 0 <= i < |d.plan.sections| ==> TruthfulSection(d.plan.sections[i], d.plan.prompts, d.prepared)
  }

  function Lookup<K, V>(m: map<K, V>, k: K): Option<V> { if k in m then Some(m[k]) else None }

  function File(d: Disk, j: nat): string
    requires j < |d.plan.sections|
  {
    SanitizeID(d.plan.sections[j].id)
  }

  /** What a run that gets past section `j` records for it. */
  function Recorded(d: Disk, c: Call, j: nat): Section
    requires Runnable(d, c) && j < |d.plan.sections|
  {
    var s := d.plan.sections[j].(extracted := Some(Text(d, j)));
    if Skips(d, c, j, d.prepared) || c.answers[j].None? then s
    else s.(provider := c.answers[j].value.provider, model := c.answers[j].value.model)
  }

  /** The file it leaves for it. */
  function Left(d: Disk, c: Call, j: nat): Option<Artifact>
    requires Runnable(d, c) && j < |d.plan.sections|
  {
    if Skips(d, c, j, d.prepared) || c.answers[j].None? then Lookup(d.prepared, File(d, j))
    else Some(Artifact(c.answers[j].value, c.prompts, Text(d, j)))
  }

  /** Section `j` and its file when the loop has passed `n` sections. */
  predicate Settled(d: Disk, c: Call, p: Progress, n: nat, j: nat)
    requires Runnable(d, c) && j < |d.plan.sections| == |p.sections|
  {
    && p.sections[j] == (if j < n then Recorded(d, c, j) else d.plan.sections[j])
    && Lookup(p.prepared, File(d, j)) == (if j < n then Left(d, c, j) else Lookup(d.prepared, File(d, j)))
  }

  /** A turn settles its own section, because the file it looks at is still the one the run found. */
  lemma TurnSettles(d: Disk, c: Call, p: Progress, i: nat)
    requires Runnable(d, c) && i < |d.plan.sections| == |p.sections|
    requires Settled(d, c, p, i, i) && !Turn(d, c, p, i).failed
    ensures Settled(d, c, Turn(d, c, p, i), i + 1, i)
  {
    hide SanitizeID, Runnable, Text;
    assert Lookup(p.prepared, File(d, i)) == Lookup(d.prepared, File(d, i));
  }

  /** It leaves every other section and its file alone. */
  lemma TurnLeavesOthers(d: Disk, c: Call, p: Progress, i: nat, j: nat)
    requires Runnable(d, c) && i < |d.plan.sections| == |p.sections| && j < |p.sections| && j != i
    requires File(d, i) != File(d, j) && !Turn(d, c, p, i).failed
    ensures Turn(d, c, p, i).sections[j] == p.sections[j]
    ensures Lookup(Turn(d, c, p, i).prepared, File(d, j)) == Lookup(p.prepared, File(d, j))
  {
    hide SanitizeID, Runnable, Text, Real;
  }

  lemma DistinctAt(d: Disk, i: nat, j: nat)
    requires DistinctFiles(d.plan.sections) && i < |d.plan.sections| && j < |d.plan.sections| && i != j
    ensures File(d, i) != File(d, j)
  {
    hide SanitizeID;
  }

  /** While no Transform fails, each section depends on the call and on the disk it found, not on the others. */
  lemma {:induction false} SectionAfter(d: Disk, c: Call, n: nat, j: nat)
    requires Runnable(d, c) && DistinctFiles(d.plan.sections) && n <= |d.plan.sections| && j < |d.plan.sections|
    requires !After(d, c, n).failed
    ensures Settled(d, c, After(d, c, n), n, j)
    decreases n
  {
    hide SanitizeID, DistinctFiles, Recorded, Left, Runnable, Skips, Text;
    if n > 0 {
      SectionAfter(d, c, n - 1, j);
      if j == n - 1 {
        TurnSettles(d, c, After(d, c, n - 1), j);
      } else {
        DistinctAt(d, n - 1, j);
        TurnLeavesOthers(d, c, After(d, c, n - 1), n - 1, j);
      }
    }
  }

  /** A skipped section was truthful before and its inputs are what was recorded; any other is fresh. */
  lemma SettledIsTruthful(d: Disk, c: Call, p: Progress, n: nat, j: nat)
    requires Runnable(d, c) && j < n <= |d.plan.sections| == |p.sections|
    requires Truthful(d) && c.answers[j].Some? && Settled(d, c, p, n, j)
    ensures TruthfulSection(p.sections[j], c.prompts, p.prepared)
  {
    hide SanitizeID, Runnable;
    assert TruthfulSection(d.plan.sections[j], d.plan.prompts, d.prepared);
  }

  lemma SkippedIsTruthful(d: Disk, c: Call, p: Progress, n: nat, j: nat)
    requires Runnable(d, c) && j < n <= |d.plan.sections| == |p.sections|
    requires Truthful(d) && Skips(d, c, j, d.prepared) && Settled(d, c, p, n, j)
    ensures TruthfulSection(p.sections[j], c.prompts, p.prepared)
  {
    hide SanitizeID, Runnable;
    assert TruthfulSection(d.plan.sections[j], d.plan.prompts, d.prepared);
  }

  /** A section passed without failing was skipped or answered. */
  lemma {:induction false} PassedIsAnswered(d: Disk, c: Call, n: nat, j: nat)
    requires Runnable(d, c) && DistinctFiles(d.plan.sections) && j < n <= |d.plan.sections|
    requires !After(d, c, n).failed
    ensures Skips(d, c, j, d.prepared) || c.answers[j].Some?
    decreases n
  {
    hide SanitizeID, DistinctFiles, Text, Recorded, Left, Real;
    if j < n - 1 {
      PassedIsAnswered(d, c, n - 1, j);
    } else {
      SectionAfter(d, c, j, j);
      var p := After(d, c, j);
      assert Lookup(p.prepared, File(d, j)) == Lookup(d.prepared, File(d, j));
      assert !Turn(d, c, p, j).failed;
      assert Skips(d, c, j, p.prepared) || c.answers[j].Some?;
    }
  }

  lemma DoneIsTruthful(d: Disk, c: Call, n: nat, j: nat)
    requires Runnable(d, c) && Truthful(d) && DistinctFiles(d.plan.sections) && j < n <= |d.plan.sections|
    requires !After(d, c, n).failed
    ensures TruthfulSection(After(d, c, n).sections[j], c.prompts, After(d, c, n).prepared)
  {
    hide SanitizeID, After, Truthful, TruthfulSection, Text, Skips, Settled;
    SectionAfter(d, c, n, j);
    PassedIsAnswered(d, c, n, j);
    if c.answers[j].Some? {
      SettledIsTruthful(d, c, After(d, c, n), n, j);
    } else {
      SkippedIsTruthful(d, c, After(d, c, n), n, j);
    }
  }

  /** A run stopped at section `n` has cleared it and those after it, so nothing false is said of them. */
  lemma StoppedIsTruthful(d: Disk, c: Call, n: nat, j: nat)
    requires Runnable(d, c) && Truthful(d) && DistinctFiles(d.plan.sections) && n < |d.plan.sections|
    requires !After(d, c, n).failed && After(d, c, n + 1).failed && j < |d.plan.sections|
    ensures TruthfulSection(After(d, c, n + 1).sections[j], c.prompts, After(d, c, n + 1).prepared)
  {
    hide SanitizeID, DistinctFiles, Truthful, TruthfulSection, Runnable, Text, Skips;
    var p, q := After(d, c, n), After(d, c, n + 1);
    assert q.prepared == p.prepared;
    if j < n {
      DoneIsTruthful(d, c, n, j);
      assert q.sections[j] == p.sections[j];
    } else {
      assert !Real(q.sections[j]);
      Unreal(q.sections[j], c.prompts, q.prepared);
    }
  }

  lemma Unreal(s: Section, prompts: Prompts, prepared: map<string, Artifact>)
    requires !Real(s)
    ensures TruthfulSection(s, prompts, prepared)
  {
  }

  /** Whatever the loop reached, what it would save is truthful for the new prompts. */
  lemma {:induction false} FinalIsTruthful(d: Disk, c: Call, n: nat, j: nat)
    requires Runnable(d, c) && Truthful(d) && DistinctFiles(d.plan.sections) && n <= |d.plan.sections|
    requires j < |d.plan.sections| && (After(d, c, n).failed || j < n)
    ensures TruthfulSection(After(d, c, n).sections[j], c.prompts, After(d, c, n).prepared)
    decreases n
  {
    hide SanitizeID, DistinctFiles, Truthful, TruthfulSection, Runnable, Text, Skips;
    if !After(d, c, n).failed {
      DoneIsTruthful(d, c, n, j);
    } else if After(d, c, n - 1).failed {
      FinalIsTruthful(d, c, n - 1, j);
    } else {
      StoppedIsTruthful(d, c, n - 1, j);
    }
  }

  /** Ids stay as they are. */
  lemma {:induction false} KeepsIds(d: Disk, c: Call, n: nat, j: nat)
    requires Runnable(d, c) && n <= |d.plan.sections| && j < |d.plan.sections|
    ensures After(d, c, n).sections[j].id == d.plan.sections[j].id
    decreases n
  {
    hide SanitizeID, Runnable, Text, Skips;
    if n > 0 { KeepsIds(d, c, n - 1, j); }
  }

  lemma KeepsFiles(d: Disk, c: Call)
    requires Runnable(d, c) && DistinctFiles(d.plan.sections)
    ensures DistinctFiles(Saved(d, c).plan.sections)
  {
    hide SanitizeID, Runnable, After;
    var n := |d.plan.sections|;
    forall i, j | 0 <= i < j < n
      ensures SanitizeID(After(d, c, n).sections[i].id) != SanitizeID(After(d, c, n).sections[j].id)
    {
      KeepsIds(d, c, n, i);
      KeepsIds(d, c, n, j);
    }
  }

  /** A call that reaches the save keeps the plan truthful, whatever it skipped and wherever it failed. */
  lemma SaveKeepsTruthful(d: Disk, c: Call)
    requires Runnable(d, c) && Truthful(d) && DistinctFiles(d.plan.sections)
    ensures Truthful(Saved(d, c)) && DistinctFiles(Saved(d, c).plan.sections)
  {
    hide SanitizeID, DistinctFiles, Runnable, After, TruthfulSection;
    KeepsFiles(d, c);
    var n := |d.plan.sections|;
    forall j | 0 <= j < n
      ensures TruthfulSection(After(d, c, n).sections[j], c.prompts, After(d, c, n).prepared)
    {
      FinalIsTruthful(d, c, n, j);
    }
  }

  /** Resume never skips stale output: a skipped section's file was made from the current text and prompts. */
  lemma NeverSkipsStale(d: Disk, c: Call, n: nat)
    requires Runnable(d, c) && Truthful(d) && DistinctFiles(d.plan.sections) && n < |d.plan.sections|
    requires !After(d, c, n).failed && Skips(d, c, n, After(d, c, n).prepared)
    ensures var a := After(d, c, n).prepared[File(d, n)];
            a.extracted == Text(d, n) && a.prompts == c.prompts
            && a.output.provider == d.plan.sections[n].provider && a.output.model == d.plan.sections[n].model
  {
    hide SanitizeID, DistinctFiles, After, Runnable;
    SectionAfter(d, c, n, n);
    assert TruthfulSection(d.plan.sections[n], d.plan.prompts, d.prepared);
    assert Lookup(After(d, c, n).prepared, File(d, n)) == Lookup(d.prepared, File(d, n));
  }

  /** Once the loop has passed a section, its file was made from its current text under the current prompts. */
  lemma SucceededIsCurrent(d: Disk, c: Call, n: nat, j: nat)
    requires Runnable(d, c) && Truthful(d) && DistinctFiles(d.plan.sections) && j < n <= |d.plan.sections|
    requires !After(d, c, n).failed
    ensures File(d, j) in After(d, c, n).prepared
    ensures var a := After(d, c, n).prepared[File(d, j)]; a.extracted == Text(d, j) && a.prompts == c.prompts
  {
    hide SanitizeID, DistinctFiles, After, Runnable;
    SectionAfter(d, c, n, j);
    PassedIsAnswered(d, c, n, j);
    assert TruthfulSection(d.plan.sections[j], d.plan.prompts, d.prepared);
    assert Lookup(After(d, c, n).prepared, File(d, j)) == Left(d, c, j);
  }

  /** What can be told before a call: section `j` was prepared by a provider other than the pass-through, from the
      current text and prompts, and its file is there. */
  predicate UpToDate(d: Disk, c: Call, j: nat)
    requires Runnable(d, c) && j < |d.plan.sections|
  {
    var s := d.plan.sections[j];
    && s.extracted == Some(d.extracted[s.extractedPath]) && d.plan.prompts == c.prompts
    && SanitizeID(s.id) in d.prepared
    && s.provider !in {"", "passthrough"} && s.model != ""
  }

  /** A section is left as it is exactly under resume without overwrite when it is up to date; any other that the loop
      passes is prepared again: its file is the answer's, and so are the provider and model recorded. */
  lemma PreparedAgainExact(d: Disk, c: Call, n: nat, j: nat)
    requires Runnable(d, c) && DistinctFiles(d.plan.sections) && j < n <= |d.plan.sections|
    requires !After(d, c, n).failed
    ensures var p, s, text := After(d, c, n), d.plan.sections[j], d.extracted[d.plan.sections[j].extractedPath];
      && p.sections[j].extracted == Some(text)
      && if c.resume && !c.overwrite && UpToDate(d, c, j)
         then (&& p.sections[j].provider == s.provider && p.sections[j].model == s.model
               && Lookup(p.prepared, SanitizeID(s.id)) == Lookup(d.prepared, SanitizeID(s.id)))
         else (&& c.answers[j].Some?
               && p.sections[j].provider == c.answers[j].value.provider
               && p.sections[j].model == c.answers[j].value.model
               && Lookup(p.prepared, SanitizeID(s.id)) == Some(Artifact(c.answers[j].value, c.prompts, text)))
  {
    hide SanitizeID, DistinctFiles, After, Runnable;
    SectionAfter(d, c, n, j);
    PassedIsAnswered(d, c, n, j);
    assert Skips(d, c, j, d.prepared) <==> c.resume && !c.overwrite && UpToDate(d, c, j);
  }

  /** The loop stops at the first section that is not left as it is and has no answer. */
  lemma StopsExact(d: Disk, c: Call, n: nat)
    requires Runnable(d, c) && DistinctFiles(d.plan.sections) && n < |d.plan.sections|
    requires !After(d, c, n).failed
    ensures After(d, c, n + 1).failed
      <==> c.answers[n].None? && !(c.resume && !c.overwrite && UpToDate(d, c, n))
  {
    hide SanitizeID, DistinctFiles, Runnable;
    SectionAfter(d, c, n, n);
    var p := After(d, c, n);
    assert After(d, c, n + 1) == Turn(d, c, p, n);
    hide After;
    assert Lookup(p.prepared, File(d, n)) == Lookup(d.prepared, File(d, n));
    assert Skips(d, c, n, p.prepared) <==> c.resume && !c.overwrite && UpToDate(d, c, n);
  }

  // ---------------------------------------------------------------- a run that does not save

  /** The disk when a run returns early at section `n`: files rewritten, plan as it was. */
  function AbortedAt(d: Disk, c: Call, n: nat): Disk
    requires Runnable(d, c) && n <= |d.plan.sections|
  {
    d.(prepared := After(d, c, n).prepared)
  }

  /** Section `j` is skipped, or not recorded as real, or prepared again from just what is recorded. */
  predicate SameAgain(d: Disk, c: Call, j: nat)
    requires Runnable(d, c) && j < |d.plan.sections|
  {
    var s := d.plan.sections[j];
    Skips(d, c, j, d.prepared) || !Real(s)
    || (&& c.answers[j].Some? && s.extracted == Some(Text(d, j)) && d.plan.prompts == c.prompts
        && c.answers[j].value.provider == s.provider && c.answers[j].value.model == s.model)
  }

  lemma AbortedSection(d: Disk, c: Call, n: nat, j: nat)
    requires Runnable(d, c) && Truthful(d) && DistinctFiles(d.plan.sections)
    requires n <= |d.plan.sections| && j < |d.plan.sections| && !After(d, c, n).failed
    ensures TruthfulSection(d.plan.sections[j], d.plan.prompts, After(d, c, n).prepared)
      <==> (j < n ==> SameAgain(d, c, j))
  {
    hide SanitizeID, DistinctFiles, After, Runnable;
    SectionAfter(d, c, n, j);
    if j < n { PassedIsAnswered(d, c, n, j); }
    var file := File(d, j);
    assert TruthfulSection(d.plan.sections[j], d.plan.prompts, d.prepared);
    assert Lookup(After(d, c, n).prepared, file) == (if j < n then Left(d, c, j) else Lookup(d.prepared, file));
  }

  /** An early return keeps the plan truthful exactly when no section passed was prepared from something new. */
  lemma AbortExact(d: Disk, c: Call, n: nat)
    requires Runnable(d, c) && Truthful(d) && DistinctFiles(d.plan.sections) && n <= |d.plan.sections|
    requires !After(d, c, n).failed
    ensures Truthful(AbortedAt(d, c, n)) <==> forall j :: 0 <= j < n ==> SameAgain(d, c, j)
  {
    hide SanitizeID, DistinctFiles, After, Runnable, TruthfulSection, SameAgain;
    forall j | 0 <= j < |d.plan.sections|
      ensures TruthfulSection(d.plan.sections[j], d.plan.prompts, After(d, c, n).prepared)
        <==> (j < n ==> SameAgain(d, c, j))
    {
      AbortedSection(d, c, n, j);
    }
    assert AbortedAt(d, c, n).plan == d.plan && AbortedAt(d, c, n).prepared == After(d, c, n).prepared;
  }

  // ---------------------------------------------------------------- histories

  /** Between calls extracted texts are rewritten and prepared files deleted. */
  datatype Action = PrepareCall(call: Call) | Extract(path: string, text: string) | DeletePrepared(file: string)

  function Act(d: Disk, a: Action): Disk
  {
    match a
    case PrepareCall(c) => if Runnable(d, c) then Saved(d, c) else d
    case Extract(path, text) => d.(extracted := d.extracted[path := text])
    case DeletePrepared(file) => d.(prepared := d.prepared - {file})
  }

  function History(d: Disk, actions: seq<Action>): Disk
  {
    if actions == [] then d else Act(History(d, actions[..|actions| - 1]), actions[|actions| - 1])
  }

  /** A plan nobody has prepared yet. */
  predicate Unprepared(d: Disk) { forall i :: 0 <= i < |d.plan.sections| ==> !Real(d.plan.sections[i]) }

  /** Every saved plan is truthful, over any history of saving calls, re-extractions and deletions. */
  lemma {:induction false} HistoryTruthful(d: Disk, actions: seq<Action>)
    requires Unprepared(d) && DistinctFiles(d.plan.sections)
    ensures Truthful(History(d, actions)) && DistinctFiles(History(d, actions).plan.sections)
  {
    if actions != [] {
      HistoryTruthful(d, actions[..|actions| - 1]);
      var before, a := History(d, actions[..|actions| - 1]), actions[|actions| - 1];
      if a.PrepareCall? && Runnable(before, a.call) { SaveKeepsTruthful(before, a.call); }
      hide SanitizeID;
    }
  }

  // ---------------------------------------------------------------- where it fails

  /** Every extracted text is there to be read. */
  predicate Readable(d: Disk)
  {
    forall i :: 0 <= i < |d.plan.sections| ==> d.plan.sections[i].extractedPath in d.extracted
  }

  /** A fresh call under the plan's own prompts: one provider for section `i`, another for the others. */
  function Telling(d: Disk, i: nat): (c: Call)
    ensures |c.answers| == |d.plan.sections|
    ensures forall j :: 0 <= j < |c.answers| ==> c.answers[j] == Some(Output("", if j == i then "p" else "q", "m"))
  {
    Call(false, false, d.plan.prompts, seq(|d.plan.sections|, j => Some(Output("", if j == i then "p" else "q", "m"))))
  }

  /** Once section `j` has written the file of section `i`, the file is another provider's and stays so. */
  lemma {:induction false} TellingAfter(d: Disk, i: nat, j: nat, n: nat)
    requires Readable(d) && i < j < n <= |d.plan.sections| && File(d, i) == File(d, j)
    ensures var p := After(d, Telling(d, i), n);
      && !p.failed && p.sections[i].id == d.plan.sections[i].id
      && p.sections[i].provider == "p" && p.sections[i].model == "m"
      && File(d, i) in p.prepared && p.prepared[File(d, i)].output.provider == "q"
    decreases n
  {
    hide SanitizeID, Text;
    var c := Telling(d, i);
    if j < n - 1 { TellingAfter(d, i, j, n - 1); } else { TellingReaches(d, i, j); }
  }

  lemma {:induction false} TellingReaches(d: Disk, i: nat, n: nat)
    requires Readable(d) && i < |d.plan.sections| && n <= |d.plan.sections|
    ensures var p := After(d, Telling(d, i), n);
      && !p.failed && p.sections[i].id == d.plan.sections[i].id
      && (i < n ==> p.sections[i].provider == "p" && p.sections[i].model == "m")
    decreases n
  {
    hide SanitizeID, Text;
    if n > 0 { TellingReaches(d, i, n - 1); }
  }

  lemma SharedFileTells(d: Disk, i: nat, j: nat)
    requires Readable(d) && i < j < |d.plan.sections| && File(d, i) == File(d, j)
    ensures Runnable(d, Telling(d, i)) && !Truthful(Saved(d, Telling(d, i)))
  {
    hide SanitizeID, After, Telling;
    TellingAfter(d, i, j, |d.plan.sections|);
    assert !TruthfulSection(Saved(d, Telling(d, i)).plan.sections[i], d.plan.prompts, Saved(d, Telling(d, i)).prepared);
  }

  /** Every call keeps the plan truthful exactly when no two sections share a file. */
  lemma CollisionExact(d: Disk)
    requires Truthful(d) && Readable(d)
    ensures (forall c | Runnable(d, c) :: Truthful(Saved(d, c))) <==> DistinctFiles(d.plan.sections)
  {
    hide SanitizeID, After, Truthful, Saved, Telling;
    if DistinctFiles(d.plan.sections) {
      forall c | Runnable(d, c) ensures Truthful(Saved(d, c)) { SaveKeepsTruthful(d, c); }
    } else {
      var i, j :| 0 <= i < j < |d.plan.sections|
                  && SanitizeID(d.plan.sections[i].id) == SanitizeID(d.plan.sections[j].id);
      SharedFileTells(d, i, j);
    }
  }

  const A: Section := Section("a.b", "x", None, "", "")
  const B: Section := Section("a-b", "y", None, "", "")

  lemma SameFile()
    ensures SanitizeID("a.b") == "a-b" && SanitizeID("a-b") == "a-b"
  {
    assert Dashed("a.b") == "a-b" && Dashed("a-b") == "a-b";
    assert TrimFront("a-b") == "a-b" && TrimBack("a-b") == "a-b";
  }

  /** Distinct ids are not enough: two ids with one file name leave the first section recorded with the
      second's file. */
  lemma CollisionBreaksTruth(out1: Output, out2: Output)
    requires out1.provider != "" && out1.provider != "passthrough" && out1.model != ""
    ensures var d := Disk(Plan([A, B], NoPrompts), map["x" := "one", "y" := "two"], map[]);
            var c := Call(true, false, NoPrompts, [Some(out1), Some(out2)]);
            A.id != B.id && Unprepared(d) && Runnable(d, c) && !Truthful(Saved(d, c))
  {
    var d := Disk(Plan([A, B], NoPrompts), map["x" := "one", "y" := "two"], map[]);
    var c := Call(true, false, NoPrompts, [Some(out1), Some(out2)]);
    SameFile();
    hide SanitizeID;
    assert A.id == "a.b" && B.id == "a-b";
    var p1, p2 := After(d, c, 1), After(d, c, 2);
    assert After(d, c, 0) == Progress([A, B], map[], false);
    assert p1.sections[0] == A.(extracted := Some("one"), provider := out1.provider, model := out1.model);
    assert p2.sections[0] == p1.sections[0];
    assert p2.prepared["a-b"].extracted == "two";
    assert !TruthfulSection(Saved(d, c).plan.sections[0], NoPrompts, Saved(d, c).prepared);
  }

  // ---------------------------------------------------------------- the command

  datatype Outcome = SavedPlan(failed: bool) | Aborted

  class Workspace {
    var plan: Plan
    var extracted: map<string, string>
    var prepared: map<string, Artifact>

    constructor (d: Disk)
      ensures View() == d
    {
      plan, extracted, prepared := d.plan, d.extracted, d.prepared;
    }

    function View(): Disk
      reads this
    {
      Disk(plan, extracted, prepared)
    }

    /** The loop body; `d` is the disk the run found. */
    method PrepareSection(c: Call, i: nat, sections: seq<Section>, promptsUnchanged: bool, ghost d: Disk)
      returns (out: seq<Section>, failed: bool)
      requires Runnable(d, c) && i < |sections| == |d.plan.sections| && sections[i] == d.plan.sections[i]
      requires extracted == d.extracted && promptsUnchanged == (d.plan.prompts == c.prompts)
      modifies this`prepared
      ensures Progress(out, prepared, failed) == Turn(d, c, Progress(sections, old(prepared), false), i)
    {
      hide SanitizeID;
      var sec := sections[i];
      var text := extracted[sec.extractedPath];
      var extractedUnchanged := sec.extracted == Some(text);
      sec := sec.(extracted := Some(text));
      out, failed := sections[i := sec], false;
      var file := SanitizeID(sec.id);
      if c.resume && !c.overwrite && extractedUnchanged && promptsUnchanged {
        if file in prepared {
          if sec.provider != "" && sec.provider != "passthrough" && sec.model != "" { return; }
        }
      }
      var answer := c.answers[i];
      if answer.None? {
        out, failed := ClearFrom(out, i), true;
        return;
      }
      prepared := prepared[file := Artifact(answer.value, c.prompts, text)];
      out := out[i := sec.(provider := answer.value.provider, model := answer.value.model)];
    }

    /** Prepare; it returns early, without saving, when the context is done before section `cancelAt`. */
    method Run(c: Call, cancelAt: nat) returns (outcome: Outcome)
      requires Runnable(View(), c)
      modifies this`plan, this`prepared
      ensures outcome.SavedPlan? ==> View() == Saved(old(View()), c)
      ensures outcome.SavedPlan? ==> outcome.failed == After(old(View()), c, |old(plan).sections|).failed
      ensures outcome.Aborted? ==> cancelAt < |old(plan).sections|
      ensures outcome.Aborted? ==> View() == AbortedAt(old(View()), c, cancelAt)
      ensures outcome.Aborted? ==> !After(old(View()), c, cancelAt).failed
    {
      hide Turn, SanitizeID;
      ghost var d := View();
      var sections := plan.sections;
      var promptsUnchanged := plan.prompts == c.prompts;
      for i := 0 to |plan.sections|
        invariant plan == old(plan) && i <= cancelAt
        invariant Progress(sections, prepared, false) == After(d, c, i)
        invariant |sections| == |plan.sections| && forall j :: i <= j < |sections| ==> sections[j] == plan.sections[j]
      {
        if i == cancelAt { return Aborted; }
        TurnIsLocal(d, c, Progress(sections, prepared, false), i);
        var failed;
        sections, failed := PrepareSection(c, i, sections, promptsUnchanged, d);
        if failed {
          StoppedStays(d, c, i + 1, |plan.sections|);
          plan := Plan(sections, c.prompts);
          return SavedPlan(true);
        }
      }
      plan := Plan(sections, c.prompts);
      return SavedPlan(false);
    }
  }

  lemma TurnIsLocal(d: Disk, c: Call, p: Progress, i: nat)
    requires Runnable(d, c) && i < |d.plan.sections| == |p.sections|
    ensures !Turn(d, c, p, i).failed ==>
      forall j :: 0 <= j < |p.sections| && j != i ==> Turn(d, c, p, i).sections[j] == p.sections[j]
  {
    hide SanitizeID, Text, Real, Runnable;
  }

  lemma {:induction false} StoppedStays(d: Disk, c: Call, n: nat, m: nat)
    requires Runnable(d, c) && n <= m <= |d.plan.sections| && After(d, c, n).failed
    ensures After(d, c, m) == After(d, c, n)
    decreases m
  {
    if n < m { StoppedStays(d, c, n, m - 1); }
  }
}
