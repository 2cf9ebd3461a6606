/**
 How each unit of a multi-file render ends (internal/render/units.go), told from what the run was given: the
 texts, the files and manifest on disk, and the faults.
 */
module UnitOutcomes {
  import opened Wrappers
  import opened Utf8
  import opened GoStrings
  import opened Plan
  import opened ResumeKey
  import opened UnitNames
  import opened Units

  /** Visible text is audible: a fresh render is silent exactly for blank text. */
  lemma FreshOrBlank(w: World, o: Options, id: bytes, text: bytes)
    ensures Fresh(w, o, id, text).NoSpeech? <==> Blank(text)
    ensures !Fresh(w, o, id, text).Faulted?
  {
    hide PlanText, SettingsOf, Blank, Assemble;
    PlanAudible(SettingsOf(w, o), text, true, Voice(w, o, id));
  }

  // ---------------------------------------------------------------- what a run finds

  function NameOf(w: World, r: Run, i: nat): bytes
    requires i < |r.units|
  {
    Filename(w, i + 1, r.units[i])
  }

  function KeyOfUnit(w: World, r: Run, i: nat): bytes
    requires i < |r.units|
  {
    Key(r.o, r.synthId, r.units[i].text, NameOf(w, r, i))
  }

  /** Row `k` is the last one of the manifest for this output. */
  predicate LastRow(entries: seq<Entry>, k: nat, name: bytes)
    requires k < |entries|
  {
    entries[k].output == name && forall j :: k < j < |entries| ==> entries[j].output != name
  }

  /** Resuming, the file is there and its last row has the unit's key and did not fail. */
  ghost predicate Reusable(w: World, r: Run, d: Disk, i: nat)
    requires i < |r.units|
  {
    && r.o.resume && !r.o.overwrite && d.manifest.Some? && NameOf(w, r, i) in d.files
    && exists k :: 0 <= k < |d.manifest.value.entries| && ReusableRow(w, r, d.manifest.value.entries, i, k)
  }

  predicate ReusableRow(w: World, r: Run, entries: seq<Entry>, i: nat, k: nat)
    requires i < |r.units| && k < |entries|
  {
    LastRow(entries, k, NameOf(w, r, i)) && entries[k].key == KeyOfUnit(w, r, i) && entries[k].status != Failed
  }

  lemma {:induction false} PriorIsLast(entries: seq<Entry>, name: bytes) returns (k: nat)
    requires name in PriorMap(entries)
    ensures k < |entries| && LastRow(entries, k, name) && PriorMap(entries)[name] == entries[k]
  {
    var n := |entries| - 1;
    if entries[n].output == name {
      k := n;
    } else {
      k := PriorIsLast(entries[..n], name);
      assert forall j :: k < j < n ==> entries[j] == entries[..n][j];
    }
  }

  lemma SkipsIsReusable(w: World, r: Run, d: Disk, i: nat, files: Files)
    requires i < |r.units| && (NameOf(w, r, i) in files <==> NameOf(w, r, i) in d.files)
    ensures Skips(w, r.o, r.synthId, i, r.units[i], PriorMap(Resumed(r, d).entries), files) <==> Reusable(w, r, d, i)
  {
    hide Filename, Key;
    var entries, name := Resumed(r, d).entries, NameOf(w, r, i);
    if name in PriorMap(entries) {
      var k := PriorIsLast(entries, name);
      assert Skips(w, r.o, r.synthId, i, r.units[i], PriorMap(entries), files) ==> ReusableRow(w, r, entries, i, k);
    }
    if Reusable(w, r, d, i) {
      var k :| 0 <= k < |entries| && ReusableRow(w, r, entries, i, k);
      PriorFinds(entries, k);
    }
  }

  /** A unit touches no file but its own. */
  lemma RenderOnly(w: World, o: Options, id: bytes, i: nat, u: Unit, prior: map<bytes, Entry>, faults: Faults,
                   files: Files)
    ensures OnlyAt(Filename(w, i + 1, u), files, RenderOne(w, o, id, i, u, prior, faults, files).files)
  {
    hide Filename, Key, Fresh, PlanText, Hit, UnitID, DurationMS, Skips;
  }

  /** The file of a unit whose turn has not come is as the run found it. */
  lemma {:induction false} FileAwaits(w: World, r: Run, d: Disk, n: nat, i: nat)
    requires n <= i < |r.units| == |r.faults|
    ensures NameOf(w, r, i) in After(w, r, PriorMap(Resumed(r, d).entries), d.files, n).files
      <==> NameOf(w, r, i) in d.files
  {
    hide Filename, RenderOne, PriorMap, Resumed, OnlyAt;
    if n > 0 {
      var prior := PriorMap(Resumed(r, d).entries);
      var p := After(w, r, prior, d.files, n - 1);
      FileAwaits(w, r, d, n - 1, i);
      RenderOnly(w, r.o, r.synthId, n - 1, r.units[n - 1], prior, r.faults[n - 1], p.files);
      if Filename(w, n, r.units[n - 1]) == Filename(w, i + 1, r.units[i]) {
        NamesDistinct(w, n, r.units[n - 1], i + 1, r.units[i]);
        assert false;
      }
      OtherFile(Filename(w, n, r.units[n - 1]), p.files, After(w, r, prior, d.files, n).files, NameOf(w, r, i));
    }
  }

  lemma OtherFile(name: bytes, before: Files, after: Files, p: bytes)
    requires OnlyAt(name, before, after) && p != name
    ensures p in before <==> p in after
  {
  }

  // ---------------------------------------------------------------- how units end

  /** Some span of the unit's plan fails, or writing its file does. */
  predicate Hurt(w: World, r: Run, i: nat)
    requires i < |r.units| == |r.faults|
  {
    || (exists k: nat :: k < |PlanText(SettingsOf(w, r.o), r.units[i].text, true)| && k in r.faults[i].synth)
    || r.faults[i].write.WriteFailed?
  }

  /** How the entry of a unit tells what became of it. */
  ghost predicate Tells(w: World, r: Run, d: Disk, e: Entry, i: nat)
    requires i < |r.units| == |r.faults|
  {
    var anew, blank := !Reusable(w, r, d, i), Blank(r.units[i].text);
    && e.index == i + 1 && e.title == r.units[i].title && e.text == r.units[i].text
    && (e.status == Failed <==> anew && !blank && Hurt(w, r, i))
    && (e.status == Complete <==> anew && !blank && !Hurt(w, r, i))
    && (e.output == [] <==> anew && blank)
    && (e.output != [] ==> e.output == NameOf(w, r, i))
    && (e.key == [] <==> e.status == Failed || e.output == [])
    && (e.key != [] ==> e.key == KeyOfUnit(w, r, i))
  }

  lemma OneTells(w: World, r: Run, d: Disk, i: nat, files: Files)
    requires i < |r.units| == |r.faults| && (NameOf(w, r, i) in files <==> NameOf(w, r, i) in d.files)
    ensures var u := RenderOne(w, r.o, r.synthId, i, r.units[i], PriorMap(Resumed(r, d).entries), r.faults[i], files);
      Tells(w, r, d, u.entry, i) && (u.failed <==> u.entry.status == Failed)
      && (u.entry.status == Complete ==> RateOf(w, r, u.entry, i, u.rate))
      && (u.entry.status != Complete ==> u.rate == 0)
  {
    hide Filename, Key, Fresh, PlanText, UnitID, DurationMS, Skips, Reusable, Blank, SettingsOf, PriorMap, Resumed;
    SkipsIsReusable(w, r, d, i, files);
    FreshOrBlank(w, r.o, r.synthId, r.units[i].text);
    NameIsClear(w, i + 1, r.units[i]);
    KeyNotEmpty(r.o, r.synthId, r.units[i].text, NameOf(w, r, i));
  }

  lemma {:induction false} RunTells(w: World, r: Run, d: Disk, n: nat, i: nat)
    requires i < n <= |r.units| == |r.faults|
    ensures |After(w, r, PriorMap(Resumed(r, d).entries), d.files, n).entries| == n
    ensures Tells(w, r, d, After(w, r, PriorMap(Resumed(r, d).entries), d.files, n).entries[i], i)
    decreases n
  {
    hide RenderOne, Tells, PriorMap, Resumed, After;
    var prior := PriorMap(Resumed(r, d).entries);
    AfterStep(w, r, prior, d.files, n);
    EntryCount(w, r, prior, d.files, n - 1);
    if i < n - 1 {
      RunTells(w, r, d, n - 1, i);
    } else {
      FileAwaits(w, r, d, i, i);
      OneTells(w, r, d, i, After(w, r, prior, d.files, i).files);
    }
  }

  lemma {:induction false} EntryCount(w: World, r: Run, prior: map<bytes, Entry>, files: Files, n: nat)
    requires n <= |r.units| == |r.faults|
    ensures |After(w, r, prior, files, n).entries| == n
  {
    hide RenderOne;
    if n > 0 { EntryCount(w, r, prior, files, n - 1); }
  }

  function FailedRows(entries: seq<Entry>): nat
  {
    if entries == [] then 0
    else FailedRows(entries[..|entries| - 1]) + (if entries[|entries| - 1].status == Failed then 1 else 0)
  }

  /** The failures counted are the failed entries. */
  lemma {:induction false} RunCounts(w: World, r: Run, d: Disk, n: nat)
    requires n <= |r.units| == |r.faults|
    ensures var p := After(w, r, PriorMap(Resumed(r, d).entries), d.files, n);
      |p.entries| == n && p.failures == FailedRows(p.entries)
  {
    hide RenderOne, Tells, PriorMap, Resumed, After, RateOf;
    var prior := PriorMap(Resumed(r, d).entries);
    if n == 0 {
      AfterNone(w, r, prior, d.files);
    } else {
      RunCounts(w, r, d, n - 1);
      AfterStep(w, r, prior, d.files, n);
      FileAwaits(w, r, d, n - 1, n - 1);
      var p, q := After(w, r, prior, d.files, n - 1), After(w, r, prior, d.files, n);
      OneTells(w, r, d, n - 1, p.files);
      assert q.entries[..n - 1] == p.entries;
    }
  }

  /** Before entry `n` no completed unit has a rate. */
  predicate NoRate(w: World, r: Run, entries: seq<Entry>, n: nat)
    requires n <= |entries| <= |r.units|
  {
    forall i :: 0 <= i < n && entries[i].status == Complete ==> RateOf(w, r, entries[i], i, 0)
  }

  /** The rate is that of the first completed unit that has one; it is zero only if none has. */
  predicate RateTold(w: World, r: Run, entries: seq<Entry>, rate: int)
    requires |entries| <= |r.units|
  {
    if rate != 0
    then exists i :: 0 <= i < |entries| && RateOf(w, r, entries[i], i, rate) && NoRate(w, r, entries, i)
    else NoRate(w, r, entries, |entries|)
  }

  lemma RateNext(w: World, r: Run, entries: seq<Entry>, e: Entry, rate: int, unitRate: int)
    requires |entries| < |r.units| && RateTold(w, r, entries, rate)
    requires if e.status == Complete then RateOf(w, r, e, |entries|, unitRate) else unitRate == 0
    ensures RateTold(w, r, entries + [e], if rate == 0 then unitRate else rate)
  {
    hide RateOf;
    var n, all := |entries|, entries + [e];
    assert all[n] == e && forall i :: 0 <= i < n ==> all[i] == entries[i];
    if rate != 0 {
      var i :| 0 <= i < n && RateOf(w, r, entries[i], i, rate) && NoRate(w, r, entries, i);
      assert RateOf(w, r, all[i], i, rate) && NoRate(w, r, all, i);
    } else if unitRate != 0 {
      assert RateOf(w, r, all[n], n, unitRate) && NoRate(w, r, all, n);
    }
  }

  lemma {:induction false} RunRate(w: World, r: Run, d: Disk, n: nat)
    requires n <= |r.units| == |r.faults|
    ensures var p := After(w, r, PriorMap(Resumed(r, d).entries), d.files, n);
      |p.entries| == n && RateTold(w, r, p.entries, p.rate)
  {
    hide RenderOne, Tells, PriorMap, Resumed, After, RateOf;
    var prior := PriorMap(Resumed(r, d).entries);
    if n == 0 {
      AfterNone(w, r, prior, d.files);
    } else {
      RunRate(w, r, d, n - 1);
      AfterStep(w, r, prior, d.files, n);
      FileAwaits(w, r, d, n - 1, n - 1);
      var p := After(w, r, prior, d.files, n - 1);
      OneTells(w, r, d, n - 1, p.files);
      var u := RenderOne(w, r.o, r.synthId, n - 1, r.units[n - 1], prior, r.faults[n - 1], p.files);
      RateNext(w, r, p.entries, u.entry, p.rate, u.rate);
    }
  }

  /** Entry `i` is complete, with audio at this rate. */
  predicate RateOf(w: World, r: Run, e: Entry, i: nat, rate: int)
    requires i < |r.units|
  {
    e.status == Complete && Fresh(w, r.o, r.synthId, r.units[i].text).Assembled?
    && Fresh(w, r.o, r.synthId, r.units[i].text).wav.rate == rate
  }

  // ---------------------------------------------------------------- main results

  /** Every unit a run gets to has an entry that tells how it ended: failed exactly when it could not be reused, has
      visible text, and was hurt; without output exactly when it could not be reused and its text is blank. */
  lemma UnitsEnd(w: World, r: Run, d: Disk)
    requires |r.faults| == |r.units| > 0
    ensures var outcome := Result(w, r, d).0;
      && outcome.Finished? && |outcome.manifest.entries| == Reached(r)
      && (forall i :: 0 <= i < Reached(r) ==> Tells(w, r, d, outcome.manifest.entries[i], i))
      && outcome.failures == FailedRows(outcome.manifest.entries)
      && (outcome.cancelled <==> r.cancelAt < |r.units|)
  {
    hide Tells, After, PriorMap, Resumed;
    RunCounts(w, r, d, Reached(r));
    forall i | 0 <= i < Reached(r) ensures Tells(w, r, d, Result(w, r, d).0.manifest.entries[i], i) {
      RunTells(w, r, d, Reached(r), i);
    }
  }

  /** The manifest's rate is that of some unit rendered now, if one has a rate; otherwise it is the one resumed. */
  lemma RateKept(w: World, r: Run, d: Disk)
    requires |r.faults| == |r.units| > 0
    ensures var m := Result(w, r, d).0.manifest;
      && |m.entries| == Reached(r)
      && (RateTold(w, r, m.entries, m.sampleRate)
          || (RateTold(w, r, m.entries, 0)
              && m.sampleRate == (if r.o.resume && !r.o.overwrite && d.manifest.Some? then d.manifest.value.sampleRate
                                  else 0)))
  {
    hide After, PriorMap, RateTold;
    RunRate(w, r, d, Reached(r));
  }
}
