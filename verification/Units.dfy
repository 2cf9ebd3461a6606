/**
 Multi-file rendering with resume (internal/render/units.go). A render walks its units,
 skips those whose recorded key still matches, and writes the others; synthesis and
 writes may fail, and the context may be cancelled between units. The file system is a
 map from names to audio under one fixed output directory.
 */
module Units {
  import opened Wrappers
  import opened Utf8
  import opened GoStrings
  import opened Segment
  import opened Plan
  import opened ResumeKey
  import opened UnitNames

  datatype Status = Complete | Skipped | Failed

  /** ManifestSegment; the text stands for its hash. */
  datatype Entry = Entry(
    index: nat, id: bytes, title: bytes, text: bytes, key: bytes, output: bytes, durationMS: int, status: Status)

  datatype Manifest = Manifest(sampleRate: int, entries: seq<Entry>)

  /** A failed write leaves any audio, or none, at the path. */
  datatype WriteOutcome = Written | WriteFailed(left: Option<Wav>)

  /** What goes wrong for one unit: the spans that fail to synthesize, and the write. */
  datatype Faults = Faults(synth: set<nat>, write: WriteOutcome)

  type Files = map<bytes, Wav>

  function DurationMS(wav: Wav): int { if wav.rate <= 0 then 0 else |wav.samples| * 1000 / wav.rate }

  function UnitID(u: Unit, index: nat): bytes { if u.id != [] then u.id else Ascii("ch-") + Pad3(index) }

  /** The entry every outcome starts from. */
  function BaseEntry(w: World, o: Options, synthId: bytes, i: nat, u: Unit): Entry
  {
    var name := Filename(w, i + 1, u);
    Entry(i + 1, UnitID(u, i + 1), u.title, u.text, Key(o, synthId, u.text, name), name, 0, Complete)
  }

  predicate Resumable(prior: Entry, key: bytes, exists_: bool)
  {
    prior.key == key && prior.status != Failed && exists_
  }

  predicate Skips(w: World, o: Options, synthId: bytes, i: nat, u: Unit, prior: map<bytes, Entry>, files: Files)
  {
    var base := BaseEntry(w, o, synthId, i, u);
    base.output in prior && Resumable(prior[base.output], base.key, base.output in files)
  }

  datatype UnitResult = UnitResult(entry: Entry, rate: int, failed: bool, files: Files)

  /** renderUnit. */
  function RenderOne(w: World, o: Options, synthId: bytes, i: nat, u: Unit,
                     prior: map<bytes, Entry>, faults: Faults, files: Files): UnitResult
  {
    var base := BaseEntry(w, o, synthId, i, u);
    if Skips(w, o, synthId, i, u, prior, files) then
      UnitResult(base.(durationMS := prior[base.output].durationMS, status := Skipped), 0, false, files)
    else
      match Fresh(w, o, synthId, u.text)
      case NoSpeech => UnitResult(base.(status := Skipped, output := [], key := []), 0, false, files)
      case Faulted => UnitResult(base.(key := [], status := Failed), 0, true, files)
      case Assembled(wav) =>
        if Hit(PlanText(SettingsOf(w, o), u.text, true), faults.synth) then
          UnitResult(base.(key := [], status := Failed), 0, true, files)
        else
          match faults.write
          case WriteFailed(left) =>
            UnitResult(base.(key := [], status := Failed), 0, true, Left(files, base.output, left))
          case Written =>
            UnitResult(base.(durationMS := DurationMS(wav)), wav.rate, false, files[base.output := wav])
  }

  function Left(files: Files, path: bytes, left: Option<Wav>): Files
  {
    match left case None => files - {path} case Some(wav) => files[path := wav]
  }

  // ---------------------------------------------------------------- one run

  /** One call of RenderUnits: its inputs and what the outside does to it. */
  datatype Run = Run(o: Options, synthId: bytes, units: seq<Unit>, faults: seq<Faults>, cancelAt: nat)

  /** Every unit has its faults, and no setting holds a NUL byte. */
  ghost predicate Admissible(r: Run)
  {
    |r.faults| == |r.units| && Clear(r.o, r.synthId, [])
  }

  /** Prior entries by output; a later entry replaces an earlier one. */
  function PriorMap(entries: seq<Entry>): map<bytes, Entry>
  {
    if entries == [] then map[]
    else
      var last := entries[|entries| - 1];
      PriorMap(entries[..|entries| - 1])[last.output := last]
  }

  datatype Disk = Disk(files: Files, manifest: Option<Manifest>)

  /** The manifest a run resumes from. */
  function Resumed(r: Run, d: Disk): Manifest
  {
    if r.o.resume && !r.o.overwrite && d.manifest.Some? then d.manifest.value else Manifest(0, [])
  }

  datatype Progress = Progress(entries: seq<Entry>, rate: int, failures: nat, files: Files)

  /** The loop state after `n` units. */
  function After(w: World, r: Run, prior: map<bytes, Entry>, files: Files, n: nat): Progress
    requires n <= |r.units| == |r.faults|
  {
    if n == 0 then Progress([], 0, 0, files)
    else
      var p := After(w, r, prior, files, n - 1);
      var u := RenderOne(w, r.o, r.synthId, n - 1, r.units[n - 1], prior, r.faults[n - 1], p.files);
      Progress(p.entries + [u.entry], if p.rate == 0 then u.rate else p.rate,
               p.failures + (if u.failed then 1 else 0), u.files)
  }

  lemma AfterNone(w: World, r: Run, prior: map<bytes, Entry>, files: Files)
    requires |r.units| == |r.faults|
    ensures After(w, r, prior, files, 0) == Progress([], 0, 0, files)
  {
  }

  lemma AfterStep(w: World, r: Run, prior: map<bytes, Entry>, files: Files, n: nat)
    requires 1 <= n <= |r.units| == |r.faults|
    ensures var p := After(w, r, prior, files, n - 1);
            var u := RenderOne(w, r.o, r.synthId, n - 1, r.units[n - 1], prior, r.faults[n - 1], p.files);
            After(w, r, prior, files, n)
              == Progress(p.entries + [u.entry], if p.rate == 0 then u.rate else p.rate,
                          p.failures + (if u.failed then 1 else 0), u.files)
  {
  }

  /** Units a run gets to before it is cancelled. */
  function Reached(r: Run): nat { if r.cancelAt < |r.units| then r.cancelAt else |r.units| }

  datatype Outcome = NoUnits | Finished(manifest: Manifest, failures: nat, cancelled: bool)

  function Result(w: World, r: Run, d: Disk): (Outcome, Files)
    requires |r.faults| == |r.units|
  {
    if r.units == [] then (NoUnits, d.files)
    else
      var resumed := Resumed(r, d);
      var p := After(w, r, PriorMap(resumed.entries), d.files, Reached(r));
      (Finished(Manifest(if p.rate == 0 then resumed.sampleRate else p.rate, p.entries),
                p.failures, r.cancelAt < |r.units|),
       p.files)
  }

  /** The output directory on disk. */
  class OutputDir {
    var files: Files
    var manifest: Option<Manifest>

    constructor (files: Files, manifest: Option<Manifest>)
      ensures this.files == files && this.manifest == manifest
    {
      this.files := files;
      this.manifest := manifest;
    }

    method WriteWAV(path: bytes, wav: Wav, outcome: WriteOutcome) returns (ok: bool)
      modifies this`files
      ensures ok == outcome.Written?
      ensures files == if ok then old(files)[path := wav] else Left(old(files), path, outcome.left)
    {
      match outcome {
        case Written =>
          files := files[path := wav];
          ok := true;
        case WriteFailed(None) =>
          files := files - {path};
          ok := false;
        case WriteFailed(Some(left)) =>
          files := files[path := left];
          ok := false;
      }
    }

    method RenderUnit(w: World, o: Options, synthId: bytes, i: nat, u: Unit, prior: map<bytes, Entry>, faults: Faults)
      returns (entry: Entry, rate: int, failed: bool)
      modifies this`files
      ensures UnitResult(entry, rate, failed, files) == RenderOne(w, o, synthId, i, u, prior, faults, old(files))
    {
      hide Key, PlanText, Filename, UnitID, SettingsOf, DurationMS, FeedAll, Hit;
      var name := Filename(w, i + 1, u);
      var key := ComputeResumeKey(o, synthId, u.text, name);
      var base := Entry(i + 1, UnitID(u, i + 1), u.title, u.text, key, name, 0, Complete);
      rate, failed := 0, false;
      if name in prior && Resumable(prior[name], key, name in files) {
        entry := base.(durationMS := prior[name].durationMS, status := Skipped);
        return;
      }
      var voice := Voice(w, o, synthId);
      var spans := PlanWithPauses(SettingsOf(w, o), u.text, true);
      var speechCount := CountSpeech(spans, voice);
      if speechCount == 0 {
        entry := base.(status := Skipped, output := [], key := []);
        return;
      }
      var sound := SynthSpans(spans, voice, faults.synth);
      if sound.Assembled? {
        var ok := WriteWAV(name, sound.wav, faults.write);
        if ok {
          entry := base.(durationMS := DurationMS(sound.wav));
          rate := sound.wav.rate;
          return;
        }
      }
      entry, failed := base.(key := [], status := Failed), true;
    }

    method RenderUnits(w: World, r: Run) returns (outcome: Outcome)
      requires |r.faults| == |r.units|
      modifies this`files
      ensures (outcome, files) == Result(w, r, Disk(old(files), manifest))
    {
      if r.units == [] { return NoUnits; }
      var resumed := Manifest(0, []);
      if r.o.resume && !r.o.overwrite && manifest.Some? { resumed := manifest.value; }
      var prior := BuildPrior(resumed.entries);
      hide After, RenderOne, PriorMap, Resumed;
      var entries, rate, failures, cancelled := RenderAll(w, r, prior);
      return Finished(Manifest(if rate == 0 then resumed.sampleRate else rate, entries), failures, cancelled);
    }

    /** The loop over the units, up to the cancellation if there is one. */
    method RenderAll(w: World, r: Run, prior: map<bytes, Entry>)
      returns (entries: seq<Entry>, rate: int, failures: nat, cancelled: bool)
      requires |r.faults| == |r.units|
      modifies this`files
      ensures Progress(entries, rate, failures, files) == After(w, r, prior, old(files), Reached(r))
      ensures cancelled <==> r.cancelAt < |r.units|
    {
      hide RenderOne, Filename, Key, Fresh, After;
      AfterNone(w, r, prior, files);
      entries, rate, failures, cancelled := [], 0, 0, false;
      for i := 0 to |r.units|
        invariant Progress(entries, rate, failures, files) == After(w, r, prior, old(files), i)
        invariant i <= r.cancelAt && !cancelled
      {
        if r.cancelAt == i {
          cancelled := true;
          return;
        }
        AfterStep(w, r, prior, old(files), i + 1);
        var entry, unitRate, failed := RenderUnit(w, r.o, r.synthId, i, r.units[i], prior, r.faults[i]);
        if failed { failures := failures + 1; }
        if rate == 0 { rate := unitRate; }
        entries := entries + [entry];
      }
    }
  }

  method BuildPrior(entries: seq<Entry>) returns (prior: map<bytes, Entry>)
    ensures prior == PriorMap(entries)
  {
    prior := map[];
    for k := 0 to |entries|
      invariant prior == PriorMap(entries[..k])
    {
      assert entries[..k + 1][..k] == entries[..k];
      prior := prior[entries[k].output := entries[k]];
    }
    assert entries[..|entries|] == entries;
  }

  /** renderUnit counts the spans worth speaking before it synthesizes any. */
  method CountSpeech(spans: seq<Span>, voice: bytes -> Wav) returns (n: nat)
    ensures n == FeedAll(spans, voice).speeches
  {
    hide Utf8.Content, TrimSpace;
    n := 0;
    for i := 0 to |spans|
      invariant n == FeedAll(spans[..i], voice).speeches
    {
      assert spans[..i + 1][..i] == spans[..i];
      if spans[i].Speech? {
        TrimSpaceKeeps(spans[i].text);
        if TrimSpace(spans[i].text) != [] { n := n + 1; }
      }
    }
    assert spans[..|spans|] == spans;
  }

  // ---------------------------------------------------------------- histories

  /** Between runs, output files may be deleted. */
  datatype Action = Render(run: Run) | Delete(path: bytes)

  /** Each returned manifest is persisted. */
  function Act(w: World, d: Disk, a: Action): Disk
    requires a.Render? ==> |a.run.faults| == |a.run.units|
  {
    match a
    case Delete(path) => d.(files := d.files - {path})
    case Render(run) =>
      var (outcome, files) := Result(w, run, d);
      if outcome.NoUnits? then d else Disk(files, Some(outcome.manifest))
  }

  ghost predicate AllAdmissible(actions: seq<Action>)
  {
    forall i :: 0 <= i < |actions| && actions[i].Render? ==> Admissible(actions[i].run)
  }

  ghost function Replay(w: World, d: Disk, actions: seq<Action>): Disk
    requires AllAdmissible(actions)
  {
    if actions == [] then d
    else Act(w, Replay(w, d, actions[..|actions| - 1]), actions[|actions| - 1])
  }

  /** A keyed entry whose file exists holds exactly the audio its key denotes. */
  ghost predicate Truthful(w: World, files: Files, e: Entry)
  {
    e.key != [] && e.status != Failed && e.output in files ==>
      forall o: Options, id: bytes, text: bytes ::
        Clear(o, id, e.output) && e.key == Key(o, id, text, e.output) ==>
          Fresh(w, o, id, text) == Assembled(files[e.output])
  }

  ghost predicate Faithful(w: World, d: Disk)
  {
    d.manifest.Some? ==>
      forall i :: 0 <= i < |d.manifest.value.entries| ==> Truthful(w, d.files, d.manifest.value.entries[i])
  }

  lemma {:induction false} PriorMember(entries: seq<Entry>, name: bytes)
    requires name in PriorMap(entries)
    ensures PriorMap(entries)[name] in entries && PriorMap(entries)[name].output == name
  {
    var n := |entries| - 1;
    if entries[n].output != name { PriorMember(entries[..n], name); }
  }

  lemma ClearName(o: Options, synthId: bytes, output: bytes)
    requires Clear(o, synthId, []) && NUL !in output
    ensures Clear(o, synthId, output)
  {
    var h, h' := Header(o, synthId, []), Header(o, synthId, output);
    assert forall i :: 0 <= i < 10 ==> h'[i] == h[i];
    assert NUL !in h'[10];
  }

  lemma KeyNotEmpty(o: Options, id: bytes, text: bytes, out: bytes)
    ensures Key(o, id, text, out) != []
  {
  }

  /** What a run may have changed once its first `n` units are done. */
  ghost predicate Untouched(w: World, r: Run, before: Files, after: Files, n: nat)
    requires n <= |r.units|
  {
    forall p :: (forall j :: 0 <= j < n ==> p != Filename(w, j + 1, r.units[j])) ==>
      (p in before <==> p in after) && (p in before ==> before[p] == after[p])
  }

  /** An entry is right: a unit done or skipped has its fresh audio on disk. */
  ghost predicate Right(w: World, r: Run, files: Files, e: Entry, i: nat)
    requires i < |r.units|
  {
    var name := Filename(w, i + 1, r.units[i]);
    && (e.output == name || (e.output == [] && e.status == Skipped && e.key == []))
    && Truthful(w, files, e)
    && (e.status != Failed && e.output != [] ==>
          name in files && Fresh(w, r.o, r.synthId, r.units[i].text) == Assembled(files[name]))
  }

  ghost predicate PriorFits(w: World, files: Files, prior: map<bytes, Entry>)
  {
    forall name :: name in prior ==> prior[name].output == name && Truthful(w, files, prior[name])
  }

  /** Recording what was just written is truthful: equal keys denote equal audio. */
  lemma WrittenIsTruthful(w: World, o: Options, id: bytes, text: bytes, name: bytes, files: Files, e: Entry, wav: Wav)
    requires Clear(o, id, name) && e.output == name && e.key == Key(o, id, text, name)
    requires Fresh(w, o, id, text) == Assembled(wav) && name in files && files[name] == wav
    ensures Truthful(w, files, e)
  {
    forall o': Options, id': bytes, text': bytes | Clear(o', id', name) && e.key == Key(o', id', text', name)
      ensures Fresh(w, o', id', text') == Assembled(files[name])
    {
      KeyFixesAudio(w, o, id, text, name, o', id', text', name);
    }
  }

  /** Only one path may have changed. */
  ghost predicate OnlyAt(name: bytes, before: Files, after: Files)
  {
    forall p :: p != name ==> (p in before <==> p in after) && (p in before ==> before[p] == after[p])
  }

  /** Truthfulness looks at one path only. */
  lemma TruthfulIsLocal(w: World, before: Files, after: Files, e: Entry)
    requires Truthful(w, before, e)
    requires e.output in after ==> e.output in before && before[e.output] == after[e.output]
    ensures Truthful(w, after, e)
  {
  }

  lemma UnkeyedIsTruthful(w: World, files: Files, e: Entry)
    requires e.key == [] || e.status == Failed
    ensures Truthful(w, files, e)
  {
  }

  lemma SkipIsFresh(w: World, o: Options, id: bytes, text: bytes, files: Files, prior: Entry)
    requires Truthful(w, files, prior) && Clear(o, id, prior.output)
    requires Resumable(prior, Key(o, id, text, prior.output), prior.output in files)
    ensures Fresh(w, o, id, text) == Assembled(files[prior.output])
  {
    KeyNotEmpty(o, id, text, prior.output);
  }

  lemma OneUnitRight(w: World, r: Run, i: nat, prior: map<bytes, Entry>, files: Files)
    requires Admissible(r) && i < |r.units|
    requires var name := Filename(w, i + 1, r.units[i]);
             name in prior ==> prior[name].output == name && Truthful(w, files, prior[name])
    ensures var u := RenderOne(w, r.o, r.synthId, i, r.units[i], prior, r.faults[i], files);
            Right(w, r, u.files, u.entry, i) && OnlyAt(Filename(w, i + 1, r.units[i]), files, u.files)
  {
    hide Key, Fresh, Filename, Clear, PlanText, UnitID, DurationMS, Hit, SettingsOf, Truthful;
    var unit := r.units[i];
    var name := Filename(w, i + 1, unit);
    NameIsClear(w, i + 1, unit);
    ClearName(r.o, r.synthId, name);
    var u := RenderOne(w, r.o, r.synthId, i, unit, prior, r.faults[i], files);
    if Skips(w, r.o, r.synthId, i, unit, prior, files) {
      SkipIsFresh(w, r.o, r.synthId, unit.text, files, prior[name]);
      WrittenIsTruthful(w, r.o, r.synthId, unit.text, name, u.files, u.entry, files[name]);
    } else if u.entry.status == Complete {
      WrittenIsTruthful(w, r.o, r.synthId, unit.text, name, u.files, u.entry, u.files[name]);
    } else {
      UnkeyedIsTruthful(w, u.files, u.entry);
    }
  }

  /** A unit already right stays right while another unit is rendered. */
  lemma RightStays(w: World, r: Run, before: Files, after: Files, e: Entry, i: nat, name: bytes)
    requires i < |r.units| && Right(w, r, before, e, i)
    requires OnlyAt(name, before, after) && name != Filename(w, i + 1, r.units[i]) && name != []
    ensures Right(w, r, after, e, i)
  {
    hide Filename, Fresh, Key, Clear;
  }

  lemma UntouchedGrows(w: World, r: Run, before: Files, mid: Files, after: Files, n: nat)
    requires 1 <= n <= |r.units| && Untouched(w, r, before, mid, n - 1)
    requires OnlyAt(Filename(w, n, r.units[n - 1]), mid, after)
    ensures Untouched(w, r, before, after, n)
  {
    hide Filename;
    forall p | forall j :: 0 <= j < n ==> p != Filename(w, j + 1, r.units[j])
      ensures (p in before <==> p in after) && (p in before ==> before[p] == after[p])
    {
      assert p != Filename(w, (n - 1) + 1, r.units[n - 1]);
    }
  }

  /** The unit about to be rendered is distinct from those before it, so its prior entry still holds. */
  lemma PriorStillFits(w: World, r: Run, prior: map<bytes, Entry>, before: Files, mid: Files, n: nat)
    requires 1 <= n <= |r.units| && PriorFits(w, before, prior) && Untouched(w, r, before, mid, n - 1)
    ensures var name := Filename(w, n, r.units[n - 1]);
            && name != []
            && (name in prior ==> prior[name].output == name && Truthful(w, mid, prior[name]))
            && forall j :: 0 <= j < n - 1 ==> name != Filename(w, j + 1, r.units[j])
  {
    hide Filename, Truthful;
    var name := Filename(w, n, r.units[n - 1]);
    NameIsClear(w, n, r.units[n - 1]);
    forall j | 0 <= j < n - 1 ensures name != Filename(w, j + 1, r.units[j]) {
      if name == Filename(w, j + 1, r.units[j]) { NamesDistinct(w, n, r.units[n - 1], j + 1, r.units[j]); }
    }
    if name in prior { TruthfulIsLocal(w, before, mid, prior[name]); }
  }

  /** The first `n` entries are right. */
  ghost predicate AllRight(w: World, r: Run, p: Progress, n: nat)
    requires n <= |r.units|
  {
    |p.entries| == n && forall i :: 0 <= i < n ==> Right(w, r, p.files, p.entries[i], i)
  }

  lemma {:induction false} RunRight(w: World, r: Run, prior: map<bytes, Entry>, files: Files, n: nat)
    requires Admissible(r) && n <= |r.units| && PriorFits(w, files, prior)
    ensures AllRight(w, r, After(w, r, prior, files, n), n)
    ensures Untouched(w, r, files, After(w, r, prior, files, n).files, n)
  {
    hide Filename, Fresh, Key, Clear, RenderOne, Right, Truthful, PriorFits, OnlyAt;
    if n > 0 {
      hide Untouched;
      var p, q := After(w, r, prior, files, n - 1), After(w, r, prior, files, n);
      RunRight(w, r, prior, files, n - 1);
      PriorStillFits(w, r, prior, files, p.files, n);
      OneUnitRight(w, r, n - 1, prior, p.files);
      UntouchedGrows(w, r, files, p.files, q.files, n);
      forall i | 0 <= i < n - 1 ensures Right(w, r, q.files, q.entries[i], i) {
        RightStays(w, r, p.files, q.files, p.entries[i], i, Filename(w, n, r.units[n - 1]));
      }
    }
  }

  lemma PriorMapFits(w: World, d: Disk, r: Run)
    requires Faithful(w, d)
    ensures PriorFits(w, d.files, PriorMap(Resumed(r, d).entries))
  {
    var entries := Resumed(r, d).entries;
    forall name | name in PriorMap(entries)
      ensures PriorMap(entries)[name].output == name && Truthful(w, d.files, PriorMap(entries)[name])
    {
      PriorMember(entries, name);
    }
  }

  /** Deleting files, and any run however it ends, keep the manifest faithful. */
  lemma DeleteKeeps(w: World, d: Disk, path: bytes)
    requires Faithful(w, d)
    ensures Faithful(w, d.(files := d.files - {path}))
  {
    hide Key, Fresh, Clear;
  }

  lemma RenderKeeps(w: World, d: Disk, r: Run)
    requires Faithful(w, d) && Admissible(r) && r.units != []
    ensures Faithful(w, Act(w, d, Render(r)))
  {
    hide Key, Fresh, Clear, After, PriorMap, Truthful, Filename;
    var prior := PriorMap(Resumed(r, d).entries);
    PriorMapFits(w, d, r);
    RunRight(w, r, prior, d.files, Reached(r));
  }

  lemma ActKeepsFaithful(w: World, d: Disk, a: Action)
    requires Faithful(w, d) && (a.Render? ==> Admissible(a.run))
    ensures Faithful(w, Act(w, d, a))
  {
    match a
    case Delete(path) => DeleteKeeps(w, d, path);
    case Render(run) => if run.units != [] { RenderKeeps(w, d, run); }
  }

  /** Every reachable disk is faithful: no history of runs, faults and deletions breaks it. */
  lemma {:induction false} HistoryKeepsFaithful(w: World, d: Disk, actions: seq<Action>)
    requires Faithful(w, d) && AllAdmissible(actions)
    ensures Faithful(w, Replay(w, d, actions))
  {
    if actions != [] {
      HistoryKeepsFaithful(w, d, actions[..|actions| - 1]);
      ActKeepsFaithful(w, Replay(w, d, actions[..|actions| - 1]), actions[|actions| - 1]);
    }
  }

  /** Resume is transparent: after any history from an empty directory, whatever a run reports
      as completed, or skipped with an output, is on disk as a fresh render would write it. */
  lemma ResumeIsTransparent(w: World, actions: seq<Action>, r: Run)
    requires AllAdmissible(actions) && Admissible(r) && r.units != []
    ensures var (outcome, files) := Result(w, r, Replay(w, Disk(map[], None), actions));
            outcome.Finished? && |outcome.manifest.entries| == Reached(r)
            && forall i :: 0 <= i < Reached(r) ==>
                 var e := outcome.manifest.entries[i];
                 e.status != Failed && e.output != [] ==>
                   e.output == Filename(w, i + 1, r.units[i]) && e.output in files
                   && Fresh(w, r.o, r.synthId, r.units[i].text) == Assembled(files[e.output])
  {
    var d := Replay(w, Disk(map[], None), actions);
    HistoryKeepsFaithful(w, Disk(map[], None), actions);
    PriorMapFits(w, d, r);
    RunRight(w, r, PriorMap(Resumed(r, d).entries), d.files, Reached(r));
  }

  // ---------------------------------------------------------------- resuming a finished run

  /** Nothing goes wrong in the run. */
  predicate Smooth(r: Run)
  {
    && |r.faults| == |r.units| <= r.cancelAt
    && forall i :: 0 <= i < |r.faults| ==> r.faults[i] == Faults({}, Written)
  }

  /** An entry a later resume settles without work. */
  predicate Settled(w: World, r: Run, files: Files, e: Entry, i: nat)
    requires i < |r.units|
  {
    var base := BaseEntry(w, r.o, r.synthId, i, r.units[i]);
    if e.output == []
    then
      && e == base.(status := Skipped, output := [], key := [])
      && Fresh(w, r.o, r.synthId, r.units[i].text) == NoSpeech
    else e == base.(durationMS := e.durationMS, status := e.status) && e.status != Failed && e.output in files
  }

  lemma OneUnitSettles(w: World, r: Run, i: nat, prior: map<bytes, Entry>, files: Files)
    requires Smooth(r) && i < |r.units|
    ensures var u := RenderOne(w, r.o, r.synthId, i, r.units[i], prior, r.faults[i], files);
            Settled(w, r, u.files, u.entry, i) && !u.failed && files.Keys <= u.files.Keys
  {
    hide Key, Fresh, Filename, PlanText, UnitID, DurationMS, SettingsOf;
    NameIsClear(w, i + 1, r.units[i]);
    NeverFaulted(w, r.o, r.synthId, r.units[i].text);
  }

  lemma NeverFaulted(w: World, o: Options, id: bytes, text: bytes)
    ensures !Fresh(w, o, id, text).Faulted?
  {
  }

  lemma {:induction false} RunSettles(w: World, r: Run, prior: map<bytes, Entry>, files: Files, n: nat)
    requires Smooth(r) && n <= |r.units|
    ensures var p := After(w, r, prior, files, n);
            |p.entries| == n && p.failures == 0 && forall i :: 0 <= i < n ==> Settled(w, r, p.files, p.entries[i], i)
  {
    hide RenderOne, Settled, Fresh, Key, Filename;
    if n > 0 {
      var p, q := After(w, r, prior, files, n - 1), After(w, r, prior, files, n);
      RunSettles(w, r, prior, files, n - 1);
      OneUnitSettles(w, r, n - 1, prior, p.files);
      forall i | 0 <= i < n - 1 ensures Settled(w, r, q.files, q.entries[i], i) {
        SettledStays(w, r, p.files, q.files, p.entries[i], i);
      }
    }
  }

  lemma SettledStays(w: World, r: Run, before: Files, after: Files, e: Entry, i: nat)
    requires i < |r.units| && Settled(w, r, before, e, i) && before.Keys <= after.Keys
    ensures Settled(w, r, after, e, i)
  {
    hide Fresh, Key, Filename;
  }

  lemma {:induction false} PriorFinds(entries: seq<Entry>, i: nat)
    requires i < |entries| && forall j :: i < j < |entries| ==> entries[j].output != entries[i].output
    ensures entries[i].output in PriorMap(entries) && PriorMap(entries)[entries[i].output] == entries[i]
  {
    if i < |entries| - 1 { PriorFinds(entries[..|entries| - 1], i); }
  }

  /** The same inputs again, resuming. */
  function Again(r: Run, faults: seq<Faults>): Run
  {
    r.(o := r.o.(resume := true, overwrite := false), faults := faults)
  }

  lemma AgainSameEntry(w: World, r: Run, faults: seq<Faults>, i: nat, u: Unit)
    ensures BaseEntry(w, Again(r, faults).o, r.synthId, i, u) == BaseEntry(w, r.o, r.synthId, i, u)
    ensures Fresh(w, Again(r, faults).o, r.synthId, u.text) == Fresh(w, r.o, r.synthId, u.text)
  {
    assert SettingsOf(w, Again(r, faults).o) == SettingsOf(w, r.o);
    hide Filename, TrimSpace, UnitID, PlanText, Ascii, SettingsOf;
    var again := Again(r, faults).o;
    AssembleExt(PlanText(SettingsOf(w, r.o), u.text, true), Voice(w, r.o, r.synthId), Voice(w, again, r.synthId));
  }

  ghost predicate AllSettled(w: World, r: Run, files: Files, entries: seq<Entry>)
  {
    |entries| == |r.units| && forall i :: 0 <= i < |entries| ==> Settled(w, r, files, entries[i], i)
  }

  lemma SettledSkips(w: World, r: Run, files: Files, entries: seq<Entry>, faults: seq<Faults>, i: nat)
    requires AllSettled(w, r, files, entries) && i < |r.units| && |faults| == |r.units|
    ensures RenderOne(w, Again(r, faults).o, r.synthId, i, r.units[i], PriorMap(entries), faults[i], files)
         == UnitResult(entries[i].(status := Skipped), 0, false, files)
  {
    hide Filename, Fresh, Key, PlanText, UnitID, DurationMS, SettingsOf;
    var name := Filename(w, i + 1, r.units[i]);
    AgainSameEntry(w, r, faults, i, r.units[i]);
    forall j | 0 <= j < |entries| && entries[j].output == name ensures j == i {
      NameIsClear(w, i + 1, r.units[i]);
      assert Settled(w, r, files, entries[j], j);
      NamesDistinct(w, i + 1, r.units[i], j + 1, r.units[j]);
    }
    assert Settled(w, r, files, entries[i], i);
    if entries[i].output == [] {
      if name in PriorMap(entries) { PriorMember(entries, name); }
    } else {
      PriorFinds(entries, i);
    }
  }

  /** The first `n` entries, all skipped. */
  function MarkSkipped(entries: seq<Entry>, n: nat): (marked: seq<Entry>)
    requires n <= |entries|
    ensures |marked| == n
    ensures forall i :: 0 <= i < n ==> marked[i] == entries[i].(status := Skipped)
  {
    if n == 0 then [] else MarkSkipped(entries, n - 1) + [entries[n - 1].(status := Skipped)]
  }

  lemma {:induction false} AgainAfter(w: World, r: Run, files: Files, entries: seq<Entry>, faults: seq<Faults>, n: nat)
    requires AllSettled(w, r, files, entries) && n <= |entries| == |r.units| == |faults|
    ensures After(w, Again(r, faults), PriorMap(entries), files, n) == Progress(MarkSkipped(entries, n), 0, 0, files)
  {
    hide RenderOne, AllSettled, PriorMap, After;
    if n == 0 {
      AfterNone(w, Again(r, faults), PriorMap(entries), files);
    } else {
      AgainAfter(w, r, files, entries, faults, n - 1);
      SettledSkips(w, r, files, entries, faults, n - 1);
      AfterStep(w, Again(r, faults), PriorMap(entries), files, n);
    }
  }

  /** Resuming a run that went through, with the same inputs, synthesizes and writes nothing,
      whatever would have gone wrong: every unit is skipped and the manifest keeps its durations and rate. */
  lemma ResumeIsIdle(w: World, d: Disk, r: Run, faults: seq<Faults>)
    requires Smooth(r) && r.units != [] && |faults| == |r.units|
    ensures var done := Act(w, d, Render(r));
            var (outcome, files) := Result(w, Again(r, faults), done);
            && files == done.files && outcome.Finished? && outcome.failures == 0
            && done.manifest.Some? && |outcome.manifest.entries| == |done.manifest.value.entries| == |r.units|
            && outcome.manifest.sampleRate == done.manifest.value.sampleRate
            && forall i :: 0 <= i < |r.units| ==>
                 outcome.manifest.entries[i] == done.manifest.value.entries[i].(status := Skipped)
  {
    hide RenderOne, Settled, PriorMap, After;
    RunSettles(w, r, PriorMap(Resumed(r, d).entries), d.files, |r.units|);
    var done := Act(w, d, Render(r));
    AgainAfter(w, r, done.files, done.manifest.value.entries, faults, |r.units|);
  }
}
