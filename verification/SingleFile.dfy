/**
 Rendering one text into one file, with resume (internal/render/text.go). The caller saves
 the manifest of a render that goes through, and keeps the old one when it does not.
 Durations are whole milliseconds.
 */
module SingleFile {
  import opened Wrappers
  import opened Utf8
  import opened GoStrings
  import opened Plan
  import opened ResumeKey
  import opened UnitNames
  import opened Units

  /** The audio a fresh render of the text writes. */
  function FreshText(w: World, o: Options, synthId: bytes, text: bytes): Assembly
  {
    Assemble(PlanText(SettingsOf(w, o), text, false), Voice(w, o, synthId))
  }

  /** Equal keys denote equal audio here too. */
  lemma KeyFixesText(w: World, o: Options, id: bytes, t: bytes, out: bytes,
                     o': Options, id': bytes, t': bytes, out': bytes)
    requires Clear(o, id, out) && Clear(o', id', out')
    requires Key(o, id, t, out) == Key(o', id', t', out')
    ensures FreshText(w, o, id, t) == FreshText(w, o', id', t')
  {
    hide Key, Clear, PlanText;
    KeyFixesInputs(o, id, t, out, o', id', t', out');
    HeaderFixesSettings(o, id, out, o', id', out');
    FingerprintFixesPlan(t, t', SettingsOf(w, o), false);
    AssembleExt(PlanText(SettingsOf(w, o), t, false), Voice(w, o, id), Voice(w, o', id'));
  }

  // ---------------------------------------------------------------- manifest rows

  /** One row for each span that speaks; silence has none. */
  function Rows(spans: seq<Span>, key: bytes, out: bytes): seq<Entry>
  {
    if spans == [] then []
    else
      var rows, last := Rows(spans[..|spans| - 1], key, out), spans[|spans| - 1];
      if last.Speech? && !Blank(last.text)
      then rows + [Entry(|rows| + 1, Ascii("seg-") + Pad3(|rows| + 1), [], last.text, key, out, 0, Complete)]
      else rows
  }

  /** The total shared out evenly, the remainder on the last row. */
  function Spread(rows: seq<Entry>, total: nat): (r: seq<Entry>)
    ensures |r| == |rows|
  {
    seq(|rows|, i requires 0 <= i < |rows| =>
      rows[i].(durationMS := if i + 1 < |rows| then total / |rows| else total - total / |rows| * (|rows| - 1)))
  }

  function TotalMS(rows: seq<Entry>): int
  {
    if rows == [] then 0 else TotalMS(rows[..|rows| - 1]) + rows[|rows| - 1].durationMS
  }

  function MarkSkipped(rows: seq<Entry>): (r: seq<Entry>)
    ensures |r| == |rows| && forall i :: 0 <= i < |r| ==> r[i] == rows[i].(status := Skipped)
  {
    seq(|rows|, i requires 0 <= i < |rows| => rows[i].(status := Skipped))
  }

  /** segmentForOutput: the first row of an output. */
  function FirstFor(rows: seq<Entry>, out: bytes): Option<Entry>
  {
    if rows == [] then None else if rows[0].output == out then Some(rows[0]) else FirstFor(rows[1..], out)
  }

  lemma {:induction false} RowsAreAlike(spans: seq<Span>, key: bytes, out: bytes, voice: bytes -> Wav)
    ensures |Rows(spans, key, out)| == FeedAll(spans, voice).speeches
    ensures forall i :: 0 <= i < |Rows(spans, key, out)| ==>
      var e := Rows(spans, key, out)[i]; e.key == key && e.output == out && e.status == Complete && e.index == i + 1
  {
    hide Blank;
    if spans != [] { RowsAreAlike(spans[..|spans| - 1], key, out, voice); }
  }

  lemma {:induction false} EvenTotal(rows: seq<Entry>, each: int)
    requires forall i :: 0 <= i < |rows| ==> rows[i].durationMS == each
    ensures TotalMS(rows) == each * |rows|
  {
    if rows != [] {
      EvenTotal(rows[..|rows| - 1], each);
      OneMoreTime(each, |rows| - 1);
    }
  }

  lemma OneMoreTime(each: int, n: nat)
    ensures each * n + each == each * (n + 1)
  {
  }

  /** The durations of the rows add up to that of the file, and no two but the last differ. */
  lemma DurationsAddUp(rows: seq<Entry>, total: nat)
    requires rows != []
    ensures TotalMS(Spread(rows, total)) == total
    ensures forall i, j :: 0 <= i < j < |rows| - 1 ==>
      Spread(rows, total)[i].durationMS == Spread(rows, total)[j].durationMS
  {
    var s, n := Spread(rows, total), |rows| - 1;
    EvenTotal(s[..n], total / |rows|);
  }

  // ---------------------------------------------------------------- one render

  datatype Request = Request(
    o: Options, synthId: bytes, out: bytes, text: bytes, synthFaults: set<nat>, write: WriteOutcome)

  datatype Outcome = NoOutput | NoText | SynthFailed | NotWritten | Rendered(manifest: Manifest, durationMS: int)

  function Prior(r: Request, d: Disk): Option<Manifest>
  {
    if r.o.resume && !r.o.overwrite then d.manifest else None
  }

  function KeyOf(r: Request): bytes { Key(r.o, r.synthId, r.text, r.out) }

  predicate SkipsText(r: Request, d: Disk)
  {
    && Prior(r, d).Some?
    && var p := FirstFor(Prior(r, d).value.entries, r.out);
       p.Some? && Resumable(p.value, KeyOf(r), r.out in d.files)
  }

  /** RenderText. */
  function RenderTextSpec(w: World, r: Request, d: Disk): (Outcome, Files)
  {
    var spans := PlanText(SettingsOf(w, r.o), r.text, false);
    if r.out == [] then (NoOutput, d.files)
    else
      match FreshText(w, r.o, r.synthId, r.text)
      case NoSpeech => (NoText, d.files)
      case Faulted => (SynthFailed, d.files)
      case Assembled(wav) =>
        if SkipsText(r, d) then
          var m := d.manifest.value;
          (Rendered(m.(entries := MarkSkipped(m.entries)), TotalMS(m.entries)), d.files)
        else if Hit(spans, r.synthFaults) then (SynthFailed, d.files)
        else
          match r.write
          case WriteFailed(left) => (NotWritten, Left(d.files, r.out, left))
          case Written =>
            (Rendered(Manifest(wav.rate, Spread(Rows(spans, KeyOf(r), r.out), Millis(wav))), Millis(wav)),
             d.files[r.out := wav])
  }

  /** samplesDurationMS. */
  function Millis(wav: Wav): (ms: nat)
    ensures ms == DurationMS(wav)
  {
    if wav.rate <= 0 then 0
    else
      NotNegative(|wav.samples| * 1000, wav.rate);
      |wav.samples| * 1000 / wav.rate
  }

  lemma NotNegative(a: nat, b: int)
    requires b > 0
    ensures a / b >= 0
  {
  }

  class Output {
    var files: Files
    var manifest: Option<Manifest>

    constructor (d: Disk)
      ensures this.files == d.files && this.manifest == d.manifest
    {
      files, manifest := d.files, d.manifest;
    }

    /** The injected WAV writer. */
    method WriteWAV(path: bytes, wav: Wav, outcome: WriteOutcome) returns (ok: bool)
      modifies this`files
      ensures ok == outcome.Written?
      ensures files == if ok then old(files)[path := wav] else Left(old(files), path, outcome.left)
    {
      ok := outcome.Written?;
      files := if ok then files[path := wav] else Left(files, path, outcome.left);
    }

    method RenderText(w: World, r: Request) returns (outcome: Outcome)
      modifies this`files
      ensures (outcome, files) == RenderTextSpec(w, r, Disk(old(files), manifest))
    {
      hide Key, PlanText, FeedAll, Hit, Rows, Spread, DurationMS, FirstFor, SettingsOf, TotalMS;
      if r.out == [] { return NoOutput; }
      var voice := Voice(w, r.o, r.synthId);
      var spans := PlanWithPauses(SettingsOf(w, r.o), r.text, false);
      var speechCount := CountSpeech(spans, voice);
      if speechCount == 0 { return NoText; }
      var key := ComputeResumeKey(r.o, r.synthId, r.text, r.out);
      if r.o.resume && !r.o.overwrite && manifest.Some? {
        var prior := SegmentForOutput(manifest.value.entries, r.out);
        if prior.Some? && Resumable(prior.value, key, r.out in files) {
          var skipped, totalMS := SkipAll(manifest.value.entries);
          return Rendered(Manifest(manifest.value.sampleRate, skipped), totalMS);
        }
      }
      outcome := SynthesizeAndWrite(w, r, spans, voice, key);
    }

    method SynthesizeAndWrite(w: World, r: Request, spans: seq<Span>, voice: bytes -> Wav, key: bytes)
      returns (outcome: Outcome)
      requires FeedAll(spans, voice).speeches > 0
      modifies this`files
      ensures var wav := Assemble(spans, voice).wav;
        if Hit(spans, r.synthFaults) then outcome == SynthFailed && files == old(files)
        else if r.write.WriteFailed? then outcome == NotWritten && files == Left(old(files), r.out, r.write.left)
        else
          && outcome == Rendered(Manifest(wav.rate, Spread(Rows(spans, key, r.out), Millis(wav))), Millis(wav))
          && files == old(files)[r.out := wav]
    {
      hide FeedAll, Hit, Rows, Spread, DurationMS;
      var sound := SynthSpans(spans, voice, r.synthFaults);
      if !sound.Assembled? { return SynthFailed; }
      var ok := WriteWAV(r.out, sound.wav, r.write);
      if !ok { return NotWritten; }
      var rows := BuildRows(spans, key, r.out);
      RowsAreAlike(spans, key, r.out, voice);
      rows := SpreadDuration(rows, Millis(sound.wav));
      return Rendered(Manifest(sound.wav.rate, rows), Millis(sound.wav));
    }
  }

  method SegmentForOutput(rows: seq<Entry>, out: bytes) returns (r: Option<Entry>)
    ensures r == FirstFor(rows, out)
  {
    for i := 0 to |rows|
      invariant FirstFor(rows, out) == FirstFor(rows[i..], out)
    {
      if rows[i].output == out { return Some(rows[i]); }
      assert rows[i..][1..] == rows[i + 1..];
    }
    return None;
  }

  method BuildRows(spans: seq<Span>, key: bytes, out: bytes) returns (rows: seq<Entry>)
    ensures rows == Rows(spans, key, out)
  {
    hide Utf8.Content, TrimSpace, Pad3, Ascii;
    rows := [];
    for i := 0 to |spans|
      invariant rows == Rows(spans[..i], key, out)
    {
      assert spans[..i + 1][..i] == spans[..i];
      if spans[i].Speech? {
        TrimSpaceKeeps(spans[i].text);
        if TrimSpace(spans[i].text) != [] {
          var n := |rows| + 1;
          rows := rows + [Entry(n, Ascii("seg-") + Pad3(n), [], spans[i].text, key, out, 0, Complete)];
        }
      }
    }
    assert spans[..|spans|] == spans;
  }

  method SpreadDuration(built: seq<Entry>, totalMS: nat) returns (rows: seq<Entry>)
    requires built != []
    ensures rows == Spread(built, totalMS)
  {
    rows := built;
    var n := |rows|;
    var each := totalMS / n;
    for i := 0 to n
      invariant |rows| == n && forall j :: i <= j < n ==> rows[j] == built[j]
      invariant forall j :: 0 <= j < i ==> rows[j] == built[j].(durationMS := each)
    {
      rows := rows[i := rows[i].(durationMS := each)];
    }
    LastShare(each, n, totalMS);
    rows := rows[n - 1 := rows[n - 1].(durationMS := rows[n - 1].durationMS + totalMS - each * n)];
  }

  lemma LastShare(each: int, n: int, total: int)
    ensures each + total - each * n == total - each * (n - 1)
  {
  }

  method SkipAll(rows: seq<Entry>) returns (skipped: seq<Entry>, totalMS: int)
    ensures skipped == MarkSkipped(rows) && totalMS == TotalMS(rows)
  {
    skipped, totalMS := rows, 0;
    for i := 0 to |rows|
      invariant |skipped| == |rows| && totalMS == TotalMS(rows[..i])
      invariant forall j :: 0 <= j < i ==> skipped[j] == rows[j].(status := Skipped)
      invariant forall j :: i <= j < |rows| ==> skipped[j] == rows[j]
    {
      assert rows[..i + 1][..i] == rows[..i];
      skipped := skipped[i := skipped[i].(status := Skipped)];
      totalMS := totalMS + skipped[i].durationMS;
    }
    assert rows[..|rows|] == rows;
  }

  // ---------------------------------------------------------------- histories

  datatype Action = OneRender(request: Request) | Lose(path: bytes)

  function Act(w: World, d: Disk, a: Action): Disk
  {
    match a
    case Lose(path) => d.(files := d.files - {path})
    case OneRender(r) =>
      var (outcome, files) := RenderTextSpec(w, r, d);
      Disk(files, if outcome.Rendered? then Some(outcome.manifest) else d.manifest)
  }

  /** A row this renderer wrote: its key is the key of some render that speaks. */
  ghost predicate Genuine(w: World, e: Entry)
  {
    && e.status != Failed
    && exists o: Options, id: bytes, text: bytes :: KeyedBy(w, e, o, id, text)
  }

  predicate KeyedBy(w: World, e: Entry, o: Options, id: bytes, text: bytes)
  {
    Clear(o, id, e.output) && e.key == Key(o, id, text, e.output) && FreshText(w, o, id, text).Assembled?
  }

  /** Its file, if there, holds the audio its key denotes. */
  ghost predicate TruthfulRow(w: World, files: Files, e: Entry)
  {
    e.output in files ==>
      forall o: Options, id: bytes, text: bytes :: KeyedBy(w, e, o, id, text) ==>
        FreshText(w, o, id, text) == Assembled(files[e.output])
  }

  ghost predicate FaithfulText(w: World, d: Disk)
  {
    d.manifest.Some? ==>
      forall i :: 0 <= i < |d.manifest.value.entries| ==>
        Genuine(w, d.manifest.value.entries[i]) && TruthfulRow(w, d.files, d.manifest.value.entries[i])
  }

  /** The saved manifest has a row for this output. */
  predicate Listed(d: Disk, out: bytes)
  {
    d.manifest.Some? && exists i :: 0 <= i < |d.manifest.value.entries| && d.manifest.value.entries[i].output == out
  }

  lemma {:induction false} FirstForIsRow(rows: seq<Entry>, out: bytes)
    ensures FirstFor(rows, out).Some? ==> FirstFor(rows, out).value in rows && FirstFor(rows, out).value.output == out
  {
    if rows != [] { FirstForIsRow(rows[1..], out); }
  }

  /** What a key denotes is fixed by any one request behind it. */
  lemma WrittenRow(w: World, files: Files, e: Entry, o: Options, id: bytes, text: bytes)
    requires KeyedBy(w, e, o, id, text)
    requires e.output in files && FreshText(w, o, id, text) == Assembled(files[e.output])
    ensures TruthfulRow(w, files, e)
  {
    hide FreshText, Key, Clear;
    forall o': Options, id': bytes, text': bytes | KeyedBy(w, e, o', id', text')
      ensures FreshText(w, o', id', text') == Assembled(files[e.output])
    {
      KeyFixesText(w, o, id, text, e.output, o', id', text', e.output);
    }
  }

  /** Files other than a row's own do not matter to it. */
  lemma RowIsLocal(w: World, before: Files, after: Files, e: Entry)
    requires TruthfulRow(w, before, e)
    requires e.output in after ==> e.output in before && before[e.output] == after[e.output]
    ensures TruthfulRow(w, after, e)
  {
    hide KeyedBy, FreshText;
  }

  lemma SkippedRow(w: World, files: Files, e: Entry)
    requires Genuine(w, e) && TruthfulRow(w, files, e)
    ensures Genuine(w, e.(status := Skipped)) && TruthfulRow(w, files, e.(status := Skipped))
  {
    hide FreshText, Key, Clear;
    var f := e.(status := Skipped);
    assert forall o: Options, id: bytes, text: bytes :: KeyedBy(w, f, o, id, text) == KeyedBy(w, e, o, id, text);
    var o: Options, id: bytes, text: bytes :| KeyedBy(w, e, o, id, text);
    assert KeyedBy(w, f, o, id, text);
  }

  /** The write does not fail, or leaves no file, or no saved row speaks of the output. */
  predicate Harmless(d: Disk, r: Request)
  {
    r.write.WriteFailed? ==> r.write.left.None? || !Listed(d, r.out)
  }

  lemma SkipKeepsFaithful(w: World, d: Disk)
    requires FaithfulText(w, d) && d.manifest.Some?
    ensures FaithfulText(w, d.(manifest := Some(d.manifest.value.(entries := MarkSkipped(d.manifest.value.entries)))))
  {
    hide Genuine, TruthfulRow;
    var rows := d.manifest.value.entries;
    forall i | 0 <= i < |rows|
      ensures Genuine(w, MarkSkipped(rows)[i]) && TruthfulRow(w, d.files, MarkSkipped(rows)[i])
    {
      SkippedRow(w, d.files, rows[i]);
    }
  }

  lemma WriteKeepsFaithful(w: World, files: Files, r: Request, wav: Wav, total: nat)
    requires Clear(r.o, r.synthId, r.out) && FreshText(w, r.o, r.synthId, r.text) == Assembled(wav)
    ensures var rows := Spread(Rows(PlanText(SettingsOf(w, r.o), r.text, false), KeyOf(r), r.out), total);
      FaithfulText(w, Disk(files[r.out := wav], Some(Manifest(wav.rate, rows))))
  {
    hide FreshText, Key, Clear, PlanText, SettingsOf, Rows, TruthfulRow;
    var spans := PlanText(SettingsOf(w, r.o), r.text, false);
    RowsAreAlike(spans, KeyOf(r), r.out, Voice(w, r.o, r.synthId));
    var rows := Spread(Rows(spans, KeyOf(r), r.out), total);
    forall i | 0 <= i < |rows| ensures Genuine(w, rows[i]) && TruthfulRow(w, files[r.out := wav], rows[i]) {
      assert KeyedBy(w, rows[i], r.o, r.synthId, r.text);
      WrittenRow(w, files[r.out := wav], rows[i], r.o, r.synthId, r.text);
    }
  }

  /** Losing the file, or rewriting one no row speaks of, keeps the manifest faithful. */
  lemma LeftKeepsFaithful(w: World, d: Disk, out: bytes, left: Option<Wav>)
    requires FaithfulText(w, d) && (left.None? || !Listed(d, out))
    ensures FaithfulText(w, d.(files := Left(d.files, out, left)))
  {
    hide Genuine, TruthfulRow;
    if d.manifest.Some? {
      var rows := d.manifest.value.entries;
      forall i | 0 <= i < |rows| ensures TruthfulRow(w, Left(d.files, out, left), rows[i]) {
        RowIsLocal(w, d.files, Left(d.files, out, left), rows[i]);
      }
    }
  }

  /** The disk after a request, by how it ended. */
  lemma AfterRequest(w: World, d: Disk, r: Request)
    ensures var (outcome, files) := RenderTextSpec(w, r, d); var after := Act(w, d, OneRender(r));
      && (outcome.NotWritten? ==>
            r.write.WriteFailed? && after == d.(files := Left(d.files, r.out, r.write.left)))
      && (outcome.Rendered? && SkipsText(r, d) ==>
            d.manifest.Some?
            && after == d.(manifest := Some(d.manifest.value.(entries := MarkSkipped(d.manifest.value.entries)))))
      && (outcome.Rendered? && !SkipsText(r, d) ==>
            && FreshText(w, r.o, r.synthId, r.text).Assembled?
            && var wav := FreshText(w, r.o, r.synthId, r.text).wav;
               var rows := Rows(PlanText(SettingsOf(w, r.o), r.text, false), KeyOf(r), r.out);
               after == Disk(d.files[r.out := wav], Some(Manifest(wav.rate, Spread(rows, Millis(wav))))))
      && after.files == files
      && (outcome.Rendered? ==> FreshText(w, r.o, r.synthId, r.text).Assembled?)
      && (!outcome.NotWritten? && !outcome.Rendered? ==> after == d)
  {
    hide FreshText, Left, Hit, KeyOf, Rows, Spread, MarkSkipped, TotalMS, Millis, PlanText, SettingsOf, FirstFor;
  }

  lemma RenderKeepsFaithful(w: World, d: Disk, r: Request)
    requires FaithfulText(w, d) && Clear(r.o, r.synthId, r.out) && Harmless(d, r)
    ensures FaithfulText(w, Act(w, d, OneRender(r)))
  {
    hide FaithfulText, Clear, FreshText, Listed, Left, Act, RenderTextSpec, SkipsText, KeyOf, Rows, Spread, MarkSkipped;
    AfterRequest(w, d, r);
    var outcome := RenderTextSpec(w, r, d).0;
    if outcome.NotWritten? {
      LeftKeepsFaithful(w, d, r.out, r.write.left);
    } else if outcome.Rendered? {
      if SkipsText(r, d) {
        SkipKeepsFaithful(w, d);
      } else {
        var wav := FreshText(w, r.o, r.synthId, r.text).wav;
        WriteKeepsFaithful(w, d.files, r, wav, Millis(wav));
      }
    }
  }

  function Replay(w: World, d: Disk, actions: seq<Action>): Disk
  {
    if actions == [] then d else Act(w, Replay(w, d, actions[..|actions| - 1]), actions[|actions| - 1])
  }

  predicate AllHarmless(w: World, d: Disk, actions: seq<Action>)
  {
    actions == []
    || (&& AllHarmless(w, d, actions[..|actions| - 1])
        && var a := actions[|actions| - 1];
           a.OneRender? ==>
             (&& Clear(a.request.o, a.request.synthId, a.request.out)
              && Harmless(Replay(w, d, actions[..|actions| - 1]), a.request)))
  }

  lemma {:induction false} TextHistoryFaithful(w: World, d: Disk, actions: seq<Action>)
    requires FaithfulText(w, d) && AllHarmless(w, d, actions)
    ensures FaithfulText(w, Replay(w, d, actions))
  {
    hide FaithfulText, Act, Clear, Harmless;
    if actions != [] {
      var init, a := actions[..|actions| - 1], actions[|actions| - 1];
      TextHistoryFaithful(w, d, init);
      match a
      case OneRender(r) => RenderKeepsFaithful(w, Replay(w, d, init), r);
      case Lose(path) => DeleteKeepsText(w, Replay(w, d, init), path);
    }
  }

  lemma DeleteKeepsText(w: World, d: Disk, path: bytes)
    requires FaithfulText(w, d)
    ensures FaithfulText(w, Act(w, d, Lose(path)))
  {
    hide FaithfulText;
    LeftKeepsFaithful(w, d, path, None);
  }

  // ---------------------------------------------------------------- how a render ends

  /** Row `k` is the first one of the manifest for this output, made under this key without failing. */
  predicate FirstRow(rows: seq<Entry>, k: nat, out: bytes, key: bytes)
    requires k < |rows|
  {
    && rows[k].output == out && (forall j :: 0 <= j < k ==> rows[j].output != out)
    && rows[k].key == key && rows[k].status != Failed
  }

  /** Resuming, the file is there and the first row for it has this render's key and did not fail. */
  ghost predicate ReusableText(r: Request, d: Disk)
  {
    && r.o.resume && !r.o.overwrite && d.manifest.Some? && r.out in d.files
    && exists k :: 0 <= k < |d.manifest.value.entries| && FirstRow(d.manifest.value.entries, k, r.out, KeyOf(r))
  }

  lemma {:induction false} FirstForIsFirst(rows: seq<Entry>, out: bytes) returns (k: nat)
    ensures k <= |rows| && forall j :: 0 <= j < k ==> rows[j].output != out
    ensures FirstFor(rows, out).Some? <==> k < |rows|
    ensures k < |rows| ==> rows[k].output == out && FirstFor(rows, out) == Some(rows[k])
  {
    if rows == [] || rows[0].output == out {
      k := 0;
    } else {
      k := FirstForIsFirst(rows[1..], out);
      k := k + 1;
      assert forall j :: 1 <= j < |rows| ==> rows[j] == rows[1..][j - 1];
    }
  }

  lemma SkipsIsReusable(r: Request, d: Disk)
    ensures SkipsText(r, d) <==> ReusableText(r, d)
  {
    hide FirstFor, KeyOf;
    if d.manifest.Some? {
      var rows := d.manifest.value.entries;
      var k := FirstForIsFirst(rows, r.out);
      if k < |rows| { assert SkipsText(r, d) ==> FirstRow(rows, k, r.out, KeyOf(r)); }
      if ReusableText(r, d) {
        var m :| 0 <= m < |rows| && FirstRow(rows, m, r.out, KeyOf(r));
        assert m == k;
      }
    }
  }

  /** Some span of the plan fails. */
  predicate PlanFails(w: World, r: Request)
  {
    exists k: nat :: k < |PlanText(SettingsOf(w, r.o), r.text, false)| && k in r.synthFaults
  }

  /** Nothing else stops a render that has visible text and cannot reuse what is there. */
  ghost predicate EndsAs(w: World, r: Request, d: Disk, o: Outcome)
  {
    var anew := r.out != [] && !Blank(r.text) && !ReusableText(r, d);
    && (o == NoOutput <==> r.out == [])
    && (o == NoText <==> r.out != [] && Blank(r.text))
    && (o == SynthFailed <==> anew && PlanFails(w, r))
    && (o == NotWritten <==> anew && !PlanFails(w, r) && r.write.WriteFailed?)
  }

  /** The fresh audio, or what was there, and rows that tell of it. */
  ghost predicate Reports(w: World, r: Request, d: Disk, o: Outcome, files: Files)
    requires o.Rendered?
  {
    && r.out in files
    && if ReusableText(r, d) then AsBefore(o, d)
       else FreshText(w, r.o, r.synthId, r.text) == Assembled(files[r.out]) && Anew(o, r, files[r.out])
  }

  predicate SameExcept(before: Files, after: Files, out: bytes)
  {
    forall p :: p in before.Keys + after.Keys && p != out ==> p in before && p in after && after[p] == before[p]
  }

  /** How a render ends, told from the request and the disk. */
  lemma TextEnds(w: World, r: Request, d: Disk)
    ensures var (o, files) := RenderTextSpec(w, r, d);
      && EndsAs(w, r, d, o) && (o.Rendered? ==> Reports(w, r, d, o, files)) && SameExcept(d.files, files, r.out)
      && (o != NotWritten && (o.Rendered? ==> ReusableText(r, d)) ==> files == d.files)
  {
    hide FreshText, PlanText, SettingsOf, KeyOf, Rows, Spread, TotalMS, Anew, Blank, FirstFor, ReusableText, Millis;
    SkipsIsReusable(r, d);
    TextAudible(w, r);
    if r.out != [] && !Blank(r.text) && !SkipsText(r, d) {
      var wav := FreshText(w, r.o, r.synthId, r.text).wav;
      RowsTell(w, r, wav);
    }
    assert ReusableText(r, d) ==> r.out in d.files by { assert SkipsText(r, d) ==> r.out in d.files; }
  }

  lemma TextAudible(w: World, r: Request)
    ensures FreshText(w, r.o, r.synthId, r.text).NoSpeech? <==> Blank(r.text)
    ensures !FreshText(w, r.o, r.synthId, r.text).Faulted?
  {
    hide PlanText, SettingsOf, Blank, Assemble;
    PlanAudible(SettingsOf(w, r.o), r.text, false, Voice(w, r.o, r.synthId));
  }

  /** The saved rows, marked as skipped. */
  predicate AsBefore(o: Outcome, d: Disk)
    requires o.Rendered?
  {
    && d.manifest.Some? && o.manifest.sampleRate == d.manifest.value.sampleRate
    && o.manifest.entries == MarkSkipped(d.manifest.value.entries) && o.durationMS == TotalMS(d.manifest.value.entries)
  }

  /** What the rows say, one after the other. */
  function RowsSay(rows: seq<Entry>): bytes
  {
    if rows == [] then [] else RowsSay(rows[..|rows| - 1]) + Content(rows[|rows| - 1].text)
  }

  /** Rows numbered from one, of this key and output, that say the whole text and last as long as the file. */
  predicate Anew(o: Outcome, r: Request, wav: Wav)
    requires o.Rendered?
  {
    var rows := o.manifest.entries;
    && o.manifest.sampleRate == wav.rate && o.durationMS == DurationMS(wav) && TotalMS(rows) == DurationMS(wav)
    && rows != [] && RowsSay(rows) == Content(r.text)
    && forall i :: 0 <= i < |rows| ==>
         rows[i].index == i + 1 && rows[i].key == KeyOf(r) && rows[i].output == r.out && rows[i].status == Complete
  }

  lemma SpokenNext(spans: seq<Span>, n: nat)
    requires n < |spans|
    ensures Spoken(spans[..n + 1]) == Spoken(spans[..n]) + (if spans[n].Speech? then Content(spans[n].text) else [])
  {
    hide Utf8.Content;
    PlanJoin(spans[..n], [spans[n]]);
    assert spans[..n + 1] == spans[..n] + [spans[n]];
    assert [spans[n]][1..] == [] && Spoken([]) == [];
    if spans[n].Speech? { assert Content(spans[n].text) + [] == Content(spans[n].text); }
    assert Spoken([spans[n]]) == if spans[n].Speech? then Content(spans[n].text) else [];
  }

  lemma {:induction false} RowsSpeak(spans: seq<Span>, n: nat, key: bytes, out: bytes)
    requires n <= |spans|
    ensures RowsSay(Rows(spans[..n], key, out)) == Spoken(spans[..n])
  {
    hide Utf8.Content;
    if n > 0 {
      var rows := Rows(spans[..n - 1], key, out);
      RowsSpeak(spans, n - 1, key, out);
      SpokenNext(spans, n - 1);
      assert spans[..n][..n - 1] == spans[..n - 1];
      hide Spoken;
      assert Spoken(spans[..n - 1]) + [] == Spoken(spans[..n - 1]);
      if spans[n - 1].Speech? && !Blank(spans[n - 1].text) {
        var all := Rows(spans[..n], key, out);
        assert all[..|all| - 1] == rows;
      }
    }
  }

  lemma {:induction false} SpreadSays(rows: seq<Entry>, spread: seq<Entry>)
    requires |rows| == |spread| && forall i :: 0 <= i < |rows| ==> rows[i].text == spread[i].text
    ensures RowsSay(rows) == RowsSay(spread)
  {
    hide Utf8.Content;
    if rows != [] { SpreadSays(rows[..|rows| - 1], spread[..|rows| - 1]); }
  }

  lemma RowsTell(w: World, r: Request, wav: Wav)
    requires FreshText(w, r.o, r.synthId, r.text) == Assembled(wav)
    ensures var rows := Rows(PlanText(SettingsOf(w, r.o), r.text, false), KeyOf(r), r.out);
      Anew(Rendered(Manifest(wav.rate, Spread(rows, Millis(wav))), Millis(wav)), r, wav)
  {
    hide PlanText, SettingsOf, KeyOf, Rows, Utf8.Content, RowsSay, TotalMS, Spread, FeedAll;
    var spans := PlanText(SettingsOf(w, r.o), r.text, false);
    var rows := Rows(spans, KeyOf(r), r.out);
    RowsAreAlike(spans, KeyOf(r), r.out, Voice(w, r.o, r.synthId));
    DurationsAddUp(rows, Millis(wav));
    SpreadKeeps(rows, Millis(wav));
    SpreadSays(rows, Spread(rows, Millis(wav)));
    RowsSpeak(spans, |spans|, KeyOf(r), r.out);
    assert spans[..|spans|] == spans;
    PlanSays(SettingsOf(w, r.o), r.text, false);
  }

  lemma SpreadKeeps(rows: seq<Entry>, total: nat)
    ensures forall i :: 0 <= i < |rows| ==>
      Spread(rows, total)[i] == rows[i].(durationMS := Spread(rows, total)[i].durationMS)
  {
  }

  // ---------------------------------------------------------------- main results

  lemma SkippedIsFresh(w: World, d: Disk, r: Request)
    requires FaithfulText(w, d) && Clear(r.o, r.synthId, r.out) && SkipsText(r, d)
    requires FreshText(w, r.o, r.synthId, r.text).Assembled?
    ensures r.out in d.files && FreshText(w, r.o, r.synthId, r.text) == Assembled(d.files[r.out])
  {
    hide Clear, FreshText, Key, Genuine;
    var rows := d.manifest.value.entries;
    FirstForIsRow(rows, r.out);
    var e := FirstFor(rows, r.out).value;
    assert KeyedBy(w, e, r.o, r.synthId, r.text);
    assert TruthfulRow(w, d.files, e);
  }

  /** Resume is transparent: after any harmless history, a render that goes through, skipped or not, leaves
      in its file what a fresh render would write. */
  lemma TextResumeIsTransparent(w: World, actions: seq<Action>, r: Request)
    requires AllHarmless(w, Disk(map[], None), actions) && Clear(r.o, r.synthId, r.out)
    ensures var (outcome, files) := RenderTextSpec(w, r, Replay(w, Disk(map[], None), actions));
      outcome.Rendered? ==> r.out in files && FreshText(w, r.o, r.synthId, r.text) == Assembled(files[r.out])
  {
    hide FaithfulText, Replay, AllHarmless, Clear, FreshText, SkipsText, RenderTextSpec, Act, Rows, Spread, MarkSkipped;
    var d := Replay(w, Disk(map[], None), actions);
    AfterRequest(w, d, r);
    NothingSaved(w);
    TextHistoryFaithful(w, Disk(map[], None), actions);
    if RenderTextSpec(w, r, d).0.Rendered? && SkipsText(r, d) { SkippedIsFresh(w, d, r); }
  }

  lemma NothingSaved(w: World)
    ensures FaithfulText(w, Disk(map[], None))
  {
  }

  /** A failed write is harmless whatever it leaves behind exactly when no saved row speaks of the output. */
  lemma FailedWriteExact(w: World, d: Disk, r: Request)
    requires FaithfulText(w, d)
    requires RenderTextSpec(w, r.(write := WriteFailed(None)), d).0 == NotWritten
    ensures (forall left: Option<Wav> :: FaithfulText(w, Act(w, d, OneRender(r.(write := WriteFailed(left))))))
      <==> !Listed(d, r.out)
  {
    hide FaithfulText, Listed, Left, FreshText, Hit, Key;
    forall left: Option<Wav>
      ensures Act(w, d, OneRender(r.(write := WriteFailed(left)))) == d.(files := Left(d.files, r.out, left))
    {
      StillNotWritten(w, d, r, left);
    }
    if Listed(d, r.out) {
      var left := WrongAudio(w, d, r.out);
      assert !FaithfulText(w, Act(w, d, OneRender(r.(write := WriteFailed(left)))));
    } else {
      forall left: Option<Wav>
        ensures FaithfulText(w, Act(w, d, OneRender(r.(write := WriteFailed(left)))))
      {
        LeftKeepsFaithful(w, d, r.out, left);
      }
    }
  }

  lemma StillNotWritten(w: World, d: Disk, r: Request, left: Option<Wav>)
    requires RenderTextSpec(w, r.(write := WriteFailed(None)), d).0 == NotWritten
    ensures Act(w, d, OneRender(r.(write := WriteFailed(left)))) == d.(files := Left(d.files, r.out, left))
  {
    hide Left, FreshText, Hit, Key, Rows, Spread, FirstFor, PlanText, SettingsOf, DurationMS, TotalMS;
    var q := r.(write := WriteFailed(left));
    assert KeyOf(q) == KeyOf(r) && SkipsText(q, d) == SkipsText(r.(write := WriteFailed(None)), d);
  }

  /** Some leftover audio is not what a saved row's key denotes. */
  lemma WrongAudio(w: World, d: Disk, out: bytes) returns (left: Option<Wav>)
    requires FaithfulText(w, d) && Listed(d, out)
    ensures !FaithfulText(w, d.(files := Left(d.files, out, left)))
  {
    hide FreshText, Key, Clear;
    var i :| 0 <= i < |d.manifest.value.entries| && d.manifest.value.entries[i].output == out;
    var e := d.manifest.value.entries[i];
    assert Genuine(w, e);
    var o: Options, id: bytes, text: bytes :| KeyedBy(w, e, o, id, text);
    var right := FreshText(w, o, id, text).wav;
    left := Some(Wav(right.rate + 1, right.samples));
    var files := Left(d.files, out, left);
    assert out in files && files[out] != right;
    assert !TruthfulRow(w, files, e);
  }

  /** A resume of what was just rendered reports the rows, the rate and the duration it skipped, and writes nothing. */
  lemma SkipRepeats(w: World, d: Disk, r: Request, again: Request)
    requires RenderTextSpec(w, r, d).0.Rendered? && !SkipsText(r, d)
    requires KeyOf(again) == KeyOf(r) && again.out == r.out && again.o.resume && !again.o.overwrite
    requires FreshText(w, again.o, again.synthId, again.text).Assembled?
    ensures var (first, files) := RenderTextSpec(w, r, d);
      var (second, after) := RenderTextSpec(w, again, Act(w, d, OneRender(r)));
      && after == files && second.Rendered? && second.durationMS == first.durationMS
      && second.manifest.sampleRate == first.manifest.sampleRate
      && second.manifest.entries == MarkSkipped(first.manifest.entries) && first.manifest.entries != []
  {
    hide Key, PlanText, SettingsOf, Hit, DurationMS, Rows, Spread, TotalMS, FeedAll;
    var spans := PlanText(SettingsOf(w, r.o), r.text, false);
    RowsAreAlike(spans, KeyOf(r), r.out, Voice(w, r.o, r.synthId));
    var rows, wav := Rows(spans, KeyOf(r), r.out), FreshText(w, r.o, r.synthId, r.text).wav;
    assert rows != [];
    DurationsAddUp(rows, Millis(wav));
    SpreadFirst(rows, Millis(wav));
  }

  lemma SpreadFirst(rows: seq<Entry>, total: nat)
    requires rows != []
    ensures var s := Spread(rows, total);
      s[0] == rows[0].(durationMS := s[0].durationMS) && FirstFor(s, rows[0].output) == Some(s[0])
  {
  }
}
