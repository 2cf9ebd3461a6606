/**
 Span planning and sample assembly (internal/render/plan.go). A plan is speech text
 interleaved with silence; assembling it concatenates synthesized and silent samples.
 Durations are whole nanoseconds; a sample is an opaque integer, silence is zero.
 */
module Plan {
  import opened Utf8
  import opened GoStrings
  import opened Seqs
  import opened Segment

  datatype Span = Speech(text: bytes) | Silence(duration: int)

  /** What planning reads from the render options. */
  datatype Settings = Settings(headingPause: nat, paragraphPause: nat, maxChars: int)

  function Speeches(segs: seq<bytes>): (spans: seq<Span>)
    ensures |spans| == |segs|
    ensures forall i :: 0 <= i < |segs| ==> spans[i] == Speech(segs[i])
  {
    seq(|segs|, i requires 0 <= i < |segs| => Speech(segs[i]))
  }

  method PlanSpeechSpans(text: bytes, maxChars: int) returns (spans: seq<Span>)
    ensures spans == Speeches(Segments(text, maxChars))
  {
    var segs := SegmentText(text, maxChars);
    spans := [];
    for i := 0 to |segs|
      invariant spans == Speeches(segs[..i])
    {
      Grow(segs, i);
      spans := spans + [Speech(segs[i])];
    }
    assert segs[..|segs|] == segs;
  }

  /** The silence after a paragraph that is not the last. */
  function Gap(s: Settings, heading: bool): seq<Span>
  {
    if heading && s.headingPause > 0 then [Silence(s.headingPause)]
    else if s.paragraphPause > 0 then [Silence(s.paragraphPause)]
    else []
  }

  /** The paused plan of normalised paragraphs; `heading` holds for the first of a unit. */
  function Paused(s: Settings, paras: seq<bytes>, heading: bool): seq<Span>
  {
    if paras == [] then []
    else Speeches(Segments(paras[0], s.maxChars))
         + (if |paras| == 1 then [] else Gap(s, heading))
         + Paused(s, paras[1..], false)
  }

  /** The plan of a text depends on its normalised paragraphs only. */
  function PlanOfParas(s: Settings, paras: seq<bytes>, unit: bool): seq<Span>
  {
    if s.headingPause == 0 && s.paragraphPause == 0
    then Speeches(Pack(paras, [], EffectiveCap(s.maxChars)))
    else Paused(s, paras, unit)
  }

  function PlanText(s: Settings, text: bytes, unit: bool): seq<Span> { PlanOfParas(s, Paras(text), unit) }

  lemma TidySegments(p: bytes, maxChars: int)
    requires Tidy(p)
    ensures Segments(p, maxChars) != []
  {
    SegmentsKeepContent(p, maxChars);
    TrimmedNotBlank(p);
  }

  method FirstNonEmptyParaIndex(paras: seq<bytes>) returns (k: nat)
    ensures (forall j :: 0 <= j < |paras| ==> NormalizeWhitespace(paras[j]) == []) ==> k == 0
    ensures (exists j :: 0 <= j < |paras| && NormalizeWhitespace(paras[j]) != [])
        ==> k < |paras| && NormalizeWhitespace(paras[k]) != []
            && forall j :: 0 <= j < k ==> NormalizeWhitespace(paras[j]) == []
  {
    for i := 0 to |paras|
      invariant forall j :: 0 <= j < i ==> NormalizeWhitespace(paras[j]) == []
    {
      if NormalizeWhitespace(paras[i]) != [] { return i; }
    }
    return 0;
  }

  method IsLastPara(paras: seq<bytes>, i: nat) returns (isLast: bool)
    requires i < |paras|
    ensures isLast <==> forall j :: i < j < |paras| ==> NormalizeWhitespace(paras[j]) == []
  {
    for j := i + 1 to |paras|
      invariant forall k :: i < k < j ==> NormalizeWhitespace(paras[k]) == []
    {
      if NormalizeWhitespace(paras[j]) != [] { return false; }
    }
    return true;
  }

  lemma PausedStep(s: Settings, paras: seq<bytes>, i: nat, heading: bool, spans: seq<Span>)
    requires i < |paras|
    ensures spans + Paused(s, paras[i..], heading)
         == spans + Speeches(Segments(paras[i], s.maxChars)) + (if i + 1 == |paras| then [] else Gap(s, heading))
            + Paused(s, paras[i + 1..], false)
  {
    var speech, gap := Speeches(Segments(paras[i], s.maxChars)), if i + 1 == |paras| then [] else Gap(s, heading);
    Next(paras, i);
    assert Paused(s, paras[i..], heading) == speech + gap + Paused(s, paras[i + 1..], false);
    Assoc(spans, speech + gap, Paused(s, paras[i + 1..], false));
    Assoc(spans, speech, gap);
  }

  /** The silence the loop inserts after paragraph `i`. */
  method GapAfter(s: Settings, paras: seq<bytes>, i: nat, unit: bool, firstIdx: nat) returns (gap: seq<Span>)
    requires i < |paras| && firstIdx == 0
    requires forall j :: 0 <= j < |paras| ==> NormalizeWhitespace(paras[j]) != []
    ensures gap == if i + 1 == |paras| then [] else Gap(s, unit && i == 0)
  {
    var isLast := IsLastPara(paras, i);
    assert i + 1 < |paras| ==> NormalizeWhitespace(paras[i + 1]) != [];
    gap := [];
    if !isLast {
      if unit && i == firstIdx && s.headingPause > 0 {
        gap := [Silence(s.headingPause)];
      } else if s.paragraphPause > 0 {
        gap := [Silence(s.paragraphPause)];
      }
    }
  }

  /** Paragraphs never normalise to nothing, so the source's two `continue`s are unreachable. */
  lemma ParagraphsNotEmpty(text: bytes)
    ensures |Paras(text)| == |Paragraphs(text)|
    ensures forall i :: 0 <= i < |Paras(text)| ==>
      Paras(text)[i] == NormalizeWhitespace(Paragraphs(text)[i]) && Paras(text)[i] != [] && Tidy(Paras(text)[i])
  {
    ParasKeep(text);
  }

  method PlanParagraphs(s: Settings, text: bytes, unit: bool) returns (spans: seq<Span>)
    ensures spans == Paused(s, Paras(text), unit)
  {
    ParagraphsNotEmpty(text);
    hide Segments, Paused, Tidy, NormalizeWhitespace, Paragraphs, Paras, Gap;
    var paras := SplitParagraphs(text);
    var firstIdx := FirstNonEmptyParaIndex(paras);
    ghost var tidy := Paras(text);
    assert firstIdx == 0 by { if |paras| > 0 { assert NormalizeWhitespace(paras[0]) != []; } }
    spans := [];
    assert tidy[0..] == tidy;
    for i := 0 to |paras|
      invariant spans + Paused(s, tidy[i..], unit && i == 0) == Paused(s, tidy, unit)
    {
      var speech := PlanSpeechSpans(NormalizeWhitespace(paras[i]), s.maxChars);
      var gap := GapAfter(s, paras, i, unit, firstIdx);
      PausedStep(s, tidy, i, unit && i == 0, spans);
      spans := spans + speech + gap;
    }
    PausedEnd(s, tidy, unit && |paras| == 0);
  }

  method PlanWithPauses(s: Settings, text: bytes, unit: bool) returns (spans: seq<Span>)
    ensures spans == PlanText(s, text, unit)
  {
    if s.headingPause == 0 && s.paragraphPause == 0 {
      spans := PlanSpeechSpans(text, s.maxChars);
    } else {
      spans := PlanParagraphs(s, text, unit);
    }
  }

  lemma PausedEnd(s: Settings, paras: seq<bytes>, heading: bool)
    ensures Paused(s, paras[|paras|..], heading) == []
  {
  }

  // ---------------------------------------------------------------- what a plan says

  /** The visible bytes of everything the plan speaks, in order. */
  function Spoken(spans: seq<Span>): bytes
  {
    if spans == [] then []
    else (if spans[0].Speech? then Content(spans[0].text) else []) + Spoken(spans[1..])
  }

  function TotalSilence(spans: seq<Span>): int
  {
    if spans == [] then 0
    else (if spans[0].Silence? then spans[0].duration else 0) + TotalSilence(spans[1..])
  }

  lemma {:induction false} PlanJoin(a: seq<Span>, b: seq<Span>)
    ensures Spoken(a + b) == Spoken(a) + Spoken(b)
    ensures TotalSilence(a + b) == TotalSilence(a) + TotalSilence(b)
  {
    hide Utf8.Content;
    if a == [] {
      assert a + b == b;
    } else {
      assert (a + b)[1..] == a[1..] + b;
      PlanJoin(a[1..], b);
    }
  }

  lemma {:induction false} SpeechesSpeak(segs: seq<bytes>)
    ensures Spoken(Speeches(segs)) == Contents(segs)
    ensures TotalSilence(Speeches(segs)) == 0
  {
    hide Utf8.Content;
    if segs != [] {
      assert Speeches(segs)[1..] == Speeches(segs[1..]);
      SpeechesSpeak(segs[1..]);
    }
  }

  lemma GapIsSilent(s: Settings, heading: bool)
    ensures Spoken(Gap(s, heading)) == []
    ensures TotalSilence(Gap(s, heading)) == if heading && s.headingPause > 0 then s.headingPause else s.paragraphPause
  {
    assert Gap(s, heading) != [] ==> Gap(s, heading)[1..] == [];
  }

  /** Silence of a paused plan: one pause between neighbours, the first one the heading's. */
  function SilenceBetween(s: Settings, paras: nat, heading: bool): int
  {
    if paras <= 1 then 0
    else (if heading && s.headingPause > 0 then s.headingPause else s.paragraphPause)
         + (paras - 2) * s.paragraphPause
  }

  lemma {:induction false} PausedSays(s: Settings, paras: seq<bytes>, heading: bool)
    ensures Spoken(Paused(s, paras, heading)) == Contents(paras)
    ensures TotalSilence(Paused(s, paras, heading)) == SilenceBetween(s, |paras|, heading)
  {
    hide Utf8.Content, Segments, Gap, Spoken, TotalSilence, Speeches;
    if paras == [] {
      NothingSaid();
    } else {
      PausedSays(s, paras[1..], false);
      OneParagraphSays(s, paras, heading);
      GapIsSilent(s, heading);
    }
  }

  lemma NothingSaid()
    ensures Spoken([]) == [] && TotalSilence([]) == 0
  {
  }

  lemma OneParagraphSays(s: Settings, paras: seq<bytes>, heading: bool)
    requires paras != []
    ensures Spoken(Paused(s, paras, heading)) == Content(paras[0]) + Spoken(Paused(s, paras[1..], false))
    ensures TotalSilence(Paused(s, paras, heading))
      == (if |paras| == 1 then 0 else TotalSilence(Gap(s, heading))) + TotalSilence(Paused(s, paras[1..], false))
  {
    hide Utf8.Content, Segments, Gap, Spoken, TotalSilence, Speeches;
    var speech := Speeches(Segments(paras[0], s.maxChars));
    var gap := if |paras| == 1 then [] else Gap(s, heading);
    NothingSaid();
    SegmentsKeepContent(paras[0], s.maxChars);
    SpeechesSpeak(Segments(paras[0], s.maxChars));
    GapIsSilent(s, heading);
    PlanJoin(speech, gap);
    PlanJoin(speech + gap, Paused(s, paras[1..], false));
    assert Spoken(speech + gap) == Content(paras[0]) by { assert Content(paras[0]) + [] == Content(paras[0]); }
  }

  /** A plan speaks exactly the text, and pauses once between paragraphs. */
  lemma PlanSays(s: Settings, text: bytes, unit: bool)
    ensures Spoken(PlanText(s, text, unit)) == Content(text)
    ensures TotalSilence(PlanText(s, text, unit)) == SilenceBetween(s, |Paras(text)|, unit)
  {
    hide Utf8.Content;
    ParasKeep(text);
    SegmentsKeepContent(text, s.maxChars);
    SpeechesSpeak(Segments(text, s.maxChars));
    PausedSays(s, Paras(text), unit);
  }

  /** The pauses of a plan, in order. */
  function Silences(spans: seq<Span>): seq<int>
  {
    if spans == [] then []
    else (if spans[0].Silence? then [spans[0].duration] else []) + Silences(spans[1..])
  }

  /** Between `n` paragraphs: one pause, then another for all that follow; a pause of zero is left out. */
  function Pauses(first: nat, later: nat, n: nat): seq<int>
    decreases n
  {
    if n <= 1 then [] else (if first > 0 then [first] else []) + Pauses(later, later, n - 1)
  }

  lemma {:induction false} SilencesJoin(a: seq<Span>, b: seq<Span>)
    ensures Silences(a + b) == Silences(a) + Silences(b)
  {
    if a == [] {
      assert a + b == b;
    } else {
      SilencesJoin(a[1..], b);
      HeadOff(a);
      OneMore(a[0], a[1..]);
      OneMore(a[0], a[1..] + b);
      Assoc([a[0]], a[1..], b);
      Assoc(Silences([a[0]]), Silences(a[1..]), Silences(b));
      hide Silences;
    }
  }

  lemma HeadOff(a: seq<Span>)
    requires a != []
    ensures [a[0]] + a[1..] == a
  {
  }

  lemma OneMore(span: Span, rest: seq<Span>)
    ensures Silences([span] + rest) == Silences([span]) + Silences(rest)
  {
    assert ([span] + rest)[1..] == rest && [span][1..] == [] && Silences([]) == [];
    assert Silences([span]) == if span.Silence? then [span.duration] else [];
  }

  lemma {:induction false} SpeechesAreLoud(segs: seq<bytes>)
    ensures Silences(Speeches(segs)) == []
  {
    if segs != [] {
      assert Speeches(segs)[1..] == Speeches(segs[1..]);
      SpeechesAreLoud(segs[1..]);
    }
  }

  lemma GapPause(s: Settings, heading: bool)
    ensures var pause := if heading && s.headingPause > 0 then s.headingPause else s.paragraphPause;
      Silences(Gap(s, heading)) == if pause > 0 then [pause] else []
  {
    assert Gap(s, heading) != [] ==> Gap(s, heading)[1..] == [];
  }

  lemma {:induction false} PausedPauses(s: Settings, paras: seq<bytes>, heading: bool)
    ensures Silences(Paused(s, paras, heading))
      == Pauses(if heading && s.headingPause > 0 then s.headingPause else s.paragraphPause, s.paragraphPause, |paras|)
  {
    hide Segments, Gap, Speeches;
    if paras != [] {
      var speech := Speeches(Segments(paras[0], s.maxChars));
      var gap := if |paras| == 1 then [] else Gap(s, heading);
      PausedPauses(s, paras[1..], false);
      SpeechesAreLoud(Segments(paras[0], s.maxChars));
      GapPause(s, heading);
      SilencesJoin(speech, gap);
      SilencesJoin(speech + gap, Paused(s, paras[1..], false));
      assert [] + Silences(gap) == Silences(gap);
    }
  }

  /** A pause is all zeros, as many as fit its duration. */
  lemma PauseSamples(duration: int, rate: int)
    requires duration > 0 && rate > 0
    ensures var zeros := Zeros(duration, rate);
      && (forall i :: 0 <= i < |zeros| ==> zeros[i] == 0)
      && |zeros| * NANOS_PER_SECOND <= duration * rate < (|zeros| + 1) * NANOS_PER_SECOND
  {
    assert duration * rate > 0;
  }

  /** Every span is worth something: speech is visible, silence is positive. */
  predicate Useful(spans: seq<Span>)
  {
    forall i :: 0 <= i < |spans| ==> if spans[i].Speech? then !Blank(spans[i].text) else spans[i].duration > 0
  }

  // ---------------------------------------------------------------- assembling samples

  const NANOS_PER_SECOND := 1_000_000_000

  datatype Wav = Wav(rate: int, samples: seq<int>)

  datatype Assembly = NoSpeech | Faulted | Assembled(wav: Wav)

  /** silenceSamples. */
  function Zeros(duration: int, rate: int): seq<int>
  {
    if duration <= 0 || rate <= 0 then [] else seq(duration * rate / NANOS_PER_SECOND, _ => 0)
  }

  /** The loop state of synthSpans. */
  datatype Acc = Acc(all: seq<int>, rate: int, pending: int, speeches: nat)

  /** One span of synthSpans, `voice` being the synthesizer. */
  function Feed(acc: Acc, span: Span, voice: bytes -> Wav): Acc
  {
    match span
    case Speech(text) =>
      if Blank(text) then acc
      else
        var r := voice(text);
        var flushes := acc.rate == 0 && acc.pending > 0 && r.rate > 0;
        Acc(acc.all + (if flushes then Zeros(acc.pending, r.rate) else []) + r.samples,
            if acc.rate == 0 then r.rate else acc.rate,
            if flushes then 0 else acc.pending,
            acc.speeches + 1)
    case Silence(duration) =>
      if duration <= 0 then acc
      else if acc.rate == 0 then acc.(pending := acc.pending + duration)
      else acc.(all := acc.all + Zeros(duration, acc.rate))
  }

  function FeedAll(spans: seq<Span>, voice: bytes -> Wav): Acc
  {
    if spans == [] then Acc([], 0, 0, 0)
    else Feed(FeedAll(spans[..|spans| - 1], voice), spans[|spans| - 1], voice)
  }

  function Assemble(spans: seq<Span>, voice: bytes -> Wav): Assembly
  {
    var acc := FeedAll(spans, voice);
    if acc.speeches == 0 then NoSpeech else Assembled(Wav(acc.rate, acc.all))
  }

  /** Some span of the plan fails. */
  predicate Hit(spans: seq<Span>, faults: set<nat>) { exists i: nat :: i < |spans| && i in faults }

  /** synthSpans; `faults` holds the spans at which the context is done or synthesis fails. */
  method SynthSpans(spans: seq<Span>, voice: bytes -> Wav, faults: set<nat>) returns (r: Assembly)
    ensures r == if Hit(spans, faults) then Faulted else Assemble(spans, voice)
  {
    hide Utf8.Content, TrimSpace, Zeros;
    var all, rate, pending, speeches := [], 0, 0, 0;
    for i := 0 to |spans|
      invariant Acc(all, rate, pending, speeches) == FeedAll(spans[..i], voice)
      invariant forall j: nat :: j < i ==> j !in faults
    {
      if i in faults { return Faulted; }
      assert spans[..i + 1][..i] == spans[..i];
      match spans[i] {
        case Speech(text) =>
          TrimSpaceKeeps(text);
          if TrimSpace(text) != [] {
            var synthesized := voice(text);
            if rate == 0 {
              rate := synthesized.rate;
              if pending > 0 && rate > 0 {
                all := all + Zeros(pending, rate);
                pending := 0;
              }
            }
            all := all + synthesized.samples;
            speeches := speeches + 1;
          }
        case Silence(duration) =>
          if duration > 0 {
            if rate == 0 { pending := pending + duration; } else { all := all + Zeros(duration, rate); }
          }
      }
    }
    assert spans[..|spans|] == spans;
    if speeches == 0 { return NoSpeech; }
    return Assembled(Wav(rate, all));
  }

  /** What a plan should sound like: its spans one after the other at one rate. */
  function Sound(spans: seq<Span>, voice: bytes -> Wav, rate: int): seq<int>
  {
    if spans == [] then []
    else Sound(spans[..|spans| - 1], voice, rate)
         + (match spans[|spans| - 1] case Speech(text) => voice(text).samples case Silence(d) => Zeros(d, rate))
  }

  lemma {:induction false} SoundOfPrefix(spans: seq<Span>, voice: bytes -> Wav, n: nat)
    requires 1 <= n <= |spans| && Useful(spans) && spans[0].Speech? && voice(spans[0].text).rate > 0
    ensures var acc := FeedAll(spans[..n], voice); var rate := voice(spans[0].text).rate;
            acc.rate == rate && acc.pending == 0 && acc.speeches > 0 && acc.all == Sound(spans[..n], voice, rate)
  {
    hide GoStrings.Blank;
    assert spans[..n][..n - 1] == spans[..n - 1];
    if n == 1 {
      assert FeedAll(spans[..0], voice) == Acc([], 0, 0, 0);
      assert Sound(spans[..0], voice, voice(spans[0].text).rate) == [];
    } else {
      SoundOfPrefix(spans, voice, n - 1);
    }
  }

  /** The spans of a planned text are useful, and the first one speaks. */
  lemma PlanIsUseful(s: Settings, text: bytes, unit: bool)
    ensures Useful(PlanText(s, text, unit))
    ensures PlanText(s, text, unit) == [] <==> Blank(text)
    ensures !Blank(text) ==> PlanText(s, text, unit)[0].Speech?
  {
    hide Segments, Paras;
    ParasKeep(text);
    if s.headingPause == 0 && s.paragraphPause == 0 {
      PackVisible(Paras(text), [], EffectiveCap(s.maxChars));
    } else {
      PausedVisible(s, Paras(text), unit);
    }
    PlanSays(s, text, unit);
    if Paras(text) == [] { assert Contents([]) == []; }
    PlanNotEmpty(s, text, unit);
  }

  /** Visible text is audible: a plan assembles to nothing exactly for blank text. */
  lemma PlanAudible(s: Settings, text: bytes, unit: bool, voice: bytes -> Wav)
    ensures Assemble(PlanText(s, text, unit), voice).NoSpeech? <==> Blank(text)
    ensures !Assemble(PlanText(s, text, unit), voice).Faulted?
  {
    hide PlanText, Blank;
    var plan := PlanText(s, text, unit);
    PlanIsUseful(s, text, unit);
    if plan != [] { FirstSpeaks(plan, voice, |plan|); }
    assert plan[..|plan|] == plan;
  }

  lemma {:induction false} FirstSpeaks(spans: seq<Span>, voice: bytes -> Wav, n: nat)
    requires 1 <= n <= |spans| && Useful(spans) && spans[0].Speech?
    ensures FeedAll(spans[..n], voice).speeches > 0
  {
    hide Blank, Zeros;
    assert spans[..n][..n - 1] == spans[..n - 1];
    if n > 1 { FirstSpeaks(spans, voice, n - 1); }
  }

  lemma PlanNotEmpty(s: Settings, text: bytes, unit: bool)
    ensures PlanText(s, text, unit) == [] ==> Blank(text)
    ensures Blank(text) && Useful(PlanText(s, text, unit)) ==>
      PlanText(s, text, unit) == [] || PlanText(s, text, unit)[0].Silence?
  {
    hide Utf8.Content, Paras, Segments, Paused;
    PlanSays(s, text, unit);
    assert Spoken([]) == [];
  }

  lemma SpeechIsUseful(p: bytes, maxChars: int)
    requires Tidy(p)
    ensures Useful(Speeches(Segments(p, maxChars))) && Segments(p, maxChars) != []
  {
    ParasKeep(p);
    PackVisible(Paras(p), [], EffectiveCap(maxChars));
    TidySegments(p, maxChars);
  }

  lemma UsefulJoin(a: seq<Span>, b: seq<Span>)
    requires Useful(a) && Useful(b)
    ensures Useful(a + b)
  {
  }

  predicate AllVisible(segs: seq<bytes>)
  {
    forall i :: 0 <= i < |segs| ==> !Blank(segs[i])
  }

  lemma {:induction false} LongSplitVisible(p: bytes, cap: nat)
    requires cap >= 1 && Trimmed(p)
    ensures AllVisible(LongSplit(p, cap))
    decreases |p|
  {
    if |p| <= cap {
      if p != [] { TrimmedNotBlank(p); }
    } else {
      CutKeeps(p, cap);
      TrimSpaceKeeps(p[..Cut(p, cap)]);
      TrimSpaceKeeps(p[Cut(p, cap)..]);
      hide Utf8.Content, Cut;
      LongSplitVisible(TrimSpace(p[Cut(p, cap)..]), cap);
    }
  }

  lemma {:induction false} PackVisible(paras: seq<bytes>, buf: bytes, cap: nat)
    requires cap >= 1 && AllTidy(paras)
    ensures AllVisible(Pack(paras, buf, cap))
  {
    TrimSpaceKeeps(buf);
    hide Utf8.Content, TrimSpace;
    if paras != [] {
      LongSplitVisible(paras[0], cap);
      PackVisible(paras[1..], Collected(paras[0], buf, cap), cap);
    }
  }

  lemma {:induction false} PausedVisible(s: Settings, paras: seq<bytes>, heading: bool)
    requires AllTidy(paras)
    ensures Useful(Paused(s, paras, heading))
    ensures paras != [] ==> Paused(s, paras, heading) != [] && Paused(s, paras, heading)[0].Speech?
  {
    if paras != [] {
      var speech := Speeches(Segments(paras[0], s.maxChars));
      var gap := if |paras| == 1 then [] else Gap(s, heading);
      SpeechIsUseful(paras[0], s.maxChars);
      assert Useful(gap);
      PausedVisible(s, paras[1..], false);
      hide Segments, Gap, Tidy, Useful;
      UsefulJoin(speech, gap);
      UsefulJoin(speech + gap, Paused(s, paras[1..], false));
    }
  }

  /** The rate at which the first segment of a visible text is synthesized. */
  function FirstRate(s: Settings, text: bytes, unit: bool, voice: bytes -> Wav): int
    requires !Blank(text)
  {
    PlanIsUseful(s, text, unit);
    voice(PlanText(s, text, unit)[0].text).rate
  }

  /** A planned text sounds like its spans in order, at the rate of its first segment. */
  lemma PlanSounds(s: Settings, text: bytes, unit: bool, voice: bytes -> Wav)
    requires !Blank(text) ==> FirstRate(s, text, unit, voice) > 0
    ensures Assemble(PlanText(s, text, unit), voice) ==
      if Blank(text) then NoSpeech
      else
        var rate := FirstRate(s, text, unit, voice);
        Assembled(Wav(rate, Sound(PlanText(s, text, unit), voice, rate)))
  {
    PlanIsUseful(s, text, unit);
    var plan := PlanText(s, text, unit);
    if !Blank(text) {
      SoundOfPrefix(plan, voice, |plan|);
      assert plan[..|plan|] == plan;
    }
  }
}
