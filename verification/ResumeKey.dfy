/**
 What makes skipping sound (internal/render/resume.go): the text fingerprint and the
 NUL-separated hash input of a resume key. SHA-256 is taken to be injective, so a key
 *is* its hash input here.
 */
module ResumeKey {
  import opened Utf8
  import opened GoStrings
  import opened Seqs
  import opened Segment
  import opened Plan

  const NUL: byte := 0

  // ---------------------------------------------------------------- fingerprint

  const PARAGRAPH_BREAK: bytes := [NEWLINE, NEWLINE]

  function Fingerprint(text: bytes): bytes { Join(Paras(text), PARAGRAPH_BREAK) }

  method ResumeTextFingerprint(text: bytes) returns (fp: bytes)
    ensures fp == Fingerprint(text)
  {
    var paras := SplitParagraphs(text);
    ghost var raw := paras;
    for i := 0 to |paras|
      invariant |paras| == |raw|
      invariant forall j :: 0 <= j < i ==> paras[j] == NormalizeWhitespace(raw[j])
      invariant forall j :: i <= j < |paras| ==> paras[j] == raw[j]
    {
      paras := paras[i := NormalizeWhitespace(paras[i])];
    }
    assert paras == Paras(text);
    fp := Join(paras, PARAGRAPH_BREAK);
  }

  /** Joining tidy paragraphs with blank lines is injective. */
  lemma {:induction false} BreakJoinInjective(a: seq<bytes>, b: seq<bytes>)
    requires AllTidy(a) && AllTidy(b) && Join(a, PARAGRAPH_BREAK) == Join(b, PARAGRAPH_BREAK)
    ensures a == b
  {
    hide Utf8.Step, Utf8.WellFormedWidth, NormalizeWhitespace;
    BreakJoinEmpty(a);
    BreakJoinEmpty(b);
    if a != [] && b != [] {
      assert Tidy(a[0]) && Tidy(b[0]);
      var x, y := BreakTail(a), BreakTail(b);
      FirstPartFixed(a[0], x, b[0], y, NEWLINE);
      if |a| > 1 && |b| > 1 {
        JoinSlices(PARAGRAPH_BREAK, Join(a[1..], PARAGRAPH_BREAK));
        JoinSlices(PARAGRAPH_BREAK, Join(b[1..], PARAGRAPH_BREAK));
        BreakJoinInjective(a[1..], b[1..]);
      }
    }
  }

  lemma BreakJoinEmpty(a: seq<bytes>)
    requires AllTidy(a)
    ensures a == [] <==> Join(a, PARAGRAPH_BREAK) == []
  {
    if a != [] { assert Tidy(a[0]); }
  }

  /** What follows the first paragraph in the joined text. */
  ghost function BreakTail(a: seq<bytes>): (x: bytes)
    requires a != []
    ensures x == [] || x[0] == NEWLINE
    ensures Join(a, PARAGRAPH_BREAK) == a[0] + x
    ensures |a| > 1 ==> x == PARAGRAPH_BREAK + Join(a[1..], PARAGRAPH_BREAK)
    ensures |a| == 1 ==> x == []
  {
    if |a| == 1 then
      assert a[0] + [] == a[0];
      []
    else
      Assoc(a[0], PARAGRAPH_BREAK, Join(a[1..], PARAGRAPH_BREAK));
      PARAGRAPH_BREAK + Join(a[1..], PARAGRAPH_BREAK)
  }

  /** Two texts have one fingerprint exactly when they have the same normalised paragraphs. */
  lemma FingerprintExact(t: bytes, u: bytes)
    ensures Fingerprint(t) == Fingerprint(u) <==> Paras(t) == Paras(u)
  {
    if Fingerprint(t) == Fingerprint(u) {
      ParasKeep(t);
      ParasKeep(u);
      BreakJoinInjective(Paras(t), Paras(u));
    }
  }

  /** Equal fingerprints give identical span plans, in either mode, under any settings. */
  lemma FingerprintFixesPlan(t: bytes, u: bytes, s: Settings, unit: bool)
    requires Fingerprint(t) == Fingerprint(u)
    ensures PlanText(s, t, unit) == PlanText(s, u, unit)
  {
    FingerprintExact(t, u);
  }

  lemma {:induction false} LineEndIs(s: bytes, k: nat)
    requires k <= |s| && (k == |s| || s[k] == NEWLINE) && forall j :: 0 <= j < k ==> s[j] != NEWLINE
    ensures LineEnd(s) == k
  {
    if k > 0 { LineEndIs(s[1..], k - 1); }
  }

  /** The first line of a text is what stands in front of the first newline. */
  lemma FirstLine(p: bytes, rest: bytes)
    requires NEWLINE !in p
    ensures Lines(p + [NEWLINE] + rest) == [p] + Lines(rest)
  {
    var s := p + [NEWLINE] + rest;
    LineEndIs(s, |p|);
    assert s[..|p|] == p && s[|p| + 1..] == rest;
  }

  lemma OneLine(p: bytes)
    requires NEWLINE !in p
    ensures Lines(p) == [p]
  {
    LineEndIs(p, |p|);
  }

  /** A blank line ends the paragraph in front of it. */
  lemma GatherOne(p: bytes, lines: seq<bytes>)
    requires !Blank(p)
    ensures Gather([p], []) == [p]
    ensures Gather([p] + ([[]] + lines), []) == [p] + Gather(lines, [])
  {
    hide Utf8.Content;
    assert Blank([]) by { EmptyContent(); }
    assert ([p] + ([[]] + lines))[1..] == [[]] + lines;
    assert ([[]] + lines)[1..] == lines;
    assert Gather([[]] + lines, p) == [p] + Gather(lines, []);
  }

  /** Tidy paragraphs joined by blank lines are read back as those paragraphs. */
  lemma {:induction false} ParagraphsOfJoin(ps: seq<bytes>)
    requires AllTidy(ps)
    ensures Paragraphs(Join(ps, PARAGRAPH_BREAK)) == ps
  {
    hide Gather, Lines, Blank, NormalizeWhitespace;
    if ps == [] {
      NoParagraphs();
    } else {
      var p, rest := ps[0], Join(ps[1..], PARAGRAPH_BREAK);
      TrimmedNotBlank(p);
      GatherOne(p, Lines(rest));
      if |ps| == 1 {
        OneLine(p);
      } else {
        ParagraphsOfJoin(ps[1..]);
        assert p + PARAGRAPH_BREAK + rest == p + [NEWLINE] + ([] + [NEWLINE] + rest);
        FirstLine(p, [] + [NEWLINE] + rest);
        FirstLine([], rest);
      }
    }
  }

  lemma NoParagraphs()
    ensures Paragraphs([]) == []
  {
    EmptyContent();
    OneLine([]);
  }

  /** The fingerprint is a normal form: read as a text, it has the same paragraphs and the same fingerprint. */
  lemma FingerprintIsNormalForm(text: bytes)
    ensures Paras(Fingerprint(text)) == Paras(text)
    ensures Fingerprint(Fingerprint(text)) == Fingerprint(text)
  {
    hide Paragraphs, NormalizeWhitespace;
    ParasKeep(text);
    ParagraphsOfJoin(Paras(text));
    var ps := Paras(text);
    assert NormalizeAll(ps) == ps;
  }

  // ---------------------------------------------------------------- hash input

  /** Each field followed by one NUL byte, as the hash is fed. */
  function HashInput(fields: seq<bytes>): bytes
  {
    if fields == [] then [] else fields[0] + [NUL] + HashInput(fields[1..])
  }

  predicate NulFree(fields: seq<bytes>)
  {
    forall i :: 0 <= i < |fields| ==> NUL !in fields[i]
  }

  lemma FieldThenNul(a: bytes, x: bytes, b: bytes, y: bytes)
    requires NUL !in a && NUL !in b && a + [NUL] + x == b + [NUL] + y
    ensures a == b && x == y
  {
    Assoc(a, [NUL], x);
    Assoc(b, [NUL], y);
    FirstPartFixed(a, [NUL] + x, b, [NUL] + y, NUL);
    JoinSlices([NUL], x);
    JoinSlices([NUL], y);
  }

  /** With no NUL in front of the last field, the hash input gives every field back. */
  lemma {:induction false} HashInputInjective(a: seq<bytes>, b: seq<bytes>)
    requires |a| == |b| > 0
    requires NulFree(a[..|a| - 1]) && NulFree(b[..|b| - 1])
    requires HashInput(a) == HashInput(b)
    ensures a == b
  {
    if |a| == 1 {
      assert HashInput(a[1..]) == [] && HashInput(b[1..]) == [];
      assert a[0] + [NUL] + [] == a[0] + [NUL] && b[0] + [NUL] + [] == b[0] + [NUL];
      assert |a[0]| == |b[0]|;
      JoinSlices(a[0], [NUL]);
      JoinSlices(b[0], [NUL]);
      assert a == [a[0]] && b == [b[0]];
    } else {
      assert a[0] == a[..|a| - 1][0] && b[0] == b[..|b| - 1][0];
      FieldThenNul(a[0], HashInput(a[1..]), b[0], HashInput(b[1..]));
      assert a[1..][..|a| - 2] == a[..|a| - 1][1..] && b[1..][..|b| - 2] == b[..|b| - 1][1..];
      HashInputInjective(a[1..], b[1..]);
    }
  }

  /** Moving the separator: a NUL inside a field can be read as the end of that field. */
  lemma SeparatorMoves(u: bytes, v: bytes, w: bytes, rest: seq<bytes>)
    ensures HashInput([u + [NUL] + v, w] + rest) == HashInput([u, v + [NUL] + w] + rest)
  {
    var a, b := [u + [NUL] + v, w] + rest, [u, v + [NUL] + w] + rest;
    assert a[1..] == [w] + rest && b[1..] == [v + [NUL] + w] + rest;
    assert a[1..][1..] == rest && b[1..][1..] == rest;
    var tail := HashInput(rest);
    calc {
      HashInput(a);
      u + [NUL] + v + [NUL] + (w + [NUL] + tail);
      { assert u + [NUL] + v + [NUL] + (w + [NUL] + tail) == u + [NUL] + (v + [NUL] + w + [NUL] + tail); }
      u + [NUL] + (v + [NUL] + w + [NUL] + tail);
      HashInput(b);
    }
  }

  lemma {:induction false} HashInputAfter(pre: seq<bytes>, a: seq<bytes>, b: seq<bytes>)
    requires HashInput(a) == HashInput(b)
    ensures HashInput(pre + a) == HashInput(pre + b)
  {
    if pre == [] {
      assert pre + a == a && pre + b == b;
    } else {
      assert (pre + a)[1..] == pre[1..] + a && (pre + b)[1..] == pre[1..] + b;
      HashInputAfter(pre[1..], a, b);
    }
  }

  /** A list of fields shares its hash input with no other list of that length. */
  ghost predicate Unambiguous(fields: seq<bytes>)
  {
    forall other: seq<bytes> ::
      |other| == |fields| && HashInput(other) == HashInput(fields) ==> other == fields
  }

  lemma Collides(fields: seq<bytes>, other: seq<bytes>)
    requires |other| == |fields| && HashInput(other) == HashInput(fields) && other != fields
    ensures !Unambiguous(fields)
  {
  }

  /** A NUL before the last field can move into the next field. */
  lemma NulMovesRight(pre: seq<bytes>, u: bytes, v: bytes, w: bytes, rest: seq<bytes>)
    ensures !Unambiguous(pre + ([u + [NUL] + v, w] + rest))
  {
    var fields, other := pre + ([u + [NUL] + v, w] + rest), pre + ([u, v + [NUL] + w] + rest);
    SeparatorMoves(u, v, w, rest);
    HashInputAfter(pre, [u + [NUL] + v, w] + rest, [u, v + [NUL] + w] + rest);
    assert fields[|pre|] == u + [NUL] + v && other[|pre|] == u;
    hide HashInput, Unambiguous;
    Collides(fields, other);
  }

  /** A NUL behind the first field can move into the one before. */
  lemma NulMovesLeft(pre: seq<bytes>, p: bytes, u: bytes, v: bytes, rest: seq<bytes>)
    ensures !Unambiguous(pre + ([p, u + [NUL] + v] + rest))
  {
    var fields, other := pre + ([p, u + [NUL] + v] + rest), pre + ([p + [NUL] + u, v] + rest);
    SeparatorMoves(p, u, v, rest);
    HashInputAfter(pre, [p + [NUL] + u, v] + rest, [p, u + [NUL] + v] + rest);
    assert fields[|pre|] == p && other[|pre|] == p + [NUL] + u;
    hide HashInput, Unambiguous;
    Collides(fields, other);
  }

  /** A list holding a NUL, written out so that the byte's place is known. */
  lemma NulMakesAmbiguous(fields: seq<bytes>, i: nat, k: nat)
    requires i < |fields| && |fields| >= 2 && k < |fields[i]| && fields[i][k] == NUL
    ensures !Unambiguous(fields)
  {
    hide Unambiguous;
    var f := fields[i];
    var u, v := f[..k], f[k + 1..];
    assert f == u + [NUL] + v;
    if i + 1 < |fields| {
      assert fields == fields[..i] + ([f, fields[i + 1]] + fields[i + 2..]);
      NulMovesRight(fields[..i], u, v, fields[i + 1], fields[i + 2..]);
    } else {
      assert fields == fields[..i - 1] + ([fields[i - 1], f] + fields[i + 1..]);
      NulMovesLeft(fields[..i - 1], fields[i - 1], u, v, fields[i + 1..]);
    }
  }

  /** The hash input holds one NUL a field, and more only if some field holds one. */
  lemma {:induction false} NulCount(fields: seq<bytes>)
    ensures multiset(HashInput(fields))[NUL] >= |fields|
    ensures multiset(HashInput(fields))[NUL] == |fields| <==> NulFree(fields)
  {
    if fields != [] {
      var tail := fields[1..];
      NulCount(tail);
      assert multiset(HashInput(fields)) == multiset(fields[0]) + multiset([NUL]) + multiset(HashInput(tail));
      assert NulFree(fields) <==> NUL !in fields[0] && NulFree(tail) by {
        assert forall i :: 0 <= i < |tail| ==> tail[i] == fields[i + 1];
        assert forall i :: 1 <= i < |fields| ==> fields[i] == tail[i - 1];
      }
    }
  }

  /** A list of fields can be read back from its hash input exactly when no field holds a NUL. */
  lemma SeparatorExact(fields: seq<bytes>)
    requires |fields| >= 2
    ensures Unambiguous(fields) <==> NulFree(fields)
  {
    if NulFree(fields) {
      forall other: seq<bytes> | |other| == |fields| && HashInput(other) == HashInput(fields)
        ensures other == fields
      {
        NulCount(fields);
        NulCount(other);
        HashInputInjective(other, fields);
      }
    } else {
      var i :| 0 <= i < |fields| && NUL in fields[i];
      var k :| 0 <= k < |fields[i]| && fields[i][k] == NUL;
      NulMakesAmbiguous(fields, i, k);
    }
  }

  // ---------------------------------------------------------------- resume keys

  function Ascii(s: string): bytes
  {
    seq(|s|, i requires 0 <= i < |s| => if s[i] < 128 as char then s[i] as int else 63)
  }

  /** Decimal digits of `n`. */
  function Itoa(n: nat): (s: bytes)
    ensures s != [] && forall i :: 0 <= i < |s| ==> 48 <= s[i] <= 57
  {
    if n < 10 then [48 + n] else Itoa(n / 10) + [48 + n % 10]
  }

  /** The number a digit string denotes. */
  function Atoi(s: seq<int>): int
  {
    if s == [] then 0 else 10 * Atoi(s[..|s| - 1]) + (s[|s| - 1] - 48)
  }

  lemma {:induction false} AtoiOfItoa(n: nat)
    ensures Atoi(Itoa(n)) == n
  {
    if n < 10 {
      assert Atoi(Itoa(n)[..0]) == 0;
    } else {
      AtoiOfItoa(n / 10);
      assert Itoa(n)[..|Itoa(n)| - 1] == Itoa(n / 10);
    }
  }

  /** The render options a key and a plan read, already resolved to strings. */
  datatype Options = Options(
    source: bytes, format: bytes, voice: bytes, speed: bytes, maxSegmentChars: int,
    pauseHeading: bytes, pauseParagraph: bytes, codeBlocks: bytes, resume: bool, overwrite: bool)

  function Header(o: Options, synthId: bytes, output: bytes): seq<bytes>
  {
    [Ascii("rv=2"), Ascii("src=") + o.source, Ascii("fmt=") + o.format, Ascii("voice=") + o.voice,
     Ascii("speed=") + o.speed, Ascii("synth=") + synthId,
     Ascii("segcap=") + Itoa(EffectiveCap(o.maxSegmentChars)),
     Ascii("ph=") + TrimSpace(o.pauseHeading), Ascii("pp=") + TrimSpace(o.pauseParagraph),
     Ascii("code=") + o.codeBlocks, Ascii("out=") + output]
  }

  function KeyFields(o: Options, synthId: bytes, text: bytes, output: bytes): seq<bytes>
  {
    Header(o, synthId, output) + [Ascii("text=") + Fingerprint(text)]
  }

  function Key(o: Options, synthId: bytes, text: bytes, output: bytes): bytes
  {
    HashInput(KeyFields(o, synthId, text, output))
  }

  /** resumeKey: the fields are fed to the hash one by one. */
  method ComputeResumeKey(o: Options, synthId: bytes, text: bytes, output: bytes) returns (key: bytes)
    ensures key == Key(o, synthId, text, output)
  {
    var fp := ResumeTextFingerprint(text);
    var fields := Header(o, synthId, output) + [Ascii("text=") + fp];
    key := [];
    for i := 0 to |fields|
      invariant key + HashInput(fields[i..]) == HashInput(fields)
    {
      Next(fields, i);
      Assoc(key, fields[i] + [NUL], HashInput(fields[i + 1..]));
      Assoc(key, fields[i], [NUL]);
      key := key + fields[i] + [NUL];
    }
  }

  /** No option string and no name holds a NUL byte: what the separator relies on. */
  predicate Clear(o: Options, synthId: bytes, output: bytes)
  {
    NulFree(Header(o, synthId, output))
  }

  lemma PrefixCancels(p: bytes, a: bytes, b: bytes)
    requires p + a == p + b
    ensures a == b
  {
    JoinSlices(p, a);
    JoinSlices(p, b);
  }

  /** Equal keys mean equal inputs, field by field. */
  lemma KeyFixesInputs(o: Options, id: bytes, t: bytes, out: bytes, o': Options, id': bytes, t': bytes, out': bytes)
    requires Clear(o, id, out) && Clear(o', id', out')
    requires Key(o, id, t, out) == Key(o', id', t', out')
    ensures Header(o, id, out) == Header(o', id', out') && Fingerprint(t) == Fingerprint(t')
  {
    var a, b := KeyFields(o, id, t, out), KeyFields(o', id', t', out');
    var h, h' := Header(o, id, out), Header(o', id', out');
    JoinSlices(h, [Ascii("text=") + Fingerprint(t)]);
    JoinSlices(h', [Ascii("text=") + Fingerprint(t')]);
    HashInputInjective(a, b);
    assert a[11] == b[11];
    PrefixCancels(Ascii("text="), Fingerprint(t), Fingerprint(t'));
  }

  lemma HeaderFixesSettings(o: Options, id: bytes, out: bytes, o': Options, id': bytes, out': bytes)
    requires Header(o, id, out) == Header(o', id', out')
    ensures o.voice == o'.voice && o.speed == o'.speed && id == id' && out == out'
    ensures EffectiveCap(o.maxSegmentChars) == EffectiveCap(o'.maxSegmentChars)
    ensures TrimSpace(o.pauseHeading) == TrimSpace(o'.pauseHeading)
    ensures TrimSpace(o.pauseParagraph) == TrimSpace(o'.pauseParagraph)
  {
    var h, h' := Header(o, id, out), Header(o', id', out');
    assert forall i :: 0 <= i < 11 ==> h[i] == h'[i];
    PrefixCancels(Ascii("voice="), h[3][6..], h'[3][6..]);
    assert h[3] == h'[3] && h[4] == h'[4] && h[5] == h'[5] && h[6] == h'[6];
    assert h[7] == h'[7] && h[8] == h'[8] && h[10] == h'[10];
    hide TrimSpace, Ascii, Itoa, EffectiveCap;
    PrefixCancels(Ascii("voice="), o.voice, o'.voice);
    PrefixCancels(Ascii("speed="), o.speed, o'.speed);
    PrefixCancels(Ascii("synth="), id, id');
    PrefixCancels(Ascii("segcap="), Itoa(EffectiveCap(o.maxSegmentChars)), Itoa(EffectiveCap(o'.maxSegmentChars)));
    AtoiOfItoa(EffectiveCap(o.maxSegmentChars));
    AtoiOfItoa(EffectiveCap(o'.maxSegmentChars));
    PrefixCancels(Ascii("ph="), TrimSpace(o.pauseHeading), TrimSpace(o'.pauseHeading));
    PrefixCancels(Ascii("pp="), TrimSpace(o.pauseParagraph), TrimSpace(o'.pauseParagraph));
    PrefixCancels(Ascii("out="), out, out');
  }

  // ---------------------------------------------------------------- what a key denotes

  /** The outside world, fixed over a history: duration parsing, lower-casing, the synthesizer. */
  datatype World = World(parse: bytes -> nat, lower: bytes -> bytes, speak: (bytes, bytes, bytes, bytes) -> Wav)

  function SettingsOf(w: World, o: Options): Settings
  {
    Settings(w.parse(TrimSpace(o.pauseHeading)), w.parse(TrimSpace(o.pauseParagraph)), EffectiveCap(o.maxSegmentChars))
  }

  function Voice(w: World, o: Options, synthId: bytes): bytes -> Wav
  {
    t => w.speak(synthId, o.voice, o.speed, t)
  }

  /** The audio a fresh render of one unit writes. */
  function Fresh(w: World, o: Options, synthId: bytes, text: bytes): Assembly
  {
    Assemble(PlanText(SettingsOf(w, o), text, true), Voice(w, o, synthId))
  }

  /** The pauses of a unit: the heading's after its first paragraph, if there is one, and the paragraph's after
      every other; in a single file the paragraph's throughout. */
  lemma PausesOfOptions(w: World, o: Options, text: bytes)
    ensures var h, p := w.parse(TrimSpace(o.pauseHeading)), w.parse(TrimSpace(o.pauseParagraph));
      && Silences(PlanText(SettingsOf(w, o), text, true)) == Pauses(if h > 0 then h else p, p, |Paras(text)|)
      && Silences(PlanText(SettingsOf(w, o), text, false)) == Pauses(p, p, |Paras(text)|)
  {
    hide Paras, Pack, Paused;
    var s := SettingsOf(w, o);
    PausedPauses(s, Paras(text), true);
    PausedPauses(s, Paras(text), false);
    SpeechesAreLoud(Pack(Paras(text), [], EffectiveCap(s.maxChars)));
    if s.headingPause == 0 && s.paragraphPause == 0 { NoPauses(|Paras(text)|); }
  }

  lemma {:induction false} NoPauses(n: nat)
    ensures Pauses(0, 0, n) == []
  {
    if n > 1 { NoPauses(n - 1); }
  }

  /** Skipping is sound: equal keys denote equal audio, and equal outputs. */
  lemma KeyFixesAudio(w: World, o: Options, id: bytes, t: bytes, out: bytes,
                      o': Options, id': bytes, t': bytes, out': bytes)
    requires Clear(o, id, out) && Clear(o', id', out')
    requires Key(o, id, t, out) == Key(o', id', t', out')
    ensures Fresh(w, o, id, t) == Fresh(w, o', id', t') && out == out'
  {
    KeyFixesInputs(o, id, t, out, o', id', t', out');
    HeaderFixesSettings(o, id, out, o', id', out');
    FingerprintFixesPlan(t, t', SettingsOf(w, o), true);
    AssembleExt(PlanText(SettingsOf(w, o), t, true), Voice(w, o, id), Voice(w, o', id'));
  }

  lemma {:induction false} AssembleExt(spans: seq<Span>, v: bytes -> Wav, u: bytes -> Wav)
    requires forall t :: v(t) == u(t)
    ensures FeedAll(spans, v) == FeedAll(spans, u)
  {
    if spans != [] { AssembleExt(spans[..|spans| - 1], v, u); }
  }

  /** Three fields read as three others, when the first hides two separators. */
  lemma TwoSeparatorsMove(a: bytes, b: bytes, c: bytes, d: bytes, e: bytes, rest: seq<bytes>)
    ensures HashInput([a + [NUL] + b + [NUL] + c, d, e] + rest) == HashInput([a, b, c + [NUL] + d + [NUL] + e] + rest)
  {
    SeparatorMoves(a + [NUL] + b, c, d, [e] + rest);
    SeparatorMoves(a, b, c + [NUL] + d, [e] + rest);
    SeparatorMoves(b, c + [NUL] + d, e, rest);
    HashInputAfter([a], [b + [NUL] + (c + [NUL] + d), e] + rest, [b, c + [NUL] + d + [NUL] + e] + rest);
    assert [a + [NUL] + b + [NUL] + c, d, e] + rest == [a + [NUL] + b + [NUL] + c, d] + ([e] + rest);
    assert [a + [NUL] + b, c + [NUL] + d, e] + rest == [a + [NUL] + b, c + [NUL] + d] + ([e] + rest);
    assert [a + [NUL] + b, c + [NUL] + d] + ([e] + rest) == [a + [NUL] + b, c + [NUL] + d, e] + rest;
    assert [a, b + [NUL] + (c + [NUL] + d)] + ([e] + rest) == [a] + ([b + [NUL] + (c + [NUL] + d), e] + rest);
    assert [a] + ([b, c + [NUL] + d + [NUL] + e] + rest) == [a, b, c + [NUL] + d + [NUL] + e] + rest;
  }

  /** A NUL in the voice name does break it: two renders that differ share a key. */
  lemma NulInVoiceCollides(o: Options, text: bytes, output: bytes)
    returns (o1: Options, id1: bytes, o2: Options, id2: bytes)
    ensures Key(o1, id1, text, output) == Key(o2, id2, text, output)
    ensures o1.speed == Ascii("2") && o2.speed == Ascii("1") && o1.voice != o2.voice
    ensures !Clear(o1, id1, output)
  {
    var v, s1, y := Ascii("a"), Ascii("speed=") + Ascii("1"), Ascii("synth=") + Ascii("b");
    var s2, x := Ascii("speed=") + Ascii("2"), Ascii("synth=") + Ascii("x");
    o1 := o.(voice := v + [NUL] + s1 + [NUL] + y, speed := Ascii("2"));
    id1 := Ascii("x");
    o2 := o.(voice := v, speed := Ascii("1"));
    id2 := Ascii("b") + [NUL] + s2 + [NUL] + x;
    var h1, h2 := Header(o1, id1, output), Header(o2, id2, output);
    var pre, post := h1[..3], h1[6..] + [Ascii("text=") + Fingerprint(text)];
    var a := Ascii("voice=") + v;
    assert Ascii("voice=") + o1.voice == a + [NUL] + s1 + [NUL] + y;
    assert Ascii("synth=") + id2 == y + [NUL] + s2 + [NUL] + x;
    TwoSeparatorsMove(a, s1, y, s2, x, post);
    HashInputAfter(pre, [a + [NUL] + s1 + [NUL] + y, s2, x] + post, [a, s1, y + [NUL] + s2 + [NUL] + x] + post);
    assert KeyFields(o1, id1, text, output) == pre + ([a + [NUL] + s1 + [NUL] + y, s2, x] + post);
    assert KeyFields(o2, id2, text, output) == pre + ([a, s1, y + [NUL] + s2 + [NUL] + x] + post);
    assert h1[3][|a|] == NUL;
  }
}
