/**
 Cleaning up an over-split diarization (internal/speaker/merge.go): anonymous labels with
 little speech are reassigned to the nearest span of a label that has enough. The minimum
 fraction is an exact ratio.
 */
module SparseLabels {
  import opened Timeline
  import opened Seqs

  type Observations = seq<Observation>

  const PREFIX := "speaker-"

  /** isAnonymousSpeaker. */
  predicate Anonymous(name: string) { PREFIX <= name && name != "unknown" }

  function Duration(o: Observation): nat { if o.end <= o.start then 0 else o.end - o.start }

  /** Half, rounded towards zero. */
  function Half(n: int): int { if n >= 0 then n / 2 else -((-n) / 2) }

  function Mid(o: Observation): int { Half(o.start + o.end) }

  function Abs(n: int): nat { if n < 0 then -n else n }

  /** Floors for a label: total duration, and share `num / den` of all anonymous speech. */
  datatype Options = Options(minDuration: int, num: int, den: int)

  function WithDefaults(o: Options): (r: Options)
    ensures r.minDuration > 0 && r.num > 0 && r.den > 0
  {
    Options(if o.minDuration <= 0 then 2000 else o.minDuration,
            if o.num <= 0 || o.den <= 0 then 1 else o.num,
            if o.num <= 0 || o.den <= 0 then 100 else o.den)
  }

  /** Speech of one anonymous label. */
  function Mass(s: Observations, name: string): nat
  {
    if s == [] then 0
    else Mass(s[..|s| - 1], name) + (if s[|s| - 1].speaker == name then Duration(s[|s| - 1]) else 0)
  }

  /** Speech of all anonymous labels. */
  function Total(s: Observations): nat
  {
    if s == [] then 0
    else Total(s[..|s| - 1]) + (if Anonymous(s[|s| - 1].speaker) then Duration(s[|s| - 1]) else 0)
  }

  function Names(s: Observations): set<string>
  {
    set o | o in s && Anonymous(o.speaker) :: o.speaker
  }

  /** Nothing to merge: no anonymous speech, or at most one anonymous label. */
  predicate Settled(s: Observations) { Total(s) == 0 || |Names(s)| <= 1 }

  predicate Enough(s: Observations, o: Options, name: string)
  {
    Mass(s, name) >= o.minDuration || Mass(s, name) * o.den >= o.num * Total(s)
  }

  /** The labels that survive: those with enough speech, else one of the heaviest. Which one of several
      equally heavy labels is up to the iteration order of a map. */
  predicate Keepers(s: Observations, o: Options, keepers: set<string>)
  {
    var enough := set n | n in Names(s) && Enough(s, o, n);
    if enough != {} then keepers == enough
    else
      exists best :: best in Names(s) && keepers == {best} && forall n :: n in Names(s) ==> Mass(s, n) <= Mass(s, best)
  }

  /** Index of the keeper span nearest to `mid` among the first `n`, the earliest of several; -1 for none. */
  function Nearest(s: Observations, keepers: set<string>, mid: int, n: nat): (k: int)
    requires n <= |s|
    ensures -1 <= k < n
    ensures k >= 0 ==> s[k].speaker in keepers
  {
    if n == 0 then -1
    else
      var k := Nearest(s, keepers, mid, n - 1);
      if s[n - 1].speaker in keepers && (k < 0 || Abs(mid - Mid(s[n - 1])) < Abs(mid - Mid(s[k]))) then n - 1 else k
  }

  function NewName(s: Observations, keepers: set<string>, o: Observation): string
  {
    var k := Nearest(s, keepers, Mid(o), |s|);
    if !Anonymous(o.speaker) || o.speaker in keepers || k < 0 then o.speaker else s[k].speaker
  }

  function Relabel(s: Observations, keepers: set<string>): (r: Observations)
    ensures |r| == |s|
    ensures forall i :: 0 <= i < |s| ==> r[i] == s[i].(speaker := NewName(s, keepers, s[i]))
  {
    seq(|s|, i requires 0 <= i < |s| => s[i].(speaker := NewName(s, keepers, s[i])))
  }

  /** A result MergeSparseLabels may return. */
  ghost predicate Merged(s: Observations, opts: Options, r: Observations)
  {
    if Settled(s) then r == s
    else exists keepers :: Keepers(s, WithDefaults(opts), keepers) && r == Relabel(s, keepers)
  }

  // ---------------------------------------------------------------- the method

  method Masses(s: Observations) returns (mass: map<string, nat>, total: nat)
    ensures mass.Keys == Names(s) && total == Total(s)
    ensures forall n :: n in mass ==> mass[n] == Mass(s, n)
  {
    mass, total := map[], 0;
    for i := 0 to |s|
      invariant mass.Keys == Names(s[..i]) && total == Total(s[..i])
      invariant forall n :: n in mass ==> mass[n] == Mass(s[..i], n)
      invariant forall n :: Anonymous(n) && n !in mass ==> Mass(s[..i], n) == 0
    {
      hide Anonymous, Names, Mass, Total, Duration;
      var o := s[i];
      MassGrows(s, i);
      NamesGrow(s, i);
      if Anonymous(o.speaker) {
        var d := Duration(o);
        mass := mass[o.speaker := (if o.speaker in mass then mass[o.speaker] else 0) + d];
        total := total + d;
      }
    }
    assert s[..|s|] == s;
  }

  lemma MassGrows(s: Observations, i: nat)
    requires i < |s|
    ensures Total(s[..i + 1]) == Total(s[..i]) + (if Anonymous(s[i].speaker) then Duration(s[i]) else 0)
    ensures forall n :: Mass(s[..i + 1], n) == Mass(s[..i], n) + (if s[i].speaker == n then Duration(s[i]) else 0)
  {
    assert s[..i + 1][..i] == s[..i];
  }

  lemma NamesGrow(s: Observations, i: nat)
    requires i < |s|
    ensures Names(s[..i + 1]) == Names(s[..i]) + (if Anonymous(s[i].speaker) then {s[i].speaker} else {})
  {
    hide Anonymous;
    Grow(s, i);
    assert forall o :: o in s[..i + 1] <==> o in s[..i] || o == s[i];
  }

  method ChooseKeepers(s: Observations, opts: Options, mass: map<string, nat>, total: nat)
    returns (keepers: set<string>)
    requires opts.den > 0 && mass.Keys == Names(s) && total == Total(s)
    requires forall n :: n in mass ==> mass[n] == Mass(s, n)
    requires total > 0
    ensures Keepers(s, opts, keepers)
  {
    keepers := {};
    var rest := mass.Keys;
    while rest != {}
      invariant rest <= mass.Keys
      invariant keepers == set n | n in mass.Keys - rest && Enough(s, opts, n)
    {
      var name :| name in rest;
      if mass[name] >= opts.minDuration || mass[name] * opts.den >= opts.num * total { keepers := keepers + {name}; }
      rest := rest - {name};
    }
    if keepers == {} {
      var best, bestMass, found := "", 0, false;
      rest := mass.Keys;
      while rest != {}
        invariant rest <= mass.Keys
        invariant found ==> best in mass && bestMass == mass[best]
        invariant !found ==> bestMass == 0
        invariant forall n :: n in mass.Keys - rest ==> mass[n] <= bestMass
      {
        var name :| name in rest;
        if mass[name] > bestMass { best, bestMass, found := name, mass[name], true; }
        rest := rest - {name};
      }
      if !found { NoSpeech(s); }
      keepers := {best};
    }
  }

  lemma {:induction false} NoSpeech(s: Observations)
    requires forall n :: n in Names(s) ==> Mass(s, n) == 0
    ensures Total(s) == 0
  {
    if s != [] {
      var init := s[..|s| - 1];
      NamesGrow(s, |s| - 1);
      assert s[..|s|] == s;
      NoSpeech(init);
    }
  }

  method MergeSparseLabels(s: Observations, opts: Options) returns (out: Observations)
    ensures Merged(s, opts, out)
  {
    var o := WithDefaults(opts);
    out := s;
    if |out| == 0 {
      return;
    }
    var mass, total := Masses(out);
    if total == 0 || |mass.Keys| <= 1 { return; }
    var keepers := ChooseKeepers(s, o, mass, total);
    out := RelabelAll(s, keepers);
  }

  /** The reassignment loop; the keeper spans are those of the timeline as it came in. */
  method RelabelAll(s: Observations, keepers: set<string>) returns (out: Observations)
    ensures out == Relabel(s, keepers)
  {
    hide Anonymous, Nearest, Mid;
    out := s;
    for i := 0 to |s|
      invariant |out| == |s|
      invariant forall j :: 0 <= j < i ==> out[j] == s[j].(speaker := NewName(s, keepers, s[j]))
      invariant forall j :: i <= j < |s| ==> out[j] == s[j]
    {
      var name := out[i].speaker;
      if !Anonymous(name) || name in keepers { continue; }
      var best := FindNearest(s, keepers, Mid(out[i]));
      if best >= 0 { out := out[i := out[i].(speaker := s[best].speaker)]; }
    }
  }

  /** The search over keeper spans for the nearest midpoint. */
  method FindNearest(s: Observations, keepers: set<string>, mid: int) returns (best: int)
    ensures best == Nearest(s, keepers, mid, |s|)
  {
    best := -1;
    var bestDist := -1;
    for k := 0 to |s|
      invariant best == Nearest(s, keepers, mid, k)
      invariant bestDist == if best < 0 then -1 else Abs(mid - Mid(s[best]))
    {
      if s[k].speaker in keepers {
        var d := mid - Mid(s[k]);
        if d < 0 { d := -d; }
        if bestDist < 0 || d < bestDist { bestDist, best := d, k; }
      }
    }
  }

  // ---------------------------------------------------------------- main results

  lemma {:induction false} NearestIsNearest(s: Observations, keepers: set<string>, mid: int, n: nat)
    requires n <= |s|
    ensures var k := Nearest(s, keepers, mid, n);
            && (k < 0 ==> forall j :: 0 <= j < n ==> s[j].speaker !in keepers)
            && (k >= 0 ==> forall j :: 0 <= j < n && s[j].speaker in keepers ==>
                  Abs(mid - Mid(s[k])) <= Abs(mid - Mid(s[j])))
  {
    if n > 0 { NearestIsNearest(s, keepers, mid, n - 1); }
  }

  lemma KeepersAreNames(s: Observations, o: Options, keepers: set<string>)
    requires Keepers(s, o, keepers)
    ensures keepers != {} && keepers <= Names(s)
  {
  }

  /** Observation `j` is a keeper span whose midpoint is nearest to `mid`. */
  predicate IsNearest(s: Observations, keepers: set<string>, mid: int, j: nat)
    requires j < |s|
  {
    && s[j].speaker in keepers
    && forall k :: 0 <= k < |s| && s[k].speaker in keepers ==> Abs(mid - Mid(s[j])) <= Abs(mid - Mid(s[k]))
  }

  lemma NearestExists(s: Observations, o: Options, keepers: set<string>, mid: int)
    requires Keepers(s, o, keepers)
    ensures var j := Nearest(s, keepers, mid, |s|); j >= 0 && IsNearest(s, keepers, mid, j)
  {
    hide Anonymous;
    KeepersAreNames(s, o, keepers);
    NearestIsNearest(s, keepers, mid, |s|);
    var name :| name in keepers;
    assert name in Names(s);
    var q :| q in s && q.speaker == name;
  }

  /** Every observation keeps its place and bounds; a label changes only from an anonymous non-keeper
      to that of a keeper span with the nearest midpoint. */
  lemma RelabelIsLocal(s: Observations, o: Options, keepers: set<string>, i: nat)
    requires Keepers(s, o, keepers) && i < |s|
    ensures var r := Relabel(s, keepers);
            && r[i] == s[i].(speaker := r[i].speaker)
            && (!Anonymous(s[i].speaker) || s[i].speaker in keepers ==> r[i] == s[i])
            && (Anonymous(s[i].speaker) && s[i].speaker !in keepers ==>
                  exists j :: 0 <= j < |s| && IsNearest(s, keepers, Mid(s[i]), j) && r[i].speaker == s[j].speaker)
  {
    hide Anonymous, Nearest, Mid, IsNearest;
    NearestExists(s, o, keepers, Mid(s[i]));
  }

  /** Afterwards every anonymous label is a keeper. */
  lemma OnlyKeepersRemain(s: Observations, o: Options, keepers: set<string>)
    requires Keepers(s, o, keepers)
    ensures Names(Relabel(s, keepers)) <= keepers
  {
    hide Anonymous;
    var r := Relabel(s, keepers);
    forall name | name in Names(r) ensures name in keepers {
      var q :| q in r && q.speaker == name && Anonymous(name);
      var i :| 0 <= i < |r| && r[i] == q;
      RelabelIsLocal(s, o, keepers, i);
    }
  }

  /** Speech is conserved: in total, and no keeper loses any. */
  lemma {:induction false} SpeechConserved(s: Observations, r: Observations, keepers: set<string>)
    requires |r| == |s| && forall i :: 0 <= i < |s| ==> Moved(s[i], r[i], keepers)
    ensures Total(r) == Total(s)
    ensures forall name :: name in keepers ==> Mass(r, name) >= Mass(s, name)
  {
    hide Anonymous;
    if s != [] {
      var n := |s| - 1;
      assert Moved(s[n], r[n], keepers);
      SpeechConserved(s[..n], r[..n], keepers);
    }
  }

  /** One observation of a relabelled timeline. */
  predicate Moved(a: Observation, b: Observation, keepers: set<string>)
  {
    && b == a.(speaker := b.speaker)
    && (Anonymous(a.speaker) <==> Anonymous(b.speaker))
    && (a.speaker in keepers ==> b == a)
  }

  lemma RelabelMoves(s: Observations, o: Options, keepers: set<string>)
    requires Keepers(s, o, keepers)
    ensures forall i :: 0 <= i < |s| ==> Moved(s[i], Relabel(s, keepers)[i], keepers)
  {
    hide Anonymous;
    KeepersAreNames(s, o, keepers);
    forall i | 0 <= i < |s| ensures Moved(s[i], Relabel(s, keepers)[i], keepers) {
      RelabelIsLocal(s, o, keepers, i);
    }
  }

  /** Total anonymous speech is the same before and after. */
  lemma MergeConservesSpeech(s: Observations, opts: Options, r: Observations)
    requires Merged(s, opts, r)
    ensures Total(r) == Total(s) && |r| == |s|
  {
    if !Settled(s) {
      var keepers :| Keepers(s, WithDefaults(opts), keepers) && r == Relabel(s, keepers);
      RelabelMoves(s, WithDefaults(opts), keepers);
      SpeechConserved(s, r, keepers);
    }
  }

  /** A label has at least the minimum duration, two seconds by default, or the minimum share, one percent. */
  predicate Spared(s: Observations, opts: Options, name: string)
  {
    || Mass(s, name) >= (if opts.minDuration > 0 then opts.minDuration else 2000)
    || (if opts.num > 0 && opts.den > 0 then Mass(s, name) * opts.den >= opts.num * Total(s)
        else 100 * Mass(s, name) >= Total(s))
  }

  /** The labels left after merging: of several with speech those that are spared, or the one heaviest when none is. */
  lemma LabelsLeft(s: Observations, opts: Options, r: Observations)
    requires Merged(s, opts, r)
    ensures if Total(s) == 0 || |Names(s)| <= 1 then r == s
      else if exists n :: n in Names(s) && Spared(s, opts, n)
      then forall n :: n in Names(r) <==> n in Names(s) && Spared(s, opts, n)
      else exists best :: best in Names(s) && Names(r) == {best}
             && forall n :: n in Names(s) ==> Mass(s, n) <= Mass(s, best)
  {
    if !Settled(s) {
      var o := WithDefaults(opts);
      var keepers :| Keepers(s, o, keepers) && r == Relabel(s, keepers);
      forall n ensures Enough(s, o, n) <==> Spared(s, opts, n) { }
      OnlyKeepersRemain(s, o, keepers);
      KeepersRemain(s, o, keepers);
      assert Names(r) == keepers;
      hide Enough, Spared, Names, Mass, Total;
    }
  }

  lemma KeepersRemain(s: Observations, o: Options, keepers: set<string>)
    requires Keepers(s, o, keepers)
    ensures keepers <= Names(Relabel(s, keepers))
  {
    hide Anonymous;
    KeepersAreNames(s, o, keepers);
    var r := Relabel(s, keepers);
    forall name | name in keepers ensures name in Names(r) {
      assert name in Names(s);
      var q :| q in s && q.speaker == name && Anonymous(name);
      var i :| 0 <= i < |s| && s[i] == q;
      RelabelIsLocal(s, o, keepers, i);
      assert r[i] == q;
    }
  }

  lemma AllKept(r: Observations, keepers: set<string>)
    requires Names(r) <= keepers
    ensures Relabel(r, keepers) == r
  {
    hide Anonymous;
    forall i | 0 <= i < |r| ensures Relabel(r, keepers)[i] == r[i] {
      if Anonymous(r[i].speaker) { assert r[i].speaker in Names(r); }
    }
  }

  /** Merging again changes nothing, whichever heaviest label either run settles on. */
  lemma MergeIdempotent(s: Observations, opts: Options, r: Observations, again: Observations)
    requires Merged(s, opts, r) && Merged(r, opts, again)
    ensures again == r
  {
    if !Settled(s) && !Settled(r) {
      var o := WithDefaults(opts);
      var keepers :| Keepers(s, o, keepers) && r == Relabel(s, keepers);
      var next :| Keepers(r, o, next) && again == Relabel(r, next);
      OnlyKeepersRemain(s, o, keepers);
      RelabelMoves(s, o, keepers);
      SpeechConserved(s, r, keepers);
      KeepersGrow(s, o, keepers, r, next);
      AllKept(r, next);
    }
  }

  lemma KeepersGrow(s: Observations, o: Options, keepers: set<string>, r: Observations, next: set<string>)
    requires o.den > 0 && o.num > 0 && Keepers(s, o, keepers) && Keepers(r, o, next)
    requires Names(r) <= keepers && |Names(r)| > 1 && Total(r) == Total(s)
    requires forall name :: name in keepers ==> Mass(r, name) >= Mass(s, name)
    ensures Names(r) <= next
  {
    var enough := set n | n in Names(s) && Enough(s, o, n);
    if enough == {} {
      var best :| keepers == {best};
      SubsetOfOne(Names(r), best);
    } else {
      forall name | name in Names(r) ensures Enough(r, o, name) {
        assert name in enough;
        EnoughGrows(s, r, o, name);
      }
      hide Enough, Names;
      assert (set n | n in Names(r) && Enough(r, o, n)) == Names(r);
    }
  }

  lemma EnoughGrows(s: Observations, r: Observations, o: Options, name: string)
    requires o.den > 0 && Total(r) == Total(s) && Mass(r, name) >= Mass(s, name) && Enough(s, o, name)
    ensures Enough(r, o, name)
  {
    hide Mass, Total;
    assert Mass(r, name) * o.den >= Mass(s, name) * o.den;
  }

  lemma SubsetOfOne<T>(a: set<T>, x: T)
    requires a <= {x}
    ensures |a| <= 1
  {
    if a != {} { assert a == {x}; }
  }
}
