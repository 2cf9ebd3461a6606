/**
 What the labels of the hashed fields add to their separators (internal/render/resume.go): each field of a
 resume key starts with a label of its own, so a NUL inside a field misleads only in front of a label.
 */
module LabelledFields {
  import opened Utf8
  import opened Seqs
  import opened ResumeKey

  /** Every field starts with the label of its place. */
  predicate Labelled(fields: seq<bytes>, labels: seq<bytes>)
  {
    |fields| == |labels| && forall k :: 0 <= k < |fields| ==> labels[k] <= fields[k]
  }

  /** Labels hold no NUL, and none starts with another. */
  predicate GoodLabels(labels: seq<bytes>)
  {
    && (forall k :: 0 <= k < |labels| ==> NUL !in labels[k])
    && forall i, j :: 0 <= i < |labels| && 0 <= j < |labels| && i != j ==> !(labels[i] <= labels[j])
  }

  /** Somewhere in `f` a NUL stands in front of the label. */
  predicate Holds(f: bytes, l: bytes)
  {
    exists i :: 0 <= i < |f| && NulThen(f, i, l)
  }

  predicate NulThen(f: bytes, i: nat, l: bytes)
    requires i < |f|
  {
    f[i] == NUL && l <= f[i + 1..]
  }

  /** No field but the first holds its own label behind a NUL, and none that of the next field. */
  predicate Guarded(fields: seq<bytes>, labels: seq<bytes>)
    requires |fields| == |labels|
  {
    && (forall k :: 1 <= k < |fields| ==> !Holds(fields[k], labels[k]))
    && forall k :: 0 <= k < |fields| - 1 ==> !Holds(fields[k], labels[k + 1])
  }

  // ---------------------------------------------------------------- guarded fields are read back

  /** A text without NUL at the front of `y`, NUL, `z` lies in `y`. */
  lemma FrontLabel(l: bytes, y: bytes, z: bytes)
    requires NUL !in l && l <= y + [NUL] + z
    ensures l <= y
  {
    var s := y + [NUL] + z;
    assert s[|y|] == NUL;
    assert forall i :: 0 <= i < |l| ==> l[i] == s[i];
    assert forall i :: 0 <= i < |y| ==> y[i] == s[i];
  }

  lemma HoldsAt(x: bytes, y: bytes, l: bytes)
    requires l <= y
    ensures Holds(x + [NUL] + y, l)
  {
    var f := x + [NUL] + y;
    assert f[|x| + 1..] == y;
    assert NulThen(f, |x|, l);
  }

  lemma HashFront(fields: seq<bytes>, labels: seq<bytes>)
    requires Labelled(fields, labels) && fields != []
    ensures labels[0] <= HashInput(fields) && |HashInput(fields)| > 0
    ensures HashInput(fields) == fields[0] + [NUL] + HashInput(fields[1..])
  {
  }

  /** Two texts behind NUL-ended prefixes: the longer prefix splits off the shorter one. */
  lemma SplitPrefix(x: bytes, a: bytes, y: bytes, b: bytes)
    requires x + [NUL] + a == y + [NUL] + b && |x| < |y|
    ensures y == x + [NUL] + y[|x| + 1..] && a == y[|x| + 1..] + [NUL] + b
  {
    var s := x + [NUL] + a;
    assert s[..|x| + 1] == x + [NUL] && s[|x| + 1..] == a;
    assert s == y + [NUL] + b;
    assert y[..|x| + 1] == s[..|x| + 1];
    SplitAt(y, |x| + 1);
    assert s[|x| + 1..] == y[|x| + 1..] + [NUL] + b;
  }

  /** A reading of the fields that lags behind: it takes `x` and a NUL for the end of an earlier field. */
  lemma {:induction false} LagsNever(fields: seq<bytes>, other: seq<bytes>, labels: seq<bytes>, x: bytes)
    requires GoodLabels(labels) && Labelled(fields, labels) && Labelled(other, labels) && fields != []
    requires x + [NUL] + HashInput(other) == HashInput(fields)
    ensures exists k :: 0 <= k < |fields| && Misleads(fields, labels, k)
    decreases |fields|
  {
    hide GoodLabels, Holds;
    var f, rest := fields[0], HashInput(fields[1..]);
    HashFront(fields, labels);
    HashFront(other, labels);
    if |x| < |f| {
      SplitPrefix(x, HashInput(other), f, rest);
      NoNul(labels, 0);
      FrontLabel(labels[0], f[|x| + 1..], rest);
      HoldsAt(x, f[|x| + 1..], labels[0]);
      assert Misleads(fields, labels, 0);
    } else if |x| == |f| {
      SameLength(x, HashInput(other), f, rest);
      CannotStart(fields, other, labels);
    } else {
      SplitPrefix(f, rest, x, HashInput(other));
      LagGoesOn(fields, other, labels, x[|f| + 1..]);
    }
  }

  /** Field `k` holds its own label behind a NUL, or that of the next field. */
  predicate Misleads(fields: seq<bytes>, labels: seq<bytes>, k: nat)
    requires k < |fields| == |labels|
  {
    Holds(fields[k], labels[k]) || (k + 1 < |fields| && Holds(fields[k], labels[k + 1]))
  }

  lemma NoNul(labels: seq<bytes>, k: nat)
    requires GoodLabels(labels) && k < |labels|
    ensures NUL !in labels[k]
  {
  }

  lemma SameLength(x: bytes, a: bytes, y: bytes, b: bytes)
    requires x + [NUL] + a == y + [NUL] + b && |x| == |y|
    ensures x == y && a == b
  {
    var s := x + [NUL] + a;
    assert s[..|x|] == x && s[..|y|] == y;
    assert s[|x| + 1..] == a && s[|y| + 1..] == b;
  }

  /** A reading cannot start the first field where the second one starts. */
  lemma CannotStart(fields: seq<bytes>, other: seq<bytes>, labels: seq<bytes>)
    requires GoodLabels(labels) && Labelled(fields, labels) && Labelled(other, labels) && fields != []
    ensures HashInput(other) != HashInput(fields[1..])
  {
    HashFront(other, labels);
    if |fields| > 1 {
      TailLabelled(fields, labels);
      HashFront(fields[1..], labels[1..]);
      if HashInput(other) == HashInput(fields[1..]) { OnePrefix(labels[0], labels[1], HashInput(other)); }
    }
  }

  lemma OnePrefix(a: bytes, b: bytes, s: bytes)
    requires a <= s && b <= s
    ensures a <= b || b <= a
  {
  }

  lemma TailLabelled(fields: seq<bytes>, labels: seq<bytes>)
    requires Labelled(fields, labels) && fields != []
    ensures Labelled(fields[1..], labels[1..])
  {
  }

  lemma TailGood(labels: seq<bytes>)
    requires GoodLabels(labels) && labels != []
    ensures GoodLabels(labels[1..])
  {
    var t := labels[1..];
    forall i, j | 0 <= i < |t| && 0 <= j < |t| && i != j ensures !(t[i] <= t[j]) {
      assert t[i] == labels[i + 1] && t[j] == labels[j + 1];
    }
  }

  lemma LagGoesOn(fields: seq<bytes>, other: seq<bytes>, labels: seq<bytes>, y: bytes)
    requires GoodLabels(labels) && Labelled(fields, labels) && Labelled(other, labels) && fields != []
    requires y + [NUL] + HashInput(other) == HashInput(fields[1..])
    ensures exists k :: 0 <= k < |fields| && Misleads(fields, labels, k)
    decreases |fields|, 0
  {
    hide GoodLabels, Holds;
    var f, o := fields[1..], other[1..];
    if |fields| > 1 {
      TailLabelled(fields, labels);
      TailLabelled(other, labels);
      TailGood(labels);
      HashFront(other, labels);
      assert y + [NUL] + (other[0] + [NUL] + HashInput(o)) == (y + [NUL] + other[0]) + [NUL] + HashInput(o);
      LagsNever(f, o, labels[1..], y + [NUL] + other[0]);
      var k :| 0 <= k < |f| && Misleads(f, labels[1..], k);
      assert Misleads(fields, labels, k + 1);
    } else {
      assert false;
    }
  }

  /** Guarded fields are what their hash input is read as. */
  lemma {:induction false} GuardedIsFixed(fields: seq<bytes>, other: seq<bytes>, labels: seq<bytes>)
    requires GoodLabels(labels) && Labelled(fields, labels) && Labelled(other, labels)
    requires Guarded(fields, labels) && HashInput(fields) == HashInput(other)
    ensures fields == other
    decreases |fields|
  {
    hide GoodLabels, Holds;
    if fields != [] {
      var f, o := fields[0], other[0];
      var s, t := HashInput(fields[1..]), HashInput(other[1..]);
      HashFront(fields, labels);
      HashFront(other, labels);
      TailLabelled(fields, labels);
      TailLabelled(other, labels);
      TailGood(labels);
      TailGuarded(fields, labels);
      if |o| == |f| {
        SameLength(o, t, f, s);
        GuardedIsFixed(fields[1..], other[1..], labels[1..]);
      } else if |o| < |f| {
        SplitPrefix(o, t, f, s);
        ShortRead(fields, other, labels);
      } else {
        SplitPrefix(f, s, o, t);
        LongRead(fields, other, labels);
      }
    }
  }

  lemma TailGuarded(fields: seq<bytes>, labels: seq<bytes>)
    requires |fields| == |labels| > 0 && Guarded(fields, labels)
    ensures Guarded(fields[1..], labels[1..])
    ensures forall k :: 0 <= k < |fields| - 1 ==> !Misleads(fields[1..], labels[1..], k)
  {
    hide Holds;
    var f, l := fields[1..], labels[1..];
    assert forall k :: 0 <= k < |f| ==> f[k] == fields[k + 1] && l[k] == labels[k + 1];
  }

  /** The other reading ends the first field too soon. */
  lemma ShortRead(fields: seq<bytes>, other: seq<bytes>, labels: seq<bytes>)
    requires GoodLabels(labels) && Labelled(fields, labels) && Labelled(other, labels) && fields != []
    requires |other[0]| < |fields[0]|
    requires var y := fields[0][|other[0]| + 1..];
             fields[0] == other[0] + [NUL] + y && HashInput(other[1..]) == y + [NUL] + HashInput(fields[1..])
    ensures !Guarded(fields, labels)
  {
    hide GoodLabels, Holds;
    var y := fields[0][|other[0]| + 1..];
    if |fields| > 1 {
      TailLabelled(other, labels);
      HashFront(other[1..], labels[1..]);
      NoNul(labels, 1);
      FrontLabel(labels[1], y, HashInput(fields[1..]));
      HoldsAt(other[0], y, labels[1]);
    } else {
      assert false;
    }
  }

  /** The other reading ends it too late. */
  lemma LongRead(fields: seq<bytes>, other: seq<bytes>, labels: seq<bytes>)
    requires GoodLabels(labels) && Labelled(fields, labels) && Labelled(other, labels) && fields != []
    requires |fields[0]| < |other[0]|
    requires HashInput(fields[1..]) == other[0][|fields[0]| + 1..] + [NUL] + HashInput(other[1..])
    ensures !Guarded(fields, labels)
  {
    hide GoodLabels, Holds;
    if |fields| > 1 {
      TailLabelled(fields, labels);
      TailLabelled(other, labels);
      TailGood(labels);
      LagsNever(fields[1..], other[1..], labels[1..], other[0][|fields[0]| + 1..]);
      if Guarded(fields, labels) { TailGuarded(fields, labels); }
    } else {
      assert false;
    }
  }

  // ---------------------------------------------------------------- unguarded fields are not

  /** Two neighbours replaced by others with their labels. */
  lemma PairReplaced(fields: seq<bytes>, labels: seq<bytes>, k: nat, a: bytes, b: bytes)
    requires Labelled(fields, labels) && k + 1 < |fields| && labels[k] <= a && labels[k + 1] <= b
    ensures fields == fields[..k] + ([fields[k], fields[k + 1]] + fields[k + 2..])
    ensures var other := fields[..k] + ([a, b] + fields[k + 2..]);
      Labelled(other, labels) && other[k] == a && other[k + 1] == b
  {
  }

  /** A field holding its own label behind a NUL can give its front to the field before it. */
  lemma OwnLabelMoves(fields: seq<bytes>, labels: seq<bytes>, k: nat) returns (other: seq<bytes>)
    requires Labelled(fields, labels) && 1 <= k < |fields| && Holds(fields[k], labels[k])
    ensures Labelled(other, labels) && other != fields && HashInput(other) == HashInput(fields)
  {
    var i :| 0 <= i < |fields[k]| && NulThen(fields[k], i, labels[k]);
    var p, u, v := fields[k - 1], fields[k][..i], fields[k][i + 1..];
    assert fields[k] == u + [NUL] + v;
    other := fields[..k - 1] + ([p + [NUL] + u, v] + fields[k + 1..]);
    PairReplaced(fields, labels, k - 1, p + [NUL] + u, v);
    SeparatorMoves(p, u, v, fields[k + 1..]);
    HashInputAfter(fields[..k - 1], [p + [NUL] + u, v] + fields[k + 1..], [p, u + [NUL] + v] + fields[k + 1..]);
    assert |other[k - 1]| > |fields[k - 1]|;
  }

  /** A field holding the next label behind a NUL can give its rest to the next field. */
  lemma NextLabelMoves(fields: seq<bytes>, labels: seq<bytes>, k: nat) returns (other: seq<bytes>)
    requires GoodLabels(labels) && Labelled(fields, labels) && k + 1 < |fields| && Holds(fields[k], labels[k + 1])
    ensures Labelled(other, labels) && other != fields && HashInput(other) == HashInput(fields)
  {
    var i :| 0 <= i < |fields[k]| && NulThen(fields[k], i, labels[k + 1]);
    var u, v, w := fields[k][..i], fields[k][i + 1..], fields[k + 1];
    assert fields[k] == u + [NUL] + v;
    NoNul(labels, k);
    FrontLabel(labels[k], u, v);
    other := fields[..k] + ([u, v + [NUL] + w] + fields[k + 2..]);
    PairReplaced(fields, labels, k, u, v + [NUL] + w);
    SeparatorMoves(u, v, w, fields[k + 2..]);
    HashInputAfter(fields[..k], [u + [NUL] + v, w] + fields[k + 2..], [u, v + [NUL] + w] + fields[k + 2..]);
    assert |other[k]| < |fields[k]|;
  }

  /** No other list with these labels has the hash input of `fields`. */
  ghost predicate Unmistakable(fields: seq<bytes>, labels: seq<bytes>)
  {
    forall other: seq<bytes> ::
      Labelled(other, labels) && HashInput(other) == HashInput(fields) ==> other == fields
  }

  /** Labelled fields are read back from their hash input exactly when they are guarded. */
  lemma LabelledExact(fields: seq<bytes>, labels: seq<bytes>)
    requires GoodLabels(labels) && Labelled(fields, labels)
    ensures Unmistakable(fields, labels) <==> Guarded(fields, labels)
  {
    hide GoodLabels, Holds;
    if Guarded(fields, labels) {
      forall other: seq<bytes> | Labelled(other, labels) && HashInput(other) == HashInput(fields)
        ensures other == fields
      {
        GuardedIsFixed(fields, other, labels);
      }
    } else if k :| 1 <= k < |fields| && Holds(fields[k], labels[k]) {
      var other := OwnLabelMoves(fields, labels, k);
    } else {
      var k :| 0 <= k < |fields| - 1 && Holds(fields[k], labels[k + 1]);
      var other := NextLabelMoves(fields, labels, k);
    }
  }

  // ---------------------------------------------------------------- the fields of a resume key

  const LABELS: seq<bytes> :=
    [Ascii("rv=2"), Ascii("src="), Ascii("fmt="), Ascii("voice="), Ascii("speed="), Ascii("synth="),
     Ascii("segcap="), Ascii("ph="), Ascii("pp="), Ascii("code="), Ascii("out="), Ascii("text=")]

  /** The first two bytes of the labels tell them apart. */
  const STARTS: seq<(int, int)> :=
    [(114, 118), (115, 114), (102, 109), (118, 111), (115, 112), (115, 121),
     (115, 101), (112, 104), (112, 112), (99, 111), (111, 117), (116, 101)]

  lemma StartsDiffer(i: nat, j: nat)
    requires i < |STARTS| && j < |STARTS| && STARTS[i] == STARTS[j]
    ensures i == j
  {
  }

  lemma AsciiPlain(s: string)
    requires forall i :: 0 <= i < |s| ==> '\0' < s[i]
    ensures NUL !in Ascii(s)
  {
  }

  lemma LabelStart(k: nat)
    requires k < |LABELS|
    ensures |LABELS[k]| >= 2 && LABELS[k][0] == STARTS[k].0 && LABELS[k][1] == STARTS[k].1 && NUL !in LABELS[k]
  {
    match k
    case 0 => AsciiPlain("rv=2");
    case 1 => AsciiPlain("src=");
    case 2 => AsciiPlain("fmt=");
    case 3 => AsciiPlain("voice=");
    case 4 => AsciiPlain("speed=");
    case 5 => AsciiPlain("synth=");
    case 6 => AsciiPlain("segcap=");
    case 7 => AsciiPlain("ph=");
    case 8 => AsciiPlain("pp=");
    case 9 => AsciiPlain("code=");
    case 10 => AsciiPlain("out=");
    case _ => AsciiPlain("text=");
  }

  lemma LabelsAreGood()
    ensures GoodLabels(LABELS)
  {
    hide Ascii;
    forall k | 0 <= k < |LABELS| ensures NUL !in LABELS[k] { LabelStart(k); }
    forall i, j | 0 <= i < |LABELS| && 0 <= j < |LABELS| && i != j ensures !(LABELS[i] <= LABELS[j]) {
      LabelStart(i);
      LabelStart(j);
      if LABELS[i] <= LABELS[j] { StartsDiffer(i, j); }
    }
  }

  lemma KeyIsLabelled(o: Options, id: bytes, t: bytes, out: bytes)
    ensures Labelled(KeyFields(o, id, t, out), LABELS)
  {
    hide Ascii, Fingerprint;
  }

  /** The fields of a key are determined by the key, among all lists so labelled, exactly when none of them holds
      its own or the next label behind a NUL. */
  lemma KeyExact(o: Options, id: bytes, t: bytes, out: bytes)
    ensures |KeyFields(o, id, t, out)| == |LABELS|
    ensures Unmistakable(KeyFields(o, id, t, out), LABELS) <==> Guarded(KeyFields(o, id, t, out), LABELS)
  {
    KeyIsLabelled(o, id, t, out);
    LabelsAreGood();
    LabelledExact(KeyFields(o, id, t, out), LABELS);
  }

  /** One guarded request is told from every other by its key, whatever NULs the other holds. */
  lemma GuardedKeyFixesInputs(o: Options, id: bytes, t: bytes, out: bytes,
                              o': Options, id': bytes, t': bytes, out': bytes)
    requires |KeyFields(o, id, t, out)| == |LABELS| && Guarded(KeyFields(o, id, t, out), LABELS)
    requires Key(o, id, t, out) == Key(o', id', t', out')
    ensures Header(o, id, out) == Header(o', id', out') && Fingerprint(t) == Fingerprint(t')
  {
    KeyExact(o, id, t, out);
    KeyIsLabelled(o', id', t', out');
    hide Ascii, Labelled, Guarded, LABELS;
    var a, b := KeyFields(o, id, t, out), KeyFields(o', id', t', out');
    assert a == b;
    JoinSlices(Header(o, id, out), [Ascii("text=") + Fingerprint(t)]);
    JoinSlices(Header(o', id', out'), [Ascii("text=") + Fingerprint(t')]);
    assert a[11] == b[11];
    PrefixCancels(Ascii("text="), Fingerprint(t), Fingerprint(t'));
  }
}
