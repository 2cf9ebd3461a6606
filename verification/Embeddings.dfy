/**
 Voice embeddings on disk, and the windows an enrollment clip is cut into
 (internal/speaker/enrollment.go). A float32 is its bit pattern.
 */
module Embeddings {
  import opened Wrappers
  import opened Utf8
  import opened Seqs

  type word = w: int | 0 <= w < 0x1_0000_0000
  type row = seq<word>

  /** binary.LittleEndian.PutUint32. */
  function PutUint32(w: word): (b: bytes)
    ensures |b| == 4
  {
    [w % 256, w / 256 % 256, w / 0x1_0000 % 256, w / 0x100_0000]
  }

  /** binary.LittleEndian.Uint32. */
  function Uint32(b: bytes): word
    requires |b| == 4
  {
    var b0: int, b1: int, b2: int, b3: int := b[0], b[1], b[2], b[3];
    b0 + 256 * b1 + 0x1_0000 * b2 + 0x100_0000 * b3
  }

  lemma WordsFromBytes(b: bytes)
    requires |b| == 4
    ensures PutUint32(Uint32(b)) == b
  {
    var w := Uint32(b);
    var b1: int, b2: int, b3: int := b[1], b[2], b[3];
    assert w / 256 == b1 + 256 * b2 + 0x1_0000 * b3;
    assert w / 0x1_0000 == b2 + 256 * b3;
    assert w / 0x100_0000 == b3;
  }

  lemma BytesFromWords(v: word, w: word)
    requires PutUint32(v) == PutUint32(w)
    ensures v == w
  {
    BytesOfWord(v);
    BytesOfWord(w);
  }

  lemma BytesOfWord(w: word)
    ensures Uint32(PutUint32(w)) == w
  {
    var a, b, c := w / 256, w / 0x1_0000, w / 0x100_0000;
    assert a / 256 == b && b / 256 == c;
  }

  function EncodeRow(r: row): (b: bytes)
    ensures |b| == 4 * |r|
  {
    if r == [] then [] else EncodeRow(r[..|r| - 1]) + PutUint32(r[|r| - 1])
  }

  /** The rows one after another, each value as four bytes. */
  function Encode(m: seq<row>): bytes
  {
    if m == [] then [] else Encode(m[..|m| - 1]) + EncodeRow(m[|m| - 1])
  }

  predicate Rectangular(m: seq<row>, dim: nat) { forall i :: 0 <= i < |m| ==> |m[i]| == dim }

  lemma OneMore(n: nat, dim: nat)
    ensures n * dim * 4 + dim * 4 == (n + 1) * dim * 4
  {
  }

  lemma {:induction false} EncodedLength(m: seq<row>, dim: nat)
    requires Rectangular(m, dim)
    ensures |Encode(m)| == |m| * dim * 4
  {
    if m == [] {
    } else {
      EncodedLength(m[..|m| - 1], dim);
      OneMore(|m| - 1, dim);
    }
  }

  lemma {:induction false} RowBytes(r: row, j: nat)
    requires j < |r|
    ensures EncodeRow(r)[4 * j..4 * j + 4] == PutUint32(r[j])
  {
    hide PutUint32;
    if j < |r| - 1 { RowBytes(r[..|r| - 1], j); }
  }

  /** Value `j` of row `i` stands as four bytes, the least significant first, behind those of the values before it. */
  lemma {:induction false} MatrixBytes(m: seq<row>, dim: nat, i: nat, j: nat)
    requires Rectangular(m, dim) && i < |m| && j < dim
    ensures var at := (i * dim + j) * 4;
      && 0 <= at && at + 4 <= |Encode(m)|
      && Encode(m)[at..at + 4] == [m[i][j] % 256, m[i][j] / 256 % 256, m[i][j] / 65536 % 256, m[i][j] / 16777216]
  {
    var n := |m| - 1;
    EncodedLength(m[..n], dim);
    EncodedLength(m, dim);
    InRow(i, n, j, dim);
    if i < n {
      MatrixBytes(m[..n], dim, i, j);
    } else {
      RowBytes(m[i], j);
    }
  }

  lemma InRow(i: nat, n: nat, j: nat, dim: nat)
    requires i <= n && j < dim
    ensures 0 <= (i * dim + j) * 4
    ensures i < n ==> (i * dim + j) * 4 + 4 <= n * dim * 4
    ensures (n * dim + j) * 4 == n * dim * 4 + 4 * j
    ensures (n * dim + j) * 4 + 4 <= (n + 1) * dim * 4
  {
    if i < n {
      assert (i + 1) * dim <= n * dim;
      assert (i + 1) * dim == i * dim + dim;
    }
    assert (n + 1) * dim == n * dim + dim;
  }

  lemma SamePieces<T>(a: seq<T>, x: seq<T>, b: seq<T>, y: seq<T>)
    requires a + x == b + y && |a| == |b|
    ensures a == b && x == y
  {
    JoinSlices(a, x);
    JoinSlices(b, y);
  }

  lemma {:induction false} RowFromBytes(r: row, s: row)
    requires EncodeRow(r) == EncodeRow(s) && |r| == |s|
    ensures r == s
  {
    if r != [] {
      var n := |r| - 1;
      hide PutUint32;
      SamePieces(EncodeRow(r[..n]), PutUint32(r[n]), EncodeRow(s[..n]), PutUint32(s[n]));
      RowFromBytes(r[..n], s[..n]);
      BytesFromWords(r[n], s[n]);
      Grow(r, n);
      Grow(s, n);
      assert r[..n + 1] == r && s[..n + 1] == s;
    }
  }

  /** A file holds the rows of one matrix of its shape only. */
  lemma {:induction false} MatrixFromBytes(m: seq<row>, n: seq<row>, dim: nat)
    requires Rectangular(m, dim) && Rectangular(n, dim) && |m| == |n| && Encode(m) == Encode(n)
    ensures m == n
  {
    if m != [] {
      var k := |m| - 1;
      hide EncodeRow;
      EncodedLength(m[..k], dim);
      EncodedLength(n[..k], dim);
      SamePieces(Encode(m[..k]), EncodeRow(m[k]), Encode(n[..k]), EncodeRow(n[k]));
      MatrixFromBytes(m[..k], n[..k], dim);
      RowFromBytes(m[k], n[k]);
      Grow(m, k);
      Grow(n, k);
      assert m[..k + 1] == m && n[..k + 1] == n;
    }
  }

  /** writeEmbeddingsFile, up to the write. */
  method WriteEmbeddings(m: seq<row>) returns (buf: bytes)
    ensures buf == Encode(m)
  {
    buf := [];
    for i := 0 to |m|
      invariant buf == Encode(m[..i])
    {
      var emb := m[i];
      Grow(m, i);
      for j := 0 to |emb|
        invariant buf == Encode(m[..i]) + EncodeRow(emb[..j])
      {
        Grow(emb, j);
        Assoc(Encode(m[..i]), EncodeRow(emb[..j]), PutUint32(emb[j]));
        assert EncodeRow(emb[..j + 1]) == EncodeRow(emb[..j]) + PutUint32(emb[j]);
        buf := buf + PutUint32(emb[j]);
      }
      assert emb[..|emb|] == emb;
    }
    assert m[..|m|] == m;
  }

  /** How many values stand in front of row `i`. */
  function RowBase(i: nat, dim: nat): nat { i * dim }

  lemma RowsFit(i: nat, dim: nat, samples: nat)
    requires i < samples
    ensures RowBase(i + 1, dim) == RowBase(i, dim) + dim && RowBase(i + 1, dim) * 4 <= dim * samples * 4
  {
    assert (samples - 1 - i) * dim >= 0;
    assert samples * dim == i * dim + dim + (samples - 1 - i) * dim;
  }

  lemma RowEnds(dim: nat, samples: nat)
    ensures RowBase(0, dim) == 0 && RowBase(samples, dim) * 4 == dim * samples * 4
  {
  }

  lemma RowGrows(r: row, w: word)
    ensures EncodeRow(r + [w]) == EncodeRow(r) + PutUint32(w)
  {
    assert (r + [w])[..|r|] == r;
  }

  lemma MatrixGrows(m: seq<row>, r: row)
    ensures Encode(m + [r]) == Encode(m) + EncodeRow(r)
  {
    hide EncodeRow;
    assert (m + [r])[..|m|] == m;
  }

  lemma SliceGrows<T>(s: seq<T>, a: nat, b: nat, c: nat)
    requires a <= b <= c <= |s|
    ensures s[a..b] + s[b..c] == s[a..c]
  {
  }

  /** The row that starts `base` values into the file. */
  method ReadRow(raw: bytes, dim: nat, base: nat) returns (r: row)
    requires (base + dim) * 4 <= |raw|
    ensures |r| == dim && EncodeRow(r) == raw[base * 4..(base + dim) * 4]
  {
    r := [];
    for j := 0 to dim
      invariant |r| == j && EncodeRow(r) == raw[base * 4..(base + j) * 4]
    {
      hide PutUint32, Uint32, EncodeRow;
      var off := (base + j) * 4;
      var w := Uint32(raw[off..off + 4]);
      WordsFromBytes(raw[off..off + 4]);
      RowGrows(r, w);
      SliceGrows(raw, base * 4, off, off + 4);
      r := r + [w];
    }
  }

  /** readEmbeddingsFile after the read: it inverts the write for every rectangular matrix of the stated shape, and
      refuses every other size. */
  method ReadEmbeddings(raw: bytes, dim: int, samples: int) returns (r: Option<seq<row>>)
    ensures r.Some? <==> dim > 0 && samples > 0 && |raw| == dim * samples * 4
    ensures r.Some? ==> |r.value| == samples && Rectangular(r.value, dim) && Encode(r.value) == raw
    ensures dim > 0 && samples > 0 ==>
      forall m :: |m| == samples && Rectangular(m, dim) && Encode(m) == raw ==> r == Some(m)
  {
    if dim <= 0 || samples <= 0 || |raw| != dim * samples * 4 {
      if dim > 0 && samples > 0 { WrongSize(raw, dim, samples); }
      return None;
    }
    var out := ReadRows(raw, dim, samples);
    UniqueRows(out, raw, dim);
    return Some(out);
  }

  method ReadRows(raw: bytes, dim: nat, samples: nat) returns (out: seq<row>)
    requires 0 < dim && |raw| == dim * samples * 4
    ensures |out| == samples && Rectangular(out, dim) && Encode(out) == raw
  {
    hide EncodeRow, Encode, RowBase;
    RowEnds(dim, samples);
    EncodeNothing();
    out := [];
    for i := 0 to samples
      invariant |out| == i && Rectangular(out, dim) && RowBase(i, dim) * 4 <= |raw|
      invariant Encode(out) == raw[..RowBase(i, dim) * 4]
    {
      RowsFit(i, dim, samples);
      var r := ReadRow(raw, dim, RowBase(i, dim));
      MatrixGrows(out, r);
      SliceGrows(raw, 0, RowBase(i, dim) * 4, RowBase(i + 1, dim) * 4);
      out := out + [r];
    }
    assert raw[..|raw|] == raw;
  }

  lemma EncodeNothing()
    ensures Encode([]) == []
  {
  }

  lemma WrongSize(raw: bytes, dim: nat, samples: nat)
    requires |raw| != dim * samples * 4
    ensures forall m :: |m| == samples && Rectangular(m, dim) ==> Encode(m) != raw
  {
    forall m | |m| == samples && Rectangular(m, dim) ensures Encode(m) != raw { EncodedLength(m, dim); }
  }

  lemma UniqueRows(out: seq<row>, raw: bytes, dim: nat)
    requires Rectangular(out, dim) && Encode(out) == raw
    ensures forall m :: |m| == |out| && Rectangular(m, dim) && Encode(m) == raw ==> m == out
  {
    forall m | |m| == |out| && Rectangular(m, dim) && Encode(m) == raw ensures m == out {
      MatrixFromBytes(m, out, dim);
    }
  }

  // ---------------------------------------------------------------- windows

  const MAX_WINDOWS := 8

  function Concat<T>(parts: seq<seq<T>>): seq<T>
  {
    if parts == [] then [] else Concat(parts[..|parts| - 1]) + parts[|parts| - 1]
  }

  /** enrollWindows: whole windows from the front with no gap, as many as fit and at most eight. */
  method EnrollWindows<T>(samples: seq<T>, window: nat) returns (out: seq<seq<T>>)
    requires window > 0
    ensures |samples| < window ==> out == [samples]
    ensures |samples| >= window ==>
      && 1 <= |out| <= MAX_WINDOWS && |out| * window <= |samples|
      && (forall k :: 0 <= k < |out| ==> |out[k]| == window)
      && Concat(out) == samples[..|out| * window]
      && (|out| < MAX_WINDOWS ==> |samples| < (|out| + 1) * window)
  {
    if |samples| < window { return [samples]; }
    out := [];
    var start := 0;
    while start + window <= |samples| && |out| < MAX_WINDOWS
      invariant |out| <= MAX_WINDOWS && start == |out| * window <= |samples|
      invariant forall k :: 0 <= k < |out| ==> |out[k]| == window
      invariant Concat(out) == samples[..start]
      invariant start == 0 ==> out == []
    {
      var piece := samples[start..start + window];
      assert (out + [piece])[..|out|] == out;
      assert samples[..start] + piece == samples[..start + window];
      assert (|out| + 1) * window == start + window;
      out := out + [piece];
      start := start + window;
    }
  }
}
