/**
 Windowing of the live microphone stream (internal/speaker/live_feed.go): chunks of any
 size are collected in a buffer, from which overlapping windows are examined.
 */
module LiveFeed {
  import opened Seqs

  type Samples = seq<int>

  const SAMPLE_RATE := 16000
  const CHUNK_SIZE := 1600
  const MIN_LIVE_EMBED_SAMPLES := 8000

  /** Window and hop, in samples, as StartLiveFeed sets them up. */
  function Setup(windowMS: int): (int, int)
  {
    var ms := if windowMS <= 0 then 1500 else windowMS;
    var asked := ms * SAMPLE_RATE / 1000;
    var window := if asked < MIN_LIVE_EMBED_SAMPLES then MIN_LIVE_EMBED_SAMPLES else asked;
    var hop := if window / 2 < CHUNK_SIZE then CHUNK_SIZE else window / 2;
    (window, hop)
  }

  /** A live feed never hops further than its window. */
  lemma SetupOverlaps(windowMS: int)
    ensures var (window, hop) := Setup(windowMS);
            1 <= hop <= window && 2 * hop <= window + 1 && window >= MIN_LIVE_EMBED_SAMPLES
  {
  }

  // ---------------------------------------------------------------- what should be examined

  predicate Sane(window: nat, hop: nat) { 1 <= hop <= window }

  /** The windows of a whole stream, one hop apart. */
  function Windows(s: Samples, window: nat, hop: nat): seq<Samples>
    requires Sane(window, hop)
    decreases |s|
  {
    if |s| < window then [] else [s[..window]] + Windows(s[hop..], window, hop)
  }

  /** What no window has been hopped over yet. */
  function Rest(s: Samples, window: nat, hop: nat): (r: Samples)
    requires Sane(window, hop)
    ensures |r| < window
    decreases |s|
  {
    if |s| < window then s else Rest(s[hop..], window, hop)
  }

  /** The k-th window starts at sample k * hop, and there is one for every k whose window lies in the stream. */
  lemma {:induction false} WindowAt(s: Samples, window: nat, hop: nat, k: nat)
    requires Sane(window, hop)
    ensures k < |Windows(s, window, hop)| <==> k * hop + window <= |s|
    ensures k * hop + window <= |s| ==> Windows(s, window, hop)[k] == s[k * hop..k * hop + window]
    decreases k
  {
    Hops(k, hop);
    if |s| >= window && k > 0 {
      WindowAt(s[hop..], window, hop, k - 1);
      if k * hop + window <= |s| { SliceBehind(s, hop, (k - 1) * hop, window); }
    }
  }

  lemma Hops(k: nat, hop: nat)
    ensures k * hop >= 0 && (k > 0 ==> k * hop == hop + (k - 1) * hop && (k - 1) * hop >= 0)
  {
  }

  lemma SliceBehind(s: Samples, hop: nat, i: nat, window: nat)
    requires hop + i + window <= |s|
    ensures s[hop..][i..i + window] == s[hop + i..hop + i + window]
  {
  }

  /** More samples add the windows that start in what was left over. */
  lemma {:induction false} WindowsExtend(a: Samples, b: Samples, window: nat, hop: nat)
    requires Sane(window, hop)
    ensures Windows(a + b, window, hop) == Windows(a, window, hop) + Windows(Rest(a, window, hop) + b, window, hop)
    ensures Rest(a + b, window, hop) == Rest(Rest(a, window, hop) + b, window, hop)
    decreases |a|
  {
    if |a| >= window {
      assert (a + b)[hop..] == a[hop..] + b && (a + b)[..window] == a[..window];
      WindowsExtend(a[hop..], b, window, hop);
    }
  }

  // ---------------------------------------------------------------- what the feed does

  /** The inner loop of run: windows examined, and the buffer left. */
  function Drain(buf: Samples, window: nat, hop: nat): (seq<Samples>, Samples)
    requires window >= 1 && hop >= 1
    decreases |buf|
  {
    if |buf| < window then ([], buf)
    else if hop >= |buf| then ([buf[..window]], [])
    else
      var (examined, left) := Drain(buf[hop..], window, hop);
      ([buf[..window]] + examined, left)
  }

  /** All chunks, one after the other. */
  function Feed(chunks: seq<Samples>, window: nat, hop: nat): (seq<Samples>, Samples)
    requires window >= 1 && hop >= 1
  {
    if chunks == [] then ([], [])
    else
      var (examined, buf) := Feed(chunks[..|chunks| - 1], window, hop);
      var (more, left) := Drain(buf + chunks[|chunks| - 1], window, hop);
      (examined + more, left)
  }

  function Stream(chunks: seq<Samples>): Samples
  {
    if chunks == [] then [] else Stream(chunks[..|chunks| - 1]) + chunks[|chunks| - 1]
  }

  /** The windows loud enough to submit, with their segment numbers. */
  function Loud(windows: seq<Samples>, audible: Samples -> bool): seq<(nat, Samples)>
  {
    if windows == [] then []
    else
      var before, w := Loud(windows[..|windows| - 1], audible), windows[|windows| - 1];
      if audible(w) then before + [(|before| + 1, w)] else before
  }

  /** Audible windows among the first `n`. */
  function Heard(windows: seq<Samples>, audible: Samples -> bool, n: nat): nat
    requires n <= |windows|
  {
    if n == 0 then 0 else Heard(windows, audible, n - 1) + (if audible(windows[n - 1]) then 1 else 0)
  }

  /** Every audible window is submitted, numbered by how many were heard, and no other. */
  lemma {:induction false} LoudExact(windows: seq<Samples>, audible: Samples -> bool, n: nat)
    requires n <= |windows|
    ensures var submitted := Loud(windows[..n], audible);
      && |submitted| == Heard(windows, audible, n)
      && forall i :: 0 <= i < n && audible(windows[i]) ==>
           0 <= Heard(windows, audible, i) < |submitted|
           && submitted[Heard(windows, audible, i)] == (Heard(windows, audible, i) + 1, windows[i])
  {
    if n > 0 {
      LoudExact(windows, audible, n - 1);
      assert windows[..n][..n - 1] == windows[..n - 1];
    }
  }

  method Run(chunks: seq<Samples>, window: nat, hop: nat, audible: Samples -> bool)
    returns (examined: seq<Samples>, submitted: seq<(nat, Samples)>)
    requires window >= 1 && hop >= 1
    ensures examined == Feed(chunks, window, hop).0
    ensures submitted == Loud(examined, audible)
    ensures hop <= window ==> examined == Windows(Stream(chunks), window, hop)
  {
    examined, submitted := [], [];
    var buf: Samples := [];
    var id := 0;
    for i := 0 to |chunks|
      invariant Feed(chunks[..i], window, hop) == (examined, buf)
      invariant submitted == Loud(examined, audible) && id == |submitted|
      invariant |buf| < window
    {
      FeedNext(chunks, i, window, hop);
      if |chunks[i]| == 0 {
        assert buf + chunks[i] == buf && examined + [] == examined;
        continue;
      }
      buf := buf + chunks[i];
      ghost var before, filled := examined, buf;
      while |buf| >= window
        invariant before + Drain(filled, window, hop).0 == examined + Drain(buf, window, hop).0
        invariant Drain(filled, window, hop).1 == Drain(buf, window, hop).1
        invariant submitted == Loud(examined, audible) && id == |submitted|
        decreases |buf|
      {
        var w := buf[..window];
        assert (examined + [w])[..|examined|] == examined;
        Assoc(examined, [w], Drain(buf[if hop >= |buf| then |buf| else hop..], window, hop).0);
        examined := examined + [w];
        if audible(w) {
          id := id + 1;
          submitted := submitted + [(id, w)];
        }
        if hop >= |buf| {
          buf := [];
          break;
        }
        buf := buf[hop..];
      }
      assert examined + [] == examined;
    }
    assert chunks[..|chunks|] == chunks;
    if hop <= window { FeedIsWindows(chunks, window, hop); }
  }

  lemma FeedNext(chunks: seq<Samples>, i: nat, window: nat, hop: nat)
    requires i < |chunks| && window >= 1 && hop >= 1
    ensures var (examined, buf) := Feed(chunks[..i], window, hop);
            var (more, left) := Drain(buf + chunks[i], window, hop);
            Feed(chunks[..i + 1], window, hop) == (examined + more, left)
  {
    assert chunks[..i + 1][..i] == chunks[..i];
  }

  lemma {:induction false} DrainIsWindows(buf: Samples, window: nat, hop: nat)
    requires Sane(window, hop)
    ensures Drain(buf, window, hop) == (Windows(buf, window, hop), Rest(buf, window, hop))
    decreases |buf|
  {
    if |buf| >= window {
      if hop >= |buf| {
        assert [buf[..window]] + [] == [buf[..window]];
        assert buf[hop..] == [] && Windows([], window, hop) == [] && Rest([], window, hop) == [];
      } else {
        DrainIsWindows(buf[hop..], window, hop);
      }
    }
  }

  /** Chunk boundaries do not matter: the windows examined are those of the stream. */
  lemma {:induction false} FeedIsWindows(chunks: seq<Samples>, window: nat, hop: nat)
    requires Sane(window, hop)
    ensures Feed(chunks, window, hop) == (Windows(Stream(chunks), window, hop), Rest(Stream(chunks), window, hop))
  {
    if chunks != [] {
      var init, last := chunks[..|chunks| - 1], chunks[|chunks| - 1];
      FeedIsWindows(init, window, hop);
      DrainIsWindows(Rest(Stream(init), window, hop) + last, window, hop);
      WindowsExtend(Stream(init), last, window, hop);
    }
  }

  /** Two chunkings of one stream are examined alike, for every stream, exactly when the hop does not exceed
      the window. */
  lemma ChunkingIrrelevantExact(window: nat, hop: nat)
    requires window >= 1 && hop >= 1
    ensures (forall a: seq<Samples>, b: seq<Samples> ::
               Stream(a) == Stream(b) ==> Feed(a, window, hop).0 == Feed(b, window, hop).0)
      <==> hop <= window
  {
    if hop <= window {
      forall a: seq<Samples>, b: seq<Samples> | Stream(a) == Stream(b)
        ensures Feed(a, window, hop).0 == Feed(b, window, hop).0
      {
        FeedIsWindows(a, window, hop);
        FeedIsWindows(b, window, hop);
      }
    } else {
      var w := seq(window, _ => 0);
      TwoChunks(w, window, hop);
      assert Stream([w + w]) == Stream([w, w]);
    }
  }

  /** With a longer hop, cutting the stream after the first window shifts the second one. */
  lemma TwoChunks(w: Samples, window: nat, hop: nat)
    requires 1 <= window < hop && |w| == window
    ensures Stream([w + w]) == w + w == Stream([w, w])
    ensures |Feed([w + w], window, hop).0| == 1 && |Feed([w, w], window, hop).0| == 2
  {
    assert [w, w][..1] == [w] && [w][..0] == [] && [w + w][..0] == [];
    assert [] + w == w && [] + (w + w) == w + w;
    assert Stream([w]) == w;
    assert Drain(w, window, hop) == ([w[..window]], []);
    assert [] + [w[..window]] == [w[..window]];
    assert Feed([w], window, hop) == ([] + Drain([] + w, window, hop).0, Drain([] + w, window, hop).1);
    var examined := Drain(w + w, window, hop).0;
    if hop < |w + w| {
      assert |(w + w)[hop..]| < window;
      assert Drain((w + w)[hop..], window, hop).0 == [];
    }
    assert |examined| == 1;
    assert Feed([w + w], window, hop).0 == [] + examined;
    assert Feed([w, w], window, hop).0 == [w[..window]] + [w[..window]];
  }
}
