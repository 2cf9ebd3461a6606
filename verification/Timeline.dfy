/**
 Merging late observations into a sorted timeline (internal/speaker/types.go). A result
 for a known segment replaces the stored one if its revision is not older; the timeline
 is re-sorted by insertion after every merge.
 */
module Timeline {
  import opened Seqs

  datatype State = Provisional | Stable | Revised | Overlap | Rejected

  datatype Observation = Observation(id: string, start: int, end: int, speaker: string, state: State, revision: nat)

  // ---------------------------------------------------------------- the order

  /** Byte-wise string order. */
  predicate StringLess(a: string, b: string)
  {
    b != [] && (a == [] || a[0] < b[0] || (a[0] == b[0] && StringLess(a[1..], b[1..])))
  }

  /** observationBefore. */
  predicate Before(a: Observation, b: Observation)
  {
    if a.start != b.start then a.start < b.start
    else if a.end != b.end then a.end < b.end
    else StringLess(a.id, b.id)
  }

  lemma {:induction false} StringTotal(a: string, b: string)
    ensures !(StringLess(a, b) && StringLess(b, a))
    ensures a != b ==> StringLess(a, b) || StringLess(b, a)
    ensures !StringLess(a, a)
  {
    if a != [] {
      StringTotal(a[1..], a[1..]);
      if b != [] {
        StringTotal(a[1..], b[1..]);
        if a[0] == b[0] && a[1..] == b[1..] { assert a == [a[0]] + a[1..] == b; }
      }
    }
  }

  lemma {:induction false} StringTransitive(a: string, b: string, c: string)
    requires StringLess(a, b) && StringLess(b, c)
    ensures StringLess(a, c)
  {
    if a != [] && a[0] == b[0] == c[0] { StringTransitive(a[1..], b[1..], c[1..]); }
  }

  lemma BeforeTotal(a: Observation, b: Observation)
    ensures !(Before(a, b) && Before(b, a)) && !Before(a, a)
    ensures a.id != b.id ==> Before(a, b) || Before(b, a)
  {
    StringTotal(a.id, b.id);
  }

  lemma BeforeTransitive(a: Observation, b: Observation, c: Observation)
    requires Before(a, b) && Before(b, c)
    ensures Before(a, c)
  {
    if a.start == b.start == c.start && a.end == b.end == c.end { StringTransitive(a.id, b.id, c.id); }
  }

  predicate UniqueIds(s: seq<Observation>)
  {
    forall i, j :: 0 <= i < j < |s| ==> s[i].id != s[j].id
  }

  // ---------------------------------------------------------------- insertion sort

  /** `x` sinks from the right end of `s` past everything it is before. */
  function Sink(s: seq<Observation>, x: Observation): seq<Observation>
  {
    if s == [] || !Before(x, s[|s| - 1]) then s + [x]
    else Sink(s[..|s| - 1], x) + [s[|s| - 1]]
  }

  function SortSpec(s: seq<Observation>): (r: seq<Observation>)
  {
    if s == [] then [] else Sink(SortSpec(s[..|s| - 1]), s[|s| - 1])
  }

  lemma {:induction false} SinkKeeps(s: seq<Observation>, x: Observation)
    ensures multiset(Sink(s, x)) == multiset(s) + multiset{x}
    ensures |Sink(s, x)| == |s| + 1
  {
    hide Before;
    if s != [] {
      SinkKeeps(s[..|s| - 1], x);
      assert s == s[..|s| - 1] + [s[|s| - 1]];
    }
  }

  lemma {:induction false} SortKeeps(s: seq<Observation>)
    ensures multiset(SortSpec(s)) == multiset(s) && |SortSpec(s)| == |s|
  {
    if s != [] {
      SortKeeps(s[..|s| - 1]);
      SinkKeeps(SortSpec(s[..|s| - 1]), s[|s| - 1]);
      assert s == s[..|s| - 1] + [s[|s| - 1]];
    }
  }

  /** Every element of `s` comes strictly before the next ones: what sorting means for distinct ids. */
  predicate Strict(s: seq<Observation>)
  {
    forall i, j :: 0 <= i < j < |s| ==> Before(s[i], s[j])
  }

  lemma {:induction false} SinkStrict(s: seq<Observation>, x: Observation)
    requires Strict(s) && forall i :: 0 <= i < |s| ==> s[i].id != x.id
    ensures Strict(Sink(s, x))
  {
    if s == [] {
    } else {
      var n, last := |s| - 1, s[|s| - 1];
      BeforeTotal(x, last);
      if Before(x, last) {
        SinkStrict(s[..n], x);
        var r := Sink(s[..n], x);
        SinkKeeps(s[..n], x);
        forall i | 0 <= i < |r| ensures Before(r[i], last) {
          assert r[i] in multiset(r);
          assert r[i] == x || r[i] in s[..n];
        }
      } else {
        forall i | 0 <= i < |s| ensures Before(s[i], x) {
          if i < n { BeforeTransitive(s[i], last, x); }
        }
      }
    }
  }

  lemma {:induction false} SortStrict(s: seq<Observation>)
    requires UniqueIds(s)
    ensures Strict(SortSpec(s))
  {
    if s != [] {
      var init, x := s[..|s| - 1], s[|s| - 1];
      SortStrict(init);
      SortKeeps(init);
      forall i | 0 <= i < |SortSpec(init)| ensures SortSpec(init)[i].id != x.id {
        assert SortSpec(init)[i] in multiset(init);
      }
      SinkStrict(SortSpec(init), x);
    }
  }

  /** The two sequences hold the same observations. */
  ghost predicate SameElements(a: seq<Observation>, b: seq<Observation>)
  {
    forall o :: o in a <==> o in b
  }

  lemma {:induction false} StrictUnique(a: seq<Observation>, b: seq<Observation>)
    requires Strict(a) && Strict(b) && SameElements(a, b)
    ensures a == b
  {
    assert b != [] ==> b[0] in b;
    if a != [] {
      assert a[0] in b;
      assert b[0] in a;
      var k :| 0 <= k < |b| && b[k] == a[0];
      var m :| 0 <= m < |a| && a[m] == b[0];
      BeforeTotal(a[0], b[0]);
      assert a[0] == b[0];
      StrictTail(a);
      StrictTail(b);
      StrictUnique(a[1..], b[1..]);
      assert a == [a[0]] + a[1..] && b == [b[0]] + b[1..];
    }
  }

  lemma StrictTail(a: seq<Observation>)
    requires Strict(a) && a != []
    ensures Strict(a[1..])
    ensures forall o :: o in a[1..] <==> o in a && o != a[0]
  {
    BeforeTotal(a[0], a[0]);
    assert a == [a[0]] + a[1..];
    assert a[0] !in a[1..];
  }

  // ---------------------------------------------------------------- merging

  function FindSegment(s: seq<Observation>, id: string, from: nat): (i: nat)
    requires from <= |s|
    ensures from <= i <= |s|
    ensures i < |s| ==> id != "" && s[i].id == id
    ensures forall j :: from <= j < i ==> id == "" || s[j].id != id
    decreases |s| - from
  {
    if from == |s| then from
    else if id != "" && s[from].id == id then from
    else FindSegment(s, id, from + 1)
  }

  /** Merge, before sorting. */
  function Apply(s: seq<Observation>, o: Observation): seq<Observation>
  {
    var i := FindSegment(s, o.id, 0);
    if i == |s| then s + [o]
    else if o.state == Revised || o.revision >= s[i].revision then s[i := o]
    else s
  }

  function MergeSpec(s: seq<Observation>, o: Observation): seq<Observation> { SortSpec(Apply(s, o)) }

  function MergeAll(s: seq<Observation>, os: seq<Observation>): seq<Observation>
  {
    if os == [] then s else MergeSpec(MergeAll(s, os[..|os| - 1]), os[|os| - 1])
  }

  class Track {
    var observations: seq<Observation>

    constructor (observations: seq<Observation>)
      ensures this.observations == observations
    {
      this.observations := observations;
    }

    /** The inner loop of sort: element `i` sinks into the sorted front. */
    method Insert(i: nat)
      requires 0 < i < |observations|
      modifies this
      ensures observations == Sink(old(observations)[..i], old(observations)[i]) + old(observations)[i + 1..]
    {
      hide Before;
      var j := i;
      ghost var x, sorted, rest := observations[i], observations[..i], observations[i + 1..];
      assert observations == sorted + [x] + rest && sorted[i..] == [] && sorted[..i] == sorted;
      assert Sink(sorted, x) + [] == Sink(sorted, x);
      while j > 0 && Before(observations[j], observations[j - 1])
        invariant 0 <= j <= i
        invariant observations == sorted[..j] + [x] + sorted[j..] + rest
        invariant Sink(sorted, x) == Sink(sorted[..j], x) + sorted[j..]
      {
        SinkStep(sorted, j, x);
        SwapLeft(sorted, j, x, rest);
        observations := observations[j := observations[j - 1]][j - 1 := observations[j]];
        j := j - 1;
      }
      SinkStop(sorted, j, x);
    }

    method Sort()
      modifies this
      ensures observations == SortSpec(old(observations))
    {
      ghost var s := observations;
      if |observations| == 0 { return; }
      OneSorted(s);
      for i := 1 to |observations|
        invariant |observations| == |s| && observations == SortSpec(s[..i]) + s[i..]
      {
        SortKeeps(s[..i]);
        SortKeeps(s[..i + 1]);
        hide SortSpec;
        Insert(i);
        SortGrow(s, i);
      }
      assert s[..|s|] == s && s[|s|..] == [];
    }

    method Merge(o: Observation)
      modifies this
      ensures observations == MergeSpec(old(observations), o)
    {
      for i := 0 to |observations|
        invariant observations == old(observations)
        invariant FindSegment(observations, o.id, 0) == FindSegment(observations, o.id, i)
      {
        if o.id == "" || observations[i].id != o.id { continue; }
        if o.state == Revised || o.revision >= observations[i].revision {
          observations := observations[i := o];
        }
        Sort();
        return;
      }
      observations := observations + [o];
      Sort();
    }
  }

  /** One swap moves `x` one place to the left. */
  lemma SwapLeft(sorted: seq<Observation>, j: nat, x: Observation, rest: seq<Observation>)
    requires 0 < j <= |sorted|
    ensures var s := sorted[..j] + [x] + sorted[j..] + rest;
            && s[j] == x && s[j - 1] == sorted[j - 1]
            && s[j := s[j - 1]][j - 1 := s[j]] == sorted[..j - 1] + [x] + sorted[j - 1..] + rest
  {
  }

  lemma OneSorted(s: seq<Observation>)
    requires s != []
    ensures SortSpec(s[..1]) + s[1..] == s
  {
    assert s[..1][..0] == [];
  }

  /** The sorted front grows by sinking the next element. */
  lemma SortGrow(s: seq<Observation>, i: nat)
    requires 0 < i < |s| && |SortSpec(s[..i])| == i
    ensures var now := SortSpec(s[..i]) + s[i..];
            Sink(now[..i], now[i]) + now[i + 1..] == SortSpec(s[..i + 1]) + s[i + 1..]
  {
    hide Sink;
    var now := SortSpec(s[..i]) + s[i..];
    assert now[..i] == SortSpec(s[..i]) && now[i] == s[i] && now[i + 1..] == s[i + 1..];
    assert s[..i + 1][..i] == s[..i];
  }

  lemma SinkStep(sorted: seq<Observation>, j: nat, x: Observation)
    requires 0 < j <= |sorted| && Before(x, sorted[j - 1])
    ensures Sink(sorted[..j], x) + sorted[j..] == Sink(sorted[..j - 1], x) + sorted[j - 1..]
  {
    assert sorted[..j][..j - 1] == sorted[..j - 1];
    Next(sorted, j - 1);
    Assoc(Sink(sorted[..j - 1], x), [sorted[j - 1]], sorted[j..]);
  }

  lemma SinkStop(sorted: seq<Observation>, j: nat, x: Observation)
    requires j <= |sorted| && (j == 0 || !Before(x, sorted[j - 1]))
    ensures Sink(sorted[..j], x) + sorted[j..] == sorted[..j] + [x] + sorted[j..]
  {
  }

  // ---------------------------------------------------------------- one merge

  /** By start, then by end, then by id; equal ids may follow one another. */
  predicate InOrder(a: Observation, b: Observation)
  {
    a.start < b.start || (a.start == b.start && (a.end < b.end || (a.end == b.end && !StringLess(b.id, a.id))))
  }

  /** Byte-wise order: a proper prefix, or the smaller byte at the first difference. */
  predicate LessAt(a: string, b: string, k: nat)
  {
    k <= |a| && k < |b| && a[..k] == b[..k] && (k == |a| || a[k] < b[k])
  }

  lemma {:induction false} StringLessExact(a: string, b: string)
    ensures StringLess(a, b) <==> exists k: nat :: LessAt(a, b, k)
  {
    if b != [] && (a == [] || a[0] < b[0]) {
      assert LessAt(a, b, 0);
    } else if a != [] && b != [] && a[0] == b[0] {
      StringLessExact(a[1..], b[1..]);
      forall k: nat ensures LessAt(a[1..], b[1..], k) <==> LessAt(a, b, k + 1) { LessBehind(a, b, k); }
      assert !LessAt(a, b, 0);
      if StringLess(a, b) {
        var k: nat :| LessAt(a[1..], b[1..], k);
        assert LessAt(a, b, k + 1);
      }
      forall k: nat | LessAt(a, b, k) ensures StringLess(a, b) { assert LessAt(a[1..], b[1..], k - 1); }
    } else {
      assert forall k: nat :: LessAt(a, b, k) ==> k == 0 || a[..k][0] == b[..k][0];
    }
  }

  lemma LessBehind(a: string, b: string, k: nat)
    requires a != [] && b != [] && a[0] == b[0]
    ensures LessAt(a[1..], b[1..], k) <==> LessAt(a, b, k + 1)
  {
    if k + 1 <= |a| && k + 1 <= |b| {
      assert a[..k + 1] == [a[0]] + a[1..][..k] && b[..k + 1] == [b[0]] + b[1..][..k];
      assert a[..k + 1][1..] == a[1..][..k] && b[..k + 1][1..] == b[1..][..k];
    }
  }

  lemma InOrderTransitive(a: Observation, b: Observation, c: Observation)
    requires InOrder(a, b) && InOrder(b, c)
    ensures InOrder(a, c)
  {
    StringTotal(a.id, b.id);
    StringTotal(b.id, c.id);
    if a.id != b.id && b.id != c.id && StringLess(a.id, b.id) && StringLess(b.id, c.id) {
      StringTransitive(a.id, b.id, c.id);
      StringTotal(a.id, c.id);
    }
  }

  lemma NotBefore(a: Observation, b: Observation)
    ensures Before(b, a) ==> InOrder(b, a)
    ensures !Before(b, a) ==> InOrder(a, b)
  {
    StringTotal(a.id, b.id);
  }

  predicate Sorted(s: seq<Observation>) { forall i, j :: 0 <= i < j < |s| ==> InOrder(s[i], s[j]) }

  lemma {:induction false} SinkSorted(s: seq<Observation>, x: Observation)
    requires Sorted(s)
    ensures Sorted(Sink(s, x))
  {
    if s != [] {
      var n, last := |s| - 1, s[|s| - 1];
      NotBefore(last, x);
      if Before(x, last) {
        SinkSorted(s[..n], x);
        SinkKeeps(s[..n], x);
        var r := Sink(s[..n], x);
        forall i | 0 <= i < |r| ensures InOrder(r[i], last) {
          assert r[i] in multiset(r);
          assert r[i] == x || r[i] in s[..n];
        }
      } else {
        forall i | 0 <= i < |s| ensures InOrder(s[i], x) {
          if i < n { InOrderTransitive(s[i], last, x); }
        }
      }
    }
  }

  /** A timeline is in order after every merge, whatever was in it. */
  lemma MergedInOrder(s: seq<Observation>, o: Observation)
    ensures Sorted(MergeSpec(s, o))
  {
    SortSorts(Apply(s, o));
  }

  lemma {:induction false} SortSorts(s: seq<Observation>)
    ensures Sorted(SortSpec(s))
  {
    if s != [] {
      SortSorts(s[..|s| - 1]);
      SinkSorted(SortSpec(s[..|s| - 1]), s[|s| - 1]);
    }
  }

  /** A result without a name, or for a segment not in the timeline, is added. */
  lemma MergeAdds(s: seq<Observation>, o: Observation)
    requires o.id == "" || forall i :: 0 <= i < |s| ==> s[i].id != o.id
    ensures multiset(MergeSpec(s, o)) == multiset(s) + multiset{o}
  {
    SortKeeps(Apply(s, o));
  }

  /** A result for a segment in the timeline replaces the first stored one, if it is a revision or not older. */
  lemma MergeReplaces(s: seq<Observation>, o: Observation, i: nat)
    requires i < |s| && o.id != "" && s[i].id == o.id && forall j :: 0 <= j < i ==> s[j].id != o.id
    ensures multiset(MergeSpec(s, o))
      == if o.state == Revised || o.revision >= s[i].revision then multiset(s) - multiset{s[i]} + multiset{o}
         else multiset(s)
  {
    SortKeeps(Apply(s, o));
    assert FindSegment(s, o.id, 0) == i;
  }

  // ---------------------------------------------------------------- order independence

  /** Late results: named segments, none a forced revision, one observation a revision. */
  predicate Late(os: seq<Observation>)
  {
    && (forall i :: 0 <= i < |os| ==> os[i].id != "" && os[i].state != Revised)
    && (forall i, j :: 0 <= i < j < |os| && os[i].id == os[j].id ==> os[i].revision != os[j].revision)
  }

  /** `o` is what a segment ends up with: the newest late result, unless the stored one is newer still. */
  ghost predicate Wins(s: seq<Observation>, os: seq<Observation>, o: Observation)
  {
    if o in os then
      && (forall p :: p in os && p.id == o.id ==> p.revision <= o.revision)
      && (forall p :: p in s && p.id == o.id ==> p.revision <= o.revision)
    else
      o in s && forall p :: p in os && p.id == o.id ==> p.revision < o.revision
  }

  /** The stored observation of a segment is newer than `o`. */
  ghost predicate Outdated(s: seq<Observation>, o: Observation)
  {
    exists p :: p in s && p.id == o.id && p.revision > o.revision
  }

  lemma ApplyElements(s: seq<Observation>, o: Observation)
    requires UniqueIds(s) && o.id != "" && o.state != Revised
    ensures UniqueIds(Apply(s, o))
    ensures forall q :: q in Apply(s, o) <==> if q.id != o.id || Outdated(s, o) then q in s else q == o
  {
    var i, r := FindSegment(s, o.id, 0), Apply(s, o);
    if i == |s| {
      assert r == s + [o];
      assert !Outdated(s, o);
    } else {
      assert s[i] in s;
      assert forall p :: p in s && p.id == o.id ==> p == s[i];
      if r != s {
        forall q ensures q in r <==> (if q.id != o.id then q in s else q == o) { InUpdate(s, i, o, q); }
      }
    }
  }

  lemma InUpdate(s: seq<Observation>, i: nat, o: Observation, q: Observation)
    requires i < |s| && UniqueIds(s) && s[i].id == o.id
    ensures q in s[i := o] <==> (if q.id != o.id then q in s else q == o)
  {
    var r := s[i := o];
    assert r[i] == o;
    if q in s && q.id != o.id {
      var k :| 0 <= k < |s| && s[k] == q;
      assert r[k] == q;
    }
  }

  lemma MergeElements(s: seq<Observation>, o: Observation)
    requires UniqueIds(s) && o.id != "" && o.state != Revised
    ensures Strict(MergeSpec(s, o)) && UniqueIds(MergeSpec(s, o)) && SameElements(MergeSpec(s, o), Apply(s, o))
  {
    ApplyElements(s, o);
    var r := MergeSpec(s, o);
    SortStrict(Apply(s, o));
    SortKeeps(Apply(s, o));
    forall q ensures q in r <==> q in Apply(s, o) {
      assert q in r <==> q in multiset(r);
    }
    SortUnique(Apply(s, o));
  }

  lemma SortUnique(s: seq<Observation>)
    requires UniqueIds(s)
    ensures UniqueIds(SortSpec(s))
  {
    SortStrict(s);
    SortKeeps(s);
    var r := SortSpec(s);
    forall i, j | 0 <= i < j < |r| ensures r[i].id != r[j].id {
      assert r[i] in multiset(r) && r[j] in multiset(r);
      BeforeTotal(r[i], r[i]);
    }
  }

  /** Every result ever seen for a segment is matched by one at least as new. */
  ghost predicate Covers(t: seq<Observation>, q: Observation)
  {
    exists p :: p in t && p.id == q.id && p.revision >= q.revision
  }

  /** Merging late results leaves, in sorted order, exactly the winners. */
  lemma {:induction false} MergeAllWinners(s: seq<Observation>, os: seq<Observation>)
    requires Strict(s) && UniqueIds(s) && Late(os)
    ensures Strict(MergeAll(s, os)) && UniqueIds(MergeAll(s, os))
    ensures forall o :: o in MergeAll(s, os) <==> Wins(s, os, o)
    ensures forall q :: q in s || q in os ==> Covers(MergeAll(s, os), q)
  {
    hide Before, MergeSpec, Strict, Wins, Covers;
    if os == [] {
      NothingMerged(s);
    } else {
      var init, x := os[..|os| - 1], os[|os| - 1];
      MergeAllWinners(s, init);
      var t, r := MergeAll(s, init), MergeAll(s, os);
      MergeElements(t, x);
      ApplyElements(t, x);
      assert os == init + [x];
      forall o ensures o in r <==> Wins(s, os, o) { WinsNext(s, init, x, t, o); }
      forall q | q in s || q in os ensures Covers(r, q) { CoversNext(s, init, x, t, r, q); }
    }
  }

  lemma NothingMerged(s: seq<Observation>)
    ensures forall o :: o in s <==> Wins(s, [], o)
    ensures forall q :: q in s ==> Covers(s, q)
  {
  }

  lemma CoversNext(s: seq<Observation>, init: seq<Observation>, x: Observation,
                   t: seq<Observation>, r: seq<Observation>, q: Observation)
    requires q in s || q in init + [x]
    requires forall p :: p in s || p in init ==> Covers(t, p)
    requires forall p :: p in r <==> if p.id != x.id || Outdated(t, x) then p in t else p == x
    ensures Covers(r, q)
  {
    if Outdated(t, x) {
      var p :| p in t && p.id == x.id && p.revision > x.revision;
      assert p in r;
    } else {
      assert x in r;
    }
    if q != x {
      assert Covers(t, q);
      var p :| p in t && p.id == q.id && p.revision >= q.revision;
      if p.id != x.id { assert p in r; }
    }
  }

  lemma WinsNext(s: seq<Observation>, init: seq<Observation>, x: Observation, t: seq<Observation>, o: Observation)
    requires UniqueIds(t) && Late(init + [x])
    requires forall q :: q in t <==> Wins(s, init, q)
    requires forall q :: q in s || q in init ==> Covers(t, q)
    ensures (if o.id != x.id || Outdated(t, x) then o in t else o == x) <==> Wins(s, init + [x], o)
  {
    var os := init + [x];
    assert forall q :: q in os <==> q in init || q == x;
    assert forall q :: q in init && q.id == x.id ==> q.revision != x.revision by { NotTwice(init, x); }
    if o.id == x.id {
      if Outdated(t, x) {
        var p :| p in t && p.id == x.id && p.revision > x.revision;
        OneOf(t, p);
        assert Wins(s, init, p);
        assert !Wins(s, os, x);
      } else if o == x {
        forall q | (q in s || q in init) && q.id == x.id ensures q.revision <= x.revision { assert Covers(t, q); }
      } else {
        assert Wins(s, os, o) ==> Wins(s, init, o);
      }
    }
  }

  lemma NotTwice(init: seq<Observation>, x: Observation)
    requires Late(init + [x])
    ensures forall q :: q in init && q.id == x.id ==> q.revision != x.revision
  {
    var os := init + [x];
    forall q | q in init && q.id == x.id ensures q.revision != x.revision {
      var k :| 0 <= k < |init| && init[k] == q;
      assert os[k] == q && os[|init|] == x;
    }
  }

  lemma OneOf(t: seq<Observation>, p: Observation)
    requires UniqueIds(t) && p in t
    ensures forall q :: q in t && q.id == p.id ==> q == p
  {
  }

  /** Order does not matter: merging any permutation of late results gives the same timeline. */
  lemma MergeOrderIrrelevant(s: seq<Observation>, os: seq<Observation>, perm: seq<Observation>)
    requires Strict(s) && UniqueIds(s) && Late(os) && multiset(perm) == multiset(os)
    ensures MergeAll(s, perm) == MergeAll(s, os)
  {
    LatePermutes(os, perm);
    MergeAllWinners(s, os);
    MergeAllWinners(s, perm);
    forall o ensures o in os <==> o in perm {
      assert o in os <==> o in multiset(os);
      assert o in perm <==> o in multiset(perm);
    }
    hide Strict, UniqueIds, Before;
    forall o ensures o in MergeAll(s, perm) <==> o in MergeAll(s, os) {
      assert Wins(s, perm, o) <==> Wins(s, os, o);
    }
    StrictUnique(MergeAll(s, perm), MergeAll(s, os));
  }

  lemma LatePermutes(os: seq<Observation>, perm: seq<Observation>)
    requires Late(os) && multiset(perm) == multiset(os)
    ensures Late(perm)
  {
    forall i | 0 <= i < |perm| ensures perm[i] in os { assert perm[i] in multiset(perm); }
    forall i, j | 0 <= i < j < |perm| && perm[i].id == perm[j].id ensures perm[i].revision != perm[j].revision {
      var a :| 0 <= a < |os| && os[a] == perm[i];
      var b :| 0 <= b < |os| && os[b] == perm[j];
      if perm[i] == perm[j] {
        CountedTwice(perm, i, j);
        CountedOnce(os, a);
      }
    }
  }

  lemma CountedTwice(s: seq<Observation>, i: nat, j: nat)
    requires i < j < |s| && s[i] == s[j]
    ensures multiset(s)[s[i]] >= 2
  {
    assert s == s[..j] + s[j..];
    assert s[..j][i] in multiset(s[..j]) && s[j..][0] in multiset(s[j..]);
  }

  lemma CountedOnce(s: seq<Observation>, a: nat)
    requires Late(s) && a < |s|
    ensures multiset(s)[s[a]] == 1
  {
    assert s == s[..a] + [s[a]] + s[a + 1..];
    assert s[a] !in s[..a] && s[a] !in s[a + 1..];
    assert s[a] !in multiset(s[..a]) && s[a] !in multiset(s[a + 1..]);
  }

  /** Two results of one revision for one segment do depend on order, unless a newer one is stored. */
  lemma PairOrderExact(s: seq<Observation>, a: Observation, b: Observation)
    requires Strict(s) && UniqueIds(s) && a.id != "" && b.id != "" && a.state != Revised && b.state != Revised
    ensures MergeAll(s, [a, b]) == MergeAll(s, [b, a])
      <==> (a.id != b.id || a.revision != b.revision || a == b || Outdated(s, a))
  {
    hide Strict, UniqueIds, MergeSpec, StringLess;
    MergeTwo(s, a, b);
    MergeTwo(s, b, a);
    if a.id != b.id || a.revision != b.revision {
      assert multiset([b, a]) == multiset([a, b]);
      MergeOrderIrrelevant(s, [a, b], [b, a]);
    } else if a != b {
      TiedMerge(s, a, b);
      TiedMerge(s, b, a);
    }
  }

  lemma MergeTwo(s: seq<Observation>, a: Observation, b: Observation)
    ensures MergeAll(s, [a, b]) == MergeSpec(MergeSpec(s, a), b)
  {
    hide MergeSpec;
    assert [a, b][..1] == [a] && [a][..0] == [];
    assert MergeAll(s, [a][..0]) == s;
    assert MergeAll(s, [a]) == MergeSpec(s, a);
  }

  /** Of two tied results the later one stays, if no newer one is stored. */
  lemma TiedMerge(s: seq<Observation>, a: Observation, b: Observation)
    requires Strict(s) && UniqueIds(s) && a.id == b.id != "" && a.state != Revised && b.state != Revised
    requires a.revision == b.revision && a != b
    ensures var r := MergeSpec(MergeSpec(s, a), b);
            if Outdated(s, a) then r == s else b in r && a !in r
  {
    var t := MergeSpec(s, a);
    ApplyElements(s, a);
    MergeElements(s, a);
    ApplyElements(t, b);
    MergeElements(t, b);
    if Outdated(s, a) {
      var p :| p in s && p.id == a.id && p.revision > a.revision;
      assert p in t;
      assert Outdated(t, b);
      StrictUnique(MergeSpec(t, b), s);
    } else {
      assert a in t;
      OneOf(t, a);
      assert !Outdated(t, b);
    }
  }
}
