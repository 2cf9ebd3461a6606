/** Slicing and concatenation facts, stated once so that proofs can cite them. */
module Seqs {

  lemma Assoc<T>(a: seq<T>, b: seq<T>, c: seq<T>)
    ensures a + b + c == a + (b + c)
  {
  }

  lemma DropDrop<T>(s: seq<T>, i: nat, j: nat)
    requires i + j <= |s|
    ensures s[i..][j..] == s[i + j..]
  {
  }

  lemma TakeSplit<T>(s: seq<T>, i: nat, n: nat)
    requires i <= n <= |s|
    ensures s[..n] == s[..i] + s[i..][..n - i]
    ensures s[..n][..i] == s[..i]
    ensures s[..n][i..] == s[i..][..n - i]
  {
  }

  lemma SplitAt<T>(s: seq<T>, i: nat)
    requires i <= |s|
    ensures s == s[..i] + s[i..]
  {
  }

  lemma JoinSlices<T>(a: seq<T>, b: seq<T>)
    ensures (a + b)[..|a|] == a && (a + b)[|a|..] == b
  {
  }

  /** The tail of a tail, one element at a time. */
  lemma Next<T>(s: seq<T>, i: nat)
    requires i < |s|
    ensures s[i..] == [s[i]] + s[i + 1..]
    ensures s[i..][0] == s[i] && s[i..][1..] == s[i + 1..]
  {
  }

  /** A prefix grows at its end. */
  lemma Grow<T>(s: seq<T>, i: nat)
    requires i < |s|
    ensures s[..i + 1] == s[..i] + [s[i]]
  {
  }

  /** Position of the first `c` in `s`, its length when there is none. */
  function IndexOf<T(==)>(s: seq<T>, c: T): nat
  {
    if s == [] || s[0] == c then 0 else 1 + IndexOf(s[1..], c)
  }

  lemma {:induction false} IndexOfJoin<T>(a: seq<T>, x: seq<T>, c: T)
    requires c !in a && (x == [] || x[0] == c)
    ensures IndexOf(a + x, c) == |a|
  {
    if a == [] {
      assert a + x == x;
    } else {
      assert (a + x)[1..] == a[1..] + x;
      IndexOfJoin(a[1..], x, c);
    }
  }

  /** Two strings without `c`, each followed by nothing or by a `c`, are told apart. */
  lemma FirstPartFixed<T>(a: seq<T>, x: seq<T>, b: seq<T>, y: seq<T>, c: T)
    requires c !in a && c !in b
    requires a + x == b + y
    requires (x == [] || x[0] == c) && (y == [] || y[0] == c)
    ensures a == b && x == y
  {
    IndexOfJoin(a, x, c);
    IndexOfJoin(b, y, c);
    JoinSlices(a, x);
    JoinSlices(b, y);
  }
}
