/** Facts about finite sequences and their sets of elements, shared by the queue-backed caches. */
module Sequences {

  datatype Option<+T> = None | Some(value: T)

  ghost predicate Distinct<T>(s: seq<T>) {
    forall i, j :: 0 <= i < j < |s| ==> s[i] != s[j]
  }

  ghost function Elements<T>(s: seq<T>): set<T> {
    set x | x in s
  }

  /** The last n entries of s, or all of s when it is shorter. */
  ghost function LastN<T>(s: seq<T>, n: nat): seq<T> {
    if |s| <= n then s else s[|s| - n..]
  }

  /** Keeping the last n of a list that was itself cut to its last n loses nothing. */
  lemma LastNOfAppend<T>(log: seq<T>, added: seq<T>, n: nat)
    ensures LastN(LastN(log, n) + added, n) == LastN(log + added, n)
  {}

  /** A set of elements is never larger than the sequence, and exactly as large iff nothing repeats. */
  lemma {:induction false} ElementsCount<T>(s: seq<T>)
    ensures |Elements(s)| <= |s|
    ensures Distinct(s) <==> |Elements(s)| == |s|
  {
    if s == [] {
      assert Elements(s) == {};
    } else {
      var n := |s| - 1;
      ElementsCount(s[..n]);
      assert s == s[..n] + [s[n]];
      assert Elements(s) == Elements(s[..n]) + {s[n]};
      if s[n] in s[..n] {
        assert Elements(s) == Elements(s[..n]);
      }
    }
  }

  /** p is obtained from s by deleting entries and keeping the order of the rest. */
  ghost predicate Subsequence<T>(p: seq<T>, s: seq<T>) {
    if p == [] then true
    else if s == [] then false
    else if p[|p| - 1] == s[|s| - 1] && Subsequence(p[..|p| - 1], s[..|s| - 1]) then true
    else Subsequence(p, s[..|s| - 1])
  }

  lemma SubsequenceGrows<T>(p: seq<T>, s: seq<T>, x: T)
    requires Subsequence(p, s)
    ensures Subsequence(p, s + [x])
    ensures Subsequence(p + [x], s + [x])
  {
    assert (s + [x])[..|s|] == s;
    assert (p + [x])[..|p|] == p;
  }

  lemma SubsequenceGrowsBehind<T>(p: seq<T>, q: seq<T>, s: seq<T>, x: T)
    requires Subsequence(p + q, s)
    ensures Subsequence(p + (q + [x]), s + [x])
  {
    SubsequenceGrows(p + q, s, x);
    assert p + (q + [x]) == p + q + [x];
  }

  lemma ConcatAssociates<T>(a: seq<T>, b: seq<T>, c: seq<T>)
    ensures (a + b) + c == a + (b + c)
  {}

  /** Entry k of s occurs exactly once when nothing in s repeats. */
  lemma {:induction false} DistinctMultiplicity<T>(s: seq<T>, x: T)
    requires Distinct(s)
    ensures multiset(s)[x] == if x in s then 1 else 0
  {
    if s != [] {
      var n := |s| - 1;
      assert s == s[..n] + [s[n]];
      DistinctMultiplicity(s[..n], x);
    }
  }

  /** A permutation of a duplicate-free sequence is duplicate-free and has the same elements. */
  lemma PermutationKeepsDistinct<T>(s: seq<T>, t: seq<T>)
    requires Distinct(s) && multiset(s) == multiset(t)
    ensures Distinct(t) && |t| == |s|
    ensures forall x :: x in t <==> x in s
  {
    forall x ensures x in t <==> x in s {
      assert x in multiset(s) <==> x in multiset(t);
    }
    assert |s| == |multiset(s)| == |multiset(t)| == |t|;
    forall i, j | 0 <= i < j < |t| ensures t[i] != t[j] {
      assert t == t[..j] + [t[j]] + t[j + 1..];
      assert multiset(t)[t[j]] == multiset(t[..j])[t[j]] + 1 + multiset(t[j + 1..])[t[j]];
      DistinctMultiplicity(s, t[j]);
      assert t[j] !in multiset(t[..j]);
      assert t[i] in multiset(t[..j]);
    }
  }

  lemma InsertIsPermutation<T>(s: seq<T>, k: nat, x: T)
    requires k <= |s|
    ensures multiset(s[..k] + [x] + s[k..]) == multiset(s + [x])
  {
    assert s == s[..k] + s[k..];
  }

  /** Cutting a duplicate-free sequence in two splits its elements into disjoint halves. */
  lemma DistinctSplits<T>(s: seq<T>, n: nat)
    requires Distinct(s) && n <= |s|
    ensures Distinct(s[..n]) && Distinct(s[n..])
    ensures Elements(s[..n]) !! Elements(s[n..]) && Elements(s[..n]) + Elements(s[n..]) == Elements(s)
    ensures forall i :: 0 <= i < |s| ==> (s[i] in Elements(s[n..]) <==> i >= n)
  {
    assert s == s[..n] + s[n..];
    forall i | 0 <= i < |s| ensures s[i] in s[n..] <==> i >= n {
      assert i >= n ==> s[n..][i - n] == s[i];
    }
    forall i | 0 <= i < n ensures s[i] !in s[n..] {}
  }

  lemma TailElements<T>(s: seq<T>)
    requires Distinct(s) && s != []
    ensures Distinct(s[1..]) && Elements(s[1..]) == Elements(s) - {s[0]}
  {
    assert s == [s[0]] + s[1..];
    assert forall i :: 0 <= i < |s[1..]| ==> s[1..][i] == s[i + 1];
  }

  lemma {:induction false} SubsetSize<T>(a: set<T>, b: set<T>)
    requires a <= b
    ensures |a| <= |b|
  {
    if a != {} {
      var x :| x in a;
      SubsetSize(a - {x}, b - {x});
    }
  }

  /** Filler identifiers: all of different lengths, and none of length one. */
  function Filler(n: nat): (id: string)
    ensures |id| == n + 2
  {
    seq(n + 2, i => 'f')
  }
}
