/** Elements and order-preserving subsequences, named by the positions they pick. */
module Sequences {
  function Elements<T>(s: seq<T>): set<T> {
    set x | x in s
  }

  ghost predicate NoDuplicates<T>(s: seq<T>) {
    forall i, j :: 0 <= i < j < |s| ==> s[i] != s[j]
  }

  function Concat<T>(parts: seq<seq<T>>): seq<T> {
    if parts == [] then [] else Concat(parts[..|parts| - 1]) + parts[|parts| - 1]
  }

  lemma InitAndLast<T>(s: seq<T>)
    requires s != []
    ensures s == s[..|s| - 1] + [s[|s| - 1]]
    ensures Elements(s) == Elements(s[..|s| - 1]) + {s[|s| - 1]}
    ensures NoDuplicates(s) ==> s[|s| - 1] !in Elements(s[..|s| - 1])
  {
    assert s == s[..|s| - 1] + [s[|s| - 1]];
  }

  lemma SplitElements<T>(s: seq<T>, n: nat)
    requires n <= |s|
    ensures Elements(s) == Elements(s[..n]) + Elements(s[n..])
    ensures NoDuplicates(s) ==> Elements(s[..n]) * Elements(s[n..]) == {} && NoDuplicates(s[..n])
  {
    assert s == s[..n] + s[n..];
  }

  lemma Middle<T>(s: seq<T>)
    requires |s| > 1
    ensures s[..|s| - 1][1..] == s[1..][..|s| - 2]
    ensures s[..|s| - 1][0] == s[0] && s[1..][|s| - 2] == s[|s| - 1]
  {
  }

  lemma {:induction false} ConcatFromFront<T>(parts: seq<seq<T>>)
    requires parts != []
    ensures Concat(parts) == parts[0] + Concat(parts[1..])
  {
    if |parts| == 1 {
      assert Concat(parts[..0]) == [] && parts[1..] == [];
    } else {
      Middle(parts);
      ConcatFromFront(parts[..|parts| - 1]);
    }
  }

  lemma NothingAdded<T>(s: seq<T>)
    ensures s + [] == s && [] + s == s
  {
  }

  lemma Regrouped<T>(a: seq<T>, b: seq<T>, c: seq<T>)
    ensures a + b + c == a + (b + c)
  {
  }

  lemma HeadOfBoth<T>(a: seq<T>, b: seq<T>)
    requires a != []
    ensures a + b == [a[0]] + (a[1..] + b)
  {
  }

  ghost predicate Increasing(ix: seq<nat>) {
    forall i, j :: 0 <= i < j < |ix| ==> ix[i] < ix[j]
  }

  /** `xs` lists the elements of `ys` at the positions `ix`, each position at most once and in order. */
  ghost predicate Picks<T>(xs: seq<T>, ys: seq<T>, ix: seq<nat>) {
    && |xs| == |ix| && Increasing(ix)
    && forall i :: 0 <= i < |ix| ==> ix[i] < |ys| && xs[i] == ys[ix[i]]
  }

  /** In order and duplicate-free with respect to positions. */
  ghost predicate Subsequence<T>(xs: seq<T>, ys: seq<T>) {
    exists ix :: Picks(xs, ys, ix)
  }

  lemma PicksAppend<T>(xs: seq<T>, ys: seq<T>, ix: seq<nat>, k: nat)
    requires Picks(xs, ys, ix) && k < |ys|
    requires ix == [] || ix[|ix| - 1] < k
    ensures Picks(xs + [ys[k]], ys, ix + [k])
  {
    var jx := ix + [k];
    forall i, j | 0 <= i < j < |jx|
      ensures jx[i] < jx[j]
    {
      if j == |ix| && i < |ix| - 1 {
        assert ix[i] < ix[|ix| - 1];
      }
    }
  }

  lemma PicksFromLonger<T>(xs: seq<T>, ys: seq<T>, zs: seq<T>, ix: seq<nat>)
    requires Picks(xs, ys, ix)
    ensures Picks(xs, ys + zs, ix)
  {
  }

  lemma SubsequenceOfLonger<T>(xs: seq<T>, ys: seq<T>, zs: seq<T>)
    requires Subsequence(xs, ys)
    ensures Subsequence(xs, ys + zs)
  {
    var ix :| Picks(xs, ys, ix);
    PicksFromLonger(xs, ys, zs, ix);
  }

  lemma SubsequenceBothLonger<T>(xs: seq<T>, ys: seq<T>, y: T)
    requires Subsequence(xs, ys)
    ensures Subsequence(xs + [y], ys + [y])
  {
    var ix :| Picks(xs, ys, ix);
    PicksFromLonger(xs, ys, [y], ix);
    PicksAppend(xs, ys + [y], ix, |ys|);
  }

  lemma SubsequenceOfSelf<T>(xs: seq<T>)
    ensures Subsequence(xs, xs)
  {
    assert Picks(xs, xs, seq(|xs|, i requires 0 <= i => i));
  }

  lemma SubsequenceTransitive<T>(xs: seq<T>, ys: seq<T>, zs: seq<T>)
    requires Subsequence(xs, ys) && Subsequence(ys, zs)
    ensures Subsequence(xs, zs)
  {
    var ix :| Picks(xs, ys, ix);
    var jx :| Picks(ys, zs, jx);
    var kx := seq(|ix|, i requires 0 <= i < |ix| => jx[ix[i]]);
    assert Picks(xs, zs, kx);
  }
}
