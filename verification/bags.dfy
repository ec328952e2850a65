/** Sequences and the multisets of their elements. */
module Bags {
  lemma SplitLast<T>(s: seq<T>)
    requires s != []
    ensures s == s[..|s| - 1] + [s[|s| - 1]]
    ensures forall x :: x in s <==> x in s[..|s| - 1] || x == s[|s| - 1]
  {
    assert s == s[..|s| - 1] + [s[|s| - 1]];
  }

  lemma Shuffle<T>(a: multiset<T>, b: multiset<T>, c: multiset<T>)
    ensures a + (b + c) == (a + c) + b
  {
  }

  lemma BagWithout<T>(l: seq<T>, x: T, r: seq<T>)
    ensures multiset(l + ([x] + r)) == multiset(l + r) + multiset{x}
  {
    assert multiset(l + ([x] + r)) == multiset(l) + (multiset{x} + multiset(r));
    Shuffle(multiset(l), multiset{x}, multiset(r));
  }

  lemma BagCancel<T>(a: multiset<T>, b: multiset<T>, x: T)
    requires a + multiset{x} == b + multiset{x}
    ensures a == b
  {
    forall y ensures a[y] == b[y] {
      assert (a + multiset{x})[y] == (b + multiset{x})[y];
    }
  }

  /** The last element of xs, wherever it stands in ys. */
  lemma TakeOut<T>(xs: seq<T>, ys: seq<T>) returns (l: seq<T>, r: seq<T>)
    requires xs != [] && multiset(xs) == multiset(ys)
    ensures ys == l + ([xs[|xs| - 1]] + r) && multiset(xs[..|xs| - 1]) == multiset(l + r)
  {
    var init, last := xs[..|xs| - 1], xs[|xs| - 1];
    assert last in multiset(xs);
    var i :| 0 <= i < |ys| && ys[i] == last;
    l, r := ys[..i], ys[i + 1..];
    assert ys == l + ([last] + r);
    BagWithout(l, last, r);
    LastInBag(xs);
    BagCancel(multiset(init), multiset(l + r), last);
  }

  lemma LastInBag<T>(xs: seq<T>)
    requires xs != []
    ensures multiset(xs) == multiset(xs[..|xs| - 1]) + multiset{xs[|xs| - 1]}
  {
    assert xs == xs[..|xs| - 1] + [xs[|xs| - 1]];
  }

  /** Every bag can be listed. */
  lemma ListBag<T>(m: multiset<T>) returns (s: seq<T>)
    ensures multiset(s) == m
    decreases |m|
  {
    if m == multiset{} {
      s := [];
    } else {
      var x :| x in m;
      var rest := ListBag(m - multiset{x});
      s := rest + [x];
    }
  }

  lemma SameMembers<T>(xs: seq<T>, ys: seq<T>)
    requires multiset(xs) == multiset(ys)
    ensures forall x :: x in xs <==> x in ys
  {
    forall x ensures x in xs <==> x in ys {
      assert x in xs <==> x in multiset(xs);
      assert x in ys <==> x in multiset(ys);
    }
  }

  lemma BagDifference<T>(a: multiset<T>, b: multiset<T>)
    requires |a| == |b| && a != b
    ensures a - b != multiset{} && b - a != multiset{}
  {
    assert a == (a - b) + (a * b);
    assert b == (b - a) + (a * b);
  }

  lemma SameSizeSubBag<T>(a: multiset<T>, b: multiset<T>)
    requires a <= b && |a| == |b|
    ensures a == b
  {
    assert b == a + (b - a);
  }

  lemma SizeWithOneMore<T>(s: set<T>, x: T)
    requires x !in s
    ensures |s + {x}| == |s| + 1
  {
  }
}
