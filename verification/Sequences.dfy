// Sequence vocabulary shared by the component models.
module Sequences {

  // The sum of a measure over a sequence.
  function Total<T>(f: T -> nat, s: seq<T>): nat {
    if s == [] then 0 else Total(f, s[..|s| - 1]) + f(s[|s| - 1])
  }

  lemma {:induction false} TotalUpdate<T>(f: T -> nat, s: seq<T>, i: nat, x: T)
    requires i < |s|
    ensures Total(f, s[i := x]) + f(s[i]) == Total(f, s) + f(x)
  {
    var n := |s| - 1;
    if i == n {
      assert s[i := x][..n] == s[..n];
    } else {
      assert s[i := x][..n] == s[..n][i := x];
      TotalUpdate(f, s[..n], i, x);
    }
  }

  lemma {:induction false} TotalAtMost<T>(f: T -> nat, s: seq<T>, bound: nat)
    requires forall i :: 0 <= i < |s| ==> f(s[i]) <= bound
    ensures Total(f, s) <= |s| * bound
  {
    if s != [] {
      TotalAtMost(f, s[..|s| - 1], bound);
    }
  }

  lemma {:induction false} TotalZero<T>(f: T -> nat, s: seq<T>)
    requires forall i :: 0 <= i < |s| ==> f(s[i]) == 0
    ensures Total(f, s) == 0
  {
    if s != [] {
      TotalZero(f, s[..|s| - 1]);
    }
  }

  lemma {:induction false} TotalSize<T>(f: T -> nat, s: seq<T>)
    requires forall i :: 0 <= i < |s| ==> f(s[i]) == 1
    ensures Total(f, s) == |s|
  {
    if s != [] {
      TotalSize(f, s[..|s| - 1]);
    }
  }

  lemma {:induction false} TotalConcat<T>(f: T -> nat, s: seq<T>, t: seq<T>)
    ensures Total(f, s + t) == Total(f, s) + Total(f, t)
  {
    if t == [] {
      assert s + t == s;
    } else {
      var n := |t| - 1;
      TotalConcat(f, s, t[..n]);
      assert (s + t)[..|s| + n] == s + t[..n];
    }
  }

  lemma {:induction false} TotalSame<T, K>(f: T -> nat, s: seq<T>, g: K -> nat, t: seq<K>)
    requires |s| == |t| && forall i :: 0 <= i < |s| ==> f(s[i]) == g(t[i])
    ensures Total(f, s) == Total(g, t)
  {
    if s != [] {
      TotalSame(f, s[..|s| - 1], g, t[..|s| - 1]);
    }
  }

  function Map<T, K>(f: T -> K, s: seq<T>): (r: seq<K>)
    ensures |r| == |s| && forall i :: 0 <= i < |s| ==> r[i] == f(s[i])
  {
    seq(|s|, i requires 0 <= i < |s| => f(s[i]))
  }

  // The bag of what each element contributes.
  function Bag<T, K>(f: T -> multiset<K>, s: seq<T>): multiset<K> {
    if s == [] then multiset{} else Bag(f, s[..|s| - 1]) + f(s[|s| - 1])
  }

  lemma BagSnoc<T, K>(f: T -> multiset<K>, s: seq<T>, x: T)
    ensures Bag(f, s + [x]) == Bag(f, s) + f(x)
  {
    assert (s + [x])[..|s|] == s;
  }

  lemma {:induction false} BagUpdate<T, K>(f: T -> multiset<K>, s: seq<T>, i: nat, x: T)
    requires i < |s|
    ensures Bag(f, s[i := x]) + f(s[i]) == Bag(f, s) + f(x)
  {
    var n := |s| - 1;
    if i == n {
      assert s[i := x][..n] == s[..n];
    } else {
      assert s[i := x][..n] == s[..n][i := x];
      BagUpdate(f, s[..n], i, x);
      var (a, b, last) := (Bag(f, s[..n][i := x]), Bag(f, s[..n]), f(s[n]));
      assert (a + last) + f(s[i]) == (a + f(s[i])) + last;
      assert (b + last) + f(x) == (b + f(x)) + last;
    }
  }

  lemma {:induction false} BagConcat<T, K>(f: T -> multiset<K>, s: seq<T>, t: seq<T>)
    ensures Bag(f, s + t) == Bag(f, s) + Bag(f, t)
  {
    if t == [] {
      assert s + t == s;
    } else {
      var n := |t| - 1;
      BagConcat(f, s, t[..n]);
      assert (s + t)[..|s| + n] == s + t[..n];
      var (a, b, last) := (Bag(f, s), Bag(f, t[..n]), f(t[n]));
      hide Bag;
      assert (a + b) + last == a + (b + last);
    }
  }

  // A bag is empty iff nothing contributes to it.
  lemma {:induction false} BagEmptyIff<T, K>(f: T -> multiset<K>, s: seq<T>)
    ensures Bag(f, s) == multiset{} <==> forall i :: 0 <= i < |s| ==> f(s[i]) == multiset{}
  {
    if s != [] {
      var n := |s| - 1;
      BagEmptyIff(f, s[..n]);
      assert Bag(f, s) == multiset{} ==> |Bag(f, s[..n])| + |f(s[n])| == 0;
    }
  }

  // An element that contributed nothing starts to contribute, and conversely.
  lemma BagGains<T, K>(f: T -> multiset<K>, s: seq<T>, i: nat, x: T)
    requires i < |s| && f(s[i]) == multiset{}
    ensures Bag(f, s[i := x]) == Bag(f, s) + f(x)
  {
    BagUpdate(f, s, i, x);
    hide Bag;
    assert Bag(f, s[i := x]) + multiset{} == Bag(f, s[i := x]);
  }

  lemma BagLoses<T, K>(f: T -> multiset<K>, s: seq<T>, i: nat, x: T)
    requires i < |s| && f(x) == multiset{}
    ensures Bag(f, s) == Bag(f, s[i := x]) + f(s[i])
  {
    BagUpdate(f, s, i, x);
    hide Bag;
    assert Bag(f, s) + multiset{} == Bag(f, s);
  }

  // The most recent `n` elements.
  function LastN<T>(s: seq<T>, n: nat): seq<T> {
    if |s| <= n then s else s[|s| - n..]
  }

  // `a` is obtained from `b` by deleting elements.
  ghost predicate IsSubsequence<T>(a: seq<T>, b: seq<T>) {
    a == [] ||
    (b != [] &&
     ((a[|a| - 1] == b[|b| - 1] && IsSubsequence(a[..|a| - 1], b[..|b| - 1])) ||
      IsSubsequence(a, b[..|b| - 1])))
  }

  lemma SubsequenceSnoc<T>(a: seq<T>, b: seq<T>, x: T)
    requires IsSubsequence(a, b)
    ensures IsSubsequence(a, b + [x])
    ensures IsSubsequence(a + [x], b + [x])
  {
    assert (a + [x])[..|a|] == a;
    assert (b + [x])[..|b|] == b;
  }

  // Deleting one more element of a subsequence leaves a subsequence.
  lemma {:induction false} SubsequenceDelete<T>(a: seq<T>, b: seq<T>, i: nat)
    requires i < |a| && IsSubsequence(a, b)
    ensures IsSubsequence(a[..i] + a[i + 1..], b)
    decreases |b|
  {
    var m := |a| - 1;
    var d := a[..i] + a[i + 1..];
    if a[m] == b[|b| - 1] && IsSubsequence(a[..m], b[..|b| - 1]) {
      if i == m {
        assert d == a[..m];
      } else {
        SubsequenceDelete(a[..m], b[..|b| - 1], i);
        assert d[..|d| - 1] == a[..m][..i] + a[..m][i + 1..];
      }
    } else {
      SubsequenceDelete(a, b[..|b| - 1], i);
    }
  }
}
