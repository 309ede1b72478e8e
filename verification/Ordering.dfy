// Sorting by a strict order, and what a sorted sequence is determined by.
module Ordering {
  import opened Sequences

  // Byte order of strings.
  predicate Less(a: string, b: string) {
    b != "" && (a == "" || a[0] < b[0] || (a[0] == b[0] && Less(a[1..], b[1..])))
  }

  // Byte order is total, and incomparable only where equal.
  lemma {:induction false} LessTotal(a: string, b: string)
    ensures !(Less(a, b) && Less(b, a))
    ensures a == b <==> !Less(a, b) && !Less(b, a)
  {
    if a != "" && b != "" && a[0] == b[0] {
      LessTotal(a[1..], b[1..]);
      assert a == [a[0]] + a[1..] && b == [b[0]] + b[1..];
    }
  }

  lemma {:induction false} LessSteps(a: string, b: string, c: string)
    requires Less(a, c)
    ensures Less(a, b) || Less(b, c)
  {
    if a != "" && b != "" && a[0] == b[0] == c[0] {
      LessSteps(a[1..], b[1..], c[1..]);
    }
  }

  // At the first place where they differ the one with the lesser character is less; a
  // text is less than its extensions.
  lemma {:induction false} LessIff(a: string, b: string)
    ensures Less(a, b) <==> exists k: nat :: FirstDiffers(a, b, k)
  {
    if a != "" && b != "" && a[0] == b[0] {
      LessIff(a[1..], b[1..]);
      if k: nat :| FirstDiffers(a[1..], b[1..], k) {
        assert forall i :: 0 < i < k + 1 ==> a[i] == a[1..][i - 1] == b[1..][i - 1] == b[i];
        assert FirstDiffers(a, b, k + 1);
      }
      if k: nat :| FirstDiffers(a, b, k) {
        assert k > 0;
        assert forall i :: 0 <= i < k - 1 ==> a[1..][i] == a[i + 1] && b[1..][i] == b[i + 1];
        assert FirstDiffers(a[1..], b[1..], k - 1);
      }
    } else if Less(a, b) {
      assert FirstDiffers(a, b, 0);
    }
  }

  ghost predicate FirstDiffers(a: string, b: string, k: nat) {
    k <= |a| && k < |b| && (forall i :: 0 <= i < k ==> a[i] == b[i]) && (k < |a| ==> a[k] < b[k])
  }

  // What a comparison must satisfy for sorting to mean anything.
  ghost predicate StrictWeak<T(!new)>(lt: (T, T) -> bool) {
    (forall x, y :: !(lt(x, y) && lt(y, x))) && forall x, y, z :: lt(x, z) ==> lt(x, y) || lt(y, z)
  }

  ghost predicate Sorted<T>(lt: (T, T) -> bool, s: seq<T>) {
    forall i, j :: 0 <= i < j < |s| ==> !lt(s[j], s[i])
  }

  // Places `x` behind the elements that are not greater.
  function Insert<T>(lt: (T, T) -> bool, s: seq<T>, x: T): seq<T> {
    if s == [] then [x]
    else if lt(x, s[|s| - 1]) then Insert(lt, s[..|s| - 1], x) + [s[|s| - 1]]
    else s + [x]
  }

  function Sort<T>(lt: (T, T) -> bool, s: seq<T>): seq<T> {
    if s == [] then [] else Insert(lt, Sort(lt, s[..|s| - 1]), s[|s| - 1])
  }

  lemma {:induction false} InsertPermutes<T>(lt: (T, T) -> bool, s: seq<T>, x: T)
    ensures multiset(Insert(lt, s, x)) == multiset(s) + multiset{x}
  {
    if s != [] && lt(x, s[|s| - 1]) {
      InsertPermutes(lt, s[..|s| - 1], x);
      assert s == s[..|s| - 1] + [s[|s| - 1]];
    }
  }

  lemma InsertMember<T>(lt: (T, T) -> bool, s: seq<T>, x: T, y: T)
    requires y in Insert(lt, s, x)
    ensures y == x || y in s
  {
    InsertPermutes(lt, s, x);
    assert y in multiset(Insert(lt, s, x));
  }

  lemma StrictWeakAt<T(!new)>(lt: (T, T) -> bool, x: T, y: T, z: T)
    requires StrictWeak(lt)
    ensures !(lt(x, y) && lt(y, x)) && (lt(x, z) ==> lt(x, y) || lt(y, z))
  {
  }

  lemma {:induction false} InsertSorted<T(!new)>(lt: (T, T) -> bool, s: seq<T>, x: T)
    requires StrictWeak(lt) && Sorted(lt, s)
    ensures Sorted(lt, Insert(lt, s, x))
  {
    hide StrictWeak;
    if s != [] && lt(x, s[|s| - 1]) {
      var (front, last) := (s[..|s| - 1], s[|s| - 1]);
      InsertSorted(lt, front, x);
      var r := Insert(lt, front, x);
      forall i | 0 <= i < |r| ensures !lt(last, r[i]) {
        InsertMember(lt, front, x, r[i]);
        StrictWeakAt(lt, x, last, x);
      }
    } else {
      forall i | 0 <= i < |s| ensures !lt(x, s[i]) {
        StrictWeakAt(lt, x, s[|s| - 1], s[i]);
      }
    }
  }

  lemma {:induction false} SortSorts<T(!new)>(lt: (T, T) -> bool, s: seq<T>)
    requires StrictWeak(lt)
    ensures Sorted(lt, Sort(lt, s)) && multiset(Sort(lt, s)) == multiset(s)
  {
    if s != [] {
      var n := |s| - 1;
      SortSorts(lt, s[..n]);
      InsertSorted(lt, Sort(lt, s[..n]), s[n]);
      InsertPermutes(lt, Sort(lt, s[..n]), s[n]);
      hide StrictWeak, Sorted;
      assert s == s[..n] + [s[n]];
    }
  }

  // The sequence without its element at `j`.
  function Without<T>(s: seq<T>, j: nat): seq<T>
    requires j < |s|
  {
    s[..j] + s[j + 1..]
  }

  lemma WithoutMultiset<T>(s: seq<T>, j: nat)
    requires j < |s|
    ensures multiset(s) == multiset(Without(s, j)) + multiset{s[j]}
  {
    assert s == s[..j] + [s[j]] + s[j + 1..];
  }

  lemma WithoutBoth<T>(s: seq<T>, i: nat, t: seq<T>, j: nat)
    requires i < |s| && j < |t| && s[i] == t[j] && multiset(s) == multiset(t)
    ensures multiset(Without(s, i)) == multiset(Without(t, j))
  {
    WithoutMultiset(s, i);
    WithoutMultiset(t, j);
    hide Without;
    var (a, b) := (multiset(Without(s, i)), multiset(Without(t, j)));
    assert a == (a + multiset{s[i]}) - multiset{s[i]};
    assert b == (b + multiset{s[i]}) - multiset{s[i]};
  }

  lemma SomeIndex<T>(s: seq<T>, t: seq<T>, x: T) returns (j: nat)
    requires multiset(s) == multiset(t) && x in s
    ensures j < |t| && t[j] == x
  {
    assert x in multiset(t);
    j :| 0 <= j < |t| && t[j] == x;
  }

  ghost predicate Total<T(!new)>(lt: (T, T) -> bool) { forall x, y :: !lt(x, y) && !lt(y, x) ==> x == y }

  lemma LastAgrees<T(!new)>(lt: (T, T) -> bool, s: seq<T>, t: seq<T>)
    requires Total(lt) && Sorted(lt, s) && Sorted(lt, t) && multiset(s) == multiset(t) && s != [] && t != []
    ensures s[|s| - 1] == t[|t| - 1]
  {
    var i := SomeIndex(s, t, s[|s| - 1]);
    var j := SomeIndex(t, s, t[|t| - 1]);
    assert i < |t| - 1 ==> !lt(t[|t| - 1], t[i]);
    assert j < |s| - 1 ==> !lt(s[|s| - 1], s[j]);
  }

  // Under a total order the elements determine the sorted sequence.
  lemma {:induction false} SortedUnique<T(!new)>(lt: (T, T) -> bool, s: seq<T>, t: seq<T>)
    requires Total(lt) && Sorted(lt, s) && Sorted(lt, t) && multiset(s) == multiset(t)
    ensures s == t
  {
    assert |multiset(s)| == |s| && |multiset(t)| == |t|;
    if s != [] {
      var n := |s| - 1;
      LastAgrees(lt, s, t);
      assert multiset(s[..n]) == multiset(t[..n]) by {
        WithoutBoth(s, n, t, n);
        assert Without(s, n) == s[..n] && Without(t, n) == t[..n];
      }
      hide Total;
      SortedUnique(lt, s[..n], t[..n]);
    }
  }

  lemma MapWithout<T, K>(f: T -> K, s: seq<T>, j: nat)
    requires j < |s|
    ensures multiset(Map(f, s)) == multiset(Map(f, Without(s, j))) + multiset{f(s[j])}
  {
    WithoutMultiset(Map(f, s), j);
    assert Without(Map(f, s), j) == Map(f, Without(s, j));
  }

  // Permuted sequences have permuted images.
  lemma {:induction false} MapPermutes<T, K>(f: T -> K, s: seq<T>, t: seq<T>)
    requires multiset(s) == multiset(t)
    ensures multiset(Map(f, s)) == multiset(Map(f, t))
  {
    assert |multiset(s)| == |s| && |multiset(t)| == |t|;
    if s != [] {
      var j := SomeIndex(s, t, s[0]);
      WithoutBoth(s, 0, t, j);
      MapPermutes(f, Without(s, 0), Without(t, j));
      MapWithout(f, s, 0);
      MapWithout(f, t, j);
    }
  }
}
