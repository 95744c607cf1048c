/** Sequence helpers shared by the model: `Array.prototype.filter` and order facts. */
module Seqs {

  /** `a` can be obtained from `b` by deleting elements (relative order kept). */
  predicate IsSubsequence<T(==)>(a: seq<T>, b: seq<T>)
    decreases |b|
  {
    if |a| == 0 then true
    else if |b| == 0 then false
    else if a[0] == b[0] then IsSubsequence(a[1..], b[1..])
    else IsSubsequence(a, b[1..])
  }

  /** `s.filter(f)`: the elements satisfying `f`, in their original order. */
  function Filter<T(==)>(f: T -> bool, s: seq<T>): (r: seq<T>)
    ensures |r| <= |s|
    ensures forall x | x in r :: x in s && f(x)
    ensures forall x | x in s :: x in r <==> f(x)
    ensures IsSubsequence(r, s)
  {
    if |s| == 0 then []
    else
      var rest := Filter(f, s[1..]);
      if f(s[0]) then [s[0]] + rest else rest
  }

  /** Filtering keeps every occurrence of a kept value and drops every occurrence of the others. */
  lemma {:induction false} MultisetFilterAt<T>(f: T -> bool, s: seq<T>, x: T)
    ensures multiset(Filter(f, s))[x] == if f(x) then multiset(s)[x] else 0
  {
    if |s| > 0 {
      MultisetFilterAt(f, s[1..], x);
      assert s == [s[0]] + s[1..];
      assert multiset(s) == multiset{s[0]} + multiset(s[1..]);
    }
  }

  /** Filtering a sequence never yields more copies of anything than the sequence holds. */
  lemma FilterSubMultiset<T>(f: T -> bool, s: seq<T>)
    ensures multiset(Filter(f, s)) <= multiset(s)
  {
    forall x
      ensures multiset(Filter(f, s))[x] <= multiset(s)[x]
    {
      MultisetFilterAt(f, s, x);
    }
  }

  /** `s.filter(f)` on a concatenation is the concatenation of the two filters. */
  lemma {:induction false} FilterConcat<T>(f: T -> bool, a: seq<T>, b: seq<T>)
    ensures Filter(f, a + b) == Filter(f, a) + Filter(f, b)
  {
    if |a| == 0 {
      assert a + b == b;
    } else {
      assert (a + b)[1..] == a[1..] + b;
      FilterConcat(f, a[1..], b);
    }
  }

  /** A filter no element passes returns the empty list. */
  lemma {:induction false} FilterNone<T>(f: T -> bool, s: seq<T>)
    requires forall x | x in s :: !f(x)
    ensures Filter(f, s) == []
  {
    if |s| > 0 {
      FilterNone(f, s[1..]);
    }
  }

  /** A filter every element passes returns its input. */
  lemma {:induction false} FilterKeepsAll<T>(f: T -> bool, s: seq<T>)
    requires forall x | x in s :: f(x)
    ensures Filter(f, s) == s
  {
    if |s| > 0 {
      FilterKeepsAll(f, s[1..]);
    }
  }

  /** A filter and its complement split a sequence's multiset between them. */
  lemma {:induction false} FilterPartition<T>(f: T -> bool, h: T -> bool, s: seq<T>)
    requires forall x | x in s :: h(x) == !f(x)
    ensures multiset(s) == multiset(Filter(f, s)) + multiset(Filter(h, s))
  {
    if |s| > 0 {
      assert s == [s[0]] + s[1..];
      assert multiset(s) == multiset{s[0]} + multiset(s[1..]);
      FilterPartition(f, h, s[1..]);
    }
  }

  /** Removing one copy of the same value from equal multisets leaves equal multisets. */
  lemma MultisetCancel<T>(x: T, a: multiset<T>, b: multiset<T>)
    requires multiset{x} + a == multiset{x} + b
    ensures a == b
  {
    assert forall y :: a[y] == (multiset{x} + a)[y] - multiset{x}[y];
    assert forall y :: b[y] == (multiset{x} + b)[y] - multiset{x}[y];
  }

  /** A list is its prefix before `k`, its `k`-th element and the rest. */
  lemma SplitAt<T>(b: seq<T>, k: nat)
    requires k < |b|
    ensures b == b[..k] + [b[k]] + b[k + 1..]
    ensures multiset(b) == multiset{b[k]} + multiset(b[..k] + b[k + 1..])
  {
    assert b[..k + 1] == b[..k] + [b[k]];
    assert b == b[..k + 1] + b[k + 1..];
  }

  /** Taking out the element at `k` takes it out of the filtered multiset too, if it passes. */
  lemma FilterRemoveAt<T>(f: T -> bool, b: seq<T>, k: nat)
    requires k < |b|
    ensures multiset(b) == multiset{b[k]} + multiset(b[..k] + b[k + 1..])
    ensures multiset(Filter(f, b)) == multiset(Filter(f, b[..k] + b[k + 1..])) + multiset(Filter(f, [b[k]]))
  {
    SplitAt(b, k);
    var x := b[k];
    var pre := b[..k];
    var post := b[k + 1..];
    FilterConcat(f, pre + [x], post);
    FilterConcat(f, pre, [x]);
    FilterConcat(f, pre, post);
    var fpre, fx, fpost := Filter(f, pre), Filter(f, [x]), Filter(f, post);
    assert Filter(f, b) == (fpre + fx) + fpost;
    assert multiset((fpre + fx) + fpost) == multiset(fpre) + multiset(fx) + multiset(fpost);
  }

  /** Filtering two permutations of each other yields permutations of each other. */
  lemma {:induction false} FilterPermutation<T>(f: T -> bool, a: seq<T>, b: seq<T>)
    requires multiset(a) == multiset(b)
    ensures multiset(Filter(f, a)) == multiset(Filter(f, b))
    ensures |Filter(f, a)| == |Filter(f, b)|
    decreases |a|
  {
    if |a| == 0 {
      assert |multiset(b)| == |b| == 0;
    } else {
      var x := a[0];
      assert x in multiset(b);
      var k :| 0 <= k < |b| && b[k] == x;
      var b' := b[..k] + b[k + 1..];
      assert a == [x] + a[1..];
      assert multiset(a) == multiset{x} + multiset(a[1..]);
      FilterRemoveAt(f, b, k);
      MultisetCancel(x, multiset(a[1..]), multiset(b'));
      FilterPermutation(f, a[1..], b');
      FilterConcat(f, [x], a[1..]);
      assert [x][1..] == [];
    }
    assert |multiset(Filter(f, a))| == |Filter(f, a)|;
    assert |multiset(Filter(f, b))| == |Filter(f, b)|;
  }

  /** A value occurring at two distinct positions occurs at least twice in the multiset. */
  lemma TwoPositions<T>(s: seq<T>, i: nat, j: nat)
    requires i < j < |s| && s[i] == s[j]
    ensures multiset(s)[s[i]] >= 2
  {
    assert s == s[..j] + s[j..];
    assert s[i] in s[..j];
    assert s[j] in s[j..];
    assert multiset(s) == multiset(s[..j]) + multiset(s[j..]);
  }

  /** Exchanging the middle two pairs of `[a0, b0] + [a1, b1]` keeps the same multiset. */
  lemma CrossPairs<T>(a0: T, a1: T, b0: T, b1: T)
    ensures multiset([a0, b0] + [a1, b1]) == multiset([a0, a1]) + multiset([b0, b1])
  {
    var A, B, C, D := multiset{a0}, multiset{b0}, multiset{a1}, multiset{b1};
    assert [a0, b0] == [a0] + [b0] && [a1, b1] == [a1] + [b1];
    assert [a0, a1] == [a0] + [a1] && [b0, b1] == [b0] + [b1];
    assert multiset([a0, b0] + [a1, b1]) == (A + B) + (C + D);
    assert forall y :: ((A + B) + (C + D))[y] == ((A + C) + (B + D))[y];
  }

  /** No value occurs at two positions. */
  predicate Distinct<T(==)>(s: seq<T>) {
    forall i, j | 0 <= i < j < |s| :: s[i] != s[j]
  }

  /** Filtering a list without repeats gives a list without repeats. */
  lemma {:induction false} FilterDistinct<T>(f: T -> bool, s: seq<T>)
    requires Distinct(s)
    ensures Distinct(Filter(f, s))
  {
    if |s| > 0 {
      assert Distinct(s[1..]) by {
        forall i, j | 0 <= i < j < |s[1..]|
          ensures s[1..][i] != s[1..][j]
        {
          assert s[1..][i] == s[i + 1] && s[1..][j] == s[j + 1];
        }
      }
      FilterDistinct(f, s[1..]);
      var rest := Filter(f, s[1..]);
      if f(s[0]) {
        assert s[0] !in s[1..];
        var r := [s[0]] + rest;
        forall i, j | 0 <= i < j < |r|
          ensures r[i] != r[j]
        {
          assert r[j] == rest[j - 1] && r[j] in rest;
          if i > 0 {
            assert r[i] == rest[i - 1];
          }
        }
      }
    }
  }

  /** Filtering keeps the relative order of two kept elements. */
  lemma {:induction false} FilterKeepsOrder<T>(f: T -> bool, s: seq<T>, j: nat, i: nat)
    requires j < i < |s| && f(s[j]) && f(s[i])
    ensures exists a, b | 0 <= a < b < |Filter(f, s)| :: Filter(f, s)[a] == s[j] && Filter(f, s)[b] == s[i]
  {
    var rest := Filter(f, s[1..]);
    if j == 0 {
      assert s[i] == s[1..][i - 1] && s[i] in s[1..];
      assert s[i] in rest;
      var b :| 0 <= b < |rest| && rest[b] == s[i];
      assert Filter(f, s) == [s[0]] + rest;
      assert Filter(f, s)[0] == s[j] && Filter(f, s)[b + 1] == s[i];
    } else {
      FilterKeepsOrder(f, s[1..], j - 1, i - 1);
      var a, b :| 0 <= a < b < |rest| && rest[a] == s[1..][j - 1] && rest[b] == s[1..][i - 1];
      if f(s[0]) {
        assert Filter(f, s) == [s[0]] + rest;
        assert Filter(f, s)[a + 1] == s[j] && Filter(f, s)[b + 1] == s[i];
      } else {
        assert Filter(f, s) == rest;
      }
    }
  }

  /** In a list without repeats every listed value occurs once. */
  lemma {:induction false} DistinctCountOne<T>(s: seq<T>)
    requires Distinct(s)
    ensures forall x | x in s :: multiset(s)[x] == 1
  {
    if |s| > 0 {
      assert Distinct(s[1..]) by {
        forall i, j | 0 <= i < j < |s[1..]|
          ensures s[1..][i] != s[1..][j]
        {
          assert s[1..][i] == s[i + 1] && s[1..][j] == s[j + 1];
        }
      }
      DistinctCountOne(s[1..]);
      assert s == [s[0]] + s[1..];
      assert s[0] !in s[1..];
      assert multiset(s) == multiset{s[0]} + multiset(s[1..]);
    }
  }
}
