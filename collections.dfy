/** The few Kotlin list operations the quiz screen uses, over Dafny sequences:
    `filter { it != x }`, `take`, `takeLast`, and `shuffled()`, whose random
    order is supplied by the caller as a permutation of the indices. */
module Collections {

  /** No element occurs twice. */
  predicate Distinct<T(==)>(s: seq<T>) {
    forall i, j :: 0 <= i < j < |s| ==> s[i] != s[j]
  }

  function Min(a: nat, b: nat): nat {
    if a < b then a else b
  }

  /** Kotlin's `filter { it != x }`: the elements other than `x`, in order. */
  function Without<T(==,!new)>(s: seq<T>, x: T): (r: seq<T>)
    ensures forall y :: y in r <==> y in s && y != x
    ensures Distinct(s) ==> Distinct(r)
    ensures Distinct(s) && x in s ==> |r| == |s| - 1
    ensures x !in s ==> r == s
  {
    if s == [] then []
    else
      var rest := Without(s[1..], x);
      assert s == [s[0]] + s[1..];
      assert Distinct(s) ==> s[0] !in s[1..];
      if s[0] == x then rest else [s[0]] + rest
  }

  /** Filtering keeps every element other than `x` exactly as often as it
      occurs, and drops every occurrence of `x`. */
  lemma {:induction false} WithoutMultiset<T(!new)>(s: seq<T>, x: T)
    ensures multiset(Without(s, x)) == multiset(s)[x := 0]
  {
    if s != [] {
      WithoutMultiset(s[1..], x);
      assert s == [s[0]] + s[1..];
      assert multiset(s) == multiset{s[0]} + multiset(s[1..]);
    }
  }

  /** Filtering keeps the order: filtering a concatenation filters each part
      and concatenates the results. With `Without([y], x)`, which is `[]` for
      `y == x` and `[y]` otherwise, this determines the filtered list. */
  lemma {:induction false} WithoutOfConcat<T(!new)>(a: seq<T>, b: seq<T>, x: T)
    ensures Without(a + b, x) == Without(a, x) + Without(b, x)
    ensures Without([x], x) == []
    ensures forall y :: y != x ==> Without([y], x) == [y]
  {
    if a != [] {
      assert (a + b)[1..] == a[1..] + b;
      WithoutOfConcat(a[1..], b, x);
    } else {
      assert a + b == b;
    }
  }

  /** Kotlin's `take(n)`: the first `n` elements, or the whole list when it is shorter. */
  function Take<T>(s: seq<T>, n: nat): (r: seq<T>)
    ensures |r| == Min(n, |s|)
    ensures forall i :: 0 <= i < |r| ==> r[i] == s[i]
  {
    if n < |s| then s[..n] else s
  }

  /** Kotlin's `takeLast(n)`: the last `n` elements, or the whole list when it is shorter. */
  function TakeLast<T>(s: seq<T>, n: nat): (r: seq<T>)
    ensures |r| == Min(n, |s|)
    ensures forall i :: 0 <= i < |r| ==> r[i] == s[|s| - |r| + i]
  {
    if n < |s| then s[|s| - n..] else s
  }

  lemma TakeKeepsElements<T>(s: seq<T>, n: nat)
    ensures forall y :: y in Take(s, n) ==> y in s
    ensures Distinct(s) ==> Distinct(Take(s, n))
  {
    var r := Take(s, n);
    forall y | y in r ensures y in s {
      var i :| 0 <= i < |r| && r[i] == y;
      assert s[i] == y;
    }
  }

  /** `p` lists each index below `n` exactly once: the order a shuffle puts `n` elements in. */
  predicate IsPermutation(p: seq<nat>, n: nat) {
    |p| == n &&
    (forall i :: 0 <= i < n ==> p[i] < n) &&
    (forall i, j :: 0 <= i < j < n ==> p[i] != p[j])
  }

  /** `s` rearranged so that position `i` holds `s[p[i]]`: Kotlin's `shuffled()`
      once its random choices are fixed to `p`. */
  function Permute<T(==,!new)>(s: seq<T>, p: seq<nat>): (r: seq<T>)
    requires IsPermutation(p, |s|)
    ensures |r| == |s|
    ensures forall y :: y in r <==> y in s
    ensures Distinct(s) ==> Distinct(r)
  {
    var r := seq(|s|, i requires 0 <= i < |s| => s[p[i]]);
    RearrangedMultiset(s, p, r);
    assert forall y :: y in r <==> y in multiset(r);
    assert forall y :: y in s <==> y in multiset(s);
    r
  }

  /** A shuffle is a permutation of its input: every element occurs in the
      result exactly as often as in the input. */
  lemma PermuteMultiset<T(!new)>(s: seq<T>, p: seq<nat>)
    requires IsPermutation(p, |s|)
    ensures multiset(Permute(s, p)) == multiset(s)
  {
    RearrangedMultiset(s, p, Permute(s, p));
  }

  /** A sequence that holds `s[p[i]]` at each position `i`, for a permutation
      `p`, holds every element of `s` exactly as often as `s` does. */
  lemma {:induction false} RearrangedMultiset<T>(s: seq<T>, p: seq<nat>, r: seq<T>)
    requires IsPermutation(p, |s|)
    requires |r| == |s| && forall i :: 0 <= i < |r| ==> r[i] == s[p[i]]
    ensures multiset(r) == multiset(s)
  {
    var n := |s|;
    if n > 0 {
      var k := PositionOf(p, n - 1);
      // drop the position that holds the last index, and the last element
      var q := DropAt(p, k);
      DropLastIndex(p, k);
      var t := s[..n - 1];
      var rest := DropAt(r, k);
      DropKeepsRearrangement(s, p, r, k);
      RearrangedMultiset(t, q, rest);
      PutBackLast(s, r, k);
    }
  }

  /** If `r` without position `k` has the multiset of `s` without its last
      element, and `r[k]` is that last element, then `r` and `s` have the same multiset. */
  lemma PutBackLast<T>(s: seq<T>, r: seq<T>, k: nat)
    requires |s| > 0 && |r| == |s| && k < |r| && r[k] == s[|s| - 1]
    requires multiset(DropAt(r, k)) == multiset(s[..|s| - 1])
    ensures multiset(r) == multiset(s)
  {
    DropAtMultiset(r, k);
    assert s == s[..|s| - 1] + [s[|s| - 1]];
  }

  lemma DropKeepsRearrangement<T>(s: seq<T>, p: seq<nat>, r: seq<T>, k: nat)
    requires |s| > 0 && |p| == |s| && |r| == |s| && k < |s| && p[k] == |s| - 1
    requires IsPermutation(p, |s|)
    requires forall i :: 0 <= i < |r| ==> r[i] == s[p[i]]
    ensures forall i :: 0 <= i < |s| - 1 ==> DropAt(r, k)[i] == s[..|s| - 1][DropAt(p, k)[i]]
  {
    forall i | 0 <= i < |s| - 1 ensures DropAt(r, k)[i] == s[..|s| - 1][DropAt(p, k)[i]] {
      var j := if i < k then i else i + 1;
      assert DropAt(r, k)[i] == r[j] && DropAt(p, k)[i] == p[j];
      assert p[j] != p[k];
    }
  }

  /** Where a permutation puts the index `j`. */
  lemma PositionOf(p: seq<nat>, j: nat) returns (k: nat)
    requires IsPermutation(p, |p|) && j < |p|
    ensures k < |p| && p[k] == j
  {
    PermutationIsOnto(p, |p|);
    assert j in p;
    k :| 0 <= k < |p| && p[k] == j;
  }

  function DropAt<T>(s: seq<T>, k: nat): (r: seq<T>)
    requires k < |s|
    ensures |r| == |s| - 1
    ensures forall i :: 0 <= i < |r| ==> r[i] == if i < k then s[i] else s[i + 1]
  {
    s[..k] + s[k + 1..]
  }

  lemma DropAtMultiset<T>(s: seq<T>, k: nat)
    requires k < |s|
    ensures multiset(s) == multiset(DropAt(s, k)) + multiset{s[k]}
  {
    assert s == s[..k] + [s[k]] + s[k + 1..];
  }

  /** Removing the position that holds the largest index leaves a permutation
      of the indices below it. */
  lemma DropLastIndex(p: seq<nat>, k: nat)
    requires |p| > 0 && IsPermutation(p, |p|) && k < |p| && p[k] == |p| - 1
    ensures IsPermutation(DropAt(p, k), |p| - 1)
  {
    var n := |p|;
    var q := DropAt(p, k);
    forall i | 0 <= i < n - 1 ensures q[i] < n - 1 {
      if i < k { assert p[i] != p[k]; } else { assert p[i + 1] != p[k]; }
    }
    forall i, j | 0 <= i < j < n - 1 ensures q[i] != q[j] {
      var i' := if i < k then i else i + 1;
      var j' := if j < k then j else j + 1;
      assert q[i] == p[i'] && q[j] == p[j'];
    }
  }

  /** The values of an injective index sequence form a set as large as the sequence. */
  lemma {:induction false} ImageCardinality(p: seq<nat>, m: nat)
    requires m <= |p|
    requires forall i, j :: 0 <= i < j < m ==> p[i] != p[j]
    ensures |set i | 0 <= i < m :: p[i]| == m
  {
    if m > 0 {
      ImageCardinality(p, m - 1);
      var before := set i | 0 <= i < m - 1 :: p[i];
      var after := set i | 0 <= i < m :: p[i];
      assert after == before + {p[m - 1]};
      assert p[m - 1] !in before;
    }
  }

  /** The indices below `n`, as a set. */
  function {:induction false} IndexSet(n: nat): (r: set<nat>)
    ensures forall k: int :: k in r <==> 0 <= k < n
    ensures |r| == n
  {
    if n == 0 then {} else IndexSet(n - 1) + {n - 1}
  }

  lemma SubsetOfEqualSize<T>(a: set<T>, b: set<T>)
    requires a <= b && |a| == |b|
    ensures a == b
  {
    if a != b {
      assert !(b <= a);
      var x :| x in b && x !in a;
      assert |b - {x}| == |b| - 1;
      assert a <= b - {x};
      SubsetNoLarger(a, b - {x});
    }
  }

  lemma {:induction false} SubsetNoLarger<T>(a: set<T>, b: set<T>)
    requires a <= b
    ensures |a| <= |b|
    decreases a
  {
    if a != {} {
      var x :| x in a;
      SubsetNoLarger(a - {x}, b - {x});
    }
  }

  /** Pigeonhole: a permutation of `n` indices hits every index below `n`. */
  lemma PermutationIsOnto(p: seq<nat>, n: nat)
    requires IsPermutation(p, n)
    ensures forall k :: 0 <= k < n ==> k in p
  {
    var image := set i | 0 <= i < n :: p[i];
    var range := IndexSet(n);
    ImageCardinality(p, n);
    SubsetOfEqualSize(image, range);
    forall k | 0 <= k < n ensures k in p {
      assert k in range;
      var i :| 0 <= i < n && p[i] == k;
    }
  }
}
