/** Generic sequence operations the feed is built from: `Keep` is the
    order-preserving filter of `Array.prototype.filter`, and `Distinct` is
    `Array.from(new Set(s))`, which keeps the first occurrence of each value. */
module Sequences {

  /** `a` can be obtained from `b` by deleting elements, without reordering. */
  ghost predicate IsSubsequence<T>(a: seq<T>, b: seq<T>)
    decreases |b|
  {
    if a == [] then true
    else if b == [] then false
    else (a[0] == b[0] && IsSubsequence(a[1..], b[1..])) || IsSubsequence(a, b[1..])
  }

  /** Number of elements of `s` that satisfy `p`. */
  function Count<T>(s: seq<T>, p: T -> bool): (n: nat)
  {
    if s == [] then 0 else (if p(s[0]) then 1 else 0) + Count(s[1..], p)
  }

  /** The elements of `s` that satisfy `p`, in their original order. */
  function Keep<T>(s: seq<T>, p: T -> bool): (r: seq<T>)
    ensures |r| <= |s|
  {
    if s == [] then []
    else
      var rest := Keep(s[1..], p);
      if p(s[0]) then [s[0]] + rest else rest
  }

  /** One step of `Keep`, for unfolding it on a given sequence. */
  lemma KeepCons<T>(x: T, s: seq<T>, p: T -> bool)
    ensures Keep([x] + s, p) == if p(x) then [x] + Keep(s, p) else Keep(s, p)
  {
    assert ([x] + s)[1..] == s;
  }

  /** `Keep` holds exactly the elements of `s` that satisfy `p`. */
  lemma {:induction false} KeepMembership<T>(s: seq<T>, p: T -> bool)
    ensures forall x :: x in Keep(s, p) ==> x in s && p(x)
    ensures forall x :: x in s && p(x) ==> x in Keep(s, p)
  {
    if s != [] {
      KeepMembership(s[1..], p);
      assert s == [s[0]] + s[1..];
    }
  }

  lemma {:induction false} KeepLength<T>(s: seq<T>, p: T -> bool)
    ensures |Keep(s, p)| == Count(s, p)
  {
    if s != [] {
      KeepLength(s[1..], p);
    }
  }

  lemma {:induction false} KeepIsSubsequence<T>(s: seq<T>, p: T -> bool)
    ensures IsSubsequence(Keep(s, p), s)
  {
    if s != [] {
      KeepIsSubsequence(s[1..], p);
      var rest := Keep(s[1..], p);
      if p(s[0]) {
        assert ([s[0]] + rest)[1..] == rest;
      } else {
        SkipHead(rest, s);
      }
    }
  }

  /** A subsequence of the tail is a subsequence of the whole. */
  lemma SkipHead<T>(a: seq<T>, b: seq<T>)
    requires b != [] && IsSubsequence(a, b[1..])
    ensures IsSubsequence(a, b)
  {
  }

  /** A subsequence of `s` all of whose elements satisfy `p` is at most as long as `Keep(s, p)`. */
  lemma {:induction false} SubsequenceBound<T>(r: seq<T>, s: seq<T>, p: T -> bool)
    requires IsSubsequence(r, s)
    requires forall x :: x in r ==> p(x)
    ensures |r| <= Count(s, p)
  {
    if r != [] {
      assert s != [];
      if r[0] == s[0] && IsSubsequence(r[1..], s[1..]) {
        assert forall x :: x in r[1..] ==> x in r;
        SubsequenceBound(r[1..], s[1..], p);
        assert p(s[0]);
      } else {
        SubsequenceBound(r, s[1..], p);
      }
    }
  }

  /** `Keep(s, p)` is the one subsequence of `s` that consists of `p`-elements and
      has as many elements as `s` has `p`-elements. */
  lemma {:induction false} KeepCharacterization<T>(r: seq<T>, s: seq<T>, p: T -> bool)
    ensures r == Keep(s, p) <==>
            IsSubsequence(r, s) && (forall x :: x in r ==> p(x)) && |r| == Count(s, p)
  {
    if r == Keep(s, p) {
      KeepIsSubsequence(s, p);
      KeepLength(s, p);
      KeepMembership(s, p);
    } else if IsSubsequence(r, s) && (forall x :: x in r ==> p(x)) && |r| == Count(s, p) {
      KeepUnique(r, s, p);
    }
  }

  lemma {:induction false} KeepUnique<T>(r: seq<T>, s: seq<T>, p: T -> bool)
    requires IsSubsequence(r, s)
    requires forall x :: x in r ==> p(x)
    requires |r| == Count(s, p)
    ensures r == Keep(s, p)
  {
    if s == [] {
    } else if p(s[0]) {
      assert r != [];
      if r[0] == s[0] && IsSubsequence(r[1..], s[1..]) {
        assert forall x :: x in r[1..] ==> x in r;
        KeepUnique(r[1..], s[1..], p);
        assert r == [r[0]] + r[1..];
      } else {
        SubsequenceBound(r, s[1..], p);
        assert false;
      }
    } else {
      if r != [] {
        assert r[0] in r;
      }
      KeepUnique(r, s[1..], p);
    }
  }

  /** Keeping everything changes nothing. */
  lemma {:induction false} KeepAll<T>(s: seq<T>, p: T -> bool)
    requires forall x :: x in s ==> p(x)
    ensures Keep(s, p) == s
  {
    if s != [] {
      assert forall x :: x in s[1..] ==> x in s;
      KeepAll(s[1..], p);
      assert s == [s[0]] + s[1..];
    }
  }

  /** `Keep` only looks at `p` on the elements of `s`. */
  lemma {:induction false} KeepCongruence<T>(s: seq<T>, p: T -> bool, q: T -> bool)
    requires forall x :: x in s ==> p(x) == q(x)
    ensures Keep(s, p) == Keep(s, q)
  {
    if s != [] {
      assert forall x :: x in s[1..] ==> x in s;
      KeepCongruence(s[1..], p, q);
    }
  }

  /** Filtering twice is filtering once by the conjunction. */
  lemma {:induction false} KeepFusion<T>(s: seq<T>, p: T -> bool, q: T -> bool, both: T -> bool)
    requires forall x :: x in s ==> both(x) == (p(x) && q(x))
    ensures Keep(Keep(s, p), q) == Keep(s, both)
  {
    if s != [] {
      assert forall x :: x in s[1..] ==> x in s;
      KeepFusion(s[1..], p, q, both);
    }
  }

  /** A predicate and its negation split `s` into two parts that together
      hold every element of `s` exactly as often as `s` does. */
  lemma {:induction false} KeepSplit<T>(s: seq<T>, p: T -> bool, q: T -> bool)
    requires forall x :: x in s ==> q(x) == !p(x)
    ensures |Keep(s, p)| + |Keep(s, q)| == |s|
    ensures multiset(Keep(s, p)) + multiset(Keep(s, q)) == multiset(s)
  {
    if s != [] {
      assert forall x :: x in s[1..] ==> x in s;
      KeepSplit(s[1..], p, q);
      assert s == [s[0]] + s[1..];
    }
  }

  predicate NoDuplicates<T(==)>(s: seq<T>)
  {
    forall i, j :: 0 <= i < j < |s| ==> s[i] != s[j]
  }

  /** Position of the first occurrence of `x` in `s`. */
  function FirstIndex<T(==)>(s: seq<T>, x: T): (k: nat)
    requires x in s
    ensures k < |s| && s[k] == x
    ensures x !in s[..k]
  {
    if s[0] == x then 0
    else
      assert s[1..][..FirstIndex(s[1..], x)] == s[1..1 + FirstIndex(s[1..], x)];
      1 + FirstIndex(s[1..], x)
  }

  /** A value's first occurrence in a prefix is its first occurrence in the whole. */
  lemma {:induction false} FirstIndexInPrefix<T>(s: seq<T>, n: nat, x: T)
    requires n <= |s| && x in s[..n]
    ensures FirstIndex(s, x) == FirstIndex(s[..n], x)
    decreases n
  {
    if s[0] != x {
      assert s[..n][1..] == s[1..][..n - 1];
      FirstIndexInPrefix(s[1..], n - 1, x);
    }
  }

  /** Each value of `s` once, in order of first occurrence. */
  function Distinct<T(==)>(s: seq<T>): (r: seq<T>)
    ensures NoDuplicates(r)
    ensures forall x :: x in r ==> x in s
    ensures forall x :: x in s ==> x in r
    ensures forall i, j :: 0 <= i < j < |r| ==> FirstIndex(s, r[i]) < FirstIndex(s, r[j])
    decreases |s|
  {
    if s == [] then []
    else
      var init := s[..|s| - 1];
      var y := s[|s| - 1];
      assert s == init + [y];
      var d := Distinct(init);
      assert forall x :: x in d ==> FirstIndex(s, x) == FirstIndex(init, x) by {
        forall x | x in d ensures FirstIndex(s, x) == FirstIndex(init, x) {
          FirstIndexInPrefix(s, |s| - 1, x);
        }
      }
      if y in d then d
      else
        assert FirstIndex(s, y) == |s| - 1;
        d + [y]
  }

  /** A sequence without duplicates is its own distinct list. */
  lemma {:induction false} DistinctOfNoDuplicates<T>(s: seq<T>)
    requires NoDuplicates(s)
    ensures Distinct(s) == s
    decreases |s|
  {
    if s != [] {
      var init := s[..|s| - 1];
      assert s == init + [s[|s| - 1]];
      DistinctOfNoDuplicates(init);
    }
  }

  /** Taking the distinct values twice is taking them once. */
  lemma DistinctIdempotent<T>(s: seq<T>)
    ensures Distinct(Distinct(s)) == Distinct(s)
  {
    DistinctOfNoDuplicates(Distinct(s));
  }
}
