/** Sequence operations the pages use from the JavaScript library:
    `Array.prototype.filter` and `String.prototype.includes`. */
module Seqs {

  /** `a` is obtained from `b` by deleting elements: an order-preserving
      subsequence. */
  ghost predicate IsSubsequence<T>(a: seq<T>, b: seq<T>)
    decreases |b|
  {
    |a| <= |b| &&
    (a == [] || (a[0] == b[0] && IsSubsequence(a[1..], b[1..])) || IsSubsequence(a, b[1..]))
  }

  /** `s.filter(p)`: the elements of `s` that satisfy `p`, in their order. */
  function Filter<T>(s: seq<T>, p: T -> bool): seq<T>
  {
    if s == [] then []
    else (if p(s[0]) then [s[0]] else []) + Filter(s[1..], p)
  }

  /** Filtering a sequence with a given first element. */
  lemma FilterCons<T>(x: T, s: seq<T>, p: T -> bool)
    ensures Filter([x] + s, p) == (if p(x) then [x] else []) + Filter(s, p)
  {
    assert ([x] + s)[1..] == s;
  }

  /** The filter keeps exactly the elements that satisfy the predicate. */
  lemma {:induction false} FilterMembers<T>(s: seq<T>, p: T -> bool)
    ensures |Filter(s, p)| <= |s|
    ensures forall k :: 0 <= k < |Filter(s, p)| ==> Filter(s, p)[k] in s && p(Filter(s, p)[k])
    ensures forall k :: 0 <= k < |s| && p(s[k]) ==> s[k] in Filter(s, p)
  {
    if s != [] {
      FilterMembers(s[1..], p);
      var h := if p(s[0]) then [s[0]] else [];
      assert Filter(s, p) == h + Filter(s[1..], p);
      forall k | 0 <= k < |s| && p(s[k]) ensures s[k] in Filter(s, p) {
        if k > 0 {
          assert s[k] == s[1..][k - 1];
        }
      }
    }
  }

  /** The filter keeps the order of what it keeps. */
  lemma {:induction false} FilterIsSubsequence<T>(s: seq<T>, p: T -> bool)
    ensures IsSubsequence(Filter(s, p), s)
  {
    if s != [] {
      FilterIsSubsequence(s[1..], p);
      if !p(s[0]) {
        assert Filter(s, p) == Filter(s[1..], p);
      }
    }
  }

  /** The filter keeps every occurrence of an element it accepts and drops
      every occurrence of one it rejects. */
  lemma {:induction false} FilterCount<T>(s: seq<T>, p: T -> bool, y: T)
    ensures multiset(Filter(s, p))[y] == if p(y) then multiset(s)[y] else 0
  {
    if s != [] {
      FilterCount(s[1..], p, y);
      assert s == [s[0]] + s[1..];
    }
  }

  /** Two predicates that agree on the elements of `s` filter it alike. */
  lemma {:induction false} FilterAgrees<T>(s: seq<T>, p: T -> bool, q: T -> bool)
    requires forall y :: y in s ==> p(y) == q(y)
    ensures Filter(s, p) == Filter(s, q)
  {
    if s != [] {
      assert forall y :: y in s[1..] ==> y in s;
      FilterAgrees(s[1..], p, q);
    }
  }

  /** A filter that accepts every element returns its input. */
  lemma {:induction false} FilterKeepsAll<T>(s: seq<T>, p: T -> bool)
    requires forall k :: 0 <= k < |s| ==> p(s[k])
    ensures Filter(s, p) == s
  {
    if s != [] {
      FilterKeepsAll(s[1..], p);
      assert s == [s[0]] + s[1..];
    }
  }

  /** `s.includes(q)`: `q` occurs in `s` as a contiguous substring. */
  function Includes(s: string, q: string): (r: bool)
    ensures q == [] ==> r
  {
    if q <= s then true
    else if s == [] then false
    else Includes(s[1..], q)
  }

  /** `q` occurs in `s` starting at position `i`. */
  ghost predicate OccursAt(s: string, q: string, i: nat)
  {
    i + |q| <= |s| && s[i..i + |q|] == q
  }

  /** `Includes` is true exactly when `q` occurs somewhere in `s`. */
  lemma IncludesAt(s: string, q: string)
    ensures Includes(s, q) <==> exists i: nat :: OccursAt(s, q, i)
  {
    if Includes(s, q) {
      var i := IncludesWitness(s, q);
    }
    forall i: nat | OccursAt(s, q, i) ensures Includes(s, q) {
      OccursIncluded(s, q, i);
    }
  }

  /** Where `Includes` finds `q`. */
  lemma {:induction false} IncludesWitness(s: string, q: string) returns (i: nat)
    requires Includes(s, q)
    ensures OccursAt(s, q, i)
  {
    if q <= s {
      i := 0;
    } else {
      var j := IncludesWitness(s[1..], q);
      assert s[j + 1..j + 1 + |q|] == s[1..][j..j + |q|];
      i := j + 1;
    }
  }

  /** Every occurrence is found. */
  lemma {:induction false} OccursIncluded(s: string, q: string, i: nat)
    requires OccursAt(s, q, i)
    ensures Includes(s, q)
  {
    if i == 0 {
      assert q <= s;
    } else if !(q <= s) {
      assert s[1..][i - 1..i - 1 + |q|] == s[i..i + |q|];
      OccursIncluded(s[1..], q, i - 1);
    }
  }
}
