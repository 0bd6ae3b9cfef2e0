/** `Array.prototype.sort(comparefn)` on a fresh array: a stable sort that
    orders by `comparefn` and keeps elements it ties in their input order. The library's
    algorithm is not visible; it is modelled by a stable insertion sort,
    whose result is the one every stable sort produces. */
module Sorting {
  import opened Seqs

  /** `a` may come before `b` under the comparator. */
  predicate Before<T>(cmp: (T, T) -> int, a: T, b: T)
  {
    cmp(a, b) <= 0
  }

  /** `a` and `b` compare equal: each may come before the other. */
  predicate Tied<T>(cmp: (T, T) -> int, a: T, b: T)
  {
    Before(cmp, a, b) && Before(cmp, b, a)
  }

  /** A consistent comparator: `Before` is a total preorder. */
  ghost predicate Consistent<T(!new)>(cmp: (T, T) -> int)
  {
    && (forall a, b :: cmp(a, b) <= 0 || cmp(b, a) <= 0)
    && (forall a, b, c {:trigger cmp(a, b), cmp(b, c), cmp(a, c)} :: cmp(a, b) <= 0 && cmp(b, c) <= 0 ==> cmp(a, c) <= 0)
  }

  /** Every element may come before every later one. */
  ghost predicate SortedBy<T>(cmp: (T, T) -> int, s: seq<T>)
  {
    forall i, j :: 0 <= i < j < |s| ==> Before(cmp, s[i], s[j])
  }

  /** The elements tied with `z`, as a filter predicate. */
  function TiedWith<T>(cmp: (T, T) -> int, z: T): T -> bool
  {
    y => Tied(cmp, y, z)
  }

  /** Puts `x` before the first element it may precede. */
  function Insert<T>(cmp: (T, T) -> int, x: T, s: seq<T>): seq<T>
  {
    if s == [] then [x]
    else if Before(cmp, x, s[0]) then [x] + s
    else [s[0]] + Insert(cmp, x, s[1..])
  }

  /** The stable sort of `s`. */
  function Sort<T>(cmp: (T, T) -> int, s: seq<T>): seq<T>
  {
    if s == [] then [] else Insert(cmp, s[0], Sort(cmp, s[1..]))
  }

  /** Inserting adds `x` and keeps every element of `s`. */
  lemma {:induction false} InsertPermutes<T>(cmp: (T, T) -> int, x: T, s: seq<T>)
    ensures multiset(Insert(cmp, x, s)) == multiset(s) + multiset{x}
  {
    if s != [] && !Before(cmp, x, s[0]) {
      InsertPermutes(cmp, x, s[1..]);
      assert s == [s[0]] + s[1..];
    }
  }

  /** The sort rearranges `s` and neither adds nor drops an element. */
  lemma {:induction false} SortPermutes<T>(cmp: (T, T) -> int, s: seq<T>)
    ensures multiset(Sort(cmp, s)) == multiset(s)
    ensures |Sort(cmp, s)| == |s|
  {
    if s != [] {
      SortPermutes(cmp, s[1..]);
      InsertPermutes(cmp, s[0], Sort(cmp, s[1..]));
      assert s == [s[0]] + s[1..];
    }
  }

  lemma {:induction false} InsertSorted<T(!new)>(cmp: (T, T) -> int, x: T, s: seq<T>)
    requires Consistent(cmp)
    requires SortedBy(cmp, s)
    ensures SortedBy(cmp, Insert(cmp, x, s))
  {
    if s != [] && !Before(cmp, x, s[0]) {
      var t := Insert(cmp, x, s[1..]);
      InsertSorted(cmp, x, s[1..]);
      InsertPermutes(cmp, x, s[1..]);
      forall k | 0 <= k < |t| ensures Before(cmp, s[0], t[k]) {
        assert t[k] in multiset(t);
        if t[k] != x {
          assert t[k] in s[1..];
        }
      }
    }
  }

  /** The sort orders its output by the comparator. */
  lemma {:induction false} SortSorted<T(!new)>(cmp: (T, T) -> int, s: seq<T>)
    requires Consistent(cmp)
    ensures SortedBy(cmp, Sort(cmp, s))
  {
    if s != [] {
      SortSorted(cmp, s[1..]);
      InsertSorted(cmp, s[0], Sort(cmp, s[1..]));
    }
  }

  /** Two elements tied with the same `z` may each come before the other. */
  lemma TiedTogether<T(!new)>(cmp: (T, T) -> int, x: T, y: T, z: T)
    requires Consistent(cmp)
    requires Tied(cmp, x, z) && Tied(cmp, y, z)
    ensures Before(cmp, x, y)
  {
  }

  /** One step of `InsertKeepsTies`: `x` passes over a first element that
      is not tied with `z` whenever `x` is. */
  lemma InsertPastHead<T(!new)>(cmp: (T, T) -> int, x: T, s: seq<T>, z: T, tx: seq<T>)
    requires Consistent(cmp)
    requires s != [] && !Before(cmp, x, s[0])
    requires tx == if Tied(cmp, x, z) then [x] else []
    requires Filter(Insert(cmp, x, s[1..]), TiedWith(cmp, z)) == tx + Filter(s[1..], TiedWith(cmp, z))
    ensures Filter(Insert(cmp, x, s), TiedWith(cmp, z)) == tx + Filter(s, TiedWith(cmp, z))
  {
    var p := TiedWith(cmp, z);
    var t := Insert(cmp, x, s[1..]);
    assert Insert(cmp, x, s) == [s[0]] + t;
    FilterCons(s[0], t, p);
    assert s == [s[0]] + s[1..];
    FilterCons(s[0], s[1..], p);
    if !Tied(cmp, x, z) {
      assert Filter(t, p) == Filter(s[1..], p);
    } else if Tied(cmp, s[0], z) {
      TiedTogether(cmp, x, s[0], z);
      assert false;
    } else {
      assert Filter([s[0]] + t, p) == Filter(t, p);
      assert Filter(s, p) == Filter(s[1..], p);
    }
  }

  /** Inserting `x` places it before every element tied with it. */
  lemma {:induction false} InsertKeepsTies<T(!new)>(cmp: (T, T) -> int, x: T, s: seq<T>, z: T)
    requires Consistent(cmp)
    ensures Filter(Insert(cmp, x, s), TiedWith(cmp, z))
         == (if Tied(cmp, x, z) then [x] else []) + Filter(s, TiedWith(cmp, z))
  {
    var p := TiedWith(cmp, z);
    if s == [] {
      FilterCons(x, [], p);
    } else if Before(cmp, x, s[0]) {
      FilterCons(x, s, p);
    } else {
      InsertKeepsTies(cmp, x, s[1..], z);
      InsertPastHead(cmp, x, s, z, if Tied(cmp, x, z) then [x] else []);
    }
  }

  /** Stability: the elements tied with any `z` keep their relative order. */
  lemma {:induction false} SortStable<T(!new)>(cmp: (T, T) -> int, s: seq<T>, z: T)
    requires Consistent(cmp)
    ensures Filter(Sort(cmp, s), TiedWith(cmp, z)) == Filter(s, TiedWith(cmp, z))
  {
    if s != [] {
      SortStable(cmp, s[1..], z);
      InsertKeepsTies(cmp, s[0], Sort(cmp, s[1..]), z);
    }
  }

  /** An element is tied with itself, so its own class is never empty. */
  lemma OwnClassNonEmpty<T(!new)>(cmp: (T, T) -> int, s: seq<T>)
    requires Consistent(cmp)
    requires s != []
    ensures Filter(s, TiedWith(cmp, s[0])) == [s[0]] + Filter(s[1..], TiedWith(cmp, s[0]))
  {
    assert Tied(cmp, s[0], s[0]);
  }

  /** The first elements of two ordered sequences with the same tie
      classes are tied. */
  lemma HeadsTied<T(!new)>(cmp: (T, T) -> int, a: seq<T>, b: seq<T>)
    requires Consistent(cmp)
    requires a != [] && b != []
    requires SortedBy(cmp, a) && SortedBy(cmp, b)
    requires Filter(a, TiedWith(cmp, a[0])) == Filter(b, TiedWith(cmp, a[0]))
    ensures Before(cmp, b[0], a[0])
  {
    OwnClassNonEmpty(cmp, a);
    FilterMembers(b, TiedWith(cmp, a[0]));
    var w := Filter(b, TiedWith(cmp, a[0]))[0];
    assert w in b && Tied(cmp, w, a[0]);
    var k :| 0 <= k < |b| && b[k] == w;
    assert Before(cmp, b[0], b[k]) || k == 0;
  }

  /** Dropping equal first elements keeps two tie classes equal. */
  lemma TailsAgree<T>(cmp: (T, T) -> int, a: seq<T>, b: seq<T>, z: T)
    requires a != [] && b != [] && a[0] == b[0]
    requires Filter(a, TiedWith(cmp, z)) == Filter(b, TiedWith(cmp, z))
    ensures Filter(a[1..], TiedWith(cmp, z)) == Filter(b[1..], TiedWith(cmp, z))
  {
    var p := TiedWith(cmp, z);
    var n := if p(a[0]) then 1 else 0;
    assert Filter(a[1..], p) == Filter(a, p)[n..];
    assert Filter(b[1..], p) == Filter(b, p)[n..];
  }

  /** Any two sequences ordered by the comparator whose elements tied with
      every `z` come in the same order are equal. */
  lemma {:induction false} SortedStableUnique<T(!new)>(cmp: (T, T) -> int, a: seq<T>, b: seq<T>)
    requires Consistent(cmp)
    requires SortedBy(cmp, a) && SortedBy(cmp, b)
    requires forall z :: Filter(a, TiedWith(cmp, z)) == Filter(b, TiedWith(cmp, z))
    ensures a == b
  {
    if a == [] && b != [] {
      OwnClassNonEmpty(cmp, b);
    } else if a != [] && b == [] {
      OwnClassNonEmpty(cmp, a);
    } else if a != [] {
      HeadsTied(cmp, a, b);
      HeadsTied(cmp, b, a);
      OwnClassNonEmpty(cmp, a);
      OwnClassNonEmpty(cmp, b);
      var p := TiedWith(cmp, a[0]);
      assert p(b[0]);
      FilterCons(b[0], b[1..], p);
      assert b == [b[0]] + b[1..];
      assert Filter(a, p)[0] == a[0] && Filter(b, p)[0] == b[0];
      forall z ensures Filter(a[1..], TiedWith(cmp, z)) == Filter(b[1..], TiedWith(cmp, z)) {
        TailsAgree(cmp, a, b, z);
      }
      SortedStableUnique(cmp, a[1..], b[1..]);
      assert a == [a[0]] + a[1..] && b == [b[0]] + b[1..];
    }
  }

  /** The stable sort is characterised by its two properties: `r` is the
      sort of `s` exactly when `r` is ordered and keeps the order of every
      class of tied elements of `s`. */
  lemma SortCharacterized<T(!new)>(cmp: (T, T) -> int, s: seq<T>, r: seq<T>)
    requires Consistent(cmp)
    ensures r == Sort(cmp, s) <==>
              SortedBy(cmp, r) && forall z :: Filter(r, TiedWith(cmp, z)) == Filter(s, TiedWith(cmp, z))
  {
    SortSorted(cmp, s);
    forall z ensures Filter(Sort(cmp, s), TiedWith(cmp, z)) == Filter(s, TiedWith(cmp, z)) {
      SortStable(cmp, s, z);
    }
    if SortedBy(cmp, r) && forall z :: Filter(r, TiedWith(cmp, z)) == Filter(s, TiedWith(cmp, z)) {
      SortedStableUnique(cmp, r, Sort(cmp, s));
    }
  }
}
