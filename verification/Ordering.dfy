/**
  Sorting by a comparison function, and comparing paths by their text.

  sort.Slice is not stable, so what it returns is known only up to the
  comparison: some ordered arrangement. Under a linear order there is just one,
  and the result is a function of the elements alone.
 */
module Ordering {
  import opened Paths

  // ----- text

  /** Go's string comparison. */
  predicate Before(a: string, b: string) {
    b != "" && (a == "" || a[0] < b[0] || (a[0] == b[0] && Before(a[1..], b[1..])))
  }

  /** The texts agree up to this place, and there the first has the smaller character. */
  predicate SmallerAt(a: string, b: string, k: nat) {
    k < |a| && k < |b| && a[..k] == b[..k] && a[k] < b[k]
  }

  /** One text comes before another when it is a proper prefix of it, or has the smaller character at the first place where they differ. */
  lemma {:induction false} BeforeIff(a: string, b: string)
    ensures Before(a, b) <==> a < b || exists k: nat :: SmallerAt(a, b, k)
  {
    if a != "" && b != "" {
      assert a == [a[0]] + a[1..] && b == [b[0]] + b[1..];
      forall k: nat
        ensures SmallerAt(a, b, k) <==> if k == 0 then a[0] < b[0] else a[0] == b[0] && SmallerAt(a[1..], b[1..], k - 1)
      {
        if 0 < k < |a| && k < |b| {
          SmallerBehind(a, b, k);
        }
      }
      if a[0] == b[0] {
        BeforeIff(a[1..], b[1..]);
        forall k: nat | SmallerAt(a[1..], b[1..], k)
          ensures SmallerAt(a, b, k + 1)
        {
        }
      } else {
        assert SmallerAt(a, b, 0) <==> a[0] < b[0];
      }
    }
  }

  lemma {:induction false} SmallerBehind(a: string, b: string, k: nat)
    requires 0 < k < |a| && k < |b|
    ensures SmallerAt(a, b, k) <==> a[0] == b[0] && SmallerAt(a[1..], b[1..], k - 1)
  {
    assert a[..k] == [a[0]] + a[1..][..k - 1] && b[..k] == [b[0]] + b[1..][..k - 1];
  }

  lemma {:induction false} BeforeIsTotal(a: string, b: string)
    ensures a == b || Before(a, b) || Before(b, a)
  {
    if a != "" && b != "" && a[0] == b[0] {
      BeforeIsTotal(a[1..], b[1..]);
      assert a == [a[0]] + a[1..] && b == [b[0]] + b[1..];
    }
  }

  lemma {:induction false} BeforeIsAsymmetric(a: string, b: string)
    ensures !(Before(a, b) && Before(b, a))
  {
    if a != "" && b != "" && a[0] == b[0] {
      BeforeIsAsymmetric(a[1..], b[1..]);
    }
  }

  lemma {:induction false} BeforeIsTransitive(a: string, b: string, c: string)
    requires Before(a, b) && Before(b, c)
    ensures Before(a, c)
  {
    if a != "" && a[0] == b[0] && b[0] == c[0] {
      BeforeIsTransitive(a[1..], b[1..], c[1..]);
    }
  }

  /** The relative path the walk reports: "." for the directory walked. */
  function Text(p: Path): string {
    if p == [] then "." else Join(p)
  }

  /** Different places have different texts. */
  lemma {:induction false} TextIsInjective(a: Path, b: Path)
    requires CleanPath(a) && CleanPath(b)
    requires Text(a) == Text(b)
    ensures a == b
  {
    if a != [] {
      FirstComponent(a);
    }
    if b != [] {
      FirstComponent(b);
    }
    if a != [] && b != [] {
      assert a[0] == b[0];
      assert a == [a[0]] + a[1..] && b == [b[0]] + b[1..];
      if |a| > 1 && |b| > 1 {
        assert Join(a) == (a[0] + "/") + Join(a[1..]) && Join(b) == (b[0] + "/") + Join(b[1..]);
        assert Join(a[1..]) == Join(a)[|a[0]| + 1..] == Join(b)[|b[0]| + 1..] == Join(b[1..]);
        TextIsInjective(a[1..], b[1..]);
      }
    }
  }

  /** Up to the first separator, the text of a path is its first component. */
  function Head(text: string): string {
    if text == "" || text[0] == '/' then "" else [text[0]] + Head(text[1..])
  }

  lemma {:induction false} HeadStops(c: string, rest: string)
    requires '/' !in c && (rest == "" || rest[0] == '/')
    ensures Head(c + rest) == c
  {
    if c != "" {
      assert (c + rest)[1..] == c[1..] + rest;
      HeadStops(c[1..], rest);
    }
  }

  lemma {:induction false} FirstComponent(p: Path)
    requires CleanPath(p) && p != []
    ensures Head(Join(p)) == p[0]
    ensures |p| == 1 <==> Join(p) == p[0]
    ensures Join(p) != "."
  {
    assert CleanComponent(p[0]);
    if |p| == 1 {
      HeadStops(p[0], "");
      assert p[0] + "" == p[0];
    } else {
      HeadStops(p[0], "/" + Join(p[1..]));
      assert Join(p) == p[0] + ("/" + Join(p[1..]));
      assert Join(p)[|p[0]|] == '/';
    }
  }

  // ----- sorting

  type Order<!T> = (T, T) -> bool

  /** The comparison orders these elements, no two of them tied. */
  ghost predicate Linear<T(!new)>(less: Order<T>, all: set<T>) {
    && (forall a, b | a in all && b in all :: a == b || less(a, b) || less(b, a))
    && (forall a, b | a in all && b in all :: !(less(a, b) && less(b, a)))
    && (forall a, b, c | a in all && b in all && c in all :: less(a, b) && less(b, c) ==> less(a, c))
  }

  /** The comparison ranks these elements; several may share a rank. */
  ghost predicate Ranking<T(!new)>(less: Order<T>, all: set<T>) {
    && (forall a, b | a in all && b in all :: !(less(a, b) && less(b, a)))
    && (forall a, b, c | a in all && b in all && c in all :: less(a, c) ==> less(a, b) || less(b, c))
  }

  lemma {:induction false} LinearIsRanking<T(!new)>(less: Order<T>, all: set<T>)
    requires Linear(less, all)
    ensures Ranking(less, all)
  {
    forall a, b, c | a in all && b in all && c in all && less(a, c)
      ensures less(a, b) || less(b, c)
    {
      assert a == b || less(a, b) || less(b, a);
    }
  }

  /** No element has a later one that belongs before it. */
  ghost predicate Ordered<T>(s: seq<T>, less: Order<T>) {
    s == [] || ((forall y <- s[1..] :: !less(y, s[0])) && Ordered(s[1..], less))
  }

  function Inserted<T>(x: T, s: seq<T>, less: Order<T>): seq<T> {
    if s == [] || less(x, s[0]) then [x] + s else [s[0]] + Inserted(x, s[1..], less)
  }

  function Sorted<T>(s: seq<T>, less: Order<T>): seq<T> {
    if s == [] then [] else Inserted(s[0], Sorted(s[1..], less), less)
  }

  lemma {:induction false} InsertedHolds<T>(x: T, s: seq<T>, less: Order<T>)
    ensures multiset(Inserted(x, s, less)) == multiset{x} + multiset(s)
    ensures forall y <- Inserted(x, s, less) :: y == x || y in s
  {
    if s != [] && !less(x, s[0]) {
      InsertedHolds(x, s[1..], less);
      assert s == [s[0]] + s[1..];
    }
  }

  lemma {:induction false} SortedHolds<T>(s: seq<T>, less: Order<T>)
    ensures multiset(Sorted(s, less)) == multiset(s)
    ensures forall y <- Sorted(s, less) :: y in s
  {
    if s != [] {
      SortedHolds(s[1..], less);
      InsertedHolds(s[0], Sorted(s[1..], less), less);
      assert s == [s[0]] + s[1..];
    }
  }

  lemma {:induction false} InsertedIsOrdered<T(!new)>(x: T, s: seq<T>, less: Order<T>, all: set<T>)
    requires Ranking(less, all) && x in all && forall y <- s :: y in all
    requires Ordered(s, less)
    ensures Ordered(Inserted(x, s, less), less)
  {
    if s != [] {
      if less(x, s[0]) {
        assert ([x] + s)[1..] == s;
        forall y | y in s
          ensures !less(y, x)
        {
          assert s == [s[0]] + s[1..];
          assert y == s[0] || !less(y, s[0]);
        }
      } else {
        InsertedIsOrdered(x, s[1..], less, all);
        InsertedHolds(x, s[1..], less);
        assert Inserted(x, s, less)[1..] == Inserted(x, s[1..], less);
      }
    }
  }

  lemma {:induction false} SortedIsOrdered<T(!new)>(s: seq<T>, less: Order<T>, all: set<T>)
    requires Ranking(less, all) && forall y <- s :: y in all
    ensures Ordered(Sorted(s, less), less)
  {
    if s != [] {
      SortedIsOrdered(s[1..], less, all);
      SortedHolds(s[1..], less);
      InsertedIsOrdered(s[0], Sorted(s[1..], less), less, all);
    }
  }

  lemma {:induction false} OrderedAt<T>(s: seq<T>, less: Order<T>, i: nat, j: nat)
    requires Ordered(s, less) && i < j < |s|
    ensures !less(s[j], s[i])
  {
    if i == 0 {
      assert s[j] == s[1..][j - 1];
    } else {
      OrderedAt(s[1..], less, i - 1, j - 1);
    }
  }

  lemma {:induction false} FirstIsLeast<T>(s: seq<T>, less: Order<T>, x: T)
    requires Ordered(s, less) && x in multiset(s)
    ensures x == s[0] || !less(x, s[0])
  {
    assert s == [s[0]] + s[1..];
    assert x == s[0] || x in s[1..];
  }

  /** Two ordered arrangements of the same elements are the same: an unstable sort has no choice. */
  lemma {:induction false} OneOrderedArrangement<T(!new)>(a: seq<T>, b: seq<T>, less: Order<T>, all: set<T>)
    requires Linear(less, all) && forall y <- a :: y in all
    requires multiset(a) == multiset(b) && Ordered(a, less) && Ordered(b, less)
    ensures a == b
  {
    assert |a| == |multiset(a)| == |multiset(b)| == |b|;
    if a != [] {
      SameFirst(a, b, less, all);
      SameTail(a, b);
      OneOrderedArrangement(a[1..], b[1..], less, all);
      assert a == [a[0]] + a[1..] && b == [b[0]] + b[1..];
    }
  }

  lemma {:induction false} SameFirst<T(!new)>(a: seq<T>, b: seq<T>, less: Order<T>, all: set<T>)
    requires Linear(less, all) && forall y <- a :: y in all
    requires a != [] && b != [] && multiset(a) == multiset(b) && Ordered(a, less) && Ordered(b, less)
    ensures a[0] == b[0]
  {
    assert b[0] in multiset(b) && a[0] in multiset(a);
    FirstIsLeast(a, less, b[0]);
    FirstIsLeast(b, less, a[0]);
    assert b[0] in a;
  }

  lemma {:induction false} SameTail<T>(a: seq<T>, b: seq<T>)
    requires a != [] && b != [] && multiset(a) == multiset(b) && a[0] == b[0]
    ensures multiset(a[1..]) == multiset(b[1..])
  {
    assert a == [a[0]] + a[1..] && b == [b[0]] + b[1..];
    assert multiset(a[1..]) == multiset(a) - multiset{a[0]};
  }
}
