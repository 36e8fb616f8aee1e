/** Orders and sorting, as Python's `sorted` and its comparison operators use them.

    Python compares strings code point by code point (a proper prefix is smaller), compares
    lists and tuples lexicographically, and `sorted` of a set lists its elements in increasing
    order. `Sorted` is that listing for any strict total order. */
module Ordering {

  ghost predicate IsStrictTotalOrder<T(!new)>(lt: (T, T) -> bool) {
    && (forall a :: !lt(a, a))
    && (forall a, b, c :: TransitiveAt(a, b, c, lt))
    && (forall a, b :: a != b ==> lt(a, b) || lt(b, a))
  }

  /** Transitivity at one triple; named so that it is used only where a proof asks for it. */
  ghost predicate TransitiveAt<T>(a: T, b: T, c: T, lt: (T, T) -> bool) {
    lt(a, b) && lt(b, c) ==> lt(a, c)
  }

  /** Lexicographic order on sequences, built from an order on their elements. */
  predicate LexLt<T(==)>(a: seq<T>, b: seq<T>, lt: (T, T) -> bool)
    decreases |a|
  {
    |b| > 0 && (|a| == 0 || lt(a[0], b[0]) || (a[0] == b[0] && LexLt(a[1..], b[1..], lt)))
  }

  function CharLt(x: char, y: char): bool { x < y }

  /** Python's `<` on `str`. */
  predicate StrLt(a: string, b: string) {
    LexLt(a, b, CharLt)
  }

  lemma {:induction false} LexIrreflexive<T(!new)>(a: seq<T>, lt: (T, T) -> bool)
    requires IsStrictTotalOrder(lt)
    ensures !LexLt(a, a, lt)
    decreases |a|
  {
    if |a| > 0 {
      LexIrreflexive(a[1..], lt);
    }
  }

  lemma {:induction false} LexTransitive<T(!new)>(a: seq<T>, b: seq<T>, c: seq<T>, lt: (T, T) -> bool)
    requires IsStrictTotalOrder(lt)
    requires LexLt(a, b, lt) && LexLt(b, c, lt)
    ensures LexLt(a, c, lt)
    decreases |a|
  {
    if |a| > 0 {
      assert TransitiveAt(a[0], b[0], c[0], lt);
      if a[0] == b[0] && b[0] == c[0] {
        LexTransitive(a[1..], b[1..], c[1..], lt);
      }
    }
  }

  lemma {:induction false} LexTotal<T(!new)>(a: seq<T>, b: seq<T>, lt: (T, T) -> bool)
    requires IsStrictTotalOrder(lt)
    requires a != b
    ensures LexLt(a, b, lt) || LexLt(b, a, lt)
    decreases |a|
  {
    if |a| > 0 && |b| > 0 && a[0] == b[0] {
      assert a == [a[0]] + a[1..] && b == [b[0]] + b[1..];
      LexTotal(a[1..], b[1..], lt);
    }
  }

  /** Lexicographic extension preserves strict total orders. */
  lemma LexIsStrictTotalOrder<T(!new)>(lt: (T, T) -> bool)
    requires IsStrictTotalOrder(lt)
    ensures IsStrictTotalOrder((a: seq<T>, b: seq<T>) => LexLt(a, b, lt))
  {
    forall a: seq<T> ensures !LexLt(a, a, lt) {
      LexIrreflexive(a, lt);
    }
    var order := (x: seq<T>, y: seq<T>) => LexLt(x, y, lt);
    forall a: seq<T>, b: seq<T>, c: seq<T> ensures TransitiveAt(a, b, c, order) {
      if LexLt(a, b, lt) && LexLt(b, c, lt) {
        LexTransitive(a, b, c, lt);
      }
    }
    forall a: seq<T>, b: seq<T> | a != b ensures LexLt(a, b, lt) || LexLt(b, a, lt) {
      LexTotal(a, b, lt);
    }
  }

  lemma StrLtIsStrictTotalOrder()
    ensures IsStrictTotalOrder(StrLt)
  {
    LexIsStrictTotalOrder(CharLt);
    var lex := (x: string, y: string) => LexLt(x, y, CharLt);
    forall a: string, b: string ensures StrLt(a, b) == lex(a, b) {
    }
    forall a: string, b: string, c: string ensures TransitiveAt(a, b, c, StrLt) {
      assert TransitiveAt(a, b, c, lex);
    }
  }

  /** Every non-empty finite set has a least element under a strict total order. */
  lemma {:induction false} LeastExists<T(!new)>(s: set<T>, lt: (T, T) -> bool)
    requires IsStrictTotalOrder(lt)
    requires s != {}
    ensures exists m :: m in s && forall y :: y in s && y != m ==> lt(m, y)
    decreases |s|
  {
    var x :| x in s;
    if s == {x} {
      assert forall y :: y in s && y != x ==> lt(x, y);
    } else {
      var rest := s - {x};
      LeastExists(rest, lt);
      var m :| m in rest && forall y :: y in rest && y != m ==> lt(m, y);
      if lt(x, m) {
        forall y | y in s && y != x ensures lt(x, y) {
          if y != m {
            Transitive(x, m, y, lt);
          }
        }
        assert x in s;
      } else {
        forall y | y in s && y != m ensures lt(m, y) {
          if y == x {
            Total(x, m, lt);
          }
        }
        assert m in s;
      }
    }
  }

  lemma Transitive<T(!new)>(a: T, b: T, c: T, lt: (T, T) -> bool)
    requires IsStrictTotalOrder(lt) && lt(a, b) && lt(b, c)
    ensures lt(a, c)
  {
    assert TransitiveAt(a, b, c, lt);
  }

  lemma Total<T(!new)>(a: T, b: T, lt: (T, T) -> bool)
    requires IsStrictTotalOrder(lt) && a != b
    ensures lt(a, b) || lt(b, a)
  {
  }

  /** No later element is below an earlier one. */
  ghost predicate Ordered<T(!new)>(s: seq<T>, lt: (T, T) -> bool) {
    forall i, j :: 0 <= i < j < |s| ==> !lt(s[j], s[i])
  }

  lemma LeastInBag<T(!new)>(m: multiset<T>, lt: (T, T) -> bool)
    requires IsStrictTotalOrder(lt)
    requires |m| > 0
    ensures exists x :: x in m && forall y :: y in m ==> !lt(y, x)
  {
    var elements := set y | y in m;
    var z :| z in m;
    assert z in elements;
    LeastExists(elements, lt);
    var x :| x in elements && forall y :: y in elements && y != x ==> lt(x, y);
    forall y | y in m ensures !lt(y, x) {
      if y != x && lt(y, x) {
        assert y in elements;
        Transitive(x, y, x, lt);
      }
    }
    assert x in m;
  }

  lemma OrderedCons<T(!new)>(x: T, rest: seq<T>, lt: (T, T) -> bool)
    requires Ordered(rest, lt)
    requires forall y :: y in rest ==> !lt(y, x)
    ensures Ordered([x] + rest, lt)
  {
    var r := [x] + rest;
    forall i, j | 0 <= i < j < |r| ensures !lt(r[j], r[i]) {
      if i > 0 {
        assert r[i] == rest[i - 1] && r[j] == rest[j - 1];
      } else {
        assert r[j] == rest[j - 1];
      }
    }
  }

  /** `sorted(items)`: the items of the bag `m` in non-decreasing order. */
  ghost function Sorted<T(!new)>(m: multiset<T>, lt: (T, T) -> bool): (r: seq<T>)
    requires IsStrictTotalOrder(lt)
    ensures multiset(r) == m
    ensures Ordered(r, lt)
    decreases |m|
  {
    if |m| == 0 then []
    else
      LeastInBag(m, lt);
      var x :| x in m && forall y :: y in m ==> !lt(y, x);
      var rest := Sorted(m - multiset{x}, lt);
      assert forall y :: y in rest ==> y in m by {
        forall y | y in rest ensures y in m {
          assert y in multiset(rest);
        }
      }
      OrderedCons(x, rest, lt);
      [x] + rest
  }

  /** The bag of `f(x)` for `x` in `s`: the items of the list comprehension `[f(x) for x in s]`,
      whatever order the set is iterated in. */
  ghost function ImageBag<T(!new), U>(s: set<T>, f: T -> U): (r: multiset<U>)
    ensures |r| == |s|
    ensures forall x :: x in s ==> f(x) in r
    ensures forall y :: y in r ==> exists x :: x in s && f(x) == y
    decreases |s|
  {
    if s == {} then multiset{}
    else
      var x :| x in s;
      multiset{f(x)} + ImageBag(s - {x}, f)
  }

  lemma FirstIsLeast<T(!new)>(a: seq<T>, lt: (T, T) -> bool)
    requires IsStrictTotalOrder(lt)
    requires Ordered(a, lt) && |a| > 0
    ensures forall y :: y in a ==> !lt(y, a[0])
  {
    forall y | y in a ensures !lt(y, a[0]) {
      var j :| 0 <= j < |a| && a[j] == y;
    }
  }

  /** A bag has only one non-decreasing listing, so `Sorted` is the listing. */
  lemma {:induction false} OrderedListingIsUnique<T(!new)>(a: seq<T>, b: seq<T>, lt: (T, T) -> bool)
    requires IsStrictTotalOrder(lt)
    requires Ordered(a, lt) && Ordered(b, lt)
    requires multiset(a) == multiset(b)
    ensures a == b
    decreases |a|
  {
    if |a| > 0 {
      assert |b| > 0 by { assert |multiset(b)| == |a|; }
      assert a[0] in multiset(b) && b[0] in multiset(a);
      FirstIsLeast(a, lt);
      FirstIsLeast(b, lt);
      assert a[0] == b[0];
      assert a == [a[0]] + a[1..] && b == [b[0]] + b[1..];
      assert multiset(a[1..]) == multiset(b[1..]) by {
        assert multiset(a) == multiset([a[0]]) + multiset(a[1..]);
        assert multiset(b) == multiset([b[0]]) + multiset(b[1..]);
        assert multiset(a[1..]) == multiset(a) - multiset{a[0]};
        assert multiset(b[1..]) == multiset(b) - multiset{b[0]};
      }
      OrderedListingIsUnique(a[1..], b[1..], lt);
    } else {
      assert |multiset(b)| == 0;
    }
  }

  lemma RepeatCountsTwice<T>(r: seq<T>, i: nat, j: nat)
    requires i < j < |r|
    ensures r[i] == r[j] ==> multiset(r)[r[i]] >= 2
  {
    assert r == r[..i] + [r[i]] + r[i + 1..j] + [r[j]] + r[j + 1..];
  }

  /** Sorting a set lists each element once, in strictly increasing order. */
  lemma SortedSet<T(!new)>(s: set<T>, lt: (T, T) -> bool)
    requires IsStrictTotalOrder(lt)
    ensures forall x :: x in Sorted(multiset(s), lt) <==> x in s
    ensures forall i, j :: 0 <= i < j < |Sorted(multiset(s), lt)| ==> lt(Sorted(multiset(s), lt)[i], Sorted(multiset(s), lt)[j])
  {
    var r := Sorted(multiset(s), lt);
    forall x ensures x in r <==> x in s {
      assert x in r <==> x in multiset(r);
    }
    forall i, j | 0 <= i < j < |r| ensures lt(r[i], r[j]) {
      RepeatCountsTwice(r, i, j);
      assert multiset(r)[r[i]] <= 1;
    }
  }

  /** A listing of the comprehension `[f(x) for x in s]`, such as its sorted one, holds `f(x)` for
      each `x` of `s`, and nothing else. */
  lemma ListingOfImage<T(!new), U(!new)>(s: set<T>, f: T -> U, r: seq<U>)
    requires multiset(r) == ImageBag(s, f)
    ensures |r| == |s|
    ensures forall x :: x in s ==> f(x) in r
    ensures forall k :: 0 <= k < |r| ==> exists x :: x in s && r[k] == f(x)
  {
    assert |r| == |multiset(r)|;
    forall x | x in s ensures f(x) in r {
      assert f(x) in multiset(r);
    }
    forall k | 0 <= k < |r| ensures exists x :: x in s && r[k] == f(x) {
      assert r[k] in multiset(r);
    }
  }

  /** `sorted([f(x) for x in s])`. */
  ghost function SortedImage<T(!new), U(!new)>(s: set<T>, f: T -> U, lt: (U, U) -> bool): (r: seq<U>)
    requires IsStrictTotalOrder(lt)
    ensures |r| == |s| && Ordered(r, lt)
    ensures forall x :: x in s ==> f(x) in r
    ensures forall k :: 0 <= k < |r| ==> exists x :: x in s && r[k] == f(x)
  {
    var r := Sorted(ImageBag(s, f), lt);
    ListingOfImage(s, f, r);
    r
  }

  /** Below a header, `sorted([f(x) for x in s])` holds only images of elements of `s`. */
  lemma HeadedImageOnly<T(!new), U(!new)>(h: U, s: set<T>, f: T -> U, lt: (U, U) -> bool)
    requires IsStrictTotalOrder(lt)
    ensures var r := [h] + SortedImage(s, f, lt);
      forall k :: 1 <= k < |r| ==> exists x :: x in s && r[k] == f(x)
  {
    var sorted := SortedImage(s, f, lt);
    var r := [h] + sorted;
    forall k | 1 <= k < |r| ensures exists x :: x in s && r[k] == f(x) {
      assert r[k] == sorted[k - 1];
    }
  }
}
