/** `xs.sort((a, b) => key(b) - key(a))`: descending by key, and stable. */
module Sorting {

  /** Puts `x` behind everything of at least its key. */
  function Insert<T>(xs: seq<T>, x: T, key: T -> real): seq<T> {
    if xs == [] || key(xs[|xs| - 1]) >= key(x) then xs + [x]
    else Insert(xs[..|xs| - 1], x, key) + [xs[|xs| - 1]]
  }

  function SortDescending<T>(xs: seq<T>, key: T -> real): seq<T> {
    if xs == [] then [] else Insert(SortDescending(xs[..|xs| - 1], key), xs[|xs| - 1], key)
  }

  ghost predicate Descending<T>(xs: seq<T>, key: T -> real) {
    forall i, j :: 0 <= i < j < |xs| ==> key(xs[i]) >= key(xs[j])
  }

  /** The elements with a given key, in order. */
  ghost function Ties<T>(xs: seq<T>, key: T -> real, v: real): seq<T> {
    if xs == [] then []
    else Ties(xs[..|xs| - 1], key, v) + (if key(xs[|xs| - 1]) == v then [xs[|xs| - 1]] else [])
  }

  lemma {:induction false} InsertPermutes<T>(xs: seq<T>, x: T, key: T -> real)
    ensures multiset(Insert(xs, x, key)) == multiset(xs) + multiset{x}
  {
    if xs != [] && key(xs[|xs| - 1]) < key(x) {
      InsertPermutes(xs[..|xs| - 1], x, key);
      assert xs == xs[..|xs| - 1] + [xs[|xs| - 1]];
    }
  }

  lemma {:induction false} InsertSorted<T>(xs: seq<T>, x: T, key: T -> real)
    requires Descending(xs, key)
    ensures Descending(Insert(xs, x, key), key)
  {
    if xs != [] && key(xs[|xs| - 1]) < key(x) {
      var short, last := xs[..|xs| - 1], xs[|xs| - 1];
      InsertSorted(short, x, key);
      InsertPermutes(short, x, key);
      var inserted := Insert(short, x, key);
      forall i | 0 <= i < |inserted| ensures key(inserted[i]) >= key(last) {
        assert inserted[i] in multiset(inserted);
        if inserted[i] != x {
          assert inserted[i] in multiset(short);
          var j :| 0 <= j < |short| && short[j] == inserted[i];
        }
      }
    }
  }

  lemma {:induction false} InsertTies<T>(xs: seq<T>, x: T, key: T -> real, v: real)
    requires Descending(xs, key)
    ensures Ties(Insert(xs, x, key), key, v) == Ties(xs, key, v) + (if key(x) == v then [x] else [])
  {
    if xs == [] || key(xs[|xs| - 1]) >= key(x) {
      assert (xs + [x])[..|xs|] == xs;
    } else {
      var short, last := xs[..|xs| - 1], xs[|xs| - 1];
      InsertTies(short, x, key, v);
      var inserted := Insert(short, x, key);
      assert (inserted + [last])[..|inserted|] == inserted;
      if key(last) == v {
        assert key(x) != v;
      } else {
        assert Ties(xs, key, v) == Ties(short, key, v) + [];
      }
    }
  }

  /** The result is the input rearranged in descending order, equal keys keeping their order. */
  lemma {:induction false} SortIsStable<T>(xs: seq<T>, key: T -> real)
    ensures Descending(SortDescending(xs, key), key)
    ensures multiset(SortDescending(xs, key)) == multiset(xs)
    ensures |SortDescending(xs, key)| == |xs|
    ensures forall v :: Ties(SortDescending(xs, key), key, v) == Ties(xs, key, v)
  {
    if xs != [] {
      var short, last := xs[..|xs| - 1], xs[|xs| - 1];
      SortIsStable(short, key);
      var sorted := SortDescending(short, key);
      InsertSorted(sorted, last, key);
      InsertPermutes(sorted, last, key);
      assert xs == short + [last];
      assert |multiset(SortDescending(xs, key))| == |SortDescending(xs, key)|;
      forall v ensures Ties(SortDescending(xs, key), key, v) == Ties(xs, key, v) {
        InsertTies(sorted, last, key, v);
      }
    }
  }

  lemma SameMembers<T>(a: seq<T>, b: seq<T>)
    requires multiset(a) == multiset(b)
    ensures forall x :: x in a <==> x in b
  {
    forall x ensures x in a <==> x in b {
      assert x in a <==> x in multiset(a);
      assert x in b <==> x in multiset(b);
    }
  }

  /** A list that is in order already stays as it is. */
  lemma {:induction false} SortedAlready<T>(xs: seq<T>, key: T -> real)
    requires Descending(xs, key)
    ensures SortDescending(xs, key) == xs
  {
    if xs != [] {
      SortedAlready(xs[..|xs| - 1], key);
      assert xs == xs[..|xs| - 1] + [xs[|xs| - 1]];
    }
  }

  // ----- who comes before whom -----

  ghost predicate Before<T>(xs: seq<T>, x: T, y: T) {
    exists p, q :: 0 <= p < q < |xs| && xs[p] == x && xs[q] == y
  }

  lemma BeforeMore<T>(xs: seq<T>, last: T, x: T, y: T)
    ensures Before(xs + [last], x, y) <==> Before(xs, x, y) || (x in xs && y == last)
  {
    var more := xs + [last];
    if p, q :| 0 <= p < q < |more| && more[p] == x && more[q] == y {
      assert p < |xs| && xs[p] == x;
      assert q < |xs| ==> xs[q] == y;
    }
    if p, q :| 0 <= p < q < |xs| && xs[p] == x && xs[q] == y {
      assert more[p] == x && more[q] == y;
    }
    if x in xs && y == last {
      var p :| 0 <= p < |xs| && xs[p] == x;
      assert more[p] == x && more[|xs|] == y;
    }
  }

  lemma {:induction false} TiesMembers<T>(xs: seq<T>, key: T -> real, v: real, x: T)
    ensures x in Ties(xs, key, v) <==> x in xs && key(x) == v
  {
    if xs != [] {
      var short, last := xs[..|xs| - 1], xs[|xs| - 1];
      TiesMembers(short, key, v, x);
      assert xs == short + [last];
    }
  }

  /** The elements with one key are in the same order among themselves as in the whole list. */
  lemma {:induction false} TiesKeepOrder<T>(xs: seq<T>, key: T -> real, v: real, x: T, y: T)
    requires key(x) == key(y) == v
    ensures Before(Ties(xs, key, v), x, y) <==> Before(xs, x, y)
  {
    if xs != [] {
      var short, last := xs[..|xs| - 1], xs[|xs| - 1];
      TiesKeepOrder(short, key, v, x, y);
      TiesMembers(short, key, v, x);
      assert xs == short + [last];
      hide Before;
      BeforeMore(short, last, x, y);
      BeforeMore(Ties(short, key, v), last, x, y);
      assert Ties(short, key, v) + [] == Ties(short, key, v);
    }
  }

  /** After sorting, an element of higher key comes first, and equal keys are in their original order. */
  lemma SortedBefore<T>(xs: seq<T>, key: T -> real, x: T, y: T)
    requires x in xs && y in xs
    ensures key(x) > key(y) ==> Before(SortDescending(xs, key), x, y)
    ensures key(x) == key(y) ==> (Before(SortDescending(xs, key), x, y) <==> Before(xs, x, y))
    ensures key(x) < key(y) ==> !Before(SortDescending(xs, key), x, y)
  {
    var sorted := SortDescending(xs, key);
    SortIsStable(xs, key);
    SameMembers(xs, sorted);
    hide *;
    if key(x) == key(y) {
      TiesKeepOrder(xs, key, key(x), x, y);
      TiesKeepOrder(sorted, key, key(x), x, y);
    } else if key(x) > key(y) {
      LargerFirst(sorted, key, x, y);
    } else {
      LargerFirst(sorted, key, y, x);
    }
  }

  lemma LargerFirst<T>(sorted: seq<T>, key: T -> real, x: T, y: T)
    requires Descending(sorted, key) && x in sorted && y in sorted && key(x) > key(y)
    ensures Before(sorted, x, y) && !Before(sorted, y, x)
  {
    var p :| 0 <= p < |sorted| && sorted[p] == x;
    var q :| 0 <= q < |sorted| && sorted[q] == y;
    assert p < q;
  }
}
