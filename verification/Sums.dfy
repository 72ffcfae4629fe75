/** Sums over sequences, and over finite sets of keys in whatever order they are visited. */
module Sums {

  ghost function Sum(keys: set<string>, f: string -> real): real
    decreases |keys|
  {
    if keys == {} then 0.0
    else
      var k :| k in keys;
      f(k) + Sum(keys - {k}, f)
  }

  /** Any key may be taken out first. */
  lemma {:induction false} SumTake(keys: set<string>, f: string -> real, x: string)
    requires x in keys
    ensures Sum(keys, f) == f(x) + Sum(keys - {x}, f)
    decreases |keys|
  {
    var k :| k in keys && Sum(keys, f) == f(k) + Sum(keys - {k}, f);
    if k != x {
      SumTake(keys - {k}, f, x);
      SumTake(keys - {x}, f, k);
      assert keys - {k} - {x} == keys - {x} - {k};
    }
  }

  lemma {:induction false} SumSame(keys: set<string>, f: string -> real, g: string -> real)
    requires forall k :: k in keys ==> f(k) == g(k)
    ensures Sum(keys, f) == Sum(keys, g)
    decreases |keys|
  {
    if keys != {} {
      var k :| k in keys;
      SumTake(keys, f, k);
      SumTake(keys, g, k);
      SumSame(keys - {k}, f, g);
    }
  }

  /** Adding to one key adds that much to the sum. */
  lemma SumBump(keys: set<string>, f: string -> real, g: string -> real, x: string, d: real)
    requires x in keys && g(x) == f(x) + d
    requires forall k :: k in keys && k != x ==> g(k) == f(k)
    ensures Sum(keys, g) == Sum(keys, f) + d
  {
    SumTake(keys, f, x);
    SumTake(keys, g, x);
    SumSame(keys - {x}, f, g);
  }

  lemma {:induction false} SumZero(keys: set<string>, f: string -> real)
    requires forall k :: k in keys ==> f(k) == 0.0
    ensures Sum(keys, f) == 0.0
    decreases |keys|
  {
    if keys != {} {
      var k :| k in keys;
      SumTake(keys, f, k);
      SumZero(keys - {k}, f);
    }
  }

  /** Proportions sum to at most the number of keys. */
  lemma {:induction false} SumOfProportions(keys: set<string>, f: string -> real)
    requires forall k :: k in keys ==> 0.0 <= f(k) <= 1.0
    ensures 0.0 <= Sum(keys, f) <= |keys| as real
    decreases |keys|
  {
    if keys != {} {
      var k :| k in keys;
      SumTake(keys, f, k);
      SumOfProportions(keys - {k}, f);
    }
  }

  /** Keys that contribute nothing can be left out. */
  lemma {:induction false} SumSubset(keys: set<string>, all: set<string>, f: string -> real)
    requires keys <= all && forall k :: k in all && k !in keys ==> f(k) == 0.0
    ensures Sum(keys, f) == Sum(all, f)
    decreases |all|
  {
    if all == keys {
    } else {
      var k :| k in all && k !in keys;
      SumTake(all, f, k);
      SumSubset(keys, all - {k}, f);
    }
  }

  // ----- sequences -----

  /** The sum of a number for each element, in the order the loops add them. */
  function Total<T>(xs: seq<T>, f: T -> real): real {
    if xs == [] then 0.0 else Total(xs[..|xs| - 1], f) + f(xs[|xs| - 1])
  }

  lemma {:induction false} TotalConcat<T>(a: seq<T>, x: T, c: seq<T>, f: T -> real)
    ensures Total(a + [x] + c, f) == f(x) + Total(a + c, f)
  {
    if c == [] {
      assert (a + [x] + c)[..|a|] == a == a + c;
    } else {
      var short, last := c[..|c| - 1], c[|c| - 1];
      TotalConcat(a, x, short, f);
      assert (a + [x] + c)[..|a + [x] + c| - 1] == a + [x] + short;
      assert (a + c)[..|a + c| - 1] == a + short;
    }
  }

  /** Rearranging the elements does not change any sum over them. */
  lemma {:induction false} TotalPermutes<T>(a: seq<T>, c: seq<T>, f: T -> real)
    requires multiset(a) == multiset(c)
    ensures Total(a, f) == Total(c, f)
    decreases |a|
  {
    if a == [] {
      assert |multiset(a)| == 0 && |multiset(c)| == |c|;
    } else {
      var short, last := a[..|a| - 1], a[|a| - 1];
      assert a == short + [last];
      assert last in multiset(c);
      var i :| 0 <= i < |c| && c[i] == last;
      var front, back := c[..i], c[i + 1..];
      assert c == front + [last] + back;
      WithoutOne(short, [], last);
      assert short + [last] + [] == a && short + [] == short;
      WithoutOne(front, back, last);
      TotalPermutes(short, front + back, f);
      TotalConcat(front, last, back, f);
    }
  }

  lemma WithoutOne<T>(front: seq<T>, back: seq<T>, x: T)
    ensures multiset(front + back) == multiset(front + [x] + back) - multiset{x}
  {
  }
}
