/** Filtering, stated without a loop: what is kept, and in what order. */
module Selections {

  predicate Increasing(at: seq<nat>) {
    forall i, j :: 0 <= i < j < |at| ==> at[i] < at[j]
  }

  /** `kept` are the elements at the places `at`, which are exactly the places of wanted elements. */
  ghost predicate KeptAt<T(!new)>(all: seq<T>, wanted: T -> bool, at: seq<nat>, kept: seq<T>) {
    && |at| == |kept| && Increasing(at)
    && (forall k :: 0 <= k < |at| ==> at[k] < |all| && kept[k] == all[at[k]])
    && (forall i :: 0 <= i < |all| ==> (i in at <==> wanted(all[i])))
  }

  /** `kept` are exactly the wanted elements of `all`, in their order. */
  ghost predicate Selects<T(!new)>(all: seq<T>, wanted: T -> bool, kept: seq<T>) {
    exists at :: KeptAt(all, wanted, at, kept)
  }

  lemma SelectsNone<T(!new)>(wanted: T -> bool)
    ensures Selects([], wanted, [])
  {
    assert KeptAt([], wanted, [], []);
  }

  lemma SelectsMore<T(!new)>(all: seq<T>, x: T, wanted: T -> bool, kept: seq<T>)
    requires Selects(all, wanted, kept)
    ensures Selects(all + [x], wanted, if wanted(x) then kept + [x] else kept)
  {
    var at :| KeptAt(all, wanted, at, kept);
    KeptMore(all, x, wanted, at, kept);
    hide KeptAt;
  }

  lemma KeptMore<T(!new)>(all: seq<T>, x: T, wanted: T -> bool, at: seq<nat>, kept: seq<T>)
    requires KeptAt(all, wanted, at, kept)
    ensures if wanted(x) then KeptAt(all + [x], wanted, at + [|all|], kept + [x])
            else KeptAt(all + [x], wanted, at, kept)
  {
    var more, at' := all + [x], if wanted(x) then at + [|all|] else at;
    forall i | 0 <= i < |more| ensures i in at' <==> wanted(more[i]) {
      assert i < |all| ==> more[i] == all[i] && (i in at' <==> i in at);
      assert |all| !in at by { PlacesBelow(all, wanted, at, kept); }
    }
  }

  lemma PlacesBelow<T(!new)>(all: seq<T>, wanted: T -> bool, at: seq<nat>, kept: seq<T>)
    requires KeptAt(all, wanted, at, kept)
    ensures forall i :: i in at ==> i < |all|
  {
  }

  /** A place on the last element is the last place. */
  lemma LastPlace<T(!new)>(all: seq<T>, wanted: T -> bool, at: seq<nat>, kept: seq<T>)
    requires KeptAt(all, wanted, at, kept) && all != []
    ensures var n := |all| - 1;
            if wanted(all[n])
            then at != [] && at[|at| - 1] == n && KeptAt(all[..n], wanted, at[..|at| - 1], kept[..|at| - 1])
            else KeptAt(all[..n], wanted, at, kept)
  {
    var n := |all| - 1;
    if wanted(all[n]) {
      assert n in at;
      var k :| 0 <= k < |at| && at[k] == n;
      LastOfIncreasing(at, k);
      forall i | 0 <= i < n ensures i in at[..|at| - 1] <==> wanted(all[..n][i]) {
        assert i in at <==> wanted(all[i]);
      }
    } else {
      forall k | 0 <= k < |at| ensures at[k] < n {
        assert at[k] in at;
      }
    }
  }

  lemma LastOfIncreasing(at: seq<nat>, k: nat)
    requires Increasing(at) && k < |at| && forall m :: 0 <= m < |at| ==> at[m] <= at[k]
    ensures k == |at| - 1
  {
    var last := at[|at| - 1];
  }

  lemma {:induction false} KeptOnce<T(!new)>(all: seq<T>, wanted: T -> bool, at: seq<nat>, kept: seq<T>, at': seq<nat>,
                                             kept': seq<T>)
    requires KeptAt(all, wanted, at, kept) && KeptAt(all, wanted, at', kept')
    ensures kept == kept'
  {
    if all == [] {
      EmptyKept(all, wanted, at, kept);
      EmptyKept(all, wanted, at', kept');
    } else {
      LastPlace(all, wanted, at, kept);
      LastPlace(all, wanted, at', kept');
      KeptLast(all, wanted, at, kept);
      KeptLast(all, wanted, at', kept');
      var n, m, m' := |all| - 1, |at| - 1, |at'| - 1;
      hide KeptAt;
      if wanted(all[n]) {
        KeptOnce(all[..n], wanted, at[..m], kept[..m], at'[..m'], kept'[..m']);
      } else {
        KeptOnce(all[..n], wanted, at, kept, at', kept');
      }
    }
  }

  lemma EmptyKept<T(!new)>(all: seq<T>, wanted: T -> bool, at: seq<nat>, kept: seq<T>)
    requires all == [] && KeptAt(all, wanted, at, kept)
    ensures kept == []
  {
    if at != [] {
      PlacesNeedElements(all, wanted, at, kept, 0);
    }
  }

  lemma PlacesNeedElements<T(!new)>(all: seq<T>, wanted: T -> bool, at: seq<nat>, kept: seq<T>, k: nat)
    requires KeptAt(all, wanted, at, kept) && k < |at|
    ensures |all| > 0
  {
    assert at[k] < |all|;
  }

  lemma KeptLast<T(!new)>(all: seq<T>, wanted: T -> bool, at: seq<nat>, kept: seq<T>)
    requires KeptAt(all, wanted, at, kept)
    ensures |at| == |kept|
    ensures at != [] && at[|at| - 1] == |all| - 1 ==> kept == kept[..|at| - 1] + [all[|all| - 1]]
  {
  }

  /** There is one selection only. */
  lemma SelectsOnce<T(!new)>(all: seq<T>, wanted: T -> bool, kept: seq<T>, kept': seq<T>)
    requires Selects(all, wanted, kept) && Selects(all, wanted, kept')
    ensures kept == kept'
  {
    hide KeptAt;
    var at :| KeptAt(all, wanted, at, kept);
    var at' :| KeptAt(all, wanted, at', kept');
    KeptOnce(all, wanted, at, kept, at', kept');
  }

  lemma SelectsMembers<T(!new)>(all: seq<T>, wanted: T -> bool, kept: seq<T>)
    requires Selects(all, wanted, kept)
    ensures forall x :: x in kept <==> x in all && wanted(x)
  {
    var at :| KeptAt(all, wanted, at, kept);
    forall x | x in all && wanted(x) ensures x in kept {
      var i :| 0 <= i < |all| && all[i] == x;
      assert i in at;
    }
    forall x | x in kept ensures x in all && wanted(x) {
      var k :| 0 <= k < |kept| && kept[k] == x;
      assert at[k] in at;
    }
  }

  /** The places of the wanted elements, and how many there are. */
  ghost function Places<T(!new)>(all: seq<T>, wanted: T -> bool): set<nat> {
    set i: nat | i < |all| && wanted(all[i])
  }

  ghost function Number<T(!new)>(all: seq<T>, wanted: T -> bool): nat {
    |Places(all, wanted)|
  }

  lemma NumberNone<T(!new)>(all: seq<T>, wanted: T -> bool)
    ensures all == [] ==> Number(all, wanted) == 0
  {
    if all == [] {
      assert Places(all, wanted) == {};
    }
  }

  lemma NumberMore<T(!new)>(all: seq<T>, x: T, wanted: T -> bool)
    ensures Number(all + [x], wanted) == Number(all, wanted) + if wanted(x) then 1 else 0
  {
    var more, n := all + [x], |all|;
    assert more[n] == x && forall i :: 0 <= i < n ==> more[i] == all[i];
    assert Places(more, wanted) == Places(all, wanted) + if wanted(x) then {n} else {};
  }

  function AsSet(at: seq<nat>): set<nat> {
    set i: nat | i in at
  }

  lemma {:induction false} PlacesCounted(at: seq<nat>)
    requires Increasing(at)
    ensures |AsSet(at)| == |at|
  {
    if at == [] {
      assert AsSet(at) == {};
    } else {
      var n := |at| - 1;
      var short, last := at[..n], at[n];
      PlacesCounted(short);
      assert at == short + [last] && last !in short;
      assert AsSet(at) == AsSet(short) + {last};
    }
  }

  lemma SelectsNumber<T(!new)>(all: seq<T>, wanted: T -> bool, kept: seq<T>)
    requires Selects(all, wanted, kept)
    ensures |kept| == Number(all, wanted)
  {
    var at :| KeptAt(all, wanted, at, kept);
    PlacesCounted(at);
    PlacesKept(all, wanted, at, kept);
  }

  lemma PlacesKept<T(!new)>(all: seq<T>, wanted: T -> bool, at: seq<nat>, kept: seq<T>)
    requires KeptAt(all, wanted, at, kept)
    ensures AsSet(at) == Places(all, wanted) && |at| == |kept|
  {
    hide Increasing;
    assert forall k :: k in at ==> k < |all|;
    assert forall k: nat :: k in AsSet(at) <==> k in Places(all, wanted);
  }

  // ----- first occurrences -----

  ghost predicate FirstsAt<T>(all: seq<T>, at: seq<nat>, firsts: seq<T>) {
    && |at| == |firsts| && Increasing(at)
    && (forall k :: 0 <= k < |at| ==> at[k] < |all| && all[at[k]] == firsts[k] && firsts[k] !in all[..at[k]])
    && (forall i :: 0 <= i < |all| && all[i] !in all[..i] ==> i in at)
  }

  /** The elements that have not occurred before, in their order. */
  ghost predicate FirstOccurrences<T>(all: seq<T>, firsts: seq<T>) {
    exists at :: FirstsAt(all, at, firsts)
  }

  lemma FirstsNone<T>(all: seq<T>)
    ensures all == [] ==> FirstOccurrences(all, [])
  {
    assert all == [] ==> FirstsAt(all, [], []);
  }

  lemma FirstsMore<T>(all: seq<T>, x: T, firsts: seq<T>)
    requires FirstOccurrences(all, firsts)
    ensures FirstOccurrences(all + [x], if x in all then firsts else firsts + [x])
  {
    var at :| FirstsAt(all, at, firsts);
    FirstsAtMore(all, x, at, firsts);
    hide FirstsAt;
  }

  lemma FirstsAtMore<T>(all: seq<T>, x: T, at: seq<nat>, firsts: seq<T>)
    requires FirstsAt(all, at, firsts)
    ensures FirstsAt(all + [x], if x in all then at else at + [|all|], if x in all then firsts else firsts + [x])
  {
    var more, n := all + [x], |all|;
    var at', firsts' := if x in all then at else at + [n], if x in all then firsts else firsts + [x];
    assert more[n] == x && more[..n] == all;
    assert forall i :: 0 <= i < n ==> more[i] == all[i] && more[..i] == all[..i];
    forall k | 0 <= k < |at'|
      ensures at'[k] < |more| && more[at'[k]] == firsts'[k] && firsts'[k] !in more[..at'[k]]
    {
      assert k < |at| ==> at'[k] == at[k] && firsts'[k] == firsts[k];
    }
    forall i | 0 <= i < |more| && more[i] !in more[..i] ensures i in at' {
      if i < n {
        assert i in at;
      }
    }
  }
}
