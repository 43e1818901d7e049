/** Members of a group: lists without repetition, and what one member's change does to the
    multisets and numbers they contribute. */
module Ensemble {
  ghost predicate Distinct<T(!new)>(xs: seq<T>) {
    forall i, j :: 0 <= i < j < |xs| ==> xs[i] != xs[j]
  }

  lemma DistinctOneMore<T(!new)>(xs: seq<T>, x: T)
    ensures Distinct(xs + [x]) <==> Distinct(xs) && x !in xs
  {
    var ys := xs + [x];
    if Distinct(ys) {
      assert forall i :: 0 <= i < |xs| ==> ys[i] == xs[i] && ys[i] != ys[|xs|];
    }
  }

  lemma {:induction false} DistinctCounts<T(!new)>(xs: seq<T>)
    ensures Distinct(xs) <==> forall x :: multiset(xs)[x] <= 1
  {
    if xs != [] {
      var init, last := xs[..|xs| - 1], xs[|xs| - 1];
      assert xs == init + [last];
      DistinctCounts(init);
      DistinctOneMore(init, last);
      assert multiset(xs) == multiset(init) + multiset{last};
      assert last in init <==> multiset(init)[last] > 0;
      forall x ensures multiset(init)[x] <= multiset(xs)[x] {
      }
    }
  }

  // ---- counting ----

  /** How many elements of a list have a property. */
  function Count<T>(xs: seq<T>, p: T -> bool): nat {
    if xs == [] then 0 else Count(xs[..|xs| - 1], p) + if p(xs[|xs| - 1]) then 1 else 0
  }

  ghost function Places<T>(xs: seq<T>, p: T -> bool): set<nat> {
    set i: nat | i < |xs| && p(xs[i])
  }

  lemma {:induction false} CountIsSize<T>(xs: seq<T>, p: T -> bool)
    ensures Count(xs, p) == |Places(xs, p)|
  {
    if xs != [] {
      var n := |xs| - 1;
      CountIsSize(xs[..n], p);
      assert Places(xs, p) == Places(xs[..n], p) + if p(xs[n]) then {n} else {};
    }
  }

  lemma {:induction false} CountConcat<T>(x: seq<T>, y: seq<T>, p: T -> bool)
    ensures Count(x + y, p) == Count(x, p) + Count(y, p)
  {
    if y == [] {
      assert x + y == x;
    } else {
      CountConcat(x, y[..|y| - 1], p);
      assert (x + y)[..|x + y| - 1] == x + y[..|y| - 1];
    }
  }

  function Is<T(==)>(x: T): T -> bool { (y: T) => y == x }

  lemma {:induction false} CountEqual<T>(xs: seq<T>, x: T)
    ensures Count(xs, Is(x)) == multiset(xs)[x]
  {
    if xs != [] {
      CountEqual(xs[..|xs| - 1], x);
      assert xs == xs[..|xs| - 1] + [xs[|xs| - 1]];
    }
  }

  ghost function Union<T>(parts: seq<multiset<T>>): multiset<T> {
    if parts == [] then multiset{} else Union(parts[..|parts| - 1]) + parts[|parts| - 1]
  }

  ghost function Sum(xs: seq<nat>): nat {
    if xs == [] then 0 else Sum(xs[..|xs| - 1]) + xs[|xs| - 1]
  }

  lemma Exchange<T>(a: multiset<T>, b: multiset<T>, x: multiset<T>, y: multiset<T>, z: multiset<T>)
    requires a + x == b + y
    ensures (a + z) + x == (b + z) + y
  {
    assert (a + z) + x == (a + x) + z;
    assert (b + z) + y == (b + y) + z;
  }

  lemma Swap<T>(all: multiset<T>, x: T, added: multiset<T>)
    requires x in all
    ensures all - multiset{x} + added + multiset{x} == all + added
  {
  }

  lemma Cancel<T>(a: multiset<T>, b: multiset<T>, x: multiset<T>)
    requires a + x == b + x
    ensures a == b
  {
    assert (a + x) - x == a;
    assert (b + x) - x == b;
  }

  lemma {:induction false} UnionUpdate<T>(parts: seq<multiset<T>>, i: nat, p: multiset<T>)
    requires i < |parts|
    ensures Union(parts[i := p]) + parts[i] == Union(parts) + p
  {
    var last := |parts| - 1;
    var init := parts[..last];
    if i == last {
      assert parts[i := p][..last] == init;
      assert (Union(init) + p) + parts[i] == (Union(init) + parts[i]) + p;
    } else {
      UnionUpdate(init, i, p);
      assert parts[i := p][..last] == init[i := p];
      Exchange(Union(init[i := p]), Union(init), parts[i], p, parts[last]);
    }
  }

  lemma {:induction false} SumUpdate(xs: seq<nat>, i: nat, x: nat)
    requires i < |xs|
    ensures Sum(xs[i := x]) + xs[i] == Sum(xs) + x
  {
    var last := |xs| - 1;
    var init := xs[..last];
    if i == last {
      assert xs[i := x][..last] == init;
    } else {
      SumUpdate(init, i, x);
      assert xs[i := x][..last] == init[i := x];
    }
  }

  lemma {:induction false} PartOfUnion<T>(parts: seq<multiset<T>>, i: nat)
    requires i < |parts|
    ensures parts[i] <= Union(parts)
  {
    if i != |parts| - 1 {
      PartOfUnion(parts[..|parts| - 1], i);
    }
  }

  lemma {:induction false} UnionHasSource<T>(parts: seq<multiset<T>>, x: T)
    requires x in Union(parts)
    ensures exists i: nat :: i < |parts| && x in parts[i]
  {
    var last := |parts| - 1;
    if x !in parts[last] {
      UnionHasSource(parts[..last], x);
      var i: nat :| i < last && x in parts[..last][i];
      assert parts[..last][i] == parts[i];
    }
  }

  lemma {:induction false} UnionOfNothing<T>(parts: seq<multiset<T>>)
    requires forall i :: 0 <= i < |parts| ==> parts[i] == multiset{}
    ensures Union(parts) == multiset{}
  {
    if parts != [] {
      UnionOfNothing(parts[..|parts| - 1]);
    }
  }

  lemma {:induction false} UnionOfSingles<T>(parts: seq<multiset<T>>, names: seq<T>, i: nat)
    requires |parts| <= |names| && i < |names|
    requires forall j :: 0 <= j < |parts| ==> parts[j] == multiset{names[j]}
    requires forall j, k :: 0 <= j < k < |names| ==> names[j] != names[k]
    ensures Union(parts)[names[i]] == if i < |parts| then 1 else 0
  {
    if parts != [] {
      UnionOfSingles(parts[..|parts| - 1], names, i);
    }
  }

  lemma {:induction false} UnionSize<T>(parts: seq<multiset<T>>)
    requires forall j :: 0 <= j < |parts| ==> |parts[j]| == 1
    ensures |Union(parts)| == |parts|
  {
    if parts != [] {
      UnionSize(parts[..|parts| - 1]);
    }
  }

  lemma {:induction false} SumOfSame(xs: seq<nat>, x: nat)
    requires forall i :: 0 <= i < |xs| ==> xs[i] == x
    ensures Sum(xs) == x * |xs|
  {
    if xs != [] {
      SumOfSame(xs[..|xs| - 1], x);
    }
  }

  /** A sum of bounded numbers is largest exactly when all of them are. */
  lemma {:induction false} SumBounded(xs: seq<nat>, top: nat)
    requires forall i :: 0 <= i < |xs| ==> xs[i] <= top
    ensures Sum(xs) <= top * |xs|
    ensures Sum(xs) == top * |xs| <==> forall i :: 0 <= i < |xs| ==> xs[i] == top
  {
    if xs != [] {
      var last := |xs| - 1;
      var init := xs[..last];
      SumBounded(init, top);
      assert top * |xs| == top * |init| + top;
      assert (forall i :: 0 <= i < |xs| ==> xs[i] == top) <==>
        xs[last] == top && (forall i :: 0 <= i < |init| ==> init[i] == top);
    }
  }
}
