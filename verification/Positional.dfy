/** Positional number systems with the most significant digit first, and the change of
    base that keeps leading zeros.  Base58 and Python's big-endian byte integers are the
    two instances used by this project. */
module Positional {

  type byte = x: int | 0 <= x < 256

  ghost predicate AreDigits(ds: seq<nat>, base: nat) {
    forall i :: 0 <= i < |ds| ==> ds[i] < base
  }

  /** The number a digit string denotes. */
  function Value(ds: seq<nat>, base: nat): nat {
    if ds == [] then 0 else Value(ds[..|ds| - 1], base) * base + ds[|ds| - 1]
  }

  /** The digit string without leading zeros; zero is the empty string. */
  function Minimal(n: nat, base: nat): (ds: seq<nat>)
    requires 2 <= base
    ensures AreDigits(ds, base)
    ensures n == 0 <==> ds == []
    ensures ds != [] ==> ds[0] != 0
  {
    if n == 0 then [] else
      DivisionShrinks(n, base);
      Minimal(n / base, base) + [n % base]
  }

  function Zeros(k: nat): (z: seq<nat>)
    ensures |z| == k && forall i :: 0 <= i < k ==> z[i] == 0
  {
    seq(k, _ => 0)
  }

  /** Number of zeros a digit string starts with. */
  function Leading(ds: seq<nat>): (k: nat)
    ensures k <= |ds|
    ensures forall i :: 0 <= i < k ==> ds[i] == 0
    ensures k < |ds| ==> ds[k] != 0
  {
    if ds == [] || ds[0] != 0 then 0 else 1 + Leading(ds[1..])
  }

  /** Change of base: each leading zero stays one digit, the rest is re-expressed. */
  function Recode(ds: seq<nat>, from: nat, to: nat): seq<nat>
    requires 2 <= to
  {
    Zeros(Leading(ds)) + Minimal(Value(ds, from), to)
  }

  lemma TimesMonotone(a: nat, b: nat, c: nat)
    requires a <= b
    ensures a * c <= b * c
  {
  }

  lemma DivisionShrinks(n: nat, base: nat)
    requires 0 < n && 2 <= base
    ensures 0 <= n / base < n
  {
    TimesMonotone(2, base, n / base);
    assert n == base * (n / base) + n % base;
  }

  lemma DivisionIdentity(n: nat, base: nat)
    requires 0 < base
    ensures (n / base) * base + n % base == n
  {
  }

  /** Quotient and remainder are determined by the number. */
  lemma EuclidUnique(q: nat, r: nat, v: nat, d: nat, base: nat)
    requires r < base && d < base && q * base + r == v * base + d
    ensures q == v && r == d
  {
    if q < v {
      TimesMonotone(q + 1, v, base);
    }
    if v < q {
      TimesMonotone(v + 1, q, base);
    }
  }

  lemma QuotientUnique(v: nat, d: nat, base: nat)
    requires d < base
    ensures (v * base + d) / base == v && (v * base + d) % base == d
  {
    var n := v * base + d;
    assert n == base * (n / base) + n % base;
    EuclidUnique(n / base, n % base, v, d, base);
  }

  lemma {:induction false} ValueOfMinimal(n: nat, base: nat)
    requires 2 <= base
    ensures Value(Minimal(n, base), base) == n
  {
    if n != 0 {
      var q, r := n / base, n % base;
      DivisionShrinks(n, base);
      ValueOfMinimal(q, base);
      var ds := Minimal(n, base);
      assert ds == Minimal(q, base) + [r];
      assert ds[..|ds| - 1] == Minimal(q, base);
      assert Value(ds, base) == q * base + r;
      DivisionIdentity(n, base);
    }
  }

  lemma {:induction false} ValueIsPositive(ds: seq<nat>, base: nat)
    requires 2 <= base && ds != [] && ds[0] != 0
    ensures Value(ds, base) > 0
  {
    var init := ds[..|ds| - 1];
    if init != [] {
      ValueIsPositive(init, base);
      assert Value(init, base) * base > 0;
    } else {
      assert Value(init, base) == 0;
    }
  }

  lemma {:induction false} MinimalOfValue(ds: seq<nat>, base: nat)
    requires 2 <= base && AreDigits(ds, base)
    requires ds != [] ==> ds[0] != 0
    ensures Minimal(Value(ds, base), base) == ds
  {
    if ds != [] {
      var init, d := ds[..|ds| - 1], ds[|ds| - 1];
      MinimalOfValue(init, base);
      QuotientUnique(Value(init, base), d, base);
      ValueIsPositive(ds, base);
      assert ds == init + [d];
    }
  }

  lemma {:induction false} ValueIgnoresZeros(k: nat, ds: seq<nat>, base: nat)
    ensures Value(Zeros(k) + ds, base) == Value(ds, base)
  {
    if ds != [] {
      ValueIgnoresZeros(k, ds[..|ds| - 1], base);
      var all := Zeros(k) + ds;
      assert all[..|all| - 1] == Zeros(k) + ds[..|ds| - 1];
    } else if k != 0 {
      ValueIgnoresZeros(k - 1, [], base);
      var all := Zeros(k) + ds;
      assert all[..|all| - 1] == Zeros(k - 1) + [];
    } else {
      assert Zeros(0) + ds == [];
    }
  }

  lemma {:induction false} LeadingOfPadded(k: nat, ds: seq<nat>)
    requires ds != [] ==> ds[0] != 0
    ensures Leading(Zeros(k) + ds) == k
  {
    if k != 0 {
      LeadingOfPadded(k - 1, ds);
      assert (Zeros(k) + ds)[1..] == Zeros(k - 1) + ds;
    } else {
      assert Zeros(0) + ds == ds;
    }
  }

  /** Changing base keeps the number denoted. */
  lemma RecodeKeeps(ds: seq<nat>, from: nat, to: nat)
    requires 2 <= to
    ensures Value(Recode(ds, from, to), to) == Value(ds, from)
  {
    ValueIgnoresZeros(Leading(ds), Minimal(Value(ds, from), to), to);
    ValueOfMinimal(Value(ds, from), to);
  }

  /** Changing base and back is the identity on every digit string, leading zeros included. */
  lemma RecodeInverse(ds: seq<nat>, from: nat, to: nat)
    requires 2 <= from && 2 <= to && AreDigits(ds, from)
    ensures AreDigits(Recode(ds, from, to), to)
    ensures Leading(Recode(ds, from, to)) == Leading(ds)
    ensures Recode(Recode(ds, from, to), to, from) == ds
  {
    var k := Leading(ds);
    var core, n := ds[k..], Value(ds, from);
    assert ds == Zeros(k) + core;
    ValueIgnoresZeros(k, core, from);
    MinimalOfValue(core, from);
    var there := Recode(ds, from, to);
    LeadingOfPadded(k, Minimal(n, to));
    ValueIgnoresZeros(k, Minimal(n, to), to);
    ValueOfMinimal(n, to);
  }
}
