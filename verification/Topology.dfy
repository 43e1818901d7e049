/** The corroboration topology: a back-edged cycle of honest agents beside a complete clique,
    for any two sizes. */
module Topology {
  import Encodings
  import opened Positional

  datatype Node = Honest(i: nat) | Ring(i: nat)

  datatype Edge = Edge(issuer: Node, counterparty: Node)

  // ---- agent names ----

  const HONEST: seq<byte> := [104, 111, 110, 101, 115, 116, 45]  // "honest-"
  const RING: seq<byte> := [114, 105, 110, 103, 45]              // "ring-"

  function Name(u: Node): seq<byte> {
    match u
    case Honest(i) => HONEST + Encodings.Decimal(i)
    case Ring(i) => RING + Encodings.Decimal(i)
  }

  /** Agent ids are as good as nodes. */
  lemma NamesDistinct(u: Node, v: Node)
    ensures Name(u) == Name(v) <==> u == v
  {
    Encodings.DecimalRoundTrip(u.i);
    Encodings.DecimalRoundTrip(v.i);
    assert Name(u)[0] == if u.Honest? then 104 else 114;
    assert Name(v)[0] == if v.Honest? then 104 else 114;
    assert u.Honest? ==> Name(u)[7..] == Encodings.Decimal(u.i);
    assert v.Honest? ==> Name(v)[7..] == Encodings.Decimal(v.i);
    assert u.Ring? ==> Name(u)[5..] == Encodings.Decimal(u.i);
    assert v.Ring? ==> Name(v)[5..] == Encodings.Decimal(v.i);
  }

  /** "honest-" or "ring-", and the index. */
  lemma NameText(i: nat)
    ensures [104, 111, 110, 101, 115, 116, 45] <= Name(Honest(i)) && Encodings.FromDecimal(Name(Honest(i))[7..]) == i
    ensures [114, 105, 110, 103, 45] <= Name(Ring(i)) && Encodings.FromDecimal(Name(Ring(i))[5..]) == i
  {
    Encodings.DecimalRoundTrip(i);
    assert Name(Honest(i))[7..] == Encodings.Decimal(i) && Name(Ring(i))[5..] == Encodings.Decimal(i);
  }

  // ---- construction ----

  function Next(i: nat, n: nat): (j: nat)
    requires i < n
    ensures j == if i + 1 == n then 0 else i + 1
  {
    (i + 1) % n
  }

  /** Edges of the first k iterations over the honest agents. */
  function HonestEdges(n: nat, k: nat): seq<Edge>
    requires k <= n
  {
    if k == 0 then [] else
      var a, b := Honest(k - 1), Honest(Next(k - 1, n));
      HonestEdges(n, k - 1) + [Edge(a, b), Edge(b, a)]
  }

  /** Edges from ring agent a to the first j ring agents. */
  function Row(a: nat, j: nat): seq<Edge> {
    if j == 0 then [] else
      Row(a, j - 1) + if a != j - 1 then [Edge(Ring(a), Ring(j - 1))] else []
  }

  function RingEdges(k: nat, rows: nat): seq<Edge> {
    if rows == 0 then [] else RingEdges(k, rows - 1) + Row(rows - 1, k)
  }

  function Edges(n: nat, k: nat): seq<Edge> {
    HonestEdges(n, n) + RingEdges(k, k)
  }

  method BuildTopology(n: nat, k: nat) returns (edges: seq<Edge>)
    ensures edges == Edges(n, k)
  {
    edges := [];
    for i := 0 to n
      invariant edges == HonestEdges(n, i)
    {
      var a, b := Honest(i), Honest((i + 1) % n);
      edges := edges + [Edge(a, b)];
      edges := edges + [Edge(b, a)];
    }
    for a := 0 to k
      invariant edges == HonestEdges(n, n) + RingEdges(k, a)
    {
      for b := 0 to k
        invariant edges == HonestEdges(n, n) + (RingEdges(k, a) + Row(a, b))
      {
        if a != b {
          edges := edges + [Edge(Ring(a), Ring(b))];
        }
      }
    }
  }

  // ---- which edges there are ----

  ghost predicate Adjacent(n: nat, i: nat, j: nat) {
    i < n && j < n && (Next(i, n) == j || Next(j, n) == i)
  }

  lemma {:induction false} HonestMembers(n: nat, k: nat, e: Edge)
    requires k <= n
    ensures e in HonestEdges(n, k) <==>
      && e.issuer.Honest? && e.counterparty.Honest?
      && ((e.issuer.i < k && e.counterparty.i == Next(e.issuer.i, n))
          || (e.counterparty.i < k && e.issuer.i == Next(e.counterparty.i, n)))
  {
    if k != 0 {
      HonestMembers(n, k - 1, e);
    }
  }

  lemma {:induction false} RowMembers(a: nat, j: nat, e: Edge)
    ensures e in Row(a, j) <==>
      e.issuer == Ring(a) && e.counterparty.Ring? && e.counterparty.i < j && e.counterparty.i != a
  {
    if j != 0 {
      RowMembers(a, j - 1, e);
    }
  }

  lemma {:induction false} RingMembers(k: nat, rows: nat, e: Edge)
    ensures e in RingEdges(k, rows) <==>
      && e.issuer.Ring? && e.counterparty.Ring?
      && e.issuer.i < rows && e.counterparty.i < k && e.issuer != e.counterparty
  {
    if rows != 0 {
      RingMembers(k, rows - 1, e);
      RowMembers(rows - 1, k, e);
    }
  }

  /** Honest agents are linked to both neighbours on the cycle, ring agents to every other
      ring agent, and nobody across. */
  lemma EdgeMembers(n: nat, k: nat, e: Edge)
    ensures e in Edges(n, k) <==>
      match (e.issuer, e.counterparty)
      case (Honest(i), Honest(j)) => Adjacent(n, i, j)
      case (Ring(i), Ring(j)) => i < k && j < k && i != j
      case (_, _) => false
  {
    HonestMembers(n, n, e);
    RingMembers(k, k, e);
  }

  // ---- reachability ----

  ghost predicate IsPath(n: nat, k: nat, path: seq<Node>) {
    path != [] && forall t :: 0 < t < |path| ==> Edge(path[t - 1], path[t]) in Edges(n, k)
  }

  ghost predicate Reaches(n: nat, k: nat, u: Node, v: Node) {
    exists path :: IsPath(n, k, path) && path[0] == u && path[|path| - 1] == v
  }

  predicate IsNode(n: nat, k: nat, u: Node) {
    u.i < if u.Honest? then n else k
  }

  lemma {:induction false} PathStaysOnSide(n: nat, k: nat, path: seq<Node>, t: nat)
    requires IsPath(n, k, path) && t < |path|
    ensures path[t].Honest? == path[0].Honest?
  {
    if t != 0 {
      PathStaysOnSide(n, k, path, t - 1);
      EdgeMembers(n, k, Edge(path[t - 1], path[t]));
    }
  }

  lemma HonestReaches(n: nat, k: nat, i: nat, j: nat)
    requires i < n && j < n
    ensures Reaches(n, k, Honest(i), Honest(j))
  {
    var path := if i <= j
      then seq(j - i + 1, t requires 0 <= t <= j - i => Honest(i + t))
      else seq(i - j + 1, t requires 0 <= t <= i - j => Honest(i - t));
    forall t | 0 < t < |path| ensures Edge(path[t - 1], path[t]) in Edges(n, k) {
      EdgeMembers(n, k, Edge(path[t - 1], path[t]));
    }
    assert IsPath(n, k, path);
  }

  lemma RingReaches(n: nat, k: nat, i: nat, j: nat)
    requires i < k && j < k
    ensures Reaches(n, k, Ring(i), Ring(j))
  {
    var path := if i == j then [Ring(i)] else [Ring(i), Ring(j)];
    EdgeMembers(n, k, Edge(Ring(i), Ring(j)));
    assert IsPath(n, k, path);
  }

  /** The strongly connected components are exactly the honest set and the ring set. */
  lemma ComponentsAreThePopulations(n: nat, k: nat, u: Node, v: Node)
    requires IsNode(n, k, u) && IsNode(n, k, v)
    ensures Reaches(n, k, u, v) <==> u.Honest? == v.Honest?
    ensures Reaches(n, k, u, v) <==> Reaches(n, k, v, u)
  {
    if u.Honest? && v.Honest? {
      HonestReaches(n, k, u.i, v.i);
      HonestReaches(n, k, v.i, u.i);
    } else if u.Ring? && v.Ring? {
      RingReaches(n, k, u.i, v.i);
      RingReaches(n, k, v.i, u.i);
    } else {
      NoCrossing(n, k, u, v);
      NoCrossing(n, k, v, u);
    }
  }

  lemma NoCrossing(n: nat, k: nat, u: Node, v: Node)
    requires u.Honest? != v.Honest?
    ensures !Reaches(n, k, u, v)
  {
    forall path | IsPath(n, k, path) && path[0] == u ensures path[|path| - 1] != v {
      PathStaysOnSide(n, k, path, |path| - 1);
    }
  }

  // ---- edge counts and density ----

  ghost function EdgeSet(edges: seq<Edge>): set<Edge> {
    set e | e in edges
  }

  lemma EdgeSetGrows(edges: seq<Edge>, e: Edge)
    requires e !in edges
    ensures |EdgeSet(edges + [e])| == |EdgeSet(edges)| + 1
  {
    assert EdgeSet(edges + [e]) == EdgeSet(edges) + {e};
  }

  lemma TwoMoreEdges(edges: seq<Edge>, e: Edge, f: Edge)
    requires e !in edges && f !in edges && e != f
    ensures |EdgeSet(edges + [e, f])| == |EdgeSet(edges)| + 2
  {
    EdgeSetGrows(edges, e);
    EdgeSetGrows(edges + [e], f);
    assert edges + [e, f] == edges + [e] + [f];
  }

  lemma {:induction false} HonestCount(n: nat, k: nat)
    requires 3 <= n && k <= n
    ensures |EdgeSet(HonestEdges(n, k))| == 2 * k
  {
    if k == 0 {
      NoEdges();
    } else {
      HonestCount(n, k - 1);
      HonestPairIsNew(n, k);
      var a, b := Honest(k - 1), Honest(Next(k - 1, n));
      TwoMoreEdges(HonestEdges(n, k - 1), Edge(a, b), Edge(b, a));
    }
  }

  lemma HonestPairIsNew(n: nat, k: nat)
    requires 3 <= n && 0 < k <= n
    ensures var a, b, before := Honest(k - 1), Honest(Next(k - 1, n)), HonestEdges(n, k - 1);
      a != b && Edge(a, b) !in before && Edge(b, a) !in before
  {
    var a, b := Honest(k - 1), Honest(Next(k - 1, n));
    HonestMembers(n, k - 1, Edge(a, b));
    HonestMembers(n, k - 1, Edge(b, a));
  }

  /** Distinct edges of the honest cycle, for every size. */
  lemma HonestEdgeCount(n: nat)
    ensures |EdgeSet(HonestEdges(n, n))| == if n <= 2 then n else 2 * n
  {
    if n == 0 {
      assert EdgeSet(HonestEdges(0, 0)) == {};
    } else if n == 1 {
      assert HonestEdges(1, 1) == [Edge(Honest(0), Honest(0)), Edge(Honest(0), Honest(0))];
      assert EdgeSet(HonestEdges(1, 1)) == {Edge(Honest(0), Honest(0))};
    } else if n == 2 {
      var e, f := Edge(Honest(0), Honest(1)), Edge(Honest(1), Honest(0));
      assert HonestEdges(2, 1) == [e, f];
      assert HonestEdges(2, 2) == [e, f, f, e];
      assert EdgeSet(HonestEdges(2, 2)) == {e, f};
    } else {
      HonestCount(n, n);
    }
  }

  lemma {:induction false} RowCount(a: nat, j: nat)
    ensures |EdgeSet(Row(a, j))| == if a < j then j - 1 else j
  {
    if j == 0 {
      NoEdges();
    } else {
      RowCount(a, j - 1);
      RowMembers(a, j - 1, Edge(Ring(a), Ring(j - 1)));
      var before := Row(a, j - 1);
      assert before + [] == before;
      if a != j - 1 {
        EdgeSetGrows(before, Edge(Ring(a), Ring(j - 1)));
      }
    }
  }

  lemma DisjointCount(x: seq<Edge>, y: seq<Edge>, rows: nat)
    requires forall e <- x :: e.issuer.i != rows
    requires forall e <- y :: e.issuer.i == rows
    ensures |EdgeSet(x + y)| == |EdgeSet(x)| + |EdgeSet(y)|
  {
    assert EdgeSet(x + y) == EdgeSet(x) + EdgeSet(y);
    assert EdgeSet(x) !! EdgeSet(y);
  }

  lemma RowsApart(k: nat, rows: nat)
    ensures forall e <- RingEdges(k, rows) :: e.issuer.i != rows
    ensures forall e <- Row(rows, k) :: e.issuer.i == rows
  {
    forall e | e in RingEdges(k, rows) ensures e.issuer.i != rows {
      RingMembers(k, rows, e);
    }
    forall e | e in Row(rows, k) ensures e.issuer.i == rows {
      RowMembers(rows, k, e);
    }
  }

  lemma RingOneRow(k: nat, rows: nat)
    requires rows < k
    ensures |EdgeSet(RingEdges(k, rows + 1))| == |EdgeSet(RingEdges(k, rows))| + k - 1
  {
    RowsApart(k, rows);
    DisjointCount(RingEdges(k, rows), Row(rows, k), rows);
    RowCount(rows, k);
  }

  ghost predicate RowsCounted(k: nat, rows: nat) {
    |EdgeSet(RingEdges(k, rows))| == rows * (k - 1)
  }

  lemma OneMoreCounted(k: nat, rows: nat)
    requires 0 < rows <= k && RowsCounted(k, rows - 1)
    ensures RowsCounted(k, rows)
  {
    RingOneRow(k, rows - 1);
    OneMoreTime(rows, k - 1);
  }

  lemma {:induction false} RingCount(k: nat, rows: nat)
    requires rows <= k
    ensures RowsCounted(k, rows)
  {
    if rows == 0 {
      NoEdges();
    } else {
      RingCount(k, rows - 1);
      OneMoreCounted(k, rows);
    }
  }

  lemma NoEdges()
    ensures |EdgeSet([])| == 0
  {
    assert EdgeSet([]) == {};
  }

  lemma OneMoreTime(a: int, c: int)
    ensures (a - 1) * c + c == a * c
  {
  }

  /** Density of a population of m agents with a number of inner edges is at least 0.8. */
  predicate DenseEnough(inner: nat, m: nat) {
    10 * inner >= 8 * (m * (m - 1))
  }

  /** The ring has every possible edge, so its density is 1; a back-edged cycle has 2n of
      n (n - 1) and falls below 0.8 exactly from four agents on. */
  lemma Densities(n: nat, k: nat)
    ensures |EdgeSet(RingEdges(k, k))| == k * (k - 1)
    ensures k >= 2 ==> DenseEnough(|EdgeSet(RingEdges(k, k))|, k)
    ensures n >= 3 ==> |EdgeSet(HonestEdges(n, n))| == 2 * n
    ensures n >= 3 ==> (!DenseEnough(|EdgeSet(HonestEdges(n, n))|, n) <==> n >= 4)
  {
    RingCount(k, k);
    HonestEdgeCount(n);
    if n >= 4 {
      Quadratic(n);
    }
  }

  lemma Quadratic(n: nat)
    requires n >= 4
    ensures 20 * n < 8 * (n * (n - 1))
  {
    TimesMonotone(3, n - 1, n);
  }

  // ---- each agent reports the edges it issues ----

  /** The edges an agent issues among the first n. */
  function IssuedIn(edges: seq<Edge>, n: nat, a: Node): seq<Edge>
    requires n <= |edges|
  {
    if n == 0 then [] else
      var before, e := IssuedIn(edges, n - 1, a), edges[n - 1];
      if e.issuer == a then before + [e] else before
  }

  function IssuedBy(edges: seq<Edge>, a: Node): seq<Edge> {
    IssuedIn(edges, |edges|, a)
  }

  function Get(m: map<Node, seq<Edge>>, a: Node): seq<Edge> {
    if a in m then m[a] else []
  }

  method SplitByIssuer(edges: seq<Edge>) returns (byIssuer: map<Node, seq<Edge>>)
    ensures forall a :: Get(byIssuer, a) == IssuedBy(edges, a)
  {
    byIssuer := map[];
    for t := 0 to |edges|
      invariant forall a :: Get(byIssuer, a) == IssuedIn(edges, t, a)
    {
      var e := edges[t];
      byIssuer := byIssuer[e.issuer := Get(byIssuer, e.issuer) + [e]];
    }
  }

  lemma {:induction false} IssuedInPrefix(x: seq<Edge>, y: seq<Edge>, n: nat, a: Node)
    requires n <= |x|
    ensures IssuedIn(x + y, n, a) == IssuedIn(x, n, a)
  {
    if n != 0 {
      IssuedInPrefix(x, y, n - 1, a);
    }
  }

  lemma {:induction false} IssuedInConcat(x: seq<Edge>, y: seq<Edge>, m: nat, a: Node)
    requires m <= |y|
    ensures IssuedIn(x + y, |x| + m, a) == IssuedIn(x, |x|, a) + IssuedIn(y, m, a)
  {
    if m == 0 {
      IssuedInPrefix(x, y, |x|, a);
    } else {
      IssuedInConcat(x, y, m - 1, a);
    }
  }

  lemma IssuedByConcat(x: seq<Edge>, y: seq<Edge>, a: Node)
    ensures IssuedBy(x + y, a) == IssuedBy(x, a) + IssuedBy(y, a)
  {
    IssuedInConcat(x, y, |y|, a);
  }

  lemma IssuedByOneMore(x: seq<Edge>, e: Edge, a: Node)
    ensures |IssuedBy(x + [e], a)| == |IssuedBy(x, a)| + if e.issuer == a then 1 else 0
  {
    IssuedInPrefix(x, [e], |x|, a);
  }

  lemma {:induction false} HonestIssues(n: nat, k: nat, a: Node)
    requires k <= n
    ensures |IssuedBy(HonestEdges(n, k), a)| ==
      if a.Honest? && a.i < n then
        (if a.i < k then 1 else 0) + (if (if a.i == 0 then n - 1 else a.i - 1) < k then 1 else 0)
      else 0
  {
    if k != 0 {
      HonestIssues(n, k - 1, a);
      var x, y := Honest(k - 1), Honest(Next(k - 1, n));
      var before := HonestEdges(n, k - 1);
      IssuedByOneMore(before, Edge(x, y), a);
      IssuedByOneMore(before + [Edge(x, y)], Edge(y, x), a);
      assert HonestEdges(n, k) == before + [Edge(x, y)] + [Edge(y, x)];
    }
  }

  lemma {:induction false} RowIssues(r: nat, j: nat, a: Node)
    ensures |IssuedBy(Row(r, j), a)| == if a == Ring(r) then (if r < j then j - 1 else j) else 0
  {
    if j != 0 {
      RowIssues(r, j - 1, a);
      IssuedByOneMore(Row(r, j - 1), Edge(Ring(r), Ring(j - 1)), a);
      assert Row(r, j - 1) + [] == Row(r, j - 1);
    }
  }

  ghost predicate RowsReported(k: nat, rows: nat, a: Node) {
    |IssuedBy(RingEdges(k, rows), a)| == if a.Ring? && a.i < rows then k - 1 else 0
  }

  lemma RowAppends(k: nat, rows: nat, a: Node)
    requires 0 < rows
    ensures |IssuedBy(RingEdges(k, rows), a)| == |IssuedBy(RingEdges(k, rows - 1), a)| + |IssuedBy(Row(rows - 1, k), a)|
  {
    var before, row := RingEdges(k, rows - 1), Row(rows - 1, k);
    assert RingEdges(k, rows) == before + row;
    IssuedByConcat(before, row, a);
  }

  lemma OneMoreRow(k: nat, rows: nat, a: Node)
    requires 0 < rows <= k && RowsReported(k, rows - 1, a)
    ensures RowsReported(k, rows, a)
  {
    RowAppends(k, rows, a);
    RowIssues(rows - 1, k, a);
  }

  lemma {:induction false} RingIssues(k: nat, rows: nat, a: Node)
    requires rows <= k
    ensures RowsReported(k, rows, a)
  {
    if rows == 0 {
      assert RingEdges(k, 0) == [];
    } else {
      RingIssues(k, rows - 1, a);
      OneMoreRow(k, rows, a);
    }
  }

  /** Every honest agent reports two receipts, every ring agent one per other ring agent. */
  lemma ReceiptsPerAgent(n: nat, k: nat, a: Node)
    ensures |IssuedBy(Edges(n, k), a)| ==
      if !IsNode(n, k, a) then 0 else if a.Honest? then 2 else k - 1
  {
    IssuedByConcat(HonestEdges(n, n), RingEdges(k, k), a);
    HonestIssues(n, n, a);
    RingIssues(k, k, a);
  }
}
