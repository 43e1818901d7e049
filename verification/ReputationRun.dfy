/** The reputation scenario as a run: every agent reports the corroborated receipts of the edges
    it issues, and the trust layer counts them. */
module ReputationRun {
  import opened Crypto
  import Ensemble
  import opened Topology
  import opened Trust

  type Naming = Node -> AgentId

  ghost predicate Injective(name: Naming) {
    forall u: Node, v: Node :: name(u) == name(v) ==> u == v
  }

  lemma NodeNaming()
    ensures Injective(Name)
  {
    forall u: Node, v: Node | Name(u) == Name(v) ensures u == v {
      NamesDistinct(u, v);
    }
  }

  function FilingOf(name: Naming, e: Edge): Filing {
    Filing(name(e.issuer), Evidence(Positive,
      JsonDict(Receipt(DidFor(name(e.issuer)), DidFor(name(e.counterparty)), true))))
  }

  function FiledAll(s: Store, name: Naming, edges: seq<Edge>): Store {
    if edges == [] then s else Filed(FiledAll(s, name, edges[..|edges| - 1]), FilingOf(name, edges[|edges| - 1]))
  }

  /** Each edge leaves one verifying receipt by its issuer about its counterparty, in order. */
  lemma {:induction false} FiledReceipts(s: Store, name: Naming, edges: seq<Edge>)
    ensures FiledAll(s, name, edges).ledger == s.ledger + seq(|edges|, i requires 0 <= i < |edges| =>
      Receipt(DidFor(name(edges[i].issuer)), DidFor(name(edges[i].counterparty)), true))
    ensures FiledAll(s, name, edges).fallback == s.fallback
  {
    if edges != [] {
      FiledReceipts(s, name, edges[..|edges| - 1]);
    }
  }

  class ReceiptIssuerAgent {
    const name: Naming
    const myEdges: seq<Edge>

    constructor (name: Naming, myEdges: seq<Edge>)
      ensures this.name == name && this.myEdges == myEdges
    {
      this.name, this.myEdges := name, myEdges;
    }

    /** Reports every receipt and greets every counterparty. */
    method OnStart(trust: AgentReceiptsTrust) returns (greeted: seq<AgentId>)
      modifies trust
      ensures trust.View() == FiledAll(old(trust.View()), name, myEdges)
      ensures trust.fallback == old(trust.fallback)
      ensures trust.ledger == old(trust.ledger) + seq(|myEdges|, i requires 0 <= i < |myEdges| =>
        Receipt(DidFor(name(myEdges[i].issuer)), DidFor(name(myEdges[i].counterparty)), true))
      ensures |greeted| == |myEdges| && forall i :: 0 <= i < |myEdges| ==> greeted[i] == name(myEdges[i].counterparty)
    {
      greeted := [];
      ghost var start := trust.View();
      for k := 0 to |myEdges|
        invariant trust.View() == FiledAll(start, name, myEdges[..k])
        invariant |greeted| == k && forall i :: 0 <= i < k ==> greeted[i] == name(myEdges[i].counterparty)
      {
        var e := myEdges[k];
        assert myEdges[..k + 1][..k] == myEdges[..k];
        trust.Report(name(e.issuer), FilingOf(name, e).evidence);
        greeted := greeted + [name(e.counterparty)];
      }
      assert myEdges[..|myEdges|] == myEdges;
      FiledReceipts(start, name, myEdges);
    }
  }

  // ---- runs: agents start in some order ----

  function Books(n: nat, k: nat, name: Naming, order: seq<Node>): Store {
    if order == [] then EMPTY else
      FiledAll(Books(n, k, name, order[..|order| - 1]), name, IssuedBy(Edges(n, k), order[|order| - 1]))
  }

  function Times(order: seq<Node>, u: Node): nat {
    if order == [] then 0 else Times(order[..|order| - 1], u) + if order[|order| - 1] == u then 1 else 0
  }

  /** How many of the agents started are on one side. */
  function Starts(order: seq<Node>, honest: bool): nat {
    if order == [] then 0 else
      Starts(order[..|order| - 1], honest) + if order[|order| - 1].Honest? == honest then 1 else 0
  }

  lemma {:induction false} IssuerOfIssued(edges: seq<Edge>, n: nat, u: Node)
    requires n <= |edges|
    ensures forall e <- IssuedIn(edges, n, u) :: e.issuer == u
  {
    if n != 0 {
      IssuerOfIssued(edges, n - 1, u);
    }
  }

  /** Filing an agent's own edges credits that agent and nobody else. */
  lemma {:induction false} FilingCredits(s: Store, name: Naming, edges: seq<Edge>, u: Node, v: Node)
    requires Injective(name) && forall e <- edges :: e.issuer == v
    ensures var s' := FiledAll(s, name, edges);
      && |Mine(s'.ledger, name(u))| == |Mine(s.ledger, name(u))| + (if u == v then |edges| else 0)
      && |s'.ledger| == |s.ledger| + |edges|
      && s'.fallback == s.fallback
  {
    if edges != [] {
      var init, last := edges[..|edges| - 1], edges[|edges| - 1];
      assert last in edges;
      FilingCredits(s, name, init, u, v);
      var before := FiledAll(s, name, init);
      LedgerOneMore(before.ledger, FilingOf(name, last).evidence.detail.receipt, name(u));
      assert name(u) == name(v) ==> u == v;
    }
  }

  lemma LedgerOneMore(ledger: seq<Receipt>, r: Receipt, a: AgentId)
    ensures |Mine(ledger + [r], a)| == |Mine(ledger, a)| + if r.principal == DidFor(a) then 1 else 0
  {
    assert (ledger + [r])[..|ledger|] == ledger;
  }

  /** Receipts an agent reports when it starts. */
  function Due(k: nat, u: Node): int {
    if u.Honest? then 2 else k - 1
  }

  lemma OneStart(s: Store, n: nat, k: nat, name: Naming, v: Node, u: Node)
    requires Injective(name) && IsNode(n, k, v)
    ensures var s' := FiledAll(s, name, IssuedBy(Edges(n, k), v));
      && |Mine(s'.ledger, name(u))| == |Mine(s.ledger, name(u))| + (if u == v then Due(k, v) else 0)
      && |s'.ledger| == |s.ledger| + Due(k, v)
      && s'.fallback == s.fallback
  {
    var edges := IssuedBy(Edges(n, k), v);
    ReceiptsPerAgent(n, k, v);
    IssuerOfIssued(Edges(n, k), |Edges(n, k)|, v);
    FilingCredits(s, name, edges, u, v);
  }

  lemma OneMoreDue(t: int, due: int)
    ensures t * due + due == (t + 1) * due
  {
  }

  /** In any order of starts, repeats included: each start of an honest agent adds two receipts to
      its own count and each start of a ring agent one per other ring agent, the ledger holds all
      of them, and no report falls back to the heuristic. */
  lemma {:induction false} ReputationBooks(n: nat, k: nat, name: Naming, order: seq<Node>, u: Node)
    requires Injective(name) && forall i :: 0 <= i < |order| ==> IsNode(n, k, order[i])
    ensures Books(n, k, name, order).fallback == map[]
    ensures |Mine(Books(n, k, name, order).ledger, name(u))| == Times(order, u) * Due(k, u)
  {
    if order != [] {
      var init, v := order[..|order| - 1], order[|order| - 1];
      ReputationBooks(n, k, name, init, u);
      OneStart(Books(n, k, name, init), n, k, name, v, u);
      OneMoreDue(Times(init, u), Due(k, u));
    }
  }

  lemma {:induction false} LedgerTotal(n: nat, k: nat, name: Naming, order: seq<Node>)
    requires Injective(name) && forall i :: 0 <= i < |order| ==> IsNode(n, k, order[i])
    ensures |Books(n, k, name, order).ledger| == Starts(order, true) * 2 + Starts(order, false) * (k - 1)
  {
    if order != [] {
      var init, v := order[..|order| - 1], order[|order| - 1];
      LedgerTotal(n, k, name, init);
      OneStart(Books(n, k, name, init), n, k, name, v, v);
      OneMoreDue(Starts(init, v.Honest?), Due(k, v));
    }
  }

  /** When every agent starts once, in whatever order, sample counts are what the topology
      prescribes. */
  lemma SampleCounts(lib: Library, n: nat, k: nat, name: Naming, order: seq<Node>, u: Node)
    requires Injective(name) && (forall i :: 0 <= i < |order| ==> IsNode(n, k, order[i]))
    requires Times(order, u) == 1
    ensures ScoreOf(lib, Books(n, k, name, order), name(u)).sampleCount == if u.Honest? then 2 else k - 1
  {
    ReputationBooks(n, k, name, order, u);
  }

  // ---- the ledger is the topology ----

  function Between(p: AgentId, c: AgentId): Receipt -> bool {
    (r: Receipt) => r.genuine && r.principal == DidFor(p) && r.counterparty == DidFor(c)
  }

  lemma {:induction false} EdgesFiled(s: Store, name: Naming, edges: seq<Edge>, u: Node, v: Node)
    requires Injective(name)
    ensures Ensemble.Count(FiledAll(s, name, edges).ledger, Between(name(u), name(v)))
         == Ensemble.Count(s.ledger, Between(name(u), name(v))) + multiset(edges)[Edge(u, v)]
  {
    if edges != [] {
      var init, last := edges[..|edges| - 1], edges[|edges| - 1];
      EdgesFiled(s, name, init, u, v);
      assert edges == init + [last];
      OneMoreFiled(FiledAll(s, name, init), name, last, u, v);
    }
  }

  lemma OneMoreFiled(s: Store, name: Naming, e: Edge, u: Node, v: Node)
    requires Injective(name)
    ensures Ensemble.Count(Filed(s, FilingOf(name, e)).ledger, Between(name(u), name(v)))
         == Ensemble.Count(s.ledger, Between(name(u), name(v))) + if e == Edge(u, v) then 1 else 0
  {
    var r := FilingOf(name, e).evidence.detail.receipt;
    assert (s.ledger + [r])[..|s.ledger|] == s.ledger;
    assert name(e.issuer) == name(u) ==> e.issuer == u;
    assert name(e.counterparty) == name(v) ==> e.counterparty == v;
  }

  lemma {:induction false} IssuedCopies(edges: seq<Edge>, n: nat, w: Node, e: Edge)
    requires n <= |edges|
    ensures multiset(IssuedIn(edges, n, w))[e] == if e.issuer == w then multiset(edges[..n])[e] else 0
  {
    if n != 0 {
      IssuedCopies(edges, n - 1, w, e);
      assert edges[..n] == edges[..n - 1] + [edges[n - 1]];
    }
  }

  lemma EdgesOfOneStart(s: Store, n: nat, k: nat, name: Naming, w: Node, u: Node, v: Node)
    requires Injective(name)
    ensures Ensemble.Count(FiledAll(s, name, IssuedBy(Edges(n, k), w)).ledger, Between(name(u), name(v)))
         == Ensemble.Count(s.ledger, Between(name(u), name(v))) +
            if u == w then multiset(Edges(n, k))[Edge(u, v)] else 0
  {
    EdgesFiled(s, name, IssuedBy(Edges(n, k), w), u, v);
    IssuedCopies(Edges(n, k), |Edges(n, k)|, w, Edge(u, v));
    assert Edges(n, k)[..|Edges(n, k)|] == Edges(n, k);
  }

  lemma {:induction false} PairsCounted(n: nat, k: nat, name: Naming, order: seq<Node>, u: Node, v: Node)
    requires Injective(name)
    ensures Ensemble.Count(Books(n, k, name, order).ledger, Between(name(u), name(v)))
         == Times(order, u) * multiset(Edges(n, k))[Edge(u, v)]
  {
    if order != [] {
      var init, w := order[..|order| - 1], order[|order| - 1];
      PairsCounted(n, k, name, init, u, v);
      EdgesOfOneStart(Books(n, k, name, init), n, k, name, w, u, v);
      TimesMore(order, u, multiset(Edges(n, k))[Edge(u, v)]);
    }
  }

  lemma TimesMore(order: seq<Node>, u: Node, m: nat)
    requires order != []
    ensures Times(order, u) * m == Times(order[..|order| - 1], u) * m + if order[|order| - 1] == u then m else 0
  {
    OneMoreDue(Times(order[..|order| - 1], u), m);
  }

  /** In any order of starts, repeats included, the verifying receipts by one agent about another
      number the edges from the one to the other, once for each start of the first. */
  lemma LedgerOfStarts(n: nat, k: nat, name: Naming, order: seq<Node>, u: Node, v: Node)
    requires Injective(name)
    ensures var ledger := Books(n, k, name, order).ledger;
      |set i: nat | i < |ledger| && ledger[i].genuine
         && ledger[i].principal == DidFor(name(u)) && ledger[i].counterparty == DidFor(name(v))|
      == Times(order, u) * multiset(Edges(n, k))[Edge(u, v)]
  {
    var ledger := Books(n, k, name, order).ledger;
    PairsCounted(n, k, name, order, u, v);
    Ensemble.CountIsSize(ledger, Between(name(u), name(v)));
    assert Ensemble.Places(ledger, Between(name(u), name(v))) ==
      set i: nat | i < |ledger| && ledger[i].genuine
        && ledger[i].principal == DidFor(name(u)) && ledger[i].counterparty == DidFor(name(v));
  }

  /** When every agent starts once, in whatever order, the ledger is the topology: as many receipts
      by one agent about another as there are edges from the one to the other. */
  lemma LedgerIsTopology(n: nat, k: nat, name: Naming, order: seq<Node>, u: Node, v: Node)
    requires Injective(name)
    requires forall w :: IsNode(n, k, w) ==> Times(order, w) == 1
    ensures var ledger := Books(n, k, name, order).ledger;
      |set i: nat | i < |ledger| && ledger[i].genuine
         && ledger[i].principal == DidFor(name(u)) && ledger[i].counterparty == DidFor(name(v))|
      == multiset(Edges(n, k))[Edge(u, v)]
  {
    LedgerOfStarts(n, k, name, order, u, v);
    StartedOnce(n, k, order, u, v);
  }

  lemma StartedOnce(n: nat, k: nat, order: seq<Node>, u: Node, v: Node)
    requires IsNode(n, k, u) ==> Times(order, u) == 1
    ensures Times(order, u) * multiset(Edges(n, k))[Edge(u, v)] == multiset(Edges(n, k))[Edge(u, v)]
  {
    EdgeMembers(n, k, Edge(u, v));
    if !IsNode(n, k, u) {
      assert Edge(u, v) !in Edges(n, k);
      assert Edge(u, v) !in multiset(Edges(n, k));
    }
  }
}
