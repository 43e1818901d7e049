/** The discovery registry: cards pass a conformance gate, are kept in registration order and
    are found by capability and name. */
module Registry {
  import opened Wrappers
  import opened Crypto
  import opened Ensemble

  // ---- insertion-ordered dictionaries ----

  /** Assigning to a present key keeps its position; a new key goes last. */
  datatype Dict<K(==, !new), V> = Dict(order: seq<K>, at: map<K, V>)
  {
    ghost predicate Valid() {
      && (forall k <- order :: k in at)
      && (forall k <- at :: k in order)
      && Distinct(order)
    }

    function Put(k: K, v: V): (d: Dict<K, V>)
      requires Valid()
      ensures d.Valid() && d.at == at[k := v]
      ensures d.order == if k in at then order else order + [k]
    {
      Dict(if k in at then order else order + [k], at[k := v])
    }

    function Pop(k: K): (d: Dict<K, V>)
      requires Valid()
      ensures d.Valid() && d.at == at - {k}
      ensures k !in at ==> d.order == order
      ensures k in at ==>
        exists i :: 0 <= i < |order| && order[i] == k && d.order == order[..i] + order[i + 1..]
    {
      WithoutMembers(order, k);
      WithoutDistinct(order, k);
      WithoutInOrder(order, k);
      Dict(Without(order, k), at - {k})
    }

    function Values(): (vs: seq<V>)
      requires Valid()
      ensures |vs| == |order| && forall i :: 0 <= i < |vs| ==> vs[i] == at[order[i]]
    {
      seq(|order|, i requires 0 <= i < |order| => at[order[i]])
    }
  }

  function Without<K(==)>(order: seq<K>, k: K): seq<K> {
    if order == [] then [] else
      var init, last := Without(order[..|order| - 1], k), order[|order| - 1];
      if last == k then init else init + [last]
  }

  lemma WithoutInOrder<K(!new)>(order: seq<K>, k: K)
    requires Distinct(order)
    ensures k !in order ==> Without(order, k) == order
    ensures k in order ==>
      exists i :: 0 <= i < |order| && order[i] == k && Without(order, k) == order[..i] + order[i + 1..]
  {
    if k in order {
      var i :| 0 <= i < |order| && order[i] == k;
      WithoutAt(order, k, i);
    } else {
      WithoutAbsent(order, k);
    }
  }

  lemma {:induction false} WithoutMembers<K(!new)>(order: seq<K>, k: K)
    ensures forall x :: x in Without(order, k) <==> x in order && x != k
  {
    if order != [] {
      var init, last := order[..|order| - 1], order[|order| - 1];
      WithoutMembers(init, k);
      assert order == init + [last];
    }
  }

  /** Removing a key takes it out and leaves the rest in order. */
  lemma {:induction false} WithoutAt<K(!new)>(order: seq<K>, k: K, i: nat)
    requires Distinct(order) && i < |order| && order[i] == k
    ensures Without(order, k) == order[..i] + order[i + 1..]
  {
    var n := |order| - 1;
    if i == n {
      WithoutAbsent(order[..n], k);
    } else {
      WithoutAt(order[..n], k, i);
      assert order[..n][..i] == order[..i];
      assert order[..n][i + 1..] + [order[n]] == order[i + 1..];
    }
  }

  lemma {:induction false} WithoutAbsent<K(!new)>(order: seq<K>, k: K)
    requires k !in order
    ensures Without(order, k) == order
  {
    if order != [] {
      WithoutAbsent(order[..|order| - 1], k);
    }
  }

  lemma {:induction false} WithoutDistinct<K(!new)>(order: seq<K>, k: K)
    requires Distinct(order)
    ensures Distinct(Without(order, k))
  {
    if order != [] {
      var init, last := order[..|order| - 1], order[|order| - 1];
      WithoutDistinct(init, k);
      WithoutMembers(init, k);
      assert forall x <- init :: x != last;
      var rest := Without(init, k);
      assert forall i :: 0 <= i < |rest| ==> rest[i] in rest;
    }
  }

  // ---- cards and queries ----

  datatype Card = Card(agent: AgentId, name: AgentId, capabilities: seq<string>, endpoint: string)

  datatype Query = Query(capabilities: seq<string>, namePattern: Option<AgentId>)

  predicate OccursAt(text: AgentId, part: AgentId, i: int) {
    0 <= i <= |text| - |part| && text[i..i + |part|] == part
  }

  predicate Contains(text: AgentId, part: AgentId) {
    exists i :: 0 <= i <= |text| - |part| && OccursAt(text, part, i)
  }

  predicate Matches(card: Card, query: Query) {
    if query.capabilities != [] &&
       !(forall i :: 0 <= i < |query.capabilities| ==> query.capabilities[i] in card.capabilities) then false
    else !(query.namePattern.Some? && query.namePattern.value != [] && !Contains(card.name, query.namePattern.value))
  }

  /** A pattern matches anywhere in the name; no pattern, an empty pattern and an empty list of
      capabilities ask for nothing. */
  lemma MatchesMeans(card: Card, query: Query)
    ensures Matches(card, query) <==>
      && (forall c :: c in query.capabilities ==> c in card.capabilities)
      && (query.namePattern.Some? ==> exists before, after :: card.name == before + query.namePattern.value + after)
  {
    assert (forall i :: 0 <= i < |query.capabilities| ==> query.capabilities[i] in card.capabilities)
      <==> (forall c :: c in query.capabilities ==> c in card.capabilities);
    if query.namePattern.Some? {
      ContainsMeans(card.name, query.namePattern.value);
      if query.namePattern.value == [] {
        assert card.name == [] + query.namePattern.value + card.name;
      }
    }
  }

  lemma ContainsMeans(text: AgentId, part: AgentId)
    ensures Contains(text, part) <==> exists before, after :: text == before + part + after
  {
    if i :| 0 <= i <= |text| - |part| && OccursAt(text, part, i) {
      assert text == text[..i] + part + text[i + |part|..];
    }
    if before, after :| text == before + part + after {
      assert OccursAt(text, part, |before|);
    }
  }

  function Matching(cards: seq<Card>, query: Query): seq<Card> {
    if cards == [] then [] else
      var init, last := Matching(cards[..|cards| - 1], query), cards[|cards| - 1];
      if Matches(last, query) then init + [last] else init
  }

  // ---- the registry ----

  datatype Error = NotExpressible

  datatype Facts = Facts(did: Did, card: Card)

  /** Whether a card can be projected to discovery facts is the bridge library's decision. */
  type Gate = Card -> bool

  class SmBridgeRegistry {
    const gate: Gate
    var cards: Dict<AgentId, Card>

    ghost predicate Valid()
      reads this
    {
      WellKept(gate, cards)
    }

    constructor (gate: Gate)
      ensures Valid() && this.gate == gate && cards == Dict([], map[])
    {
      this.gate := gate;
      cards := Dict([], map[]);
    }

    method Register(card: Card) returns (r: Result<(), Error>)
      requires Valid()
      modifies this
      ensures Valid()
      ensures r == if gate(card) then Ok(()) else Err(NotExpressible)
      ensures cards == if gate(card) then old(cards).Put(card.agent, card) else old(cards)
    {
      if !gate(card) {
        return Err(NotExpressible);
      }
      cards := cards.Put(card.agent, card);
      r := Ok(());
    }

    method Deregister(agent: AgentId)
      requires Valid()
      modifies this
      ensures Valid() && cards == old(cards).Pop(agent)
    {
      cards := cards.Pop(agent);
    }

    function Lookup(query: Query): (found: seq<Card>)
      requires Valid()
      reads this
      ensures forall card :: card in found <==>
        && card.agent in cards.at && cards.at[card.agent] == card
        && (forall c <- query.capabilities :: c in card.capabilities)
        && (query.namePattern.Some? ==> exists before, after :: card.name == before + query.namePattern.value + after)
    {
      LookupMeans(gate, cards, query);
      Matching(cards.Values(), query)
    }

    function AgentFacts(agent: AgentId): (facts: Option<Facts>)
      requires Valid()
      reads this
      ensures facts.Some? <==> agent in cards.at
      ensures facts.Some? ==> facts.value.did == DidFor(facts.value.card.agent) && facts.value.card == cards.at[agent]
    {
      if agent !in cards.at then None else Some(Facts(DidFor(agent), cards.at[agent]))
    }

    /** Every stored card was accepted by the gate, so projecting it again cannot fail. */
    function Index(): (fs: seq<Facts>)
      requires Valid()
      reads this
      ensures |fs| == |cards.order|
      ensures forall i :: 0 <= i < |fs| ==> Some(fs[i]) == AgentFacts(cards.order[i]) && gate(fs[i].card)
      ensures forall i :: 0 <= i < |fs| ==> fs[i].did == DidFor(cards.order[i]) && fs[i].card.agent == cards.order[i]
    {
      var d := cards;
      seq(|d.order|, i requires 0 <= i < |d.order| => Facts(DidFor(d.order[i]), d.at[d.order[i]]))
    }
  }

  ghost predicate WellKept(gate: Gate, cards: Dict<AgentId, Card>) {
    && cards.Valid()
    && forall a :: a in cards.at ==> cards.at[a].agent == a && gate(cards.at[a])
  }

  lemma LookupMeans(gate: Gate, cards: Dict<AgentId, Card>, query: Query)
    requires WellKept(gate, cards)
    ensures forall card :: card in Matching(cards.Values(), query) <==>
      && card.agent in cards.at && cards.at[card.agent] == card
      && (forall c <- query.capabilities :: c in card.capabilities)
      && (query.namePattern.Some? ==> exists before, after :: card.name == before + query.namePattern.value + after)
  {
    forall card: Card
      ensures card in Matching(cards.Values(), query) <==>
        card.agent in cards.at && cards.at[card.agent] == card && Matches(card, query)
    {
      MatchingMembers(cards.Values(), query, card);
      if card.agent in cards.at && cards.at[card.agent] == card {
        var i :| 0 <= i < |cards.order| && cards.order[i] == card.agent;
        assert cards.Values()[i] == card;
      }
    }
    forall card: Card { MatchesMeans(card, query); }
  }

  // ---- whole runs ----

  datatype Op = Register(card: Card) | Deregister(agent: AgentId)

  function Step(gate: Gate, cards: Dict<AgentId, Card>, op: Op): (cards': Dict<AgentId, Card>)
    requires WellKept(gate, cards)
    ensures WellKept(gate, cards')
  {
    match op
    case Register(card) => if gate(card) then cards.Put(card.agent, card) else cards
    case Deregister(agent) => cards.Pop(agent)
  }

  function Run(gate: Gate, ops: seq<Op>): (cards: Dict<AgentId, Card>)
    ensures WellKept(gate, cards)
  {
    if ops == [] then Dict([], map[]) else Step(gate, Run(gate, ops[..|ops| - 1]), ops[|ops| - 1])
  }

  /** The card an agent is listed with: the last effective word about it. */
  function Listed(gate: Gate, ops: seq<Op>, a: AgentId): Option<Card> {
    if ops == [] then None else
      var op, before := ops[|ops| - 1], Listed(gate, ops[..|ops| - 1], a);
      match op
      case Register(card) => if card.agent == a && gate(card) then Some(card) else before
      case Deregister(agent) => if agent == a then None else before
  }

  lemma {:induction false} RunKeepsLastWord(gate: Gate, ops: seq<Op>, a: AgentId)
    ensures Listed(gate, ops, a) == if a in Run(gate, ops).at then Some(Run(gate, ops).at[a]) else None
  {
    if ops != [] {
      RunKeepsLastWord(gate, ops[..|ops| - 1], a);
    }
  }

  lemma {:induction false} MatchingMembers(cards: seq<Card>, query: Query, card: Card)
    ensures card in Matching(cards, query) <==> card in cards && Matches(card, query)
  {
    if cards != [] {
      var init, last := cards[..|cards| - 1], cards[|cards| - 1];
      MatchingMembers(init, query, card);
      assert cards == init + [last];
    }
  }

  ghost predicate DistinctAgents(cards: seq<Card>) {
    forall i, j :: 0 <= i < j < |cards| ==> cards[i].agent != cards[j].agent
  }

  lemma {:induction false} MatchingOnce(cards: seq<Card>, query: Query)
    requires DistinctAgents(cards)
    ensures DistinctAgents(Matching(cards, query))
  {
    if cards != [] {
      var init, last := cards[..|cards| - 1], cards[|cards| - 1];
      MatchingOnce(init, query);
      var found := Matching(init, query);
      forall i | 0 <= i < |found| ensures found[i].agent != last.agent {
        MatchingMembers(init, query, found[i]);
      }
    }
  }

  /** After any run, lookup returns exactly the cards listed last for their agent that match the
      query, and no agent twice. */
  lemma LookupAfterRun(gate: Gate, ops: seq<Op>, query: Query, card: Card)
    ensures var found := Matching(Run(gate, ops).Values(), query);
      && (card in found <==> Listed(gate, ops, card.agent) == Some(card) && Matches(card, query))
      && DistinctAgents(found)
  {
    var cards := Run(gate, ops);
    RunKeepsLastWord(gate, ops, card.agent);
    MatchingMembers(cards.Values(), query, card);
    MatchingOnce(cards.Values(), query);
    if Listed(gate, ops, card.agent) == Some(card) {
      assert card.agent in cards.order;
      var i :| 0 <= i < |cards.order| && cards.order[i] == card.agent;
      assert cards.Values()[i] == card;
    }
  }

  /** Re-registering leaves an agent at its place in the order. */
  lemma ReRegisterKeepsPlace(gate: Gate, ops: seq<Op>, card: Card)
    requires Listed(gate, ops, card.agent).Some?
    ensures Run(gate, ops + [Register(card)]).order == Run(gate, ops).order
  {
    RunKeepsLastWord(gate, ops, card.agent);
    assert (ops + [Register(card)])[..|ops|] == ops;
  }
}
