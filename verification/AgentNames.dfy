/** The names the scenario factories give their agents. */
module AgentNames {
  import opened Positional
  import opened Crypto
  import Encodings

  const AGENT: seq<byte> := [97, 103, 101, 110, 116, 45]  // "agent-"

  function Agent(i: nat): AgentId {
    AGENT + Encodings.Decimal(i)
  }

  lemma AgentsDistinct(i: nat, j: nat)
    ensures Agent(i) == Agent(j) <==> i == j
  {
    Encodings.DecimalRoundTrip(i);
    Encodings.DecimalRoundTrip(j);
    assert Agent(i)[6..] == Encodings.Decimal(i) && Agent(j)[6..] == Encodings.Decimal(j);
  }

  /** "agent-" and the index. */
  lemma AgentText(i: nat)
    ensures [97, 103, 101, 110, 116, 45] <= Agent(i) && Encodings.FromDecimal(Agent(i)[6..]) == i
  {
    Encodings.DecimalRoundTrip(i);
    assert Agent(i)[6..] == Encodings.Decimal(i);
  }

  /** The scenarios' naming is one of these; nothing they do depends on which. */
  type Naming = nat -> AgentId

  ghost predicate Injective(name: Naming) {
    forall i: nat, j: nat :: name(i) == name(j) ==> i == j
  }

  lemma AgentNaming()
    ensures Injective(Agent)
  {
    forall i: nat, j: nat | Agent(i) == Agent(j) ensures i == j {
      AgentsDistinct(i, j);
    }
  }
}
