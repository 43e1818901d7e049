/** The handshake ring as a message-passing system: every agent presents a token to the next,
    and messages arrive in any order. */
module Handshake {
  import opened Wrappers
  import opened Crypto
  import opened AgentNames
  import opened Auth
  import opened Ensemble

  datatype Payload = Presented(token: Token) | Granted(subject: AgentId, scopes: seq<Scope>)
  datatype Message = Message(to: AgentId, payload: Payload)

  // ---- the agent ----

  function Hello(me: AgentId, peer: AgentId, clock: real): Message {
    Message(peer, Presented(Issued(me, [Read], clock)))
  }

  /** A grant is not answered, a token that fails to verify is ignored, and a verified one is
      answered to its subject when it carries the scope. */
  function Replies(payload: Payload, clock: real, revoked: set<Token>): seq<Message> {
    if payload.Granted? then [] else
      match Judge(payload.token, clock, revoked)
      case Err(_) => []
      case Ok(c) => if Read in c.scopes then [Message(c.subject, Granted(c.subject, c.scopes))] else []
  }

  class AuthAgent {
    const me: AgentId
    const peer: AgentId
    const auth: DidAuth

    constructor (me: AgentId, peer: AgentId, auth: DidAuth)
      ensures this.me == me && this.peer == peer && this.auth == auth
    {
      this.me, this.peer, this.auth := me, peer, auth;
    }

    method OnStart() returns (sent: seq<Message>)
      ensures sent == [Hello(me, peer, auth.clock)]
      ensures |sent| == 1 && sent[0].to == peer && sent[0].payload.Presented?
      ensures SignedFor(sent[0].payload.token, me) && sent[0].payload.token.claims.scopes == [Read]
    {
      var token := auth.Issue(me, [Read]);
      sent := [Message(peer, Presented(token))];
    }

    method OnMessage(payload: Payload) returns (sent: seq<Message>)
      ensures sent == Replies(payload, auth.clock, auth.revoked)
      ensures sent != [] <==>
        && payload.Presented? && payload.token !in auth.revoked && SelfSigned(payload.token)
        && Unexpired(payload.token.claims, auth.clock) && Read in payload.token.claims.scopes
      ensures sent != [] ==>
        var subject := payload.token.claims.sub.value;
        sent == [Message(subject, Granted(subject, payload.token.claims.scopes))]
    {
      sent := [];
      if payload.Granted? {
        return;
      }
      var r := auth.Verify(payload.token);
      if r.Err? {
        return;
      }
      if Read in r.value.scopes {
        sent := [Message(r.value.subject, Granted(r.value.subject, r.value.scopes))];
      }
    }
  }

  // ---- the network ----

  /** n agents in a ring over one auth layer with a fixed clock and nothing revoked. */
  datatype Setup = Setup(n: nat, name: Naming, clock: real) {
    function Token(i: nat): Message
      requires i < n
    {
      Hello(name(i), name((i + 1) % n), clock)
    }

    function Grant(i: nat): Message {
      Message(name(i), Granted(name(i), [Read]))
    }
  }

  /** The peers of the first k of n agents. */
  function Peers(name: Naming, n: nat, k: nat): map<AgentId, AgentId>
    requires k <= n
  {
    if k == 0 then map[] else Peers(name, n, k - 1)[name(k - 1) := name(k % n)]
  }

  method AuthHandshakeFactory(name: Naming, count: nat) returns (peers: map<AgentId, AgentId>)
    ensures peers == Peers(name, count, count)
  {
    peers := map[];
    for i := 0 to count
      invariant peers == Peers(name, count, i)
    {
      peers := peers[name(i) := name((i + 1) % count)];
    }
  }

  lemma {:induction false} NotYetPaired(name: Naming, n: nat, k: nat, i: nat)
    requires Injective(name) && k <= n && k <= i
    ensures name(i) !in Peers(name, n, k)
  {
    if k != 0 {
      NotYetPaired(name, n, k - 1, i);
      assert name(i) == name(k - 1) ==> i == k - 1;
    }
  }

  /** The factory makes as many agents as names. */
  lemma {:induction false} PairedOnce(name: Naming, n: nat, k: nat)
    requires Injective(name) && k <= n
    ensures |Peers(name, n, k)| == k
  {
    if k != 0 {
      PairedOnce(name, n, k - 1);
      NotYetPaired(name, n, k - 1, k - 1);
    }
  }

  /** Each agent presents to the next one round. */
  lemma {:induction false} PairedWithNext(name: Naming, n: nat, k: nat, i: nat)
    requires Injective(name) && i < k <= n
    ensures name(i) in Peers(name, n, k) && Peers(name, n, k)[name(i)] == name((i + 1) % n)
  {
    if i != k - 1 {
      PairedWithNext(name, n, k - 1, i);
      assert name(i) == name(k - 1) ==> i == k - 1;
    }
  }

  /** `asleep` marks the agents yet to start; `got` has one entry per grant received and `met` the
      messages in which tokens were received. */
  datatype Net = Net(asleep: seq<bool>, inFlight: multiset<Message>, sent: nat, got: multiset<AgentId>,
                     met: multiset<Message>)

  datatype Step = Wake(i: nat) | Deliver(m: Message)

  ghost function Start(s: Setup): Net {
    Net(seq(s.n, i => true), multiset{}, 0, multiset{}, multiset{})
  }

  ghost predicate Enabled(net: Net, step: Step) {
    match step
    case Wake(i) => i < |net.asleep| && net.asleep[i]
    case Deliver(m) => m in net.inFlight
  }

  /** What the handler called in a step sends. */
  ghost function Sends(s: Setup, step: Step): seq<Message>
    requires step.Wake? ==> step.i < s.n
  {
    match step
    case Wake(i) => [s.Token(i)]
    case Deliver(m) => Replies(m.payload, s.clock, {})
  }

  ghost function After(net: Net, step: Step, out: seq<Message>): (net': Net)
    requires Enabled(net, step)
    ensures |net'.asleep| == |net.asleep|
  {
    match step
    case Wake(i) => Net(net.asleep[i := false], net.inFlight + multiset(out), net.sent + |out|, net.got, net.met)
    case Deliver(m) =>
      Net(net.asleep, net.inFlight - multiset{m} + multiset(out), net.sent + |out|,
          if m.payload.Granted? then net.got + multiset{m.to} else net.got,
          if m.payload.Presented? then net.met + multiset{m} else net.met)
  }

  ghost function Next(s: Setup, net: Net, step: Step): (net': Net)
    requires |net.asleep| == s.n && Enabled(net, step)
    ensures |net'.asleep| == s.n
  {
    After(net, step, Sends(s, step))
  }

  /** A run: the networks it goes through and the steps between them, each enabled where it is
      taken. */
  ghost predicate IsRun(s: Setup, steps: seq<Step>, nets: seq<Net>) {
    && |nets| == |steps| + 1 && nets[0] == Start(s)
    && forall k :: 0 <= k < |steps| ==> Follows(s, nets[k], steps[k], nets[k + 1])
  }

  ghost predicate Follows(s: Setup, net: Net, step: Step, net': Net) {
    |net.asleep| == s.n && Enabled(net, step) && net' == Next(s, net, step)
  }

  ghost predicate Stuck(net: Net) {
    forall step :: !Enabled(net, step)
  }

  // ---- one agent's progress ----

  datatype Phase = Asleep | Presenting | Granting | Finished {
    function Later(): Phase {
      match this
      case Asleep => Presenting
      case Presenting => Granting
      case Granting => Finished
      case Finished => Finished
    }

    function Done(): nat {
      match this
      case Asleep => 0
      case Presenting => 1
      case Granting => 2
      case Finished => 3
    }

    function Sent(): nat {
      match this
      case Asleep => 0
      case Presenting => 1
      case Granting => 2
      case Finished => 2
    }
  }

  /** What each agent presents, is granted, and is called. */
  datatype Cast = Cast(tokens: seq<Message>, grants: seq<Message>, names: seq<AgentId>)

  ghost predicate WellCast(c: Cast, n: nat) {
    && |c.tokens| == n && |c.grants| == n && |c.names| == n
    && (forall i :: 0 <= i < n ==> c.tokens[i].payload.Presented?)
    && (forall i :: 0 <= i < n ==> c.grants[i].payload.Granted? && c.grants[i].to == c.names[i])
  }

  ghost function TheCast(s: Setup): (c: Cast)
    ensures WellCast(c, s.n)
    ensures forall i :: 0 <= i < s.n ==> c.tokens[i] == s.Token(i)
    ensures forall i :: 0 <= i < s.n ==> c.grants[i] == s.Grant(i)
    ensures forall i :: 0 <= i < s.n ==> c.names[i] == s.name(i)
  {
    Cast(seq(s.n, j requires 0 <= j < s.n => s.Token(j)), seq(s.n, j requires 0 <= j < s.n => s.Grant(j)),
         seq(s.n, j requires 0 <= j < s.n => s.name(j)))
  }

  ghost function InFlight(c: Cast, i: nat, p: Phase): multiset<Message> {
    if p == Presenting && i < |c.tokens| then multiset{c.tokens[i]}
    else if p == Granting && i < |c.grants| then multiset{c.grants[i]}
    else multiset{}
  }

  ghost function Got(c: Cast, i: nat, p: Phase): multiset<AgentId> {
    if p == Finished && i < |c.names| then multiset{c.names[i]} else multiset{}
  }

  ghost function Met(c: Cast, i: nat, p: Phase): multiset<Message> {
    if (p == Granting || p == Finished) && i < |c.tokens| then multiset{c.tokens[i]} else multiset{}
  }

  ghost function Mets(c: Cast, ps: seq<Phase>): seq<multiset<Message>> {
    seq(|ps|, i requires 0 <= i < |ps| => Met(c, i, ps[i]))
  }

  ghost function Flights(c: Cast, ps: seq<Phase>): seq<multiset<Message>> {
    seq(|ps|, i requires 0 <= i < |ps| => InFlight(c, i, ps[i]))
  }

  ghost function Gots(c: Cast, ps: seq<Phase>): seq<multiset<AgentId>> {
    seq(|ps|, i requires 0 <= i < |ps| => Got(c, i, ps[i]))
  }

  ghost function Sents(ps: seq<Phase>): seq<nat> {
    seq(|ps|, i requires 0 <= i < |ps| => ps[i].Sent())
  }

  ghost function Dones(ps: seq<Phase>): seq<nat> {
    seq(|ps|, i requires 0 <= i < |ps| => ps[i].Done())
  }

  /** The network in which every agent is in its phase. */
  ghost predicate Picture(c: Cast, ps: seq<Phase>, net: Net) {
    && AsleepIn(net.asleep, ps)
    && net.inFlight == Union(Flights(c, ps)) && net.got == Union(Gots(c, ps)) && net.sent == Sum(Sents(ps))
    && net.met == Union(Mets(c, ps))
  }

  // ---- one step ----

  /** The step an agent's phase is waiting for, and what is sent in it. */
  ghost function Awaited(c: Cast, i: nat, p: Phase): Step
    requires i < |c.tokens| && i < |c.grants|
  {
    if p == Asleep then Wake(i) else if p == Presenting then Deliver(c.tokens[i]) else Deliver(c.grants[i])
  }

  ghost function Expected(c: Cast, i: nat, p: Phase): seq<Message>
    requires i < |c.tokens| && i < |c.grants|
  {
    if p == Asleep then [c.tokens[i]] else if p == Presenting then [c.grants[i]] else []
  }

  /** A token presented is answered with its grant, and a grant is not answered. */
  lemma SendsExpected(s: Setup, i: nat, p: Phase)
    requires i < s.n
    ensures Sends(s, Awaited(TheCast(s), i, p)) == Expected(TheCast(s), i, p)
  {
    if p == Presenting {
      IssuedVerifies(s.name(i), [Read], s.clock, s.clock, {});
    }
  }

  lemma FlightsMove(c: Cast, ps: seq<Phase>, i: nat, p: Phase)
    requires i < |ps|
    ensures Union(Flights(c, ps[i := p])) + InFlight(c, i, ps[i]) == Union(Flights(c, ps)) + InFlight(c, i, p)
  {
    assert Flights(c, ps[i := p]) == Flights(c, ps)[i := InFlight(c, i, p)];
    UnionUpdate(Flights(c, ps), i, InFlight(c, i, p));
  }

  lemma GotsMove(c: Cast, ps: seq<Phase>, i: nat, p: Phase)
    requires i < |ps|
    ensures Union(Gots(c, ps[i := p])) + Got(c, i, ps[i]) == Union(Gots(c, ps)) + Got(c, i, p)
  {
    assert Gots(c, ps[i := p]) == Gots(c, ps)[i := Got(c, i, p)];
    UnionUpdate(Gots(c, ps), i, Got(c, i, p));
  }

  lemma MetsMoved(c: Cast, ps: seq<Phase>, i: nat, p: Phase, before: multiset<Message>, after: multiset<Message>)
    requires i < |ps| && before == Union(Mets(c, ps))
    requires after + Met(c, i, ps[i]) == before + Met(c, i, p)
    ensures after == Union(Mets(c, ps[i := p]))
  {
    assert Mets(c, ps[i := p]) == Mets(c, ps)[i := Met(c, i, p)];
    UnionUpdate(Mets(c, ps), i, Met(c, i, p));
    Cancel(after, Union(Mets(c, ps[i := p])), Met(c, i, ps[i]));
  }

  lemma CountsMove(ps: seq<Phase>, i: nat, p: Phase)
    requires i < |ps|
    ensures Sum(Sents(ps[i := p])) + ps[i].Sent() == Sum(Sents(ps)) + p.Sent()
    ensures Sum(Dones(ps[i := p])) + ps[i].Done() == Sum(Dones(ps)) + p.Done()
  {
    assert Sents(ps[i := p]) == Sents(ps)[i := p.Sent()];
    SumUpdate(Sents(ps), i, p.Sent());
    assert Dones(ps[i := p]) == Dones(ps)[i := p.Done()];
    SumUpdate(Dones(ps), i, p.Done());
  }

  lemma FlightsMoved(c: Cast, ps: seq<Phase>, i: nat, p: Phase, before: multiset<Message>, after: multiset<Message>)
    requires i < |ps| && before == Union(Flights(c, ps))
    requires after + InFlight(c, i, ps[i]) == before + InFlight(c, i, p)
    ensures after == Union(Flights(c, ps[i := p]))
  {
    FlightsMove(c, ps, i, p);
    Cancel(after, Union(Flights(c, ps[i := p])), InFlight(c, i, ps[i]));
  }

  lemma GotsMoved(c: Cast, ps: seq<Phase>, i: nat, p: Phase, before: multiset<AgentId>, after: multiset<AgentId>)
    requires i < |ps| && before == Union(Gots(c, ps))
    requires after + Got(c, i, ps[i]) == before + Got(c, i, p)
    ensures after == Union(Gots(c, ps[i := p]))
  {
    GotsMove(c, ps, i, p);
    Cancel(after, Union(Gots(c, ps[i := p])), Got(c, i, ps[i]));
  }

  /** A net that differs by what one agent's next phase makes is the picture after it. */
  lemma Moved(c: Cast, ps: seq<Phase>, i: nat, net: Net, net': Net)
    requires i < |ps| && Picture(c, ps, net) && ps[i] != Finished
    requires net'.asleep == net.asleep[i := false]
    requires net'.inFlight + InFlight(c, i, ps[i]) == net.inFlight + InFlight(c, i, ps[i].Later())
    requires net'.got + Got(c, i, ps[i]) == net.got + Got(c, i, ps[i].Later())
    requires net'.met + Met(c, i, ps[i]) == net.met + Met(c, i, ps[i].Later())
    requires net'.sent + ps[i].Sent() == net.sent + ps[i].Later().Sent()
    ensures Picture(c, ps[i := ps[i].Later()], net')
  {
    var p := ps[i].Later();
    FlightsMoved(c, ps, i, p, net.inFlight, net'.inFlight);
    GotsMoved(c, ps, i, p, net.got, net'.got);
    MetsMoved(c, ps, i, p, net.met, net'.met);
    SentsMoved(ps, i, p, net.sent, net'.sent);
    AsleepMoved(ps, i, p, net.asleep, net'.asleep);
  }

  lemma SentsMoved(ps: seq<Phase>, i: nat, p: Phase, before: nat, after: nat)
    requires i < |ps| && before == Sum(Sents(ps)) && after + ps[i].Sent() == before + p.Sent()
    ensures after == Sum(Sents(ps[i := p]))
  {
    CountsMove(ps, i, p);
  }

  ghost predicate AsleepIn(asleep: seq<bool>, ps: seq<Phase>) {
    |asleep| == |ps| && forall i :: 0 <= i < |ps| ==> (asleep[i] <==> ps[i] == Asleep)
  }

  lemma AsleepMoved(ps: seq<Phase>, i: nat, p: Phase, before: seq<bool>, after: seq<bool>)
    requires i < |ps| && AsleepIn(before, ps) && p != Asleep && after == before[i := false]
    ensures AsleepIn(after, ps[i := p])
  {
  }

  lemma Waiting(c: Cast, ps: seq<Phase>, i: nat, net: Net)
    requires WellCast(c, |ps|) && i < |ps| && Picture(c, ps, net) && ps[i] != Finished
    ensures InFlight(c, i, ps[i]) <= net.inFlight
    ensures Enabled(net, Awaited(c, i, ps[i]))
  {
    PartOfUnion(Flights(c, ps), i);
    assert Flights(c, ps)[i] == InFlight(c, i, ps[i]);
    assert ps[i] == Presenting ==> c.tokens[i] in InFlight(c, i, ps[i]);
    assert ps[i] == Granting ==> c.grants[i] in InFlight(c, i, ps[i]);
  }

  /** The three moves: an agent starts, its token is answered, its grant arrives. */
  lemma Starts(c: Cast, ps: seq<Phase>, i: nat, net: Net)
    requires WellCast(c, |ps|) && i < |ps| && Picture(c, ps, net) && ps[i] == Asleep
    ensures Picture(c, ps[i := Presenting], After(net, Wake(i), [c.tokens[i]]))
  {
    var net' := After(net, Wake(i), [c.tokens[i]]);
    assert net'.inFlight == net.inFlight + multiset{c.tokens[i]};
    Moved(c, ps, i, net, net');
  }

  lemma TokenDelivered(net: Net, token: Message, grant: Message)
    requires token in net.inFlight && token.payload.Presented?
    ensures var net' := After(net, Deliver(token), [grant]);
      && net'.inFlight + multiset{token} == net.inFlight + multiset{grant}
      && net'.got == net.got && net'.asleep == net.asleep && net'.sent == net.sent + 1
      && net'.met == net.met + multiset{token}
  {
    assert multiset([grant]) == multiset{grant};
    Swap(net.inFlight, token, multiset{grant});
  }

  lemma GrantDelivered(net: Net, grant: Message)
    requires grant in net.inFlight && grant.payload.Granted?
    ensures var net' := After(net, Deliver(grant), []);
      && net'.inFlight + multiset{grant} == net.inFlight
      && net'.got == net.got + multiset{grant.to} && net'.asleep == net.asleep && net'.sent == net.sent
      && net'.met == net.met
  {
    Swap(net.inFlight, grant, multiset{});
  }

  lemma Answers(c: Cast, ps: seq<Phase>, i: nat, net: Net)
    requires WellCast(c, |ps|) && i < |ps| && Picture(c, ps, net) && ps[i] == Presenting
    requires c.tokens[i] in net.inFlight
    ensures Picture(c, ps[i := Granting], After(net, Deliver(c.tokens[i]), [c.grants[i]]))
  {
    var net' := After(net, Deliver(c.tokens[i]), [c.grants[i]]);
    TokenCounted(c, |ps|, i, net, net');
    assert net.asleep[i := false] == net.asleep;
    Moved(c, ps, i, net, net');
  }

  /** The answer to a token as a difference in the agent's part of the network. */
  lemma TokenCounted(c: Cast, n: nat, i: nat, net: Net, net': Net)
    requires WellCast(c, n) && i < n && c.tokens[i] in net.inFlight
    requires net' == After(net, Deliver(c.tokens[i]), [c.grants[i]])
    ensures net'.inFlight + InFlight(c, i, Presenting) == net.inFlight + InFlight(c, i, Granting)
    ensures net'.got + Got(c, i, Presenting) == net.got + Got(c, i, Granting)
    ensures net'.met + Met(c, i, Presenting) == net.met + Met(c, i, Granting)
    ensures net'.asleep == net.asleep && net'.sent == net.sent + 1
  {
    TokenDelivered(net, c.tokens[i], c.grants[i]);
  }

  /** The arrival of a grant as a difference in the agent's part of the network. */
  lemma GrantCounted(c: Cast, n: nat, i: nat, net: Net, net': Net)
    requires WellCast(c, n) && i < n && c.grants[i] in net.inFlight
    requires net' == After(net, Deliver(c.grants[i]), [])
    ensures net'.inFlight + InFlight(c, i, Granting) == net.inFlight + InFlight(c, i, Finished)
    ensures net'.got + Got(c, i, Granting) == net.got + Got(c, i, Finished)
    ensures net'.met + Met(c, i, Granting) == net.met + Met(c, i, Finished)
    ensures net'.asleep == net.asleep && net'.sent == net.sent
  {
    GrantDelivered(net, c.grants[i]);
  }

  lemma Arrives(c: Cast, ps: seq<Phase>, i: nat, net: Net)
    requires WellCast(c, |ps|) && i < |ps| && Picture(c, ps, net) && ps[i] == Granting
    requires c.grants[i] in net.inFlight
    ensures Picture(c, ps[i := Finished], After(net, Deliver(c.grants[i]), []))
  {
    var net' := After(net, Deliver(c.grants[i]), []);
    GrantCounted(c, |ps|, i, net, net');
    assert net.asleep[i := false] == net.asleep;
    Moved(c, ps, i, net, net');
  }

  lemma MoveOn(c: Cast, ps: seq<Phase>, i: nat, net: Net)
    requires WellCast(c, |ps|) && i < |ps| && Picture(c, ps, net) && ps[i] != Finished
    ensures Enabled(net, Awaited(c, i, ps[i]))
    ensures Picture(c, ps[i := ps[i].Later()], After(net, Awaited(c, i, ps[i]), Expected(c, i, ps[i])))
  {
    Waiting(c, ps, i, net);
    if ps[i] == Asleep {
      Starts(c, ps, i, net);
    } else if ps[i] == Presenting {
      Answers(c, ps, i, net);
    } else {
      Arrives(c, ps, i, net);
    }
  }

  lemma WhoSent(c: Cast, i: nat, p: Phase, m: Message)
    requires i < |c.tokens| && i < |c.grants| && m in InFlight(c, i, p)
    ensures p != Finished && Deliver(m) == Awaited(c, i, p)
  {
  }

  lemma WhoMoves(c: Cast, ps: seq<Phase>, net: Net, step: Step)
    requires WellCast(c, |ps|) && Picture(c, ps, net) && Enabled(net, step)
    ensures exists i: nat :: i < |ps| && ps[i] != Finished && step == Awaited(c, i, ps[i])
  {
    if step.Wake? {
      assert step == Awaited(c, step.i, ps[step.i]);
    } else {
      UnionHasSource(Flights(c, ps), step.m);
      var i: nat :| i < |ps| && step.m in Flights(c, ps)[i];
      WhoSent(c, i, ps[i], step.m);
    }
  }

  /** Some phases of the agents add up to the network and to the steps taken. */
  ghost predicate Progress(c: Cast, ps: seq<Phase>, net: Net, steps: nat) {
    WellCast(c, |ps|) && Picture(c, ps, net) && Sum(Dones(ps)) == steps
  }

  ghost predicate Reached(c: Cast, n: nat, net: Net, steps: nat) {
    exists ps: seq<Phase> :: |ps| == n && Progress(c, ps, net, steps)
  }

  lemma OneMoves(c: Cast, ps: seq<Phase>, net: Net, i: nat, steps: nat)
    requires Progress(c, ps, net, steps) && i < |ps| && ps[i] != Finished
    ensures Enabled(net, Awaited(c, i, ps[i]))
    ensures Progress(c, ps[i := ps[i].Later()], After(net, Awaited(c, i, ps[i]), Expected(c, i, ps[i])), steps + 1)
  {
    MoveOn(c, ps, i, net);
    CountsMove(ps, i, ps[i].Later());
  }

  /** Every step moves exactly one agent one phase on. */
  lemma StepMovesOne(s: Setup, ps: seq<Phase>, net: Net, step: Step, net': Net, steps: nat)
    requires |ps| == s.n && Progress(TheCast(s), ps, net, steps) && Follows(s, net, step, net')
    ensures exists i: nat ::
      i < |ps| && ps[i] != Finished && Progress(TheCast(s), ps[i := ps[i].Later()], net', steps + 1)
  {
    var c := TheCast(s);
    WhoMoves(c, ps, net, step);
    var i: nat :| i < |ps| && ps[i] != Finished && step == Awaited(c, i, ps[i]);
    SendsExpected(s, i, ps[i]);
    OneMoves(c, ps, net, i, steps);
  }

  ghost predicate ReachedIn(s: Setup, net: Net, steps: nat) {
    Reached(TheCast(s), s.n, net, steps)
  }

  lemma FollowsReached(s: Setup, net: Net, step: Step, net': Net, steps: nat)
    requires ReachedIn(s, net, steps) && Follows(s, net, step, net')
    ensures ReachedIn(s, net', steps + 1)
  {
    var ps: seq<Phase> :| |ps| == s.n && Progress(TheCast(s), ps, net, steps);
    StepMovesOne(s, ps, net, step, net', steps);
  }

  // ---- whole runs ----

  lemma AtStart(s: Setup)
    ensures ReachedIn(s, Start(s), 0)
  {
    var ps, c := seq(s.n, i => Asleep), TheCast(s);
    UnionOfNothing(Flights(c, ps));
    UnionOfNothing(Gots(c, ps));
    UnionOfNothing(Mets(c, ps));
    SumOfSame(Sents(ps), 0);
    SumOfSame(Dones(ps), 0);
    assert Progress(c, ps, Start(s), 0);
  }

  lemma FollowsAt(s: Setup, steps: seq<Step>, nets: seq<Net>, k: nat)
    requires IsRun(s, steps, nets) && k < |steps|
    ensures Follows(s, nets[k], steps[k], nets[k + 1])
  {
  }

  /** Every network of a run is a picture of agents in phases, with one unit of progress per step. */
  lemma {:induction false} RunIsPicture(s: Setup, steps: seq<Step>, nets: seq<Net>, k: nat)
    requires IsRun(s, steps, nets) && k <= |steps|
    ensures ReachedIn(s, nets[k], k)
  {
    if k == 0 {
      AtStart(s);
    } else {
      var j := k - 1;
      RunIsPicture(s, steps, nets, j);
      FollowsAt(s, steps, nets, j);
      FollowsReached(s, nets[j], steps[j], nets[j + 1], j);
    }
  }

  lemma SomeoneCanMove(c: Cast, ps: seq<Phase>, net: Net, steps: nat)
    requires Progress(c, ps, net, steps) && steps != 3 * |ps|
    ensures !Stuck(net)
  {
    var i := SomeoneUnfinished(ps);
    Waiting(c, ps, i, net);
  }

  lemma SomeoneUnfinished(ps: seq<Phase>) returns (i: nat)
    requires Sum(Dones(ps)) != 3 * |ps|
    ensures i < |ps| && ps[i] != Finished
  {
    SumBounded(Dones(ps), 3);
    i :| i < |ps| && Dones(ps)[i] != 3;
  }

  lemma BoundedProgress(ps: seq<Phase>)
    ensures Sum(Dones(ps)) <= 3 * |ps| && Sum(Sents(ps)) <= 2 * |ps|
  {
    SumBounded(Dones(ps), 3);
    SumBounded(Sents(ps), 2);
  }

  lemma AllFinished(ps: seq<Phase>)
    requires Sum(Dones(ps)) == 3 * |ps|
    ensures Everyone(ps, Finished)
  {
    SumBounded(Dones(ps), 3);
    forall j | 0 <= j < |ps| ensures ps[j] == Finished {
      assert Dones(ps)[j] == 3;
    }
  }

  ghost predicate Everyone(ps: seq<Phase>, p: Phase) {
    forall j :: 0 <= j < |ps| ==> ps[j] == p
  }

  lemma NothingUnderWay(c: Cast, ps: seq<Phase>)
    requires Everyone(ps, Finished)
    ensures Union(Flights(c, ps)) == multiset{} && Sum(Sents(ps)) == 2 * |ps|
  {
    UnionOfNothing(Flights(c, ps));
    SumOfSame(Sents(ps), 2);
  }

  lemma OneGrantEach(c: Cast, ps: seq<Phase>, i: nat)
    requires WellCast(c, |ps|) && Everyone(ps, Finished) && NamesApart(c) && i < |ps|
    ensures Union(Gots(c, ps))[c.names[i]] == 1
  {
    UnionOfSingles(Gots(c, ps), c.names, i);
  }

  lemma GrantsInAll(c: Cast, ps: seq<Phase>)
    requires WellCast(c, |ps|) && Everyone(ps, Finished)
    ensures |Union(Gots(c, ps))| == |ps|
  {
    UnionSize(Gots(c, ps));
  }

  lemma TokensInAll(c: Cast, ps: seq<Phase>)
    requires WellCast(c, |ps|) && Sum(Dones(ps)) == 3 * |ps|
    ensures |Union(Mets(c, ps))| == |ps|
  {
    AllFinished(ps);
    UnionSize(Mets(c, ps));
  }

  lemma OneTokenEach(c: Cast, ps: seq<Phase>, i: nat)
    requires WellCast(c, |ps|) && Everyone(ps, Finished) && TokensApart(c) && i < |ps|
    ensures Union(Mets(c, ps))[c.tokens[i]] == 1
    ensures forall m :: m in Union(Mets(c, ps)) && m.to == c.tokens[i].to ==> m == c.tokens[i]
  {
    UnionOfSingles(Mets(c, ps), c.tokens, i);
    forall m | m in Union(Mets(c, ps)) && m.to == c.tokens[i].to ensures m == c.tokens[i] {
      UnionHasSource(Mets(c, ps), m);
      var j: nat :| j < |ps| && m in Mets(c, ps)[j];
      assert m == c.tokens[j];
    }
  }

  /** No two agents present to the same one. */
  ghost predicate TokensApart(c: Cast) {
    forall j, k :: 0 <= j < k < |c.tokens| ==> c.tokens[j].to != c.tokens[k].to
  }

  lemma NextRound(i: nat, n: nat)
    requires i < n
    ensures (i + 1) % n == if i + 1 == n then 0 else i + 1
  {
  }

  lemma TokensAreApart(s: Setup, c: Cast)
    requires Injective(s.name) && c == TheCast(s)
    ensures TokensApart(c)
  {
    forall j, k | 0 <= j < k < |c.tokens| ensures c.tokens[j].to != c.tokens[k].to {
      NextRound(j, s.n);
      NextRound(k, s.n);
      var to, to' := (j + 1) % s.n, (k + 1) % s.n;
      assert s.name(to) == s.name(to') ==> to == to';
    }
  }

  /** An agent received one token and no other, and another agent signed it. */
  ghost predicate ReceivedOnce(met: multiset<Message>, to: AgentId, from: AgentId) {
    exists m :: met[m] == 1 && m.to == to && TokenOf(m, from) && forall m' :: m' in met && m'.to == to ==> m' == m
  }

  ghost predicate TokenOf(m: Message, from: AgentId) {
    m.payload.Presented? && SignedFor(m.payload.token, from)
  }

  /** When everyone is finished each agent has received the token of the one before. */
  lemma TokensReceived(s: Setup, ps: seq<Phase>, net: Net, i: nat)
    requires Injective(s.name) && |ps| == s.n && i < s.n
    requires Picture(TheCast(s), ps, net) && Sum(Dones(ps)) == 3 * |ps|
    ensures ReceivedOnce(net.met, s.name((i + 1) % s.n), s.name(i))
  {
    var c := TheCast(s);
    AllFinished(ps);
    TokensAreApart(s, c);
    OneTokenEach(c, ps, i);
    assert TokenOf(c.tokens[i], s.name(i));
  }

  lemma NobodyMoves(net: Net)
    requires net.inFlight == multiset{} && true !in net.asleep
    ensures Stuck(net)
  {
    forall step ensures !Enabled(net, step) {
    }
  }

  /** When everyone is finished nothing is under way and each name has one grant. */
  lemma EveryoneFinished(c: Cast, ps: seq<Phase>, net: Net)
    requires WellCast(c, |ps|) && Picture(c, ps, net) && Sum(Dones(ps)) == 3 * |ps| && NamesApart(c)
    ensures Stuck(net) && net.inFlight == multiset{} && net.sent == 2 * |ps| && |net.got| == |ps|
    ensures forall i :: 0 <= i < |ps| ==> net.got[c.names[i]] == 1
  {
    AllFinished(ps);
    NothingUnderWay(c, ps);
    NobodyMoves(net);
    GrantsInAll(c, ps);
    forall i | 0 <= i < |ps| ensures net.got[c.names[i]] == 1 {
      OneGrantEach(c, ps, i);
    }
  }

  ghost predicate NamesApart(c: Cast) {
    forall j, k :: 0 <= j < k < |c.names| ==> c.names[j] != c.names[k]
  }

  lemma ProgressMeans(c: Cast, ps: seq<Phase>, net: Net, steps: nat)
    requires Progress(c, ps, net, steps) && NamesApart(c)
    ensures steps <= 3 * |ps| && net.sent <= 2 * |ps|
    ensures Stuck(net) <==> steps == 3 * |ps|
    ensures steps == 3 * |ps| ==>
      && net.sent == 2 * |ps| && net.inFlight == multiset{} && |net.got| == |ps|
      && forall i :: 0 <= i < |ps| ==> net.got[c.names[i]] == 1
  {
    BoundedProgress(ps);
    if steps == 3 * |ps| {
      EveryoneFinished(c, ps, net);
    } else {
      SomeoneCanMove(c, ps, net, steps);
    }
  }

  /** Under every order of starts and deliveries: a run has at most 3n steps and can go on
      exactly while it has fewer; no more than 2n messages are ever sent; and when nothing more
      can happen exactly 2n were sent, none is under way, and each agent has got one grant. */
  lemma HandshakeCompletes(s: Setup, steps: seq<Step>, nets: seq<Net>)
    requires Injective(s.name) && IsRun(s, steps, nets)
    ensures |steps| <= 3 * s.n
    ensures nets[|steps|].sent <= 2 * s.n
    ensures Stuck(nets[|steps|]) <==> |steps| == 3 * s.n
    ensures Stuck(nets[|steps|]) ==>
      var net := nets[|steps|];
      && net.sent == 2 * s.n && net.inFlight == multiset{}
      && |net.got| == s.n && forall i: nat :: i < s.n ==> net.got[s.name(i)] == 1
  {
    var c, net := TheCast(s), nets[|steps|];
    RunIsPicture(s, steps, nets, |steps|);
    var ps: seq<Phase> :| |ps| == s.n && Progress(c, ps, net, |steps|);
    NamesAreApart(s, c);
    ProgressMeans(c, ps, net, |steps|);
    assert forall i: nat :: i < s.n ==> c.names[i] == s.name(i);
  }

  /** When nothing more can happen each agent has received exactly one token, signed by the agent
      before it. */
  lemma EveryoneMeets(s: Setup, steps: seq<Step>, nets: seq<Net>, i: nat)
    requires Injective(s.name) && IsRun(s, steps, nets) && Stuck(nets[|steps|]) && i < s.n
    ensures |nets[|steps|].met| == s.n
    ensures ReceivedOnce(nets[|steps|].met, s.name((i + 1) % s.n), s.name(i))
  {
    var c, net := TheCast(s), nets[|steps|];
    HandshakeCompletes(s, steps, nets);
    RunIsPicture(s, steps, nets, |steps|);
    var ps: seq<Phase> :| |ps| == s.n && Progress(c, ps, net, |steps|);
    TokensInAll(c, ps);
    TokensReceived(s, ps, net, i);
  }

  lemma NamesAreApart(s: Setup, c: Cast)
    requires Injective(s.name) && c == TheCast(s)
    ensures NamesApart(c)
  {
    forall j, k | 0 <= j < k < |c.names| ensures c.names[j] != c.names[k] {
      assert s.name(j) == s.name(k) ==> j == k;
    }
  }

  lemma OneMoreStep(s: Setup, steps: seq<Step>, nets: seq<Net>, step: Step, net': Net)
    requires IsRun(s, steps, nets) && Follows(s, nets[|steps|], step, net')
    ensures IsRun(s, steps + [step], nets + [net'])
  {
    var steps', nets' := steps + [step], nets + [net'];
    forall k | 0 <= k < |steps'| ensures Follows(s, nets'[k], steps'[k], nets'[k + 1]) {
      assert k < |steps| ==> Follows(s, nets[k], steps[k], nets[k + 1]);
    }
  }

  /** Every run can be carried on to one of exactly 3n steps. */
  lemma {:induction false} EveryRunCanFinish(s: Setup, steps: seq<Step>, nets: seq<Net>)
    requires Injective(s.name) && IsRun(s, steps, nets)
    ensures exists steps', nets' :: IsRun(s, steps', nets') && steps <= steps' && |steps'| == 3 * s.n
    decreases 3 * s.n - |steps|
  {
    HandshakeCompletes(s, steps, nets);
    if |steps| < 3 * s.n {
      var net := nets[|steps|];
      var step :| Enabled(net, step);
      AgentsKept(s, steps, nets);
      OneMoreStep(s, steps, nets, step, Next(s, net, step));
      EveryRunCanFinish(s, steps + [step], nets + [Next(s, net, step)]);
    }
  }

  lemma AgentsKept(s: Setup, steps: seq<Step>, nets: seq<Net>)
    requires IsRun(s, steps, nets)
    ensures |nets[|steps|].asleep| == s.n
  {
    if steps != [] {
      assert Follows(s, nets[|steps| - 1], steps[|steps| - 1], nets[(|steps| - 1) + 1]);
    }
  }
}
