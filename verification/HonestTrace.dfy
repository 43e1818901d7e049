/** Honest signers as generators of traces, and exactly when the validator passes them. */
module HonestTrace {
  import opened Wrappers
  import opened Positional
  import opened Crypto
  import opened KeyHistory
  import opened Identity
  import IR = IdentityRuns
  import opened Ensemble
  import opened Validator
  import opened ValidatorLaws

  const PRE: seq<byte> := [45, 112, 114, 101]         // "-pre"
  const POST: seq<byte> := [45, 112, 111, 115, 116]   // "-post"

  // ---- the two handlers ----

  /** The events of sending one signed message; none when signing raises. */
  function SignedEvents(s: State, body: seq<byte>): seq<Event>
    requires WellFormed(s)
  {
    match SignWith(s, body, None)
    case Ok(sig) => [Event(s.clock, true, SignedMsg(s.owner.id, body, sig.value))]
    case Err(_) => []
  }

  function StartEvents(s: State): seq<Event>
    requires WellFormed(s)
  {
    var me, recs := s.owner.id, s.records[s.owner.id];
    var r := recs[Active(recs)];
    [Event(s.clock, true, IdentityMsg(me, r.Id(), r.key, s.clock))] + SignedEvents(s, me + PRE)
  }

  /** State and events after a rotate signal, from the state with the clock already moved. */
  function SignalEffect(s: State): (r: (State, seq<Event>))
    requires WellFormed(s)
    ensures WellFormed(r.0)
  {
    match RotateState(s)
    case Err(_) => (s, [])
    case Ok(s') => (s', [Event(s.clock, true, RotationMsg(s'.last.value))] + SignedEvents(s', s.owner.id + POST))
  }

  class HonestSigner {
    const peer: AgentId
    const rotateAt: Tick

    constructor (peer: AgentId, rotateAt: Tick)
      ensures this.peer == peer && this.rotateAt == rotateAt
    {
      this.peer, this.rotateAt := peer, rotateAt;
    }

    /** Announces the initial key, signs once and asks to be woken for the rotation. */
    method OnStart(identity: RotatingIdentity, now: Tick) returns (out: seq<Event>, wake: Tick)
      requires identity.Valid()
      modifies identity
      ensures identity.Valid() && identity.View() == old(identity.View()).(clock := now)
      ensures WellFormed(identity.View()) && out == StartEvents(identity.View())
      ensures identity.repr == old(identity.repr) && wake == rotateAt
    {
      identity.AdvanceTo(now);
      var me := identity.owner.id;
      var record, i := identity.ActiveRecord(me);
      assert identity.Placed(record, me, i);
      out := [Event(now, true, IdentityMsg(me, IdOf(record.key), record.key, now))];
      var sig := identity.Sign(me + PRE, None);
      if sig.Ok? {
        out := out + [Event(now, true, SignedMsg(me, me + PRE, sig.value.value))];
      }
      wake := rotateAt;
    }

    /** On the rotate signal: rotate, announce, sign with the new key. */
    method OnMessage(identity: RotatingIdentity, now: Tick, isRotateSignal: bool) returns (out: seq<Event>)
      requires identity.Valid()
      modifies identity, identity.repr
      ensures identity.Valid() && old(WellFormed(identity.View()))
      ensures !isRotateSignal ==> out == [] && identity.View() == old(identity.View())
      ensures isRotateSignal ==>
        var effect := SignalEffect(old(identity.View()).(clock := now));
        identity.View() == effect.0 && out == effect.1
    {
      ViewWellFormed(identity);
      out := [];
      if isRotateSignal {
        identity.AdvanceTo(now);
        ViewWellFormed(identity);
        ghost var s := identity.View();
        assert s == old(identity.View()).(clock := now);
        var rotated := identity.RotateKey();
        if rotated.Ok? {
          out := [Event(now, true, RotationMsg(identity.lastRotation.value))];
          var me := identity.owner.id;
          var sig := identity.Sign(me + POST, None);
          if sig.Ok? {
            out := out + [Event(now, true, SignedMsg(me, me + POST, sig.value.value))];
          }
        }
      }
    }
  }

  // ---- runs of any number of signers ----

  /** What happens in a run, in order: a signer starts, a signer receives a rotate signal, or
      the trace gains an event that is not one of ours. */
  datatype Signal = Start(agent: AgentId, t: real) | Rotate(agent: AgentId, t: real) | Other(event: Event)

  /** An identity as wired by the factory: every other agent's first key is registered. */
  function Wired(seed: seq<byte>, ids: seq<AgentId>, a: AgentId): (s: State)
    ensures WellFormed(s) && s.owner == Owner(seed, a)
  {
    if ids == [] then Initial(Owner(seed, a)) else
      var s, b := Wired(seed, ids[..|ids| - 1], a), ids[|ids| - 1];
      if b == a then s else RegisterState(s, b, Owner(seed, b).Key(0))
  }

  lemma {:induction false} WiredKnowsEveryFirstKey(seed: seq<byte>, ids: seq<AgentId>, a: AgentId, b: AgentId)
    ensures RecordsOf(Wired(seed, ids, a), b) ==
      if b == a then Chain(Owner(seed, a), [], true)
      else if b in ids then Chain(Owner(seed, b), [], false)
      else []
    ensures Wired(seed, ids, a).count == 0
  {
    if ids == [] {
      assert Chain(Owner(seed, a), [], true) == [Record(Owner(seed, a).Key(0), At(0.0), Infinity, true)];
    } else {
      WiredKnowsEveryFirstKey(seed, ids[..|ids| - 1], a, b);
      assert ids == ids[..|ids| - 1] + [ids[|ids| - 1]];
      assert Chain(Owner(seed, b), [], false) == [Record(Owner(seed, b).Key(0), At(0.0), Infinity, false)];
    }
  }

  function SignerState(seed: seq<byte>, ids: seq<AgentId>, schedule: seq<Signal>, a: AgentId): (s: State)
    ensures WellFormed(s)
  {
    if schedule == [] then Wired(seed, ids, a) else
      var s := SignerState(seed, ids, schedule[..|schedule| - 1], a);
      match schedule[|schedule| - 1]
      case Start(b, t) => if b == a then s.(clock := At(t)) else s
      case Rotate(b, t) => if b == a then SignalEffect(s.(clock := At(t))).0 else s
      case Other(_) => s
  }

  function Emitted(seed: seq<byte>, ids: seq<AgentId>, before: seq<Signal>, signal: Signal): seq<Event> {
    match signal
    case Start(a, t) => StartEvents(SignerState(seed, ids, before, a).(clock := At(t)))
    case Rotate(a, t) => SignalEffect(SignerState(seed, ids, before, a).(clock := At(t))).1
    case Other(e) => [e]
  }

  function Trace(seed: seq<byte>, ids: seq<AgentId>, schedule: seq<Signal>): seq<Event> {
    if schedule == [] then [] else
      var init := schedule[..|schedule| - 1];
      Trace(seed, ids, init) + Emitted(seed, ids, init, schedule[|schedule| - 1])
  }

  /** Start tick and rotation ticks of an agent. */
  function TicksFor(schedule: seq<Signal>, a: AgentId): seq<real> {
    if schedule == [] then [] else
      var last := schedule[|schedule| - 1];
      TicksFor(schedule[..|schedule| - 1], a) +
        if !last.Other? && last.agent == a then [last.t] else []
  }

  /** A signer starts once, at a tick from 0 on, before any of its rotate signals. */
  ghost predicate MayCome(before: seq<Signal>, signal: Signal) {
    && (signal.Start? ==> 0.0 <= signal.t && TicksFor(before, signal.agent) == [])
    && (signal.Rotate? ==> TicksFor(before, signal.agent) != [])
    && (signal.Other? ==> !signal.event.emitting || signal.event.msg.Foreign?)
  }

  ghost predicate Proper(schedule: seq<Signal>) {
    schedule == [] ||
      (Proper(schedule[..|schedule| - 1]) && MayCome(schedule[..|schedule| - 1], schedule[|schedule| - 1]))
  }

  function Rotations(ticks: seq<real>): seq<real> {
    if ticks == [] then [] else ticks[1..]
  }

  /** Signature number j of an honest signer, made at tick t. */
  function SignedBy(o: Owner, j: nat, t: real): Event {
    var body := o.id + if j == 0 then PRE else POST;
    Event(At(t), true, SignedMsg(o.id, body,
      Envelope(IdOf(o.Key(j)), At(t), MadeBy(o.Key(j), Stamped(body, IdOf(o.Key(j)), At(t))))))
  }

  ghost predicate IsChainState(s: State, o: Owner, rotations: seq<real>) {
    && WellFormed(s) && s.owner == o && s.count == |rotations|
    && s.records[o.id] == Chain(o, rotations, true)
  }

  lemma SignsWithLastKey(s: State, o: Owner, rotations: seq<real>, body: seq<byte>, t: real)
    requires IsChainState(s, o, rotations) && s.clock == At(t)
    ensures var k := o.Key(|rotations|);
      SignedEvents(s, body) == [Event(At(t), true, SignedMsg(o.id, body,
        Envelope(IdOf(k), At(t), MadeBy(k, Stamped(body, IdOf(k), At(t))))))]
    ensures s.records[o.id][Active(s.records[o.id])].key == o.Key(|rotations|)
  {
    ActiveOfChain(o, rotations, true);
    assert s.records[o.id][|rotations|] == ChainRecord(o, rotations, true, |rotations|);
  }

  lemma SignalOnChain(s: State, o: Owner, rotations: seq<real>, t: real)
    requires IsChainState(s, o, rotations) && s.clock == At(t)
    ensures IsChainState(SignalEffect(s).0, o, rotations + [t])
    ensures SignalEffect(s).1 ==
      [Event(At(t), true, RotationMsg(AnnounceAt(o, |rotations|, t))), SignedBy(o, |rotations| + 1, t)]
  {
    IR.StepOnSelf(s, IR.Rotate, rotations, t);
    var s' := IR.Step(s, IR.Rotate);
    ActiveOfChain(o, rotations, true);
    assert s.records[o.id][|rotations|] == ChainRecord(o, rotations, true, |rotations|);
    SignsWithLastKey(s', o, rotations + [t], o.id + POST, t);
  }

  lemma {:induction false} SignerIsChain(seed: seq<byte>, ids: seq<AgentId>, schedule: seq<Signal>, a: AgentId)
    requires Proper(schedule)
    ensures IsChainState(SignerState(seed, ids, schedule, a), Owner(seed, a), Rotations(TicksFor(schedule, a)))
  {
    if schedule == [] {
      WiredKnowsEveryFirstKey(seed, ids, a, a);
    } else {
      var init, last := schedule[..|schedule| - 1], schedule[|schedule| - 1];
      SignerIsChain(seed, ids, init, a);
      var s, was := SignerState(seed, ids, init, a), TicksFor(init, a);
      TicksAfter(schedule, a);
      if last.Rotate? && last.agent == a {
        SignalOnChain(s.(clock := At(last.t)), Owner(seed, a), Rotations(was), last.t);
        assert Rotations(was + [last.t]) == Rotations(was) + [last.t];
      } else if last.Start? && last.agent == a {
        assert Rotations(was + [last.t]) == [];
      }
    }
  }

  /** What one honest signal adds to the trace. */
  function HonestEvents(seed: seq<byte>, init: seq<Signal>, last: Signal): seq<Event> {
    if last.Other? then [last.event] else
      var o, t, n := Owner(seed, last.agent), last.t, |TicksFor(init, last.agent)|;
      if last.Start? || n == 0 then
        [Event(At(t), true, IdentityMsg(o.id, IdOf(o.Key(0)), o.Key(0), At(t))), SignedBy(o, 0, t)]
      else
        [Event(At(t), true, RotationMsg(AnnounceAt(o, n - 1, t))), SignedBy(o, n, t)]
  }

  lemma EmittedEvents(seed: seq<byte>, ids: seq<AgentId>, init: seq<Signal>, last: Signal)
    requires Proper(init) && MayCome(init, last)
    ensures Emitted(seed, ids, init, last) == HonestEvents(seed, init, last)
  {
    if !last.Other? {
      var a, t := last.agent, last.t;
      var o := Owner(seed, a);
      SignerIsChain(seed, ids, init, a);
      var s, rotations := SignerState(seed, ids, init, a).(clock := At(t)), Rotations(TicksFor(init, a));
      if last.Start? {
        SignsWithLastKey(s, o, rotations, a + PRE, t);
      } else {
        SignalOnChain(s, o, rotations, t);
      }
    }
  }

  lemma TraceOneMore(seed: seq<byte>, ids: seq<AgentId>, schedule: seq<Signal>)
    requires schedule != [] && Proper(schedule)
    ensures var init, last := schedule[..|schedule| - 1], schedule[|schedule| - 1];
      Trace(seed, ids, schedule) == Trace(seed, ids, init) + HonestEvents(seed, init, last)
  {
    EmittedEvents(seed, ids, schedule[..|schedule| - 1], schedule[|schedule| - 1]);
  }

  // ---- what honest signers put on the wire ----

  /** The agent's first key, with its id, at the tick of the event. */
  ghost predicate IntroducesFirstKey(seed: seq<byte>, e: Event) {
    e.IsIdentity() ==>
      var key := DerivedKey(seed, e.msg.agent, 0);
      e.msg == IdentityMsg(e.msg.agent, IdOf(key), key, e.ts)
  }

  /** The step from one of the agent's keys to the next, at the tick of the event. */
  ghost predicate AnnouncesNextKey(seed: seq<byte>, e: Event) {
    e.IsRotation() ==> exists j: nat :: AnnouncesKey(seed, e.msg.ann, e.ts, j)
  }

  ghost predicate AnnouncesKey(seed: seq<byte>, ann: Announcement, ts: Tick, j: nat) {
    var key, next := DerivedKey(seed, ann.agent, j), DerivedKey(seed, ann.agent, j + 1);
    ann == Announcement(ann.agent, IdOf(key), IdOf(next), next, ts, MadeBy(key, NewKey(next)))
  }

  /** Its id followed by "-pre", signed with the agent's first key, or by "-post" with a later one,
      at the tick of the event. */
  ghost predicate SignsWithOwnKey(seed: seq<byte>, e: Event) {
    e.IsSigned() ==> exists j: nat :: SignedWith(seed, e, DerivedKey(seed, e.msg.signer, j), j == 0)
  }

  ghost predicate SignedWith(seed: seq<byte>, e: Event, key: PublicKey, first: bool)
    requires e.IsSigned()
  {
    && e.msg.body == e.msg.signer + (if first then [45, 112, 114, 101] else [45, 112, 111, 115, 116])
    && e.msg.value == Envelope(IdOf(key), e.ts, MadeBy(key, Stamped(e.msg.body, IdOf(key), e.ts)))
  }

  lemma HonestSent(seed: seq<byte>, init: seq<Signal>, last: Signal, e: Event)
    requires MayCome(init, last) && e in HonestEvents(seed, init, last)
    ensures IntroducesFirstKey(seed, e) && AnnouncesNextKey(seed, e) && SignsWithOwnKey(seed, e)
  {
    var es := HonestEvents(seed, init, last);
    if !last.Other? {
      var o, n, t := Owner(seed, last.agent), |TicksFor(init, last.agent)|, last.t;
      if last.Rotate? {
        assert AnnouncesKey(seed, AnnounceAt(o, n - 1, t), At(t), n - 1);
      }
      assert SignedWith(seed, es[1], DerivedKey(seed, es[1].msg.signer, n), n == 0);
    }
  }

  /** Every message of an honest trace is what the handlers send: introductions of first keys, steps
      to next keys and signatures by the signer's own keys, all at the tick of their event. */
  lemma {:induction false} HonestMessages(seed: seq<byte>, ids: seq<AgentId>, schedule: seq<Signal>, e: Event)
    requires Proper(schedule) && e in Trace(seed, ids, schedule)
    ensures IntroducesFirstKey(seed, e) && AnnouncesNextKey(seed, e) && SignsWithOwnKey(seed, e)
  {
    var init, last := schedule[..|schedule| - 1], schedule[|schedule| - 1];
    TraceOneMore(seed, ids, schedule);
    if e in Trace(seed, ids, init) {
      HonestMessages(seed, ids, init, e);
    } else {
      HonestSent(seed, init, last, e);
    }
  }

  /** A signature comes right after the event that makes its key known, at the same tick. */
  ghost predicate FollowsItsKey(trace: seq<Event>, i: nat)
    requires i < |trace|
  {
    trace[i].IsSigned() ==>
      && 0 < i && trace[i - 1].ts == trace[i].ts
      && MakesKnown(trace[i - 1], trace[i].msg.signer, trace[i].msg.value.kid)
  }

  ghost predicate MakesKnown(e: Event, a: AgentId, kid: KeyId) {
    || (e.IsIdentity() && e.msg.agent == a && e.msg.kid == kid)
    || (e.IsRotation() && e.msg.ann.agent == a && e.msg.ann.newKid == kid)
  }

  lemma {:induction false} KeysBeforeSignatures(seed: seq<byte>, ids: seq<AgentId>, schedule: seq<Signal>, i: nat)
    requires Proper(schedule) && i < |Trace(seed, ids, schedule)|
    ensures FollowsItsKey(Trace(seed, ids, schedule), i)
  {
    var init, last := schedule[..|schedule| - 1], schedule[|schedule| - 1];
    var before := Trace(seed, ids, init);
    TraceOneMore(seed, ids, schedule);
    if i < |before| {
      KeysBeforeSignatures(seed, ids, init, i);
      assert Trace(seed, ids, schedule)[i] == before[i];
    } else {
      KeyThenSignature(seed, init, last, before, i - |before|);
    }
  }

  lemma KeyThenSignature(seed: seq<byte>, init: seq<Signal>, last: Signal, before: seq<Event>, j: nat)
    requires MayCome(init, last) && j < |HonestEvents(seed, init, last)|
    ensures FollowsItsKey(before + HonestEvents(seed, init, last), |before| + j)
  {
    var es := HonestEvents(seed, init, last);
    assert j == 0 ==> !es[0].IsSigned();
    assert j == 1 ==> MakesKnown(es[0], es[1].msg.signer, es[1].msg.value.kid);
  }

  // ---- the trace of an honest run ----

  ghost predicate StrictlyAscending(ticks: seq<real>) {
    forall j :: 0 <= j < |ticks| - 1 ==> ticks[j] < ticks[j + 1]
  }

  lemma AnnouncementsTwoMore(events: seq<Event>, e: Event, signed: Event, a: AgentId)
    requires signed.IsSigned()
    ensures Ids(events + [e, signed], a) == Ids(events + [e], a)
    ensures Rots(events + [e, signed], a) == Rots(events + [e], a)
  {
    AnnouncementsOneMore(events + [e], signed, a);
    assert events + [e, signed] == events + [e] + [signed];
  }

  lemma OnlyFirstAnnounces(seed: seq<byte>, init: seq<Signal>, last: Signal, trace: seq<Event>, a: AgentId)
    requires MayCome(init, last)
    ensures var es := HonestEvents(seed, init, last);
      Ids(trace + es, a) == Ids(trace + [es[0]], a) && Rots(trace + es, a) == Rots(trace + [es[0]], a)
  {
    var es := HonestEvents(seed, init, last);
    if last.Other? {
      assert es == [es[0]];
    } else {
      AnnouncementsTwoMore(trace, es[0], es[1], a);
      assert es == [es[0], es[1]];
    }
  }

  /** What one signal adds to an agent's announcements and ticks. */
  lemma AnnouncementsAfter(seed: seq<byte>, init: seq<Signal>, last: Signal, trace: seq<Event>, a: AgentId)
    requires MayCome(init, last)
    ensures var mine := !last.Other? && last.agent == a;
      var es, o := HonestEvents(seed, init, last), Owner(seed, a);
      && Ids(trace + es, a) == (if mine && last.Start? then Ids(trace, a) + [o.Key(0)] else Ids(trace, a))
      && Rots(trace + es, a) ==
           (if mine && last.Rotate?
            then Rots(trace, a) + [AnnounceAt(o, |TicksFor(init, a)| - 1, last.t)] else Rots(trace, a))
  {
    var es := HonestEvents(seed, init, last);
    OnlyFirstAnnounces(seed, init, last, trace, a);
    AnnouncementsOneMore(trace, es[0], a);
  }

  /** An agent's announcements in an honest run: its first key, then its rotations. */
  ghost predicate Announced(o: Owner, ticks: seq<real>, ids: seq<PublicKey>, rots: seq<Announcement>) {
    && ids == (if ticks == [] then [] else [o.Key(0)])
    && rots == AllAnnouncements(o, Rotations(ticks))
    && (ticks != [] ==> 0.0 <= ticks[0])
  }

  lemma AnnouncedRotation(o: Owner, ticks: seq<real>, ids: seq<PublicKey>, rots: seq<Announcement>, t: real)
    requires ticks != [] && Announced(o, ticks, ids, rots)
    ensures Announced(o, ticks + [t], ids, rots + [AnnounceAt(o, |ticks| - 1, t)])
  {
    assert Rotations(ticks + [t]) == Rotations(ticks) + [t];
    assert AllAnnouncements(o, Rotations(ticks) + [t])
        == AllAnnouncements(o, Rotations(ticks)) + [AnnounceAt(o, |ticks| - 1, t)];
  }

  lemma FirstAnnounced(o: Owner, t: real)
    requires 0.0 <= t
    ensures Announced(o, [] + [t], [] + [o.Key(0)], [])
  {
    assert [] + [t] == [t] && [t][1..] == [];
  }

  lemma {:induction false} TraceAnnouncements(seed: seq<byte>, ids: seq<AgentId>, schedule: seq<Signal>, a: AgentId)
    requires Proper(schedule)
    ensures Announced(Owner(seed, a), TicksFor(schedule, a),
                      Ids(Trace(seed, ids, schedule), a), Rots(Trace(seed, ids, schedule), a))
  {
    if schedule == [] {
      assert AllAnnouncements(Owner(seed, a), []) == [];
    } else {
      TraceAnnouncements(seed, ids, schedule[..|schedule| - 1], a);
      TraceOneMore(seed, ids, schedule);
      AnnouncedStep(seed, schedule, Trace(seed, ids, schedule[..|schedule| - 1]), a);
    }
  }

  lemma AnnouncedStep(seed: seq<byte>, schedule: seq<Signal>, trace: seq<Event>, a: AgentId)
    requires schedule != [] && Proper(schedule)
    requires Announced(Owner(seed, a), TicksFor(schedule[..|schedule| - 1], a), Ids(trace, a), Rots(trace, a))
    ensures var trace' := trace + HonestEvents(seed, schedule[..|schedule| - 1], schedule[|schedule| - 1]);
      Announced(Owner(seed, a), TicksFor(schedule, a), Ids(trace', a), Rots(trace', a))
  {
    var init, last := schedule[..|schedule| - 1], schedule[|schedule| - 1];
    TicksAfter(schedule, a);
    AnnouncementsAfter(seed, init, last, trace, a);
    if !last.Other? && last.agent == a {
      if last.Rotate? {
        AnnouncedRotation(Owner(seed, a), TicksFor(init, a), Ids(trace, a), Rots(trace, a), last.t);
      } else {
        FirstAnnounced(Owner(seed, a), last.t);
      }
    }
  }

  /** The rebuilt history of every signer is its true key chain; continuity never fails. */
  lemma HonestHistory(seed: seq<byte>, ids: seq<AgentId>, schedule: seq<Signal>, a: AgentId)
    requires Proper(schedule)
    ensures var ticks := TicksFor(schedule, a);
      History(Trace(seed, ids, schedule), a) ==
        Some(if ticks == [] then RecordsOf(Initial(VALIDATOR), a)
             else Chain(Owner(seed, a), Rotations(ticks), false))
  {
    var o, ticks := Owner(seed, a), TicksFor(schedule, a);
    TraceAnnouncements(seed, ids, schedule, a);
    if ticks != [] {
      assert Root([o.Key(0)], a) == Chain(o, [], false);
      HonestAnnouncementsRebuild(o, Rotations(ticks));
    }
  }

  lemma HonestKeysReadable(seed: seq<byte>, ids: seq<AgentId>, schedule: seq<Signal>, e: Event)
    requires Proper(schedule)
    ensures !Unjudgeable(Trace(seed, ids, schedule), e)
  {
    if e.IsSigned() {
      var a := e.msg.signer;
      HonestHistory(seed, ids, schedule, a);
      InitialNeverRaises(VALIDATOR, a, e.msg.value);
      ChainNeverRaises(Owner(seed, a), Rotations(TicksFor(schedule, a)), false, e.msg.value);
    }
  }

  /** Signature number j survives exactly when the next rotation comes strictly later. */
  lemma SignatureSurvives(o: Owner, ticks: seq<real>, j: nat)
    requires j < |ticks| && 0.0 <= ticks[0]
    ensures var e := SignedBy(o, j, ticks[j]);
      Verdict(Chain(o, Rotations(ticks), false), e.msg.body, e.msg.value, e.ts)
        == (j + 1 < |ticks| ==> ticks[j] < ticks[j + 1])
  {
    var recs := Chain(o, Rotations(ticks), false);
    FindInChain(o, Rotations(ticks), false, j);
    assert recs[j] == ChainRecord(o, Rotations(ticks), false, j);
  }

  ghost predicate SomeonesSignature(seed: seq<byte>, schedule: seq<Signal>, e: Event) {
    exists a, j :: IsSignature(seed, schedule, e, a, j)
  }

  lemma SignedAmongHonest(seed: seq<byte>, init: seq<Signal>, last: Signal, e: Event)
    requires MayCome(init, last)
    ensures e in HonestEvents(seed, init, last) && e.IsSigned() <==>
      !last.Other? && e == SignedBy(Owner(seed, last.agent), |TicksFor(init, last.agent)|, last.t)
  {
    var es := HonestEvents(seed, init, last);
    assert e in es <==> e == es[0] || (|es| == 2 && e == es[1]);
  }

  /** Ticks of an agent before and after one more signal. */
  lemma TicksAfter(schedule: seq<Signal>, a: AgentId)
    requires schedule != []
    ensures var init, last := schedule[..|schedule| - 1], schedule[|schedule| - 1];
      TicksFor(schedule, a) ==
        if !last.Other? && last.agent == a then TicksFor(init, a) + [last.t] else TicksFor(init, a)
  {
    assert TicksFor(schedule[..|schedule| - 1], a) + [] == TicksFor(schedule[..|schedule| - 1], a);
  }

  ghost predicate IsSignature(seed: seq<byte>, schedule: seq<Signal>, e: Event, a: AgentId, j: int) {
    0 <= j < |TicksFor(schedule, a)| && e == SignedBy(Owner(seed, a), j, TicksFor(schedule, a)[j])
  }

  lemma SignatureAfter(seed: seq<byte>, schedule: seq<Signal>, e: Event, a: AgentId, j: int)
    requires schedule != []
    ensures var init, last := schedule[..|schedule| - 1], schedule[|schedule| - 1];
      IsSignature(seed, schedule, e, a, j) <==>
      (IsSignature(seed, init, e, a, j) ||
        (!last.Other? && last.agent == a && j == |TicksFor(init, a)| && e == SignedBy(Owner(seed, a), j, last.t)))
  {
    TicksAfter(schedule, a);
  }

  lemma SignaturesGrow(seed: seq<byte>, schedule: seq<Signal>, e: Event)
    requires schedule != [] && Proper(schedule)
    ensures var init, last := schedule[..|schedule| - 1], schedule[|schedule| - 1];
      SomeonesSignature(seed, schedule, e) <==>
      (SomeonesSignature(seed, init, e) || (e in HonestEvents(seed, init, last) && e.IsSigned()))
  {
    var init, last := schedule[..|schedule| - 1], schedule[|schedule| - 1];
    SignedAmongHonest(seed, init, last, e);
    if a, j :| IsSignature(seed, schedule, e, a, j) {
      SignatureAfter(seed, schedule, e, a, j);
    }
    if a, j :| IsSignature(seed, init, e, a, j) {
      SignatureAfter(seed, schedule, e, a, j);
    }
    if !last.Other? {
      SignatureAfter(seed, schedule, e, last.agent, |TicksFor(init, last.agent)|);
    }
  }

  /** The signed events of an honest trace are the signers' signatures, one per signal. */
  lemma {:induction false} TraceSignatures(seed: seq<byte>, ids: seq<AgentId>, schedule: seq<Signal>, e: Event)
    requires Proper(schedule)
    ensures e in Trace(seed, ids, schedule) && e.IsSigned() <==> SomeonesSignature(seed, schedule, e)
  {
    if schedule != [] {
      var init, last := schedule[..|schedule| - 1], schedule[|schedule| - 1];
      TraceSignatures(seed, ids, init, e);
      TraceOneMore(seed, ids, schedule);
      SignaturesGrow(seed, schedule, e);
    }
  }

  /** For any number of honest signers, any number of rotate signals and any interleaving:
      continuity is always established, and no out-of-window use is reported exactly when
      every signer's start tick and rotation ticks strictly increase. */
  lemma HonestTraceVerdict(seed: seq<byte>, ids: seq<AgentId>, schedule: seq<Signal>)
    requires Proper(schedule)
    ensures var r := Validate(Trace(seed, ids, schedule));
      r.Ok? && (r.value.NoOutOfWindowUse() <==> forall a :: StrictlyAscending(TicksFor(schedule, a)))
  {
    var trace := Trace(seed, ids, schedule);
    JudgedPerAgent(trace);
    forall a ensures History(trace, a).Some? {
      HonestHistory(seed, ids, schedule, a);
    }
    forall e ensures !Unjudgeable(trace, e) {
      HonestKeysReadable(seed, ids, schedule, e);
    }
    var violations := Validate(trace).value.violations;
    assert violations != [] ==> violations[0] in violations;
    if forall a :: StrictlyAscending(TicksFor(schedule, a)) {
      forall e | e in trace ensures !Offends(trace, e) {
        HonestSignatureJudged(seed, ids, schedule, e);
      }
    } else {
      var a :| !StrictlyAscending(TicksFor(schedule, a));
      var e := SomeSignatureDies(seed, ids, schedule, a);
      assert e in violations;
    }
  }

  lemma SomeSignatureDies(seed: seq<byte>, ids: seq<AgentId>, schedule: seq<Signal>, a: AgentId) returns (e: Event)
    requires Proper(schedule) && !StrictlyAscending(TicksFor(schedule, a))
    ensures e in Trace(seed, ids, schedule) && Offends(Trace(seed, ids, schedule), e)
  {
    var ticks := TicksFor(schedule, a);
    var j :| 0 <= j < |ticks| - 1 && ticks[j] >= ticks[j + 1];
    e := SignedBy(Owner(seed, a), j, ticks[j]);
    assert IsSignature(seed, schedule, e, a, j);
    TraceSignatures(seed, ids, schedule, e);
    LateRotationKills(seed, ids, schedule, a, j);
  }

  /** A rotation no later than the tick of the previous signature kills that signature. */
  lemma LateRotationKills(seed: seq<byte>, ids: seq<AgentId>, schedule: seq<Signal>, a: AgentId, j: nat)
    requires Proper(schedule) && j < |TicksFor(schedule, a)|
    ensures var ticks := TicksFor(schedule, a);
      Offends(Trace(seed, ids, schedule), SignedBy(Owner(seed, a), j, ticks[j])) <==>
      (j + 1 < |ticks| && ticks[j + 1] <= ticks[j])
  {
    HonestHistory(seed, ids, schedule, a);
    TraceAnnouncements(seed, ids, schedule, a);
    SignatureSurvives(Owner(seed, a), TicksFor(schedule, a), j);
  }

  lemma HonestSignatureJudged(seed: seq<byte>, ids: seq<AgentId>, schedule: seq<Signal>, e: Event)
    requires Proper(schedule) && e in Trace(seed, ids, schedule)
    requires forall a :: StrictlyAscending(TicksFor(schedule, a))
    ensures !Offends(Trace(seed, ids, schedule), e)
  {
    if e.IsSigned() {
      TraceSignatures(seed, ids, schedule, e);
      var a, j :| IsSignature(seed, schedule, e, a, j);
      OrderlySignatureJudged(seed, ids, schedule, a, j);
    }
  }

  lemma OrderlySignatureJudged(seed: seq<byte>, ids: seq<AgentId>, schedule: seq<Signal>, a: AgentId, j: nat)
    requires Proper(schedule) && j < |TicksFor(schedule, a)| && StrictlyAscending(TicksFor(schedule, a))
    ensures !Offends(Trace(seed, ids, schedule), SignedBy(Owner(seed, a), j, TicksFor(schedule, a)[j]))
  {
    LateRotationKills(seed, ids, schedule, a, j);
  }

  function RotateSignal(): Signal -> bool { (x: Signal) => x.Rotate? }

  function OurSignal(): Signal -> bool { (x: Signal) => !x.Other? }

  lemma SelectOneMore(events: seq<Event>, e: Event, p: Event -> bool)
    ensures |Select(events + [e], p)| == |Select(events, p)| + if p(e) then 1 else 0
  {
    assert (events + [e])[..|events|] == events;
  }

  lemma HonestKinds(seed: seq<byte>, init: seq<Signal>, last: Signal)
    requires MayCome(init, last)
    ensures var es := HonestEvents(seed, init, last);
      && |es| == (if last.Other? then 1 else 2)
      && !es[0].IsSigned() && (es[0].IsRotation() <==> last.Rotate?)
      && (!last.Other? ==> es[1].IsSigned() && !es[1].IsRotation())
  {
  }

  lemma SelectAfter(seed: seq<byte>, init: seq<Signal>, last: Signal, trace: seq<Event>, p: Event -> bool)
    requires MayCome(init, last)
    ensures var es := HonestEvents(seed, init, last);
      |Select(trace + es, p)| == |Select(trace, p)| + (if p(es[0]) then 1 else 0) +
        (if !last.Other? && p(es[1]) then 1 else 0)
  {
    var es := HonestEvents(seed, init, last);
    SelectOneMore(trace, es[0], p);
    if last.Other? {
      assert es == [es[0]];
    } else {
      SelectOneMore(trace + [es[0]], es[1], p);
      assert trace + es == trace + [es[0]] + [es[1]];
    }
  }

  lemma RotationsAfter(seed: seq<byte>, init: seq<Signal>, last: Signal, trace: seq<Event>)
    requires MayCome(init, last)
    ensures |Select(trace + HonestEvents(seed, init, last), Rotating())| ==
      |Select(trace, Rotating())| + if RotateSignal()(last) then 1 else 0
  {
    HonestKinds(seed, init, last);
    SelectAfter(seed, init, last, trace, Rotating());
  }

  lemma SignaturesAfter(seed: seq<byte>, init: seq<Signal>, last: Signal, trace: seq<Event>)
    requires MayCome(init, last)
    ensures |Select(trace + HonestEvents(seed, init, last), Signing())| ==
      |Select(trace, Signing())| + if OurSignal()(last) then 1 else 0
  {
    HonestKinds(seed, init, last);
    SelectAfter(seed, init, last, trace, Signing());
  }

  lemma {:induction false} SelectedInTrace(seed: seq<byte>, ids: seq<AgentId>, schedule: seq<Signal>)
    requires Proper(schedule)
    ensures var trace := Trace(seed, ids, schedule);
      && |Select(trace, Rotating())| == Count(schedule, RotateSignal())
      && |Select(trace, Signing())| == Count(schedule, OurSignal())
  {
    if schedule != [] {
      var init, last := schedule[..|schedule| - 1], schedule[|schedule| - 1];
      SelectedInTrace(seed, ids, init);
      TraceOneMore(seed, ids, schedule);
      RotationsAfter(seed, init, last, Trace(seed, ids, init));
      SignaturesAfter(seed, init, last, Trace(seed, ids, init));
    }
  }

  lemma SignalsCounted(schedule: seq<Signal>)
    ensures Count(schedule, RotateSignal()) == |set i: nat | i < |schedule| && schedule[i].Rotate?|
    ensures Count(schedule, OurSignal())
         == |set i: nat | i < |schedule| && (schedule[i].Start? || schedule[i].Rotate?)|
  {
    CountIsSize(schedule, RotateSignal());
    CountIsSize(schedule, OurSignal());
    assert Places(schedule, RotateSignal()) == set i: nat | i < |schedule| && schedule[i].Rotate?;
    assert Places(schedule, OurSignal())
        == set i: nat | i < |schedule| && (schedule[i].Start? || schedule[i].Rotate?);
  }

  /** The validator reports one rotation per rotate signal and one signature per signal of either
      kind. */
  lemma HonestCounts(seed: seq<byte>, ids: seq<AgentId>, schedule: seq<Signal>)
    requires Proper(schedule)
    ensures var r := Validate(Trace(seed, ids, schedule));
      && r.Ok?
      && r.value.rotations == |set i: nat | i < |schedule| && schedule[i].Rotate?|
      && r.value.signedCount == |set i: nat | i < |schedule| && (schedule[i].Start? || schedule[i].Rotate?)|
  {
    var trace := Trace(seed, ids, schedule);
    HonestTraceVerdict(seed, ids, schedule);
    SelectedInTrace(seed, ids, schedule);
    SignalsCounted(schedule);
  }

  /** The scenario shows windowed identity exactly when some signer rotates at least once. */
  lemma HonestTraceHasRealWindows(seed: seq<byte>, ids: seq<AgentId>, schedule: seq<Signal>)
    requires Proper(schedule)
    ensures var r := Validate(Trace(seed, ids, schedule));
      r.Ok? && (r.value.RealWindows() <==> exists i :: 0 <= i < |schedule| && schedule[i].Rotate?)
  {
    HonestTraceVerdict(seed, ids, schedule);
    SelectedInTrace(seed, ids, schedule);
    CountPositive(schedule);
  }

  lemma {:induction false} CountPositive(schedule: seq<Signal>)
    ensures Count(schedule, RotateSignal()) >= 1 <==> exists i :: 0 <= i < |schedule| && schedule[i].Rotate?
    ensures Count(schedule, RotateSignal()) <= Count(schedule, OurSignal())
  {
    if schedule != [] {
      var init := schedule[..|schedule| - 1];
      CountPositive(init);
      assert forall i :: 0 <= i < |init| ==> init[i] == schedule[i];
      if exists i :: 0 <= i < |schedule| && schedule[i].Rotate? {
        var i :| 0 <= i < |schedule| && schedule[i].Rotate?;
        assert i < |init| ==> init[i].Rotate?;
      }
    }
  }
}
