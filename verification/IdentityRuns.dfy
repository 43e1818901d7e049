/** Whole runs of identity objects: every sequence of clock moves, rotations, announcements
    heard and registrations. */
module IdentityRuns {
  import opened Wrappers
  import opened Positional
  import opened Crypto
  import opened KeyHistory
  import opened Identity

  /** One call that changes an identity.  The clock only ever takes finite ticks. */
  datatype Op = AdvanceTo(t: real) | Rotate | Observe(ann: Announcement) | Register(agent: AgentId, key: PublicKey)

  /** The state after a call; a call that raises leaves the state as it was. */
  function Step(s: State, op: Op): (s': State)
    requires WellFormed(s)
    ensures WellFormed(s')
  {
    match op
    case AdvanceTo(t) => s.(clock := At(t))
    case Rotate => var r := RotateState(s); if r.Ok? then r.value else s
    case Observe(ann) => var r := ObserveState(s, ann); if r.Ok? then r.value else s
    case Register(a, key) => RegisterState(s, a, key)
  }

  function Run(o: Owner, ops: seq<Op>): (s: State)
    ensures WellFormed(s)
  {
    if ops == [] then Initial(o) else Step(Run(o, ops[..|ops| - 1]), ops[|ops| - 1])
  }

  /** The clock after a run. */
  function Now(ops: seq<Op>): real {
    if ops == [] then 0.0 else
      var op := ops[|ops| - 1];
      if op.AdvanceTo? then op.t else Now(ops[..|ops| - 1])
  }

  /** The ticks at which the agent itself rotated. */
  function RotationTicks(ops: seq<Op>): seq<real> {
    if ops == [] then [] else
      var init := ops[..|ops| - 1];
      RotationTicks(init) + if ops[|ops| - 1].Rotate? then [Now(init)] else []
  }

  /** No announcement heard and no registration names the agent itself. */
  ghost predicate NamesOthers(o: Owner, ops: seq<Op>) {
    forall i :: 0 <= i < |ops| ==>
      && (ops[i].Observe? ==> ops[i].ann.agent != o.id)
      && (ops[i].Register? ==> ops[i].agent != o.id)
  }

  ghost predicate ClockMonotone(ops: seq<Op>) {
    forall i :: 0 <= i < |ops| && ops[i].AdvanceTo? ==> Now(ops[..i]) <= ops[i].t
  }

  lemma PrefixStaysMonotone(ops: seq<Op>, n: nat)
    requires ClockMonotone(ops) && n <= |ops|
    ensures ClockMonotone(ops[..n])
  {
    forall i | 0 <= i < n && ops[..n][i].AdvanceTo? ensures Now(ops[..n][..i]) <= ops[..n][i].t {
      assert ops[..n][..i] == ops[..i];
    }
  }

  // ---- an agent's own keys ----

  /** What one call does to an agent whose own history is a chain. */
  lemma StepOnSelf(s: State, op: Op, ticks: seq<real>, now: real)
    requires WellFormed(s) && s.records[s.owner.id] == Chain(s.owner, ticks, true)
    requires s.clock == At(now) && s.count == |ticks|
    requires op.Observe? ==> op.ann.agent != s.owner.id
    requires op.Register? ==> op.agent != s.owner.id
    ensures var s' := Step(s, op);
      && s'.owner == s.owner
      && s'.clock == At(if op.AdvanceTo? then op.t else now)
      && s'.count == |ticks| + (if op.Rotate? then 1 else 0)
      && s'.records[s.owner.id] == Chain(s.owner, ticks + (if op.Rotate? then [now] else []), true)
    ensures op.Rotate? ==> Step(s, op).last == Some(Announce(s.owner, ticks + [now], |ticks|))
  {
    assert ticks + [] == ticks;
    if op.Rotate? {
      ActiveOfChain(s.owner, ticks, true);
      RotatedChain(s.owner, ticks, now);
      assert s.records[s.owner.id][|ticks|] == ChainRecord(s.owner, ticks, true, |ticks|);
    }
  }

  /** An agent's own records are the chain of its rotation ticks. */
  lemma {:induction false} OwnHistory(o: Owner, ops: seq<Op>)
    requires NamesOthers(o, ops)
    ensures var s := Run(o, ops);
      s.owner == o && s.clock == At(Now(ops)) && s.count == |RotationTicks(ops)|
    ensures Run(o, ops).records[o.id] == Chain(o, RotationTicks(ops), true)
  {
    if ops == [] {
      assert Initial(o).records[o.id] == Chain(o, [], true);
    } else {
      var init := ops[..|ops| - 1];
      OwnHistory(o, init);
      StepOnSelf(Run(o, init), ops[|ops| - 1], RotationTicks(init), Now(init));
    }
  }

  /** What a rotation broadcasts is the honest announcement with the next number. */
  lemma OwnAnnouncement(o: Owner, ops: seq<Op>)
    requires NamesOthers(o, ops) && ops != [] && ops[|ops| - 1].Rotate?
    ensures var ticks := RotationTicks(ops);
      ticks != [] && Run(o, ops).last == Some(Announce(o, ticks, |ticks| - 1))
    ensures var n, s := |RotationTicks(ops)|, Run(o, ops);
      && 0 < n && s.last.Some?
      && var ann, prior, next := s.last.value, DerivedKey(o.seed, o.id, n - 1), DerivedKey(o.seed, o.id, n);
      && ann.agent == o.id && ann.prevKid == IdOf(prior) && ann.newKid == IdOf(next) && ann.newPub == next
      && ann.issuedAt == s.clock && ann.continuity == MadeBy(prior, NewKey(next))
  {
    var init := ops[..|ops| - 1];
    OwnHistory(o, init);
    StepOnSelf(Run(o, init), Rotate, RotationTicks(init), Now(init));
  }

  lemma {:induction false} RunTicks(ops: seq<Op>)
    requires ClockMonotone(ops)
    ensures 0.0 <= Now(ops)
    ensures Ascending(RotationTicks(ops))
    ensures forall i :: 0 <= i < |RotationTicks(ops)| ==> 0.0 <= RotationTicks(ops)[i] <= Now(ops)
  {
    if ops != [] {
      PrefixStaysMonotone(ops, |ops| - 1);
      RunTicks(ops[..|ops| - 1]);
    }
  }

  /** After any run, an agent accepts exactly the genuine signatures of the key that was in
      service, counting rotations, both at the claimed tick and at the as-of tick. */
  lemma OwnVerdicts(o: Owner, ops: seq<Op>, payload: seq<byte>, sig: Signature, asOf: Tick)
    requires NamesOthers(o, ops) && ClockMonotone(ops)
    ensures VerifiesAsOf(Run(o, ops), payload, sig, o.id, asOf) <==>
      && sig.signer == o.id
      && sig.value.Envelope?
      && asOf.At?
      && var ticks := RotationTicks(ops);
         var j := RotationsBy(ticks, asOf.t);
         && Serves(ticks, j, asOf)
         && Serves(ticks, j, sig.value.tick)
         && sig.value.kid == IdOf(o.Key(j))
         && sig.value.raw == MadeBy(o.Key(j), Stamped(payload, sig.value.kid, sig.value.tick))
    ensures CheckAsOf(Run(o, ops), payload, sig, o.id, asOf) == Ok(VerifiesAsOf(Run(o, ops), payload, sig, o.id, asOf))
  {
    OwnHistory(o, ops);
    RunTicks(ops);
    ChainNeverRaises(o, RotationTicks(ops), true, sig.value);
    VerdictMeansServingKey(o, RotationTicks(ops), true, payload, sig.value, asOf);
  }

  /** What the last key of a chain signs at a tick. */
  function SignedByLast(o: Owner, n: nat, payload: seq<byte>, tick: Tick): Envelope {
    Envelope(IdOf(o.Key(n)), tick, MadeBy(o.Key(n), Stamped(payload, IdOf(o.Key(n)), tick)))
  }

  lemma SignsWithLast(s: State, ticks: seq<real>, payload: seq<byte>)
    requires WellFormed(s) && s.records[s.owner.id] == Chain(s.owner, ticks, true)
    ensures SignWith(s, payload, None) == Ok(Signature(s.owner.id, SignedByLast(s.owner, |ticks|, payload, s.clock)))
  {
    ActiveOfChain(s.owner, ticks, true);
    assert Chain(s.owner, ticks, true)[|ticks|] == ChainRecord(s.owner, ticks, true, |ticks|);
  }

  lemma LastKeyAccepted(o: Owner, ticks: seq<real>, now: real, payload: seq<byte>, other: seq<byte>)
    requires 0.0 <= now && forall i :: 0 <= i < |ticks| ==> ticks[i] <= now
    ensures Verdict(Chain(o, ticks, true), other, SignedByLast(o, |ticks|, payload, At(now)), At(now)) <==>
      other == payload
  {
    FindInChain(o, ticks, true, |ticks|);
    assert Chain(o, ticks, true)[|ticks|] == ChainRecord(o, ticks, true, |ticks|);
  }

  lemma LastKeyServes(o: Owner, ticks: seq<real>, t: real, payload: seq<byte>, other: seq<byte>)
    requires Ascending(ticks)
    ensures Verdict(Chain(o, ticks, true), other, SignedByLast(o, |ticks|, payload, At(t)), At(t)) <==>
      other == payload && if ticks == [] then 0.0 <= t else ticks[|ticks| - 1] <= t
  {
    FindInChain(o, ticks, true, |ticks|);
    assert Chain(o, ticks, true)[|ticks|] == ChainRecord(o, ticks, true, |ticks|);
  }

  /** What is signed for a given tick carries that tick, and verifies as of it for its own payload
      exactly when the tick is not before the latest rotation. */
  lemma SignedAtVerifies(o: Owner, ops: seq<Op>, payload: seq<byte>, other: seq<byte>, t: real)
    requires NamesOthers(o, ops) && ClockMonotone(ops)
    ensures var s, ticks := Run(o, ops), RotationTicks(ops);
      var sig := SignWith(s, payload, Some(At(t)));
      && sig.Ok? && sig.value.signer == o.id && sig.value.value.Envelope? && sig.value.value.tick == At(t)
      && (VerifiesAsOf(s, other, sig.value, o.id, At(t)) <==>
            other == payload && if ticks == [] then 0.0 <= t else ticks[|ticks| - 1] <= t)
  {
    OwnHistory(o, ops);
    RunTicks(ops);
    SignsWithLast(Run(o, ops).(clock := At(t)), RotationTicks(ops), payload);
    LastKeyServes(o, RotationTicks(ops), t, payload, other);
  }

  /** Signing never fails, and what is signed now verifies now, for its own payload only. */
  lemma SignedNowVerifies(o: Owner, ops: seq<Op>, payload: seq<byte>, other: seq<byte>)
    requires NamesOthers(o, ops) && ClockMonotone(ops)
    ensures var s := Run(o, ops);
      var sig := SignWith(s, payload, None);
      sig.Ok? && (VerifiesAsOf(s, other, sig.value, o.id, s.clock) <==> other == payload)
  {
    OwnHistory(o, ops);
    RunTicks(ops);
    SignsWithLast(Run(o, ops), RotationTicks(ops), payload);
    LastKeyAccepted(o, RotationTicks(ops), Now(ops), payload, other);
  }

  lemma {:induction false} TicksOfLongerRun(ops: seq<Op>, more: seq<Op>)
    requires ClockMonotone(ops + more)
    ensures Now(ops) <= Now(ops + more)
    ensures RotationTicks(ops) <= RotationTicks(ops + more)
    ensures forall i :: |RotationTicks(ops)| <= i < |RotationTicks(ops + more)| ==>
      Now(ops) <= RotationTicks(ops + more)[i]
  {
    var all := ops + more;
    if more == [] {
      assert all == ops;
    } else {
      var n := |all| - 1;
      var init := more[..|more| - 1];
      PrefixStaysMonotone(all, n);
      assert all[..n] == ops + init;
      TicksOfLongerRun(ops, init);
      assert Now(all[..n]) <= Now(all);
    }
  }

  /** Verdicts about ticks before the present are final, whatever the agent does next; none raises. */
  lemma OwnVerdictsFinal(o: Owner, ops: seq<Op>, more: seq<Op>, payload: seq<byte>, sig: Signature, asOf: Tick)
    requires NamesOthers(o, ops + more) && ClockMonotone(ops + more)
    requires sig.value.Envelope? ==> sig.value.tick.Before(At(Now(ops))) && asOf.Before(At(Now(ops)))
    ensures VerifiesAsOf(Run(o, ops + more), payload, sig, o.id, asOf)
         == VerifiesAsOf(Run(o, ops), payload, sig, o.id, asOf)
    ensures CheckAsOf(Run(o, ops + more), payload, sig, o.id, asOf) == CheckAsOf(Run(o, ops), payload, sig, o.id, asOf)
  {
    assert NamesOthers(o, ops) by {
      forall i | 0 <= i < |ops| ensures (ops + more)[i] == ops[i] {
      }
    }
    OwnHistory(o, ops);
    OwnHistory(o, ops + more);
    RunTicks(ops + more);
    TicksOfLongerRun(ops, more);
    var early, late := RotationTicks(ops), RotationTicks(ops + more);
    assert late[..|early|] == early;
    ChainNeverRaises(o, early, true, sig.value);
    ChainNeverRaises(o, late, true, sig.value);
    PrefixVerdicts(o, late, |early|, true, true, payload, sig.value, asOf);
  }

  // ---- what is known about a peer ----

  function RegisteredKey(ops: seq<Op>, a: AgentId): Option<PublicKey> {
    if ops == [] then None else
      var op := ops[|ops| - 1];
      if op.Register? && op.agent == a then Some(op.key) else RegisteredKey(ops[..|ops| - 1], a)
  }

  /** The announcements naming a peer that were heard since its last registration. */
  function Heard(ops: seq<Op>, a: AgentId): seq<Announcement> {
    if ops == [] then [] else
      var op := ops[|ops| - 1];
      if op.Register? && op.agent == a then []
      else Heard(ops[..|ops| - 1], a) + if op.Observe? && op.ann.agent == a then [op.ann] else []
  }

  /** What one call does to the records of a peer. */
  lemma StepOnPeer(s: State, op: Op, a: AgentId)
    requires WellFormed(s) && a != s.owner.id
    ensures RecordsOf(Step(s, op), a) ==
      if op.Register? && op.agent == a then [Record(op.key, At(0.0), Infinity, false)]
      else if op.Observe? && op.ann.agent == a && Accepts(RecordsOf(s, a), op.ann)
      then Extended(RecordsOf(s, a), op.ann)
      else RecordsOf(s, a)
    ensures Step(s, op).owner == s.owner
  {
  }

  /** The records of a peer registered with a key, after the announcements heard since. */
  function PeerRecords(key: Option<PublicKey>, heard: seq<Announcement>): seq<Record> {
    if key.None? then [] else ObserveAll([Record(key.value, At(0.0), Infinity, false)], heard)
  }

  lemma HearOneMore(key: Option<PublicKey>, heard: seq<Announcement>, ann: Announcement)
    ensures var before := PeerRecords(key, heard);
      PeerRecords(key, heard + [ann]) == if Accepts(before, ann) then Extended(before, ann) else before
  {
    if key.Some? {
      ObserveOneMore([Record(key.value, At(0.0), Infinity, false)], heard, ann);
    }
  }

  /** A peer's records depend only on its registered key and the announcements naming it. */
  lemma {:induction false} PeerHistory(o: Owner, ops: seq<Op>, a: AgentId)
    requires a != o.id
    ensures Run(o, ops).owner == o
    ensures RecordsOf(Run(o, ops), a) == PeerRecords(RegisteredKey(ops, a), Heard(ops, a))
  {
    if ops != [] {
      var init, op := ops[..|ops| - 1], ops[|ops| - 1];
      PeerHistory(o, init, a);
      StepOnPeer(Run(o, init), op, a);
      if op.Observe? && op.ann.agent == a {
        assert Heard(ops, a) == Heard(init, a) + [op.ann];
        HearOneMore(RegisteredKey(init, a), Heard(init, a), op.ann);
      } else if !(op.Register? && op.agent == a) {
        assert Heard(ops, a) == Heard(init, a);
      }
    }
  }

  /** Every key ever held for a peer descends from the key it was registered with, whatever
      was announced. */
  lemma PeerKeysDescend(o: Owner, ops: seq<Op>, a: AgentId)
    requires a != o.id
    ensures var recs := RecordsOf(Run(o, ops), a);
      match RegisteredKey(ops, a)
      case None => recs == []
      case Some(key) => AllDescend(recs, Heard(ops, a), key)
  {
    PeerHistory(o, ops, a);
    if RegisteredKey(ops, a).Some? {
      HeldKeysDescend(Record(RegisteredKey(ops, a).value, At(0.0), Infinity, false), Heard(ops, a));
    }
  }

  lemma NeitherRaises(owner: Owner, owned: seq<Op>, peer: Owner, heard: seq<Op>, schedule: seq<nat>, sig: Signature)
    requires peer.id != owner.id
    requires NamesOthers(owner, owned)
    requires RegisteredKey(heard, owner.id) == Some(owner.Key(0))
    requires forall i :: 0 <= i < |schedule| ==> schedule[i] < |RotationTicks(owned)|
    requires Heard(heard, owner.id) == Deliveries(owner, RotationTicks(owned), schedule)
    ensures !Raises(RecordsOf(Run(peer, heard), owner.id), sig.value)
    ensures !Raises(RecordsOf(Run(owner, owned), owner.id), sig.value)
  {
    OwnHistory(owner, owned);
    ChainNeverRaises(owner, RotationTicks(owned), true, sig.value);
    PeerHolds(owner, RotationTicks(owned), peer, heard, schedule);
    PeerNeverRaises(owner, RotationTicks(owned), schedule, sig.value);
  }

  lemma PeerNeverRaises(o: Owner, ticks: seq<real>, schedule: seq<nat>, env: Envelope)
    requires forall i :: 0 <= i < |schedule| ==> schedule[i] < |ticks|
    ensures !Raises(ObserveAll(Chain(o, [], false), Deliveries(o, ticks, schedule)), env)
  {
    PeerKnowsPrefix(o, ticks, schedule);
    ChainNeverRaises(o, ticks[..Known(schedule)], false, env);
    if env.Envelope? {
      assert Lookup(ObserveAll(Chain(o, [], false), Deliveries(o, ticks, schedule)), env.kid)
          == Lookup(Chain(o, ticks[..Known(schedule)], false), env.kid);
    }
  }

  /** Two objects, two runs.  A peer that registered the owner's first key and received the
      owner's announcements under any schedule gives the owner's own verdicts for all ticks
      before the closing tick of the last key it knows. */
  lemma PeerAgrees(owner: Owner, owned: seq<Op>, peer: Owner, heard: seq<Op>, schedule: seq<nat>,
                   payload: seq<byte>, sig: Signature, asOf: Tick)
    requires peer.id != owner.id
    requires NamesOthers(owner, owned) && ClockMonotone(owned)
    requires RegisteredKey(heard, owner.id) == Some(owner.Key(0))
    requires forall i :: 0 <= i < |schedule| ==> schedule[i] < |RotationTicks(owned)|
    requires Heard(heard, owner.id) == Deliveries(owner, RotationTicks(owned), schedule)
    requires var ticks, m := RotationTicks(owned), Known(schedule);
      m < |ticks| && sig.value.Envelope? ==> sig.value.tick.Before(At(ticks[m])) && asOf.Before(At(ticks[m]))
    ensures VerifiesAsOf(Run(peer, heard), payload, sig, owner.id, asOf)
         == VerifiesAsOf(Run(owner, owned), payload, sig, owner.id, asOf)
    ensures CheckAsOf(Run(peer, heard), payload, sig, owner.id, asOf)
         == CheckAsOf(Run(owner, owned), payload, sig, owner.id, asOf)
  {
    NeitherRaises(owner, owned, peer, heard, schedule, sig);
    PeerHistory(peer, heard, owner.id);
    OwnHistory(owner, owned);
    RunTicks(owned);
    assert Chain(owner, [], false) == [Record(owner.Key(0), At(0.0), Infinity, false)];
    PeerAgreesWithOwner(owner, RotationTicks(owned), schedule, payload, sig.value, asOf);
  }

  // ---- finality at a peer ----

  ghost predicate NotRegisteredAgain(ops: seq<Op>, a: AgentId) {
    forall i :: 0 <= i < |ops| ==> !(ops[i].Register? && ops[i].agent == a)
  }

  lemma {:induction false} HeardMore(ops: seq<Op>, more: seq<Op>, a: AgentId)
    requires NotRegisteredAgain(more, a)
    ensures RegisteredKey(ops + more, a) == RegisteredKey(ops, a)
    ensures Heard(ops + more, a) == Heard(ops, a) + Heard(more, a)
  {
    if more == [] {
      assert ops + more == ops;
    } else {
      HeardMore(ops, more[..|more| - 1], a);
      HeardOneMore(ops, more, a);
    }
  }

  lemma HeardOneMore(ops: seq<Op>, more: seq<Op>, a: AgentId)
    requires more != [] && !(more[|more| - 1].Register? && more[|more| - 1].agent == a)
    ensures var init, op := more[..|more| - 1], more[|more| - 1];
      var news := if op.Observe? && op.ann.agent == a then [op.ann] else [];
      && RegisteredKey(ops + more, a) == RegisteredKey(ops + init, a)
      && Heard(ops + more, a) == Heard(ops + init, a) + news && Heard(more, a) == Heard(init, a) + news
  {
    assert (ops + more)[..|ops + more| - 1] == ops + more[..|more| - 1];
  }

  /** The records of a peer after more calls are those before, with what was heard since. */
  lemma RecordsAfterMore(o: Owner, ops: seq<Op>, more: seq<Op>, a: AgentId)
    requires a != o.id && NotRegisteredAgain(more, a) && RegisteredKey(ops, a).Some?
    ensures RecordsOf(Run(o, ops + more), a) == ObserveAll(RecordsOf(Run(o, ops), a), Heard(more, a))
  {
    PeerHistory(o, ops, a);
    PeerHistory(o, ops + more, a);
    HeardMore(ops, more, a);
    ObserveInTurn([Record(RegisteredKey(ops, a).value, At(0.0), Infinity, false)], Heard(ops, a), Heard(more, a));
  }

  /** Whatever calls follow, outcomes on a peer about ticks before c are final as long as the
      announcements heard of it are not before c, move no closing tick forward and add no key that
      cannot be read. */
  lemma PeerRunFinality(o: Owner, ops: seq<Op>, more: seq<Op>, a: AgentId, c: Tick,
                        payload: seq<byte>, sig: Signature, asOf: Tick)
    requires a != o.id && NotRegisteredAgain(more, a) && RegisteredKey(ops, a).Some?
    requires AllKeep(RecordsOf(Run(o, ops), a), Heard(more, a), c)
    requires sig.value.Envelope? ==> sig.value.tick.Before(c) && asOf.Before(c)
    ensures VerifiesAsOf(Run(o, ops + more), payload, sig, a, asOf) == VerifiesAsOf(Run(o, ops), payload, sig, a, asOf)
    ensures CheckAsOf(Run(o, ops + more), payload, sig, a, asOf) == CheckAsOf(Run(o, ops), payload, sig, a, asOf)
  {
    RecordsAfterMore(o, ops, more, a);
    ObservedRunFinality(RecordsOf(Run(o, ops), a), Heard(more, a), c);
    if sig.value.Envelope? {
      assert SameOutcome(RecordsOf(Run(o, ops), a), RecordsOf(Run(o, ops + more), a), payload, sig.value, asOf);
    }
  }

  /** Verdicts on an owner before the closing tick of its last key known to a peer are final at
      that peer, however further honest announcements are delivered. */
  lemma PeerRunHonestFinality(owner: Owner, ticks: seq<real>, peer: Owner, ops: seq<Op>, more: seq<Op>,
                              schedule: seq<nat>, later: seq<nat>, payload: seq<byte>, sig: Signature, asOf: Tick)
    requires peer.id != owner.id && Ascending(ticks)
    requires RegisteredKey(ops, owner.id) == Some(owner.Key(0)) && NotRegisteredAgain(more, owner.id)
    requires forall i :: 0 <= i < |schedule| ==> schedule[i] < |ticks|
    requires forall i :: 0 <= i < |later| ==> later[i] < |ticks|
    requires Heard(ops, owner.id) == Deliveries(owner, ticks, schedule)
    requires Heard(more, owner.id) == Deliveries(owner, ticks, later)
    requires var m := Known(schedule);
      m < |ticks| && sig.value.Envelope? ==> sig.value.tick.Before(At(ticks[m])) && asOf.Before(At(ticks[m]))
    ensures VerifiesAsOf(Run(peer, ops + more), payload, sig, owner.id, asOf)
         == VerifiesAsOf(Run(peer, ops), payload, sig, owner.id, asOf)
    ensures CheckAsOf(Run(peer, ops + more), payload, sig, owner.id, asOf)
         == CheckAsOf(Run(peer, ops), payload, sig, owner.id, asOf)
  {
    HeardMore(ops, more, owner.id);
    DeliveriesJoin(owner, ticks, schedule, later);
    PeerHolds(owner, ticks, peer, ops, schedule);
    PeerHolds(owner, ticks, peer, ops + more, schedule + later);
    PeerVerdictsFinal(owner, ticks, schedule, later, payload, sig.value, asOf);
    PeerNeverRaises(owner, ticks, schedule, sig.value);
    PeerNeverRaises(owner, ticks, schedule + later, sig.value);
  }

  lemma DeliveriesJoin(owner: Owner, ticks: seq<real>, schedule: seq<nat>, later: seq<nat>)
    requires forall i :: 0 <= i < |schedule| ==> schedule[i] < |ticks|
    requires forall i :: 0 <= i < |later| ==> later[i] < |ticks|
    ensures forall i :: 0 <= i < |schedule + later| ==> (schedule + later)[i] < |ticks|
    ensures Deliveries(owner, ticks, schedule) + Deliveries(owner, ticks, later)
         == Deliveries(owner, ticks, schedule + later)
  {
  }

  lemma PeerHolds(owner: Owner, ticks: seq<real>, peer: Owner, ops: seq<Op>, schedule: seq<nat>)
    requires peer.id != owner.id && RegisteredKey(ops, owner.id) == Some(owner.Key(0))
    requires forall i :: 0 <= i < |schedule| ==> schedule[i] < |ticks|
    requires Heard(ops, owner.id) == Deliveries(owner, ticks, schedule)
    ensures RecordsOf(Run(peer, ops), owner.id)
         == ObserveAll(Chain(owner, [], false), Deliveries(owner, ticks, schedule))
  {
    PeerHistory(peer, ops, owner.id);
    assert Chain(owner, [], false) == [Record(owner.Key(0), At(0.0), Infinity, false)];
  }
}
