/** The rotating identity object, and what it guarantees over whole runs. */
module Identity {
  import opened Wrappers
  import opened Positional
  import opened Crypto
  import opened KeyHistory

  datatype Signature = Signature(signer: AgentId, value: Envelope)
  datatype Error = NoPrivateKey | UnknownPriorKey | UnreadableKey | BadContinuity

  /** The value of an identity object. */
  datatype State = State(owner: Owner, count: nat, clock: Tick, last: Option<Announcement>,
                         records: map<AgentId, seq<Record>>)

  ghost predicate WellFormed(s: State) {
    s.owner.id in s.records && forall a :: a in s.records ==> s.records[a] != []
  }

  // ---- the operations as functions ----

  function Initial(o: Owner): (s: State)
    ensures WellFormed(s)
  {
    State(o, 0, At(0.0), None, map[o.id := [Record(o.Key(0), At(0.0), Infinity, true)]])
  }

  function RecordsOf(s: State, a: AgentId): seq<Record> {
    if a in s.records then s.records[a] else []
  }

  function RotateState(s: State): (r: Result<State, Error>)
    requires WellFormed(s)
    ensures r.Ok? ==> WellFormed(r.value)
  {
    var me, recs := s.owner.id, s.records[s.owner.id];
    var prev := recs[Active(recs)];
    if !prev.holdsPrivate then Err(NoPrivateKey) else
      var newKey := s.owner.Key(s.count + 1);
      var ann := Announcement(me, prev.Id(), IdOf(newKey), newKey, s.clock, MadeBy(prev.key, NewKey(newKey)));
      Ok(s.(count := s.count + 1, last := Some(ann), records := s.records[me := Rotated(recs, s.clock, newKey)]))
  }

  function ObserveState(s: State, ann: Announcement): (r: Result<State, Error>)
    requires WellFormed(s)
    ensures r.Ok? ==> WellFormed(r.value)
  {
    var recs := RecordsOf(s, ann.agent);
    if Lookup(recs, ann.prevKid).None? then Err(UnknownPriorKey)
    else if !Lookup(recs, ann.prevKid).value.key.Readable() then Err(UnreadableKey)
    else if !Accepts(recs, ann) then Err(BadContinuity)
    else Ok(s.(records := s.records[ann.agent := Extended(recs, ann)]))
  }

  /** What is refused and why, and that nothing but one agent's records changes. */
  lemma ObserveMeans(s: State, ann: Announcement)
    requires WellFormed(s)
    ensures var r, recs := ObserveState(s, ann), RecordsOf(s, ann.agent);
      var prev := Lookup(recs, ann.prevKid);
      && (r == Err(UnknownPriorKey) <==> forall i :: 0 <= i < |recs| ==> recs[i].Id() != ann.prevKid)
      && (r == Err(UnreadableKey) <==> prev.Some? && !prev.value.key.Readable())
      && (r == Err(BadContinuity) <==>
            && prev.Some? && prev.value.key.Readable()
            && ann.continuity != MadeBy(prev.value.key, Covered(NewKey(ann.newPub))))
      && (r.Ok? ==>
            && r.value == s.(records := r.value.records)
            && forall a :: a != ann.agent ==> RecordsOf(r.value, a) == RecordsOf(s, a))
  {
    var recs := RecordsOf(s, ann.agent);
    assert Find(recs, ann.prevKid) < |recs| ==> recs[Find(recs, ann.prevKid)].Id() == ann.prevKid;
  }

  function RegisterState(s: State, a: AgentId, key: PublicKey): State {
    s.(records := s.records[a := [Record(key, At(0.0), Infinity, false)]])
  }

  function SignWith(s: State, payload: seq<byte>, atTick: Option<Tick>): Result<Signature, Error>
    requires WellFormed(s)
  {
    var recs := s.records[s.owner.id];
    var r := recs[Active(recs)];
    if !r.holdsPrivate then Err(NoPrivateKey) else
      var tick := if atTick.Some? then atTick.value else s.clock;
      Ok(Signature(s.owner.id, Envelope(r.Id(), tick, MadeBy(r.key, Stamped(payload, r.Id(), tick)))))
  }

  predicate VerifiesAsOf(s: State, payload: seq<byte>, sig: Signature, agent: AgentId, asOf: Tick) {
    sig.signer == agent && Verdict(RecordsOf(s, agent), payload, sig.value, asOf)
  }

  /** Keys derived by an owner can be read. */
  lemma ChainNeverRaises(o: Owner, ticks: seq<real>, own: bool, env: Envelope)
    ensures !Raises(Chain(o, ticks, own), env)
  {
    var recs := Chain(o, ticks, own);
    assert forall j :: 0 <= j < |recs| ==> recs[j] == ChainRecord(o, ticks, own, j);
  }

  lemma InitialNeverRaises(o: Owner, a: AgentId, env: Envelope)
    ensures !Raises(RecordsOf(Initial(o), a), env)
  {
  }

  function CheckAsOf(s: State, payload: seq<byte>, sig: Signature, agent: AgentId, asOf: Tick): Result<bool, Error> {
    if sig.signer == agent && Raises(RecordsOf(s, agent), sig.value) then Err(UnreadableKey)
    else Ok(VerifiesAsOf(s, payload, sig, agent, asOf))
  }

  // ---- the object ----

  class KeyRecord {
    const key: PublicKey
    const issuedAt: Tick
    const holdsPrivate: bool
    var rotatedOut: Tick

    // where the record is kept; so no record sits in two places
    ghost const agent: AgentId
    ghost const position: nat

    constructor (key: PublicKey, issuedAt: Tick, holdsPrivate: bool, ghost agent: AgentId, ghost position: nat)
      ensures Value() == Record(key, issuedAt, Infinity, holdsPrivate)
      ensures this.agent == agent && this.position == position
    {
      this.key, this.issuedAt, this.holdsPrivate, rotatedOut := key, issuedAt, holdsPrivate, Infinity;
      this.agent, this.position := agent, position;
    }

    function Value(): Record
      reads this
    {
      Record(key, issuedAt, rotatedOut, holdsPrivate)
    }
  }

  class RotatingIdentity {
    const owner: Owner
    var rotationCount: nat
    var clock: Tick
    var lastRotation: Option<Announcement>
    var records: map<AgentId, seq<KeyRecord>>

    ghost var model: map<AgentId, seq<Record>>  // the values of the records
    ghost var repr: set<KeyRecord>

    ghost predicate Valid()
      reads this, repr
    {
      && owner.id in records
      && model.Keys == records.Keys
      && (forall a :: a in records ==> records[a] != [] && |model[a]| == |records[a]|)
      && (forall a, i :: a in records && 0 <= i < |records[a]| ==> Placed(records[a][i], a, i))
    }

    ghost predicate Placed(r: KeyRecord, a: AgentId, i: int)
      requires a in model && 0 <= i < |model[a]|
      reads this, repr
    {
      r in repr && r.agent == a && r.position == i && r.Value() == model[a][i]
    }

    ghost function View(): (s: State)
      reads this
    {
      State(owner, rotationCount, clock, lastRotation, model)
    }

    constructor (o: Owner)
      ensures Valid() && View() == Initial(o) && fresh(repr)
    {
      var first := new KeyRecord(o.Key(0), At(0.0), true, o.id, 0);
      owner := o;
      rotationCount := 0;
      clock := At(0.0);
      lastRotation := None;
      records := map[o.id := [first]];
      model := map[o.id := [Record(o.Key(0), At(0.0), Infinity, true)]];
      repr := {first};
    }

    method AdvanceTo(tick: Tick)
      requires Valid()
      modifies this`clock
      ensures Valid() && View() == old(View()).(clock := tick)
    {
      clock := tick;
    }

    method ActiveRecord(agent: AgentId) returns (r: KeyRecord, ghost i: nat)
      requires Valid() && agent in records
      ensures WellFormed(View()) && i == Active(model[agent]) && r == records[agent][i]
    {
      var rs := records[agent];
      for k := 0 to |rs|
        invariant forall j :: 0 <= j < k ==> model[agent][j].rotatedOut != Infinity
      {
        assert Placed(rs[k], agent, k);
        if rs[k].rotatedOut == Infinity {
          return rs[k], k;
        }
      }
      r, i := rs[|rs| - 1], |rs| - 1;
    }

    method FindRecord(agent: AgentId, kid: KeyId) returns (r: Option<KeyRecord>, ghost i: nat)
      requires Valid()
      ensures i == Find(RecordsOf(View(), agent), kid)
      ensures r.Some? <==> i < |RecordsOf(View(), agent)|
      ensures r.Some? ==> agent in records && r.value == records[agent][i]
    {
      var rs := if agent in records then records[agent] else [];
      for k := 0 to |rs|
        invariant forall j :: 0 <= j < k ==> model[agent][j].Id() != kid
      {
        assert Placed(rs[k], agent, k);
        if IdOf(rs[k].key) == kid {
          return Some(rs[k]), k;
        }
      }
      r, i := None, |rs|;
    }

    method Sign(payload: seq<byte>, atTick: Option<Tick>) returns (r: Result<Signature, Error>)
      requires Valid()
      ensures WellFormed(View()) && r == SignWith(View(), payload, atTick)
    {
      var record, i := ActiveRecord(owner.id);
      assert Placed(record, owner.id, i);
      if !record.holdsPrivate {
        return Err(NoPrivateKey);
      }
      var tick := if atTick.Some? then atTick.value else clock;
      var kid := IdOf(record.key);
      r := Ok(Signature(owner.id, Envelope(kid, tick, MadeBy(record.key, Stamped(payload, kid, tick)))));
    }

    method RotateKey() returns (r: Result<KeyId, Error>)
      requires Valid()
      modifies this, repr
      ensures Valid() && fresh(repr - old(repr)) && old(WellFormed(View()))
      ensures match old(RotateState(View()))
        case Ok(after) => View() == after && r == Ok(IdOf(owner.Key(after.count)))
        case Err(e) => View() == old(View()) && r == Err(e)
    {
      var me := owner.id;
      var prev, i := ActiveRecord(me);
      assert Placed(prev, me, i);
      if !prev.holdsPrivate {
        return Err(NoPrivateKey);
      }
      rotationCount := rotationCount + 1;
      var newKey := owner.Key(rotationCount);
      CloseAndAppend(me, prev, i, clock, newKey, true);
      lastRotation := Some(Announcement(me, IdOf(prev.key), IdOf(newKey), newKey, clock,
                                        MadeBy(prev.key, NewKey(newKey))));
      r := Ok(IdOf(newKey));
    }

    method ObserveRotation(ann: Announcement) returns (r: Result<(), Error>)
      requires Valid()
      modifies this, repr
      ensures Valid() && fresh(repr - old(repr)) && old(WellFormed(View()))
      ensures match old(ObserveState(View(), ann))
        case Ok(after) => View() == after && r == Ok(())
        case Err(e) => View() == old(View()) && r == Err(e)
    {
      var agent := ann.agent;
      var found, i := FindRecord(agent, ann.prevKid);
      if found.None? {
        return Err(UnknownPriorKey);
      }
      var prev := found.value;
      assert Placed(prev, agent, i);
      if !prev.key.Readable() {
        return Err(UnreadableKey);
      }
      if !Verifies(prev.key, NewKey(ann.newPub), ann.continuity) {
        return Err(BadContinuity);
      }
      CloseAndAppend(agent, prev, i, ann.issuedAt, ann.newPub, false);
      r := Ok(());
    }

    /** The effect both rotations have on the records: close one window at a tick and append
        a record opening there. */
    method CloseAndAppend(agent: AgentId, prev: KeyRecord, ghost i: nat, tick: Tick, key: PublicKey, private: bool)
      requires Valid() && agent in records && i < |records[agent]| && prev == records[agent][i]
      modifies this`records, this`model, this`repr, prev`rotatedOut
      ensures Valid() && fresh(repr - old(repr))
      ensures model == old(model)[agent := Shut(old(model)[agent], i, tick) + [Record(key, tick, Infinity, private)]]
    {
      assert Placed(prev, agent, i);
      prev.rotatedOut := tick;
      var record := new KeyRecord(key, tick, private, agent, |records[agent]|);
      model := model[agent := Shut(model[agent], i, tick) + [record.Value()]];
      records := records[agent := records[agent] + [record]];
      repr := repr + {record};
    }

    method RegisterPeer(agent: AgentId, key: PublicKey)
      requires Valid()
      modifies this
      ensures Valid() && fresh(repr - old(repr)) && View() == RegisterState(old(View()), agent, key)
    {
      var record := new KeyRecord(key, At(0.0), false, agent, 0);
      records := records[agent := [record]];
      model, repr := model[agent := [Record(key, At(0.0), Infinity, false)]], repr + {record};
    }

    method VerifyAsOf(payload: seq<byte>, sig: Signature, agent: AgentId, asOf: Tick) returns (r: Result<bool, Error>)
      requires Valid()
      ensures r == CheckAsOf(View(), payload, sig, agent, asOf)
    {
      if sig.signer != agent || sig.value.NotAnEnvelope? {
        return Ok(false);
      }
      var env := sig.value;
      var found, i := FindRecord(agent, env.kid);
      if found.None? {
        return Ok(false);
      }
      var record := found.value;
      assert Placed(record, agent, i);
      if !record.key.Readable() {
        return Err(UnreadableKey);
      }
      if !Verifies(record.key, Stamped(payload, env.kid, env.tick), env.raw) {
        return Ok(false);
      }
      if !(record.issuedAt.AtMost(env.tick) && env.tick.Before(record.rotatedOut)) {
        return Ok(false);
      }
      return Ok(record.issuedAt.AtMost(asOf) && asOf.Before(record.rotatedOut));
    }

    method Verify(payload: seq<byte>, sig: Signature, agent: AgentId) returns (r: Result<bool, Error>)
      requires Valid()
      ensures r == CheckAsOf(View(), payload, sig, agent, View().clock)
    {
      r := VerifyAsOf(payload, sig, agent, clock);
    }
  }
}
