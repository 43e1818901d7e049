/** Announcements delivered by others.  A signature covers neither the tick of an announcement nor
    its own purpose: rotations are accepted with any tick, and so are the bytes of any signed
    message.  What a peer then holds of the owner's keys. */
module Retimed {
  import opened Wrappers
  import opened Positional
  import opened Crypto
  import opened KeyHistory
  import opened Stamps

  /** The tick of an announcement plays no part in its acceptance. */
  lemma TickIsUnsigned(recs: seq<Record>, ann: Announcement, tick: Tick)
    ensures Accepts(recs, ann) <==> Accepts(recs, ann.(issuedAt := tick))
  {
  }

  /** Rotation number k, or a message signed by key number k, announced with some tick. */
  datatype Delivery =
    | Rotation(k: nat, tick: Tick)
    | Stamp(k: nat, tick: Tick, payload: seq<byte>, stamp: Tick)

  function Delivered(o: Owner, d: Delivery): Announcement {
    match d
    case Rotation(k, tick) => AnnounceAt(o, k, 0.0).(issuedAt := tick)
    case Stamp(k, tick, payload, stamp) => StampAnnouncement(o, k, payload, stamp, tick)
  }

  function AllDelivered(o: Owner, ds: seq<Delivery>): seq<Announcement> {
    seq(|ds|, i requires 0 <= i < |ds| => Delivered(o, ds[i]))
  }

  /** What a peer holds that registered the owner's first key and then heard a schedule. */
  function PeerList(o: Owner, ds: seq<Delivery>): seq<Record> {
    ObserveAll(Chain(o, [], false), AllDelivered(o, ds))
  }

  /** These are all the announcements that can be made of an owner's signatures. */
  lemma DeliveriesAreAll(o: Owner, recs: seq<Record>, ann: Announcement)
    requires Accepts(recs, ann) && OwnerMade(o, ann.continuity) && ann.agent == o.id
    ensures exists d :: Delivered(o, d).(newKid := ann.newKid) == ann
  {
    RotationUnlessStamp(o, recs, ann);
    if IsStamp(ann) {
      var i: nat :| MadeByKey(o, ann.continuity, i);
      var p := Find(recs, ann.prevKid);
      assert recs[p].key == o.Key(i);
      assert Delivered(o, Stamp(i, ann.issuedAt, ann.newPub.payload, ann.newPub.tick)).(newKid := ann.newKid) == ann;
    } else {
      var k: nat :| RotationNumber(o, ann, k);
      assert Delivered(o, Rotation(k, ann.issuedAt)).(newKid := ann.newKid) == ann;
    }
  }

  function RotationsIn(ds: seq<Delivery>): seq<nat> {
    if ds == [] then [] else
      var init, d := RotationsIn(ds[..|ds| - 1]), ds[|ds| - 1];
      if d.Rotation? then init + [d.k] else init
  }

  /** How many rotations are learned. */
  function Learned(ds: seq<Delivery>): nat {
    Known(RotationsIn(ds))
  }

  /** The tick of the first accepted announcement of key j. */
  function IssuedAt(ds: seq<Delivery>, j: nat): Tick {
    if ds == [] || j == 0 then At(0.0) else
      var init, d := ds[..|ds| - 1], ds[|ds| - 1];
      if d.Rotation? && d.k == Learned(init) && d.k + 1 == j then d.tick else IssuedAt(init, j)
  }

  /** The tick of the last accepted announcement by key j, of either kind; one by a key not yet
      held is rejected. */
  function ClosedAt(ds: seq<Delivery>, j: nat): Tick {
    if ds == [] then Infinity else
      var init, d := ds[..|ds| - 1], ds[|ds| - 1];
      if d.k == j && d.k <= Learned(init) then d.tick else ClosedAt(init, j)
  }

  function HeldRecord(o: Owner, ds: seq<Delivery>, j: nat): Record {
    Record(o.Key(j), IssuedAt(ds, j), ClosedAt(ds, j), false)
  }

  /** What is held of the owner's key number j. */
  function Held(o: Owner, ds: seq<Delivery>, j: nat): Option<Record> {
    if j <= Learned(ds) then Some(HeldRecord(o, ds, j)) else None
  }

  lemma LearnedStep(ds: seq<Delivery>, d: Delivery)
    ensures Learned(ds + [d]) == if d.Rotation? && d.k == Learned(ds) then Learned(ds) + 1 else Learned(ds)
  {
    assert (ds + [d])[..|ds|] == ds;
    assert (RotationsIn(ds) + [d.k])[..|RotationsIn(ds)|] == RotationsIn(ds);
  }

  lemma {:induction false} OpenBeyondLearned(ds: seq<Delivery>, j: nat)
    requires Learned(ds) < j
    ensures ClosedAt(ds, j) == Infinity
  {
    if ds != [] {
      var init, d := ds[..|ds| - 1], ds[|ds| - 1];
      assert ds == init + [d];
      LearnedStep(init, d);
      OpenBeyondLearned(init, j);
    }
  }

  /** What one more delivery does to the record of each key. */
  lemma HeldRecordStep(o: Owner, ds: seq<Delivery>, d: Delivery, j: nat)
    ensures var m, r := Learned(ds), HeldRecord(o, ds, j);
      HeldRecord(o, ds + [d], j) ==
        if d.k <= m && d.k == j then r.(rotatedOut := d.tick)
        else if d.Rotation? && d.k == m && j == m + 1 then Record(o.Key(j), d.tick, Infinity, false)
        else r
  {
    assert (ds + [d])[..|ds|] == ds;
    OpenBeyondLearned(ds, Learned(ds) + 1);
  }

  ghost predicate HoldsDelivered(o: Owner, ds: seq<Delivery>, recs: seq<Record>) {
    forall j: nat :: Lookup(recs, IdOf(o.Key(j))) == Held(o, ds, j)
  }

  lemma AcceptedWhenHeld(o: Owner, ds: seq<Delivery>, recs: seq<Record>, d: Delivery)
    requires HoldsDelivered(o, ds, recs)
    ensures Accepts(recs, Delivered(o, d)) <==> d.k <= Learned(ds)
  {
    assert Lookup(recs, IdOf(o.Key(d.k))) == Held(o, ds, d.k);
  }

  lemma HeldStep(o: Owner, ds: seq<Delivery>, recs: seq<Record>, d: Delivery, j: nat)
    requires HoldsDelivered(o, ds, recs)
    ensures var ann := Delivered(o, d);
      Lookup(if Accepts(recs, ann) then Extended(recs, ann) else recs, IdOf(o.Key(j))) == Held(o, ds + [d], j)
  {
    var ann := Delivered(o, d);
    AcceptedWhenHeld(o, ds, recs, d);
    assert Lookup(recs, IdOf(o.Key(j))) == Held(o, ds, j);
    HeldRecordStep(o, ds, d, j);
    LearnedStep(ds, d);
    if Accepts(recs, ann) {
      LookupExtended(recs, ann, IdOf(o.Key(j)));
    }
  }

  /** Under every schedule of rotations and signed messages, announced with any ticks, the peer
      holds exactly the owner's keys that were learned, each issued at the tick it was first
      accepted with and closed at the tick of the last accepted announcement by it. */
  lemma {:induction false} RetimedHistory(o: Owner, ds: seq<Delivery>)
    ensures HoldsDelivered(o, ds, PeerList(o, ds))
  {
    if ds == [] {
      NothingDelivered(o);
    } else {
      RetimedHistory(o, ds[..|ds| - 1]);
      HistoryStep(o, ds);
    }
  }

  lemma HistoryStep(o: Owner, ds: seq<Delivery>)
    requires ds != []
    requires HoldsDelivered(o, ds[..|ds| - 1], PeerList(o, ds[..|ds| - 1]))
    ensures HoldsDelivered(o, ds, PeerList(o, ds))
  {
    OneMoreDelivered(o, ds);
    DeliveredStep(o, ds, PeerList(o, ds[..|ds| - 1]));
  }

  lemma DeliveredStep(o: Owner, ds: seq<Delivery>, before: seq<Record>)
    requires ds != [] && HoldsDelivered(o, ds[..|ds| - 1], before)
    ensures var ann := Delivered(o, ds[|ds| - 1]);
      HoldsDelivered(o, ds, if Accepts(before, ann) then Extended(before, ann) else before)
  {
    var init, d := ds[..|ds| - 1], ds[|ds| - 1];
    var ann := Delivered(o, d);
    assert ds == init + [d];
    forall j: nat
      ensures Lookup(if Accepts(before, ann) then Extended(before, ann) else before, IdOf(o.Key(j))) == Held(o, ds, j)
    {
      HeldStep(o, init, before, d, j);
    }
  }

  lemma NothingDelivered(o: Owner)
    ensures HoldsDelivered(o, [], Chain(o, [], false))
  {
    forall j: nat ensures Lookup(Chain(o, [], false), IdOf(o.Key(j))) == Held(o, [], j) {
      FindInChain(o, [], false, j);
      assert Chain(o, [], false)[0] == ChainRecord(o, [], false, 0);
    }
  }

  lemma OneMoreDelivered(o: Owner, ds: seq<Delivery>)
    requires ds != []
    ensures var ann := Delivered(o, ds[|ds| - 1]);
      var before := PeerList(o, ds[..|ds| - 1]);
      PeerList(o, ds) ==
        if Accepts(before, ann) then Extended(before, ann) else before
  {
    AnotherDelivered(o, ds[..|ds| - 1], ds[|ds| - 1]);
    assert ds == ds[..|ds| - 1] + [ds[|ds| - 1]];
  }

  lemma AnotherDelivered(o: Owner, ds: seq<Delivery>, d: Delivery)
    ensures var before, ann := PeerList(o, ds), Delivered(o, d);
      PeerList(o, ds + [d]) ==
        if Accepts(before, ann) then Extended(before, ann) else before
  {
    assert AllDelivered(o, ds + [d]) == AllDelivered(o, ds) + [Delivered(o, d)];
    ObserveOneMore(Chain(o, [], false), AllDelivered(o, ds), Delivered(o, d));
  }

  /** The announcements that are accepted when all are heard in turn. */
  function Accepted(recs: seq<Record>, anns: seq<Announcement>): seq<Announcement> {
    if anns == [] then [] else
      var init, ann := anns[..|anns| - 1], anns[|anns| - 1];
      Accepted(recs, init) + if Accepts(ObserveAll(recs, init), ann) then [ann] else []
  }

  /** A schedule that announces the same, but for the stated new key id, which is never read. */
  ghost predicate Announces(o: Owner, ds: seq<Delivery>, anns: seq<Announcement>) {
    |ds| == |anns| && forall i :: 0 <= i < |ds| ==> Delivered(o, ds[i]).(newKid := anns[i].newKid) == anns[i]
  }

  lemma NewKidUnread(recs: seq<Record>, ann: Announcement, newKid: KeyId)
    ensures Accepts(recs, ann) <==> Accepts(recs, ann.(newKid := newKid))
    ensures Accepts(recs, ann) ==> Extended(recs, ann) == Extended(recs, ann.(newKid := newKid))
  {
  }

  /** The announcements that are accepted of any that are made with the owner's signatures are
      some such schedule, and what the peer ends up with is what that schedule delivers. */
  lemma {:induction false} EveryScheduleIsDelivered(o: Owner, anns: seq<Announcement>) returns (ds: seq<Delivery>)
    requires forall ann <- Accepted(Chain(o, [], false), anns) :: ann.agent == o.id && OwnerMade(o, ann.continuity)
    ensures Announces(o, ds, Accepted(Chain(o, [], false), anns))
    ensures PeerList(o, ds) == ObserveAll(Chain(o, [], false), anns)
  {
    if anns == [] {
      ds := [];
    } else {
      var init, ann := anns[..|anns| - 1], anns[|anns| - 1];
      var recs := ObserveAll(Chain(o, [], false), init);
      ds := EveryScheduleIsDelivered(o, init);
      if Accepts(recs, ann) {
        assert ann in Accepted(Chain(o, [], false), anns);
        DeliveriesAreAll(o, recs, ann);
        var d :| Delivered(o, d).(newKid := ann.newKid) == ann;
        NewKidUnread(recs, Delivered(o, d), ann.newKid);
        AnotherDelivered(o, ds, d);
        ds := ds + [d];
      }
    }
  }

  // ---- rotations with their true ticks ----

  ghost predicate Truthful(ticks: seq<real>, ds: seq<Delivery>) {
    forall i :: 0 <= i < |ds| ==> ds[i].Rotation? && ds[i].k < |ticks| && ds[i].tick == At(ticks[ds[i].k])
  }

  lemma {:induction false} TrueTicks(ticks: seq<real>, ds: seq<Delivery>, j: nat)
    requires Truthful(ticks, ds)
    ensures Learned(ds) <= |ticks|
    ensures 0 < j <= Learned(ds) ==> IssuedAt(ds, j) == At(ticks[j - 1])
    ensures j < Learned(ds) ==> ClosedAt(ds, j) == At(ticks[j])
    ensures Learned(ds) <= j ==> ClosedAt(ds, j) == Infinity
  {
    if ds != [] {
      var init, d := ds[..|ds| - 1], ds[|ds| - 1];
      assert ds == init + [d];
      TrueTicks(ticks, init, j);
      LearnedStep(init, d);
    }
  }

  /** With the true ticks this is the prefix of the owner's history. */
  lemma TrueTicksHoldChain(o: Owner, ticks: seq<real>, ds: seq<Delivery>, j: nat)
    requires Truthful(ticks, ds)
    ensures Learned(ds) <= |ticks|
    ensures Held(o, ds, j) == Lookup(Chain(o, ticks[..Learned(ds)], false), IdOf(o.Key(j)))
  {
    TrueTicks(ticks, ds, j);
    var known := ticks[..Learned(ds)];
    FindInChain(o, known, false, j);
    if j <= Learned(ds) {
      assert Chain(o, known, false)[j] == ChainRecord(o, known, false, j);
    }
  }

  // ---- verdicts ----

  /** Every key held is the owner's or the bytes of a message. */
  ghost predicate KeysOrStamps(o: Owner, recs: seq<Record>) {
    forall i :: 0 <= i < |recs| ==> IsKeyOf(o, recs[i].key) || recs[i].key.StampedBytes?
  }

  ghost predicate IsKeyOf(o: Owner, key: PublicKey) {
    exists j: nat :: key == o.Key(j)
  }

  lemma {:induction false} OnlyKeysOrStamps(o: Owner, ds: seq<Delivery>)
    ensures KeysOrStamps(o, PeerList(o, ds))
  {
    if ds == [] {
      assert Chain(o, [], false)[0].key == o.Key(0);
    } else {
      OnlyKeysOrStamps(o, ds[..|ds| - 1]);
      OneMoreDelivered(o, ds);
      NewKeyOrStamp(o, PeerList(o, ds[..|ds| - 1]), ds[|ds| - 1]);
    }
  }

  lemma NewKeyOrStamp(o: Owner, recs: seq<Record>, d: Delivery)
    requires KeysOrStamps(o, recs)
    ensures var ann := Delivered(o, d); Accepts(recs, ann) ==> KeysOrStamps(o, Extended(recs, ann))
  {
    var ann := Delivered(o, d);
    assert IsKeyOf(o, ann.newPub) || ann.newPub.StampedBytes? by {
      if d.Rotation? {
        assert ann.newPub == o.Key(d.k + 1);
      }
    }
  }

  ghost predicate AcceptedBy(o: Owner, ds: seq<Delivery>, j: nat, payload: seq<byte>, env: Envelope, asOf: Tick) {
    && env.Envelope? && env.kid == IdOf(o.Key(j))
    && env.raw == MadeBy(o.Key(j), Stamped(payload, env.kid, env.tick))
    && HeldRecord(o, ds, j).Covers(env.tick) && HeldRecord(o, ds, j).Covers(asOf)
  }

  lemma VerdictOnKey(o: Owner, ds: seq<Delivery>, j: nat, payload: seq<byte>, env: Envelope, asOf: Tick)
    requires env.Envelope? && env.kid == IdOf(o.Key(j))
    ensures Verdict(PeerList(o, ds), payload, env, asOf) <==>
      j <= Learned(ds) && AcceptedBy(o, ds, j, payload, env, asOf)
  {
    RetimedHistory(o, ds);
    assert Lookup(PeerList(o, ds), env.kid) == Held(o, ds, j);
  }

  /** What such a peer accepts: genuine signatures of a learned key whose retimed window holds both
      ticks.  Nobody signs with the bytes of a message as a key. */
  lemma RetimedVerdict(o: Owner, ds: seq<Delivery>, payload: seq<byte>, env: Envelope, asOf: Tick)
    requires env.Envelope? && env.raw.MadeBy? ==> !env.raw.key.StampedBytes?
    ensures Verdict(PeerList(o, ds), payload, env, asOf) <==>
      exists j: nat :: j <= Learned(ds) && AcceptedBy(o, ds, j, payload, env, asOf)
  {
    var recs := PeerList(o, ds);
    if j: nat :| j <= Learned(ds) && AcceptedBy(o, ds, j, payload, env, asOf) {
      VerdictOnKey(o, ds, j, payload, env, asOf);
    }
    if Verdict(recs, payload, env, asOf) {
      OnlyKeysOrStamps(o, ds);
      var p := Find(recs, env.kid);
      assert IsKeyOf(o, recs[p].key);
      var j: nat :| recs[p].key == o.Key(j);
      VerdictOnKey(o, ds, j, payload, env, asOf);
    }
  }
}
