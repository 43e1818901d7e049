/** Announcements whose new key is the bytes of a signed message.  Message signatures and
    continuity signatures are made by the same key over plain bytes, so every message an agent
    signs also vouches for the bytes it covers: what accepting such an announcement does, and how
    to tell it from a rotation. */
module Stamps {
  import opened Wrappers
  import opened Positional
  import opened Crypto
  import opened KeyHistory
  import opened Identity
  import opened Validator
  import opened ValidatorLaws
  import Encodings

  /** The bytes that a message signed by a key covers, taken as a key. */
  function StampOf(key: PublicKey, payload: seq<byte>, stamp: Tick): PublicKey {
    StampedBytes(payload, IdOf(key), stamp)
  }

  /** The announcement that presents a message signed by key number j as a rotation. */
  function StampAnnouncement(o: Owner, j: nat, payload: seq<byte>, stamp: Tick, tick: Tick): Announcement {
    var key, bytes := o.Key(j), StampOf(o.Key(j), payload, stamp);
    Announcement(o.id, IdOf(key), IdOf(bytes), bytes, tick, MadeBy(key, Stamped(payload, IdOf(key), stamp)))
  }

  /** It is accepted for every key that is held, and ends that key's window at any tick. */
  lemma StampIsAccepted(o: Owner, ticks: seq<real>, own: bool, j: nat, payload: seq<byte>, stamp: Tick, tick: Tick)
    requires j <= |ticks|
    ensures var recs, ann := Chain(o, ticks, own), StampAnnouncement(o, j, payload, stamp, tick);
      && Accepts(recs, ann)
      && Lookup(Extended(recs, ann), IdOf(o.Key(j))) == Some(ChainRecord(o, ticks, own, j).(rotatedOut := tick))
      && Lookup(Extended(recs, ann), ann.newKid) == Some(Record(ann.newPub, tick, Infinity, false))
  {
    var recs, ann := Chain(o, ticks, own), StampAnnouncement(o, j, payload, stamp, tick);
    FindInChain(o, ticks, own, j);
    assert recs[j] == ChainRecord(o, ticks, own, j);
    assert Accepts(recs, ann);
    LookupExtended(recs, ann, IdOf(o.Key(j)));
    LookupExtended(recs, ann, ann.newKid);
    if Lookup(recs, ann.newKid).Some? {
      ChainMembers(o, ticks, own, ann.newKid);
    }
  }

  // ---- telling the two apart ----

  /** The signatures an owner makes: over its messages, naming the signing key, and over its next
      key when it rotates. */
  ghost predicate OwnerMade(o: Owner, raw: RawSignature) {
    exists i: nat :: MadeByKey(o, raw, i)
  }

  ghost predicate MadeByKey(o: Owner, raw: RawSignature, i: nat) {
    && raw.MadeBy? && raw.key == o.Key(i)
    && (raw.message == NewKey(o.Key(i + 1)) || (raw.message.Stamped? && raw.message.kid == IdOf(o.Key(i))))
  }

  /** A rotation the owner made, announced with any tick. */
  ghost predicate IsRotation(o: Owner, ann: Announcement) {
    exists k: nat :: RotationNumber(o, ann, k)
  }

  ghost predicate RotationNumber(o: Owner, ann: Announcement, k: nat) {
    && ann.prevKid == IdOf(o.Key(k)) && ann.newPub == o.Key(k + 1)
    && ann.continuity == MadeBy(o.Key(k), NewKey(o.Key(k + 1)))
  }

  /** The new key reads as a message signed by the prior key: the announcement alone tells. */
  predicate IsStamp(ann: Announcement) {
    ann.newPub.StampedBytes? && ann.newPub.kid == ann.prevKid
  }

  /** Given only signatures the owner made, an accepted announcement is a rotation the owner made
      exactly when its new key is not the bytes of a message by the prior key. */
  lemma RotationUnlessStamp(o: Owner, recs: seq<Record>, ann: Announcement)
    requires Accepts(recs, ann) && OwnerMade(o, ann.continuity)
    ensures IsRotation(o, ann) <==> !IsStamp(ann)
  {
    var i: nat :| MadeByKey(o, ann.continuity, i);
    var p := Find(recs, ann.prevKid);
    assert recs[p].key == o.Key(i);
    if ann.continuity.message == NewKey(o.Key(i + 1)) {
      assert RotationNumber(o, ann, i);
    }
  }

  /** And every stamp is such an announcement, for every message the prior key signed. */
  lemma StampsAreStamps(o: Owner, j: nat, payload: seq<byte>, stamp: Tick, tick: Tick)
    ensures var ann := StampAnnouncement(o, j, payload, stamp, tick);
      IsStamp(ann) && OwnerMade(o, ann.continuity) && !IsRotation(o, ann)
  {
    var ann := StampAnnouncement(o, j, payload, stamp, tick);
    assert MadeByKey(o, ann.continuity, j);
  }

  // ---- can the bytes be read as a key ----

  /** The bytes of a message pass for a key exactly when they number 32. */
  lemma StampReadable(key: PublicKey, payload: seq<byte>, t: real)
    ensures StampOf(key, payload, At(t)).Readable() <==> |payload| + Encodings.PrintedLength(t) == 14
  {
  }

  lemma StampReadableExample(key: PublicKey, payload: seq<byte>)
    ensures StampOf(key, payload, At(5.0)).Readable() <==> |payload| == 11
    ensures StampOf(key, payload, Infinity).Readable() <==> |payload| == 11
  {
    assert Encodings.PrintedLength(5.0) == 3;
  }

  /** Verification of a signature that names such bytes raises unless they number 32. */
  lemma NamingStampRaises(o: Owner, ticks: seq<real>, own: bool, j: nat, payload: seq<byte>, t: real,
                           tick: Tick, env: Envelope)
    requires j <= |ticks| && env.Envelope? && env.kid == IdOf(StampOf(o.Key(j), payload, At(t)))
    ensures var recs, ann := Chain(o, ticks, own), StampAnnouncement(o, j, payload, At(t), tick);
      Accepts(recs, ann) && (Raises(Extended(recs, ann), env) <==> |payload| + Encodings.PrintedLength(t) != 14)
  {
    StampIsAccepted(o, ticks, own, j, payload, At(t), tick);
    StampReadable(o.Key(j), payload, t);
  }

  /** A peer holds the first key and hears a message signed at 5 announced at 9.  No window moves,
      but unless the bytes number 32 a signature naming them, claimed at 1 and checked as of 1, is
      refused before and raises after. */
  lemma RefusalTurnsIntoRaise(o: Owner, payload: seq<byte>, body: seq<byte>, raw: RawSignature)
    requires |payload| != 11
    ensures var recs, ann := Chain(o, [], false), StampAnnouncement(o, 0, payload, At(5.0), At(9.0));
      var env := Envelope(IdOf(ann.newPub), At(1.0), raw);
      && Accepts(recs, ann) && KeepsWindow(recs, ann) && !KeepsReadable(recs, ann)
      && !Verdict(recs, body, env, At(1.0)) && !Raises(recs, env) && Raises(Extended(recs, ann), env)
  {
    var recs, ann := Chain(o, [], false), StampAnnouncement(o, 0, payload, At(5.0), At(9.0));
    var env := Envelope(IdOf(ann.newPub), At(1.0), raw);
    StampIsAccepted(o, [], false, 0, payload, At(5.0), At(9.0));
    StampReadableExample(o.Key(0), payload);
    FindInChain(o, [], false, 0);
    assert recs[0] == ChainRecord(o, [], false, 0);
    assert Lookup(recs, env.kid).None?;
  }

  // ---- what the validator makes of it ----

  /** An agent introduces itself and signs one message, which is then presented as a rotation. */
  function StampTrace(o: Owner, payload: seq<byte>, t: real, c: real): seq<Event> {
    [Event(At(0.0), true, IdentityMsg(o.id, IdOf(o.Key(0)), o.Key(0), At(0.0))),
     SignedAt(o, payload, t),
     Event(At(c), true, RotationMsg(StampAnnouncement(o, 0, payload, At(t), At(c))))]
  }

  function SignedAt(o: Owner, payload: seq<byte>, t: real): Event {
    Event(At(t), true, SignedMsg(o.id, payload,
      Envelope(IdOf(o.Key(0)), At(t), MadeBy(o.Key(0), Stamped(payload, IdOf(o.Key(0)), At(t))))))
  }

  lemma StampTraceAnnouncements(o: Owner, payload: seq<byte>, t: real, c: real, a: AgentId)
    ensures var events, ann := StampTrace(o, payload, t, c), StampAnnouncement(o, 0, payload, At(t), At(c));
      && Ids(events, a) == (if a == o.id then [o.Key(0)] else [])
      && Rots(events, a) == (if a == o.id then [ann] else [])
  {
    var es := StampTrace(o, payload, t, c);
    assert es == [] + [es[0]] + [es[1]] + [es[2]];
    AnnouncementsOneMore([], es[0], a);
    AnnouncementsOneMore([] + [es[0]], es[1], a);
    AnnouncementsOneMore([] + [es[0]] + [es[1]], es[2], a);
  }

  lemma StampTraceHistory(o: Owner, payload: seq<byte>, t: real, c: real, a: AgentId)
    ensures var events, ann := StampTrace(o, payload, t, c), StampAnnouncement(o, 0, payload, At(t), At(c));
      && (a != o.id ==> History(events, a) == Some(RecordsOf(Initial(VALIDATOR), a)))
      && (a == o.id ==>
            Accepts(Chain(o, [], false), ann) && History(events, a) == Some(Extended(Chain(o, [], false), ann)))
  {
    StampTraceAnnouncements(o, payload, t, c, a);
    if a == o.id {
      StampIsAccepted(o, [], false, 0, payload, At(t), At(c));
      assert Chain(o, [], false) == [Record(o.Key(0), At(0.0), Infinity, false)];
      ObserveStrictOneMore(Chain(o, [], false), [], StampAnnouncement(o, 0, payload, At(t), At(c)));
    }
  }

  lemma StampTraceOffends(o: Owner, payload: seq<byte>, t: real, c: real)
    requires 0.0 <= t
    ensures var events := StampTrace(o, payload, t, c);
      && !Unjudgeable(events, SignedAt(o, payload, t))
      && (Offends(events, SignedAt(o, payload, t)) <==> c <= t)
  {
    StampTraceHistory(o, payload, t, c, o.id);
    StampIsAccepted(o, [], false, 0, payload, At(t), At(c));
  }

  lemma StampTraceJudged(o: Owner, payload: seq<byte>, t: real, c: real)
    requires 0.0 <= t
    ensures var events := StampTrace(o, payload, t, c);
      Validate(events).Ok? && Validate(events).value.violations == Select(events, Offending(events))
  {
    var events := StampTrace(o, payload, t, c);
    JudgedPerAgent(events);
    forall a ensures History(events, a).Some? {
      StampTraceHistory(o, payload, t, c, a);
    }
    StampTraceOffends(o, payload, t, c);
  }

  /** The validator does not raise.  It counts a rotation though no key was rotated, and faults
      the honest signature exactly when the announced tick is not after it. */
  lemma StampTraceValidated(o: Owner, payload: seq<byte>, t: real, c: real)
    requires 0.0 <= t
    ensures var r := Validate(StampTrace(o, payload, t, c));
      && r.Ok? && r.value.rotations == 1 && r.value.signedCount == 1 && r.value.RealWindows()
      && r.value.violations == if c <= t then [SignedAt(o, payload, t)] else []
  {
    StampTraceJudged(o, payload, t, c);
    StampTraceCounts(o, payload, t, c);
    StampTraceOffenders(o, payload, t, c);
  }

  lemma StampTraceCounts(o: Owner, payload: seq<byte>, t: real, c: real)
    ensures var events := StampTrace(o, payload, t, c);
      |Select(events, Rotating())| == 1 && |Select(events, Signing())| == 1
  {
    var events := StampTrace(o, payload, t, c);
    ThreeEvents(events, Rotating());
    ThreeEvents(events, Signing());
  }

  lemma StampTraceOffenders(o: Owner, payload: seq<byte>, t: real, c: real)
    requires 0.0 <= t
    ensures var events := StampTrace(o, payload, t, c);
      Select(events, Offending(events)) == if c <= t then [SignedAt(o, payload, t)] else []
  {
    var events := StampTrace(o, payload, t, c);
    StampTraceOffends(o, payload, t, c);
    ThreeEvents(events, Offending(events));
  }

  function Kept(e: Event, p: Event -> bool): seq<Event> {
    if p(e) then [e] else []
  }

  lemma OneKept(es: seq<Event>, k: nat, p: Event -> bool)
    requires k < |es|
    ensures Select(es[..k + 1], p) == Select(es[..k], p) + Kept(es[k], p)
  {
    SelectNext(es, k, p);
    assert Select(es[..k], p) + [] == Select(es[..k], p);
  }

  lemma ThreeEvents(es: seq<Event>, p: Event -> bool)
    requires |es| == 3
    ensures Select(es, p) == Kept(es[0], p) + Kept(es[1], p) + Kept(es[2], p)
  {
    OneKept(es, 0, p);
    OneKept(es, 1, p);
    OneKept(es, 2, p);
    assert es[..3] == es && [] + Kept(es[0], p) == Kept(es[0], p);
  }
}
