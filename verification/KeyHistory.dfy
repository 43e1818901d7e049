/** The key history kept per agent: first-match lookup, rotation, observed rotations and
    as-of verdicts, as functions on the list of key records. */
module KeyHistory {
  import opened Wrappers
  import opened Positional
  import opened Crypto

  /** One key with its validity window [issuedAt, rotatedOut). */
  datatype Record = Record(key: PublicKey, issuedAt: Tick, rotatedOut: Tick, holdsPrivate: bool) {
    function Id(): KeyId { IdOf(key) }

    predicate Covers(t: Tick) {
      issuedAt.AtMost(t) && t.Before(rotatedOut)
    }
  }

  /** Contents of Signature.value; anything that does not decode is NotAnEnvelope. */
  datatype Envelope = Envelope(kid: KeyId, tick: Tick, raw: RawSignature) | NotAnEnvelope

  datatype Announcement = Announcement(
    agent: AgentId, prevKid: KeyId, newKid: KeyId, newPub: PublicKey, issuedAt: Tick, continuity: RawSignature)

  // ---- operations on one agent's record list ----

  /** Index of the first record with a key id, or the length of the list. */
  function Find(recs: seq<Record>, kid: KeyId): (i: nat)
    ensures i <= |recs|
    ensures i < |recs| ==> recs[i].Id() == kid
    ensures forall j :: 0 <= j < i ==> recs[j].Id() != kid
  {
    if recs == [] || recs[0].Id() == kid then 0 else 1 + Find(recs[1..], kid)
  }

  function Lookup(recs: seq<Record>, kid: KeyId): Option<Record> {
    var i := Find(recs, kid);
    if i < |recs| then Some(recs[i]) else None
  }

  /** Index of the first open record, or the length of the list. */
  function FirstOpen(recs: seq<Record>): (i: nat)
    ensures i <= |recs|
    ensures i < |recs| ==> recs[i].rotatedOut == Infinity
    ensures forall j :: 0 <= j < i ==> recs[j].rotatedOut != Infinity
  {
    if recs == [] || recs[0].rotatedOut == Infinity then 0 else 1 + FirstOpen(recs[1..])
  }

  /** The active record: the first open one, otherwise the last. */
  function Active(recs: seq<Record>): (i: nat)
    requires recs != []
    ensures i < |recs|
  {
    var i := FirstOpen(recs);
    if i < |recs| then i else |recs| - 1
  }

  lemma ActiveMeans(recs: seq<Record>)
    requires recs != []
    ensures var i := Active(recs);
      if exists r <- recs :: r.rotatedOut == Infinity
      then recs[i].rotatedOut == Infinity && forall j :: 0 <= j < i ==> recs[j].rotatedOut != Infinity
      else i == |recs| - 1
  {
    if FirstOpen(recs) == |recs| {
      assert forall r <- recs :: r.rotatedOut != Infinity;
    }
  }

  /** Close the window of record i. */
  function Shut(recs: seq<Record>, i: nat, tick: Tick): seq<Record>
    requires i < |recs|
  {
    recs[i := recs[i].(rotatedOut := tick)]
  }

  function Rotated(recs: seq<Record>, now: Tick, newKey: PublicKey): seq<Record>
    requires recs != []
  {
    Shut(recs, Active(recs), now) + [Record(newKey, now, Infinity, true)]
  }

  predicate Accepts(recs: seq<Record>, ann: Announcement) {
    var prev := Lookup(recs, ann.prevKid);
    prev.Some? && Verifies(prev.value.key, NewKey(ann.newPub), ann.continuity)
  }

  function Extended(recs: seq<Record>, ann: Announcement): seq<Record>
    requires Accepts(recs, ann)
  {
    Shut(recs, Find(recs, ann.prevKid), ann.issuedAt) + [Record(ann.newPub, ann.issuedAt, Infinity, false)]
  }

  predicate Verdict(recs: seq<Record>, payload: seq<byte>, env: Envelope, asOf: Tick) {
    env.Envelope? &&
    match Lookup(recs, env.kid)
    case None => false
    case Some(r) =>
      && Verifies(r.key, Stamped(payload, env.kid, env.tick), env.raw)
      && r.Covers(env.tick)
      && r.Covers(asOf)
  }

  /** Verification raises when the key looked up cannot be read. */
  predicate Raises(recs: seq<Record>, env: Envelope) {
    env.Envelope? && Lookup(recs, env.kid).Some? && !Lookup(recs, env.kid).value.key.Readable()
  }

  /** A list of announcements delivered in turn; rejected ones change nothing. */
  function ObserveAll(recs: seq<Record>, anns: seq<Announcement>): seq<Record> {
    if anns == [] then recs else
      var before := ObserveAll(recs, anns[..|anns| - 1]);
      var ann := anns[|anns| - 1];
      if Accepts(before, ann) then Extended(before, ann) else before
  }

  lemma ObserveOneMore(recs: seq<Record>, anns: seq<Announcement>, ann: Announcement)
    ensures var before := ObserveAll(recs, anns);
      ObserveAll(recs, anns + [ann]) == if Accepts(before, ann) then Extended(before, ann) else before
  {
    assert (anns + [ann])[..|anns|] == anns;
  }

  lemma {:induction false} ObserveInTurn(recs: seq<Record>, x: seq<Announcement>, y: seq<Announcement>)
    ensures ObserveAll(recs, x + y) == ObserveAll(ObserveAll(recs, x), y)
  {
    if y == [] {
      assert x + y == x;
    } else {
      ObserveInTurn(recs, x, y[..|y| - 1]);
      assert (x + y)[..|x + y| - 1] == x + y[..|y| - 1];
    }
  }

  // ---- first-match lookup ----

  /** Two lists that no lookup can tell apart. */
  ghost predicate SameLookup(a: seq<Record>, b: seq<Record>) {
    forall kid :: Lookup(a, kid) == Lookup(b, kid)
  }

  /** What an accepted announcement does to every lookup. */
  lemma LookupExtended(recs: seq<Record>, ann: Announcement, kid: KeyId)
    requires Accepts(recs, ann)
    ensures Lookup(Extended(recs, ann), kid) ==
      if kid == ann.prevKid then Some(Lookup(recs, kid).value.(rotatedOut := ann.issuedAt))
      else if Lookup(recs, kid).Some? then Lookup(recs, kid)
      else if kid == IdOf(ann.newPub) then Some(Record(ann.newPub, ann.issuedAt, Infinity, false))
      else None
  {
    var ext := Extended(recs, ann);
    var i, j := Find(recs, kid), Find(ext, kid);
    assert forall k :: 0 <= k < |recs| ==> ext[k].Id() == recs[k].Id();
    if i < |recs| {
      assert ext[i].Id() == kid;
      assert j == i;
    } else {
      assert forall k :: 0 <= k < |recs| ==> recs[k].Id() != kid;
      assert ext[|recs|].Id() == IdOf(ann.newPub);
    }
  }

  lemma ExtendedSame(a: seq<Record>, b: seq<Record>, ann: Announcement)
    requires SameLookup(a, b)
    ensures Accepts(a, ann) == Accepts(b, ann)
    ensures Accepts(a, ann) ==> SameLookup(Extended(a, ann), Extended(b, ann))
  {
    assert Lookup(a, ann.prevKid) == Lookup(b, ann.prevKid);
    if Accepts(a, ann) {
      forall kid ensures Lookup(Extended(a, ann), kid) == Lookup(Extended(b, ann), kid) {
        LookupExtended(a, ann, kid);
        LookupExtended(b, ann, kid);
        assert Lookup(a, kid) == Lookup(b, kid);
      }
    }
  }

  // ---- the owner's chain of keys ----

  ghost predicate Ascending(ticks: seq<real>) {
    forall i, j :: 0 <= i < j < |ticks| ==> ticks[i] <= ticks[j]
  }

  function ChainRecord(o: Owner, ticks: seq<real>, own: bool, j: nat): Record
    requires j <= |ticks|
  {
    Record(o.Key(j),
           if j == 0 then At(0.0) else At(ticks[j - 1]),
           if j == |ticks| then Infinity else At(ticks[j]),
           own)
  }

  /** The history of an owner that rotated at the given ticks. */
  function Chain(o: Owner, ticks: seq<real>, own: bool): (recs: seq<Record>)
    ensures |recs| == |ticks| + 1
  {
    seq(|ticks| + 1, j requires 0 <= j <= |ticks| => ChainRecord(o, ticks, own, j))
  }

  /** The honest announcement of rotation number k, made at tick t. */
  function AnnounceAt(o: Owner, k: nat, t: real): Announcement {
    Announcement(o.id, IdOf(o.Key(k)), IdOf(o.Key(k + 1)), o.Key(k + 1), At(t),
                 MadeBy(o.Key(k), NewKey(o.Key(k + 1))))
  }

  function Announce(o: Owner, ticks: seq<real>, k: nat): Announcement
    requires k < |ticks|
  {
    AnnounceAt(o, k, ticks[k])
  }

  lemma FindInChain(o: Owner, ticks: seq<real>, own: bool, j: nat)
    ensures Find(Chain(o, ticks, own), IdOf(o.Key(j))) == if j <= |ticks| then j else |ticks| + 1
  {
    var recs := Chain(o, ticks, own);
    var i := Find(recs, IdOf(o.Key(j)));
    if j <= |ticks| {
      assert recs[j].Id() == IdOf(o.Key(j));
    }
  }

  lemma ChainMembers(o: Owner, ticks: seq<real>, own: bool, kid: KeyId)
    requires Lookup(Chain(o, ticks, own), kid).Some?
    ensures exists j :: 0 <= j <= |ticks| && kid == IdOf(o.Key(j))
  {
    var j := Find(Chain(o, ticks, own), kid);
    assert Chain(o, ticks, own)[j] == ChainRecord(o, ticks, own, j);
  }

  /** Only the last record of a chain is open, so it is the active one. */
  lemma ActiveOfChain(o: Owner, ticks: seq<real>, own: bool)
    ensures Active(Chain(o, ticks, own)) == |ticks|
    ensures forall j :: 0 <= j <= |ticks| ==> (Chain(o, ticks, own)[j].rotatedOut == Infinity <==> j == |ticks|)
  {
    var recs := Chain(o, ticks, own);
    assert recs[|ticks|].rotatedOut == Infinity;
    assert forall j :: 0 <= j < |ticks| ==> recs[j] == ChainRecord(o, ticks, own, j);
  }

  /** Closing the last window at c and opening the next one appends c to the rotation ticks. */
  lemma ChainGrows(o: Owner, ticks: seq<real>, own: bool, c: real)
    ensures var recs, n := Chain(o, ticks, own), |ticks|;
      Shut(recs, n, At(c)) + [Record(o.Key(n + 1), At(c), Infinity, own)]
        == Chain(o, ticks + [c], own)
  {
    var recs, n := Chain(o, ticks, own), |ticks|;
    var a := Shut(recs, n, At(c)) + [Record(o.Key(n + 1), At(c), Infinity, own)];
    var b := Chain(o, ticks + [c], own);
    forall j | 0 <= j < |b| ensures a[j] == b[j] {
      assert b[j] == ChainRecord(o, ticks + [c], own, j);
      if j <= n {
        assert recs[j] == ChainRecord(o, ticks, own, j);
      }
    }
  }

  /** Rotating at tick c appends c to the chain. */
  lemma RotatedChain(o: Owner, ticks: seq<real>, c: real)
    ensures Rotated(Chain(o, ticks, true), At(c), o.Key(|ticks| + 1)) == Chain(o, ticks + [c], true)
  {
    ActiveOfChain(o, ticks, true);
    ChainGrows(o, ticks, true, c);
  }

  /** A peer that knows m rotations accepts announcement k exactly when k <= m; a repeated
      one tells it nothing new and number m takes it one step further. */
  lemma ChainAccepts(o: Owner, ticks: seq<real>, m: nat, k: nat)
    requires m <= |ticks| && k < |ticks|
    ensures Accepts(Chain(o, ticks[..m], false), Announce(o, ticks, k)) <==> k <= m
  {
    FindInChain(o, ticks[..m], false, k);
  }

  lemma ChainObservesRepeat(o: Owner, ticks: seq<real>, m: nat, k: nat)
    requires k < m <= |ticks|
    requires Accepts(Chain(o, ticks[..m], false), Announce(o, ticks, k))
    ensures SameLookup(Extended(Chain(o, ticks[..m], false), Announce(o, ticks, k)), Chain(o, ticks[..m], false))
  {
    var recs, ann := Chain(o, ticks[..m], false), Announce(o, ticks, k);
    FindInChain(o, ticks[..m], false, k);
    FindInChain(o, ticks[..m], false, k + 1);
    assert recs[k] == ChainRecord(o, ticks[..m], false, k);
    forall kid ensures Lookup(Extended(recs, ann), kid) == Lookup(recs, kid) {
      LookupExtended(recs, ann, kid);
    }
  }

  lemma ChainObservesNext(o: Owner, known: seq<real>, c: real, ann: Announcement)
    requires ann.prevKid == IdOf(o.Key(|known|)) && ann.newPub == o.Key(|known| + 1) && ann.issuedAt == At(c)
    requires Accepts(Chain(o, known, false), ann)
    ensures Extended(Chain(o, known, false), ann) == Chain(o, known + [c], false)
  {
    FindInChain(o, known, false, |known|);
    ChainGrows(o, known, false, c);
  }

  lemma AcceptsNext(o: Owner, ticks: seq<real>, c: real)
    ensures var recs, ann := Chain(o, ticks, false), AnnounceAt(o, |ticks|, c);
      Accepts(recs, ann) && Extended(recs, ann) == Chain(o, ticks + [c], false)
  {
    FindInChain(o, ticks, false, |ticks|);
    assert Chain(o, ticks, false)[|ticks|] == ChainRecord(o, ticks, false, |ticks|);
    ChainObservesNext(o, ticks, c, AnnounceAt(o, |ticks|, c));
  }

  // ---- any delivery schedule ----

  /** The announcements numbered by a delivery schedule, repeats and disorder allowed. */
  function Deliveries(o: Owner, ticks: seq<real>, schedule: seq<nat>): seq<Announcement>
    requires forall i :: 0 <= i < |schedule| ==> schedule[i] < |ticks|
  {
    seq(|schedule|, i requires 0 <= i < |schedule| => Announce(o, ticks, schedule[i]))
  }

  /** How many rotations are learned: each number counts when it is next in line. */
  function Known(schedule: seq<nat>): nat {
    if schedule == [] then 0 else
      var m := Known(schedule[..|schedule| - 1]);
      if schedule[|schedule| - 1] == m then m + 1 else m
  }

  lemma {:induction false} KnownBound(schedule: seq<nat>, n: nat)
    requires forall i :: 0 <= i < |schedule| ==> schedule[i] < n
    ensures Known(schedule) <= n
  {
    if schedule != [] {
      KnownBound(schedule[..|schedule| - 1], n);
    }
  }

  lemma OneMoreDelivery(o: Owner, ticks: seq<real>, schedule: seq<nat>)
    requires schedule != [] && forall i :: 0 <= i < |schedule| ==> schedule[i] < |ticks|
    ensures var init, ann := schedule[..|schedule| - 1], Announce(o, ticks, schedule[|schedule| - 1]);
      var recs := ObserveAll(Chain(o, [], false), Deliveries(o, ticks, init));
      ObserveAll(Chain(o, [], false), Deliveries(o, ticks, schedule)) ==
        if Accepts(recs, ann) then Extended(recs, ann) else recs
  {
    var anns := Deliveries(o, ticks, schedule);
    assert anns[..|anns| - 1] == Deliveries(o, ticks, schedule[..|schedule| - 1]);
  }

  /** What a peer that holds a prefix holds after one more announcement. */
  lemma PrefixStep(o: Owner, ticks: seq<real>, recs: seq<Record>, m: nat, k: nat)
    requires m <= |ticks| && k < |ticks| && SameLookup(recs, Chain(o, ticks[..m], false))
    ensures var ann := Announce(o, ticks, k);
      SameLookup(if Accepts(recs, ann) then Extended(recs, ann) else recs,
                 Chain(o, ticks[..if k == m then m + 1 else m], false))
  {
    ExtendedSame(recs, Chain(o, ticks[..m], false), Announce(o, ticks, k));
    ChainAccepts(o, ticks, m, k);
    if k < m {
      ChainObservesRepeat(o, ticks, m, k);
    } else if k == m {
      assert ticks[..m + 1] == ticks[..m] + [ticks[m]];
      ChainObservesNext(o, ticks[..m], ticks[m], Announce(o, ticks, m));
    }
  }

  /** Whatever is delivered, repeated or lost, lookups at the peer are lookups in a prefix of
      the owner's history whose last known key is still open. */
  lemma {:induction false} PeerKnowsPrefix(o: Owner, ticks: seq<real>, schedule: seq<nat>)
    requires forall i :: 0 <= i < |schedule| ==> schedule[i] < |ticks|
    ensures Known(schedule) <= |ticks|
    ensures SameLookup(ObserveAll(Chain(o, [], false), Deliveries(o, ticks, schedule)),
                       Chain(o, ticks[..Known(schedule)], false))
  {
    KnownBound(schedule, |ticks|);
    if schedule == [] {
      assert ticks[..0] == [];
    } else {
      var init := schedule[..|schedule| - 1];
      PeerKnowsPrefix(o, ticks, init);
      OneMoreDelivery(o, ticks, schedule);
      PrefixStep(o, ticks, ObserveAll(Chain(o, [], false), Deliveries(o, ticks, init)),
                 Known(init), schedule[|schedule| - 1]);
    }
  }

  lemma SameVerdict(a: seq<Record>, b: seq<Record>, payload: seq<byte>, env: Envelope, asOf: Tick)
    requires SameLookup(a, b)
    ensures Verdict(a, payload, env, asOf) == Verdict(b, payload, env, asOf)
  {
    if env.Envelope? {
      assert Lookup(a, env.kid) == Lookup(b, env.kid);
    }
  }

  /** A prefix of a history judges everything before its last key's closing tick as the whole
      history does. */
  lemma PrefixVerdicts(o: Owner, ticks: seq<real>, m: nat, own: bool, own': bool,
                       payload: seq<byte>, env: Envelope, asOf: Tick)
    requires Ascending(ticks) && m <= |ticks|
    requires m < |ticks| && env.Envelope? ==> env.tick.Before(At(ticks[m])) && asOf.Before(At(ticks[m]))
    ensures Verdict(Chain(o, ticks[..m], own), payload, env, asOf) == Verdict(Chain(o, ticks, own'), payload, env, asOf)
  {
    if env.Envelope? {
      if Lookup(Chain(o, ticks, own'), env.kid).Some? {
        ChainMembers(o, ticks, own', env.kid);
        var j :| 0 <= j <= |ticks| && env.kid == IdOf(o.Key(j));
        PrefixVerdictsOn(o, ticks, m, own, own', payload, env, asOf, j);
      } else if Lookup(Chain(o, ticks[..m], own), env.kid).Some? {
        ChainMembers(o, ticks[..m], own, env.kid);
        var j :| 0 <= j <= |ticks[..m]| && env.kid == IdOf(o.Key(j));
        FindInChain(o, ticks, own', j);
      }
    }
  }

  lemma PrefixVerdictsOn(o: Owner, ticks: seq<real>, m: nat, own: bool, own': bool,
                         payload: seq<byte>, env: Envelope, asOf: Tick, j: nat)
    requires Ascending(ticks) && m <= |ticks| && j <= |ticks|
    requires env.Envelope? && env.kid == IdOf(o.Key(j))
    requires m < |ticks| ==> env.tick.Before(At(ticks[m])) && asOf.Before(At(ticks[m]))
    ensures Verdict(Chain(o, ticks[..m], own), payload, env, asOf) == Verdict(Chain(o, ticks, own'), payload, env, asOf)
  {
    FindInChain(o, ticks, own', j);
    FindInChain(o, ticks[..m], own, j);
    assert Lookup(Chain(o, ticks, own'), env.kid) == Some(ChainRecord(o, ticks, own', j));
    if j <= m {
      assert Lookup(Chain(o, ticks[..m], own), env.kid) == Some(ChainRecord(o, ticks[..m], own, j));
    } else {
      assert Lookup(Chain(o, ticks[..m], own), env.kid) == None;
      assert ticks[m] <= ticks[j - 1];
    }
  }

  /** A peer's verdicts equal the owner's for all ticks before the real closing time of the
      last key the peer knows. */
  lemma PeerAgreesWithOwner(o: Owner, ticks: seq<real>, schedule: seq<nat>,
                            payload: seq<byte>, env: Envelope, asOf: Tick)
    requires Ascending(ticks)
    requires forall i :: 0 <= i < |schedule| ==> schedule[i] < |ticks|
    requires var m := Known(schedule);
      m < |ticks| && env.Envelope? ==> env.tick.Before(At(ticks[m])) && asOf.Before(At(ticks[m]))
    ensures Verdict(ObserveAll(Chain(o, [], false), Deliveries(o, ticks, schedule)), payload, env, asOf)
         == Verdict(Chain(o, ticks, true), payload, env, asOf)
  {
    var m := Known(schedule);
    PeerKnowsPrefix(o, ticks, schedule);
    SameVerdict(ObserveAll(Chain(o, [], false), Deliveries(o, ticks, schedule)),
                Chain(o, ticks[..m], false), payload, env, asOf);
    PrefixVerdicts(o, ticks, m, false, true, payload, env, asOf);
  }

  // ---- the windows partition time ----

  /** Number of rotations made at or before t: the number of the key that serves tick t. */
  function RotationsBy(ticks: seq<real>, t: real): (k: nat)
    ensures k <= |ticks|
  {
    if ticks == [] then 0 else
      RotationsBy(ticks[..|ticks| - 1], t) + if ticks[|ticks| - 1] <= t then 1 else 0
  }

  ghost predicate Serves(ticks: seq<real>, j: nat, t: Tick) {
    t.At? && 0.0 <= t.t && RotationsBy(ticks, t.t) == j
  }

  lemma {:induction false} RotationsBySplits(ticks: seq<real>, t: real)
    requires Ascending(ticks)
    ensures forall i :: 0 <= i < |ticks| ==> (ticks[i] <= t <==> i < RotationsBy(ticks, t))
  {
    if ticks != [] {
      var n := |ticks| - 1;
      RotationsBySplits(ticks[..n], t);
      assert forall i :: 0 <= i < n ==> ticks[..n][i] == ticks[i];
      if ticks[n] <= t && n > 0 {
        assert ticks[n - 1] <= ticks[n];
      }
    }
  }

  /** Each tick from 0 on lies in exactly one window, that of the key serving it. */
  lemma WindowsPartitionTime(o: Owner, ticks: seq<real>, own: bool, j: nat, t: Tick)
    requires Ascending(ticks) && (ticks != [] ==> 0.0 <= ticks[0])
    requires j <= |ticks|
    ensures Chain(o, ticks, own)[j].Covers(t) <==> Serves(ticks, j, t)
  {
    if t.At? {
      RotationsBySplits(ticks, t.t);
      if j > 0 {
        assert ticks[0] <= ticks[j - 1];
      }
    }
  }

  /** Acceptance by an agent that knows the whole history: the signature is genuine, and the
      signing key is the one that serves both the claimed tick and the as-of tick. */
  lemma VerdictMeansServingKey(o: Owner, ticks: seq<real>, own: bool, payload: seq<byte>, env: Envelope, asOf: Tick)
    requires Ascending(ticks) && (ticks != [] ==> 0.0 <= ticks[0])
    ensures Verdict(Chain(o, ticks, own), payload, env, asOf) <==>
      && env.Envelope?
      && asOf.At?
      && var j := RotationsBy(ticks, asOf.t);
         && Serves(ticks, j, asOf)
         && Serves(ticks, j, env.tick)
         && env.kid == IdOf(o.Key(j))
         && env.raw == MadeBy(o.Key(j), Stamped(payload, env.kid, env.tick))
  {
    var recs := Chain(o, ticks, own);
    if env.Envelope? && Lookup(recs, env.kid).Some? {
      ChainMembers(o, ticks, own, env.kid);
      var i :| 0 <= i <= |ticks| && env.kid == IdOf(o.Key(i));
      FindInChain(o, ticks, own, i);
      assert recs[i] == ChainRecord(o, ticks, own, i);
      WindowsPartitionTime(o, ticks, own, i, env.tick);
      WindowsPartitionTime(o, ticks, own, i, asOf);
    } else if env.Envelope? && asOf.At? {
      FindInChain(o, ticks, own, RotationsBy(ticks, asOf.t));
    }
  }

  // ---- finality of past outcomes ----

  /** Two histories accept, refuse or raise alike. */
  ghost predicate SameOutcome(a: seq<Record>, b: seq<Record>, payload: seq<byte>, env: Envelope, asOf: Tick) {
    Verdict(a, payload, env, asOf) == Verdict(b, payload, env, asOf) && Raises(a, env) == Raises(b, env)
  }

  /** No outcome about ticks before c differs between two histories. */
  ghost predicate AgreeBefore(a: seq<Record>, b: seq<Record>, c: Tick) {
    forall payload, env: Envelope, asOf: Tick ::
      env.Envelope? && env.tick.Before(c) && asOf.Before(c) ==> SameOutcome(a, b, payload, env, asOf)
  }

  /** The prior key's window end is not moved forward inside its window. */
  predicate KeepsWindow(recs: seq<Record>, ann: Announcement)
    requires Accepts(recs, ann)
  {
    var prev := Lookup(recs, ann.prevKid).value;
    ann.issuedAt.AtMost(prev.rotatedOut) || ann.issuedAt.AtMost(prev.issuedAt)
  }

  /** The new key can be read, or its id was known before. */
  predicate KeepsReadable(recs: seq<Record>, ann: Announcement) {
    ann.newPub.Readable() || Lookup(recs, IdOf(ann.newPub)).Some?
  }

  lemma MovedWindowShows(recs: seq<Record>, ann: Announcement)
    requires Accepts(recs, ann) && !KeepsWindow(recs, ann)
    ensures !AgreeBefore(recs, Extended(recs, ann), ann.issuedAt)
  {
    var prev, ext := Lookup(recs, ann.prevKid).value, Extended(recs, ann);
    var t := if prev.issuedAt.AtMost(prev.rotatedOut) then prev.rotatedOut else prev.issuedAt;
    var env := Envelope(ann.prevKid, t, MadeBy(prev.key, Stamped([], ann.prevKid, t)));
    LookupExtended(recs, ann, ann.prevKid);
    assert !Verdict(recs, [], env, t) && Verdict(ext, [], env, t);
    assert !SameOutcome(recs, ext, [], env, t);
  }

  lemma UnreadableShows(recs: seq<Record>, ann: Announcement)
    requires Accepts(recs, ann) && !KeepsReadable(recs, ann)
    ensures !AgreeBefore(recs, Extended(recs, ann), ann.issuedAt)
  {
    var t := At(if ann.issuedAt.At? then ann.issuedAt.t - 1.0 else 0.0);
    var env := Envelope(IdOf(ann.newPub), t, Junk([]));
    LookupExtended(recs, ann, env.kid);
    assert !SameOutcome(recs, Extended(recs, ann), [], env, t);
  }

  /** An accepted announcement at tick c leaves every outcome before c alone exactly when it
      does not move the prior key's window end forward inside its window and does not add a key
      that cannot be read under an id not known before. */
  lemma ObservedFinality(recs: seq<Record>, ann: Announcement)
    requires Accepts(recs, ann)
    ensures AgreeBefore(recs, Extended(recs, ann), ann.issuedAt) <==> KeepsWindow(recs, ann) && KeepsReadable(recs, ann)
  {
    var c, ext := ann.issuedAt, Extended(recs, ann);
    if !KeepsWindow(recs, ann) {
      MovedWindowShows(recs, ann);
    } else if !KeepsReadable(recs, ann) {
      UnreadableShows(recs, ann);
    } else {
      forall payload, env: Envelope, asOf: Tick | env.Envelope? && env.tick.Before(c) && asOf.Before(c)
        ensures SameOutcome(recs, ext, payload, env, asOf)
      {
        LookupExtended(recs, ann, env.kid);
      }
    }
  }

  /** A peer that has registered an owner's first key hears it announced closed at 5, then at 10:
      every genuine signature for a tick from 5 up to 10 is refused after the first announcement
      and accepted after the second. */
  lemma ClosedWindowCanReopen(o: Owner, payload: seq<byte>, t: real)
    requires 5.0 <= t < 10.0
    ensures var recs, first, second := Chain(o, [], false), AnnounceAt(o, 0, 5.0), AnnounceAt(o, 0, 10.0);
      var kid := IdOf(o.Key(0));
      var env := Envelope(kid, At(t), MadeBy(o.Key(0), Stamped(payload, kid, At(t))));
      && Accepts(recs, first) && Accepts(Extended(recs, first), second)
      && !Verdict(Extended(recs, first), payload, env, At(t))
      && Verdict(Extended(Extended(recs, first), second), payload, env, At(t))
  {
    var recs, first := Chain(o, [], false), AnnounceAt(o, 0, 5.0);
    AcceptsNext(o, [], 5.0);
    assert recs[0] == ChainRecord(o, [], false, 0);
    LookupExtended(recs, first, first.prevKid);
    LookupExtended(Extended(recs, first), AnnounceAt(o, 0, 10.0), first.prevKid);
  }

  /** Each announcement, when it is accepted, is not before c and meets that condition. */
  predicate AllKeep(recs: seq<Record>, anns: seq<Announcement>, c: Tick) {
    anns == [] ||
      var init, ann := anns[..|anns| - 1], anns[|anns| - 1];
      var before := ObserveAll(recs, init);
      && AllKeep(recs, init, c)
      && (Accepts(before, ann) ==>
            c.AtMost(ann.issuedAt) && KeepsWindow(before, ann) && KeepsReadable(before, ann))
  }

  /** Over a whole run of such announcements, honest or not, no outcome before c ever changes. */
  lemma {:induction false} ObservedRunFinality(recs: seq<Record>, anns: seq<Announcement>, c: Tick)
    requires AllKeep(recs, anns, c)
    ensures AgreeBefore(recs, ObserveAll(recs, anns), c)
  {
    if anns != [] {
      var init, ann := anns[..|anns| - 1], anns[|anns| - 1];
      ObservedRunFinality(recs, init, c);
      var before := ObserveAll(recs, init);
      if Accepts(before, ann) {
        ObservedFinality(before, ann);
        AgreementJoins(recs, before, Extended(before, ann), c, ann.issuedAt);
      }
    }
  }

  lemma AgreementJoins(x: seq<Record>, y: seq<Record>, z: seq<Record>, c: Tick, later: Tick)
    requires AgreeBefore(x, y, c) && AgreeBefore(y, z, later) && c.AtMost(later)
    ensures AgreeBefore(x, z, c)
  {
    forall payload, env: Envelope, asOf: Tick | env.Envelope? && env.tick.Before(c) && asOf.Before(c)
      ensures SameOutcome(x, z, payload, env, asOf)
    {
      assert SameOutcome(x, y, payload, env, asOf) && SameOutcome(y, z, payload, env, asOf);
    }
  }

  ghost predicate Alike(a: seq<Record>, b: seq<Record>) {
    forall payload, env: Envelope, asOf: Tick :: SameOutcome(a, b, payload, env, asOf)
  }

  lemma AgreeWithAlike(x: seq<Record>, y: seq<Record>, z: seq<Record>, c: Tick)
    requires AgreeBefore(x, y, c) && Alike(y, z)
    ensures AgreeBefore(x, z, c)
  {
    forall payload, env: Envelope, asOf: Tick | env.Envelope? && env.tick.Before(c) && asOf.Before(c)
      ensures SameOutcome(x, z, payload, env, asOf)
    {
      assert SameOutcome(x, y, payload, env, asOf) && SameOutcome(y, z, payload, env, asOf);
    }
  }

  lemma AlikeBack(a: seq<Record>, b: seq<Record>)
    requires Alike(a, b)
    ensures Alike(b, a)
  {
    forall payload, env: Envelope, asOf: Tick ensures SameOutcome(b, a, payload, env, asOf) {
      assert SameOutcome(a, b, payload, env, asOf);
    }
  }

  /** At a peer, verdicts before the closing tick of its last known key are final: no further
      honest announcements, however delivered, change them. */
  lemma PeerVerdictsFinal(o: Owner, ticks: seq<real>, schedule: seq<nat>, more: seq<nat>,
                          payload: seq<byte>, env: Envelope, asOf: Tick)
    requires Ascending(ticks)
    requires forall i :: 0 <= i < |schedule + more| ==> (schedule + more)[i] < |ticks|
    requires var m := Known(schedule);
      m < |ticks| && env.Envelope? ==> env.tick.Before(At(ticks[m])) && asOf.Before(At(ticks[m]))
    ensures forall i :: 0 <= i < |schedule| ==> schedule[i] < |ticks|
    ensures Verdict(ObserveAll(Chain(o, [], false), Deliveries(o, ticks, schedule + more)), payload, env, asOf)
         == Verdict(ObserveAll(Chain(o, [], false), Deliveries(o, ticks, schedule)), payload, env, asOf)
  {
    forall i | 0 <= i < |schedule| ensures schedule[i] < |ticks| {
      assert (schedule + more)[i] == schedule[i];
    }
    KnownGrows(schedule, more);
    KnownBound(schedule + more, |ticks|);
    PeerAgreesWithOwner(o, ticks, schedule, payload, env, asOf);
    BeforeLater(ticks, Known(schedule), Known(schedule + more), env, asOf);
    PeerAgreesWithOwner(o, ticks, schedule + more, payload, env, asOf);
  }

  lemma BeforeLater(ticks: seq<real>, m: nat, n: nat, env: Envelope, asOf: Tick)
    requires Ascending(ticks) && m <= n <= |ticks|
    requires m < |ticks| && env.Envelope? ==> env.tick.Before(At(ticks[m])) && asOf.Before(At(ticks[m]))
    ensures n < |ticks| && env.Envelope? ==> env.tick.Before(At(ticks[n])) && asOf.Before(At(ticks[n]))
  {
    assert m < n < |ticks| ==> ticks[m] <= ticks[n];
  }

  lemma {:induction false} KnownGrows(schedule: seq<nat>, more: seq<nat>)
    ensures Known(schedule) <= Known(schedule + more)
  {
    if more == [] {
      assert schedule + more == schedule;
    } else {
      KnownGrows(schedule, more[..|more| - 1]);
      assert (schedule + more)[..|schedule + more| - 1] == schedule + more[..|more| - 1];
    }
  }

  /** A local rotation is final under the same condition, met whenever the closed record was
      open and the new key is a derived one; the active record must be the one its own key id
      finds. */
  lemma RotationFinality(recs: seq<Record>, now: Tick, newKey: PublicKey)
    requires recs != [] && recs[Active(recs)].key.Readable()
    requires Find(recs, recs[Active(recs)].Id()) == Active(recs)
    ensures var old' := recs[Active(recs)];
      AgreeBefore(recs, Rotated(recs, now, newKey), now) <==>
      && (now.AtMost(old'.rotatedOut) || now.AtMost(old'.issuedAt))
      && (newKey.Readable() || Lookup(recs, IdOf(newKey)).Some?)
  {
    var i := Active(recs);
    var r := recs[i];
    var ann := Announcement([], r.Id(), r.Id(), newKey, now, MadeBy(r.key, Covered(NewKey(newKey))));
    var ext, rot := Extended(recs, ann), Rotated(recs, now, newKey);
    ObservedFinality(recs, ann);
    assert forall k :: 0 <= k < |ext| ==> ext[k].(holdsPrivate := true) == rot[k].(holdsPrivate := true);
    AlikeButPrivate(ext, rot);
    AlikeBack(ext, rot);
    if AgreeBefore(recs, ext, now) {
      AgreeWithAlike(recs, ext, rot, now);
    }
    if AgreeBefore(recs, rot, now) {
      AgreeWithAlike(recs, rot, ext, now);
    }
  }

  /** Whether a private key is held plays no part in verification. */
  lemma AlikeButPrivate(a: seq<Record>, b: seq<Record>)
    requires |a| == |b| && forall k :: 0 <= k < |a| ==> a[k].(holdsPrivate := true) == b[k].(holdsPrivate := true)
    ensures Alike(a, b)
  {
    assert forall k :: 0 <= k < |a| ==> a[k].Id() == b[k].Id();
    forall payload, env: Envelope, asOf: Tick ensures SameOutcome(a, b, payload, env, asOf) {
      if env.Envelope? {
        SameKeysSameFind(a, b, env.kid);
      }
    }
  }

  lemma SameKeysSameFind(a: seq<Record>, b: seq<Record>, kid: KeyId)
    requires |a| == |b| && forall k :: 0 <= k < |a| ==> a[k].Id() == b[k].Id()
    ensures Find(a, kid) == Find(b, kid)
  {
    var i, j := Find(a, kid), Find(b, kid);
    assert i < |a| ==> b[i].Id() == kid;
    assert j < |b| ==> a[j].Id() == kid;
  }

  // ---- every held key descends from the registered one ----

  ghost predicate Holds(recs: seq<Record>, key: PublicKey) {
    exists i :: 0 <= i < |recs| && recs[i].key == key
  }

  /** Some received announcement carries a continuity signature by `from` over `to`. */
  ghost predicate Vouched(anns: seq<Announcement>, from: PublicKey, to: PublicKey) {
    exists a :: 0 <= a < |anns| && anns[a].newPub == to && Verifies(from, NewKey(to), anns[a].continuity)
  }

  ghost predicate TrustPath(recs: seq<Record>, anns: seq<Announcement>, path: seq<PublicKey>) {
    && path != []
    && (forall i :: 0 <= i < |path| ==> Holds(recs, path[i]))
    && (forall i :: 0 < i < |path| ==> Vouched(anns, path[i - 1], path[i]))
  }

  ghost predicate Descends(recs: seq<Record>, anns: seq<Announcement>, root: PublicKey, key: PublicKey) {
    exists path :: TrustPath(recs, anns, path) && path[0] == root && path[|path| - 1] == key
  }

  ghost predicate AllDescend(recs: seq<Record>, anns: seq<Announcement>, root: PublicKey) {
    forall i :: 0 <= i < |recs| ==> Descends(recs, anns, root, recs[i].key)
  }

  /** Under any announcements at all, each key held for a peer is linked to the registered key
      by continuity signatures among held keys. */
  lemma {:induction false} HeldKeysDescend(root: Record, anns: seq<Announcement>)
    ensures AllDescend(ObserveAll([root], anns), anns, root.key)
  {
    var recs := ObserveAll([root], anns);
    if anns == [] {
      assert Holds(recs, root.key) by { assert recs[0].key == root.key; }
      assert TrustPath(recs, anns, [root.key]);
    } else {
      var n := |anns| - 1;
      var before := ObserveAll([root], anns[..n]);
      HeldKeysDescend(root, anns[..n]);
      DescentStep(before, recs, anns, root.key);
    }
  }

  lemma DescentStep(before: seq<Record>, after: seq<Record>, anns: seq<Announcement>, root: PublicKey)
    requires anns != []
    requires var ann := anns[|anns| - 1];
      after == if Accepts(before, ann) then Extended(before, ann) else before
    requires AllDescend(before, anns[..|anns| - 1], root)
    ensures AllDescend(after, anns, root)
  {
    forall i: nat | i < |after| ensures Descends(after, anns, root, after[i].key) {
      DescentOf(before, after, anns, root, i);
    }
  }

  lemma DescentOf(before: seq<Record>, after: seq<Record>, anns: seq<Announcement>, root: PublicKey, i: nat)
    requires anns != [] && i < |after|
    requires var ann := anns[|anns| - 1];
      after == if Accepts(before, ann) then Extended(before, ann) else before
    requires AllDescend(before, anns[..|anns| - 1], root)
    ensures Descends(after, anns, root, after[i].key)
  {
    if i < |before| {
      assert Descends(before, anns[..|anns| - 1], root, before[i].key);
      DescentPersists(before, after, anns, root, before[i].key);
    } else {
      NewKeyDescends(before, after, anns, root);
    }
  }

  lemma NewKeyDescends(before: seq<Record>, after: seq<Record>, anns: seq<Announcement>, root: PublicKey)
    requires anns != [] && Accepts(before, anns[|anns| - 1]) && after == Extended(before, anns[|anns| - 1])
    requires AllDescend(before, anns[..|anns| - 1], root)
    ensures Descends(after, anns, root, anns[|anns| - 1].newPub)
  {
    var ann := anns[|anns| - 1];
    var p := Find(before, ann.prevKid);
    DescentPersists(before, after, anns, root, before[p].key);
    assert after[|before|].key == ann.newPub;
    assert Vouched(anns, before[p].key, ann.newPub);
    PathGrows(after, anns, root, before[p].key, ann.newPub);
  }

  lemma PathGrows(recs: seq<Record>, anns: seq<Announcement>, root: PublicKey, from: PublicKey, to: PublicKey)
    requires Descends(recs, anns, root, from) && Vouched(anns, from, to) && Holds(recs, to)
    ensures Descends(recs, anns, root, to)
  {
    var path :| TrustPath(recs, anns, path) && path[0] == root && path[|path| - 1] == from;
    assert TrustPath(recs, anns, path + [to]);
  }

  lemma DescentPersists(before: seq<Record>, after: seq<Record>, anns: seq<Announcement>,
                        root: PublicKey, key: PublicKey)
    requires anns != [] && Descends(before, anns[..|anns| - 1], root, key)
    requires |before| <= |after| && forall i :: 0 <= i < |before| ==> after[i].key == before[i].key
    ensures Descends(after, anns, root, key)
  {
    var n := |anns| - 1;
    var path :| TrustPath(before, anns[..n], path) && path[0] == root && path[|path| - 1] == key;
    forall i | 0 <= i < |path| ensures Holds(after, path[i]) {
      assert Holds(before, path[i]);
      var j :| 0 <= j < |before| && before[j].key == path[i];
      assert after[j].key == path[i];
    }
    forall i | 0 < i < |path| ensures Vouched(anns, path[i - 1], path[i]) {
      assert Vouched(anns[..n], path[i - 1], path[i]);
      var a :| 0 <= a < n && anns[..n][a].newPub == path[i] &&
        Verifies(path[i - 1], NewKey(path[i]), anns[..n][a].continuity);
      assert anns[a] == anns[..n][a];
    }
    assert TrustPath(after, anns, path);
  }
}
