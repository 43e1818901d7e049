/** The trace validator: rebuild every agent's key history from the announcements in a trace,
    then judge every signed message as of the tick it was observed. */
module Validator {
  import opened Wrappers
  import opened Positional
  import opened Crypto
  import opened KeyHistory
  import opened Identity
  import opened Ensemble

  /** The parsed message of a trace event; Foreign is anything that is not one of ours. */
  datatype Message =
    | IdentityMsg(agent: AgentId, kid: KeyId, pub: PublicKey, issuedAt: Tick)
    | RotationMsg(ann: Announcement)
    | SignedMsg(signer: AgentId, body: seq<byte>, value: Envelope)
    | Foreign

  /** Only send and broadcast events are emitting. */
  datatype Event = Event(ts: Tick, emitting: bool, msg: Message) {
    predicate IsIdentity() { emitting && msg.IdentityMsg? }
    predicate IsRotation() { emitting && msg.RotationMsg? }

    /** A signed message carrying a rotating-identity envelope. */
    predicate IsSigned() { emitting && msg.SignedMsg? && msg.value.Envelope? }
  }

  /** The counts and the offending events; the two results reported are derived from it. */
  datatype Report = Report(rotations: nat, signedCount: nat, violations: seq<Event>) {
    predicate RealWindows() { rotations >= 1 && signedCount >= 1 }
    predicate NoOutOfWindowUse() { violations == [] }
  }

  // "validator" and "__validator__"
  const VALIDATOR := Owner([118, 97, 108, 105, 100, 97, 116, 111, 114],
                           [95, 95, 118, 97, 108, 105, 100, 97, 116, 111, 114, 95, 95])

  // ---- the passes as functions ----

  function Learn(events: seq<Event>): (s: State)
    ensures WellFormed(s)
  {
    if events == [] then Initial(VALIDATOR) else
      var s, e := Learn(events[..|events| - 1]), events[|events| - 1];
      if e.IsIdentity() then RegisterState(s, e.msg.agent, e.msg.pub) else s
  }

  /** Before any event only the validator's own key is known: agent "__validator__" under the seed
      "validator". */
  lemma NothingLearned()
    ensures var id := [95, 95, 118, 97, 108, 105, 100, 97, 116, 111, 114, 95, 95];
      var key := DerivedKey([118, 97, 108, 105, 100, 97, 116, 111, 114], id, 0);
      Learn([]).records == map[id := [Record(key, At(0.0), Infinity, true)]]
  {
  }

  function Rebuild(s: State, events: seq<Event>): (r: Result<State, Error>)
    requires WellFormed(s)
    ensures r.Ok? ==> WellFormed(r.value)
  {
    if events == [] then Ok(s) else
      var before, e := Rebuild(s, events[..|events| - 1]), events[|events| - 1];
      if before.Ok? && e.IsRotation() then ObserveState(before.value, e.msg.ann) else before
  }

  function Select(events: seq<Event>, p: Event -> bool): (kept: seq<Event>)
    ensures forall e :: e in kept <==> e in events && p(e)
  {
    if events == [] then [] else
      Select(events[..|events| - 1], p) + if p(events[|events| - 1]) then [events[|events| - 1]] else []
  }

  predicate OutOfWindow(s: State, e: Event) {
    e.IsSigned() && !VerifiesAsOf(s, e.msg.body, Signature(e.msg.signer, e.msg.value), e.msg.signer, e.ts)
  }

  function Rotating(): Event -> bool { (e: Event) => e.IsRotation() }

  function Signing(): Event -> bool { (e: Event) => e.IsSigned() }

  function OutOfWindowIn(s: State): Event -> bool { (e: Event) => OutOfWindow(s, e) }

  /** A signed event whose verification raises. */
  predicate Unreadable(s: State, e: Event) {
    e.IsSigned() && Raises(RecordsOf(s, e.msg.signer), e.msg.value)
  }

  predicate ReadableUpTo(s: State, events: seq<Event>, k: nat)
    requires k <= |events|
  {
    k == 0 || (ReadableUpTo(s, events, k - 1) && !Unreadable(s, events[k - 1]))
  }

  lemma {:induction false} ReadableMeans(s: State, events: seq<Event>, k: nat)
    requires k <= |events|
    ensures ReadableUpTo(s, events, k) <==> forall i :: 0 <= i < k ==> !Unreadable(s, events[i])
  {
    if k != 0 {
      ReadableMeans(s, events, k - 1);
    }
  }

  lemma {:induction false} UnreadableStays(s: State, events: seq<Event>, k: nat, n: nat)
    requires k <= n <= |events| && !ReadableUpTo(s, events, k)
    ensures !ReadableUpTo(s, events, n)
  {
    if k < n {
      UnreadableStays(s, events, k, n - 1);
    }
  }

  predicate AllReadable(s: State, events: seq<Event>) {
    ReadableUpTo(s, events, |events|)
  }

  function Validate(events: seq<Event>): Result<Report, Error> {
    match Rebuild(Learn(events), events)
    case Err(e) => Err(e)
    case Ok(s) => if !AllReadable(s, events) then Err(UnreadableKey) else Ok(Report(
      |Select(events, Rotating())|,
      |Select(events, Signing())|,
      Select(events, OutOfWindowIn(s))))
  }

  lemma {:induction false} SelectCounts(events: seq<Event>, p: Event -> bool)
    ensures |Select(events, p)| == Count(events, p)
  {
    if events != [] {
      SelectCounts(events[..|events| - 1], p);
    }
  }

  /** A report counts the rotation announcements and the signed messages of its trace, and shows
      real windows exactly when there is one of each. */
  lemma ReportCounts(events: seq<Event>)
    requires Validate(events).Ok?
    ensures var r := Validate(events).value;
      && r.rotations == |set i: nat | i < |events| && events[i].IsRotation()|
      && r.signedCount == |set i: nat | i < |events| && events[i].IsSigned()|
      && (r.RealWindows() <==> (exists e <- events :: e.IsRotation()) && exists e <- events :: e.IsSigned())
  {
    RotationsCounted(events);
    SignedCounted(events);
    var rotations, signatures := Select(events, Rotating()), Select(events, Signing());
    assert rotations != [] ==> rotations[0] in events;
    assert signatures != [] ==> signatures[0] in events;
  }

  lemma RotationsCounted(events: seq<Event>)
    ensures |Select(events, Rotating())| == |set i: nat | i < |events| && events[i].IsRotation()|
  {
    SelectCounts(events, Rotating());
    CountIsSize(events, Rotating());
    assert Places(events, Rotating()) == set i: nat | i < |events| && events[i].IsRotation();
  }

  lemma SignedCounted(events: seq<Event>)
    ensures |Select(events, Signing())| == |set i: nat | i < |events| && events[i].IsSigned()|
  {
    SelectCounts(events, Signing());
    CountIsSize(events, Signing());
    assert Places(events, Signing()) == set i: nat | i < |events| && events[i].IsSigned();
  }

  // ---- the validator, one method per loop ----

  method ValidateIdentityRotation(events: seq<Event>) returns (r: Result<Report, Error>)
    ensures r == Validate(events)
    ensures r.Ok? ==>
      && r.value.rotations == |set i: nat | i < |events| && events[i].IsRotation()|
      && r.value.signedCount == |set i: nat | i < |events| && events[i].IsSigned()|
  {
    var verifier := new RotatingIdentity(VALIDATOR);
    LearnKeys(verifier, events);
    var applied := ApplyRotations(verifier, events);
    if applied.Err? {
      return Err(applied.error);
    }
    var judged := Judge(verifier, events);
    if judged.Err? {
      return Err(judged.error);
    }
    r := Ok(Report(applied.value, judged.value.0, judged.value.1));
    ReportCounts(events);
  }

  method LearnKeys(verifier: RotatingIdentity, events: seq<Event>)
    requires verifier.Valid() && verifier.View() == Initial(VALIDATOR)
    modifies verifier, verifier.repr
    ensures verifier.Valid() && fresh(verifier.repr - old(verifier.repr))
    ensures verifier.View() == Learn(events)
  {
    for k := 0 to |events|
      invariant verifier.Valid() && fresh(verifier.repr - old(verifier.repr))
      invariant verifier.View() == Learn(events[..k])
    {
      var event := events[k];
      assert events[..k + 1][..k] == events[..k];
      if event.IsIdentity() {
        verifier.RegisterPeer(event.msg.agent, event.msg.pub);
      }
    }
    assert events[..|events|] == events;
  }

  method ApplyRotations(verifier: RotatingIdentity, events: seq<Event>) returns (r: Result<nat, Error>)
    requires verifier.Valid()
    modifies verifier, verifier.repr
    ensures verifier.Valid() && old(WellFormed(verifier.View()))
    ensures match old(Rebuild(verifier.View(), events))
      case Ok(s) => verifier.View() == s && r == Ok(|Select(events, Rotating())|)
      case Err(e) => r == Err(e)
  {
    ghost var start := verifier.View();
    ViewWellFormed(verifier);
    var rotations := 0;
    for k := 0 to |events|
      invariant verifier.Valid() && fresh(verifier.repr - old(verifier.repr))
      invariant Rebuild(start, events[..k]) == Ok(verifier.View())
      invariant rotations == |Select(events[..k], Rotating())|
    {
      var event := events[k];
      assert events[..k + 1][..k] == events[..k];
      if event.IsRotation() {
        var observed := verifier.ObserveRotation(event.msg.ann);
        if observed.Err? {
          RebuildStops(start, events, k + 1);
          return Err(observed.error);
        }
        rotations := rotations + 1;
      }
    }
    assert events[..|events|] == events;
    r := Ok(rotations);
  }

  method Judge(verifier: RotatingIdentity, events: seq<Event>) returns (r: Result<(nat, seq<Event>), Error>)
    requires verifier.Valid()
    ensures var s := verifier.View();
      r == if AllReadable(s, events)
        then Ok((|Select(events, Signing())|, Select(events, OutOfWindowIn(s))))
        else Err(UnreadableKey)
  {
    var signedCount, violations := 0, [];
    ghost var s := verifier.View();
    for k := 0 to |events|
      invariant JudgedUpTo(s, events, k, signedCount, violations)
    {
      JudgedNext(s, events, k, signedCount, violations);
      if events[k].IsSigned() {
        signedCount := signedCount + 1;
        var ok := JudgeOne(verifier, events[k]);
        if ok.Err? {
          UnreadableStays(s, events, k + 1, |events|);
          return Err(ok.error);
        }
        if !ok.value {
          violations := violations + [events[k]];
        }
      }
    }
    assert events[..|events|] == events;
    r := Ok((signedCount, violations));
  }

  /** The counts after the first k events, all of them readable. */
  ghost predicate JudgedUpTo(s: State, events: seq<Event>, k: nat, signedCount: nat, violations: seq<Event>)
    requires k <= |events|
  {
    && ReadableUpTo(s, events, k)
    && signedCount == |Select(events[..k], Signing())|
    && violations == Select(events[..k], OutOfWindowIn(s))
  }

  lemma JudgedNext(s: State, events: seq<Event>, k: nat, signedCount: nat, violations: seq<Event>)
    requires k < |events| && JudgedUpTo(s, events, k, signedCount, violations)
    ensures ReadableUpTo(s, events, k + 1) <==> !Unreadable(s, events[k])
    ensures !Unreadable(s, events[k]) ==>
      JudgedUpTo(s, events, k + 1, if events[k].IsSigned() then signedCount + 1 else signedCount,
                 if OutOfWindow(s, events[k]) then violations + [events[k]] else violations)
  {
    SelectNext(events, k, Signing());
    SelectNext(events, k, OutOfWindowIn(s));
  }

  method JudgeOne(verifier: RotatingIdentity, event: Event) returns (ok: Result<bool, Error>)
    requires verifier.Valid() && event.IsSigned()
    ensures var s := verifier.View();
      ok == if Unreadable(s, event) then Err(UnreadableKey) else Ok(!OutOfWindow(s, event))
  {
    var sig := Signature(event.msg.signer, event.msg.value);
    ok := verifier.VerifyAsOf(event.msg.body, sig, event.msg.signer, event.ts);
  }

  lemma SelectNext(events: seq<Event>, k: nat, p: Event -> bool)
    requires k < |events|
    ensures Select(events[..k + 1], p) ==
      if p(events[k]) then Select(events[..k], p) + [events[k]] else Select(events[..k], p)
  {
    assert events[..k + 1][..k] == events[..k];
  }

  lemma ViewWellFormed(verifier: RotatingIdentity)
    requires verifier.Valid()
    ensures WellFormed(verifier.View())
  {
  }

  lemma {:induction false} RebuildStops(s: State, events: seq<Event>, k: nat)
    requires WellFormed(s) && k <= |events| && Rebuild(s, events[..k]).Err?
    ensures Rebuild(s, events) == Rebuild(s, events[..k])
    decreases |events|
  {
    if k == |events| {
      assert events[..k] == events;
    } else {
      assert events[..|events| - 1][..k] == events[..k];
      RebuildStops(s, events[..|events| - 1], k);
    }
  }

  // ---- each agent's history depends on its own announcements only ----

  function Ids(events: seq<Event>, a: AgentId): seq<PublicKey> {
    if events == [] then [] else
      var e := events[|events| - 1];
      Ids(events[..|events| - 1], a) + if e.IsIdentity() && e.msg.agent == a then [e.msg.pub] else []
  }

  function Rots(events: seq<Event>, a: AgentId): seq<Announcement> {
    if events == [] then [] else
      var e := events[|events| - 1];
      Rots(events[..|events| - 1], a) + if e.IsRotation() && e.msg.ann.agent == a then [e.msg.ann] else []
  }

  /** What the first pass leaves for an agent: its last identity announcement. */
  function Root(ids: seq<PublicKey>, a: AgentId): seq<Record> {
    if ids != [] then [Record(ids[|ids| - 1], At(0.0), Infinity, false)]
    else RecordsOf(Initial(VALIDATOR), a)
  }

  /** All announcements accepted in turn, or None as soon as one is not. */
  function ObserveStrict(recs: seq<Record>, anns: seq<Announcement>): Option<seq<Record>> {
    if anns == [] then Some(recs) else
      var before, ann := ObserveStrict(recs, anns[..|anns| - 1]), anns[|anns| - 1];
      if before.Some? && Accepts(before.value, ann) then Some(Extended(before.value, ann)) else None
  }

  function History(events: seq<Event>, a: AgentId): Option<seq<Record>> {
    ObserveStrict(Root(Ids(events, a), a), Rots(events, a))
  }

  lemma {:induction false} LearnPerAgent(events: seq<Event>, a: AgentId)
    ensures RecordsOf(Learn(events), a) == Root(Ids(events, a), a)
  {
    if events != [] {
      LearnPerAgent(events[..|events| - 1], a);
    }
  }

  /** The last identity announcement of an agent is the one that counts. */
  lemma {:induction false} LastIdentityCounts(events: seq<Event>, i: nat)
    requires i < |events| && events[i].IsIdentity()
    requires forall j :: i < j < |events| && events[j].IsIdentity() ==> events[j].msg.agent != events[i].msg.agent
    ensures RecordsOf(Learn(events), events[i].msg.agent) == [Record(events[i].msg.pub, At(0.0), Infinity, false)]
  {
    var init := events[..|events| - 1];
    if i < |init| {
      assert forall j :: 0 <= j < |init| ==> init[j] == events[j];
      LastIdentityCounts(init, i);
    }
  }

  ghost predicate AllObserved(s: State, events: seq<Event>) {
    forall a :: ObserveStrict(RecordsOf(s, a), Rots(events, a)).Some?
  }

  lemma ObserveStrictOneMore(recs: seq<Record>, anns: seq<Announcement>, ann: Announcement)
    ensures var before := ObserveStrict(recs, anns);
      ObserveStrict(recs, anns + [ann]) ==
        if before.Some? && Accepts(before.value, ann) then Some(Extended(before.value, ann)) else None
  {
    assert (anns + [ann])[..|anns|] == anns;
  }

  lemma RotsOneMore(events: seq<Event>, e: Event, a: AgentId)
    ensures Rots(events + [e], a) ==
      if e.IsRotation() && e.msg.ann.agent == a then Rots(events, a) + [e.msg.ann] else Rots(events, a)
  {
    assert (events + [e])[..|events|] == events;
  }

  /** What one event does to what is observed of an agent. */
  lemma ObservedAfter(s: State, events: seq<Event>, a: AgentId)
    requires events != []
    ensures var init, e := events[..|events| - 1], events[|events| - 1];
      var before := ObserveStrict(RecordsOf(s, a), Rots(init, a));
      ObserveStrict(RecordsOf(s, a), Rots(events, a)) ==
        if !(e.IsRotation() && e.msg.ann.agent == a) then before
        else if before.Some? && Accepts(before.value, e.msg.ann) then Some(Extended(before.value, e.msg.ann)) else None
  {
    var init, e := events[..|events| - 1], events[|events| - 1];
    assert events == init + [e];
    RotsOneMore(init, e, a);
    if e.IsRotation() && e.msg.ann.agent == a {
      ObserveStrictOneMore(RecordsOf(s, a), Rots(init, a), e.msg.ann);
    }
  }

  lemma BuiltAfter(s: State, events: seq<Event>, a: AgentId)
    requires events != [] && WellFormed(s) && Rebuild(s, events).Ok?
    ensures var init, e := events[..|events| - 1], events[|events| - 1];
      && Rebuild(s, init).Ok?
      && var before, ours := RecordsOf(Rebuild(s, init).value, a), e.IsRotation() && e.msg.ann.agent == a;
      && (ours ==> Accepts(before, e.msg.ann))
      && RecordsOf(Rebuild(s, events).value, a) == if ours then Extended(before, e.msg.ann) else before
  {
  }

  /** A rebuilt agent has the history of its own announcements. */
  lemma {:induction false} BuiltFor(s: State, events: seq<Event>, a: AgentId)
    requires WellFormed(s) && Rebuild(s, events).Ok?
    ensures ObserveStrict(RecordsOf(s, a), Rots(events, a)) == Some(RecordsOf(Rebuild(s, events).value, a))
  {
    if events != [] {
      BuiltAfter(s, events, a);
      BuiltFor(s, events[..|events| - 1], a);
      ObservedAfter(s, events, a);
    }
  }

  /** When rebuilding stops, some agent's own rotations do not link up. */
  lemma {:induction false} StopsFor(s: State, events: seq<Event>) returns (a: AgentId)
    requires WellFormed(s) && Rebuild(s, events).Err?
    ensures ObserveStrict(RecordsOf(s, a), Rots(events, a)).None?
  {
    var init, e := events[..|events| - 1], events[|events| - 1];
    if Rebuild(s, init).Err? {
      a := StopsFor(s, init);
    } else {
      a := e.msg.ann.agent;
      BuiltFor(s, init, a);
    }
    ObservedAfter(s, events, a);
  }

  lemma RebuildPerAgent(s: State, events: seq<Event>)
    requires WellFormed(s)
    ensures Rebuild(s, events).Ok? <==> AllObserved(s, events)
    ensures Rebuild(s, events).Ok? ==> forall a ::
      Some(RecordsOf(Rebuild(s, events).value, a)) == ObserveStrict(RecordsOf(s, a), Rots(events, a))
  {
    if Rebuild(s, events).Ok? {
      forall a ensures Some(RecordsOf(Rebuild(s, events).value, a)) == ObserveStrict(RecordsOf(s, a), Rots(events, a)) {
        BuiltFor(s, events, a);
      }
    } else {
      var a := StopsFor(s, events);
    }
  }
}
