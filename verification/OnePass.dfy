/** The two passes of the validator against a verifier that reads the trace once. */
module OnePass {
  import opened Wrappers
  import opened Positional
  import opened Crypto
  import opened KeyHistory
  import opened Identity
  import opened Validator
  import opened ValidatorLaws

  datatype Progress = Progress(s: State, violations: seq<Event>)

  /** Learn, observe and judge each event as it comes, with what is known by then. */
  function ReadOnce(events: seq<Event>): (r: Result<Progress, Error>)
    ensures r.Ok? ==> WellFormed(r.value.s)
  {
    if events == [] then Ok(Progress(Initial(VALIDATOR), [])) else
      match ReadOnce(events[..|events| - 1])
      case Err(e) => Err(e)
      case Ok(p) => Advance(p, events[|events| - 1])
  }

  function Advance(p: Progress, e: Event): (r: Result<Progress, Error>)
    requires WellFormed(p.s)
    ensures r.Ok? ==> WellFormed(r.value.s)
  {
    if e.IsIdentity() then Ok(p.(s := RegisterState(p.s, e.msg.agent, e.msg.pub)))
    else if e.IsRotation() then
      match ObserveState(p.s, e.msg.ann)
      case Err(err) => Err(err)
      case Ok(s) => Ok(p.(s := s))
    else if Unreadable(p.s, e) then Err(UnreadableKey)
    else if OutOfWindow(p.s, e) then Ok(p.(violations := p.violations + [e]))
    else Ok(p)
  }

  /** Ticks of the rotation events of an agent. */
  function TicksOf(events: seq<Event>, a: AgentId): seq<real> {
    if events == [] then [] else
      var e := events[|events| - 1];
      TicksOf(events[..|events| - 1], a) +
        if e.IsRotation() && e.msg.ann.agent == a && e.ts.At? then [e.ts.t] else []
  }

  /** An event that may follow a trace: time does not go back; an agent introduces itself at
      most once, with its first key, before it rotates and before anything is signed in its name;
      its rotations are honest and come strictly later than what it signed before; nothing is
      signed for a later tick. */
  ghost predicate MayFollow(seed: seq<byte>, events: seq<Event>, e: Event) {
    && (forall i :: 0 <= i < |events| ==> events[i].ts.AtMost(e.ts))
    && (e.IsIdentity() ==>
          var a := e.msg.agent;
          && Ids(events, a) == [] && e.msg.pub == Owner(seed, a).Key(0)
          && (forall i :: 0 <= i < |events| && events[i].IsSigned() ==> events[i].msg.signer != a))
    && (e.IsRotation() ==>
          var a := e.msg.ann.agent;
          && Ids(events, a) != [] && e.ts.At?
          && e.msg.ann == AnnounceAt(Owner(seed, a), |Rots(events, a)|, e.ts.t)
          && (forall i :: 0 <= i < |events| && events[i].IsSigned() && events[i].msg.signer == a ==>
                events[i].ts.Before(e.ts)))
    && (e.IsSigned() ==> e.msg.value.tick.AtMost(e.ts))
  }

  /** Signed messages are unrestricted otherwise: any signer, introduced or not, any key id, payload
      and signature. */
  ghost predicate TimelyTrace(seed: seq<byte>, events: seq<Event>) {
    events == [] ||
      (TimelyTrace(seed, events[..|events| - 1])
       && MayFollow(seed, events[..|events| - 1], events[|events| - 1]))
  }

  /** What is known of an agent: nothing, or its chain up to now. */
  function Expected(seed: seq<byte>, events: seq<Event>, a: AgentId): seq<Record> {
    if Ids(events, a) == [] then RecordsOf(Initial(VALIDATOR), a)
    else Chain(Owner(seed, a), TicksOf(events, a), false)
  }

  predicate OffendsExpected(seed: seq<byte>, events: seq<Event>, e: Event) {
    e.IsSigned() && !Verdict(Expected(seed, events, e.msg.signer), e.msg.body, e.msg.value, e.ts)
  }

  function OffendingExpected(seed: seq<byte>, events: seq<Event>): Event -> bool {
    (e: Event) => OffendsExpected(seed, events, e)
  }

  /** No key that is ever expected is unreadable. */
  lemma ExpectedReadable(seed: seq<byte>, events: seq<Event>, a: AgentId, env: Envelope)
    ensures !Raises(Expected(seed, events, a), env)
  {
    InitialNeverRaises(VALIDATOR, a, env);
    ChainNeverRaises(Owner(seed, a), TicksOf(events, a), false, env);
  }

  lemma {:induction false} TimelyTicks(seed: seq<byte>, events: seq<Event>, a: AgentId)
    requires TimelyTrace(seed, events)
    ensures Ascending(TicksOf(events, a))
    ensures forall j :: 0 <= j < |TicksOf(events, a)| ==>
      events != [] && At(TicksOf(events, a)[j]).AtMost(events[|events| - 1].ts)
  {
    if events != [] {
      var n := |events| - 1;
      TimelyTicks(seed, events[..n], a);
      if n > 0 {
        assert events[..n][n - 1].ts.AtMost(events[n].ts);
      }
    }
  }

  lemma {:induction false} TimelyAnnouncements(seed: seq<byte>, events: seq<Event>, a: AgentId)
    requires TimelyTrace(seed, events)
    ensures Rots(events, a) == AllAnnouncements(Owner(seed, a), TicksOf(events, a))
    ensures Ids(events, a) == [] || Ids(events, a) == [Owner(seed, a).Key(0)]
    ensures Ids(events, a) == [] ==> TicksOf(events, a) == []
  {
    if events != [] {
      var n := |events| - 1;
      TimelyAnnouncements(seed, events[..n], a);
      if events[n].IsRotation() && events[n].msg.ann.agent == a {
        AnnouncementNext(Owner(seed, a), TicksOf(events[..n], a), events[n].ts.t);
      }
    }
  }

  lemma {:induction false} NothingSignedAhead(seed: seq<byte>, events: seq<Event>, e: Event)
    requires TimelyTrace(seed, events) && e in events && e.IsSigned()
    ensures e.msg.value.tick.AtMost(e.ts)
  {
    var n := |events| - 1;
    if e != events[n] {
      assert events == events[..n] + [events[n]];
      NothingSignedAhead(seed, events[..n], e);
    }
  }

  /** The rebuilt history of a timely trace is the expected one. */
  lemma TimelyHistory(seed: seq<byte>, events: seq<Event>, a: AgentId)
    requires TimelyTrace(seed, events)
    ensures History(events, a) == Some(Expected(seed, events, a))
  {
    var o := Owner(seed, a);
    TimelyAnnouncements(seed, events, a);
    if Ids(events, a) != [] {
      assert Root(Ids(events, a), a) == Chain(o, [], false);
      HonestAnnouncementsRebuild(o, TicksOf(events, a));
    }
  }

  /** How one more event changes what is known. */
  lemma ExpectedAfter(seed: seq<byte>, events: seq<Event>, next: Event, a: AgentId)
    requires TimelyTrace(seed, events) && MayFollow(seed, events, next)
    ensures Expected(seed, events + [next], a) ==
      if next.IsIdentity() && next.msg.agent == a then Chain(Owner(seed, a), [], false)
      else if next.IsRotation() && next.msg.ann.agent == a
      then Chain(Owner(seed, a), TicksOf(events, a) + [next.ts.t], false)
      else Expected(seed, events, a)
  {
    assert (events + [next])[..|events|] == events;
    assert TicksOf(events, a) + [] == TicksOf(events, a);
    assert Ids(events, a) + [] == Ids(events, a);
    TimelyAnnouncements(seed, events, a);
  }

  /** A later event does not change how earlier signed events are judged. */
  lemma JudgmentPersists(seed: seq<byte>, events: seq<Event>, next: Event, e: Event)
    requires TimelyTrace(seed, events) && MayFollow(seed, events, next)
    requires e in events
    ensures OffendsExpected(seed, events + [next], e) == OffendsExpected(seed, events, e)
  {
    if e.IsSigned() {
      var a := e.msg.signer;
      ExpectedAfter(seed, events, next, a);
      TimelyTicks(seed, events, a);
      NothingSignedAhead(seed, events, e);
      if next.IsRotation() && next.msg.ann.agent == a {
        TicksStayOrdered(seed, events, next, a);
        RotationComesLater(Owner(seed, a), TicksOf(events, a), next.ts.t, e);
      }
    }
  }

  lemma TicksStayOrdered(seed: seq<byte>, events: seq<Event>, next: Event, a: AgentId)
    requires TimelyTrace(seed, events) && MayFollow(seed, events, next) && next.ts.At?
    ensures Ascending(TicksOf(events, a) + [next.ts.t])
  {
    TimelyTicks(seed, events, a);
    if events != [] {
      assert events[|events| - 1].ts.AtMost(next.ts);
    }
  }

  lemma RotationComesLater(o: Owner, ticks: seq<real>, c: real, e: Event)
    requires Ascending(ticks + [c]) && e.IsSigned() && e.msg.value.tick.AtMost(e.ts) && e.ts.Before(At(c))
    ensures Verdict(Chain(o, ticks + [c], false), e.msg.body, e.msg.value, e.ts)
         == Verdict(Chain(o, ticks, false), e.msg.body, e.msg.value, e.ts)
  {
    assert (ticks + [c])[..|ticks|] == ticks;
    PrefixVerdicts(o, ticks + [c], |ticks|, false, false, e.msg.body, e.msg.value, e.ts);
  }

  ghost predicate KnowsExpected(seed: seq<byte>, events: seq<Event>, s: State) {
    forall a :: RecordsOf(s, a) == Expected(seed, events, a)
  }

  lemma RotationStep(seed: seq<byte>, events: seq<Event>, next: Event, s: State)
    requires TimelyTrace(seed, events) && MayFollow(seed, events, next) && next.IsRotation()
    requires WellFormed(s) && KnowsExpected(seed, events, s)
    ensures var r := ObserveState(s, next.msg.ann);
      r.Ok? && KnowsExpected(seed, events + [next], r.value)
  {
    var b := next.msg.ann.agent;
    TimelyAnnouncements(seed, events, b);
    assert RecordsOf(s, b) == Expected(seed, events, b);
    AcceptsNext(Owner(seed, b), TicksOf(events, b), next.ts.t);
    var s' := ObserveState(s, next.msg.ann).value;
    forall a ensures RecordsOf(s', a) == Expected(seed, events + [next], a) {
      ExpectedAfter(seed, events, next, a);
      assert RecordsOf(s, a) == Expected(seed, events, a);
    }
  }

  lemma IdentityStep(seed: seq<byte>, events: seq<Event>, next: Event, s: State)
    requires TimelyTrace(seed, events) && MayFollow(seed, events, next) && next.IsIdentity()
    requires WellFormed(s) && KnowsExpected(seed, events, s)
    ensures KnowsExpected(seed, events + [next], RegisterState(s, next.msg.agent, next.msg.pub))
  {
    var s' := RegisterState(s, next.msg.agent, next.msg.pub);
    var b := next.msg.agent;
    assert Chain(Owner(seed, b), [], false) == [Record(next.msg.pub, At(0.0), Infinity, false)];
    forall a ensures RecordsOf(s', a) == Expected(seed, events + [next], a) {
      ExpectedAfter(seed, events, next, a);
      assert RecordsOf(s, a) == Expected(seed, events, a);
    }
  }

  lemma OtherStep(seed: seq<byte>, events: seq<Event>, next: Event, s: State)
    requires TimelyTrace(seed, events) && MayFollow(seed, events, next)
    requires !next.IsIdentity() && !next.IsRotation()
    requires WellFormed(s) && KnowsExpected(seed, events, s)
    ensures KnowsExpected(seed, events + [next], s)
    ensures !Unreadable(s, next) && OutOfWindow(s, next) == OffendsExpected(seed, events, next)
  {
    forall a ensures RecordsOf(s, a) == Expected(seed, events + [next], a) {
      ExpectedAfter(seed, events, next, a);
    }
    if next.IsSigned() {
      assert RecordsOf(s, next.msg.signer) == Expected(seed, events, next.msg.signer);
      ExpectedReadable(seed, events, next.msg.signer, next.msg.value);
    }
  }

  lemma ExpectedStep(seed: seq<byte>, events: seq<Event>, next: Event, p: Progress)
    requires TimelyTrace(seed, events) && MayFollow(seed, events, next)
    requires WellFormed(p.s) && KnowsExpected(seed, events, p.s)
    ensures var r := Advance(p, next);
      && r.Ok? && KnowsExpected(seed, events + [next], r.value.s)
      && r.value.violations == if OffendsExpected(seed, events, next) then p.violations + [next] else p.violations
  {
    if next.IsIdentity() {
      IdentityStep(seed, events, next, p.s);
    } else if next.IsRotation() {
      RotationStep(seed, events, next, p.s);
    } else {
      OtherStep(seed, events, next, p.s);
    }
  }

  /** One more event adds itself to the offending ones, or not, and changes no earlier verdict. */
  lemma OffendingGrows(seed: seq<byte>, events: seq<Event>, next: Event)
    requires TimelyTrace(seed, events) && MayFollow(seed, events, next)
    ensures Select(events + [next], OffendingExpected(seed, events + [next])) ==
      var before := Select(events, OffendingExpected(seed, events));
      if OffendsExpected(seed, events, next) then before + [next] else before
  {
    var all := events + [next];
    forall e | e in events ensures OffendsExpected(seed, all, e) == OffendsExpected(seed, events, e) {
      JudgmentPersists(seed, events, next, e);
    }
    SelectAgrees(events, OffendingExpected(seed, all), OffendingExpected(seed, events));
    NewcomerJudged(seed, events, next);
    assert all[..|all| - 1] == events;
  }

  lemma NewcomerJudged(seed: seq<byte>, events: seq<Event>, next: Event)
    requires TimelyTrace(seed, events) && MayFollow(seed, events, next)
    ensures OffendsExpected(seed, events + [next], next) == OffendsExpected(seed, events, next)
  {
    if next.IsSigned() {
      ExpectedAfter(seed, events, next, next.msg.signer);
    }
  }

  /** The reading has gone well so far: every agent's chain is known and the violations are the
      offending events. */
  ghost predicate OnTrack(seed: seq<byte>, events: seq<Event>, r: Result<Progress, Error>) {
    && r.Ok? && WellFormed(r.value.s)
    && KnowsExpected(seed, events, r.value.s)
    && r.value.violations == Select(events, OffendingExpected(seed, events))
  }

  lemma TrackStep(seed: seq<byte>, events: seq<Event>, r: Result<Progress, Error>)
    requires events != [] && TimelyTrace(seed, events) && OnTrack(seed, events[..|events| - 1], r)
    ensures OnTrack(seed, events, Advance(r.value, events[|events| - 1]))
  {
    var init, next := events[..|events| - 1], events[|events| - 1];
    TrackGrows(seed, init, next, r);
    assert init + [next] == events;
  }

  lemma TrackGrows(seed: seq<byte>, init: seq<Event>, next: Event, r: Result<Progress, Error>)
    requires TimelyTrace(seed, init) && MayFollow(seed, init, next) && OnTrack(seed, init, r)
    ensures OnTrack(seed, init + [next], Advance(r.value, next))
  {
    ExpectedStep(seed, init, next, r.value);
    OffendingGrows(seed, init, next);
  }

  lemma {:induction false} ReadOnceExpected(seed: seq<byte>, events: seq<Event>)
    requires TimelyTrace(seed, events)
    ensures OnTrack(seed, events, ReadOnce(events))
  {
    if events == [] {
      NothingRead(seed);
    } else {
      ReadOnceExpected(seed, events[..|events| - 1]);
      TrackStep(seed, events, ReadOnce(events[..|events| - 1]));
    }
  }

  lemma NothingRead(seed: seq<byte>)
    ensures OnTrack(seed, [], ReadOnce([]))
  {
  }

  /** On every timely trace the two-pass validator gives each signed event the verdict that a
      single reading gives it. */
  lemma TwoPassesAgreeWithOne(seed: seq<byte>, events: seq<Event>)
    requires TimelyTrace(seed, events)
    ensures ReadOnce(events).Ok? && Validate(events).Ok?
    ensures Validate(events).value.violations == ReadOnce(events).value.violations
  {
    ReadOnceExpected(seed, events);
    JudgedPerAgent(events);
    forall a ensures History(events, a) == Some(Expected(seed, events, a)) {
      TimelyHistory(seed, events, a);
    }
    forall e ensures !Unjudgeable(events, e) {
      if e.IsSigned() {
        ExpectedReadable(seed, events, e.msg.signer, e.msg.value);
      }
    }
    SelectAgrees(events, Offending(events), OffendingExpected(seed, events));
  }

  /** What it takes for a signed event of a timely trace to pass: the key serving its tick serves
      the tick it claims, is the key it names, and made the signature. */
  ghost predicate SignedInService(seed: seq<byte>, events: seq<Event>, e: Event)
    requires e.IsSigned()
  {
    var o, env, ticks := Owner(seed, e.msg.signer), e.msg.value, TicksOf(events, e.msg.signer);
    && e.ts.At?
    && var j := RotationsBy(ticks, e.ts.t);
       && Serves(ticks, j, e.ts)
       && Serves(ticks, j, env.tick)
       && env.kid == IdOf(o.Key(j))
       && env.raw == MadeBy(o.Key(j), Stamped(e.msg.body, env.kid, env.tick))
  }

  /** The validator's exact verdict on a timely trace: forged, backdated and outdated signatures of
      introduced agents are reported and no others, and so is everything signed in the name of an
      agent that never introduced itself. */
  lemma TimelyVerdict(seed: seq<byte>, events: seq<Event>, e: Event)
    requires TimelyTrace(seed, events) && e in events && e.IsSigned()
    requires var ticks := TicksOf(events, e.msg.signer); ticks != [] ==> 0.0 <= ticks[0]
    ensures Validate(events).Ok?
    ensures Ids(events, e.msg.signer) != [] ==>
      (e !in Validate(events).value.violations <==> SignedInService(seed, events, e))
    ensures Ids(events, e.msg.signer) == [] && e.msg.signer != VALIDATOR.id ==>
      e in Validate(events).value.violations
  {
    var a := e.msg.signer;
    TwoPassesAgreeWithOne(seed, events);
    ReadOnceExpected(seed, events);
    if Ids(events, a) != [] {
      TimelyTicks(seed, events, a);
      VerdictMeansServingKey(Owner(seed, a), TicksOf(events, a), false, e.msg.body, e.msg.value, e.ts);
    }
  }
}
