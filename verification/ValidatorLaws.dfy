/** The validator judges agent by agent, and the order of a trace matters only within each
    agent's own announcements. */
module ValidatorLaws {
  import opened Wrappers
  import opened Crypto
  import opened KeyHistory
  import opened Identity
  import opened Validator

  /** A signed event that fails against its signer's own rebuilt history. */
  predicate Offends(events: seq<Event>, e: Event) {
    e.IsSigned() &&
    var h := History(events, e.msg.signer);
    h.Some? && !Verdict(h.value, e.msg.body, e.msg.value, e.ts)
  }

  function Offending(events: seq<Event>): Event -> bool { (e: Event) => Offends(events, e) }

  /** A signed event whose key, in its signer's own rebuilt history, cannot be read. */
  predicate Unjudgeable(events: seq<Event>, e: Event) {
    e.IsSigned() &&
    var h := History(events, e.msg.signer);
    h.Some? && Raises(h.value, e.msg.value)
  }

  lemma {:induction false} SelectAgrees(events: seq<Event>, p: Event -> bool, q: Event -> bool)
    requires forall e :: e in events ==> p(e) == q(e)
    ensures Select(events, p) == Select(events, q)
  {
    if events != [] {
      assert events[|events| - 1] in events;
      SelectAgrees(events[..|events| - 1], p, q);
    }
  }

  lemma {:induction false} SelectCounts(events: seq<Event>, p: Event -> bool)
    ensures forall e :: multiset(Select(events, p))[e] == if p(e) then multiset(events)[e] else 0
  {
    if events != [] {
      var init, last := events[..|events| - 1], events[|events| - 1];
      SelectCounts(init, p);
      assert events == init + [last];
    }
  }

  lemma SelectPermuted(events: seq<Event>, events': seq<Event>, p: Event -> bool)
    requires multiset(events) == multiset(events')
    ensures multiset(Select(events, p)) == multiset(Select(events', p))
    ensures |Select(events, p)| == |Select(events', p)|
  {
    var kept, kept' := Select(events, p), Select(events', p);
    forall e ensures multiset(kept)[e] == multiset(kept')[e] {
      SelectCounts(events, p);
      SelectCounts(events', p);
    }
    assert multiset(kept) == multiset(kept');
    assert |kept| == |multiset(kept)| == |multiset(kept')| == |kept'|;
  }

  /** What the validator knows of an agent after both loops is that agent's own history. */
  lemma KnownPerAgent(events: seq<Event>)
    ensures Rebuild(Learn(events), events).Ok? <==> forall a :: History(events, a).Some?
    ensures Rebuild(Learn(events), events).Ok? ==>
      forall a :: History(events, a) == Some(RecordsOf(Rebuild(Learn(events), events).value, a))
  {
    var s := Learn(events);
    forall a ensures ObserveStrict(RecordsOf(s, a), Rots(events, a)) == History(events, a) {
      LearnPerAgent(events, a);
    }
    RebuildPerAgent(s, events);
    if forall a :: History(events, a).Some? {
      assert AllObserved(s, events);
    }
  }

  /** The validator raises exactly when some agent's own announcements do not link up, or some
      signed event names a held key that cannot be read; otherwise each signed event is judged by
      its signer's own history. */
  lemma JudgedPerAgent(events: seq<Event>)
    ensures Validate(events).Ok? <==>
      (forall a :: History(events, a).Some?) && (forall e :: e in events ==> !Unjudgeable(events, e))
    ensures Validate(events).Ok? ==>
      Validate(events).value.violations == Select(events, Offending(events))
  {
    KnownPerAgent(events);
    if Rebuild(Learn(events), events).Ok? {
      var t := Rebuild(Learn(events), events).value;
      forall e ensures Unreadable(t, e) == Unjudgeable(events, e) && OutOfWindow(t, e) == Offends(events, e) {
        if e.IsSigned() {
          assert History(events, e.msg.signer) == Some(RecordsOf(t, e.msg.signer));
        }
      }
      ReadableMeans(t, events, |events|);
      assert AllReadable(t, events) <==> forall e :: e in events ==> !Unjudgeable(events, e);
      SelectAgrees(events, OutOfWindowIn(t), Offending(events));
    }
  }

  /** Each agent makes the same identity announcements in the same order, and the same
      rotation announcements in the same order. */
  ghost predicate SameAnnouncements(events: seq<Event>, events': seq<Event>) {
    forall a :: Ids(events, a) == Ids(events', a) && Rots(events, a) == Rots(events', a)
  }

  lemma SameJudgement(events: seq<Event>, events': seq<Event>, e: Event)
    requires SameAnnouncements(events, events')
    ensures Offends(events, e) == Offends(events', e)
    ensures Unjudgeable(events, e) == Unjudgeable(events', e)
  {
    if e.IsSigned() {
      assert History(events, e.msg.signer) == History(events', e.msg.signer);
    }
  }

  lemma SameAcceptance(events: seq<Event>, events': seq<Event>)
    requires multiset(events) == multiset(events') && SameAnnouncements(events, events')
    ensures Validate(events).Ok? <==> Validate(events').Ok?
  {
    JudgedPerAgent(events);
    JudgedPerAgent(events');
    assert forall a :: History(events, a) == History(events', a);
    forall e ensures e in events <==> e in events' {
      assert e in multiset(events) <==> e in multiset(events');
    }
    forall e ensures Unjudgeable(events, e) == Unjudgeable(events', e) {
      SameJudgement(events, events', e);
    }
  }

  lemma SameViolations(events: seq<Event>, events': seq<Event>)
    requires multiset(events) == multiset(events') && SameAnnouncements(events, events')
    requires Validate(events).Ok? && Validate(events').Ok?
    ensures var v, v' := Validate(events).value.violations, Validate(events').value.violations;
      multiset(v) == multiset(v') && |v| == |v'|
  {
    JudgedPerAgent(events);
    JudgedPerAgent(events');
    SelectPermuted(events, events', Offending(events));
    forall e ensures Offends(events, e) == Offends(events', e) {
      SameJudgement(events, events', e);
    }
    SelectAgrees(events', Offending(events), Offending(events'));
  }

  /** Any other reordering of a trace changes neither result nor count. */
  lemma ReorderingInvariant(events: seq<Event>, events': seq<Event>)
    requires multiset(events) == multiset(events') && SameAnnouncements(events, events')
    ensures Validate(events).Ok? <==> Validate(events').Ok?
    ensures Validate(events).Ok? ==>
      var r, r' := Validate(events).value, Validate(events').value;
      && r.rotations == r'.rotations
      && r.signedCount == r'.signedCount
      && multiset(r.violations) == multiset(r'.violations)
      && r.RealWindows() == r'.RealWindows()
      && r.NoOutOfWindowUse() == r'.NoOutOfWindowUse()
  {
    SameAcceptance(events, events');
    if Validate(events).Ok? {
      SelectPermuted(events, events', Rotating());
      SelectPermuted(events, events', Signing());
      SameViolations(events, events');
    }
  }

  /** Whatever else two accepted traces contain, an event signed by an agent gets the same
      verdict in both when that agent's own announcements are the same. */
  lemma OthersDoNotInterfere(events: seq<Event>, events': seq<Event>, e: Event)
    requires Validate(events).Ok? && Validate(events').Ok?
    requires e in events && e in events' && e.IsSigned()
    requires Ids(events, e.msg.signer) == Ids(events', e.msg.signer)
    requires Rots(events, e.msg.signer) == Rots(events', e.msg.signer)
    ensures e in Validate(events).value.violations <==> e in Validate(events').value.violations
  {
    JudgedPerAgent(events);
    JudgedPerAgent(events');
  }

  // ---- honest announcements ----

  lemma AnnouncementsOneMore(events: seq<Event>, e: Event, a: AgentId)
    ensures Ids(events + [e], a) == Ids(events, a) + if e.IsIdentity() && e.msg.agent == a then [e.msg.pub] else []
    ensures Rots(events + [e], a) ==
      Rots(events, a) + if e.IsRotation() && e.msg.ann.agent == a then [e.msg.ann] else []
  {
    assert (events + [e])[..|events|] == events;
  }

  function AllAnnouncements(o: Owner, ticks: seq<real>): seq<Announcement> {
    seq(|ticks|, k requires 0 <= k < |ticks| => Announce(o, ticks, k))
  }

  lemma AnnouncementNext(o: Owner, ticks: seq<real>, t: real)
    ensures AllAnnouncements(o, ticks + [t]) == AllAnnouncements(o, ticks) + [AnnounceAt(o, |ticks|, t)]
  {
  }

  lemma RebuildNext(o: Owner, ticks: seq<real>, t: real)
    requires ObserveStrict(Chain(o, [], false), AllAnnouncements(o, ticks)) == Some(Chain(o, ticks, false))
    ensures ObserveStrict(Chain(o, [], false), AllAnnouncements(o, ticks + [t])) == Some(Chain(o, ticks + [t], false))
  {
    AnnouncementNext(o, ticks, t);
    ObserveStrictOneMore(Chain(o, [], false), AllAnnouncements(o, ticks), AnnounceAt(o, |ticks|, t));
    AcceptsNext(o, ticks, t);
  }

  /** All of an owner's announcements, in order, rebuild its history. */
  lemma {:induction false} HonestAnnouncementsRebuild(o: Owner, ticks: seq<real>)
    ensures ObserveStrict(Chain(o, [], false), AllAnnouncements(o, ticks)) == Some(Chain(o, ticks, false))
  {
    if ticks != [] {
      var n := |ticks| - 1;
      HonestAnnouncementsRebuild(o, ticks[..n]);
      RebuildNext(o, ticks[..n], ticks[n]);
      assert ticks[..n] + [ticks[n]] == ticks;
    }
  }
}
