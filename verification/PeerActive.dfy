/** Which key a peer is resolved to.  The active record of a peer is the first open one, and an
    announcement that is accepted without bringing the owner's next key, a repeat or a signed
    message, leaves an extra record behind that nothing ever closes. */
module PeerActive {
  import opened Wrappers
  import opened Positional
  import opened Crypto
  import opened KeyHistory
  import opened Stamps
  import opened Retimed

  /** Accepted, but not the next rotation in line. */
  predicate IsExtra(before: seq<Delivery>, d: Delivery) {
    d.k <= Learned(before) && !(d.Rotation? && d.k == Learned(before))
  }

  function FirstExtra(ds: seq<Delivery>): Option<Delivery> {
    if ds == [] then None else
      var init, d := ds[..|ds| - 1], ds[|ds| - 1];
      if FirstExtra(init).Some? then FirstExtra(init) else if IsExtra(init, d) then Some(d) else None
  }

  /** How many rotations are learned before the first extra delivery. */
  function LearnedAhead(ds: seq<Delivery>): nat {
    if ds == [] then 0 else
      var init, d := ds[..|ds| - 1], ds[|ds| - 1];
      if FirstExtra(init).Some? then LearnedAhead(init) else if IsExtra(init, d) then Learned(init) else Learned(ds)
  }

  /** What the first extra delivery leaves behind: a repeat leaves a key known before. */
  ghost predicate LeftBehind(o: Owner, ahead: nat, x: Delivery, r: Record) {
    r.key == Delivered(o, x).newPub && r.rotatedOut == Infinity && (x.Rotation? ==> x.k < ahead)
  }

  /** The peer's list: the keys learned ahead in order, then the first extra record if any. */
  ghost predicate Listed(o: Owner, ds: seq<Delivery>, recs: seq<Record>) {
    var n, x := LearnedAhead(ds), FirstExtra(ds);
    && n < |recs|
    && (forall j :: 0 <= j <= n ==> recs[j] == HeldRecord(o, ds, j))
    && (x.None? ==> n == Learned(ds) && |recs| == n + 1 && ClosedAt(ds, n) == Infinity)
    && (x.Some? ==> n + 1 < |recs| && LeftBehind(o, n, x.value, recs[n + 1]))
  }

  /** Where the record of a key is; never is it the extra one. */
  lemma FindListed(o: Owner, ds: seq<Delivery>, recs: seq<Record>, k: nat)
    requires Listed(o, ds, recs)
    ensures var n, i := LearnedAhead(ds), Find(recs, IdOf(o.Key(k)));
      if k <= n then i == k else i > n && (FirstExtra(ds).Some? ==> i > n + 1)
  {
    var n, i := LearnedAhead(ds), Find(recs, IdOf(o.Key(k)));
    if k <= n {
      assert recs[k] == HeldRecord(o, ds, k);
    }
    if i <= n {
      assert recs[i] == HeldRecord(o, ds, i);
    }
  }

  /** An accepted delivery does to the keys learned ahead what it does to the owner's keys. */
  lemma AheadStep(o: Owner, ds: seq<Delivery>, recs: seq<Record>, d: Delivery, j: nat)
    requires Listed(o, ds, recs) && Accepts(recs, Delivered(o, d)) && d.k <= Learned(ds)
    requires j <= LearnedAhead(ds) <= Learned(ds)
    ensures Extended(recs, Delivered(o, d))[j] == HeldRecord(o, ds + [d], j)
  {
    assert recs[j] == HeldRecord(o, ds, j);
    FindListed(o, ds, recs, d.k);
    HeldRecordStep(o, ds, d, j);
  }

  lemma RejectedStep(o: Owner, ds: seq<Delivery>, recs: seq<Record>, d: Delivery, j: nat)
    requires Listed(o, ds, recs) && d.k > Learned(ds) && j <= LearnedAhead(ds)
    ensures recs[j] == HeldRecord(o, ds + [d], j)
  {
    HeldRecordStep(o, ds, d, j);
  }

  lemma OneMore(ds: seq<Delivery>, d: Delivery, j: nat)
    ensures FirstExtra(ds + [d]) ==
      if FirstExtra(ds).Some? then FirstExtra(ds) else if IsExtra(ds, d) then Some(d) else None
    ensures LearnedAhead(ds + [d]) ==
      if FirstExtra(ds).Some? then LearnedAhead(ds) else if IsExtra(ds, d) then Learned(ds) else Learned(ds + [d])
    ensures ClosedAt(ds + [d], j) == if d.k == j && d.k <= Learned(ds) then d.tick else ClosedAt(ds, j)
  {
    assert (ds + [d])[..|ds|] == ds;
  }

  /** A delivery that comes after the first extra one. */
  lemma ListedLater(o: Owner, ds: seq<Delivery>, recs: seq<Record>, d: Delivery)
    requires Listed(o, ds, recs) && FirstExtra(ds).Some? && Accepts(recs, Delivered(o, d)) && d.k <= Learned(ds)
    requires LearnedAhead(ds) <= Learned(ds)
    ensures Listed(o, ds + [d], Extended(recs, Delivered(o, d)))
  {
    var n, after := LearnedAhead(ds), Extended(recs, Delivered(o, d));
    OneMore(ds, d, 0);
    FindListed(o, ds, recs, d.k);
    forall j | 0 <= j <= n ensures after[j] == HeldRecord(o, ds + [d], j) {
      AheadStep(o, ds, recs, d, j);
    }
  }

  /** The first extra delivery. */
  lemma ListedExtra(o: Owner, ds: seq<Delivery>, recs: seq<Record>, d: Delivery)
    requires Listed(o, ds, recs) && FirstExtra(ds).None? && Accepts(recs, Delivered(o, d)) && IsExtra(ds, d)
    ensures Listed(o, ds + [d], Extended(recs, Delivered(o, d)))
  {
    var n, after := LearnedAhead(ds), Extended(recs, Delivered(o, d));
    OneMore(ds, d, 0);
    FindListed(o, ds, recs, d.k);
    forall j | 0 <= j <= n ensures after[j] == HeldRecord(o, ds + [d], j) {
      AheadStep(o, ds, recs, d, j);
    }
  }

  /** The next rotation, before any extra delivery. */
  lemma ListedNext(o: Owner, ds: seq<Delivery>, recs: seq<Record>, d: Delivery)
    requires Listed(o, ds, recs) && FirstExtra(ds).None? && Accepts(recs, Delivered(o, d))
    requires d.Rotation? && d.k == Learned(ds)
    ensures Listed(o, ds + [d], Extended(recs, Delivered(o, d)))
  {
    var n, after := LearnedAhead(ds), Extended(recs, Delivered(o, d));
    OneMore(ds, d, n + 1);
    OpenBeyondLearned(ds, n + 1);
    LearnedStep(ds, d);
    forall j | 0 <= j <= n + 1 ensures after[j] == HeldRecord(o, ds + [d], j) {
      if j <= n {
        AheadStep(o, ds, recs, d, j);
      } else {
        HeldRecordStep(o, ds, d, j);
      }
    }
  }

  lemma ListedRejected(o: Owner, ds: seq<Delivery>, recs: seq<Record>, d: Delivery)
    requires Listed(o, ds, recs) && d.k > Learned(ds)
    ensures Listed(o, ds + [d], recs)
  {
    OneMore(ds, d, LearnedAhead(ds));
    LearnedStep(ds, d);
    forall j | 0 <= j <= LearnedAhead(ds) ensures recs[j] == HeldRecord(o, ds + [d], j) {
      RejectedStep(o, ds, recs, d, j);
    }
  }

  lemma {:induction false} LearnedAheadBound(ds: seq<Delivery>)
    ensures LearnedAhead(ds) <= Learned(ds)
  {
    if ds != [] {
      var init, d := ds[..|ds| - 1], ds[|ds| - 1];
      assert ds == init + [d];
      LearnedStep(init, d);
      LearnedAheadBound(init);
    }
  }

  lemma ListedStep(o: Owner, ds: seq<Delivery>, recs: seq<Record>, d: Delivery)
    requires Listed(o, ds, recs) && HoldsDelivered(o, ds, recs)
    ensures var ann := Delivered(o, d);
      Listed(o, ds + [d], if Accepts(recs, ann) then Extended(recs, ann) else recs)
  {
    AcceptedWhenHeld(o, ds, recs, d);
    LearnedAheadBound(ds);
    if !Accepts(recs, Delivered(o, d)) {
      ListedRejected(o, ds, recs, d);
    } else if FirstExtra(ds).Some? {
      ListedLater(o, ds, recs, d);
    } else if IsExtra(ds, d) {
      ListedExtra(o, ds, recs, d);
    } else {
      ListedNext(o, ds, recs, d);
    }
  }

  lemma {:induction false} ListAfter(o: Owner, ds: seq<Delivery>)
    ensures Listed(o, ds, PeerList(o, ds))
  {
    if ds == [] {
      assert Chain(o, [], false)[0] == ChainRecord(o, [], false, 0);
    } else {
      ListAfter(o, ds[..|ds| - 1]);
      RetimedHistory(o, ds[..|ds| - 1]);
      ListedAfterOne(o, ds);
    }
  }

  lemma ListedAfterOne(o: Owner, ds: seq<Delivery>)
    requires ds != []
    requires Listed(o, ds[..|ds| - 1], PeerList(o, ds[..|ds| - 1]))
    requires HoldsDelivered(o, ds[..|ds| - 1], PeerList(o, ds[..|ds| - 1]))
    ensures Listed(o, ds, PeerList(o, ds))
  {
    assert ds[..|ds| - 1] + [ds[|ds| - 1]] == ds;
    ListedStep(o, ds[..|ds| - 1], PeerList(o, ds[..|ds| - 1]), ds[|ds| - 1]);
    OneMoreDelivered(o, ds);
  }

  // ---- the key resolved ----

  /** The first of n keys whose window is open, or n. */
  function FirstOpenKey(ds: seq<Delivery>, n: nat): (j: nat)
    ensures j <= n
    ensures j < n ==> ClosedAt(ds, j) == Infinity
    ensures forall i: nat :: i < j ==> ClosedAt(ds, i) != Infinity
  {
    if n == 0 then 0 else
      var j := FirstOpenKey(ds, n - 1);
      if j < n - 1 || ClosedAt(ds, n - 1) == Infinity then j else n
  }

  lemma OpenInList(o: Owner, ds: seq<Delivery>, recs: seq<Record>, j: nat)
    requires Listed(o, ds, recs) && j <= LearnedAhead(ds)
    ensures recs[j].key == o.Key(j) && recs[j].rotatedOut == ClosedAt(ds, j)
  {
    assert recs[j] == HeldRecord(o, ds, j);
  }

  /** The first key with an open window among those learned before the first extra delivery, or
      else what that delivery announced. */
  ghost predicate ResolvesTo(o: Owner, ds: seq<Delivery>, key: PublicKey) {
    var n := LearnedAhead(ds);
    var j := FirstOpenKey(ds, n + 1);
    if j <= n then key == o.Key(j) else FirstExtra(ds).Some? && key == Delivered(o, FirstExtra(ds).value).newPub
  }

  lemma ResolvedByList(o: Owner, ds: seq<Delivery>, recs: seq<Record>)
    requires Listed(o, ds, recs)
    ensures recs != [] && ResolvesTo(o, ds, recs[Active(recs)].key)
  {
    var n, i := LearnedAhead(ds), FirstOpen(recs);
    var j := FirstOpenKey(ds, n + 1);
    if i <= n {
      OpenInList(o, ds, recs, i);
    }
    if j <= n {
      OpenInList(o, ds, recs, j);
    } else {
      assert ClosedAt(ds, n) != Infinity;
    }
  }

  /** Under every schedule of rotations and signed messages, announced with any ticks, that is the
      key a peer is resolved to. */
  lemma ResolvedKey(o: Owner, ds: seq<Delivery>)
    ensures PeerList(o, ds) != [] && ResolvesTo(o, ds, PeerList(o, ds)[Active(PeerList(o, ds))].key)
  {
    ListAfter(o, ds);
    ResolvedByList(o, ds, PeerList(o, ds));
  }

  /** The windows of the keys before the latest one learned have all been ended. */
  ghost predicate EarlierEnded(ds: seq<Delivery>) {
    forall j: nat :: j < Learned(ds) ==> ClosedAt(ds, j) != Infinity
  }

  /** The first thing extra repeats the announcement of key m. */
  predicate RepeatsFirst(ds: seq<Delivery>, m: nat) {
    FirstExtra(ds).Some? && FirstExtra(ds).value.Rotation? && FirstExtra(ds).value.k + 1 == m
  }

  /** When the key resolved is key m, the latest. */
  ghost predicate LatestFirst(ds: seq<Delivery>, m: nat) {
    && LearnedAhead(ds) == m
    && EarlierEnded(ds)
    && (ClosedAt(ds, m) == Infinity || RepeatsFirst(ds, m))
  }

  lemma LatestResolves(o: Owner, ds: seq<Delivery>, key: PublicKey)
    requires ResolvesTo(o, ds, key) && LearnedAhead(ds) <= Learned(ds)
    requires RepeatsFirst(ds, Learned(ds)) ==> Learned(ds) <= LearnedAhead(ds)
    ensures key == o.Key(Learned(ds)) <==> LatestFirst(ds, Learned(ds))
  {
    var n, m := LearnedAhead(ds), Learned(ds);
    var j := FirstOpenKey(ds, n + 1);
    if j <= n && j < m {
      assert ClosedAt(ds, j) == Infinity;
      assert !EarlierEnded(ds);
    }
  }

  lemma {:induction false} RepeatIsKnown(ds: seq<Delivery>, m: nat)
    requires RepeatsFirst(ds, m)
    ensures m <= LearnedAhead(ds)
  {
    var init := ds[..|ds| - 1];
    if FirstExtra(init).Some? {
      RepeatIsKnown(init, m);
    } else {
      NoExtraYet(init);
    }
  }

  lemma NoExtraYet(ds: seq<Delivery>)
    requires FirstExtra(ds).None?
    ensures LearnedAhead(ds) == Learned(ds)
  {
  }

  /** A peer is resolved to its latest known key exactly when nothing extra was delivered before
      that key was learned, the earlier windows have been ended, and either no message ended the
      window of that key or the first thing extra repeated its own announcement. */
  lemma ActiveIsLatest(o: Owner, ds: seq<Delivery>)
    ensures var recs, m := PeerList(o, ds), Learned(ds);
      recs != [] && (recs[Active(recs)].key == o.Key(m) <==> LatestFirst(ds, m))
  {
    LearnedAheadBound(ds);
    if RepeatsFirst(ds, Learned(ds)) {
      RepeatIsKnown(ds, Learned(ds));
    }
    ResolvedKey(o, ds);
    LatestResolves(o, ds, PeerList(o, ds)[Active(PeerList(o, ds))].key);
  }

  // ---- finite ticks ----

  lemma {:induction false} FiniteTicksEnd(ds: seq<Delivery>, j: nat)
    requires forall i :: 0 <= i < |ds| ==> ds[i].tick.At?
    ensures j < Learned(ds) ==> ClosedAt(ds, j) != Infinity
    ensures (forall i :: 0 <= i < |ds| ==> ds[i].Rotation?) ==> ClosedAt(ds, Learned(ds)) == Infinity
  {
    if ds != [] {
      var init, d := ds[..|ds| - 1], ds[|ds| - 1];
      assert ds == init + [d];
      FiniteTicksEnd(init, j);
      LearnedStep(init, d);
      OpenBeyondLearned(init, Learned(init) + 1);
    }
  }

  /** With rotations alone, at finite ticks, this is so exactly when no announcement was repeated
      before the latest key was learned. */
  lemma RotationsResolve(o: Owner, ds: seq<Delivery>)
    requires forall i :: 0 <= i < |ds| ==> ds[i].Rotation? && ds[i].tick.At?
    ensures var recs := PeerList(o, ds);
      recs != [] && (recs[Active(recs)].key == o.Key(Learned(ds)) <==> LearnedAhead(ds) == Learned(ds))
  {
    forall j: nat | j < Learned(ds) ensures ClosedAt(ds, j) != Infinity {
      FiniteTicksEnd(ds, j);
    }
    FiniteTicksEnd(ds, 0);
    ActiveIsLatest(o, ds);
  }

  /** When each key learned ahead has been ended, the peer is resolved to what is extra. */
  lemma ExtraIsResolved(o: Owner, ds: seq<Delivery>, x: Delivery)
    requires FirstExtra(ds) == Some(x) && forall j: nat :: j <= LearnedAhead(ds) ==> ClosedAt(ds, j) != Infinity
    ensures var recs := PeerList(o, ds);
      recs != [] && recs[Active(recs)].key == Delivered(o, x).newPub
  {
    assert FirstOpenKey(ds, LearnedAhead(ds) + 1) == LearnedAhead(ds) + 1;
    ResolvedKey(o, ds);
  }

  function StaleSchedule(): seq<Delivery> {
    [] + [Rotation(0, At(10.0))] + [Rotation(0, At(10.0))] + [Rotation(1, At(20.0))]
  }

  lemma StaleScheduleEnds()
    ensures var ds, x := StaleSchedule(), Rotation(0, At(10.0));
      && Learned(ds) == 2 && FirstExtra(ds) == Some(x) && LearnedAhead(ds) == 1
      && ClosedAt(ds, 0) == At(10.0) && ClosedAt(ds, 1) == At(20.0)
  {
    var x, y := Rotation(0, At(10.0)), Rotation(1, At(20.0));
    LearnedStep([], x);
    LearnedStep([] + [x], x);
    LearnedStep([] + [x] + [x], y);
    OneMore([], x, 0);
    OneMore([] + [x], x, 0);
    OneMore([] + [x] + [x], y, 0);
    OneMore([] + [x] + [x], y, 1);
  }

  /** Announcement 0 heard twice, then announcement 1: the peer is resolved to key 1, not 2. */
  lemma StaleActiveExample(o: Owner)
    ensures var recs := PeerList(o, StaleSchedule());
      recs != [] && Learned(StaleSchedule()) == 2 && recs[Active(recs)].key == o.Key(1)
  {
    StaleScheduleEnds();
    ExtraIsResolved(o, StaleSchedule(), Rotation(0, At(10.0)));
  }

  /** A signed message heard as a rotation at a finite tick, and nothing else: the peer is resolved
      to the bytes of that message. */
  lemma StampIsActive(o: Owner, payload: seq<byte>, stamp: Tick, c: real)
    ensures var ds := [Stamp(0, At(c), payload, stamp)];
      var recs := PeerList(o, ds);
      recs != [] && Learned(ds) == 0 && recs[Active(recs)].key == StampOf(o.Key(0), payload, stamp)
  {
    var x := Stamp(0, At(c), payload, stamp);
    LearnedStep([], x);
    OneMore([], x, 0);
    assert [] + [x] == [x];
    ExtraIsResolved(o, [x], x);
  }
}
