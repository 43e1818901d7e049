/** Whole marketplace runs, in any order of seller starts and purchases. */
module MarketRuns {
  import opened Crypto
  import opened Marketplace
  import Registry
  import DataFacts
  import Trust

  /** A handler call; other calls touch no layer. */
  datatype Event = Start(seller: AgentId) | Transact(buyer: AgentId) | Other

  /** `failed` says that some purchase failed. */
  function Run(gate: Registry.Gate, events: seq<Event>): (o: Outcome)
    ensures o.market.cards.Valid()
  {
    if events == [] then Outcome(OPENING, false) else
      Then(gate, Run(gate, events[..|events| - 1]), events[|events| - 1])
  }

  function Then(gate: Registry.Gate, o: Outcome, e: Event): (o': Outcome)
    requires o.market.cards.Valid()
    ensures o'.market.cards.Valid()
  {
    match e
    case Start(a) => Outcome(SellerStarts(gate, o.market, a).market, o.failed)
    case Transact(b) =>
      var after := Transacts(o.market, b);
      CardsKept(o.market, b, Registry.Matching(o.market.cards.Values(), OFFERS),
                |Registry.Matching(o.market.cards.Values(), OFFERS)|);
      Outcome(after.market, o.failed || after.failed)
    case Other => o
  }

  lemma {:induction false} CardsKept(m: Market, b: AgentId, found: seq<Registry.Card>, k: nat)
    requires k <= |found|
    ensures BuysFrom(m, b, found, k).market.cards == m.cards
  {
    if k != 0 {
      CardsKept(m, b, found, k - 1);
    }
  }

  // ---- what a run should leave behind ----

  /** The sellers on offer, in order of first listing. */
  ghost function Listed(gate: Registry.Gate, events: seq<Event>): seq<AgentId> {
    if events == [] then [] else
      var before, e := Listed(gate, events[..|events| - 1]), events[|events| - 1];
      if e.Start? && gate(SellerCard(e.seller)) && e.seller !in before then before + [e.seller] else before
  }

  /** The buyers that transact once a seller is on offer. */
  ghost function BuyersSince(gate: Registry.Gate, events: seq<Event>, a: AgentId): seq<AgentId> {
    if events == [] then [] else
      var init, e := events[..|events| - 1], events[|events| - 1];
      if e.Transact? && a in Listed(gate, init) then BuyersSince(gate, init, a) + [e.buyer]
      else BuyersSince(gate, init, a)
  }

  datatype Sale = Sale(seller: AgentId, buyer: AgentId)

  ghost function Round(sellers: seq<AgentId>, b: AgentId, k: nat): seq<Sale>
    requires k <= |sellers|
  {
    if k == 0 then [] else Round(sellers, b, k - 1) + [Sale(sellers[k - 1], b)]
  }

  ghost function Sales(gate: Registry.Gate, events: seq<Event>): seq<Sale> {
    if events == [] then [] else
      var init, e := events[..|events| - 1], events[|events| - 1];
      if e.Transact? then Sales(gate, init) + Round(Listed(gate, init), e.buyer, |Listed(gate, init)|)
      else Sales(gate, init)
  }

  ghost function Credits(sales: seq<Sale>): seq<Trust.Receipt> {
    seq(|sales|, i requires 0 <= i < |sales| => Credit(sales[i].seller, sales[i].buyer))
  }

  ghost function Confirms(sales: seq<Sale>): seq<Confirm> {
    seq(|sales|, i requires 0 <= i < |sales| =>
      Confirm(sales[i].buyer, sales[i].seller, SellerData(sales[i].seller).name, DataFacts.Read))
  }

  ghost function BuyersOf(sales: seq<Sale>, a: AgentId): seq<AgentId> {
    if sales == [] then [] else
      var before, s := BuyersOf(sales[..|sales| - 1], a), sales[|sales| - 1];
      if s.seller == a then before + [s.buyer] else before
  }

  ghost function GrantsTo(a: AgentId, buyers: seq<AgentId>): seq<DataFacts.Grant> {
    seq(|buyers|, i requires 0 <= i < |buyers| => DataFacts.Grant(UrlFor(a), buyers[i], DataFacts.Read))
  }

  /** The receipts of those grants, signed by the seller. */
  ghost function SignedTo(a: AgentId, buyers: seq<AgentId>): seq<DataFacts.Receipt> {
    seq(|buyers|, i requires 0 <= i < |buyers| =>
      DataFacts.Receipt(DidFor(a), DataFacts.AuthorityGranted(DidFor(buyers[i]), UrlFor(a), DataFacts.Read), true))
  }

  // ---- the invariant ----

  ghost predicate OnOffer(m: Market, listed: seq<AgentId>) {
    && m.cards.Valid() && m.cards.order == listed
    && forall a <- listed :: Offered(m, a)
  }

  ghost predicate Offered(m: Market, a: AgentId) {
    && a in m.cards.at && m.cards.at[a] == SellerCard(a)
    && UrlFor(a) in m.facts.published && m.facts.published[UrlFor(a)] == SellerData(a)
  }

  ghost predicate Granted(m: Market, sales: seq<Sale>, a: AgentId) {
    && DataFacts.GrantsUnder(m.facts.grants, UrlFor(a)) == GrantsTo(a, BuyersOf(sales, a))
    && DataFacts.ReceiptsUnder(m.facts.grantReceipts, UrlFor(a)) == SignedTo(a, BuyersOf(sales, a))
  }

  ghost predicate Booked(m: Market, sales: seq<Sale>) {
    && m.store == Trust.Store(Credits(sales), map[])
    && m.sent == Confirms(sales)
    && forall a :: Granted(m, sales, a)
  }

  lemma GrantsOneSale(m: Market, sales: seq<Sale>, a: AgentId, b: AgentId, c: AgentId)
    requires Granted(m, sales, c)
    requires UrlFor(a) in m.facts.published && m.facts.published[UrlFor(a)] == SellerData(a)
    ensures Granted(Bought(m, b, a, UrlFor(a)), sales + [Sale(a, b)], c)
  {
    var sales' := sales + [Sale(a, b)];
    UrlsDistinct(a, c);
    assert sales'[..|sales|] == sales;
    if a == c {
      var buyers := BuyersOf(sales, a);
      assert GrantsTo(a, buyers + [b]) == GrantsTo(a, buyers) + [DataFacts.Grant(UrlFor(a), b, DataFacts.Read)];
      assert SignedTo(a, buyers + [b]) == SignedTo(a, buyers) +
        [DataFacts.Receipt(DidFor(a), DataFacts.AuthorityGranted(DidFor(b), UrlFor(a), DataFacts.Read), true)];
    }
  }

  lemma BooksOneSale(m: Market, sales: seq<Sale>, a: AgentId, b: AgentId)
    requires Booked(m, sales)
    requires UrlFor(a) in m.facts.published && m.facts.published[UrlFor(a)] == SellerData(a)
    ensures Booked(Bought(m, b, a, UrlFor(a)), sales + [Sale(a, b)])
  {
    var sales' := sales + [Sale(a, b)];
    assert Credits(sales') == Credits(sales) + [Credit(a, b)];
    assert Confirms(sales') == Confirms(sales) + [Confirm(b, a, SellerData(a).name, DataFacts.Read)];
    forall c ensures Granted(Bought(m, b, a, UrlFor(a)), sales', c) {
      GrantsOneSale(m, sales, a, b, c);
    }
  }

  lemma OnePurchase(m: Market, listed: seq<AgentId>, sales: seq<Sale>, a: AgentId, b: AgentId)
    requires OnOffer(m, listed) && Booked(m, sales) && a in listed
    ensures OnOffer(Bought(m, b, a, UrlFor(a)), listed)
    ensures Booked(Bought(m, b, a, UrlFor(a)), sales + [Sale(a, b)])
  {
    assert Offered(m, a);
    BooksOneSale(m, sales, a, b);
    forall c | c in listed ensures Offered(Bought(m, b, a, UrlFor(a)), c) {
      assert Offered(m, c);
    }
  }

  ghost predicate GoneWell(o: Outcome, listed: seq<AgentId>, sales: seq<Sale>) {
    !o.failed && OnOffer(o.market, listed) && Booked(o.market, sales)
  }

  lemma NextPurchase(m: Market, listed: seq<AgentId>, sales: seq<Sale>, b: AgentId, found: seq<Registry.Card>, k: nat)
    requires |found| == |listed| && 0 < k <= |listed| && found[k - 1].agent == listed[k - 1]
    requires GoneWell(BuysFrom(m, b, found, k - 1), listed, sales)
    ensures GoneWell(BuysFrom(m, b, found, k), listed, sales + [Sale(listed[k - 1], b)])
  {
    var a := listed[k - 1];
    assert Offered(BuysFrom(m, b, found, k - 1).market, a);
    OnePurchase(BuysFrom(m, b, found, k - 1).market, listed, sales, a, b);
  }

  lemma {:induction false} RoundOfPurchases(m: Market, listed: seq<AgentId>, sales: seq<Sale>, b: AgentId,
                                            found: seq<Registry.Card>, k: nat)
    requires OnOffer(m, listed) && Booked(m, sales)
    requires |found| == |listed| && forall i :: 0 <= i < |found| ==> found[i].agent == listed[i]
    requires k <= |listed|
    ensures GoneWell(BuysFrom(m, b, found, k), listed, sales + Round(listed, b, k))
  {
    if k == 0 {
      assert sales + [] == sales;
    } else {
      RoundOfPurchases(m, listed, sales, b, found, k - 1);
      NextPurchase(m, listed, sales + Round(listed, b, k - 1), b, found, k);
      assert sales + Round(listed, b, k) == sales + Round(listed, b, k - 1) + [Sale(listed[k - 1], b)];
    }
  }

  lemma {:induction false} EveryoneFound(cards: seq<Registry.Card>)
    requires forall i :: 0 <= i < |cards| ==> cards[i] == SellerCard(cards[i].agent)
    ensures Registry.Matching(cards, OFFERS) == cards
  {
    if cards != [] {
      EveryoneFound(cards[..|cards| - 1]);
      assert cards[|cards| - 1].capabilities == [OFFER];
    }
  }

  /** In every run, whatever the order: no purchase fails, and the layers hold exactly the sales
      that the listings in force at each purchase call for. */
  lemma {:induction false} MarketRun(gate: Registry.Gate, events: seq<Event>)
    ensures GoneWell(Run(gate, events), Listed(gate, events), Sales(gate, events))
  {
    if events == [] {
      NothingBooked();
    } else {
      var init, e := events[..|events| - 1], events[|events| - 1];
      MarketRun(gate, init);
      var before := Run(gate, init).market;
      match e
      case Start(a) => ListingKept(gate, before, Listed(gate, init), Sales(gate, init), a);
      case Transact(b) => PurchasesKept(before, Listed(gate, init), Sales(gate, init), b);
      case Other =>
    }
  }

  lemma NothingBooked()
    ensures OnOffer(OPENING, []) && Booked(OPENING, [])
  {
    forall a ensures Granted(OPENING, [], a) {
    }
  }

  lemma OfferedAfterStart(gate: Registry.Gate, m: Market, a: AgentId, c: AgentId)
    requires m.cards.Valid() && (Offered(m, c) || (c == a && gate(SellerCard(a))))
    ensures Offered(SellerStarts(gate, m, a).market, c)
  {
    UrlsDistinct(c, a);
  }

  lemma OfferKept(gate: Registry.Gate, m: Market, listed: seq<AgentId>, a: AgentId)
    requires OnOffer(m, listed)
    ensures OnOffer(SellerStarts(gate, m, a).market,
                    if gate(SellerCard(a)) && a !in listed then listed + [a] else listed)
  {
    var listed' := if gate(SellerCard(a)) && a !in listed then listed + [a] else listed;
    forall c | c in listed' ensures Offered(SellerStarts(gate, m, a).market, c) {
      assert c in listed || c == a;
      OfferedAfterStart(gate, m, a, c);
    }
  }

  lemma ListingKept(gate: Registry.Gate, m: Market, listed: seq<AgentId>, sales: seq<Sale>, a: AgentId)
    requires OnOffer(m, listed) && Booked(m, sales)
    ensures var m' := SellerStarts(gate, m, a).market;
      && OnOffer(m', if gate(SellerCard(a)) && a !in listed then listed + [a] else listed)
      && Booked(m', sales)
  {
    OfferKept(gate, m, listed, a);
    var m' := SellerStarts(gate, m, a).market;
    forall c ensures Granted(m', sales, c) {
      assert Granted(m, sales, c);
    }
  }

  lemma PurchasesKept(m: Market, listed: seq<AgentId>, sales: seq<Sale>, b: AgentId)
    requires OnOffer(m, listed) && Booked(m, sales)
    ensures var o := Transacts(m, b);
      && !o.failed && OnOffer(o.market, listed) && Booked(o.market, sales + Round(listed, b, |listed|))
  {
    var cards := m.cards.Values();
    assert forall i :: 0 <= i < |cards| ==> Offered(m, listed[i]) && cards[i] == SellerCard(listed[i]);
    EveryoneFound(cards);
    RoundOfPurchases(m, listed, sales, b, cards, |listed|);
  }
}
