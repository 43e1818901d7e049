/** What the books of a marketplace run add up to. */
module MarketTotals {
  import opened Crypto
  import opened Ensemble
  import opened AgentNames
  import opened Marketplace
  import opened MarketRuns
  import Registry
  import DataFacts
  import Trust

  // ---- per seller ----

  lemma {:induction false} ListedOnce(gate: Registry.Gate, events: seq<Event>)
    ensures Distinct(Listed(gate, events))
  {
    if events != [] {
      var init, e := events[..|events| - 1], events[|events| - 1];
      ListedOnce(gate, init);
      if e.Start? && e.seller !in Listed(gate, init) {
        DistinctOneMore(Listed(gate, init), e.seller);
      }
    }
  }

  lemma {:induction false} BuyersConcat(x: seq<Sale>, y: seq<Sale>, a: AgentId)
    ensures BuyersOf(x + y, a) == BuyersOf(x, a) + BuyersOf(y, a)
  {
    if y == [] {
      assert x + y == x;
    } else {
      BuyersConcat(x, y[..|y| - 1], a);
      assert (x + y)[..|x + y| - 1] == x + y[..|y| - 1];
    }
  }

  lemma {:induction false} RoundSells(sellers: seq<AgentId>, b: AgentId, k: nat, a: AgentId)
    requires k <= |sellers| && Distinct(sellers[..k])
    ensures |Round(sellers, b, k)| == k
    ensures BuyersOf(Round(sellers, b, k), a) == if a in sellers[..k] then [b] else []
  {
    if k != 0 {
      assert sellers[..k] == sellers[..k - 1] + [sellers[k - 1]];
      DistinctOneMore(sellers[..k - 1], sellers[k - 1]);
      RoundSells(sellers, b, k - 1, a);
      assert Round(sellers, b, k)[..|Round(sellers, b, k)| - 1] == Round(sellers, b, k - 1);
    }
  }

  lemma {:induction false} SalesPerSeller(gate: Registry.Gate, events: seq<Event>, a: AgentId)
    ensures BuyersOf(Sales(gate, events), a) == BuyersSince(gate, events, a)
  {
    if events != [] {
      var init, e := events[..|events| - 1], events[|events| - 1];
      SalesPerSeller(gate, init, a);
      if e.Transact? {
        var listed := Listed(gate, init);
        ListedOnce(gate, init);
        assert listed[..|listed|] == listed;
        RoundSells(listed, e.buyer, |listed|, a);
        BuyersConcat(Sales(gate, init), Round(listed, e.buyer, |listed|), a);
      }
    }
  }

  lemma {:induction false} CreditsOfSeller(sales: seq<Sale>, a: AgentId)
    ensures |Trust.Mine(Credits(sales), a)| == |BuyersOf(sales, a)|
  {
    if sales != [] {
      CreditsOfSeller(sales[..|sales| - 1], a);
      assert Credits(sales)[..|sales| - 1] == Credits(sales[..|sales| - 1]);
    }
  }

  lemma {:induction false} CreditsOfSale(sales: seq<Sale>, a: AgentId, b: AgentId)
    ensures multiset(Credits(sales))[Trust.Receipt(DidFor(a), DidFor(b), true)] == multiset(BuyersOf(sales, a))[b]
  {
    if sales != [] {
      var init, last := sales[..|sales| - 1], sales[|sales| - 1];
      CreditsOfSale(init, a, b);
      assert Credits(sales) == Credits(init) + [Credit(last.seller, last.buyer)];
    }
  }

  lemma {:induction false} ConfirmsOfSale(sales: seq<Sale>, a: AgentId, b: AgentId)
    ensures multiset(Confirms(sales))[Confirm(b, a, [100, 115, 45] + a, DataFacts.Read)]
         == multiset(BuyersOf(sales, a))[b]
  {
    if sales != [] {
      var init, last := sales[..|sales| - 1], sales[|sales| - 1];
      ConfirmsOfSale(init, a, b);
      assert Confirms(sales) == Confirms(init) +
        [Confirm(last.buyer, last.seller, SellerData(last.seller).name, DataFacts.Read)];
    }
  }

  /** In every run, in whatever order, the receipts by a seller about a buyer, and the confirmations
      that buyer sent it about its dataset, number the purchases by the buyer since the seller was
      listed. */
  lemma PurchasesBooked(gate: Registry.Gate, events: seq<Event>, a: AgentId, b: AgentId)
    ensures var m := Run(gate, events).market;
      && multiset(m.store.ledger)[Trust.Receipt(DidFor(a), DidFor(b), true)]
           == multiset(BuyersSince(gate, events, a))[b]
      && multiset(m.sent)[Confirm(b, a, [100, 115, 45] + a, DataFacts.Read)]
           == multiset(BuyersSince(gate, events, a))[b]
  {
    MarketRun(gate, events);
    SalesPerSeller(gate, events, a);
    CreditsOfSale(Sales(gate, events), a, b);
    ConfirmsOfSale(Sales(gate, events), a, b);
  }

  /** Only sellers on offer have a dataset: what the registry refuses is not published. */
  lemma {:induction false} OnlyOffersPublished(gate: Registry.Gate, events: seq<Event>, a: AgentId)
    requires a !in Listed(gate, events)
    ensures UrlFor(a) !in Run(gate, events).market.facts.published && a !in Run(gate, events).market.cards.at
  {
    if events != [] {
      var init, e := events[..|events| - 1], events[|events| - 1];
      OnlyOffersPublished(gate, init, a);
      if e.Start? {
        UrlsDistinct(a, e.seller);
      } else if e.Transact? {
        var m := Run(gate, init).market;
        var found := Registry.Matching(m.cards.Values(), OFFERS);
        CardsKept(m, e.buyer, found, |found|);
        DatasetsKept(m, e.buyer, found, |found|);
      }
    }
  }

  lemma {:induction false} DatasetsKept(m: Market, b: AgentId, found: seq<Registry.Card>, k: nat)
    requires k <= |found|
    ensures BuysFrom(m, b, found, k).market.facts.published == m.facts.published
  {
    if k != 0 {
      DatasetsKept(m, b, found, k - 1);
    }
  }

  /** What a seller on offer has listed and published: "sell_data", "ds-", "dataset sold by " and
      "sha256:". */
  lemma SellerOffers(gate: Registry.Gate, events: seq<Event>, a: AgentId)
    requires a in Listed(gate, events)
    ensures var m := Run(gate, events).market;
      && a in m.cards.at && m.cards.at[a] == Registry.Card(a, a, ["sell_data"], "")
      && DataFacts.Df([100, 115, 45] + a) in m.facts.published
      && m.facts.published[DataFacts.Df([100, 115, 45] + a)] ==
           DataFacts.Content([100, 115, 45] + a, a,
             [100, 97, 116, 97, 115, 101, 116, 32, 115, 111, 108, 100, 32, 98, 121, 32] + a, "1",
             [115, 104, 97, 50, 53, 54, 58] + a)
  {
    MarketRun(gate, events);
    assert Offered(Run(gate, events).market, a);
  }

  /** In every run, in whatever order: nothing fails, a seller's sample count is the number of
      purchases since it was listed, and its dataset has one grant for each of those, in order, with
      a receipt signed by the seller that names the buyer. */
  lemma SellerBooks(gate: Registry.Gate, lib: Trust.Library, events: seq<Event>, a: AgentId)
    ensures var o := Run(gate, events);
      && !o.failed
      && Trust.ScoreOf(lib, o.market.store, a).sampleCount == |BuyersSince(gate, events, a)|
      && DataFacts.GrantsUnder(o.market.facts.grants, UrlFor(a)) == GrantsTo(a, BuyersSince(gate, events, a))
      && DataFacts.ReceiptsUnder(o.market.facts.grantReceipts, UrlFor(a)) == SignedTo(a, BuyersSince(gate, events, a))
  {
    MarketRun(gate, events);
    SalesPerSeller(gate, events, a);
    CreditsOfSeller(Sales(gate, events), a);
    assert Granted(Run(gate, events).market, Sales(gate, events), a);
  }

  // ---- one purchase round in any market ----

  /** Among the first k found is an agent. */
  ghost predicate FoundBy(found: seq<Registry.Card>, k: nat, a: AgentId)
    requires k <= |found|
  {
    exists i :: 0 <= i < k && found[i].agent == a
  }

  ghost predicate Published(m: Market, a: AgentId) {
    UrlFor(a) in m.facts.published
  }

  lemma FoundOneMore(found: seq<Registry.Card>, k: nat, a: AgentId)
    requires 0 < k <= |found|
    ensures FoundBy(found, k, a) <==> FoundBy(found, k - 1, a) || found[k - 1].agent == a
  {
  }

  lemma {:induction false} FailsWithoutDataset(m: Market, b: AgentId, found: seq<Registry.Card>, k: nat)
    requires k <= |found|
    ensures BuysFrom(m, b, found, k).failed <==> exists i :: 0 <= i < k && !Published(m, found[i].agent)
  {
    if k != 0 {
      FailsWithoutDataset(m, b, found, k - 1);
      DatasetsKept(m, b, found, k - 1);
    }
  }

  lemma {:induction false} CreditsFound(m: Market, b: AgentId, found: seq<Registry.Card>, k: nat, a: AgentId)
    requires k <= |found| && Registry.DistinctAgents(found) && !BuysFrom(m, b, found, k).failed
    ensures multiset(BuysFrom(m, b, found, k).market.store.ledger)[Trust.Receipt(DidFor(a), DidFor(b), true)]
         == multiset(m.store.ledger)[Trust.Receipt(DidFor(a), DidFor(b), true)] + if FoundBy(found, k, a) then 1 else 0
  {
    if k != 0 {
      CreditsFound(m, b, found, k - 1, a);
      FoundOneMore(found, k, a);
    }
  }

  /** In any market, whatever cards are listed: a buyer credits exactly the agents whose cards offer
      "sell_data", once each, and its round fails exactly when one of those has no dataset. */
  lemma RoundCreditsOffers(gate: Registry.Gate, m: Market, b: AgentId, a: AgentId)
    requires Registry.WellKept(gate, m.cards)
    ensures var o := Transacts(m, b);
      && (o.failed <==> exists c <- m.cards.at :: "sell_data" in m.cards.at[c].capabilities && !Published(m, c))
      && (!o.failed ==>
            multiset(o.market.store.ledger)[Trust.Receipt(DidFor(a), DidFor(b), true)]
              == multiset(m.store.ledger)[Trust.Receipt(DidFor(a), DidFor(b), true)] +
                 if a in m.cards.at && "sell_data" in m.cards.at[a].capabilities then 1 else 0)
  {
    var found := Registry.Matching(m.cards.Values(), OFFERS);
    Registry.LookupMeans(gate, m.cards, OFFERS);
    Registry.MatchingOnce(m.cards.Values(), OFFERS);
    FailsWithoutDataset(m, b, found, |found|);
    forall c: AgentId
      ensures FoundBy(found, |found|, c) <==> c in m.cards.at && "sell_data" in m.cards.at[c].capabilities
    {
      OffersFound(gate, m, found, c);
    }
    if !Transacts(m, b).failed {
      CreditsFound(m, b, found, |found|, a);
    }
    assert (exists i :: 0 <= i < |found| && !Published(m, found[i].agent))
      <==> exists c :: FoundBy(found, |found|, c) && !Published(m, c);
  }

  lemma OffersFound(gate: Registry.Gate, m: Market, found: seq<Registry.Card>, c: AgentId)
    requires Registry.WellKept(gate, m.cards) && found == Registry.Matching(m.cards.Values(), OFFERS)
    ensures FoundBy(found, |found|, c) <==> c in m.cards.at && "sell_data" in m.cards.at[c].capabilities
  {
    Registry.LookupMeans(gate, m.cards, OFFERS);
    if i :| 0 <= i < |found| && found[i].agent == c {
      assert found[i] in found;
      assert OFFERS.capabilities[0] in found[i].capabilities;
    }
    if c in m.cards.at && "sell_data" in m.cards.at[c].capabilities {
      assert m.cards.at[c] in found;
    }
  }

  // ---- the factory's agents ----

  datatype Role = Seller | Buyer(transactAt: real)

  /** The agents of one parity below n, in order. */
  function Sellers(name: Naming, n: nat): seq<AgentId> {
    if n == 0 then [] else if (n - 1) % 2 == 0 then Sellers(name, n - 1) + [name(n - 1)] else Sellers(name, n - 1)
  }

  function Buyers(name: Naming, n: nat): seq<AgentId> {
    if n == 0 then [] else if (n - 1) % 2 == 1 then Buyers(name, n - 1) + [name(n - 1)] else Buyers(name, n - 1)
  }

  function Roles(name: Naming, n: nat, transactAt: real): map<AgentId, Role> {
    if n == 0 then map[] else
      Roles(name, n - 1, transactAt)[name(n - 1) := if (n - 1) % 2 == 0 then Seller else Buyer(transactAt)]
  }

  method MarketplaceFactory(name: Naming, count: nat, transactAt: real) returns (agents: map<AgentId, Role>)
    ensures agents == Roles(name, count, transactAt)
  {
    agents := map[];
    for i := 0 to count
      invariant agents == Roles(name, i, transactAt)
    {
      agents := agents[name(i) := if i % 2 == 0 then Seller else Buyer(transactAt)];
    }
  }

  /** No agent is created twice. */
  lemma {:induction false} NotYetCreated(name: Naming, n: nat, j: nat, transactAt: real)
    requires Injective(name) && n <= j
    ensures name(j) !in Roles(name, n, transactAt) && name(j) !in Sellers(name, n) && name(j) !in Buyers(name, n)
  {
    if n != 0 {
      NotYetCreated(name, n - 1, j, transactAt);
      assert name(j) == name(n - 1) ==> j == n - 1;
    }
  }

  /** The factory makes n agents; the even ones are the sellers, the odd ones the buyers. */
  lemma {:induction false} FactoryRoles(name: Naming, n: nat, transactAt: real, a: AgentId)
    requires Injective(name)
    ensures |Roles(name, n, transactAt)| == n
    ensures a in Sellers(name, n) <==> a in Roles(name, n, transactAt) && Roles(name, n, transactAt)[a] == Seller
    ensures a in Buyers(name, n) <==>
      a in Roles(name, n, transactAt) && Roles(name, n, transactAt)[a] == Buyer(transactAt)
  {
    if n != 0 {
      FactoryRoles(name, n - 1, transactAt, a);
      NotYetCreated(name, n - 1, n - 1, transactAt);
    }
  }

  lemma {:induction false} FactoryCounts(name: Naming, n: nat)
    ensures |Sellers(name, n)| == (n + 1) / 2 && |Buyers(name, n)| == n / 2
  {
    if n != 0 {
      FactoryCounts(name, n - 1);
    }
  }

  lemma {:induction false} SellersOnce(name: Naming, n: nat)
    requires Injective(name)
    ensures Distinct(Sellers(name, n))
  {
    if n != 0 {
      SellersOnce(name, n - 1);
      NotYetCreated(name, n - 1, n - 1, 0.0);
      DistinctOneMore(Sellers(name, n - 1), name(n - 1));
    }
  }

  lemma {:induction false} BuyersOnce(name: Naming, n: nat)
    requires Injective(name)
    ensures Distinct(Buyers(name, n))
  {
    if n != 0 {
      BuyersOnce(name, n - 1);
      NotYetCreated(name, n - 1, n - 1, 0.0);
      DistinctOneMore(Buyers(name, n - 1), name(n - 1));
    }
  }

  lemma FactoryOnce(name: Naming, n: nat)
    requires Injective(name)
    ensures Distinct(Sellers(name, n)) && Distinct(Buyers(name, n))
  {
    SellersOnce(name, n);
    BuyersOnce(name, n);
  }

  // ---- runs in which every purchase follows all the starts ----

  ghost function Starts(events: seq<Event>): seq<AgentId> {
    if events == [] then [] else
      var before, e := Starts(events[..|events| - 1]), events[|events| - 1];
      if e.Start? then before + [e.seller] else before
  }

  ghost function Deals(events: seq<Event>): seq<AgentId> {
    if events == [] then [] else
      var before, e := Deals(events[..|events| - 1]), events[|events| - 1];
      if e.Transact? then before + [e.buyer] else before
  }

  ghost predicate StartsFirst(events: seq<Event>) {
    forall i, j :: 0 <= i < j < |events| && events[i].Transact? ==> !events[j].Start?
  }

  ghost predicate AllAccepted(gate: Registry.Gate, sellers: seq<AgentId>) {
    forall a <- sellers :: gate(SellerCard(a))
  }

  lemma {:induction false} NoDealYet(gate: Registry.Gate, events: seq<Event>, a: AgentId)
    requires forall i :: 0 <= i < |events| ==> !events[i].Transact?
    ensures Deals(events) == [] && Sales(gate, events) == [] && BuyersSince(gate, events, a) == []
  {
    if events != [] {
      NoDealYet(gate, events[..|events| - 1], a);
    }
  }

  lemma {:induction false} EverySellerMeetsEveryBuyer(gate: Registry.Gate, events: seq<Event>, a: AgentId)
    requires StartsFirst(events) && Distinct(Starts(events)) && AllAccepted(gate, Starts(events))
    ensures Listed(gate, events) == Starts(events)
    ensures |Sales(gate, events)| == |Starts(events)| * |Deals(events)|
    ensures a in Starts(events) ==> BuyersSince(gate, events, a) == Deals(events)
  {
    if events != [] {
      var init, e := events[..|events| - 1], events[|events| - 1];
      assert Starts(init) <= Starts(events);
      if e.Start? {
        DistinctOneMore(Starts(init), e.seller);
      }
      EverySellerMeetsEveryBuyer(gate, init, a);
      match e
      case Start(s) =>
        forall i | 0 <= i < |init| ensures !init[i].Transact? {
          assert events[i] == init[i];
        }
        NoDealYet(gate, init, a);
      case Transact(b) =>
        RoundLength(Starts(init), b, |Starts(init)|);
        OneMoreRow(|Starts(init)|, |Deals(init)|);
      case Other =>
    }
  }

  lemma {:induction false} RoundLength(sellers: seq<AgentId>, b: AgentId, k: nat)
    requires k <= |sellers|
    ensures |Round(sellers, b, k)| == k
  {
    if k != 0 {
      RoundLength(sellers, b, k - 1);
    }
  }

  lemma OneMoreRow(s: nat, d: nat)
    ensures s * d + s == s * (d + 1)
  {
  }

  ghost predicate FactoryRun(gate: Registry.Gate, name: Naming, n: nat, events: seq<Event>) {
    && StartsFirst(events)
    && multiset(Starts(events)) == multiset(Sellers(name, n))
    && multiset(Deals(events)) == multiset(Buyers(name, n))
    && AllAccepted(gate, Sellers(name, n))
  }

  /** When every seller starts once, every buyer transacts once and purchases follow all starts,
      then with n agents, in any order of the starts and of the purchases: no purchase fails; the
      ledger and the confirmations number sellers times buyers; every seller's sample count is the
      number of buyers; every dataset has exactly one grant per buyer; and for every seller and
      buyer there is one receipt by the one about the other and one confirmation. */
  lemma FactoryTotals(gate: Registry.Gate, lib: Trust.Library, name: Naming, n: nat, events: seq<Event>, a: AgentId)
    requires Injective(name) && FactoryRun(gate, name, n, events)
    ensures var o := Run(gate, events);
      && !o.failed
      && |o.market.store.ledger| == ((n + 1) / 2) * (n / 2)
      && |o.market.sent| == ((n + 1) / 2) * (n / 2)
    ensures a in Sellers(name, n) ==> forall b <- Buyers(name, n) ::
      var m := Run(gate, events).market;
      && multiset(m.store.ledger)[Trust.Receipt(DidFor(a), DidFor(b), true)] == 1
      && multiset(m.sent)[Confirm(b, a, [100, 115, 45] + a, DataFacts.Read)] == 1
    ensures a in Sellers(name, n) ==> var o := Run(gate, events);
      && Trust.ScoreOf(lib, o.market.store, a).sampleCount == n / 2
      && exists buyers :: multiset(buyers) == multiset(Buyers(name, n))
           && DataFacts.GrantsUnder(o.market.facts.grants, UrlFor(a)) == GrantsTo(a, buyers)
  {
    FactoryCounts(name, n);
    FactoryOnce(name, n);
    SameMembers(Starts(events), Sellers(name, n));
    SameMembers(Deals(events), Buyers(name, n));
    EverySellerMeetsEveryBuyer(gate, events, a);
    MarketRun(gate, events);
    SellerBooks(gate, lib, events, a);
    if a in Sellers(name, n) {
      forall b | b in Buyers(name, n)
        ensures multiset(Run(gate, events).market.store.ledger)[Trust.Receipt(DidFor(a), DidFor(b), true)] == 1
        ensures multiset(Run(gate, events).market.sent)[Confirm(b, a, [100, 115, 45] + a, DataFacts.Read)] == 1
      {
        PurchasesBooked(gate, events, a, b);
        OnceEach(Buyers(name, n), b);
      }
    }
  }

  lemma OnceEach<T(!new)>(xs: seq<T>, x: T)
    requires Distinct(xs) && x in xs
    ensures multiset(xs)[x] == 1
  {
    DistinctCounts(xs);
  }

  lemma SameMembers<T(!new)>(xs: seq<T>, ys: seq<T>)
    requires multiset(xs) == multiset(ys) && Distinct(ys)
    ensures |xs| == |ys| && Distinct(xs) && (forall x :: x in xs <==> x in ys)
  {
    DistinctCounts(xs);
    DistinctCounts(ys);
    assert |multiset(xs)| == |xs| && |multiset(ys)| == |ys|;
    forall x ensures x in xs <==> x in ys {
      assert x in multiset(xs) <==> x in multiset(ys);
    }
  }
}
