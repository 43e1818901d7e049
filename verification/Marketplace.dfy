/** The data marketplace: sellers list themselves and publish, buyers discover, fetch, request
    access and credit, over one shared registry, dataset layer and trust layer. */
module Marketplace {
  import opened Wrappers
  import opened Positional
  import opened Crypto
  import Registry
  import DataFacts
  import Trust

  const OFFER: string := "sell_data"

  // "ds-", "dataset sold by " and "sha256:"
  const DS: seq<byte> := [100, 115, 45]
  const SOLD_BY: seq<byte> := [100, 97, 116, 97, 115, 101, 116, 32, 115, 111, 108, 100, 32, 98, 121, 32]
  const SHA: seq<byte> := [115, 104, 97, 50, 53, 54, 58]

  function SellerCard(a: AgentId): Registry.Card {
    Registry.Card(a, a, [OFFER], "")
  }

  function SellerData(a: AgentId): DataFacts.Content {
    DataFacts.Content(DS + a, a, SOLD_BY + a, "1", SHA + a)
  }

  function UrlFor(a: AgentId): DataFacts.Url {
    DataFacts.Df(DS + a)
  }

  lemma UrlsDistinct(a: AgentId, b: AgentId)
    ensures UrlFor(a) == UrlFor(b) <==> a == b
  {
    assert (DS + a)[3..] == a && (DS + b)[3..] == b;
  }

  const OFFERS: Registry.Query := Registry.Query([OFFER], None)

  /** A purchase receipt issued by the seller and co-signed by the buyer. */
  function Credit(seller: AgentId, buyer: AgentId): Trust.Receipt {
    Trust.Receipt(DidFor(seller), DidFor(buyer), true)
  }

  function Praise(seller: AgentId, buyer: AgentId): Trust.Evidence {
    Trust.Evidence(Trust.Positive, Trust.JsonDict(Credit(seller, buyer)))
  }

  /** The confirmation a buyer sends to a seller. */
  datatype Confirm = Confirm(buyer: AgentId, seller: AgentId, dataset: seq<byte>, tier: DataFacts.Tier)

  // ---- the market as a value ----

  datatype Market = Market(cards: Registry.Dict<AgentId, Registry.Card>, facts: DataFacts.Facts,
                           store: Trust.Store, sent: seq<Confirm>)

  const OPENING: Market := Market(Registry.Dict([], map[]), DataFacts.NO_FACTS, Trust.EMPTY, [])

  /** A handler that raises keeps what it did before. */
  datatype Outcome = Outcome(market: Market, failed: bool)

  /** A card the registry refuses is not listed, and its dataset is not published. */
  function Lists(gate: Registry.Gate, m: Market, card: Registry.Card, data: DataFacts.Content): Outcome
    requires m.cards.Valid()
  {
    if !gate(card) then Outcome(m, true)
    else Outcome(m.(cards := m.cards.Put(card.agent, card), facts := DataFacts.Published(m.facts, data)), false)
  }

  function SellerStarts(gate: Registry.Gate, m: Market, a: AgentId): Outcome
    requires m.cards.Valid()
  {
    Lists(gate, m, SellerCard(a), SellerData(a))
  }

  function Bought(m: Market, buyer: AgentId, seller: AgentId, url: DataFacts.Url): (m': Market)
    requires url in m.facts.published
    ensures m'.store.ledger == m.store.ledger + [Trust.Receipt(DidFor(seller), DidFor(buyer), true)]
  {
    var meta := m.facts.published[url];
    m.(facts := DataFacts.Granted(m.facts, url, buyer, meta.owner),
       store := Trust.Filed(m.store, Trust.Filing(seller, Praise(seller, buyer))),
       sent := m.sent + [Confirm(buyer, seller, meta.name, DataFacts.Read)])
  }

  /** After the first k of the sellers found. */
  function BuysFrom(m: Market, buyer: AgentId, found: seq<Registry.Card>, k: nat): Outcome
    requires k <= |found|
  {
    if k == 0 then Outcome(m, false) else
      var before := BuysFrom(m, buyer, found, k - 1);
      if before.failed || UrlFor(found[k - 1].agent) !in before.market.facts.published
      then Outcome(before.market, true)
      else Outcome(Bought(before.market, buyer, found[k - 1].agent, UrlFor(found[k - 1].agent)), false)
  }

  function Transacts(m: Market, buyer: AgentId): Outcome
    requires m.cards.Valid()
  {
    var found := Registry.Matching(m.cards.Values(), OFFERS);
    BuysFrom(m, buyer, found, |found|)
  }

  // ---- the shared layers and the handlers that drive them ----

  datatype Payload = TransactSignal | OtherPayload

  class SharedLayers {
    const registry: Registry.SmBridgeRegistry
    const datafacts: DataFacts.ArpDataFacts
    const trust: Trust.AgentReceiptsTrust
    var sent: seq<Confirm>

    /** Nobody writes to a dataset object after publishing it. */
    ghost predicate Valid()
      reads registry, datafacts, datafacts.datasets.Values
    {
      && registry.Valid() && datafacts.Valid()
      && DataFacts.Untampered(datafacts.datasets, datafacts.published)
    }

    ghost function View(): Market
      reads this, registry, datafacts, trust
    {
      Market(registry.cards, datafacts.View(), trust.View(), sent)
    }

    constructor (gate: Registry.Gate, lib: Trust.Library)
      ensures Valid() && View() == OPENING && registry.gate == gate
      ensures fresh(registry) && fresh(datafacts) && fresh(trust)
    {
      registry := new Registry.SmBridgeRegistry(gate);
      datafacts := new DataFacts.ArpDataFacts();
      trust := new Trust.AgentReceiptsTrust(lib);
      sent := [];
    }

    method SellerOnStart(agent: AgentId) returns (failed: bool)
      requires Valid()
      modifies registry, datafacts
      ensures Valid()
      ensures Outcome(View(), failed) == SellerStarts(registry.gate, old(View()), agent)
      ensures failed <==> !registry.gate(SellerCard(agent))
      ensures failed ==> View() == old(View())
    {
      failed := ListAndPublish(SellerCard(agent), SellerData(agent));
    }

    method ListAndPublish(card: Registry.Card, data: DataFacts.Content) returns (failed: bool)
      requires Valid()
      modifies registry, datafacts
      ensures Valid()
      ensures Outcome(View(), failed) == Lists(registry.gate, old(View()), card, data)
    {
      var r := registry.Register(card);
      if r.Err? {
        return true;
      }
      CreateAndPublish(datafacts, data);
      failed := false;
    }

    method BuyerOnMessage(buyer: AgentId, payload: Payload) returns (failed: bool)
      requires Valid()
      modifies this`sent, datafacts`grants, datafacts`grantReceipts, trust
      ensures Valid()
      ensures payload == OtherPayload ==> !failed && View() == old(View())
      ensures payload == TransactSignal ==> Outcome(View(), failed) == Transacts(old(View()), buyer)
    {
      if payload != TransactSignal {
        return false;
      }
      var sellers := registry.Lookup(OFFERS);
      ghost var start := View();
      for k := 0 to |sellers|
        invariant Valid()
        invariant Outcome(View(), false) == BuysFrom(start, buyer, sellers, k)
      {
        var seller := sellers[k].agent;
        failed := BuyOne(buyer, seller, UrlFor(seller));
        if failed {
          assert BuysFrom(start, buyer, sellers, k + 1) == Outcome(View(), true);
          StaysFailed(start, buyer, sellers, k + 1, |sellers|);
          return true;
        }
      }
      failed := false;
    }

    /** One pass of the buyer's loop. */
    method BuyOne(buyer: AgentId, seller: AgentId, url: DataFacts.Url) returns (failed: bool)
      requires Valid()
      modifies this`sent, datafacts`grants, datafacts`grantReceipts, trust
      ensures Valid()
      ensures failed <==> url !in old(View()).facts.published
      ensures View() == if failed then old(View()) else Bought(old(View()), buyer, seller, url)
    {
      var r := FetchAndRequest(datafacts, buyer, url);
      if r.Err? {
        return true;
      }
      CreditAndConfirm(buyer, seller, r.value.0, r.value.1);
      failed := false;
    }

    method CreditAndConfirm(buyer: AgentId, seller: AgentId, dataset: seq<byte>, tier: DataFacts.Tier)
      requires Valid()
      modifies this`sent, trust
      ensures Valid()
      ensures View() == old(View()).(store := Trust.Filed(old(trust.View()),
                                                                     Trust.Filing(seller, Praise(seller, buyer))),
                                     sent := old(sent) + [Confirm(buyer, seller, dataset, tier)])
    {
      trust.Report(seller, Praise(seller, buyer));
      sent := sent + [Confirm(buyer, seller, dataset, tier)];
    }
  }

  /** The part of a seller's start that touches the dataset layer only. */
  method CreateAndPublish(datafacts: DataFacts.ArpDataFacts, data: DataFacts.Content)
    requires datafacts.Valid() && DataFacts.Untampered(datafacts.datasets, datafacts.published)
    modifies datafacts
    ensures datafacts.Valid() && DataFacts.Untampered(datafacts.datasets, datafacts.published)
    ensures datafacts.View() == DataFacts.Published(old(datafacts.View()), data)
  {
    var meta := new DataFacts.DatasetMetadata(data);
    var _ := datafacts.Publish(meta);
  }

  /** The part of the buyer's loop that touches the dataset layer only. */
  method FetchAndRequest(datafacts: DataFacts.ArpDataFacts, buyer: AgentId, url: DataFacts.Url)
      returns (r: Result<(seq<byte>, DataFacts.Tier), DataFacts.Error>)
    requires datafacts.Valid() && DataFacts.Untampered(datafacts.datasets, datafacts.published)
    modifies datafacts`grants, datafacts`grantReceipts
    ensures datafacts.Valid() && DataFacts.Untampered(datafacts.datasets, datafacts.published)
    ensures r.Ok? <==> url in datafacts.published
    ensures r.Err? ==> datafacts.View() == old(datafacts.View())
    ensures r.Ok? ==>
      && r.value == (datafacts.published[url].name, DataFacts.Read)
      && datafacts.View() == DataFacts.Granted(old(datafacts.View()), url, buyer, datafacts.published[url].owner)
  {
    var meta := datafacts.Fetch(url);
    if meta.Err? {
      return Err(meta.error);
    }
    var name := meta.value.content.name;
    var grant := datafacts.RequestAccess(url, buyer);
    assert grant.Ok?;  // a dataset that was fetched is known
    r := Ok((name, grant.value.tier));
  }

  lemma {:induction false} StaysFailed(m: Market, buyer: AgentId, found: seq<Registry.Card>, k: nat, l: nat)
    requires k <= l <= |found| && BuysFrom(m, buyer, found, k).failed
    ensures BuysFrom(m, buyer, found, l) == BuysFrom(m, buyer, found, k)
  {
    if k < l {
      StaysFailed(m, buyer, found, k, l - 1);
    }
  }
}
