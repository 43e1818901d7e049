/** The dataset layer: provenance commitments and access grants as signed receipts over
    dataset objects that anyone may still write to. */
module DataFacts {
  import opened Wrappers
  import opened Crypto
  import opened Positional

  /** Df(name) is the text "df://" followed by the name. */
  datatype Url = Df(name: seq<byte>) | OtherUrl(text: seq<byte>)

  /** The hashed fields of a dataset; the two timestamps are not among them. */
  datatype Content = Content(name: seq<byte>, owner: AgentId, description: seq<byte>,
                             schemaVersion: string, checksum: seq<byte>)

  /** Content hashing is ideal: injective. */
  datatype Hash = HashOf(content: Content)

  /** A dataset record; whoever holds it may write to it. */
  class DatasetMetadata {
    var content: Content
    var updatedAt: real

    constructor (content: Content)
      ensures this.content == content
    {
      this.content, updatedAt := content, 0.0;
    }
  }

  // ---- receipts ----

  datatype Action =
    | DataShared(url: Url, hash: Hash, schemaVersion: string)
    | AuthorityGranted(counterparty: Did, url: Url, tier: Tier)

  /** `genuine` is what ARP verification says of the receipt. */
  datatype Receipt = Receipt(principal: Did, action: Action, genuine: bool)

  /** A receipt issued under the agent's own key. */
  function Issue(owner: AgentId, action: Action): Receipt {
    Receipt(DidFor(owner), action, true)
  }

  datatype Tier = Read  // the only tier granted

  datatype Grant = Grant(url: Url, grantee: AgentId, tier: Tier)

  datatype Error = NotFound | BadProvenance | Tampered

  // ---- the layer as a value ----

  /** What was published under each URL, and the grants and their receipts in order. */
  datatype Facts = Facts(published: map<Url, Content>, grants: map<Url, seq<Grant>>,
                         grantReceipts: map<Url, seq<Receipt>>)

  const NO_FACTS: Facts := Facts(map[], map[], map[])

  function GrantsUnder(m: map<Url, seq<Grant>>, url: Url): seq<Grant> {
    if url in m then m[url] else []
  }

  function ReceiptsUnder(m: map<Url, seq<Receipt>>, url: Url): seq<Receipt> {
    if url in m then m[url] else []
  }

  function Published(f: Facts, c: Content): Facts {
    f.(published := f.published[Df(c.name) := c])
  }

  function Appended(f: Facts, url: Url, grant: Grant, receipt: Receipt): Facts {
    f.(grants := f.grants[url := GrantsUnder(f.grants, url) + [grant]],
       grantReceipts := f.grantReceipts[url := ReceiptsUnder(f.grantReceipts, url) + [receipt]])
  }

  /** A grant to a requester, with its receipt signed by the dataset's owner of the moment. */
  function Granted(f: Facts, url: Url, requester: AgentId, owner: AgentId): Facts {
    Appended(f, url, Grant(url, requester, Read), Issue(owner, AuthorityGranted(DidFor(requester), url, Read)))
  }

  /** Each receipt of a URL records the grant at the same index. */
  ghost predicate Aligned(known: set<Url>, grants: map<Url, seq<Grant>>, receipts: map<Url, seq<Receipt>>) {
    && grants.Keys == receipts.Keys
    && grants.Keys <= known
    && forall url :: url in grants ==> AlignedAt(grants[url], receipts[url], url)
  }

  ghost predicate AlignedAt(grants: seq<Grant>, receipts: seq<Receipt>, url: Url) {
    |grants| == |receipts| && forall i :: 0 <= i < |grants| ==> Records(receipts[i], grants[i], url)
  }

  ghost predicate Records(r: Receipt, g: Grant, url: Url) {
    r.genuine && g.url == url && r.action == AuthorityGranted(DidFor(g.grantee), url, g.tier)
  }

  // ---- the layer ----

  class ArpDataFacts {
    var datasets: map<Url, DatasetMetadata>
    var provenance: map<Url, Receipt>
    var commit: map<Url, Hash>
    var grants: map<Url, seq<Grant>>
    var grantReceipts: map<Url, seq<Receipt>>

    ghost var published: map<Url, Content>

    ghost function View(): Facts
      reads this
    {
      Facts(published, grants, grantReceipts)
    }

    /** Says nothing about what the dataset objects hold now: writing to them cannot break it. */
    ghost predicate Valid()
      reads this
    {
      && datasets.Keys == published.Keys
      && Committed(published, provenance, commit)
      && Aligned(datasets.Keys, grants, grantReceipts)
    }

    constructor ()
      ensures Valid() && View() == NO_FACTS && datasets == map[]
    {
      datasets, provenance, commit, grants, grantReceipts, published := map[], map[], map[], map[], map[], map[];
    }

    method Publish(dataset: DatasetMetadata) returns (url: Url)
      requires Valid()
      modifies this`datasets, this`provenance, this`commit, this`published
      ensures Valid()
      ensures url == Df(dataset.content.name)
      ensures View() == Published(old(View()), dataset.content)
      ensures datasets == old(datasets)[url := dataset]
      ensures commit == old(commit)[url := HashOf(dataset.content)]
      ensures provenance == old(provenance)[url := Receipt(DidFor(dataset.content.owner),
        DataShared(url, HashOf(dataset.content), dataset.content.schemaVersion), true)]
    {
      url := Df(dataset.content.name);
      var hash := HashOf(dataset.content);
      var receipt := Issue(dataset.content.owner, DataShared(url, hash, dataset.content.schemaVersion));
      datasets := datasets[url := dataset];
      provenance := provenance[url := receipt];
      commit := commit[url := hash];
      published := published[url := dataset.content];
    }

    /** Serves a dataset exactly when its content now is the content that was published. */
    method Fetch(url: Url) returns (r: Result<DatasetMetadata, Error>)
      requires Valid()
      ensures url !in datasets ==> r == Err(NotFound)
      ensures url in datasets ==>
        r == if datasets[url].content == published[url] then Ok(datasets[url]) else Err(Tampered)
    {
      if url !in datasets || url !in provenance {
        return Err(NotFound);
      }
      assert Bound(url, published[url], provenance[url], commit[url]);
      if !provenance[url].genuine {
        return Err(BadProvenance);
      }
      if HashOf(datasets[url].content) != commit[url] {
        return Err(Tampered);
      }
      r := Ok(datasets[url]);
    }

    /** Grants whether or not the content is intact; the receipt names the present owner. */
    method RequestAccess(url: Url, requester: AgentId) returns (r: Result<Grant, Error>)
      requires Valid()
      modifies this`grants, this`grantReceipts
      ensures Valid()
      ensures old(Untampered(datasets, published)) ==> Untampered(datasets, published)
      ensures url !in datasets ==> r == Err(NotFound) && View() == old(View())
      ensures url in datasets ==>
        && r == Ok(Grant(url, requester, Read))
        && View() == Granted(old(View()), url, requester, datasets[url].content.owner)
    {
      if url !in datasets {
        return Err(NotFound);
      }
      var grant := RecordGrant(url, requester, datasets[url].content.owner);
      r := Ok(grant);
    }

    method RecordGrant(url: Url, requester: AgentId, owner: AgentId) returns (grant: Grant)
      requires Valid() && url in published
      modifies this`grants, this`grantReceipts
      ensures Valid() && grant == Grant(url, requester, Read)
      ensures View() == Granted(old(View()), url, requester, owner)
    {
      grant := Grant(url, requester, Read);
      Append(url, grant, Issue(owner, AuthorityGranted(DidFor(requester), url, Read)));
    }

    method Append(url: Url, grant: Grant, receipt: Receipt)
      requires Valid() && url in published && Records(receipt, grant, url)
      modifies this`grants, this`grantReceipts
      ensures Valid() && View() == Appended(old(View()), url, grant, receipt)
    {
      AppendStaysAligned(datasets.Keys, grants, grantReceipts, url, grant, receipt);
      grants := grants[url := GrantsUnder(grants, url) + [grant]];
      grantReceipts := grantReceipts[url := ReceiptsUnder(grantReceipts, url) + [receipt]];
    }

    method VerifyFreshness(url: Url) returns (ok: bool)
      requires Valid()
      ensures ok <==> url in published
    {
      ok := url in provenance && provenance[url].genuine;
      assert url in published ==> Bound(url, published[url], provenance[url], commit[url]);
    }
  }

  /** The two gates side by side.  A grant is given exactly when the URL is known, so it goes with a
      successful fetch exactly when the content is intact; and its receipt is the publisher's
      exactly when the dataset still names that owner. */
  method FetchThenRequest(facts: ArpDataFacts, url: Url, requester: AgentId)
      returns (f: Result<DatasetMetadata, Error>, g: Result<Grant, Error>)
    requires facts.Valid()
    modifies facts`grants, facts`grantReceipts
    ensures facts.Valid()
    ensures g.Ok? <==> url in facts.datasets
    ensures url in facts.datasets ==>
      && ((f.Ok? <==> g.Ok?) <==> facts.datasets[url].content == facts.published[url])
      && url in facts.grantReceipts && facts.grantReceipts[url] != []
      && var receipts := facts.grantReceipts[url];
         (receipts[|receipts| - 1].principal == DidFor(facts.published[url].owner) <==>
           facts.datasets[url].content.owner == facts.published[url].owner)
  {
    f := facts.Fetch(url);
    ghost var before := facts.View();
    g := facts.RequestAccess(url, requester);
    if url in facts.datasets {
      GrantedLast(before, url, requester, facts.datasets[url].content.owner);
    }
  }

  lemma GrantedLast(f: Facts, url: Url, requester: AgentId, owner: AgentId)
    ensures var receipts := Granted(f, url, requester, owner).grantReceipts;
      url in receipts && receipts[url] != [] && receipts[url][|receipts[url]| - 1].principal == DidFor(owner)
  {
  }

  /** A published dataset that was written to is no longer served, but access to it is granted. */
  method TamperThenRequest(facts: ArpDataFacts, dataset: DatasetMetadata, changed: Content, requester: AgentId)
      returns (f: Result<DatasetMetadata, Error>, g: Result<Grant, Error>)
    requires facts.Valid() && changed != dataset.content
    modifies facts, dataset
    ensures f == Err(Tampered)
    ensures g == Ok(Grant(Df(old(dataset.content.name)), requester, Read))
  {
    var url := facts.Publish(dataset);
    dataset.content := changed;
    f := facts.Fetch(url);
    g := facts.RequestAccess(url, requester);
  }

  /** No dataset object has been written to since it was published. */
  ghost predicate Untampered(datasets: map<Url, DatasetMetadata>, published: map<Url, Content>)
    reads datasets.Values
  {
    forall url :: url in datasets && url in published ==> datasets[url].content == published[url]
  }

  ghost predicate Committed(published: map<Url, Content>, provenance: map<Url, Receipt>, commit: map<Url, Hash>) {
    && provenance.Keys == published.Keys && commit.Keys == published.Keys
    && forall url {:trigger commit[url]} :: url in published ==>
         Bound(url, published[url], provenance[url], commit[url])
  }

  /** The stored commitment is the hash inside the signed provenance receipt, by the owner at
      publication, of what was published. */
  ghost predicate Bound(url: Url, c: Content, receipt: Receipt, commit: Hash) {
    && url == Df(c.name)
    && commit == HashOf(c)
    && receipt == Issue(c.owner, DataShared(url, commit, c.schemaVersion))
  }

  lemma AppendStaysAligned(known: set<Url>, grants: map<Url, seq<Grant>>, receipts: map<Url, seq<Receipt>>,
                           url: Url, grant: Grant, receipt: Receipt)
    requires Aligned(known, grants, receipts) && url in known && Records(receipt, grant, url)
    ensures Aligned(known, grants[url := GrantsUnder(grants, url) + [grant]],
                    receipts[url := ReceiptsUnder(receipts, url) + [receipt]])
  {
    assert AlignedAt(GrantsUnder(grants, url), ReceiptsUnder(receipts, url), url);
  }
}
