/** The receipt-based reputation layer: evidence goes either to a ledger of verifying receipts
    or to a per-agent list of heuristic scores. */
module Trust {
  import opened Crypto
  import Ensemble

  /** `genuine` is what ARP verification says of the receipt. */
  datatype Receipt = Receipt(principal: Did, counterparty: Did, genuine: bool)

  datatype Detail = NotJson | JsonOther | JsonDict(receipt: Receipt)
  datatype Kind = Positive | Negative | Byzantine | OtherKind(text: string)
  datatype Evidence = Evidence(kind: Kind, detail: Detail)
  /** One call of report. */
  datatype Filing = Filing(agent: AgentId, evidence: Evidence)

  datatype Reputation = Reputation(agent: AgentId, score: real, confidence: real, sampleCount: nat)

  /** The library functions scoring calls: severance over the whole ledger, the category score,
      the corroboration rate, and x -> exp(-x). */
  datatype Library = Library(effective: seq<Receipt> -> seq<Receipt>, rawScore: seq<Receipt> -> real,
                             rate: seq<Receipt> -> real, expMinus: real -> real)

  ghost predicate Lawful(lib: Library) {
    && (forall x: real :: x >= 0.0 ==> 0.0 <= lib.expMinus(x) <= 1.0)
    && (forall x: real, y: real :: 0.0 <= x <= y ==> lib.expMinus(y) <= lib.expMinus(x))
    && (forall rs :: 0.0 <= lib.rate(rs) <= 1.0)
    && lib.rate([]) == 0.0
    && lib.rawScore([]) == 0.0
  }

  datatype Store = Store(ledger: seq<Receipt>, fallback: map<AgentId, seq<real>>)

  const EMPTY: Store := Store([], map[])

  function ScoresOf(fallback: map<AgentId, seq<real>>, a: AgentId): seq<real> {
    if a in fallback then fallback[a] else []
  }

  predicate Credits(e: Evidence) {
    e.detail.JsonDict? && e.detail.receipt.genuine
  }

  function Heuristic(kind: Kind): (v: real)
    ensures 0.0 <= v <= 1.0
  {
    match kind
    case Positive => 1.0
    case Negative => 0.0
    case Byzantine => 0.0
    case OtherKind(_) => 0.5
  }

  /** The store after one report. */
  function Filed(s: Store, r: Filing): Store {
    if Credits(r.evidence) then s.(ledger := s.ledger + [r.evidence.detail.receipt])
    else s.(fallback := s.fallback[r.agent := ScoresOf(s.fallback, r.agent) + [Heuristic(r.evidence.kind)]])
  }

  function Normalize(lib: Library, raw: real): real {
    if raw <= 0.0 then 0.0 else 1.0 - lib.expMinus(raw / 10.0)
  }

  /** An agent's own receipts, in ledger order. */
  function Mine(ledger: seq<Receipt>, a: AgentId): seq<Receipt> {
    if ledger == [] then [] else
      var init, r := Mine(ledger[..|ledger| - 1], a), ledger[|ledger| - 1];
      if r.principal == DidFor(a) then init + [r] else init
  }

  lemma {:induction false} MineMeans(ledger: seq<Receipt>, a: AgentId, r: Receipt)
    ensures multiset(Mine(ledger, a))[r] == if r.principal == DidFor(a) then multiset(ledger)[r] else 0
  {
    if ledger != [] {
      MineMeans(ledger[..|ledger| - 1], a, r);
      assert ledger == ledger[..|ledger| - 1] + [ledger[|ledger| - 1]];
    }
  }

  function OwnReceipt(a: AgentId): Receipt -> bool { (r: Receipt) => r.principal == DidFor(a) }

  lemma {:induction false} MineCounted(ledger: seq<Receipt>, a: AgentId)
    ensures |Mine(ledger, a)| == Ensemble.Count(ledger, OwnReceipt(a))
  {
    if ledger != [] {
      MineCounted(ledger[..|ledger| - 1], a);
    }
  }

  lemma MineNumbers(ledger: seq<Receipt>, a: AgentId)
    ensures |Mine(ledger, a)| == |set i: nat | i < |ledger| && ledger[i].principal == DidFor(a)|
  {
    MineCounted(ledger, a);
    Ensemble.CountIsSize(ledger, OwnReceipt(a));
    assert Ensemble.Places(ledger, OwnReceipt(a)) == set i: nat | i < |ledger| && ledger[i].principal == DidFor(a);
  }

  function Sum(xs: seq<real>): real {
    if xs == [] then 0.0 else Sum(xs[..|xs| - 1]) + xs[|xs| - 1]
  }

  function ScoreOf(lib: Library, s: Store, a: AgentId): Reputation {
    var mine, fallback := Mine(s.ledger, a), ScoresOf(s.fallback, a);
    if mine != [] then
      var kept := Mine(lib.effective(s.ledger), a);
      Reputation(a, Normalize(lib, lib.rawScore(kept)), lib.rate(kept), |mine|)
    else ByHeuristic(a, fallback)
  }

  /** The reputation of an agent without receipts. */
  function ByHeuristic(a: AgentId, fallback: seq<real>): Reputation {
    if fallback == [] then Reputation(a, 0.5, 0.0, 0) else
      var share := |fallback| as real / 100.0;
      Reputation(a, Sum(fallback) / |fallback| as real, if share < 1.0 then share else 1.0, |fallback|)
  }

  class AgentReceiptsTrust {
    const lib: Library
    var ledger: seq<Receipt>
    var fallback: map<AgentId, seq<real>>

    function View(): Store
      reads this
    {
      Store(ledger, fallback)
    }

    constructor (lib: Library)
      ensures this.lib == lib && View() == EMPTY
    {
      this.lib, ledger, fallback := lib, [], map[];
    }

    method Report(agent: AgentId, evidence: Evidence)
      modifies this
      ensures View() == Filed(old(View()), Filing(agent, evidence))
      ensures evidence.detail.JsonDict? && evidence.detail.receipt.genuine ==>
        ledger == old(ledger) + [evidence.detail.receipt] && fallback == old(fallback)
      ensures !(evidence.detail.JsonDict? && evidence.detail.receipt.genuine) ==>
        && ledger == old(ledger) && agent in fallback
        && (forall a :: a != agent ==> ScoresOf(fallback, a) == ScoresOf(old(fallback), a))
        && fallback[agent] == ScoresOf(old(fallback), agent) +
             [if evidence.kind == Positive then 1.0
              else if evidence.kind == Negative || evidence.kind == Byzantine then 0.0 else 0.5]
    {
      if evidence.detail.JsonDict? {
        var receipt := evidence.detail.receipt;
        if receipt.genuine {
          ledger := ledger + [receipt];
          return;
        }
      }
      RecordFallback(agent, evidence);
    }

    method RecordFallback(agent: AgentId, evidence: Evidence)
      modifies this`fallback
      ensures fallback == old(fallback)[agent := ScoresOf(old(fallback), agent) + [Heuristic(evidence.kind)]]
    {
      var value := 0.5;
      if evidence.kind == Positive {
        value := 1.0;
      } else if evidence.kind == Negative || evidence.kind == Byzantine {
        value := 0.0;
      }
      if agent !in fallback {
        fallback := fallback[agent := []];
      }
      fallback := fallback[agent := fallback[agent] + [value]];
    }

    function Score(agent: AgentId): (rep: Reputation)
      reads this
      ensures rep.agent == agent
      ensures rep.sampleCount ==
        if Mine(ledger, agent) != [] then |set i: nat | i < |ledger| && ledger[i].principal == DidFor(agent)|
        else |ScoresOf(fallback, agent)|
      ensures Mine(ledger, agent) != [] ==>
        var kept := Mine(lib.effective(ledger), agent);
        var raw := lib.rawScore(kept);
        && rep.score == (if raw <= 0.0 then 0.0 else 1.0 - lib.expMinus(raw / 10.0))
        && rep.confidence == lib.rate(kept)
      ensures Mine(ledger, agent) == [] ==>
        && rep.score * rep.sampleCount as real ==
             (if rep.sampleCount == 0 then 0.0 else Sum(ScoresOf(fallback, agent)))
        && (rep.sampleCount == 0 ==> rep.score == 0.5)
        && rep.confidence * 100.0 == (if rep.sampleCount < 100 then rep.sampleCount as real else 100.0)
    {
      MineNumbers(ledger, agent);
      ScoreOf(lib, View(), agent)
    }
  }

  // ---- whole runs of reports ----

  function After(reports: seq<Filing>): Store {
    if reports == [] then EMPTY else Filed(After(reports[..|reports| - 1]), reports[|reports| - 1])
  }

  // ---- every report is kept exactly once ----

  ghost function Total(m: map<AgentId, seq<real>>): nat {
    if m.Keys == {} then 0 else
      var a :| a in m.Keys;
      |m[a]| + Total(m - {a})
  }

  lemma {:induction false} TotalAnyFirst(m: map<AgentId, seq<real>>, a: AgentId)
    requires a in m
    ensures Total(m) == |m[a]| + Total(m - {a})
    decreases |m|
  {
    var b :| b in m.Keys && Total(m) == |m[b]| + Total(m - {b});
    if b != a {
      TotalAnyFirst(m - {b}, a);
      TotalAnyFirst(m - {a}, b);
      assert m - {b} - {a} == m - {a} - {b};
    }
  }

  lemma TotalUpdate(m: map<AgentId, seq<real>>, a: AgentId, xs: seq<real>)
    ensures Total(m[a := xs]) == Total(m) - |ScoresOf(m, a)| + |xs|
  {
    TotalAnyFirst(m[a := xs], a);
    assert m[a := xs] - {a} == m - {a};
    if a in m {
      TotalAnyFirst(m, a);
    } else {
      assert m - {a} == m;
    }
  }

  /** Each report lands in exactly one store, and the ledger holds only verifying receipts. */
  lemma {:induction false} NothingLost(reports: seq<Filing>)
    ensures |After(reports).ledger| + Total(After(reports).fallback) == |reports|
    ensures forall i :: 0 <= i < |After(reports).ledger| ==> After(reports).ledger[i].genuine
  {
    if reports != [] {
      var before, r := After(reports[..|reports| - 1]), reports[|reports| - 1];
      NothingLost(reports[..|reports| - 1]);
      if !Credits(r.evidence) {
        TotalUpdate(before.fallback, r.agent, ScoresOf(before.fallback, r.agent) + [Heuristic(r.evidence.kind)]);
      }
    }
  }

  // ---- ranges ----

  ghost predicate UnitInterval(xs: seq<real>) {
    forall i :: 0 <= i < |xs| ==> 0.0 <= xs[i] <= 1.0
  }

  lemma {:induction false} ScoresInRange(reports: seq<Filing>, a: AgentId)
    ensures UnitInterval(ScoresOf(After(reports).fallback, a))
  {
    if reports != [] {
      ScoresInRange(reports[..|reports| - 1], a);
    }
  }

  lemma {:induction false} SumInRange(xs: seq<real>)
    requires UnitInterval(xs)
    ensures 0.0 <= Sum(xs) <= |xs| as real
  {
    if xs != [] {
      SumInRange(xs[..|xs| - 1]);
    }
  }

  /** Score and confidence stay in the unit interval in every reachable state. */
  lemma ReputationInRange(lib: Library, reports: seq<Filing>, a: AgentId)
    requires Lawful(lib)
    ensures var rep := ScoreOf(lib, After(reports), a);
      0.0 <= rep.score <= 1.0 && 0.0 <= rep.confidence <= 1.0
  {
    var xs := ScoresOf(After(reports).fallback, a);
    ScoresInRange(reports, a);
    SumInRange(xs);
    if xs != [] {
      MeanInRange(Sum(xs), |xs| as real);
    }
    var raw := lib.rawScore(Mine(lib.effective(After(reports).ledger), a));
    if raw > 0.0 {
      assert 0.0 <= lib.expMinus(raw / 10.0) <= 1.0;
    }
  }

  lemma MeanInRange(sum: real, n: real)
    requires 0.0 <= sum <= n && 0.0 < n
    ensures 0.0 <= sum / n <= 1.0
  {
  }

  /** A higher raw score never ranks lower, and no score at all stays 0. */
  lemma NormalizeMonotone(lib: Library, x: real, y: real)
    requires Lawful(lib) && x <= y
    ensures Normalize(lib, x) <= Normalize(lib, y)
    ensures x <= 0.0 ==> Normalize(lib, x) == 0.0
  {
    if x > 0.0 {
      assert x / 10.0 <= y / 10.0;
      assert lib.expMinus(y / 10.0) <= lib.expMinus(x / 10.0);
    } else if y > 0.0 {
      assert lib.expMinus(y / 10.0) <= 1.0;
    }
  }

  /** The ledger holds a verifying receipt once for each report that carried it, whatever kind the
      report was of. */
  lemma LedgerOfReports(reports: seq<Filing>, r: Receipt)
    ensures multiset(After(reports).ledger)[r] ==
      |set i: nat | i < |reports| && reports[i].evidence.detail == JsonDict(r) && r.genuine|
  {
    CarriersCounted(reports, r);
    Ensemble.CountIsSize(reports, Carrying(r));
    assert Ensemble.Places(reports, Carrying(r)) ==
      set i: nat | i < |reports| && reports[i].evidence.detail == JsonDict(r) && r.genuine;
  }

  function Carrying(r: Receipt): Filing -> bool {
    (f: Filing) => f.evidence.detail == JsonDict(r) && r.genuine
  }

  lemma {:induction false} CarriersCounted(reports: seq<Filing>, r: Receipt)
    ensures multiset(After(reports).ledger)[r] == Ensemble.Count(reports, Carrying(r))
  {
    if reports != [] {
      CarriersCounted(reports[..|reports| - 1], r);
    }
  }

  // ---- the order of reports does not matter ----

  /** What a sequence of reports adds for one agent: heuristic scores and ledger receipts. */
  ghost function ScoresAdded(reports: seq<Filing>, a: AgentId): seq<real> {
    if reports == [] then [] else
      var init, r := ScoresAdded(reports[..|reports| - 1], a), reports[|reports| - 1];
      if !Credits(r.evidence) && r.agent == a then init + [Heuristic(r.evidence.kind)] else init
  }

  ghost function ReceiptsAdded(reports: seq<Filing>): seq<Receipt> {
    if reports == [] then [] else
      var init, r := ReceiptsAdded(reports[..|reports| - 1]), reports[|reports| - 1];
      if Credits(r.evidence) then init + [r.evidence.detail.receipt] else init
  }

  /** Each report is kept in exactly one place, as filed: the ledger holds the verifying receipts,
      an agent's list the scores of the other reports about it, in order. */
  lemma {:induction false} StoreOfReports(reports: seq<Filing>, a: AgentId)
    ensures After(reports).ledger == ReceiptsAdded(reports)
    ensures ScoresOf(After(reports).fallback, a) == ScoresAdded(reports, a)
  {
    if reports != [] {
      StoreOfReports(reports[..|reports| - 1], a);
    }
  }

  lemma {:induction false} SumConcat(x: seq<real>, y: seq<real>)
    ensures Sum(x + y) == Sum(x) + Sum(y)
  {
    if y == [] {
      assert x + y == x;
    } else {
      SumConcat(x, y[..|y| - 1]);
      assert (x + y)[..|x + y| - 1] == x + y[..|y| - 1];
    }
  }

  lemma {:induction false} MineConcat(x: seq<Receipt>, y: seq<Receipt>, a: AgentId)
    ensures Mine(x + y, a) == Mine(x, a) + Mine(y, a)
  {
    if y == [] {
      assert x + y == x;
    } else {
      MineConcat(x, y[..|y| - 1], a);
      assert (x + y)[..|x + y| - 1] == x + y[..|y| - 1];
    }
  }

  lemma {:induction false} AddedConcat(x: seq<Filing>, y: seq<Filing>, a: AgentId)
    ensures ScoresAdded(x + y, a) == ScoresAdded(x, a) + ScoresAdded(y, a)
    ensures ReceiptsAdded(x + y) == ReceiptsAdded(x) + ReceiptsAdded(y)
  {
    if y == [] {
      assert x + y == x;
    } else {
      AddedConcat(x, y[..|y| - 1], a);
      AddedOneMore(x, y, a);
    }
  }

  lemma AddedOneMore(x: seq<Filing>, y: seq<Filing>, a: AgentId)
    requires y != []
    ensures var init, r := y[..|y| - 1], y[|y| - 1];
      var scores := if !Credits(r.evidence) && r.agent == a then [Heuristic(r.evidence.kind)] else [];
      var receipts := if Credits(r.evidence) then [r.evidence.detail.receipt] else [];
      && ScoresAdded(x + y, a) == ScoresAdded(x + init, a) + scores
      && ScoresAdded(y, a) == ScoresAdded(init, a) + scores
      && ReceiptsAdded(x + y) == ReceiptsAdded(x + init) + receipts
      && ReceiptsAdded(y) == ReceiptsAdded(init) + receipts
  {
    assert (x + y)[..|x + y| - 1] == x + y[..|y| - 1];
  }

  /** Taking one report out of a sequence takes out exactly what it added. */
  lemma TakeOut(reports: seq<Filing>, j: nat, a: AgentId)
    requires j < |reports|
    ensures var rest, one := reports[..j] + reports[j + 1..], [reports[j]];
      && |ScoresAdded(reports, a)| == |ScoresAdded(rest, a)| + |ScoresAdded(one, a)|
      && Sum(ScoresAdded(reports, a)) == Sum(ScoresAdded(rest, a)) + Sum(ScoresAdded(one, a))
      && multiset(ReceiptsAdded(reports)) == multiset(ReceiptsAdded(rest)) + multiset(ReceiptsAdded(one))
      && |Mine(ReceiptsAdded(reports), a)| == |Mine(ReceiptsAdded(rest), a)| + |Mine(ReceiptsAdded(one), a)|
  {
    var x, one, y := reports[..j], [reports[j]], reports[j + 1..];
    assert reports == x + one + y;
    AddedConcat(x + one, y, a);
    AddedConcat(x, one, a);
    AddedConcat(x, y, a);
    SumConcat(ScoresAdded(x, a) + ScoresAdded(one, a), ScoresAdded(y, a));
    SumConcat(ScoresAdded(x, a), ScoresAdded(one, a));
    SumConcat(ScoresAdded(x, a), ScoresAdded(y, a));
    MineConcat(ReceiptsAdded(x) + ReceiptsAdded(one), ReceiptsAdded(y), a);
    MineConcat(ReceiptsAdded(x), ReceiptsAdded(one), a);
    MineConcat(ReceiptsAdded(x), ReceiptsAdded(y), a);
  }

  lemma {:induction false} SameReportsSameAdditions(x: seq<Filing>, y: seq<Filing>, a: AgentId)
    requires multiset(x) == multiset(y)
    ensures |ScoresAdded(x, a)| == |ScoresAdded(y, a)|
    ensures Sum(ScoresAdded(x, a)) == Sum(ScoresAdded(y, a))
    ensures multiset(ReceiptsAdded(x)) == multiset(ReceiptsAdded(y))
    ensures |Mine(ReceiptsAdded(x), a)| == |Mine(ReceiptsAdded(y), a)|
    decreases |x|
  {
    if x == [] {
      assert multiset(y) == multiset{};
      assert y == [];
    } else {
      var j := |x| - 1;
      assert x[j] in multiset(y);
      var i :| 0 <= i < |y| && y[i] == x[j];
      var restX, restY := x[..j] + x[j + 1..], y[..i] + y[i + 1..];
      WithoutOne(x, j);
      WithoutOne(y, i);
      SameReportsSameAdditions(restX, restY, a);
      TakeOut(x, j, a);
      TakeOut(y, i, a);
    }
  }

  lemma WithoutOne(x: seq<Filing>, j: nat)
    requires j < |x|
    ensures multiset(x[..j] + x[j + 1..]) == multiset(x) - multiset{x[j]}
  {
    assert x == x[..j] + [x[j]] + x[j + 1..];
  }

  /** However the same reports are ordered, every agent ends with the same sample count, the
      ledger holds the same receipts, and an agent without receipts has the same reputation. */
  lemma OrderIrrelevant(lib: Library, x: seq<Filing>, y: seq<Filing>, a: AgentId)
    requires multiset(x) == multiset(y)
    ensures multiset(After(x).ledger) == multiset(After(y).ledger)
    ensures ScoreOf(lib, After(x), a).sampleCount == ScoreOf(lib, After(y), a).sampleCount
    ensures Mine(After(x).ledger, a) == [] ==> ScoreOf(lib, After(x), a) == ScoreOf(lib, After(y), a)
  {
    SameReportsSameAdditions(x, y, a);
    StoreOfReports(x, a);
    StoreOfReports(y, a);
  }

  // ---- what a report does to a score ----

  lemma GoodNews(a: AgentId, xs: seq<real>)
    requires UnitInterval(xs)
    ensures ByHeuristic(a, xs).score <= ByHeuristic(a, xs + [1.0]).score
  {
    SumInRange(xs);
    SumOneMore(xs, 1.0);
    if xs != [] {
      MeanMoves(Sum(xs), |xs| as real);
    }
  }

  lemma BadNews(a: AgentId, xs: seq<real>)
    requires UnitInterval(xs)
    ensures ByHeuristic(a, xs + [0.0]).score <= ByHeuristic(a, xs).score
  {
    SumInRange(xs);
    SumOneMore(xs, 0.0);
    if xs != [] {
      MeanMoves(Sum(xs), |xs| as real);
    }
  }

  lemma AnyNews(a: AgentId, xs: seq<real>, v: real)
    ensures ByHeuristic(a, xs).confidence <= ByHeuristic(a, xs + [v]).confidence
    ensures ByHeuristic(a, xs + [v]).sampleCount == ByHeuristic(a, xs).sampleCount + 1
  {
  }

  /** For an agent scored by the heuristic, good news never lowers the score, bad news never
      raises it, and neither lowers the confidence. */
  lemma NewsMovesScore(lib: Library, reports: seq<Filing>, a: AgentId, e: Evidence)
    requires Mine(After(reports).ledger, a) == [] && !Credits(e)
    ensures var before, after := ScoreOf(lib, After(reports), a), ScoreOf(lib, Filed(After(reports), Filing(a, e)), a);
      && (e.kind == Positive ==> before.score <= after.score)
      && (e.kind == Negative || e.kind == Byzantine ==> after.score <= before.score)
      && before.confidence <= after.confidence
      && after.sampleCount == before.sampleCount + 1
  {
    var xs := ScoresOf(After(reports).fallback, a);
    ScoresInRange(reports, a);
    GoodNews(a, xs);
    BadNews(a, xs);
    AnyNews(a, xs, Heuristic(e.kind));
  }

  /** The heuristic is fully confident exactly from one hundred reports on. */
  lemma ConfidenceNeedsHundred(lib: Library, reports: seq<Filing>, a: AgentId)
    requires Mine(After(reports).ledger, a) == []
    ensures var rep := ScoreOf(lib, After(reports), a);
      && (rep.confidence == 1.0 <==> |ScoresAdded(reports, a)| >= 100)
      && (|ScoresAdded(reports, a)| <= 100 ==> 100.0 * rep.confidence == |ScoresAdded(reports, a)| as real)
  {
    StoreOfReports(reports, a);
  }

  /** How many heuristic reports about an agent are of certain kinds. */
  function ReportsAbout(reports: seq<Filing>, a: AgentId, p: Kind -> bool): nat {
    if reports == [] then 0 else
      var before, r := ReportsAbout(reports[..|reports| - 1], a, p), reports[|reports| - 1];
      if !Credits(r.evidence) && r.agent == a && p(r.evidence.kind) then before + 1 else before
  }

  /** Positive reports about an agent, neutral ones counting half. */
  function Merit(reports: seq<Filing>, a: AgentId): real {
    ReportsAbout(reports, a, k => k == Positive) as real +
      ReportsAbout(reports, a, (k: Kind) => k.OtherKind?) as real / 2.0
  }

  /** An agent's heuristic scores number the reports about it and sum to its merit. */
  lemma {:induction false} SumIsTally(reports: seq<Filing>, a: AgentId)
    ensures |ScoresAdded(reports, a)| == ReportsAbout(reports, a, _ => true)
    ensures Sum(ScoresAdded(reports, a)) == Merit(reports, a)
  {
    if reports != [] {
      var init := reports[..|reports| - 1];
      SumIsTally(init, a);
      SumOneMore(ScoresAdded(init, a), Heuristic(reports[|reports| - 1].evidence.kind));
    }
  }

  lemma SumOneMore(xs: seq<real>, x: real)
    ensures Sum(xs + [x]) == Sum(xs) + x
  {
    assert (xs + [x])[..|xs|] == xs;
  }

  lemma Quotient(x: real, n: real)
    requires n > 0.0
    ensures x / n * n == x
  {
  }

  /** An agent without receipts scores the mean of its heuristic scores; with none at all it has
      the neutral prior. */
  lemma ScoreIsMean(lib: Library, s: Store, a: AgentId, xs: seq<real>)
    requires Mine(s.ledger, a) == [] && ScoresOf(s.fallback, a) == xs
    ensures var rep := ScoreOf(lib, s, a);
      && rep.sampleCount == |xs|
      && (xs == [] ==> rep == Reputation(a, 0.5, 0.0, 0))
      && (xs != [] ==> rep.score * |xs| as real == Sum(xs))
  {
    if xs != [] {
      Quotient(Sum(xs), |xs| as real);
    }
  }

  lemma MeanMoves(sum: real, n: real)
    requires 0.0 <= sum <= n && 0.0 < n
    ensures sum / n <= (sum + 1.0) / (n + 1.0)
    ensures sum / (n + 1.0) <= sum / n
  {
    var q := sum / n;
    assert q * n == sum;
    assert q <= 1.0;
    assert q * (n + 1.0) <= sum + 1.0;
    assert sum <= q * (n + 1.0);
  }
}
