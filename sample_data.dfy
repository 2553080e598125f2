/**
 * The repository's sample market (`load_initial_data`): two materials and three regions. The
 * lemmas here evaluate the model on it with no disruptions and a zero forecast: the landed
 * costs, the synergy of a single-region plan, the metric of every plan of the action space, and
 * the decision `decide_action` makes, before and after its own write-back.
 */
module SampleData {
  import opened Wrappers
  import opened CostModel
  import opened Simulation
  import opened ActionSearch

  const Materials: seq<Material> := ["Steel", "Electronics"]
  const Regions: seq<Region> := ["USA", "China", "Mexico"]

  const Usa := RegionInfo(1.0, map["Steel" := 500.0, "Electronics" := 250.0],
                          map["Steel" := 50.0, "Electronics" := 20.0],
                          map["Steel" := 0.0, "Electronics" := 0.0], 0.99)
  const China := RegionInfo(0.14, map["Steel" := 3000.0, "Electronics" := 1400.0],
                            map["Steel" := 100.0, "Electronics" := 60.0],
                            map["Steel" := 0.05, "Electronics" := 0.05], 0.95)
  const Mexico := RegionInfo(0.05, map["Steel" := 12000.0, "Electronics" := 5000.0],
                             map["Steel" := 70.0, "Electronics" := 50.0],
                             map["Steel" := 0.0, "Electronics" := 0.0], 0.97)

  const RegionTable: map<Region, RegionInfo> := map["USA" := Usa, "China" := China, "Mexico" := Mexico]

  const Data := InitialData(Materials, Regions, RegionTable)

  /** The USD prices the constructor computes: base price × FX */
  const Prices: Table := map[
    "USA" := map["Steel" := 500.0, "Electronics" := 250.0],
    "China" := map["Steel" := 420.0, "Electronics" := 196.0],
    "Mexico" := map["Steel" := 600.0, "Electronics" := 250.0]]

  /** The market before any period has been simulated */
  const Sample := Market(Materials, Regions, RegionTable, Prices)

  /** The forecast `decide_action` uses without a forecaster */
  const Zero := ConstantTable(Regions, Materials, 0.0)

  /** The plan buying steel from `s` and electronics from `e` */
  function Plan(s: Region, e: Region): (a: Action)
    ensures |a| == 2 && a[0].material == "Steel" && a[1].material == "Electronics"
  {
    [Assignment("Steel", s), Assignment("Electronics", e)]
  }

  lemma SampleLists()
    ensures Distinct(Materials) && Distinct(Regions)
    ensures Elems(Materials) == {"Steel", "Electronics"}
    ensures Elems(Regions) == {"USA", "China", "Mexico"}
  {
    assert Regions[0] != Regions[1] && Regions[1] != Regions[2] && Regions[0] != Regions[2];
    assert Materials[0] != Materials[1];
  }

  /** The sample data can be loaded */
  lemma SampleWellFormed()
    ensures WellFormedData(Data)
  {
    SampleLists();
    assert RegionTable.Keys == {"USA", "China", "Mexico"};
    forall r, j | r in RegionTable && 0 <= j < 2 ensures Materials[j] in RegionTable[r].basePrice {
      assert r == "USA" || r == "China" || r == "Mexico";
    }
  }

  /** Every sample material can be priced from every sample region */
  lemma SampleComplete()
    ensures Complete(Sample)
  {
    SampleLists();
    forall r, m | r in Regions && m in Materials ensures Priced(Sample, r, m) {
      assert r in {"USA", "China", "Mexico"} && m in {"Steel", "Electronics"};
    }
  }

  /** The market the sample data gives can be searched, under the zero forecast */
  lemma SampleReady()
    ensures Ready(Sample) && Covers(Zero, Sample)
  {
    SampleLists();
    SampleComplete();
  }

  /** The listed regions, one by one */
  lemma RegionCases(r: Region)
    requires r in Regions
    ensures r == "USA" || r == "China" || r == "Mexico"
  {
  }

  /** The listed materials, one by one */
  lemma MaterialCases(m: Material)
    requires m in Materials
    ensures m == "Steel" || m == "Electronics"
  {
  }

  /** The sample price table has one entry per sample region and material */
  lemma {:induction false} SamplePricesShaped()
    ensures Shaped(Prices, Regions, Materials)
  {
    SampleLists();
    assert Prices.Keys == {"USA", "China", "Mexico"};
    forall r | r in Prices ensures KeysAre(Prices[r], Materials) {
      assert Prices[r].Keys == {"Steel", "Electronics"};
    }
  }

  /** Each sample price is the base price times the FX rate */
  lemma {:induction false} SamplePriceAt(i: nat, j: nat)
    requires i < 3 && j < 2
    ensures Regions[i] in Prices && Materials[j] in Prices[Regions[i]]
    ensures Materials[j] in RegionTable[Regions[i]].basePrice
    ensures Prices[Regions[i]][Materials[j]]
         == ToUsd(RegionTable[Regions[i]].basePrice[Materials[j]], RegionTable[Regions[i]].fx)
  {
    if i == 0 {
    } else if i == 1 {
    } else {
    }
  }

  /** The sample prices are the tables the constructor builds from the sample data */
  lemma {:induction false} SamplePricesInitial()
    ensures PricesListed(Data)
    ensures TablesShaped(Materials, Regions, RegionTable, Prices,
                         ConstantTable(Regions, Materials, DefaultVolatility), ConstantTable(Regions, Materials, DefaultTrend))
    ensures InitialTables(Data, Prices, ConstantTable(Regions, Materials, DefaultVolatility),
                          ConstantTable(Regions, Materials, DefaultTrend))
  {
    SampleWellFormed();
    SampleLists();
    SamplePricesShaped();
    var vol, drift := ConstantTable(Regions, Materials, DefaultVolatility), ConstantTable(Regions, Materials, DefaultTrend);
    forall i, j | 0 <= i < |Data.regions| && 0 <= j < |Data.materials|
      ensures var r, m := Data.regions[i], Data.materials[j];
        && Prices[r][m] == ToUsd(Data.regionData[r].basePrice[m], Data.regionData[r].fx)
        && vol[r][m] == DefaultVolatility
        && drift[r][m] == DefaultTrend {
      SamplePriceAt(i, j);
    }
  }

  /** The constructor, given the sample data, starts from the sample prices with the default
      volatility and trend */
  lemma {:induction false} SampleStart(prices: Table, vol: Table, drift: Table)
    requires PricesListed(Data) && TablesShaped(Materials, Regions, RegionTable, prices, vol, drift)
    requires InitialTables(Data, prices, vol, drift)
    ensures prices == Prices
    ensures vol == ConstantTable(Regions, Materials, DefaultVolatility)
    ensures drift == ConstantTable(Regions, Materials, DefaultTrend)
  {
    SamplePricesInitial();
    InitialTablesUnique(Data, prices, vol, drift, Prices,
                        ConstantTable(Regions, Materials, DefaultVolatility), ConstantTable(Regions, Materials, DefaultTrend));
  }

  /** The landed cost of material `m` bought from region `r` at the sample prices */
  function Landed(r: Region, m: Material): real
    requires r in Regions && m in Materials
  {
    RegionCases(r);
    MaterialCases(m);
    var p := Prices[r][m];
    p + TariffCost(p, RegionTable[r].tariff[m]) + RegionTable[r].shippingCost[m]
  }

  /** Each of the six landed costs */
  lemma SampleLandedCosts()
    ensures Landed("USA", "Steel") == 550.0 && Landed("USA", "Electronics") == 270.0
    ensures Landed("China", "Steel") == 541.0 && Landed("China", "Electronics") == 265.8
    ensures Landed("Mexico", "Steel") == 670.0 && Landed("Mexico", "Electronics") == 300.0
  {
  }

  /** The synergy discount of a two-item plan: 20 when both items come from one region */
  lemma {:induction false} PlanSynergy(s: Region, e: Region)
    ensures Synergy(Plan(s, e)) == if s == e then 20.0 else 0.0
  {
    var a := Plan(s, e);
    SynergyClosedForm(a);
    assert a[..1] == [a[0]] && a[..1][..0] == [];
    assert RegionsUsed(a[..1]) == {s};
    assert RegionsUsed(a) == {s, e};
    if s != e {
      assert |{s, e}| == 2;
    }
  }

  /** Without disruptions, the breakdown line of an item is priced at its landed cost */
  lemma {:induction false} SampleLine(r: Region, m: Material)
    requires r in Regions && m in Materials
    ensures LineFor(Sample, {}, Assignment(m, r)).Ok?
    ensures LineFor(Sample, {}, Assignment(m, r)).value.totalCost == Landed(r, m)
  {
    SampleComplete();
  }

  /** Both items of a plan are priced, each at its landed cost */
  lemma {:induction false} PlanLines(s: Region, e: Region)
    requires s in Regions && e in Regions
    ensures Lines(Sample, {}, Plan(s, e)).Ok?
    ensures SumCosts(Lines(Sample, {}, Plan(s, e)).value) == Landed(s, "Steel") + Landed(e, "Electronics")
  {
    var a := Plan(s, e);
    SampleLine(s, "Steel");
    SampleLine(e, "Electronics");
    LinesMeaning(Sample, {}, a);
    SumOfTwo(Lines(Sample, {}, a).value);
  }

  lemma {:induction false} SumOfTwo(ls: seq<CostLine>)
    requires |ls| == 2
    ensures SumCosts(ls) == ls[0].totalCost + ls[1].totalCost
  {
    assert ls[..|ls| - 1] == [ls[0]] && [ls[0]][..0] == [];
    assert SumCosts([ls[0]]) == ls[0].totalCost;
  }

  /** Without disruptions a plan costs its two landed costs, less the synergy discount */
  lemma {:induction false} PlanCost(s: Region, e: Region)
    requires s in Regions && e in Regions
    ensures forall i | 0 <= i < 2 :: Priced(Sample, Plan(s, e)[i].region, Plan(s, e)[i].material)
    ensures Cost(Sample, Plan(s, e)) == Landed(s, "Steel") + Landed(e, "Electronics") - (if s == e then 20.0 else 0.0)
  {
    SampleComplete();
    PlanLines(s, e);
    PlanSynergy(s, e);
  }

  /** Entry `3i + j` of the sample action space buys steel from region `i` and electronics from
      region `j` */
  lemma {:induction false} SamplePlanAt(i: nat, j: nat)
    requires i < 3 && j < 3
    ensures |Plans(Regions, Materials)| == 9
    ensures Plans(Regions, Materials)[3 * i + j] == Plan(Regions[i], Regions[j])
  {
    PlansCount(Regions, Materials);
    assert Pow(3, 1) == 3 && Pow(3, 0) == 1;
    var rest := Materials[1..];
    assert rest == ["Electronics"] && rest[1..] == [];
    PlansAt(Regions, Materials, i, j);
    PlansAt(Regions, rest, j, 0);
    PlansEntry(Regions, [], 0);
    assert Plans(Regions, [])[0] == [];
  }

  /** The sample action space, in `itertools.product` order */
  lemma {:induction false} SamplePlans()
    ensures Plans(Regions, Materials) == [
      Plan("USA", "USA"), Plan("USA", "China"), Plan("USA", "Mexico"),
      Plan("China", "USA"), Plan("China", "China"), Plan("China", "Mexico"),
      Plan("Mexico", "USA"), Plan("Mexico", "China"), Plan("Mexico", "Mexico")]
  {
    forall i, j | 0 <= i < 3 && 0 <= j < 3 ensures Plans(Regions, Materials)[3 * i + j] == Plan(Regions[i], Regions[j]) {
      SamplePlanAt(i, j);
    }
    SamplePlanAt(0, 0);
  }

  /** Every plan can be scored, and under the zero forecast its metric is its cost */
  lemma {:induction false} PlanMetric(s: Region, e: Region)
    requires s in Regions && e in Regions
    ensures IsPlan(Regions, Materials, Plan(s, e)) && Scorable(Sample, Zero, Plan(s, e))
    ensures Metric(Sample, Zero, Plan(s, e)) == Landed(s, "Steel") + Landed(e, "Electronics") - (if s == e then 20.0 else 0.0)
  {
    SampleReady();
    var a := Plan(s, e);
    assert IsPlan(Regions, Materials, a);
    PlanCost(s, e);
    PlanCovered(Zero, Sample, a);
    FutureCostZero(Zero, a);
  }

  /** The metric of one plan, as a number */
  lemma {:induction false} MetricIs(s: Region, e: Region, v: real)
    requires s in Regions && e in Regions
    requires v == Landed(s, "Steel") + Landed(e, "Electronics") - (if s == e then 20.0 else 0.0)
    ensures Scorable(Sample, Zero, Plan(s, e)) && Metric(Sample, Zero, Plan(s, e)) == v
  {
    PlanMetric(s, e);
  }

  /** The metrics of the sample action space under the zero forecast, in its order */
  const SampleScores: seq<real> := [800.0, 815.8, 850.0, 811.0, 786.8, 841.0, 940.0, 935.8, 950.0]

  /** The metric of the plan buying steel from region `i` and electronics from region `j` */
  lemma {:induction false} PlanScore(i: nat, j: nat)
    requires i < 3 && j < 3
    ensures Scorable(Sample, Zero, Plan(Regions[i], Regions[j]))
    ensures Metric(Sample, Zero, Plan(Regions[i], Regions[j])) == SampleScores[3 * i + j]
  {
    SampleLandedCosts();
    MetricIs(Regions[i], Regions[j], SampleScores[3 * i + j]);
  }

  /** The metric of entry `k` of the sample action space */
  lemma {:induction false} SampleMetricAt(acts: seq<Action>, k: nat)
    requires acts == Plans(Regions, Materials) && k < 9
    ensures |acts| == 9 && Scorable(Sample, Zero, acts[k]) && Metric(Sample, Zero, acts[k]) == SampleScores[k]
  {
    var i, j := k / 3, k % 3;
    assert k == 3 * i + j;
    SamplePlanAt(i, j);
    PlanScore(i, j);
  }

  /** Each entry of the sample action space, scored */
  lemma {:induction false} SampleMetricEach(acts: seq<Action>)
    requires acts == Plans(Regions, Materials)
    ensures |acts| == 9
    ensures forall k | 0 <= k < 9 :: Scorable(Sample, Zero, acts[k]) && Metric(Sample, Zero, acts[k]) == SampleScores[k]
  {
    SamplePlanAt(0, 0);
    forall k | 0 <= k < 9 ensures Scorable(Sample, Zero, acts[k]) && Metric(Sample, Zero, acts[k]) == SampleScores[k] {
      SampleMetricAt(acts, k);
    }
  }

  /** Every entry of the sample action space can be scored */
  lemma {:induction false} SampleSpaceScorable(acts: seq<Action>)
    requires acts == Plans(Regions, Materials)
    ensures |acts| == 9 && SpaceScorable(Sample, Zero, acts)
  {
    SampleMetricEach(acts);
  }

  /** The metric of every plan of the sample action space under the zero forecast */
  lemma {:induction false} SampleMetrics(acts: seq<Action>)
    requires acts == Plans(Regions, Materials)
    ensures |acts| == 9 && SpaceScorable(Sample, Zero, acts)
    ensures Metrics(Sample, Zero, acts) == SampleScores
  {
    SampleMetricEach(acts);
  }

  /** 786.8 is the least of the sample scores, and only entry 4 has it */
  lemma ScoresLeast(k: nat)
    requires k < 9 && SampleScores[k] <= SampleScores[4]
    ensures k == 4
  {
  }

  /** Entry 4, steel and electronics both from China, is the unique cheapest entry */
  lemma {:induction false} SampleChoice(acts: seq<Action>)
    requires acts == Plans(Regions, Materials)
    ensures |acts| == 9 && SpaceScorable(Sample, Zero, acts)
    ensures Decide(Sample, Zero, acts).index == 4
  {
    SampleSpaceScorable(acts);
    var d := Decide(Sample, Zero, acts);
    SampleMetricAt(acts, d.index);
    SampleMetricAt(acts, 4);
    ScoresLeast(d.index);
  }

  // The repair on the sample market

  /** The counting dictionary of a plan buying both materials from one region */
  lemma {:induction false} TwinTally(x: Region)
    ensures Tally(Plan(x, x)) == Counter([x], map[x := 2])
  {
    var a := Plan(x, x);
    assert a[..1] == [a[0]] && a[..1][..0] == [];
    assert Tally(a[..1]) == Counter([x], map[x := 1]);
    assert map[x := 1][x := 2] == map[x := 2];
  }

  /** Whether the single region of such a plan is risky: only when its reliability is below 0.98 */
  lemma {:induction false} TwinRisky(x: Region)
    requires x in Regions
    ensures FirstRisky(Sample, [x], map[x := 2]) ==
      if RegionTable[x].reliability < ReliabilityThreshold then Some(x) else None
  {
    assert [x][1..] == [];
  }

  /** Every `Plan(s, e)` over listed regions is a plan of the sample market */
  lemma PlanIsPlan(s: Region, e: Region)
    requires s in Regions && e in Regions
    ensures IsPlan(Regions, Materials, Plan(s, e))
  {
  }

  /** Moving the steel of a plan */
  lemma MovedSteel(s: Region, e: Region, x: Region)
    ensures Moved(Plan(s, e), Move(0, x)) == Plan(x, e)
  {
  }

  /** Moving the electronics of a plan */
  lemma MovedElectronics(s: Region, e: Region, x: Region)
    ensures Moved(Plan(s, e), Move(1, x)) == Plan(s, x)
  {
  }

  /** Without disruptions the all-China plan costs 786.8 */
  lemma {:induction false} ChinaCost()
    ensures forall k | 0 <= k < 2 :: Priced(Sample, Plan("China", "China")[k].region, Plan("China", "China")[k].material)
    ensures Cost(Sample, Plan("China", "China")) == 786.8
  {
    SampleLandedCosts();
    PlanCost("China", "China");
  }

  /** The extra cost of a move, from the costs of the plan before and after it */
  lemma ExtraCostOf(mk: Market, a: Action, m: Move, b: Action)
    requires Ready(mk) && IsPlan(mk.regions, mk.materials, a) && m.index < |a| && m.alt in mk.regions
    requires b == Moved(a, m)
    ensures forall k | 0 <= k < |a| :: Priced(mk, a[k].region, a[k].material)
    ensures forall k | 0 <= k < |b| :: Priced(mk, b[k].region, b[k].material)
    ensures ExtraCost(mk, a, m) == Cost(mk, b) - Cost(mk, a)
  {
    PlanPriced(mk, a);
    MovedPlan(mk.regions, mk.materials, a, m);
    PlanPriced(mk, b);
  }

  /** Buying the steel of the all-China plan elsewhere costs more than 24.2 extra */
  lemma {:induction false} ChinaSteelExtra(alt: Region)
    requires alt in Regions && alt != "China"
    ensures Ready(Sample) && IsPlan(Regions, Materials, Plan("China", "China"))
    ensures ExtraCost(Sample, Plan("China", "China"), Move(0, alt)) > 24.2
  {
    SampleReady();
    SampleLandedCosts();
    ChinaCost();
    var a, b := Plan("China", "China"), Plan(alt, "China");
    PlanIsPlan("China", "China");
    PlanCost(alt, "China");
    MovedSteel("China", "China", alt);
    ExtraCostOf(Sample, a, Move(0, alt), b);
    RegionCases(alt);
  }

  /** Buying the electronics of the all-China plan elsewhere costs 24.2 extra from the USA and
      more from anywhere else */
  lemma {:induction false} ChinaElectronicsExtra(alt: Region)
    requires alt in Regions && alt != "China"
    ensures Ready(Sample) && IsPlan(Regions, Materials, Plan("China", "China"))
    ensures alt == "USA" ==> ExtraCost(Sample, Plan("China", "China"), Move(1, alt)) == 24.2
    ensures alt != "USA" ==> ExtraCost(Sample, Plan("China", "China"), Move(1, alt)) > 24.2
  {
    SampleReady();
    SampleLandedCosts();
    ChinaCost();
    var a, b := Plan("China", "China"), Plan("China", alt);
    PlanIsPlan("China", "China");
    PlanCost("China", alt);
    MovedElectronics("China", "China", alt);
    ExtraCostOf(Sample, a, Move(1, alt), b);
    RegionCases(alt);
  }

  /** Moving one item of the all-China plan costs at least 24.2 more, and exactly that only for
      the electronics moved to the USA */
  lemma {:induction false} ChinaExtra(m: Move)
    requires m.index < 2 && m.alt in Regions && m.alt != "China"
    ensures Ready(Sample) && IsPlan(Regions, Materials, Plan("China", "China"))
    ensures m == Move(1, "USA") ==> ExtraCost(Sample, Plan("China", "China"), m) == 24.2
    ensures m != Move(1, "USA") ==> ExtraCost(Sample, Plan("China", "China"), m) > 24.2
  {
    if m.index == 0 {
      ChinaSteelExtra(m.alt);
    } else {
      ChinaElectronicsExtra(m.alt);
    }
  }

  /** The cheapest move away from China: electronics to the USA */
  lemma {:induction false} ChinaBestMove()
    ensures Ready(Sample) && IsPlan(Regions, Materials, Plan("China", "China"))
    ensures BestMove(Sample, Plan("China", "China"), "China") == Some(Move(1, "USA"))
  {
    SampleReady();
    var a := Plan("China", "China");
    var best := Move(1, "USA");
    ChinaExtra(best);
    assert a[0].region == "China" && a[1].region == "China";
    assert "USA" in Regions;
    var r := BestMove(Sample, a, "China");
    assert r.Some?;
    ChinaExtra(r.value);
  }

  /** The repair, from its counting dictionary, its risky region and its cheapest move */
  lemma RepairMoves(mk: Market, a: Action, t: Counter, region: Region, m: Move)
    requires Ready(mk) && IsPlan(mk.regions, mk.materials, a)
    requires t == Tally(a) && Elems(t.keys) <= t.count.Keys && Elems(t.keys) <= mk.regionData.Keys
    requires FirstRisky(mk, t.keys, t.count) == Some(region)
    requires BestMove(mk, a, region) == Some(m) && a[m.index].material != ""
    ensures Repair(mk, a) == Repaired(Moved(a, m), true, Some(region))
  {
  }

  /** The repair of a plan whose counting dictionary has no risky region */
  lemma RepairKeeps(mk: Market, a: Action, t: Counter)
    requires Ready(mk) && IsPlan(mk.regions, mk.materials, a)
    requires t == Tally(a) && Elems(t.keys) <= t.count.Keys && Elems(t.keys) <= mk.regionData.Keys
    requires FirstRisky(mk, t.keys, t.count) == None
    ensures Repair(mk, a) == Repaired(a, false, None)
  {
  }

  /** The all-China plan is repaired by buying electronics from the USA */
  lemma {:induction false} ChinaRepair()
    ensures Ready(Sample) && IsPlan(Regions, Materials, Plan("China", "China"))
    ensures Repair(Sample, Plan("China", "China")) == Repaired(Plan("China", "USA"), true, Some("China"))
  {
    var a := Plan("China", "China");
    TwinTally("China");
    TwinRisky("China");
    ChinaBestMove();
    MovedElectronics("China", "China", "USA");
    RepairMoves(Sample, a, Tally(a), "China", Move(1, "USA"));
  }

  /** The all-USA plan is left alone: the USA's reliability 0.99 is not below the threshold */
  lemma {:induction false} UsaRepair()
    ensures Ready(Sample) && IsPlan(Regions, Materials, Plan("USA", "USA"))
    ensures Repair(Sample, Plan("USA", "USA")) == Repaired(Plan("USA", "USA"), false, None)
  {
    SampleReady();
    PlanIsPlan("USA", "USA");
    var a := Plan("USA", "USA");
    TwinTally("USA");
    TwinRisky("USA");
    RepairKeeps(Sample, a, Tally(a));
  }


  // The decision on the sample market

  /** The decision, from the index it chooses */
  lemma DecideAt(mk: Market, f: Table, acts: seq<Action>, k: nat)
    requires |acts| > 0 && SpaceScorable(mk, f, acts) && Decide(mk, f, acts).index == k
    ensures k < |acts| && Scorable(mk, f, acts[k])
    ensures var r := Repair(mk, acts[k]);
      Decide(mk, f, acts) == Decision(k, r.action, r.adjusted, r.risky)
  {
  }

  /** `decide_action` on the sample market with no forecaster: entry 4, the all-China plan, is
      chosen and repaired into steel from China and electronics from the USA */
  lemma {:induction false} SampleDecision(acts: seq<Action>)
    requires acts == Plans(Regions, Materials)
    ensures |acts| == 9 && SpaceScorable(Sample, Zero, acts)
    ensures Decide(Sample, Zero, acts) == Decision(4, Plan("China", "USA"), true, Some("China"))
  {
    SampleChoice(acts);
    SamplePlanAt(1, 1);
    ChinaRepair();
    DecideAt(Sample, Zero, acts, 4);
  }

  /** The scores once entry 4 holds entry 3's plan */
  const ScoresAgain: seq<real> := [800.0, 815.8, 850.0, 811.0, 811.0, 841.0, 940.0, 935.8, 950.0]

  /** 800 is then the least score, and only entry 0 has it */
  lemma ScoresAgainLeast(k: nat)
    requires k < 9 && ScoresAgain[k] <= ScoresAgain[0]
    ensures k == 0
  {
  }

  /** The decision's index is the first least score, whatever the scores are given as */
  lemma DecideByScores(mk: Market, f: Table, acts: seq<Action>, xs: seq<real>)
    requires |acts| > 0 && SpaceScorable(mk, f, acts) && |xs| == |acts|
    requires forall j | 0 <= j < |acts| :: Metric(mk, f, acts[j]) == xs[j]
    ensures Decide(mk, f, acts).index == FirstArgMin(xs)
  {
    assert Metrics(mk, f, acts) == xs;
  }

  /** The scores of the sample action space once entry 4 holds entry 3's plan */
  lemma {:induction false} SampleMetricEachAgain(acts: seq<Action>, again: seq<Action>)
    requires acts == Plans(Regions, Materials) && |acts| == 9 && again == acts[4 := acts[3]]
    ensures SpaceScorable(Sample, Zero, again)
    ensures forall j | 0 <= j < 9 :: Metric(Sample, Zero, again[j]) == ScoresAgain[j]
  {
    forall j | 0 <= j < 9 ensures Scorable(Sample, Zero, again[j]) && Metric(Sample, Zero, again[j]) == ScoresAgain[j] {
      var k := if j == 4 then 3 else j;
      assert again[j] == acts[k] && ScoresAgain[j] == SampleScores[k];
      SampleMetricAt(acts, k);
    }
  }

  /** After the write-back the all-USA plan, entry 0, is the unique cheapest entry */
  lemma {:induction false} SampleChoiceAgain(acts: seq<Action>, again: seq<Action>)
    requires acts == Plans(Regions, Materials) && |acts| == 9 && again == acts[4 := acts[3]]
    ensures SpaceScorable(Sample, Zero, again)
    ensures Decide(Sample, Zero, again).index == 0
  {
    SampleMetricEachAgain(acts, again);
    DecideByScores(Sample, Zero, again, ScoresAgain);
    var k := FirstArgMin(ScoresAgain);
    assert ScoresAgain[k] <= ScoresAgain[0];
    ScoresAgainLeast(k);
  }

  /** `decide_action` again on the same market, after the first call wrote its repaired plan
      into entry 4: now the all-USA plan, entry 0, is chosen and left unchanged */
  lemma {:induction false} SampleDecisionAgain(acts: seq<Action>, again: seq<Action>)
    requires acts == Plans(Regions, Materials) && |acts| == 9
    requires again == acts[4 := Plan("China", "USA")]
    ensures SpaceScorable(Sample, Zero, again)
    ensures Decide(Sample, Zero, again) == Decision(0, Plan("USA", "USA"), false, None)
  {
    SamplePlanAt(1, 0);
    assert again == acts[4 := acts[3]];
    SampleChoiceAgain(acts, again);
    SamplePlanAt(0, 0);
    assert again[0] == Plan("USA", "USA");
    UsaRepair();
    DecideAt(Sample, Zero, again, 0);
  }
}
