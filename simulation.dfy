/**
 * The simulation environment `ArbitrageEnv`: it owns the current price table and the period
 * counter, evaluates the landed cost of an action (optionally sampling disruptions), and
 * advances one period with a multiplicative random walk on every price.
 *
 * Every `random.random()` the environment would consume is a parameter: one draw per region for
 * disruption sampling (in region order) and one draw per (region, material) for the price walk.
 */
module Simulation {
  import opened Wrappers
  import opened CostModel

  /** The loaded data: the materials list and the regions dictionary, its keys in order */
  datatype InitialData = InitialData(
    materials: seq<Material>,
    regions: seq<Region>,
    regionData: map<Region, RegionInfo>)

  /** The data the constructor can load: the regions list is the dictionary's key order, materials
      are listed once, and every region has a base price for every material */
  ghost predicate WellFormedData(d: InitialData) {
    && Distinct(d.materials)
    && Distinct(d.regions)
    && PricesListed(d)
  }

  /** Every listed region has data, and a base price for every material */
  ghost predicate PricesListed(d: InitialData) {
    && KeysAre(d.regionData, d.regions)
    && forall r, j | r in d.regionData && 0 <= j < |d.materials| :: d.materials[j] in d.regionData[r].basePrice
  }

  /** What `step` returns: the price table, the reward, the done flag and the info record */
  datatype StepResult = StepResult(
    nextState: Table,
    reward: real,
    done: bool,
    costBreakdown: Breakdown,
    totalCost: real)

  /** A local-currency price in USD at the region's FX rate */
  function ToUsd(local: real, fx: real): real {
    local * fx
  }

  /** A table holding the same value for every (region, material) pair */
  function ConstantTable(regions: seq<Region>, materials: seq<Material>, v: real): (t: Table)
    ensures Shaped(t, regions, materials)
    ensures forall i, j | 0 <= i < |regions| && 0 <= j < |materials| :: t[regions[i]][materials[j]] == v
  {
    map r | r in regions :: map m | m in materials :: v
  }

  /** A row of the initial price table holding the first `j` materials, each at base price × FX */
  ghost predicate InitialRow(row: map<Material, real>, materials: seq<Material>, j: nat, info: RegionInfo)
    requires j <= |materials|
  {
    && (forall l | 0 <= l < j :: materials[l] in row)
    && (forall l | 0 <= l < j && materials[l] in info.basePrice ::
          row[materials[l]] == ToUsd(info.basePrice[materials[l]], info.fx))
    && row.Keys == Elems(materials[..j])
  }

  lemma {:induction false} InitialRowExtend(row: map<Material, real>, materials: seq<Material>, j: nat, info: RegionInfo,
                                           m: Material, usd: real)
    requires j < |materials| && m == materials[j] && m in info.basePrice && usd == ToUsd(info.basePrice[m], info.fx)
    requires InitialRow(row, materials, j, info)
    ensures InitialRow(row[m := usd], materials, j + 1, info)
  {
    assert materials[..j + 1] == materials[..j] + [materials[j]];
    assert Elems(materials[..j + 1]) == Elems(materials[..j]) + {materials[j]};
  }

  /** The first `i` regions have their initial rows */
  ghost predicate InitialRows(data: InitialData, prices: Table, i: nat)
    requires PricesListed(data) && i <= |data.regions|
  {
    forall k | 0 <= k < i ::
      && data.regions[k] in prices
      && InitialRow(prices[data.regions[k]], data.materials, |data.materials|, data.regionData[data.regions[k]])
  }

  /** The inner loop of the constructor: one region's prices, each material's local base price
      converted to USD at the region's FX rate */
  method InitialRowOf(materials: seq<Material>, info: RegionInfo) returns (row: map<Material, real>)
    requires forall j | 0 <= j < |materials| :: materials[j] in info.basePrice
    ensures InitialRow(row, materials, |materials|, info)
  {
    row := map[];
    var j := 0;
    while j < |materials|
      invariant 0 <= j <= |materials|
      invariant InitialRow(row, materials, j, info)
    {
      var material := materials[j];
      var baseLocal := info.basePrice[material];
      InitialRowExtend(row, materials, j, info, material, ToUsd(baseLocal, info.fx));
      row := row[material := ToUsd(baseLocal, info.fx)];
      j := j + 1;
    }
  }

  /** The nested loop of the constructor: every region's row holds each material's local base
      price converted to USD at the region's FX rate */
  method InitialPrices(data: InitialData) returns (prices: Table)
    requires PricesListed(data)
    ensures Shaped(prices, data.regions, data.materials)
    ensures forall i, j | 0 <= i < |data.regions| && 0 <= j < |data.materials| ::
      var r, m := data.regions[i], data.materials[j];
      prices[r][m] == ToUsd(data.regionData[r].basePrice[m], data.regionData[r].fx)
  {
    prices := map r | r in data.regions :: map[];
    var i := 0;
    while i < |data.regions|
      invariant 0 <= i <= |data.regions|
      invariant KeysAre(prices, data.regions)
      invariant InitialRows(data, prices, i)
    {
      var region := data.regions[i];
      var row := InitialRowOf(data.materials, data.regionData[region]);
      prices := prices[region := row];
      i := i + 1;
    }
    InitialRowsDone(data, prices);
  }

  /** Once every region has its initial row, the table is shaped and holds base price × FX */
  lemma {:induction false} InitialRowsDone(data: InitialData, prices: Table)
    requires PricesListed(data) && KeysAre(prices, data.regions)
    requires InitialRows(data, prices, |data.regions|)
    ensures Shaped(prices, data.regions, data.materials)
    ensures forall i, j | 0 <= i < |data.regions| && 0 <= j < |data.materials| ::
      var r, m := data.regions[i], data.materials[j];
      prices[r][m] == ToUsd(data.regionData[r].basePrice[m], data.regionData[r].fx)
  {
    assert Shaped(prices, data.regions, data.materials) by {
      forall r | r in prices ensures KeysAre(prices[r], data.materials) {
        var k :| 0 <= k < |data.regions| && data.regions[k] == r;
        assert data.materials[..|data.materials|] == data.materials;
      }
    }
    forall i, j | 0 <= i < |data.regions| && 0 <= j < |data.materials|
      ensures var r, m := data.regions[i], data.materials[j];
        prices[r][m] == ToUsd(data.regionData[r].basePrice[m], data.regionData[r].fx)
    {
      assert InitialRow(prices[data.regions[i]], data.materials, |data.materials|, data.regionData[data.regions[i]]);
      assert data.materials[j] in data.regionData[data.regions[i]].basePrice;
    }
  }

  /** Each of `materials` moved from its `before` price by one step of the walk, with its own
      volatility, trend and draw; `after` holds exactly those materials */
  ghost predicate RowStepped(before: map<Material, real>, after: map<Material, real>,
                             vol: map<Material, real>, drift: map<Material, real>,
                             materials: seq<Material>, draws: seq<real>)
  {
    && KeysAre(after, materials)
    && |draws| == |materials|
    && forall l | 0 <= l < |materials| ::
         && materials[l] in before && materials[l] in vol && materials[l] in drift
         && after[materials[l]] == NextPrice(before[materials[l]], vol[materials[l]], drift[materials[l]], draws[l])
  }

  /** A stepped row is floored */
  lemma {:induction false} RowSteppedFloored(before: map<Material, real>, after: map<Material, real>,
                                             vol: map<Material, real>, drift: map<Material, real>,
                                             materials: seq<Material>, draws: seq<real>)
    requires RowStepped(before, after, vol, drift, materials, draws)
    ensures forall m | m in after :: after[m] >= PriceFloor
  {
    forall m | m in after ensures after[m] >= PriceFloor {
      var l :| 0 <= l < |materials| && materials[l] == m;
    }
  }

  /** Replacing one declared region's row by a row of the declared materials keeps the shape */
  lemma {:induction false} ShapedUpdate(t: Table, regions: seq<Region>, materials: seq<Material>,
                                        r: Region, row: map<Material, real>)
    requires Shaped(t, regions, materials) && r in t && KeysAre(row, materials)
    ensures Shaped(t[r := row], regions, materials)
  {
  }

  /** The inner loop of `_update_prices`: each price of one region's row takes one step */
  method WalkRow(row: map<Material, real>, vol: map<Material, real>, drift: map<Material, real>,
                 materials: seq<Material>, draws: seq<real>) returns (walked: map<Material, real>)
    requires Distinct(materials) && |draws| == |materials|
    requires KeysAre(row, materials) && KeysAre(vol, materials) && KeysAre(drift, materials)
    ensures RowStepped(row, walked, vol, drift, materials, draws)
  {
    walked := row;
    var j := 0;
    while j < |materials|
      invariant 0 <= j <= |materials|
      invariant KeysAre(walked, materials)
      invariant forall l | 0 <= l < j ::
        walked[materials[l]] == NextPrice(row[materials[l]], vol[materials[l]], drift[materials[l]], draws[l])
      invariant forall l | j <= l < |materials| :: walked[materials[l]] == row[materials[l]]
    {
      var material := materials[j];
      var price := walked[material];
      walked := walked[material := NextPrice(price, vol[material], drift[material], draws[j])];
      j := j + 1;
    }
  }

  /** The counting loop of `calculate_cost`: how many items each region serves, keyed in the
      order regions first appear */
  method CountRegions(action: Action) returns (keys: seq<Region>, counts: map<Region, nat>)
    ensures Counter(keys, counts) == Tally(action)
  {
    keys := [];
    counts := map[];
    var k := 0;
    while k < |action|
      invariant 0 <= k <= |action|
      invariant Tally(action[..k]) == Counter(keys, counts)
    {
      var reg := action[k].region;
      assert action[..k + 1][..k] == action[..k];
      if reg in counts {
        counts := counts[reg := counts[reg] + 1];
      } else {
        keys := keys + [reg];
        counts := counts[reg := 1];
      }
      k := k + 1;
    }
    assert action[..k] == action;
  }

  /** The discount loop of `calculate_cost`: 20 for every item beyond the first from a region */
  method SynergyDiscountOver(keys: seq<Region>, counts: map<Region, nat>) returns (discount: real)
    requires Elems(keys) <= counts.Keys
    ensures discount == SynergyOver(keys, counts)
  {
    discount := 0.0;
    var k := 0;
    while k < |keys|
      invariant 0 <= k <= |keys|
      invariant discount == SynergyOver(keys[..k], counts)
    {
      var cnt := counts[keys[k]];
      assert keys[..k + 1][..k] == keys[..k];
      assert Elems(keys[..k]) <= Elems(keys);
      if cnt > 1 {
        discount := discount + SynergyPerExtraMaterial * (cnt - 1) as real;
      }
      k := k + 1;
    }
    assert keys[..k] == keys;
  }

  /** The body of the per-material loop of `calculate_cost` on the market `mk` (the environment's
      data and current prices): the lookups for one item, in the order Python performs them, and
      its breakdown line */
  method PriceItem(mk: Market, x: Assignment, applyDisruptions: bool, disruptions: set<Region>)
    returns (r: Result<CostLine, KeyError>)
    requires !applyDisruptions ==> disruptions == {}
    ensures r == LineFor(mk, disruptions, x)
  {
    var material, region := x.material, x.region;
    if region !in mk.regionData {
      return Err(KeyError(region));
    }
    var info := mk.regionData[region];
    if region !in mk.prices {
      return Err(KeyError(region));
    }
    if material !in mk.prices[region] {
      return Err(KeyError(material));
    }
    var basePrice := mk.prices[region][material];
    if material !in info.tariff {
      return Err(KeyError(material));
    }
    var tariff := TariffCost(basePrice, info.tariff[material]);
    if material !in info.shippingCost {
      return Err(KeyError(material));
    }
    var shipping := info.shippingCost[material];
    var cost := basePrice + tariff + shipping;
    var disrupted := false;
    if applyDisruptions && region in disruptions {
      cost := cost * DisruptionMultiplier;
      disrupted := true;
    }
    return Ok(CostLine(region, basePrice, tariff, shipping, disrupted, cost));
  }

  /** The per-material loop of `calculate_cost`: each item's line goes into the breakdown
      under its material and its cost into the total; the first failed lookup ends it */
  method PriceItems(mk: Market, action: Action, applyDisruptions: bool, disruptions: set<Region>)
    returns (r: Result<Evaluation, KeyError>)
    requires !applyDisruptions ==> disruptions == {}
    ensures match Lines(mk, disruptions, action)
      case Err(e) => r == Err(e)
      case Ok(ls) => r == Ok(Evaluation(SumCosts(ls), BreakdownOf(action, ls)))
  {
    var breakdown: Breakdown := map[];
    var totalCost := 0.0;
    ghost var lines: seq<CostLine> := [];
    var k := 0;
    assert action[..k] == [];
    while k < |action|
      invariant 0 <= k <= |action|
      invariant Lines(mk, disruptions, action[..k]) == Ok(lines)
      invariant breakdown == BreakdownOf(action[..k], lines)
      invariant totalCost == SumCosts(lines)
    {
      var item := PriceItem(mk, action[k], applyDisruptions, disruptions);
      if item.Err? {
        PricedOneMore(mk, disruptions, action, k, lines);
        LinesPrefixErr(mk, disruptions, action, k + 1);
        return Err(item.error);
      }
      var line := item.value;
      PricedOneMore(mk, disruptions, action, k, lines);
      breakdown := breakdown[action[k].material := Line(line)];
      totalCost := totalCost + line.totalCost;
      lines := lines + [line];
      k := k + 1;
    }
    assert action[..k] == action;
    return Ok(Evaluation(totalCost, breakdown));
  }

  /** `after` is `before` advanced one period: every declared (region, material) price moved
      by `NextPrice` with its own volatility, trend and draw */
  ghost predicate TableStepped(before: Table, after: Table, vol: Table, drift: Table,
                               regions: seq<Region>, materials: seq<Material>, draws: seq<seq<real>>)
  {
    && KeysAre(after, regions)
    && |draws| == |regions|
    && forall i | 0 <= i < |regions| ::
         && regions[i] in before && regions[i] in vol && regions[i] in drift
         && RowStepped(before[regions[i]], after[regions[i]], vol[regions[i]], drift[regions[i]], materials, draws[i])
  }

  /** The first `i` declared regions of `walked` have been advanced one period; the rest are
      as in `prices` */
  ghost predicate WalkedUpTo(prices: Table, walked: Table, vol: Table, drift: Table,
                             regions: seq<Region>, materials: seq<Material>, draws: seq<seq<real>>, i: nat)
  {
    && i <= |regions| == |draws|
    && Shaped(walked, regions, materials)
    && (forall k | 0 <= k < i ::
          && regions[k] in prices && regions[k] in vol && regions[k] in drift
          && RowStepped(prices[regions[k]], walked[regions[k]], vol[regions[k]], drift[regions[k]], materials, draws[k]))
    && forall k | i <= k < |regions| :: regions[k] in prices && walked[regions[k]] == prices[regions[k]]
  }

  /** Walking the row of `regions[i]` extends the walked prefix by one region */
  lemma {:induction false} WalkedUpToStep(prices: Table, walked: Table, vol: Table, drift: Table,
                                          regions: seq<Region>, materials: seq<Material>, draws: seq<seq<real>>,
                                          i: nat, row: map<Material, real>)
    requires Distinct(regions) && i < |regions|
    requires WalkedUpTo(prices, walked, vol, drift, regions, materials, draws, i)
    requires regions[i] in vol && regions[i] in drift
    requires RowStepped(walked[regions[i]], row, vol[regions[i]], drift[regions[i]], materials, draws[i])
    ensures WalkedUpTo(prices, walked[regions[i] := row], vol, drift, regions, materials, draws, i + 1)
  {
    var next := walked[regions[i] := row];
    ShapedUpdate(walked, regions, materials, regions[i], row);
    forall k | 0 <= k < |regions| && k != i ensures next[regions[k]] == walked[regions[k]] {
      assert regions[k] != regions[i];
    }
  }

  /** A table advanced one period is floored */
  lemma {:induction false} TableSteppedFloored(before: Table, after: Table, vol: Table, drift: Table,
                                               regions: seq<Region>, materials: seq<Material>, draws: seq<seq<real>>)
    requires TableStepped(before, after, vol, drift, regions, materials, draws)
    ensures Floored(after)
  {
    forall r | r in after ensures forall m | m in after[r] :: after[r][m] >= PriceFloor {
      var k :| 0 <= k < |regions| && regions[k] == r;
      RowSteppedFloored(before[r], after[r], vol[r], drift[r], materials, draws[k]);
    }
  }

  /** The region loop of `_update_prices`, on values: each region's row is walked in turn */
  method WalkTable(prices: Table, vol: Table, drift: Table,
                   regions: seq<Region>, materials: seq<Material>, draws: seq<seq<real>>)
    returns (walked: Table)
    requires Distinct(regions) && Distinct(materials)
    requires Shaped(prices, regions, materials) && Shaped(vol, regions, materials) && Shaped(drift, regions, materials)
    requires |draws| == |regions| && forall i | 0 <= i < |draws| :: |draws[i]| == |materials|
    ensures Shaped(walked, regions, materials) && Floored(walked)
    ensures TableStepped(prices, walked, vol, drift, regions, materials, draws)
  {
    walked := prices;
    var i := 0;
    while i < |regions|
      invariant WalkedUpTo(prices, walked, vol, drift, regions, materials, draws, i)
    {
      var region := regions[i];
      var row := WalkRow(walked[region], vol[region], drift[region], materials, draws[i]);
      WalkedUpToStep(prices, walked, vol, drift, regions, materials, draws, i, row);
      walked := walked[region := row];
      i := i + 1;
    }
    TableSteppedFloored(prices, walked, vol, drift, regions, materials, draws);
  }

  /** The environment's tables have one entry per declared region and material */
  ghost predicate TablesShaped(materials: seq<Material>, regions: seq<Region>, regionData: map<Region, RegionInfo>,
                               prices: Table, vol: Table, drift: Table)
  {
    && Distinct(materials)
    && Distinct(regions)
    && KeysAre(regionData, regions)
    && Shaped(prices, regions, materials)
    && Shaped(vol, regions, materials)
    && Shaped(drift, regions, materials)
  }

  /** The tables `__init__` builds: prices at base price × FX, the default volatility and trend */
  ghost predicate InitialTables(data: InitialData, prices: Table, vol: Table, drift: Table)
    requires PricesListed(data) && TablesShaped(data.materials, data.regions, data.regionData, prices, vol, drift)
  {
    forall i, j | 0 <= i < |data.regions| && 0 <= j < |data.materials| ::
      var r, m := data.regions[i], data.materials[j];
      && prices[r][m] == ToUsd(data.regionData[r].basePrice[m], data.regionData[r].fx)
      && vol[r][m] == DefaultVolatility
      && drift[r][m] == DefaultTrend
  }

  /** Two shaped tables that agree on every (region, material) pair are equal */
  lemma {:induction false} ShapedEqual(t: Table, u: Table, regions: seq<Region>, materials: seq<Material>)
    requires Shaped(t, regions, materials) && Shaped(u, regions, materials)
    requires forall i, j | 0 <= i < |regions| && 0 <= j < |materials| :: t[regions[i]][materials[j]] == u[regions[i]][materials[j]]
    ensures t == u
  {
    forall r | r in t ensures t[r] == u[r] {
      assert r in Elems(regions);
      var i :| 0 <= i < |regions| && regions[i] == r;
      forall m | m in t[r] ensures t[r][m] == u[r][m] {
        assert m in Elems(materials);
        var j :| 0 <= j < |materials| && materials[j] == m;
      }
      assert t[r].Keys == u[r].Keys;
    }
    assert t.Keys == u.Keys;
  }

  /** `__init__`'s tables are determined by the data */
  lemma {:induction false} InitialTablesUnique(data: InitialData, prices: Table, vol: Table, drift: Table,
                                               prices': Table, vol': Table, drift': Table)
    requires PricesListed(data)
    requires TablesShaped(data.materials, data.regions, data.regionData, prices, vol, drift)
    requires TablesShaped(data.materials, data.regions, data.regionData, prices', vol', drift')
    requires InitialTables(data, prices, vol, drift) && InitialTables(data, prices', vol', drift')
    ensures prices == prices' && vol == vol' && drift == drift'
  {
    ShapedEqual(prices, prices', data.regions, data.materials);
    ShapedEqual(vol, vol', data.regions, data.materials);
    ShapedEqual(drift, drift', data.regions, data.materials);
  }

  /** The loops and comprehensions of `__init__` build shaped initial tables */
  lemma {:induction false} InitialTablesBuilt(data: InitialData, prices: Table)
    requires WellFormedData(data)
    requires Shaped(prices, data.regions, data.materials)
    requires forall i, j | 0 <= i < |data.regions| && 0 <= j < |data.materials| ::
      var r, m := data.regions[i], data.materials[j];
      prices[r][m] == ToUsd(data.regionData[r].basePrice[m], data.regionData[r].fx)
    ensures var vol := ConstantTable(data.regions, data.materials, DefaultVolatility);
      var drift := ConstantTable(data.regions, data.materials, DefaultTrend);
      && TablesShaped(data.materials, data.regions, data.regionData, prices, vol, drift)
      && InitialTables(data, prices, vol, drift)
  {
  }

  class ArbitrageEnv {
    const materials: seq<Material>
    const regions: seq<Region>
    const regionData: map<Region, RegionInfo>
    var currentStep: nat
    var currentPrices: Table
    var volatility: Table
    var trend: Table

    /** The tables have one entry per declared region and material */
    ghost predicate WellShaped()
      reads this
    {
      TablesShaped(materials, regions, regionData, currentPrices, volatility, trend)
    }

    /** Once a period has been simulated, every price is at least the floor */
    ghost predicate Valid()
      reads this
    {
      WellShaped() && (currentStep > 0 ==> Floored(currentPrices))
    }

    function Snapshot(): Market
      reads this
    {
      Market(materials, regions, regionData, currentPrices)
    }

    constructor (data: InitialData)
      requires WellFormedData(data)
      ensures Valid()
      ensures materials == data.materials && regions == data.regions && regionData == data.regionData
      ensures currentStep == 0
      ensures InitialTables(data, currentPrices, volatility, trend)
    {
      var prices := InitialPrices(data);
      InitialTablesBuilt(data, prices);
      materials := data.materials;
      regions := data.regions;
      regionData := data.regionData;
      currentStep := 0;
      currentPrices := prices;
      volatility := ConstantTable(data.regions, data.materials, DefaultVolatility);
      trend := ConstantTable(data.regions, data.materials, DefaultTrend);
    }

    /** One unit draw per (region, material) pair, in declaration order */
    ghost predicate DrawShape(draws: seq<seq<real>>)
      reads this
    {
      |draws| == |regions| && forall i | 0 <= i < |draws| :: |draws[i]| == |materials|
    }

    /** `_update_prices`: every price takes one step of the random walk and is floored at 0.01 */
    method UpdatePrices(draws: seq<seq<real>>)
      requires WellShaped() && DrawShape(draws)
      modifies this`currentPrices
      ensures WellShaped() && Floored(currentPrices)
      ensures TableStepped(old(currentPrices), currentPrices, volatility, trend, regions, materials, draws)
    {
      currentPrices := WalkTable(currentPrices, volatility, trend, regions, materials, draws);
    }

    /** The disrupted regions `calculate_cost` samples: none when sampling is off */
    ghost function SampledDisruptions(applyDisruptions: bool, draws: seq<real>): set<Region>
      requires Valid()
      requires applyDisruptions ==> |draws| == |regions|
      reads this
    {
      if applyDisruptions then Disrupted(Snapshot(), draws, |regions|) else {}
    }

    /** The disruption-sampling loop of `calculate_cost`: region `regions[i]` is disrupted when
        its draw exceeds its reliability */
    method SampleDisruptions(draws: seq<real>) returns (disruptions: set<Region>)
      requires Valid() && |draws| == |regions|
      ensures disruptions == Disrupted(Snapshot(), draws, |regions|)
    {
      ghost var mk := Snapshot();
      disruptions := {};
      var i := 0;
      while i < |regions|
        invariant 0 <= i <= |regions|
        invariant disruptions == Disrupted(mk, draws, i)
      {
        var region := regions[i];
        if draws[i] > regionData[region].reliability {
          disruptions := disruptions + {region};
        }
        i := i + 1;
      }
    }

    /** `calculate_cost`: the landed cost of `action` at the current prices and its breakdown,
        less the synergy discount, which is recorded under "synergy_discount" when nonzero */
    method CalculateCost(action: Action, applyDisruptions: bool, draws: seq<real>)
      returns (r: Result<Evaluation, KeyError>)
      requires Valid()
      requires applyDisruptions ==> |draws| == |regions|
      ensures r == Evaluate(Snapshot(), action, SampledDisruptions(applyDisruptions, draws))
      ensures !applyDisruptions ==> r == Evaluate(Snapshot(), action, {})
    {
      var disruptions: set<Region> := {};
      if applyDisruptions {
        disruptions := SampleDisruptions(draws);
      }
      ghost var mk := Snapshot();
      assert disruptions == SampledDisruptions(applyDisruptions, draws);
      var items := PriceItems(Snapshot(), action, applyDisruptions, disruptions);
      if items.Err? {
        assert Evaluate(mk, action, disruptions) == Err(items.error);
        return Err(items.error);
      }
      ghost var ls := Lines(mk, disruptions, action).value;
      assert Lines(mk, disruptions, action) == Ok(ls);
      assert items.value == Evaluation(SumCosts(ls), BreakdownOf(action, ls));
      var keys, counts := CountRegions(action);
      assert Elems(keys) <= counts.Keys by {
        TallyKeys(action);
      }
      var synergyDiscount := SynergyDiscountOver(keys, counts);
      assert synergyDiscount == Synergy(action);
      var totalCost := items.value.total - synergyDiscount;
      var breakdown := items.value.breakdown;
      if synergyDiscount != 0.0 {
        breakdown := breakdown[SynergyKey := SynergyDiscount(synergyDiscount)];
      }
      EvaluateFromParts(mk, action, disruptions, ls, items.value, synergyDiscount, Evaluation(totalCost, breakdown));
      return Ok(Evaluation(totalCost, breakdown));
    }

    /** `step`: evaluate `action` with disruptions sampled, advance the period counter, walk the
        prices, and return the new table with reward = -total cost; the episode never ends.
        A failed lookup raises before anything changes. */
    method Step(action: Action, disruptionDraws: seq<real>, priceDraws: seq<seq<real>>)
      returns (r: Result<StepResult, KeyError>)
      requires Valid() && |disruptionDraws| == |regions| && DrawShape(priceDraws)
      modifies this`currentStep, this`currentPrices
      ensures Valid()
      ensures match old(Evaluate(Snapshot(), action, SampledDisruptions(true, disruptionDraws)))
        case Err(e) =>
          && r == Err(e)
          && currentStep == old(currentStep) && currentPrices == old(currentPrices)
        case Ok(ev) =>
          && r == Ok(StepResult(currentPrices, -ev.total, false, ev.breakdown, ev.total))
          && currentStep == old(currentStep) + 1
          && TableStepped(old(currentPrices), currentPrices, volatility, trend, regions, materials, priceDraws)
    {
      ghost var expected := Evaluate(Snapshot(), action, SampledDisruptions(true, disruptionDraws));
      var cost := CalculateCost(action, true, disruptionDraws);
      assert cost == expected;
      if cost.Err? {
        return Err(cost.error);
      }
      var totalCost, costInfo := cost.value.total, cost.value.breakdown;
      var reward := -totalCost;
      currentStep := currentStep + 1;
      UpdatePrices(priceDraws);
      var done := false;
      return Ok(StepResult(currentPrices, reward, done, costInfo, totalCost));
    }
  }
}