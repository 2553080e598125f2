/**
 * The landed-cost model of the sourcing simulator, as pure functions.
 *
 * `Evaluate` is the reference definition of `ArbitrageEnv.calculate_cost`: the cost of every
 * (material, region) item of an action, the 1.5 disruption multiplier, and the synergy discount
 * for regions that serve several materials. `NextPrice` is the reference definition of one
 * entry of the multiplicative price walk. The class in simulation.dfy is proved against these.
 */
module CostModel {
  import opened Wrappers

  type Region = string
  type Material = string

  /** region -> material -> value: the shape of the price, volatility, trend and forecast tables */
  type Table = map<Region, map<Material, real>>

  /** The reference data of one region, all prices in its local currency */
  datatype RegionInfo = RegionInfo(
    fx: real,
    basePrice: map<Material, real>,
    shippingCost: map<Material, real>,
    tariff: map<Material, real>,
    reliability: real)

  /** What a cost evaluation reads of the environment: the declared materials and regions
      (in declaration order), the region reference data and the current USD prices */
  datatype Market = Market(
    materials: seq<Material>,
    regions: seq<Region>,
    regionData: map<Region, RegionInfo>,
    prices: Table)

  /** One item of a sourcing action: a material and the region it is bought from */
  datatype Assignment = Assignment(material: Material, region: Region)

  /** A sourcing action, a dictionary from material to region kept in insertion order */
  type Action = seq<Assignment>

  /** The missing key of a failed dictionary lookup */
  datatype KeyError = KeyError(key: string)

  /** The breakdown record of one material */
  datatype CostLine = CostLine(
    region: Region,
    basePriceUsd: real,
    tariffCost: real,
    shippingCost: real,
    disrupted: bool,
    totalCost: real)

  /** A breakdown value: a material's line, or the aggregate synergy discount */
  datatype Entry = Line(line: CostLine) | SynergyDiscount(amount: real)

  type Breakdown = map<string, Entry>

  datatype Evaluation = Evaluation(total: real, breakdown: Breakdown)

  const DisruptionMultiplier: real := 1.5
  const SynergyPerExtraMaterial: real := 20.0
  const SynergyKey: string := "synergy_discount"
  const PriceFloor: real := 0.01
  const DefaultVolatility: real := 0.02
  const DefaultTrend: real := 0.0

  function Elems<T>(s: seq<T>): set<T> {
    set x | x in s
  }

  ghost predicate Distinct<T>(s: seq<T>) {
    forall i, j | 0 <= i < j < |s| :: s[i] != s[j]
  }

  /** Every lookup that pricing `m` from region `r` performs succeeds */
  ghost predicate Priced(mk: Market, r: Region, m: Material) {
    && r in mk.regionData
    && r in mk.prices
    && m in mk.prices[r]
    && m in mk.regionData[r].tariff
    && m in mk.regionData[r].shippingCost
  }

  /** Every declared material can be priced from every declared region */
  ghost predicate Complete(mk: Market) {
    forall r, m | r in mk.regions && m in mk.materials :: Priced(mk, r, m)
  }

  /** The keys of `m` are exactly the elements of `s` */
  ghost predicate KeysAre<K, V>(m: map<K, V>, s: seq<K>) {
    && (forall i | 0 <= i < |s| :: s[i] in m)
    && m.Keys == Elems(s)
  }

  /** A table has exactly one entry per declared region and material */
  ghost predicate Shaped(t: Table, regions: seq<Region>, materials: seq<Material>) {
    && KeysAre(t, regions)
    && forall r | r in t :: KeysAre(t[r], materials)
  }

  // ---------------------------------------------------------------------------------------------
  // Per-material landed cost

  /** The tariff on a USD price at an ad-valorem rate */
  function TariffCost(price: real, rate: real): real {
    price * rate
  }

  /** The breakdown line of one item, or the KeyError of the first lookup that fails */
  function LineFor(mk: Market, disrupted: set<Region>, x: Assignment): (r: Result<CostLine, KeyError>)
    ensures r.Ok? <==> Priced(mk, x.region, x.material)
    ensures r.Err? ==> r.error == KeyError(x.region) || r.error == KeyError(x.material)
    ensures r.Ok? ==>
      var p := mk.prices[x.region][x.material];
      var info := mk.regionData[x.region];
      && r.value.region == x.region
      && r.value.basePriceUsd == p
      && r.value.tariffCost == TariffCost(p, info.tariff[x.material])
      && r.value.shippingCost == info.shippingCost[x.material]
      && r.value.disrupted == (x.region in disrupted)
      && r.value.totalCost
         == (if r.value.disrupted then DisruptionMultiplier else 1.0)
            * (r.value.basePriceUsd + r.value.tariffCost + r.value.shippingCost)
  {
    var m, reg := x.material, x.region;
    if reg !in mk.regionData then Err(KeyError(reg))
    else if reg !in mk.prices then Err(KeyError(reg))
    else if m !in mk.prices[reg] then Err(KeyError(m))
    else if m !in mk.regionData[reg].tariff then Err(KeyError(m))
    else if m !in mk.regionData[reg].shippingCost then Err(KeyError(m))
    else
      var p := mk.prices[reg][m];
      var t := TariffCost(p, mk.regionData[reg].tariff[m]);
      var s := mk.regionData[reg].shippingCost[m];
      var cost := p + t + s;
      if reg in disrupted then Ok(CostLine(reg, p, t, s, true, cost * DisruptionMultiplier))
      else Ok(CostLine(reg, p, t, s, false, cost))
  }

  /** Raising a tariff rate or a shipping cost never lowers a material's cost (for a
      non-negative price), with or without disruption */
  lemma LineCostMonotone(mk: Market, mk': Market, disrupted: set<Region>, x: Assignment)
    requires Priced(mk, x.region, x.material) && Priced(mk', x.region, x.material)
    requires mk'.prices == mk.prices
    requires mk.prices[x.region][x.material] >= 0.0
    requires mk.regionData[x.region].tariff[x.material] <= mk'.regionData[x.region].tariff[x.material]
    requires mk.regionData[x.region].shippingCost[x.material] <= mk'.regionData[x.region].shippingCost[x.material]
    ensures LineFor(mk, disrupted, x).value.totalCost <= LineFor(mk', disrupted, x).value.totalCost
  {
    var p := mk.prices[x.region][x.material];
    var t, t' := mk.regionData[x.region].tariff[x.material], mk'.regionData[x.region].tariff[x.material];
    var l, l' := LineFor(mk, disrupted, x).value, LineFor(mk', disrupted, x).value;
    assert l.tariffCost <= l'.tariffCost by {
      ProductNonNegative(p, t' - t);
      assert p * t' - p * t == p * (t' - t);
    }
    var sum, sum' := l.basePriceUsd + l.tariffCost + l.shippingCost, l'.basePriceUsd + l'.tariffCost + l'.shippingCost;
    assert sum <= sum';
    assert l.disrupted == l'.disrupted;
  }

  /** The lines of all items, in action order; the first failing item decides the error */
  function Lines(mk: Market, disrupted: set<Region>, a: Action): (r: Result<seq<CostLine>, KeyError>)
    ensures r.Ok? ==> |r.value| == |a|
  {
    if a == [] then Ok([])
    else
      var n := |a| - 1;
      match Lines(mk, disrupted, a[..n])
      case Err(e) => Err(e)
      case Ok(ls) =>
        match LineFor(mk, disrupted, a[n])
        case Err(e) => Err(e)
        case Ok(l) => Ok(ls + [l])
  }

  /** Pricing succeeds exactly when every item can be priced, and then holds each item's line in
      order; otherwise the error is that of the first item that cannot be priced */
  lemma {:induction false} LinesMeaning(mk: Market, disrupted: set<Region>, a: Action)
    ensures var r := Lines(mk, disrupted, a);
      && (r.Ok? <==> forall i | 0 <= i < |a| :: Priced(mk, a[i].region, a[i].material))
      && (r.Ok? ==> forall i | 0 <= i < |a| :: r.value[i] == LineFor(mk, disrupted, a[i]).value)
      && (r.Err? ==> exists i | 0 <= i < |a| ::
            && !Priced(mk, a[i].region, a[i].material)
            && (forall j | 0 <= j < i :: Priced(mk, a[j].region, a[j].material))
            && r.error == LineFor(mk, disrupted, a[i]).error)
  {
    if a != [] {
      var n := |a| - 1;
      var a' := a[..n];
      LinesMeaning(mk, disrupted, a');
      assert forall i | 0 <= i < n :: a'[i] == a[i];
    }
  }

  lemma {:induction false} LinesPrefixErr(mk: Market, disrupted: set<Region>, a: Action, k: nat)
    requires k <= |a| && Lines(mk, disrupted, a[..k]).Err?
    ensures Lines(mk, disrupted, a) == Lines(mk, disrupted, a[..k])
    decreases |a| - k
  {
    if k < |a| {
      var n := |a| - 1;
      assert a[..n][..k] == a[..k];
      LinesPrefixErr(mk, disrupted, a[..n], k);
      assert a[..|a|] == a;
    } else {
      assert a[..k] == a;
    }
  }

  function SumCosts(ls: seq<CostLine>): real {
    if ls == [] then 0.0 else SumCosts(ls[..|ls| - 1]) + ls[|ls| - 1].totalCost
  }
  /** Pricing one more item: its line is appended, it enters the breakdown under its material,
      and its cost is added to the total */
  lemma {:induction false} PricedOneMore(mk: Market, disrupted: set<Region>, a: Action, k: nat, ls: seq<CostLine>)
    requires k < |a| && Lines(mk, disrupted, a[..k]) == Ok(ls)
    ensures LineFor(mk, disrupted, a[k]).Err? ==> Lines(mk, disrupted, a[..k + 1]) == Err(LineFor(mk, disrupted, a[k]).error)
    ensures LineFor(mk, disrupted, a[k]).Ok? ==>
      var l := LineFor(mk, disrupted, a[k]).value;
      && Lines(mk, disrupted, a[..k + 1]) == Ok(ls + [l])
      && BreakdownOf(a[..k + 1], ls + [l]) == BreakdownOf(a[..k], ls)[a[k].material := Line(l)]
      && SumCosts(ls + [l]) == SumCosts(ls) + l.totalCost
  {
    assert a[..k + 1][..k] == a[..k];
    if LineFor(mk, disrupted, a[k]).Ok? {
      var l := LineFor(mk, disrupted, a[k]).value;
      assert (ls + [l])[..k] == ls;
    }
  }


  /** The materials named by an action */
  function MaterialsOf(a: Action): (ms: set<Material>)
    ensures forall i | 0 <= i < |a| :: a[i].material in ms
  {
    if a == [] then {}
    else
      var n := |a| - 1;
      assert forall i | 0 <= i < n :: a[..n][i] == a[i];
      MaterialsOf(a[..n]) + {a[n].material}
  }

  /** Conversely, every material named is some item's material */
  lemma {:induction false} MaterialsOfNamed(a: Action)
    ensures forall x | x in MaterialsOf(a) :: exists i | 0 <= i < |a| :: a[i].material == x
  {
    if a != [] {
      var n := |a| - 1;
      MaterialsOfNamed(a[..n]);
      assert MaterialsOf(a) == MaterialsOf(a[..n]) + {a[n].material};
      forall x | x in MaterialsOf(a) ensures exists i | 0 <= i < |a| :: a[i].material == x {
        if x != a[n].material {
          var i :| 0 <= i < n && a[..n][i].material == x;
          assert a[i] == a[..n][i];
        }
      }
    }
  }

  ghost predicate MaterialsDistinct(a: Action) {
    forall i, j | 0 <= i < j < |a| :: a[i].material != a[j].material
  }

  /** The per-material part of the breakdown: each item's line under its material's key */
  function BreakdownOf(a: Action, ls: seq<CostLine>): Breakdown
    requires |ls| == |a|
  {
    if a == [] then map[]
    else
      var n := |a| - 1;
      BreakdownOf(a[..n], ls[..n])[a[n].material := Line(ls[n])]
  }

  lemma {:induction false} BreakdownOfEntries(a: Action, ls: seq<CostLine>)
    requires |ls| == |a| && MaterialsDistinct(a)
    ensures BreakdownOf(a, ls).Keys == MaterialsOf(a)
    ensures forall i | 0 <= i < |a| :: BreakdownOf(a, ls)[a[i].material] == Line(ls[i])
  {
    if a != [] {
      var n := |a| - 1;
      var a', ls' := a[..n], ls[..n];
      var m := a[n].material;
      assert MaterialsDistinct(a') by {
        forall i, j | 0 <= i < j < n ensures a'[i].material != a'[j].material {
          assert a'[i] == a[i] && a'[j] == a[j];
        }
      }
      BreakdownOfEntries(a', ls');
      var b' := BreakdownOf(a', ls');
      assert BreakdownOf(a, ls) == b'[m := Line(ls[n])];
      assert MaterialsOf(a) == MaterialsOf(a') + {m};
      forall i | 0 <= i < |a| ensures BreakdownOf(a, ls)[a[i].material] == Line(ls[i]) {
        if i < n {
          assert a'[i] == a[i] && ls'[i] == ls[i];
          assert a[i].material != m;
        }
      }
    }
  }

  // ---------------------------------------------------------------------------------------------
  // Region counts and the synergy discount

  /** The regions an action buys from */
  function RegionsUsed(a: Action): (rs: set<Region>)
    ensures forall i | 0 <= i < |a| :: a[i].region in rs
  {
    if a == [] then {}
    else
      var n := |a| - 1;
      assert forall i | 0 <= i < n :: a[..n][i] == a[i];
      RegionsUsed(a[..n]) + {a[n].region}
  }

  /** How many items of an action are bought from `r` */
  function Occurrences(a: Action, r: Region): nat {
    if a == [] then 0
    else Occurrences(a[..|a| - 1], r) + (if a[|a| - 1].region == r then 1 else 0)
  }

  lemma {:induction false} OccurrencesOfUnused(a: Action, r: Region)
    requires r !in RegionsUsed(a)
    ensures Occurrences(a, r) == 0
  {
    if a != [] {
      OccurrencesOfUnused(a[..|a| - 1], r);
    }
  }

  /** A Python counting dictionary: its keys in insertion order and its counts */
  datatype Counter = Counter(keys: seq<Region>, count: map<Region, nat>)

  /** `counts[r] = counts.get(r, 0) + 1` */
  function Bump(c: Counter, r: Region): Counter {
    if r in c.count then Counter(c.keys, c.count[r := c.count[r] + 1])
    else Counter(c.keys + [r], c.count[r := 1])
  }

  /** The region counts of an action, built item by item */
  function Tally(a: Action): Counter {
    if a == [] then Counter([], map[])
    else Bump(Tally(a[..|a| - 1]), a[|a| - 1].region)
  }

  /** The counting dictionary has one key per region used, each listed once */
  lemma {:induction false} TallyKeys(a: Action)
    ensures Distinct(Tally(a).keys)
    ensures Elems(Tally(a).keys) == Tally(a).count.Keys == RegionsUsed(a)
    ensures |Tally(a).keys| == |RegionsUsed(a)|
  {
    if a != [] {
      TallyKeys(a[..|a| - 1]);
      TallyKeysStep(a);
    }
  }

  /** One more item keeps the keys distinct and in step with the regions used */
  lemma {:induction false} TallyKeysStep(a: Action)
    requires a != []
    requires var c' := Tally(a[..|a| - 1]);
      && Distinct(c'.keys)
      && Elems(c'.keys) == c'.count.Keys == RegionsUsed(a[..|a| - 1])
      && |c'.keys| == |RegionsUsed(a[..|a| - 1])|
    ensures Distinct(Tally(a).keys)
    ensures Elems(Tally(a).keys) == Tally(a).count.Keys == RegionsUsed(a)
    ensures |Tally(a).keys| == |RegionsUsed(a)|
  {
    var n := |a| - 1;
    var a', r := a[..n], a[n].region;
    var c', c := Tally(a'), Tally(a);
    assert c == Bump(c', r);
    assert RegionsUsed(a) == RegionsUsed(a') + {r};
    if r in c'.count {
      assert RegionsUsed(a) == RegionsUsed(a');
    } else {
      NewKey(c'.keys, c'.count, RegionsUsed(a'), r);
    }
  }

  /** A region seen for the first time is appended to the keys and counted once */
  lemma {:induction false} NewKey(keys: seq<Region>, count: map<Region, nat>, used: set<Region>, r: Region)
    requires Distinct(keys) && Elems(keys) == count.Keys == used && |keys| == |used| && r !in used
    ensures Distinct(keys + [r])
    ensures Elems(keys + [r]) == count[r := 1].Keys == used + {r}
    ensures |keys + [r]| == |used + {r}|
  {
    DistinctSnoc(keys, r);
    assert Elems(keys + [r]) == Elems(keys) + {r};
  }

  /** Appending an element not yet listed keeps a sequence distinct */
  lemma {:induction false} DistinctSnoc<T>(s: seq<T>, x: T)
    requires Distinct(s) && x !in Elems(s)
    ensures Distinct(s + [x])
  {
    var s' := s + [x];
    forall i, j | 0 <= i < j < |s'| ensures s'[i] != s'[j] {
      assert s'[i] == s[i] && s[i] in Elems(s);
    }
  }

  /** The count of each key is the number of items bought from that region */
  lemma {:induction false} TallyCounts(a: Action)
    ensures forall r | r in Tally(a).count :: Tally(a).count[r] == Occurrences(a, r) >= 1
  {
    if a != [] {
      var n := |a| - 1;
      var a', r := a[..n], a[n].region;
      TallyCounts(a');
      TallyKeys(a');
      var c', c := Tally(a'), Tally(a);
      assert c == Bump(c', r);
      forall q | q in c.count ensures c.count[q] == Occurrences(a, q) >= 1 {
        assert Occurrences(a, q) == Occurrences(a', q) + (if q == r then 1 else 0);
        if q !in c'.count {
          OccurrencesOfUnused(a', q);
        }
      }
    }
  }

  /** The index of the first item bought from `r` */
  function FirstOccurrence(a: Action, r: Region): (i: nat)
    requires r in RegionsUsed(a)
    ensures i < |a| && a[i].region == r
    ensures forall j | 0 <= j < i :: a[j].region != r
  {
    var n := |a| - 1;
    assert forall j | 0 <= j < n :: a[..n][j] == a[j];
    if r in RegionsUsed(a[..n]) then FirstOccurrence(a[..n], r) else n
  }

  /** A region already used by the first items keeps its first occurrence; a new region first
      occurs at the last item */
  lemma {:induction false} FirstOccurrenceSnoc(a: Action, r: Region)
    requires a != [] && r in RegionsUsed(a)
    ensures var a' := a[..|a| - 1];
      FirstOccurrence(a, r) == if r in RegionsUsed(a') then FirstOccurrence(a', r) else |a'|
  {
  }

  /** One more item appends its region to the keys exactly when the region is new */
  lemma {:induction false} TallyKeysSnoc(a: Action)
    requires a != []
    ensures var a' := a[..|a| - 1];
      Tally(a).keys == Tally(a').keys + (if a[|a| - 1].region in RegionsUsed(a') then [] else [a[|a| - 1].region])
  {
    TallyKeys(a[..|a| - 1]);
  }

  /** One more item keeps two keys of the counting dictionary in first-appearance order:
      either both were keys before, or the later one is the item's region, new to the dictionary */
  lemma {:induction false} TallyOrderStep(a: Action, i: nat, j: nat)
    requires a != [] && i < j < |Tally(a).keys|
    requires var a' := a[..|a| - 1];
      && Elems(Tally(a').keys) == RegionsUsed(a')
      && (j < |Tally(a').keys| ==> FirstOccurrence(a', Tally(a').keys[i]) < FirstOccurrence(a', Tally(a').keys[j]))
    ensures Tally(a).keys[i] in RegionsUsed(a) && Tally(a).keys[j] in RegionsUsed(a)
    ensures FirstOccurrence(a, Tally(a).keys[i]) < FirstOccurrence(a, Tally(a).keys[j])
  {
    var n := |a| - 1;
    var a', r := a[..n], a[n].region;
    var ks', ks := Tally(a').keys, Tally(a).keys;
    TallyKeysSnoc(a);
    assert RegionsUsed(a) == RegionsUsed(a') + {r};
    assert ks[i] == ks'[i] && ks'[i] in Elems(ks');
    FirstOccurrenceSnoc(a, ks[i]);
    if j < |ks'| {
      assert ks[j] == ks'[j] && ks'[j] in Elems(ks');
      FirstOccurrenceSnoc(a, ks[j]);
    } else {
      assert ks[j] == r && r !in RegionsUsed(a');
      FirstOccurrenceSnoc(a, r);
    }
  }

  /** The counting dictionary lists the regions in the order in which they first appear in the action */
  lemma {:induction false} TallyFirstAppearance(a: Action)
    ensures Elems(Tally(a).keys) == RegionsUsed(a)
    ensures forall i, j | 0 <= i < j < |Tally(a).keys| ::
      FirstOccurrence(a, Tally(a).keys[i]) < FirstOccurrence(a, Tally(a).keys[j])
  {
    TallyKeys(a);
    if a != [] {
      TallyFirstAppearance(a[..|a| - 1]);
      TallyKeys(a[..|a| - 1]);
      forall i, j | 0 <= i < j < |Tally(a).keys|
        ensures FirstOccurrence(a, Tally(a).keys[i]) < FirstOccurrence(a, Tally(a).keys[j])
      {
        TallyOrderStep(a, i, j);
      }
    }
  }

  function ExtraDiscount(cnt: nat): real {
    if cnt > 1 then SynergyPerExtraMaterial * (cnt - 1) as real else 0.0
  }

  /** The discount accumulated over the counting dictionary's keys */
  function SynergyOver(keys: seq<Region>, count: map<Region, nat>): real
    requires Elems(keys) <= count.Keys
  {
    if keys == [] then 0.0
    else
      var n := |keys| - 1;
      assert Elems(keys[..n]) <= Elems(keys);
      SynergyOver(keys[..n], count) + ExtraDiscount(count[keys[n]])
  }

  /** The synergy discount of an action */
  function Synergy(a: Action): real {
    TallyKeys(a);
    var c := Tally(a);
    SynergyOver(c.keys, c.count)
  }

  lemma {:induction false} SynergyFrame(keys: seq<Region>, c1: map<Region, nat>, c2: map<Region, nat>)
    requires Elems(keys) <= c1.Keys && Elems(keys) <= c2.Keys
    requires forall k | k in keys :: c1[k] == c2[k]
    ensures SynergyOver(keys, c1) == SynergyOver(keys, c2)
  {
    if keys != [] {
      var n := |keys| - 1;
      assert Elems(keys[..n]) <= Elems(keys);
      SynergyFrame(keys[..n], c1, c2);
    }
  }

  lemma {:induction false} SynergyBump(keys: seq<Region>, count: map<Region, nat>, r: Region)
    requires Distinct(keys) && r in keys && Elems(keys) <= count.Keys && count[r] >= 1
    ensures SynergyOver(keys, count[r := count[r] + 1]) == SynergyOver(keys, count) + SynergyPerExtraMaterial
  {
    var n := |keys| - 1;
    var count' := count[r := count[r] + 1];
    assert Elems(keys[..n]) <= Elems(keys);
    if keys[n] == r {
      SynergyFrame(keys[..n], count, count');
    } else {
      assert r in keys[..n];
      SynergyBump(keys[..n], count, r);
    }
  }

  /** The discount is 20 per material beyond the first in each region, which adds up to
      20 × (number of items − number of distinct regions) */
  lemma {:induction false} SynergyClosedForm(a: Action)
    ensures Synergy(a) == SynergyPerExtraMaterial * (|a| - |RegionsUsed(a)|) as real
  {
    if a != [] {
      var n := |a| - 1;
      var a', r := a[..n], a[n].region;
      SynergyClosedForm(a');
      var extra, extra' := |a| - |RegionsUsed(a)|, |a'| - |RegionsUsed(a')|;
      if r in Tally(a').count {
        assert Synergy(a) == Synergy(a') + SynergyPerExtraMaterial by {
          SynergyOfRepeat(a);
        }
        assert extra == extra' + 1 by {
          TallyKeys(a');
          assert RegionsUsed(a) == RegionsUsed(a');
        }
      } else {
        assert Synergy(a) == Synergy(a') by {
          SynergyOfNew(a);
        }
        assert extra == extra' by {
          TallyKeys(a');
          assert RegionsUsed(a) == RegionsUsed(a') + {r};
        }
      }
    }
  }

  /** An item from a region already counted adds 20 to the discount */
  lemma {:induction false} SynergyOfRepeat(a: Action)
    requires a != [] && a[|a| - 1].region in Tally(a[..|a| - 1]).count
    ensures Synergy(a) == Synergy(a[..|a| - 1]) + SynergyPerExtraMaterial
  {
    var a', r := a[..|a| - 1], a[|a| - 1].region;
    var c' := Tally(a');
    assert Distinct(c'.keys) && r in c'.keys && Elems(c'.keys) <= c'.count.Keys && c'.count[r] >= 1 by {
      TallyKeys(a');
      TallyCounts(a');
    }
    SynergyBump(c'.keys, c'.count, r);
    assert Tally(a) == Counter(c'.keys, c'.count[r := c'.count[r] + 1]);
  }

  /** An item from a region not yet counted leaves the discount unchanged */
  lemma {:induction false} SynergyOfNew(a: Action)
    requires a != [] && a[|a| - 1].region !in Tally(a[..|a| - 1]).count
    ensures Synergy(a) == Synergy(a[..|a| - 1])
  {
    var a', r := a[..|a| - 1], a[|a| - 1].region;
    var c' := Tally(a');
    TallyKeys(a');
    var count := c'.count[r := 1];
    assert Tally(a) == Counter(c'.keys + [r], count);
    assert (c'.keys + [r])[..|c'.keys|] == c'.keys;
    SynergyFrame(c'.keys, c'.count, count);
  }

  // ---------------------------------------------------------------------------------------------
  // Disruptions and the whole evaluation

  /** The regions among the first `n` whose draw exceeds their reliability */
  function Disrupted(mk: Market, draws: seq<real>, n: nat): set<Region>
    requires n <= |mk.regions| && n <= |draws| && Elems(mk.regions) <= mk.regionData.Keys
  {
    if n == 0 then {}
    else
      var r := mk.regions[n - 1];
      Disrupted(mk, draws, n - 1) + (if draws[n - 1] > mk.regionData[r].reliability then {r} else {})
  }

  /** With one draw per region, a region is disrupted exactly when its own draw exceeds its reliability */
  lemma {:induction false} DisruptedMeaning(mk: Market, draws: seq<real>, n: nat)
    requires n <= |mk.regions| && n <= |draws| && Elems(mk.regions) <= mk.regionData.Keys
    requires Distinct(mk.regions)
    ensures forall r :: r in Disrupted(mk, draws, n) ==> r in mk.regions[..n]
    ensures forall i | 0 <= i < n ::
      mk.regions[i] in Disrupted(mk, draws, n) <==> draws[i] > mk.regionData[mk.regions[i]].reliability
  {
    if n > 0 {
      DisruptedMeaning(mk, draws, n - 1);
      assert mk.regions[..n] == mk.regions[..n - 1] + [mk.regions[n - 1]];
      forall i | 0 <= i < n - 1 ensures mk.regions[i] != mk.regions[n - 1] { }
    }
  }

  /** The reference definition of `calculate_cost`: the total landed cost of `a` given the set
      of disrupted regions, and its breakdown */
  function Evaluate(mk: Market, a: Action, disrupted: set<Region>): Result<Evaluation, KeyError> {
    match Lines(mk, disrupted, a)
    case Err(e) => Err(e)
    case Ok(ls) =>
      var syn := Synergy(a);
      var bd := BreakdownOf(a, ls);
      Ok(Evaluation(SumCosts(ls) - syn, if syn != 0.0 then bd[SynergyKey := SynergyDiscount(syn)] else bd))
  }

  /** The successful evaluation assembled from its parts: the itemised total and breakdown,
      less the synergy discount, recorded when nonzero */
  lemma {:induction false} EvaluateFromParts(mk: Market, a: Action, disrupted: set<Region>, ls: seq<CostLine>,
                                             items: Evaluation, syn: real, ev: Evaluation)
    requires Lines(mk, disrupted, a) == Ok(ls)
    requires items == Evaluation(SumCosts(ls), BreakdownOf(a, ls))
    requires syn == Synergy(a)
    requires ev.total == items.total - syn
    requires ev.breakdown == if syn != 0.0 then items.breakdown[SynergyKey := SynergyDiscount(syn)] else items.breakdown
    ensures Evaluate(mk, a, disrupted) == Ok(ev)
  {
  }

  /** The evaluation succeeds exactly when every item can be priced; otherwise it fails with the
      missing region or material of the first item that cannot */
  lemma {:induction false} EvaluateErrors(mk: Market, a: Action, disrupted: set<Region>)
    ensures Evaluate(mk, a, disrupted).Ok? <==> forall i | 0 <= i < |a| :: Priced(mk, a[i].region, a[i].material)
    ensures Evaluate(mk, a, disrupted).Err? ==> exists i | 0 <= i < |a| ::
      && !Priced(mk, a[i].region, a[i].material)
      && (forall j | 0 <= j < i :: Priced(mk, a[j].region, a[j].material))
      && Evaluate(mk, a, disrupted).error in {KeyError(a[i].region), KeyError(a[i].material)}
  {
    LinesMeaning(mk, disrupted, a);
  }

  /** The total is the sum of the material costs less 20 × (items − distinct regions) */
  lemma {:induction false} EvaluateTotal(mk: Market, a: Action, disrupted: set<Region>)
    requires Evaluate(mk, a, disrupted).Ok?
    ensures Evaluate(mk, a, disrupted).value.total
         == SumCosts(Lines(mk, disrupted, a).value) - SynergyPerExtraMaterial * (|a| - |RegionsUsed(a)|) as real
  {
    SynergyClosedForm(a);
  }

  /** The breakdown holds each material's line under its own key, and the synergy discount
      under "synergy_discount" exactly when it is nonzero (a material of that name is
      overwritten by a nonzero discount) */
  lemma {:induction false} EvaluateBreakdown(mk: Market, a: Action, disrupted: set<Region>)
    requires Evaluate(mk, a, disrupted).Ok? && MaterialsDistinct(a)
    ensures forall i | 0 <= i < |a| :: LineFor(mk, disrupted, a[i]).Ok?
    ensures var ev, syn := Evaluate(mk, a, disrupted).value, Synergy(a);
      && ev.breakdown.Keys == MaterialsOf(a) + (if syn != 0.0 then {SynergyKey} else {})
      && (syn != 0.0 ==> ev.breakdown[SynergyKey] == SynergyDiscount(syn))
      && forall i | 0 <= i < |a| && (syn == 0.0 || a[i].material != SynergyKey) ::
           ev.breakdown[a[i].material] == Line(LineFor(mk, disrupted, a[i]).value)
  {
    LinesMeaning(mk, disrupted, a);
    BreakdownOfEntries(a, Lines(mk, disrupted, a).value);
  }

  /** Without disruption sampling no line is marked disrupted and none carries the multiplier */
  lemma {:induction false} NoDisruptionWhenOff(mk: Market, a: Action)
    requires Evaluate(mk, a, {}).Ok?
    ensures forall i | 0 <= i < |a| ::
      var l := Lines(mk, {}, a).value[i];
      !l.disrupted && l.totalCost == l.basePriceUsd + l.tariffCost + l.shippingCost
  {
    LinesMeaning(mk, {}, a);
  }

  // ---------------------------------------------------------------------------------------------
  // Price walk

  /** `random.uniform(lo, hi)` for the unit draw `t`: CPython computes `lo + (hi - lo) * t` */
  function Uniform(lo: real, hi: real, t: real): (u: real)
    ensures 0.0 <= t <= 1.0 && lo <= hi ==> lo <= u <= hi
  {
    if 0.0 <= t <= 1.0 && lo <= hi then
      ProductNonNegative(hi - lo, t);
      ProductNonNegative(hi - lo, 1.0 - t);
      lo + (hi - lo) * t
    else
      lo + (hi - lo) * t
  }

  lemma ProductNonNegative(x: real, y: real)
    requires x >= 0.0 && y >= 0.0
    ensures x * y >= 0.0
  {
  }

  /** One price after a period: the multiplicative step with drift, floored at 0.01 */
  function NextPrice(p: real, vol: real, drift: real, t: real): (q: real)
    ensures q >= PriceFloor
    ensures q > PriceFloor ==> q == p * (1.0 + Uniform(-vol, vol, t) + drift)
    ensures p * (1.0 + Uniform(-vol, vol, t) + drift) >= PriceFloor ==> q == p * (1.0 + Uniform(-vol, vol, t) + drift)
  {
    var changePct := Uniform(-vol, vol, t) + drift;
    var newPrice := p * (1.0 + changePct);
    if newPrice > PriceFloor then newPrice else PriceFloor
  }

  /** Every price of a table is at least the floor */
  ghost predicate Floored(t: Table) {
    forall r, m | r in t && m in t[r] :: t[r][m] >= PriceFloor
  }
}
