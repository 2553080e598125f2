/**
 * The decision procedure of `RLAgent`, as pure functions: the action space (the Cartesian
 * product of the regions over the materials, in `itertools.product` order), the forecast-weighted
 * metric and its stable argmin, and the "first risky region, one move" repair.
 *
 * The agent class in agent.dfy is proved against these definitions.
 */
module ActionSearch {
  import opened Wrappers
  import opened CostModel

  function Pow(b: nat, e: nat): nat {
    if e == 0 then 1 else b * Pow(b, e - 1)
  }

  // The action space

  /** Every combination of `cs` with `r` put in front */
  function Prepend(r: Region, cs: seq<seq<Region>>): (ps: seq<seq<Region>>)
    ensures |ps| == |cs|
    ensures forall j | 0 <= j < |cs| :: ps[j] == [r] + cs[j]
  {
    seq(|cs|, j requires 0 <= j < |cs| => [r] + cs[j])
  }

  /** One more leading position: each region of `rs` in turn, in front of every combination of
      `cs`, so that the leading position varies slowest */
  function Extend(rs: seq<Region>, cs: seq<seq<Region>>): (ps: seq<seq<Region>>)
    ensures |ps| == |rs| * |cs|
  {
    if rs == [] then [] else Prepend(rs[0], cs) + Extend(rs[1..], cs)
  }

  /** Every entry of `Extend(rs, cs)` is a region of `rs` in front of a combination of `cs` */
  lemma {:induction false} ExtendSound(rs: seq<Region>, cs: seq<seq<Region>>)
    ensures forall k | 0 <= k < |Extend(rs, cs)| ::
      var p := Extend(rs, cs)[k]; |p| > 0 && p[0] in rs && p[1..] in cs
  {
    if rs != [] {
      ExtendSound(rs[1..], cs);
      var front, back := Prepend(rs[0], cs), Extend(rs[1..], cs);
      var ps := front + back;
      assert ps == Extend(rs, cs);
      forall k | 0 <= k < |ps| ensures |ps[k]| > 0 && ps[k][0] in rs && ps[k][1..] in cs {
        if k < |front| {
          assert ps[k] == [rs[0]] + cs[k];
          assert ps[k][1..] == cs[k];
        } else {
          assert ps[k] == back[k - |front|];
          assert ps[k][0] in rs[1..];
        }
      }
    }
  }

  /** `itertools.product(rs, repeat=n)`: the combinations of `n` regions, the first position
      varying slowest and each position running through `rs` in order */
  function Product(rs: seq<Region>, n: nat): seq<seq<Region>> {
    if n == 0 then [[]] else Extend(rs, Product(rs, n - 1))
  }

  /** A combination of `n` regions, each taken from `rs` */
  ghost predicate Combination(rs: seq<Region>, n: nat, c: seq<Region>) {
    |c| == n && forall j | 0 <= j < n :: c[j] in rs
  }

  /** Position `i * |cs| + j` of `Extend(rs, cs)` is region `i` in front of combination `j` */
  lemma {:induction false} ExtendAt(rs: seq<Region>, cs: seq<seq<Region>>, i: nat, j: nat)
    requires i < |rs| && j < |cs|
    ensures i * |cs| + j < |Extend(rs, cs)|
    ensures Extend(rs, cs)[i * |cs| + j] == [rs[i]] + cs[j]
  {
    if i > 0 {
      ExtendAt(rs[1..], cs, i - 1, j);
      assert i * |cs| + j == |cs| + ((i - 1) * |cs| + j);
    }
  }

  /** The product has |rs|^n entries */
  lemma {:induction false} ProductCount(rs: seq<Region>, n: nat)
    ensures |Product(rs, n)| == Pow(|rs|, n)
  {
    if n > 0 {
      ProductCount(rs, n - 1);
    }
  }

  /** Every entry of the product is a combination of `n` regions from `rs` */
  lemma {:induction false} ProductSound(rs: seq<Region>, n: nat)
    ensures forall c | c in Product(rs, n) :: Combination(rs, n, c)
  {
    if n > 0 {
      ProductSound(rs, n - 1);
      var ps, cs := Product(rs, n), Product(rs, n - 1);
      ExtendSound(rs, cs);
      forall c | c in ps ensures Combination(rs, n, c) {
        var k :| 0 <= k < |ps| && ps[k] == c;
        assert Combination(rs, n - 1, c[1..]);
        forall j | 0 <= j < n ensures c[j] in rs {
          if j > 0 {
            assert c[j] == c[1..][j - 1];
          }
        }
      }
    }
  }

  /** Every entry of the product has `n` regions */
  lemma {:induction false} ProductLengths(rs: seq<Region>, n: nat)
    ensures forall k | 0 <= k < |Product(rs, n)| :: |Product(rs, n)[k]| == n
  {
    ProductSound(rs, n);
    forall k | 0 <= k < |Product(rs, n)| ensures |Product(rs, n)[k]| == n {
      assert Product(rs, n)[k] in Product(rs, n);
    }
  }

  /** A combination of `n > 0` regions is its first region in front of a combination of `n - 1` */
  lemma {:induction false} CombinationTail(rs: seq<Region>, n: nat, c: seq<Region>)
    requires n > 0 && Combination(rs, n, c)
    ensures c[0] in rs && Combination(rs, n - 1, c[1..]) && c == [c[0]] + c[1..]
  {
    forall j | 0 <= j < n - 1 ensures c[1..][j] in rs {
      assert c[1..][j] == c[j + 1];
    }
  }

  /** Every region in front of every listed combination is an entry of `Extend` */
  lemma {:induction false} ExtendHas(rs: seq<Region>, cs: seq<seq<Region>>, x: Region, c: seq<Region>)
    requires x in rs && c in cs
    ensures [x] + c in Extend(rs, cs)
  {
    var i :| 0 <= i < |rs| && rs[i] == x;
    var j :| 0 <= j < |cs| && cs[j] == c;
    ExtendAt(rs, cs, i, j);
  }

  /** Every combination of `n` regions from `rs` is an entry of the product */
  lemma {:induction false} ProductComplete(rs: seq<Region>, n: nat, c: seq<Region>)
    requires Combination(rs, n, c)
    ensures c in Product(rs, n)
  {
    if n > 0 {
      CombinationTail(rs, n, c);
      ProductComplete(rs, n - 1, c[1..]);
      ExtendHas(rs, Product(rs, n - 1), c[0], c[1..]);
    } else {
      assert c == [];
    }
  }

  /** The order of `itertools.product`: entry `i * |rs|^(n-1) + j` is region `i` in front of
      entry `j` of the product one position shorter */
  lemma {:induction false} ProductAt(rs: seq<Region>, n: nat, i: nat, j: nat)
    requires n > 0 && i < |rs| && j < Pow(|rs|, n - 1)
    ensures |Product(rs, n - 1)| == Pow(|rs|, n - 1)
    ensures i * Pow(|rs|, n - 1) + j < |Product(rs, n)|
    ensures Product(rs, n)[i * Pow(|rs|, n - 1) + j] == [rs[i]] + Product(rs, n - 1)[j]
  {
    ProductCount(rs, n - 1);
    ExtendAt(rs, Product(rs, n - 1), i, j);
  }

  /** With distinct regions, no combination is listed twice */
  lemma {:induction false} ProductDistinct(rs: seq<Region>, n: nat)
    requires Distinct(rs)
    ensures Distinct(Product(rs, n))
  {
    if n > 0 {
      ProductDistinct(rs, n - 1);
      ExtendDistinct(rs, Product(rs, n - 1));
    }
  }

  lemma {:induction false} ExtendDistinct(rs: seq<Region>, cs: seq<seq<Region>>)
    requires Distinct(rs) && Distinct(cs)
    ensures Distinct(Extend(rs, cs))
  {
    if rs != [] {
      var front, back := Prepend(rs[0], cs), Extend(rs[1..], cs);
      assert Distinct(rs[1..]) by {
        forall i, j | 0 <= i < j < |rs| - 1 ensures rs[1..][i] != rs[1..][j] {
          assert rs[1..][i] == rs[i + 1] && rs[1..][j] == rs[j + 1];
        }
      }
      ExtendDistinct(rs[1..], cs);
      ExtendSound(rs[1..], cs);
      var ps := front + back;
      assert ps == Extend(rs, cs);
      forall i, j | 0 <= i < j < |ps| ensures ps[i] != ps[j] {
        if j < |front| {
          assert ps[i] == [rs[0]] + cs[i] && ps[j] == [rs[0]] + cs[j];
          assert ps[i][1..] == cs[i] && ps[j][1..] == cs[j];
        } else if i >= |front| {
          assert ps[i] == back[i - |front|] && ps[j] == back[j - |front|];
        } else {
          assert ps[i][0] == rs[0];
          assert ps[j] == back[j - |front|];
          var k :| 1 <= k < |rs| && rs[k] == ps[j][0] by {
            assert ps[j][0] in rs[1..];
          }
        }
      }
    }
  }

  /** A sourcing plan: one item per material, in the materials' order, each from a listed region */
  ghost predicate IsPlan(rs: seq<Region>, ms: seq<Material>, a: Action) {
    |a| == |ms| && forall i | 0 <= i < |a| :: a[i].material == ms[i] && a[i].region in rs
  }

  /** `{materials[i]: combo[i] for i in range(len(materials))}` */
  function PlanOf(ms: seq<Material>, c: seq<Region>): (a: Action)
    requires |c| == |ms|
  {
    seq(|ms|, i requires 0 <= i < |ms| => Assignment(ms[i], c[i]))
  }

  /** The plan of a combination is its first assignment in front of the plan of the rest */
  lemma {:induction false} PlanOfCons(ms: seq<Material>, x: Region, c: seq<Region>)
    requires |ms| > 0 && |c| == |ms| - 1
    ensures PlanOf(ms, [x] + c) == [Assignment(ms[0], x)] + PlanOf(ms[1..], c)
  {
    var l, r := PlanOf(ms, [x] + c), [Assignment(ms[0], x)] + PlanOf(ms[1..], c);
    forall k | 0 <= k < |ms| ensures l[k] == r[k] {
      if k > 0 {
        assert ([x] + c)[k] == c[k - 1] && ms[k] == ms[1..][k - 1];
      }
    }
  }

  /** The action space: one plan per entry of the product, in product order */
  function Plans(rs: seq<Region>, ms: seq<Material>): (acts: seq<Action>)
    ensures |acts| == |Product(rs, |ms|)|
  {
    var cs := Product(rs, |ms|);
    ProductLengths(rs, |ms|);
    seq(|cs|, k requires 0 <= k < |cs| => PlanOf(ms, cs[k]))
  }

  /** Entry `k` of the action space is the plan of entry `k` of the product */
  lemma {:induction false} PlansEntry(rs: seq<Region>, ms: seq<Material>, k: nat)
    requires k < |Product(rs, |ms|)|
    ensures |Product(rs, |ms|)[k]| == |ms| && Plans(rs, ms)[k] == PlanOf(ms, Product(rs, |ms|)[k])
  {
    ProductLengths(rs, |ms|);
  }

  /** The action space holds |regions|^|materials| plans */
  lemma {:induction false} PlansCount(rs: seq<Region>, ms: seq<Material>)
    ensures |Plans(rs, ms)| == Pow(|rs|, |ms|)
  {
    ProductCount(rs, |ms|);
  }

  /** Every entry of the action space is a plan */
  lemma {:induction false} PlansSound(rs: seq<Region>, ms: seq<Material>)
    ensures forall k | 0 <= k < |Plans(rs, ms)| :: IsPlan(rs, ms, Plans(rs, ms)[k])
  {
    var cs := Product(rs, |ms|);
    ProductSound(rs, |ms|);
    forall k | 0 <= k < |cs| ensures IsPlan(rs, ms, Plans(rs, ms)[k]) {
      assert cs[k] in cs && Combination(rs, |ms|, cs[k]);
    }
  }

  /** Every plan is an entry of the action space */
  lemma {:induction false} PlansComplete(rs: seq<Region>, ms: seq<Material>, a: Action)
    requires IsPlan(rs, ms, a)
    ensures a in Plans(rs, ms)
  {
    var c := seq(|a|, i requires 0 <= i < |a| => a[i].region);
    ProductComplete(rs, |ms|, c);
    var cs := Product(rs, |ms|);
    var k :| 0 <= k < |cs| && cs[k] == c;
    assert Plans(rs, ms)[k] == a;
  }

  /** `itertools.product` order: the first material varies slowest, each position running
      through the regions in order */
  lemma {:induction false} PlansAt(rs: seq<Region>, ms: seq<Material>, i: nat, j: nat)
    requires |ms| > 0 && i < |rs| && j < Pow(|rs|, |ms| - 1)
    ensures |Plans(rs, ms[1..])| == Pow(|rs|, |ms| - 1)
    ensures i * Pow(|rs|, |ms| - 1) + j < |Plans(rs, ms)|
    ensures Plans(rs, ms)[i * Pow(|rs|, |ms| - 1) + j] == [Assignment(ms[0], rs[i])] + Plans(rs, ms[1..])[j]
  {
    PlansAtBounds(rs, ms, i, j);
    ProductAt(rs, |ms|, i, j);
    PlanAtProductEntry(rs, ms, i, j, i * Pow(|rs|, |ms| - 1) + j);
  }

  lemma {:induction false} PlansAtBounds(rs: seq<Region>, ms: seq<Material>, i: nat, j: nat)
    requires |ms| > 0 && i < |rs| && j < Pow(|rs|, |ms| - 1)
    ensures |Plans(rs, ms[1..])| == Pow(|rs|, |ms| - 1)
    ensures i * Pow(|rs|, |ms| - 1) + j < |Plans(rs, ms)|
  {
    ProductAt(rs, |ms|, i, j);
    assert |ms[1..]| == |ms| - 1;
  }

  /** When entry `k` of the product is region `i` in front of entry `j` of the shorter product,
      plan `k` is material 0 at region `i` in front of plan `j` of the remaining materials */
  lemma {:induction false} PlanAtProductEntry(rs: seq<Region>, ms: seq<Material>, i: nat, j: nat, k: nat)
    requires |ms| > 0 && i < |rs|
    requires j < |Product(rs, |ms| - 1)| && k < |Product(rs, |ms|)|
    requires Product(rs, |ms|)[k] == [rs[i]] + Product(rs, |ms| - 1)[j]
    ensures Plans(rs, ms)[k] == [Assignment(ms[0], rs[i])] + Plans(rs, ms[1..])[j]
  {
    var ms' := ms[1..];
    assert |ms'| == |ms| - 1;
    var c := Product(rs, |ms| - 1)[j];
    PlansEntry(rs, ms', j);
    PlansEntry(rs, ms, k);
    PlanOfCons(ms, rs[i], c);
  }

  /** With distinct regions, no plan is listed twice */
  lemma {:induction false} PlansDistinct(rs: seq<Region>, ms: seq<Material>)
    requires Distinct(rs)
    ensures Distinct(Plans(rs, ms))
  {
    var cs := Product(rs, |ms|);
    ProductDistinct(rs, |ms|);
    ProductSound(rs, |ms|);
    var acts: seq<Action> := Plans(rs, ms);
    forall i, j | 0 <= i < j < |acts| ensures acts[i] != acts[j] {
      assert cs[i] in cs && cs[j] in cs;
      assert cs[i] != cs[j];
      var l :| 0 <= l < |ms| && cs[i][l] != cs[j][l];
      assert acts[i][l].region != acts[j][l].region;
    }
  }

  // Scoring and the stable argmin

  /** The weight of the forecast in the decision metric */
  const ForecastWeight: real := 0.1

  /** Lines with reliability below this are risky when they serve several materials */
  const ReliabilityThreshold: real := 0.98

  /** Every declared material can be priced from every declared region, and both lists are
      free of repeats */
  ghost predicate Ready(mk: Market) {
    && Distinct(mk.materials)
    && Distinct(mk.regions)
    && Complete(mk)
  }

  /** The forecast has a value for every declared (region, material) pair */
  ghost predicate Covers(f: Table, mk: Market) {
    forall r, m | r in mk.regions && m in mk.materials :: r in f && m in f[r]
  }

  /** `calculate_cost(a, apply_disruptions=False)`'s total */
  function Cost(mk: Market, a: Action): (c: real)
    requires forall i | 0 <= i < |a| :: Priced(mk, a[i].region, a[i].material)
    ensures Evaluate(mk, a, {}).Ok? && c == Evaluate(mk, a, {}).value.total
  {
    EvaluateErrors(mk, a, {});
    Evaluate(mk, a, {}).value.total
  }

  /** Every item of a plan can be priced */
  lemma {:induction false} PlanPriced(mk: Market, a: Action)
    requires Complete(mk) && IsPlan(mk.regions, mk.materials, a)
    ensures forall i | 0 <= i < |a| :: Priced(mk, a[i].region, a[i].material)
  {
    forall i | 0 <= i < |a| ensures Priced(mk, a[i].region, a[i].material) {
      assert a[i].material == mk.materials[i];
    }
  }

  /** The forecast has a value for every item of a plan */
  lemma {:induction false} PlanCovered(f: Table, mk: Market, a: Action)
    requires Covers(f, mk) && IsPlan(mk.regions, mk.materials, a)
    ensures forall i | 0 <= i < |a| :: a[i].region in f && a[i].material in f[a[i].region]
  {
    forall i | 0 <= i < |a| ensures a[i].region in f && a[i].material in f[a[i].region] {
      assert a[i].material == mk.materials[i];
      assert a[i].region in mk.regions && a[i].material in mk.materials;
    }
  }

  /** `sum(forecasted[action[mat]][mat] for mat in action)` */
  function FutureCost(f: Table, a: Action): real
    requires forall i | 0 <= i < |a| :: a[i].region in f && a[i].material in f[a[i].region]
  {
    if a == [] then 0.0
    else
      var n := |a| - 1;
      assert forall i | 0 <= i < n :: a[..n][i] == a[i];
      FutureCost(f, a[..n]) + f[a[n].region][a[n].material]
  }

  /** Under the zero forecast every plan's future cost is zero */
  lemma {:induction false} FutureCostZero(f: Table, a: Action)
    requires forall i | 0 <= i < |a| :: a[i].region in f && a[i].material in f[a[i].region]
    requires forall i | 0 <= i < |a| :: f[a[i].region][a[i].material] == 0.0
    ensures FutureCost(f, a) == 0.0
  {
    if a != [] {
      var n := |a| - 1;
      assert forall i | 0 <= i < n :: a[..n][i] == a[i];
      FutureCostZero(f, a[..n]);
    }
  }

  /** A plan can be scored: it is a plan and the forecast covers it */
  ghost predicate Scorable(mk: Market, f: Table, a: Action) {
    Ready(mk) && Covers(f, mk) && IsPlan(mk.regions, mk.materials, a)
  }

  /** `cost + 0.1 * future_cost` */
  function Metric(mk: Market, f: Table, a: Action): real
    requires Scorable(mk, f, a)
  {
    PlanPriced(mk, a);
    PlanCovered(f, mk, a);
    Cost(mk, a) + ForecastWeight * FutureCost(f, a)
  }

  /** The metric of every entry of an action space */
  function Metrics(mk: Market, f: Table, acts: seq<Action>): (ms: seq<real>)
    requires forall k | 0 <= k < |acts| :: Scorable(mk, f, acts[k])
    ensures |ms| == |acts|
  {
    seq(|acts|, k requires 0 <= k < |acts| => Metric(mk, f, acts[k]))
  }

  /** The index a running minimum with a strict `<` ends on: the first minimal entry */
  function FirstArgMin(xs: seq<real>): (k: nat)
    requires |xs| > 0
    ensures k < |xs|
    ensures forall j | 0 <= j < |xs| :: xs[k] <= xs[j]
    ensures forall j | 0 <= j < k :: xs[k] < xs[j]
  {
    if |xs| == 1 then 0
    else
      var n := |xs| - 1;
      var k := FirstArgMin(xs[..n]);
      assert forall j | 0 <= j < n :: xs[..n][j] == xs[j];
      if xs[n] < xs[k] then n else k
  }

  /** Extending the scores by one: the new entry wins only when strictly smaller */
  lemma {:induction false} FirstArgMinNext(xs: seq<real>, n: nat)
    requires n < |xs|
    ensures n == 0 ==> FirstArgMin(xs[..n + 1]) == 0
    ensures n > 0 ==>
      FirstArgMin(xs[..n + 1]) == if xs[n] < xs[FirstArgMin(xs[..n])] then n else FirstArgMin(xs[..n])
  {
    assert xs[..n + 1][..n] == xs[..n];
    if n > 0 {
      assert xs[..n + 1][n] == xs[n];
      assert xs[..n][FirstArgMin(xs[..n])] == xs[FirstArgMin(xs[..n])];
    }
  }

  /** Appending one score: it becomes the first minimum exactly when it is strictly below the old one */
  lemma {:induction false} FirstArgMinSnoc(xs: seq<real>, x: real)
    ensures FirstArgMin(xs + [x]) == if xs == [] || x < xs[FirstArgMin(xs)] then |xs| else FirstArgMin(xs)
  {
    var ys := xs + [x];
    FirstArgMinNext(ys, |xs|);
    assert ys[..|xs| + 1] == ys;
    assert ys[..|xs|] == xs;
  }

  /** One step of a running minimum that starts at infinity and replaces on a strict `<` */
  lemma {:induction false} RunningMinStep(xs: seq<real>, i: nat, found: Option<nat>, least: real, x: real)
    requires i < |xs| && x == xs[i]
    requires found.None? <==> i == 0
    requires found.Some? ==> found.value == FirstArgMin(xs[..i]) && least == xs[found.value]
    ensures var taken := found.None? || x < least;
      var found' := if taken then Some(i) else found;
      found'.Some? && found'.value == FirstArgMin(xs[..i + 1]) && xs[found'.value] == if taken then x else least
  {
    FirstArgMinNext(xs, i);
  }

  // The repair

  /** `count > 1 and region_data[region]['reliability'] < 0.98` */
  ghost predicate Risky(mk: Market, count: map<Region, nat>, r: Region) {
    r in count && r in mk.regionData && count[r] > 1 && mk.regionData[r].reliability < ReliabilityThreshold
  }

  /** The first risky key of the counting dictionary, in its key order */
  function FirstRisky(mk: Market, keys: seq<Region>, count: map<Region, nat>): (r: Option<Region>)
    requires Elems(keys) <= count.Keys && Elems(keys) <= mk.regionData.Keys
    ensures r.None? ==> forall i | 0 <= i < |keys| :: !Risky(mk, count, keys[i])
    ensures r.Some? ==> exists i | 0 <= i < |keys| ::
      && keys[i] == r.value && Risky(mk, count, r.value)
      && forall j | 0 <= j < i :: !Risky(mk, count, keys[j])
  {
    if keys == [] then None
    else if count[keys[0]] > 1 && mk.regionData[keys[0]].reliability < ReliabilityThreshold then Some(keys[0])
    else
      var r := FirstRisky(mk, keys[1..], count);
      assert forall i | 0 <= i < |keys| - 1 :: keys[1..][i] == keys[i + 1];
      assert r.Some? ==> exists i | 0 <= i < |keys| ::
        && keys[i] == r.value && Risky(mk, count, r.value)
        && forall j | 0 <= j < i :: !Risky(mk, count, keys[j]) by {
        if r.Some? {
          var i :| 0 <= i < |keys| - 1 && keys[1..][i] == r.value && Risky(mk, count, r.value)
            && forall j | 0 <= j < i :: !Risky(mk, count, keys[1..][j]);
          assert keys[i + 1] == r.value;
          forall j | 0 <= j < i + 1 ensures !Risky(mk, count, keys[j]) {
            if j > 0 {
              assert keys[j] == keys[1..][j - 1];
            }
          }
        }
      }
      r
  }

  /** A candidate of the repair: move item `index` to region `alt` */
  datatype Move = Move(index: nat, alt: Region)

  /** The moves of item `i` to every region of `rs` other than `region`, in region order */
  function AltsFor(i: nat, region: Region, rs: seq<Region>): seq<Move> {
    if rs == [] then []
    else
      var n := |rs| - 1;
      AltsFor(i, region, rs[..n]) + (if rs[n] != region then [Move(i, rs[n])] else [])
  }

  /** The candidate moves away from `region`, items in action order and, for each item, regions
      in `rs` order */
  function Moves(a: Action, region: Region, rs: seq<Region>): seq<Move> {
    if a == [] then []
    else
      var n := |a| - 1;
      Moves(a[..n], region, rs) + (if a[n].region == region then AltsFor(n, region, rs) else [])
  }

  lemma AppendAssoc<T>(x: seq<T>, y: seq<T>, z: seq<T>)
    ensures (x + y) + z == x + (y + z)
  {
  }

  lemma {:induction false} AltsForNext(i: nat, region: Region, rs: seq<Region>, j: nat)
    requires j < |rs|
    ensures AltsFor(i, region, rs[..j + 1]) ==
      AltsFor(i, region, rs[..j]) + (if rs[j] != region then [Move(i, rs[j])] else [])
  {
    assert rs[..j + 1][..j] == rs[..j];
  }

  lemma {:induction false} MovesNext(a: Action, region: Region, rs: seq<Region>, i: nat)
    requires i < |a|
    ensures Moves(a[..i + 1], region, rs) ==
      Moves(a[..i], region, rs) + (if a[i].region == region then AltsFor(i, region, rs) else [])
  {
    assert a[..i + 1][..i] == a[..i];
  }

  lemma {:induction false} AltsForMeaning(i: nat, region: Region, rs: seq<Region>)
    ensures forall m :: m in AltsFor(i, region, rs) <==> m.index == i && m.alt in rs && m.alt != region
  {
    if rs != [] {
      var n := |rs| - 1;
      AltsForMeaning(i, region, rs[..n]);
      assert rs == rs[..n] + [rs[n]];
    }
  }

  /** The candidate moves are exactly the moves of an item bought from `region` to another
      listed region */
  lemma {:induction false} MovesMeaning(a: Action, region: Region, rs: seq<Region>)
    ensures forall m :: m in Moves(a, region, rs) <==>
      m.index < |a| && a[m.index].region == region && m.alt in rs && m.alt != region
  {
    if a != [] {
      var n := |a| - 1;
      MovesMeaning(a[..n], region, rs);
      AltsForMeaning(n, region, rs);
    }
  }

  /** The position of a listed region: the first index at which it is listed */
  function Pos(rs: seq<Region>, x: Region): (p: nat)
    requires x in rs
    ensures p < |rs| && rs[p] == x
    ensures forall j | 0 <= j < p :: rs[j] != x
  {
    if rs[0] == x then 0
    else
      var p := Pos(rs[1..], x);
      assert forall j | 1 <= j < p + 1 :: rs[j] == rs[1..][j - 1];
      1 + p
  }

  /** In a list without repeats, each region's position is its index */
  lemma PosOfDistinct(rs: seq<Region>, j: nat)
    requires Distinct(rs) && j < |rs|
    ensures Pos(rs, rs[j]) == j
  {
  }

  /** Candidate `m` is tried before `m'`: an earlier item, or the same item and a region listed
      earlier */
  ghost predicate Before(rs: seq<Region>, m: Move, m': Move) {
    && m.alt in rs && m'.alt in rs
    && (m.index < m'.index || (m.index == m'.index && Pos(rs, m.alt) < Pos(rs, m'.alt)))
  }

  /** The candidates of one item over the first `n` listed regions are in region order, each
      at a position below `n` */
  lemma {:induction false} AltsForOrdered(i: nat, region: Region, rs: seq<Region>, n: nat)
    requires Distinct(rs) && n <= |rs|
    ensures forall p | 0 <= p < |AltsFor(i, region, rs[..n])| ::
      var m := AltsFor(i, region, rs[..n])[p];
      m.index == i && m.alt in rs && Pos(rs, m.alt) < n
    ensures forall p, q | 0 <= p < q < |AltsFor(i, region, rs[..n])| ::
      Before(rs, AltsFor(i, region, rs[..n])[p], AltsFor(i, region, rs[..n])[q])
  {
    if n > 0 {
      AltsForOrdered(i, region, rs, n - 1);
      assert rs[..n][..n - 1] == rs[..n - 1];
      PosOfDistinct(rs, n - 1);
      var front, all := AltsFor(i, region, rs[..n - 1]), AltsFor(i, region, rs[..n]);
      assert all == front + (if rs[n - 1] != region then [Move(i, rs[n - 1])] else []);
      forall p | 0 <= p < |all| ensures all[p].index == i && all[p].alt in rs && Pos(rs, all[p].alt) < n {
        if p < |front| {
          assert all[p] == front[p];
        }
      }
      forall p, q | 0 <= p < q < |all| ensures Before(rs, all[p], all[q]) {
        if q < |front| {
          assert all[p] == front[p] && all[q] == front[q];
        } else {
          assert all[p] == front[p] && all[q] == Move(i, rs[n - 1]);
        }
      }
    }
  }

  /** Every candidate moves an item bought from `region` to another listed region */
  lemma {:induction false} MovesListed(a: Action, region: Region, rs: seq<Region>)
    ensures forall k | 0 <= k < |Moves(a, region, rs)| ::
      var m := Moves(a, region, rs)[k];
      m.index < |a| && a[m.index].region == region && m.alt in rs && m.alt != region
  {
    MovesMeaning(a, region, rs);
    var cands := Moves(a, region, rs);
    assert forall k | 0 <= k < |cands| :: cands[k] in cands;
  }

  /** With distinct regions the candidates are listed in the order the repair's loops try
      them: by item, then by region */
  lemma {:induction false} MovesTried(a: Action, region: Region, rs: seq<Region>)
    requires Distinct(rs)
    ensures forall p, q | 0 <= p < q < |Moves(a, region, rs)| ::
      Before(rs, Moves(a, region, rs)[p], Moves(a, region, rs)[q])
  {
    if a != [] {
      var n := |a| - 1;
      MovesTried(a[..n], region, rs);
      MovesListed(a[..n], region, rs);
      var front, ms := Moves(a[..n], region, rs), Moves(a, region, rs);
      if a[n].region == region {
        var back := AltsFor(n, region, rs);
        AltsForOrdered(n, region, rs, |rs|);
        assert rs[..|rs|] == rs;
        assert ms == front + back;
        forall p, q | 0 <= p < q < |ms| ensures Before(rs, ms[p], ms[q]) {
          if q < |front| {
            assert ms[p] == front[p] && ms[q] == front[q];
          } else if p < |front| {
            assert ms[p] == front[p] && ms[q] == back[q - |front|];
          } else {
            assert ms[p] == back[p - |front|] && ms[q] == back[q - |front|];
          }
        }
      } else {
        assert ms == front + [];
      }
    }
  }

  /** No candidate is tried before itself, and of two candidates at most one is tried first */
  lemma BeforeAsymmetric(rs: seq<Region>, m: Move, m': Move)
    ensures !Before(rs, m, m)
    ensures !(Before(rs, m, m') && Before(rs, m', m))
  {
  }

  /** In a list in try order, the first least entry is strictly below every entry tried
      before it */
  lemma EarlierDearer(rs: seq<Region>, cands: seq<Move>, xs: seq<real>, k: nat)
    requires |xs| == |cands| && k < |cands|
    requires forall j | 0 <= j < k :: xs[k] < xs[j]
    requires forall p, q | 0 <= p < q < |cands| :: Before(rs, cands[p], cands[q])
    ensures forall p | 0 <= p < |cands| && Before(rs, cands[p], cands[k]) :: xs[k] < xs[p]
  {
    forall p | 0 <= p < |cands| && Before(rs, cands[p], cands[k]) ensures xs[k] < xs[p] {
      // `cands[k]` is not tried before itself, nor before a candidate tried after it
      BeforeAsymmetric(rs, cands[p], cands[k]);
    }
  }

  /** The first candidate of least extra cost is no dearer than any candidate, and strictly
      cheaper than every candidate tried before it */
  lemma {:induction false} CheapestCandidate(mk: Market, a: Action, region: Region, cands: seq<Move>, xs: seq<real>)
    requires Ready(mk) && IsPlan(mk.regions, mk.materials, a)
    requires cands == Moves(a, region, mk.regions) && cands != []
    requires forall k | 0 <= k < |cands| :: cands[k].index < |a| && cands[k].alt in mk.regions
    requires xs == Extras(mk, a, cands)
    ensures var b := cands[FirstArgMin(xs)];
      && b.index < |a| && a[b.index].region == region && b.alt in mk.regions && b.alt != region
      && (forall m: Move | m.index < |a| && a[m.index].region == region && m.alt in mk.regions && m.alt != region ::
            ExtraCost(mk, a, b) <= ExtraCost(mk, a, m))
      && (forall m: Move | m.index < |a| && a[m.index].region == region && m.alt in mk.regions && m.alt != region
                         && Before(mk.regions, m, b) ::
            ExtraCost(mk, a, b) < ExtraCost(mk, a, m))
  {
    var k := FirstArgMin(xs);
    var b := cands[k];
    MovesTried(a, region, mk.regions);
    EarlierDearer(mk.regions, cands, xs, k);
    ListedCandidate(a, region, mk.regions, b);
    forall m: Move | m.index < |a| && a[m.index].region == region && m.alt in mk.regions && m.alt != region
      ensures xs[k] <= ExtraCost(mk, a, m)
      ensures Before(mk.regions, m, b) ==> xs[k] < ExtraCost(mk, a, m)
    {
      var p := CandidateAt(a, region, mk.regions, m);
      assert xs[p] == ExtraCost(mk, a, m);
    }
  }

  /** Every candidate is listed */
  lemma CandidateAt(a: Action, region: Region, rs: seq<Region>, m: Move) returns (p: nat)
    requires m.index < |a| && a[m.index].region == region && m.alt in rs && m.alt != region
    ensures p < |Moves(a, region, rs)| && Moves(a, region, rs)[p] == m
  {
    MovesMeaning(a, region, rs);
    assert m in Moves(a, region, rs);
    p :| 0 <= p < |Moves(a, region, rs)| && Moves(a, region, rs)[p] == m;
  }

  /** Every listed move is a candidate */
  lemma ListedCandidate(a: Action, region: Region, rs: seq<Region>, m: Move)
    requires m in Moves(a, region, rs)
    ensures m.index < |a| && a[m.index].region == region && m.alt in rs && m.alt != region
  {
    MovesMeaning(a, region, rs);
  }

  /** The candidates are in item order */
  lemma {:induction false} MovesOrdered(a: Action, region: Region, rs: seq<Region>)
    ensures forall p, q | 0 <= p < q < |Moves(a, region, rs)| ::
      Moves(a, region, rs)[p].index <= Moves(a, region, rs)[q].index
  {
    if a != [] {
      var n := |a| - 1;
      MovesOrdered(a[..n], region, rs);
      MovesMeaning(a[..n], region, rs);
      AltsForMeaning(n, region, rs);
      var front, ms := Moves(a[..n], region, rs), Moves(a, region, rs);
      forall p, q | 0 <= p < q < |ms| ensures ms[p].index <= ms[q].index {
        if q >= |front| {
          assert ms[q] in AltsFor(n, region, rs);
          if p < |front| {
            assert ms[p] == front[p] && front[p] in front;
          } else {
            assert ms[p] in AltsFor(n, region, rs);
          }
        }
      }
    }
  }

  /** `a` with item `m.index` bought from `m.alt` instead */
  function Moved(a: Action, m: Move): (b: Action)
    requires m.index < |a|
    ensures |b| == |a|
    ensures forall i | 0 <= i < |a| :: b[i] == if i == m.index then Assignment(a[i].material, m.alt) else a[i]
  {
    a[m.index := Assignment(a[m.index].material, m.alt)]
  }

  /** Moving the item back to the region it came from restores the plan; a second move of the
      same item overrides the first */
  lemma {:induction false} MovedBack(a: Action, m: Move, alt: Region)
    requires m.index < |a|
    ensures Moved(Moved(a, m), Move(m.index, a[m.index].region)) == a
    ensures Moved(Moved(a, m), Move(m.index, alt)) == Moved(a, Move(m.index, alt))
  {
    var b := Moved(a, m);
    assert forall i | 0 <= i < |a| :: Moved(b, Move(m.index, a[m.index].region))[i] == a[i];
  }

  /** A move away from the risky region keeps a plan a plan */
  lemma {:induction false} MovedPlan(rs: seq<Region>, ms: seq<Material>, a: Action, m: Move)
    requires IsPlan(rs, ms, a) && m.index < |a| && m.alt in rs
    ensures IsPlan(rs, ms, Moved(a, m))
  {
  }

  /** `alt_cost - orig_cost`: what moving one item adds to the cost without disruptions */
  function ExtraCost(mk: Market, a: Action, m: Move): real
    requires Ready(mk) && IsPlan(mk.regions, mk.materials, a) && m.index < |a| && m.alt in mk.regions
  {
    MovedPlan(mk.regions, mk.materials, a, m);
    PlanPriced(mk, a);
    PlanPriced(mk, Moved(a, m));
    Cost(mk, Moved(a, m)) - Cost(mk, a)
  }

  /** The extra cost of every candidate */
  function Extras(mk: Market, a: Action, cands: seq<Move>): (xs: seq<real>)
    requires Ready(mk) && IsPlan(mk.regions, mk.materials, a)
    requires forall k | 0 <= k < |cands| :: cands[k].index < |a| && cands[k].alt in mk.regions
    ensures |xs| == |cands|
  {
    seq(|cands|, k requires 0 <= k < |cands| => ExtraCost(mk, a, cands[k]))
  }

  /** Scoring one more candidate appends its extra cost */
  lemma {:induction false} ExtrasSnoc(mk: Market, a: Action, cands: seq<Move>, m: Move)
    requires Ready(mk) && IsPlan(mk.regions, mk.materials, a)
    requires forall k | 0 <= k < |cands| :: cands[k].index < |a| && cands[k].alt in mk.regions
    requires m.index < |a| && m.alt in mk.regions
    ensures Extras(mk, a, cands + [m]) == Extras(mk, a, cands) + [ExtraCost(mk, a, m)]
  {
    var cands' := cands + [m];
    assert forall k | 0 <= k < |cands| :: cands'[k] == cands[k];
  }

  /** The move the repair picks: the candidate of least extra cost; among equally cheap
      candidates, the one tried first (earliest item, then earliest listed region) */
  function BestMove(mk: Market, a: Action, region: Region): (r: Option<Move>)
    requires Ready(mk) && IsPlan(mk.regions, mk.materials, a)
    ensures r.None? ==> forall i, alt | 0 <= i < |a| && a[i].region == region && alt in mk.regions :: alt == region
    ensures r.Some? ==>
      && r.value.index < |a| && a[r.value.index].region == region
      && r.value.alt in mk.regions && r.value.alt != region
    ensures r.Some? ==> forall m: Move | m.index < |a| && a[m.index].region == region && m.alt in mk.regions && m.alt != region ::
      ExtraCost(mk, a, r.value) <= ExtraCost(mk, a, m)
    ensures r.Some? ==> forall m: Move | m.index < |a| && a[m.index].region == region && m.alt in mk.regions && m.alt != region
                                        && Before(mk.regions, m, r.value) ::
      ExtraCost(mk, a, r.value) < ExtraCost(mk, a, m)
  {
    var cands := Moves(a, region, mk.regions);
    MovesListed(a, region, mk.regions);
    if cands == [] then
      assert forall i, alt | 0 <= i < |a| && a[i].region == region && alt in mk.regions :: alt == region by {
        MovesMeaning(a, region, mk.regions);
        forall i, alt | 0 <= i < |a| && a[i].region == region && alt in mk.regions ensures alt == region {
          assert Move(i, alt) !in cands;
        }
      }
      None
    else
      var xs := Extras(mk, a, cands);
      CheapestCandidate(mk, a, region, cands, xs);
      Some(cands[FirstArgMin(xs)])
  }

  /** An item bought from a region that serves several materials and whose reliability is
      below the threshold */
  ghost predicate Overloaded(mk: Market, a: Action, r: Region) {
    Occurrences(a, r) > 1 && r in mk.regionData && mk.regionData[r].reliability < ReliabilityThreshold
  }

  /** What `decide_action`'s repair pass returns: the action, `adjusted` and `risky_region` */
  datatype Repaired = Repaired(action: Action, adjusted: bool, risky: Option<Region>)

  /** Every region a plan uses has reference data */
  lemma {:induction false} PlanRegionsListed(mk: Market, a: Action)
    requires Complete(mk) && IsPlan(mk.regions, mk.materials, a)
    ensures RegionsUsed(a) <= mk.regionData.Keys
  {
    PlanPriced(mk, a);
    forall r | r in RegionsUsed(a) ensures r in mk.regionData {
      RegionsUsedIndexed(a, r);
    }
  }

  lemma {:induction false} RegionsUsedIndexed(a: Action, r: Region)
    requires r in RegionsUsed(a)
    ensures exists i | 0 <= i < |a| :: a[i].region == r
  {
    var i := FirstOccurrence(a, r);
  }

  /** The repair pass: find the first risky region of the counting dictionary, then move the
      one item whose move away from it costs least, unless that item's material name is empty */
  function Repair(mk: Market, a: Action): Repaired
    requires Ready(mk) && IsPlan(mk.regions, mk.materials, a)
  {
    TallyKeys(a);
    PlanRegionsListed(mk, a);
    var t := Tally(a);
    match FirstRisky(mk, t.keys, t.count)
    case None => Repaired(a, false, None)
    case Some(region) =>
      match BestMove(mk, a, region)
      case None => Repaired(a, false, Some(region))
      case Some(m) =>
        if a[m.index].material != "" then Repaired(Moved(a, m), true, Some(region))
        else Repaired(a, false, Some(region))
  }

  /** What the repair returns: a plan, unchanged unless adjusted, and a risky region that is
      one of the listed regions */
  lemma {:induction false} RepairShape(mk: Market, a: Action)
    requires Ready(mk) && IsPlan(mk.regions, mk.materials, a)
    ensures var r := Repair(mk, a);
      && IsPlan(mk.regions, mk.materials, r.action)
      && (r.risky.Some? ==> r.risky.value in mk.regions)
      && (!r.adjusted ==> r.action == a)
      && (r.adjusted ==> r.risky.Some?)
  {
    TallyKeys(a);
    PlanRegionsListed(mk, a);
    var t := Tally(a);
    match FirstRisky(mk, t.keys, t.count)
    case None =>
    case Some(region) =>
      assert region in RegionsUsed(a);
      RegionsUsedIndexed(a, region);
      match BestMove(mk, a, region)
      case None =>
      case Some(m) =>
        MovedPlan(mk.regions, mk.materials, a, m);
  }

  /** When adjusted, exactly one item moved, from the risky region to another listed region,
      and no other such move costs less */
  lemma {:induction false} RepairOneMove(mk: Market, a: Action)
    requires Ready(mk) && IsPlan(mk.regions, mk.materials, a)
    ensures var r := Repair(mk, a);
      r.adjusted ==> r.risky.Some? && exists m: Move | m.index < |a| ::
        && r.action == Moved(a, m)
        && a[m.index].region == r.risky.value && m.alt in mk.regions && m.alt != r.risky.value
        && (forall m': Move | m'.index < |a| && a[m'.index].region == r.risky.value && m'.alt in mk.regions && m'.alt != r.risky.value ::
              ExtraCost(mk, a, m) <= ExtraCost(mk, a, m'))
        && (forall m': Move | m'.index < |a| && a[m'.index].region == r.risky.value && m'.alt in mk.regions && m'.alt != r.risky.value
                             && Before(mk.regions, m', m) ::
              ExtraCost(mk, a, m) < ExtraCost(mk, a, m'))
  {
    var r := Repair(mk, a);
    RepairTakesBest(mk, a);
    if r.adjusted {
      var m := BestMove(mk, a, r.risky.value).value;
      assert r.action == Moved(a, m);
    }
  }

  /** When adjusted, the move made is the one `BestMove` picks for the risky region */
  lemma {:induction false} RepairTakesBest(mk: Market, a: Action)
    requires Ready(mk) && IsPlan(mk.regions, mk.materials, a)
    ensures var r := Repair(mk, a);
      r.adjusted ==>
        && r.risky.Some? && BestMove(mk, a, r.risky.value).Some?
        && r.action == Moved(a, BestMove(mk, a, r.risky.value).value)
  {
    TallyKeys(a);
    PlanRegionsListed(mk, a);
  }

  /** The repair adjusts exactly when a risky region was found, another region is listed, and
      the cheapest move's item has a material: with another region listed a move always
      exists, and only an empty material name blocks it */
  lemma {:induction false} RepairAdjusts(mk: Market, a: Action)
    requires Ready(mk) && IsPlan(mk.regions, mk.materials, a)
    ensures var r := Repair(mk, a);
      r.adjusted ==> r.risky.Some? && exists x | x in mk.regions :: x != r.risky.value
    ensures var r := Repair(mk, a);
      r.risky.Some? && (exists x | x in mk.regions :: x != r.risky.value) ==>
        && BestMove(mk, a, r.risky.value).Some?
        && (r.adjusted <==> a[BestMove(mk, a, r.risky.value).value.index].material != "")
  {
    TallyKeys(a);
    PlanRegionsListed(mk, a);
    var t := Tally(a);
    var r := Repair(mk, a);
    RepairOneMove(mk, a);
    if r.risky.Some? && exists x | x in mk.regions :: x != r.risky.value {
      var region := FirstRisky(mk, t.keys, t.count).value;
      assert region in RegionsUsed(a);
      var i := FirstOccurrence(a, region);
      var x :| x in mk.regions && x != r.risky.value;
      assert BestMove(mk, a, region).Some? by {
        assert a[i].region == region && x in mk.regions && x != region;
      }
    }
  }

  /** With a single listed region there is nowhere to move to: the repair never adjusts */
  lemma {:induction false} RepairSingleRegion(mk: Market, a: Action)
    requires Ready(mk) && IsPlan(mk.regions, mk.materials, a) && |mk.regions| == 1
    ensures !Repair(mk, a).adjusted
  {
    TallyKeys(a);
    PlanRegionsListed(mk, a);
    var t := Tally(a);
    var risky := FirstRisky(mk, t.keys, t.count);
    if risky.Some? {
      NoMoveFromSingleRegion(mk, a, risky.value);
    }
  }

  /** With a single listed region every item already sits there, so no move exists */
  lemma {:induction false} NoMoveFromSingleRegion(mk: Market, a: Action, region: Region)
    requires Ready(mk) && IsPlan(mk.regions, mk.materials, a) && |mk.regions| == 1
    ensures BestMove(mk, a, region).None?
  {
    assert forall x | x in mk.regions :: x == mk.regions[0];
    assert forall i | 0 <= i < |a| :: a[i].region == mk.regions[0];
  }

  /** The counting dictionary's risk test is the overload test on the action */
  lemma {:induction false} RiskyIsOverloaded(mk: Market, a: Action, q: Region)
    requires q in RegionsUsed(a)
    ensures Risky(mk, Tally(a).count, q) <==> Overloaded(mk, a, q)
  {
    TallyKeys(a);
    TallyCounts(a);
  }

  lemma {:induction false} IndexOf(s: seq<Region>, x: Region) returns (j: nat)
    requires x in Elems(s)
    ensures j < |s| && s[j] == x
  {
    j :| 0 <= j < |s| && s[j] == x;
  }

  /** `risky_region` is None exactly when no region of the action is overloaded */
  lemma {:induction false} RepairRiskyNone(mk: Market, a: Action)
    requires Ready(mk) && IsPlan(mk.regions, mk.materials, a)
    ensures Repair(mk, a).risky.None? <==> forall i | 0 <= i < |a| :: !Overloaded(mk, a, a[i].region)
  {
    TallyKeys(a);
    PlanRegionsListed(mk, a);
    var t := Tally(a);
    var risky := FirstRisky(mk, t.keys, t.count);
    assert Repair(mk, a).risky == risky;
    if risky.None? {
      forall i | 0 <= i < |a| ensures !Overloaded(mk, a, a[i].region) {
        var j := IndexOf(t.keys, a[i].region);
        RiskyIsOverloaded(mk, a, a[i].region);
      }
    } else {
      var region := risky.value;
      var k :| 0 <= k < |t.keys| && t.keys[k] == region && Risky(mk, t.count, region);
      RiskyIsOverloaded(mk, a, region);
      var first := FirstOccurrence(a, region);
    }
  }

  /** Keys of the counting dictionary are ordered by first appearance */
  lemma {:induction false} KeyOrder(a: Action, j: nat, k: nat)
    requires j < |Tally(a).keys| && k < |Tally(a).keys|
    requires Tally(a).keys[j] in RegionsUsed(a) && Tally(a).keys[k] in RegionsUsed(a)
    requires FirstOccurrence(a, Tally(a).keys[j]) < FirstOccurrence(a, Tally(a).keys[k])
    ensures j < k
  {
    TallyFirstAppearance(a);
  }

  /** A region that first appears before the first risky key is not overloaded */
  lemma {:induction false} EarlierNotOverloaded(mk: Market, a: Action, k: nat, i: nat)
    requires RegionsUsed(a) <= mk.regionData.Keys
    requires k < |Tally(a).keys| && i < |a|
    requires forall j | 0 <= j < k :: !Risky(mk, Tally(a).count, Tally(a).keys[j])
    requires Tally(a).keys[k] in RegionsUsed(a) && i < FirstOccurrence(a, Tally(a).keys[k])
    ensures !Overloaded(mk, a, a[i].region)
  {
    TallyKeys(a);
    TallyFirstAppearance(a);
    var t, q := Tally(a), a[i].region;
    var j := IndexOf(t.keys, q);
    assert FirstOccurrence(a, q) <= i;
    KeyOrder(a, j, k);
    RiskyIsOverloaded(mk, a, q);
  }

  /** A risky region is overloaded, and no region that first appears earlier in the action is */
  lemma {:induction false} RepairRiskyFirst(mk: Market, a: Action)
    requires Ready(mk) && IsPlan(mk.regions, mk.materials, a)
    ensures var r := Repair(mk, a).risky;
      r.Some? ==>
        && r.value in RegionsUsed(a) && Overloaded(mk, a, r.value)
        && forall i | 0 <= i < FirstOccurrence(a, r.value) :: !Overloaded(mk, a, a[i].region)
  {
    TallyKeys(a);
    PlanRegionsListed(mk, a);
    var t := Tally(a);
    var risky := FirstRisky(mk, t.keys, t.count);
    assert Repair(mk, a).risky == risky;
    if risky.Some? {
      var region := risky.value;
      var k :| 0 <= k < |t.keys| && t.keys[k] == region && Risky(mk, t.count, region)
        && forall j | 0 <= j < k :: !Risky(mk, t.count, t.keys[j]);
      RiskyIsOverloaded(mk, a, region);
      forall i | 0 <= i < FirstOccurrence(a, region) ensures !Overloaded(mk, a, a[i].region) {
        EarlierNotOverloaded(mk, a, k, i);
      }
    }
  }

  // The decision

  /** What `decide_action` computes: the index of the pre-repair choice in the action space and
      the repair's result */
  datatype Decision = Decision(index: nat, action: Action, adjusted: bool, risky: Option<Region>)

  /** Every entry of the action space can be scored */
  ghost predicate SpaceScorable(mk: Market, f: Table, acts: seq<Action>) {
    forall k | 0 <= k < |acts| :: Scorable(mk, f, acts[k])
  }

  /** The decision: the first entry of least metric, then the repair of that entry */
  function Decide(mk: Market, f: Table, acts: seq<Action>): (d: Decision)
    requires |acts| > 0 && SpaceScorable(mk, f, acts)
    ensures d.index < |acts|
    ensures forall k | 0 <= k < |acts| :: Metric(mk, f, acts[d.index]) <= Metric(mk, f, acts[k])
    ensures forall k | 0 <= k < d.index :: Metric(mk, f, acts[d.index]) < Metric(mk, f, acts[k])
  {
    var ms := Metrics(mk, f, acts);
    var k := FirstArgMin(ms);
    assert forall j | 0 <= j < |acts| :: ms[j] == Metric(mk, f, acts[j]);
    var r := Repair(mk, acts[k]);
    Decision(k, r.action, r.adjusted, r.risky)
  }

  /** The decided action is a plan again, and an unadjusted decision is the chosen entry itself */
  lemma {:induction false} DecideShape(mk: Market, f: Table, acts: seq<Action>)
    requires |acts| > 0 && SpaceScorable(mk, f, acts)
    ensures var d := Decide(mk, f, acts);
      && d.index < |acts|
      && IsPlan(mk.regions, mk.materials, d.action)
      && (!d.adjusted ==> d.action == acts[d.index])
  {
    var d := Decide(mk, f, acts);
    assert Scorable(mk, f, acts[d.index]);
    RepairShape(mk, acts[d.index]);
  }
}
