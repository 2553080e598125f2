/**
 * The agent `RLAgent`: it enumerates the action space once, then on each decision scores every
 * entry against the environment's current prices and the forecast, keeps the first entry of
 * least metric, and runs the one-move repair on it.
 *
 * The action space is an array of actions. `decide_action` repairs the chosen entry in place,
 * so the repaired action replaces that entry of the space; `DecideAction` models exactly that.
 */
module Agent {
  import opened Wrappers
  import opened CostModel
  import opened Simulation
  import opened ActionSearch

  /** `_generate_all_actions`: one plan per combination of `itertools.product`, appended in
      product order */
  method GenerateAllActions(regions: seq<Region>, materials: seq<Material>) returns (actions: seq<Action>)
    ensures actions == Plans(regions, materials)
    ensures |actions| == Pow(|regions|, |materials|)
    ensures forall k | 0 <= k < |actions| :: IsPlan(regions, materials, actions[k])
  {
    var combos := Product(regions, |materials|);
    ProductSound(regions, |materials|);
    actions := [];
    var k := 0;
    while k < |combos|
      invariant 0 <= k <= |combos|
      invariant actions == Plans(regions, materials)[..k]
    {
      assert combos[k] in combos;
      var action := PlanOf(materials, combos[k]);
      actions := actions + [action];
      k := k + 1;
    }
    PlansCount(regions, materials);
    PlansSound(regions, materials);
  }

  /** `cost + 0.1 * future_cost` for one entry, its cost taken from `calculate_cost` without
      disruptions */
  method MetricOf(env: ArbitrageEnv, f: Table, action: Action) returns (metric: real)
    requires env.Valid() && Scorable(env.Snapshot(), f, action)
    ensures metric == Metric(env.Snapshot(), f, action)
  {
    ghost var mk := env.Snapshot();
    PlanPriced(mk, action);
    PlanCovered(f, mk, action);
    ghost var c := Cost(mk, action);
    var cost := env.CalculateCost(action, false, []);
    assert cost == Evaluate(mk, action, {});
    var futureCost := FutureCost(f, action);
    metric := cost.value.total + ForecastWeight * futureCost;
  }

  /** The metric of entry `i` of the action space */
  method MetricAt(env: ArbitrageEnv, f: Table, actions: array<Action>, i: nat) returns (metric: real)
    requires env.Valid() && i < actions.Length
    requires SpaceScorable(env.Snapshot(), f, actions[..])
    ensures metric == Metrics(env.Snapshot(), f, actions[..])[i]
  {
    assert Scorable(env.Snapshot(), f, actions[..][i]);
    metric := MetricOf(env, f, actions[i]);
  }

  /** The metric loop's state after the entries before `i`: nothing found before the first,
      then the first entry of least metric so far and that metric */
  ghost predicate Ranked(ms: seq<real>, i: nat, found: Option<nat>, least: real)
    requires i <= |ms|
  {
    && (found.None? <==> i == 0)
    && (found.Some? ==> found.value == FirstArgMin(ms[..i]) && least == ms[found.value])
  }

  /** The metric loop of `decide_action`: the running minimum with a strict `<`, starting from
      infinity, ends on the first entry of least metric */
  method BestIndex(env: ArbitrageEnv, f: Table, actions: array<Action>) returns (best: nat)
    requires env.Valid() && actions.Length > 0
    requires SpaceScorable(env.Snapshot(), f, actions[..])
    ensures best < actions.Length
    ensures best == FirstArgMin(Metrics(env.Snapshot(), f, actions[..]))
  {
    ghost var ms := Metrics(env.Snapshot(), f, actions[..]);
    var found: Option<nat> := None;
    var bestMetric := 0.0;
    var i := 0;
    while i < actions.Length
      invariant 0 <= i <= actions.Length
      invariant Ranked(ms, i, found, bestMetric)
    {
      var metric := MetricAt(env, f, actions, i);
      RunningMinStep(ms, i, found, bestMetric, metric);
      if found.None? || metric < bestMetric {
        found, bestMetric := Some(i), metric;
      }
      i := i + 1;
    }
    assert ms[..i] == ms;
    best := found.value;
  }

  /** The risky-region loop of `decide_action`: the first key of the counting dictionary that
      serves several materials from a region of reliability below 0.98 */
  method RiskyRegion(env: ArbitrageEnv, keys: seq<Region>, counts: map<Region, nat>) returns (risky: Option<Region>)
    requires Elems(keys) <= counts.Keys && Elems(keys) <= env.regionData.Keys
    ensures risky == FirstRisky(env.Snapshot(), keys, counts)
  {
    ghost var mk := env.Snapshot();
    var i := 0;
    while i < |keys|
      invariant 0 <= i <= |keys|
      invariant Elems(keys[i..]) <= Elems(keys)
      invariant FirstRisky(mk, keys, counts) == FirstRisky(mk, keys[i..], counts)
    {
      var region := keys[i];
      assert keys[i..][1..] == keys[i + 1..];
      if counts[region] > 1 && env.regionData[region].reliability < ReliabilityThreshold {
        return Some(region);
      }
      i := i + 1;
    }
    return None;
  }

  /** The candidates seen so far, each a valid move of `a` */
  ghost predicate MovesOf(mk: Market, a: Action, seen: seq<Move>) {
    forall k | 0 <= k < |seen| :: seen[k].index < |a| && seen[k].alt in mk.regions
  }

  /** `best_alt`, `mat_to_switch` and `min_extra_cost` after the candidates `seen` scored `xs`:
      nothing before the first, then the first candidate of least extra cost and that cost */
  ghost predicate Tracks(seen: seq<Move>, xs: seq<real>, best: Option<Move>, minExtra: real)
    requires |xs| == |seen|
  {
    if seen == [] then best.None?
    else best == Some(seen[FirstArgMin(xs)]) && minExtra == xs[FirstArgMin(xs)]
  }

  /** Scoring one more candidate keeps the running minimum; a tie keeps the earlier one */
  lemma {:induction false} TracksStep(seen: seq<Move>, xs: seq<real>, best: Option<Move>, minExtra: real,
                                      m: Move, extra: real)
    requires |xs| == |seen| && Tracks(seen, xs, best, minExtra)
    ensures var taken := best.None? || extra < minExtra;
      Tracks(seen + [m], xs + [extra], if taken then Some(m) else best, if taken then extra else minExtra)
  {
    FirstArgMinSnoc(xs, extra);
    if seen != [] {
      assert (seen + [m])[FirstArgMin(xs)] == seen[FirstArgMin(xs)];
      assert (xs + [extra])[FirstArgMin(xs)] == xs[FirstArgMin(xs)];
    }
  }

  /** The inner loop's state after trying the regions before `j` for item `i` */
  ghost predicate Scanned(mk: Market, a: Action, seen: seq<Move>, i: nat, region: Region, j: nat,
                          best: Option<Move>, minExtra: real)
    requires Ready(mk) && IsPlan(mk.regions, mk.materials, a) && MovesOf(mk, a, seen)
    requires i < |a| && j <= |mk.regions|
  {
    var cur := seen + AltsFor(i, region, mk.regions[..j]);
    MovesOf(mk, a, cur) && Tracks(cur, Extras(mk, a, cur), best, minExtra)
  }

  /** One more candidate of a listed region keeps the candidates listed */
  lemma MovesOfSnoc(mk: Market, a: Action, seen: seq<Move>, m: Move)
    requires MovesOf(mk, a, seen) && m.index < |a| && m.alt in mk.regions
    ensures MovesOf(mk, a, seen + [m])
  {
    assert forall k | 0 <= k < |seen| :: (seen + [m])[k] == seen[k];
  }

  /** Trying region `j` when it is `region` itself: skipped, nothing changes */
  lemma {:induction false} ScannedSkip(mk: Market, a: Action, seen: seq<Move>, i: nat, region: Region,
                                       j: nat, best: Option<Move>, minExtra: real)
    requires Ready(mk) && IsPlan(mk.regions, mk.materials, a) && MovesOf(mk, a, seen)
    requires i < |a| && j < |mk.regions| && mk.regions[j] == region
    requires Scanned(mk, a, seen, i, region, j, best, minExtra)
    ensures Scanned(mk, a, seen, i, region, j + 1, best, minExtra)
  {
    var rs := mk.regions;
    AltsForNext(i, region, rs, j);
    assert AltsFor(i, region, rs[..j]) + [] == AltsFor(i, region, rs[..j]);
  }

  /** Trying another region `j`: its move is scored against the running minimum, which it
      replaces only when strictly cheaper */
  lemma {:induction false} ScannedTry(mk: Market, a: Action, seen: seq<Move>, i: nat, region: Region,
                                      j: nat, best: Option<Move>, minExtra: real, extra: real)
    requires Ready(mk) && IsPlan(mk.regions, mk.materials, a) && MovesOf(mk, a, seen)
    requires i < |a| && j < |mk.regions| && mk.regions[j] != region
    requires Scanned(mk, a, seen, i, region, j, best, minExtra)
    requires extra == ExtraCost(mk, a, Move(i, mk.regions[j]))
    ensures var taken := best.None? || extra < minExtra;
      Scanned(mk, a, seen, i, region, j + 1, if taken then Some(Move(i, mk.regions[j])) else best,
              if taken then extra else minExtra)
  {
    var rs := mk.regions;
    var cur := seen + AltsFor(i, region, rs[..j]);
    AltsForNext(i, region, rs, j);
    var m := Move(i, rs[j]);
    ExtrasSnoc(mk, a, cur, m);
    TracksStep(cur, Extras(mk, a, cur), best, minExtra, m, extra);
    MovesOfSnoc(mk, a, cur, m);
    AppendAssoc(seen, AltsFor(i, region, rs[..j]), [m]);
  }

  /** Before the inner loop no region has been tried */
  lemma {:induction false} ScannedNone(mk: Market, a: Action, seen: seq<Move>, i: nat, region: Region,
                                       best: Option<Move>, minExtra: real)
    requires Ready(mk) && IsPlan(mk.regions, mk.materials, a) && MovesOf(mk, a, seen) && i < |a|
    requires Tracks(seen, Extras(mk, a, seen), best, minExtra)
    ensures Scanned(mk, a, seen, i, region, 0, best, minExtra)
  {
    assert seen + AltsFor(i, region, mk.regions[..0]) == seen;
  }

  /** After the inner loop every other region has been tried */
  lemma {:induction false} ScannedAll(mk: Market, a: Action, seen: seq<Move>, i: nat, region: Region,
                                      best: Option<Move>, minExtra: real)
    requires Ready(mk) && IsPlan(mk.regions, mk.materials, a) && MovesOf(mk, a, seen) && i < |a|
    requires Scanned(mk, a, seen, i, region, |mk.regions|, best, minExtra)
    ensures MovesOf(mk, a, seen + AltsFor(i, region, mk.regions))
    ensures Tracks(seen + AltsFor(i, region, mk.regions), Extras(mk, a, seen + AltsFor(i, region, mk.regions)),
                   best, minExtra)
  {
    assert mk.regions[..|mk.regions|] == mk.regions;
  }

  /** `extra_cost` of one candidate: the alternative plan's cost above the original's */
  method ExtraOf(env: ArbitrageEnv, a: Action, m: Move, baseTotal: real) returns (extra: real)
    requires env.Valid() && Ready(env.Snapshot()) && IsPlan(env.regions, env.materials, a)
    requires m.index < |a| && m.alt in env.regions
    requires (PlanPriced(env.Snapshot(), a); baseTotal == Cost(env.Snapshot(), a))
    ensures extra == ExtraCost(env.Snapshot(), a, m)
  {
    ghost var mk := env.Snapshot();
    var altAction := Moved(a, m);
    MovedPlan(mk.regions, mk.materials, a, m);
    PlanPriced(mk, altAction);
    ghost var c := Cost(mk, altAction);
    var altCost := env.CalculateCost(altAction, false, []);
    assert altCost == Evaluate(mk, altAction, {});
    extra := altCost.value.total - baseTotal;
  }

  /** One pass of the inner loop: region `j` is tried as the new home of item `i` unless it is
      `region` itself */
  method TryRegion(env: ArbitrageEnv, a: Action, region: Region, i: nat, baseTotal: real,
                   ghost seen: seq<Move>, j: nat, best: Option<Move>, minExtra: real)
    returns (best': Option<Move>, minExtra': real)
    requires env.Valid() && Ready(env.Snapshot()) && IsPlan(env.regions, env.materials, a)
    requires (PlanPriced(env.Snapshot(), a); baseTotal == Cost(env.Snapshot(), a))
    requires i < |a| && MovesOf(env.Snapshot(), a, seen) && j < |env.regions|
    requires Scanned(env.Snapshot(), a, seen, i, region, j, best, minExtra)
    ensures Scanned(env.Snapshot(), a, seen, i, region, j + 1, best', minExtra')
  {
    ghost var mk := env.Snapshot();
    var alt := env.regions[j];
    if alt != region {
      var m := Move(i, alt);
      var extra := ExtraOf(env, a, m, baseTotal);
      ScannedTry(mk, a, seen, i, region, j, best, minExtra, extra);
      if best.None? || extra < minExtra {
        return Some(m), extra;
      }
      return best, minExtra;
    } else {
      ScannedSkip(mk, a, seen, i, region, j, best, minExtra);
      return best, minExtra;
    }
  }

  /** The inner loop over alternative regions for item `i` */
  method ScanAlternatives(env: ArbitrageEnv, a: Action, region: Region, i: nat, baseTotal: real,
                          ghost seen: seq<Move>, best: Option<Move>, minExtra: real)
    returns (best': Option<Move>, minExtra': real)
    requires env.Valid() && Ready(env.Snapshot()) && IsPlan(env.regions, env.materials, a)
    requires (PlanPriced(env.Snapshot(), a); baseTotal == Cost(env.Snapshot(), a))
    requires i < |a| && MovesOf(env.Snapshot(), a, seen)
    requires Tracks(seen, Extras(env.Snapshot(), a, seen), best, minExtra)
    ensures MovesOf(env.Snapshot(), a, seen + AltsFor(i, region, env.regions))
    ensures var cands := seen + AltsFor(i, region, env.regions);
      Tracks(cands, Extras(env.Snapshot(), a, cands), best', minExtra')
  {
    ghost var mk := env.Snapshot();
    best', minExtra' := best, minExtra;
    ScannedNone(mk, a, seen, i, region, best, minExtra);
    var j := 0;
    while j < |env.regions|
      invariant 0 <= j <= |env.regions|
      invariant Scanned(mk, a, seen, i, region, j, best', minExtra')
    {
      best', minExtra' := TryRegion(env, a, region, i, baseTotal, seen, j, best', minExtra');
      j := j + 1;
    }
    ScannedAll(mk, a, seen, i, region, best', minExtra');
  }

  /** The outer loop's state after the items before `i`: every candidate move of those items
      scored, and the running minimum over them */
  ghost predicate Searched(mk: Market, a: Action, region: Region, i: nat, best: Option<Move>, minExtra: real)
    requires Ready(mk) && IsPlan(mk.regions, mk.materials, a) && i <= |a|
  {
    var cands := Moves(a[..i], region, mk.regions);
    MovesOf(mk, a, cands) && Tracks(cands, Extras(mk, a, cands), best, minExtra)
  }

  lemma {:induction false} SearchedNone(mk: Market, a: Action, region: Region)
    requires Ready(mk) && IsPlan(mk.regions, mk.materials, a)
    ensures Searched(mk, a, region, 0, None, 0.0)
  {
    assert a[..0] == [];
  }

  /** After every item the running minimum is the move the repair picks */
  lemma {:induction false} SearchedAll(mk: Market, a: Action, region: Region, best: Option<Move>, minExtra: real)
    requires Ready(mk) && IsPlan(mk.regions, mk.materials, a)
    requires Searched(mk, a, region, |a|, best, minExtra)
    ensures best == BestMove(mk, a, region)
  {
    assert a[..|a|] == a;
  }

  /** One pass of the outer loop: an item bought from `region` has its alternatives scored */
  method TryItem(env: ArbitrageEnv, a: Action, region: Region, i: nat, baseTotal: real,
                 best: Option<Move>, minExtra: real)
    returns (best': Option<Move>, minExtra': real)
    requires env.Valid() && Ready(env.Snapshot()) && IsPlan(env.regions, env.materials, a)
    requires (PlanPriced(env.Snapshot(), a); baseTotal == Cost(env.Snapshot(), a))
    requires i < |a| && Searched(env.Snapshot(), a, region, i, best, minExtra)
    ensures Searched(env.Snapshot(), a, region, i + 1, best', minExtra')
  {
    ghost var mk := env.Snapshot();
    MovesNext(a, region, mk.regions, i);
    if a[i].region == region {
      best', minExtra' := ScanAlternatives(env, a, region, i, baseTotal, Moves(a[..i], region, mk.regions), best, minExtra);
    } else {
      assert Moves(a[..i], region, mk.regions) + [] == Moves(a[..i], region, mk.regions);
      best', minExtra' := best, minExtra;
    }
  }

  /** The candidate loops of `decide_action`: every item bought from `region`, in action order,
      tried at every other region; the first move of least extra cost wins */
  method CheapestMove(env: ArbitrageEnv, a: Action, region: Region) returns (best: Option<Move>)
    requires env.Valid() && Ready(env.Snapshot()) && IsPlan(env.regions, env.materials, a)
    ensures best == BestMove(env.Snapshot(), a, region)
  {
    ghost var mk := env.Snapshot();
    PlanPriced(mk, a);
    ghost var c := Cost(mk, a);
    var origCost := env.CalculateCost(a, false, []);
    assert origCost == Evaluate(mk, a, {});
    var baseTotal := origCost.value.total;
    var minExtra := 0.0;
    best := None;
    SearchedNone(mk, a, region);
    var i := 0;
    while i < |a|
      invariant 0 <= i <= |a|
      invariant Searched(mk, a, region, i, best, minExtra)
    {
      best, minExtra := TryItem(env, a, region, i, baseTotal, best, minExtra);
      i := i + 1;
    }
    SearchedAll(mk, a, region, best, minExtra);
  }

  /** The repair pass of `decide_action`: count the regions, find the risky one, move the
      cheapest item away from it */
  method RepairAction(env: ArbitrageEnv, a: Action) returns (r: Repaired)
    requires env.Valid() && Ready(env.Snapshot()) && IsPlan(env.regions, env.materials, a)
    ensures r == Repair(env.Snapshot(), a)
  {
    ghost var mk := env.Snapshot();
    var keys, counts := CountRegions(a);
    TallyKeys(a);
    PlanRegionsListed(mk, a);
    var risky := RiskyRegion(env, keys, counts);
    if risky.None? {
      return Repaired(a, false, None);
    }
    var move := CheapestMove(env, a, risky.value);
    if move.Some? && a[move.value.index].material != "" {
      return Repaired(Moved(a, move.value), true, risky);
    }
    return Repaired(a, false, risky);
  }

  /** The decision `decide_action` makes over an action space: the first entry of least metric
      and the repair of that entry; the space itself is not touched */
  method Choose(env: ArbitrageEnv, f: Table, actions: array<Action>) returns (d: Decision)
    requires env.Valid() && actions.Length > 0
    requires SpaceScorable(env.Snapshot(), f, actions[..])
    ensures d == Decide(env.Snapshot(), f, actions[..])
  {
    var best := BestIndex(env, f, actions);
    assert Scorable(env.Snapshot(), f, actions[..][best]);
    var r: Repaired := RepairAction(env, actions[best]);
    d := Decision(best, r.action, r.adjusted, r.risky);
  }

  class RLAgent {
    const env: ArbitrageEnv
    const hasForecaster: bool
    var allActions: array<Action>
    var lastAction: Option<Action>

    /** Every entry of the action space is a plan over the environment's regions and materials */
    ghost predicate Valid()
      reads this, allActions
    {
      forall k | 0 <= k < allActions.Length :: IsPlan(env.regions, env.materials, allActions[k])
    }

    /** The forecast `decide_action` uses: the forecaster's output, or all zeros without one */
    function Forecasted(forecast: Table): Table {
      if hasForecaster then forecast else ConstantTable(env.regions, env.materials, 0.0)
    }

    constructor (env: ArbitrageEnv, hasForecaster: bool)
      ensures this.env == env && this.hasForecaster == hasForecaster
      ensures fresh(allActions) && allActions[..] == Plans(env.regions, env.materials)
      ensures lastAction == None
      ensures Valid()
    {
      var actions := GenerateAllActions(env.regions, env.materials);
      this.env := env;
      this.hasForecaster := hasForecaster;
      allActions := new Action[|actions|](k requires 0 <= k < |actions| => actions[k]);
      lastAction := None;
    }

    /** `decide_action`: the first entry of least metric, repaired; the repaired action is
        written back into the action space, and remembered as the last action */
    method DecideAction(forecast: Table) returns (action: Action, adjusted: bool, risky: Option<Region>)
      requires Valid() && env.Valid() && Ready(env.Snapshot()) && allActions.Length > 0
      requires Covers(Forecasted(forecast), env.Snapshot())
      modifies allActions, this`lastAction
      ensures Valid()
      ensures var d := Decide(env.Snapshot(), Forecasted(forecast), old(allActions[..]));
        && action == d.action && adjusted == d.adjusted && risky == d.risky
        && allActions[..] == old(allActions[..])[d.index := d.action]
      ensures !adjusted ==> allActions[..] == old(allActions[..])
      ensures lastAction == Some(action)
    {
      var d := Choose(env, Forecasted(forecast), allActions);
      DecideShape(env.Snapshot(), Forecasted(forecast), allActions[..]);
      WriteBack(d.index, d.action, d.adjusted);
      lastAction := Some(d.action);
      return d.action, d.adjusted, d.risky;
    }

    /** The write-back of `decide_action`: an adjusted action replaces entry `index` */
    method WriteBack(index: nat, action: Action, adjusted: bool)
      requires Valid() && index < allActions.Length && IsPlan(env.regions, env.materials, action)
      requires !adjusted ==> action == allActions[index]
      modifies allActions
      ensures Valid()
      ensures allActions[..] == old(allActions[..])[index := action]
      ensures !adjusted ==> allActions[..] == old(allActions[..])
    {
      if adjusted {
        allActions[index] := action;
      }
    }

    /** `decide_action` with the repair made on a copy: the action space is left as it was */
    method DecideActionOnCopy(forecast: Table) returns (action: Action, adjusted: bool, risky: Option<Region>)
      requires Valid() && env.Valid() && Ready(env.Snapshot()) && allActions.Length > 0
      requires Covers(Forecasted(forecast), env.Snapshot())
      modifies this`lastAction
      ensures var d := Decide(env.Snapshot(), Forecasted(forecast), allActions[..]);
        action == d.action && adjusted == d.adjusted && risky == d.risky
      ensures allActions[..] == old(allActions[..])
      ensures lastAction == Some(action)
    {
      var d := Choose(env, Forecasted(forecast), allActions);
      lastAction := Some(d.action);
      return d.action, d.adjusted, d.risky;
    }

    /** `learn_from_experience`: a placeholder that changes nothing */
    method LearnFromExperience(state: Table, action: Action, reward: real, nextState: Table)
      ensures unchanged(this, allActions)
    {
    }
  }
}
