# DataFeedHandler sourcing core, modelled in Dafny

This model covers the decision core of DataFeedHandler, a simulator for sourcing raw materials
from several regions. It has two parts.

`ArbitrageEnv` is the simulation environment:
- it holds the current USD price of every (region, material) pair;
- it prices a sourcing action item by item, each item as base price + tariff + shipping, with
  a 1.5 multiplier when the supplying region is disrupted;
- it grants a synergy discount of 20 for every extra material a region supplies;
- it advances one period by a multiplicative random walk on every price, floored at 0.01.

`RLAgent` is the agent:
- it enumerates every sourcing plan (the Cartesian product of the regions over the materials);
- on each decision it picks the first plan of least `cost + 0.1 × forecast cost`;
- it then repairs that plan when a low-reliability region supplies several materials, by
  moving the single cheapest item elsewhere.

Files:

- `wrappers.dfy`: `Option` and `Result`.
- `cost_model.dfy` (module `CostModel`): the data model and the reference definitions.
  - `Evaluate` specifies `calculate_cost`. The per-item lines, the breakdown, the counting
    dictionary `Tally` and the synergy discount are stated separately.
  - `NextPrice` specifies one step of the price walk.
- `simulation.dfy` (module `Simulation`): the class `ArbitrageEnv`, with its fields and its
  loops as methods. Each method is proved equal to the reference definitions.
- `action_search.dfy` (module `ActionSearch`): the reference definitions of the agent.
  - `Plans` is the action space in `itertools.product` order.
  - `Metric` and `FirstArgMin` give the strict-`<` running minimum.
  - `Repair` is the "first risky region, cheapest single move" pass.
  - `Decide` is the whole decision.
- `agent.dfy` (module `Agent`): the class `RLAgent`.
  - Its action space is an `array`. `decide_action`'s loops are methods proved against the
    definitions above.
  - `DecideAction` writes the repaired plan back into the array, as the source does through
    dictionary aliasing.
- `sample_data.dfy` (module `SampleData`): the repository's sample market, evaluated with no
  disruptions and no forecaster.
  - It gives the landed costs, the nine metrics and the chosen plan.
  - It also shows the second decision that follows the write-back.

Dictionaries with a significant iteration order are modelled as sequences in insertion order:
an action is a `seq<Assignment>`, and the counting dictionary is `Counter(keys, count)`. Each
`random.random()` draw is a parameter. Floats are modelled as `real`.

## Model

| member | source | states |
|---|---|---|
| CostModel.LineFor | src/simulation/arbitrage_env.py:58-75 | An item is priced exactly when its region's data, its USD price, its tariff and its shipping cost all exist. Otherwise the result is the `KeyError` of the region or of the material. The line holds the price, tariff = price × rate, the shipping cost, whether the region is disrupted, and (price + tariff + shipping) × 1.5 when disrupted. |
| CostModel.LineCostMonotone | src/simulation/arbitrage_env.py:60-67 | For a non-negative price, raising the tariff rate or the shipping cost never lowers an item's cost, with or without disruption. |
| CostModel.Lines | src/simulation/arbitrage_env.py:58-76 | A successful pricing of an action has one line per item. |
| CostModel.LinesMeaning | src/simulation/arbitrage_env.py:58-76 | Pricing succeeds exactly when every item can be priced, and then line i is item i's line. Otherwise the error is that of the first item that cannot be priced. |
| CostModel.LinesPrefixErr | src/simulation/arbitrage_env.py:58-62 | Once an item fails, later items do not change the error: the loop stops at the first KeyError. |
| CostModel.PricedOneMore | src/simulation/arbitrage_env.py:58-76 | One more loop pass either fails with that item's error, or appends its line, enters it in the breakdown under its material, and adds its cost to the total. |
| CostModel.MaterialsOf | src/simulation/arbitrage_env.py:68 | Every item's material is among the action's materials. |
| CostModel.MaterialsOfNamed | src/simulation/arbitrage_env.py:68 | Conversely, every material of the action is some item's material. |
| CostModel.BreakdownOfEntries | src/simulation/arbitrage_env.py:68-75 | With distinct materials, the breakdown's keys are exactly the action's materials, each holding its own item's line. |
| CostModel.RegionsUsed | src/simulation/arbitrage_env.py:80-81 | Every item's region is among the regions used. |
| CostModel.OccurrencesOfUnused | src/simulation/arbitrage_env.py:80-81 | A region the action does not use occurs zero times. |
| CostModel.TallyKeys | src/simulation/arbitrage_env.py:79-81 | The counting dictionary lists each region used exactly once, and its keys are exactly the regions used. |
| CostModel.TallyKeysStep | src/simulation/arbitrage_env.py:81 | One more `counts[reg] = counts.get(reg, 0) + 1` keeps the keys distinct and equal to the regions used. |
| CostModel.NewKey | src/simulation/arbitrage_env.py:81 | A region counted for the first time is appended to the keys with count 1. |
| CostModel.DistinctSnoc | src/simulation/arbitrage_env.py:81 | Appending a key not yet present keeps the keys distinct. |
| CostModel.Tally | src/simulation/arbitrage_env.py:79-81 | Reference definition of the counting dictionary: its keys in insertion order and their counts. `TallyKeys`, `TallyCounts` and `TallyFirstAppearance` state what it holds. |
| CostModel.TallyCounts | src/simulation/arbitrage_env.py:79-81 | Each key's count is the number of items bought from that region, and at least 1. |
| CostModel.FirstOccurrence | src/simulation/arbitrage_env.py:80-81 | The index of the first item bought from a region: it is bought there, and no earlier item is. |
| CostModel.FirstOccurrenceSnoc | src/simulation/arbitrage_env.py:80-81 | One more item does not move the first occurrence of a region already used. A new region first occurs at that item. |
| CostModel.TallyKeysSnoc | src/simulation/arbitrage_env.py:81 | One more item appends its region to the keys exactly when the region is new. |
| CostModel.TallyOrderStep | src/simulation/arbitrage_env.py:81 | One more item keeps every pair of keys in first-appearance order. |
| CostModel.TallyFirstAppearance | src/simulation/arbitrage_env.py:79-82 | The counting dictionary iterates its regions in the order in which they first appear in the action. |
| CostModel.SynergyOver | src/simulation/arbitrage_env.py:82-84 | Reference definition of the discount loop: 20 × (count − 1) summed over the keys counted more than once. `SynergyFrame` and `SynergyBump` state how it depends on the counts. |
| CostModel.Synergy | src/simulation/arbitrage_env.py:78-84 | Reference definition of the discount of an action: the loop over its counting dictionary. `SynergyClosedForm` gives it as 20 × (items − distinct regions). |
| CostModel.SynergyFrame | src/simulation/arbitrage_env.py:82-84 | The discount depends only on the counts of the keys it iterates. |
| CostModel.SynergyBump | src/simulation/arbitrage_env.py:82-84 | Raising one listed region's count by one adds exactly 20 to the discount. |
| CostModel.SynergyClosedForm | src/simulation/arbitrage_env.py:78-85 | The discount is 20 × (number of items − number of distinct regions). |
| CostModel.SynergyOfRepeat | src/simulation/arbitrage_env.py:81-84 | An item from a region already counted adds 20 to the discount. |
| CostModel.SynergyOfNew | src/simulation/arbitrage_env.py:81-84 | An item from a new region leaves the discount unchanged. |
| CostModel.Disrupted | src/simulation/arbitrage_env.py:52-56 | Reference definition of the disruption draw over the first n regions. `DisruptedMeaning` states which regions it holds. |
| CostModel.DisruptedMeaning | src/simulation/arbitrage_env.py:53-56 | With one draw per region, a region is disrupted exactly when its own draw exceeds its reliability, and only listed regions are disrupted. |
| CostModel.Evaluate | src/simulation/arbitrage_env.py:44-88 | Reference definition of `calculate_cost` for a given set of disrupted regions. `EvaluateErrors`, `EvaluateTotal`, `EvaluateBreakdown` and `EvaluateFromParts` state its error cases, total and breakdown. `ArbitrageEnv.CalculateCost` is proved equal to it. |
| CostModel.EvaluateFromParts | src/simulation/arbitrage_env.py:76-88 | The itemised total less the synergy discount, with the discount entered in the breakdown when nonzero, is the evaluation. |
| CostModel.EvaluateErrors | src/simulation/arbitrage_env.py:58-62 | `calculate_cost` succeeds exactly when every item can be priced. Otherwise it raises the KeyError of the region or material of the first item that cannot be priced. |
| CostModel.EvaluateTotal | src/simulation/arbitrage_env.py:76-85 | The total is the sum of the item costs less 20 × (items − distinct regions). |
| CostModel.EvaluateBreakdown | src/simulation/arbitrage_env.py:68-87 | The breakdown's keys are the materials, plus "synergy_discount" exactly when the discount is nonzero. Each material maps to its own line, unless a nonzero discount overwrites a material named "synergy_discount". |
| CostModel.NoDisruptionWhenOff | src/simulation/arbitrage_env.py:64-67 | With sampling off, no line is disrupted and each costs price + tariff + shipping. |
| CostModel.Uniform | src/simulation/arbitrage_env.py:40 | `random.uniform(lo, hi)` for a unit draw lies between lo and hi. |
| CostModel.NextPrice | src/simulation/arbitrage_env.py:38-42 | A stepped price is at least 0.01. Above the floor it is price × (1 + uniform(−vol, vol) + drift), and whenever that product reaches the floor it is returned. |
| Simulation.ConstantTable | src/simulation/arbitrage_env.py:25-32 | The volatility and trend tables hold one value for every declared region and material, and nothing else. |
| Simulation.InitialRowExtend | src/simulation/arbitrage_env.py:21-23 | One more material enters the region's row at base price × FX. |
| Simulation.InitialRowOf | src/simulation/arbitrage_env.py:19-23 | The inner loop builds a row that holds exactly the materials, each at base price × FX. |
| Simulation.InitialPrices | src/simulation/arbitrage_env.py:18-23 | The constructor's price table has one entry per region and material, each the local base price × the region's FX rate. |
| Simulation.InitialRowsDone | src/simulation/arbitrage_env.py:18-23 | Once every region has its row, the table is shaped and holds base price × FX. |
| Simulation.RowSteppedFloored | src/simulation/arbitrage_env.py:42 | Every price of a stepped row is at least 0.01. |
| Simulation.ShapedUpdate | src/simulation/arbitrage_env.py:36-42 | Replacing one region's row by a row of the declared materials keeps the table's shape. |
| Simulation.WalkRow | src/simulation/arbitrage_env.py:37-42 | Each material of the row moves by `NextPrice` with its own volatility, trend and draw. |
| Simulation.CountRegions | src/simulation/arbitrage_env.py:79-81 | The counting loop yields the counting dictionary of the action, keys in first-appearance order. |
| Simulation.SynergyDiscountOver | src/simulation/arbitrage_env.py:78-84 | The discount loop adds 20 × (count − 1) for every region counted more than once. |
| Simulation.PriceItem | src/simulation/arbitrage_env.py:59-75 | One pass of the item loop, with the lookups in Python's order, is the item's reference line or its KeyError. |
| Simulation.PriceItems | src/simulation/arbitrage_env.py:58-76 | The item loop yields the sum of the item costs and each item's line under its material, or the first KeyError. |
| Simulation.WalkedUpToStep | src/simulation/arbitrage_env.py:36-42 | Walking one more region's row extends the walked prefix and leaves the other regions as they were. |
| Simulation.TableSteppedFloored | src/simulation/arbitrage_env.py:42 | After a period every price is at least 0.01. |
| Simulation.WalkTable | src/simulation/arbitrage_env.py:36-42 | The price walk advances every declared (region, material) price one step, keeps the table's shape, and floors every price. |
| Simulation.ShapedEqual | src/simulation/arbitrage_env.py:18-32 | Two tables shaped like the environment's that agree on every (region, material) pair are equal. |
| Simulation.InitialTablesUnique | src/simulation/arbitrage_env.py:18-32 | The constructor's three tables are determined by the data. |
| Simulation.InitialTablesBuilt | src/simulation/arbitrage_env.py:18-32 | The constructor's tables are shaped, with prices at base price × FX, volatility 0.02 and trend 0.0. |
| Simulation.ArbitrageEnv.constructor | src/simulation/arbitrage_env.py:9-32 | The environment keeps the materials, the region keys in order and the region data. It starts at step 0 with the initial tables. |
| Simulation.ArbitrageEnv.UpdatePrices | src/simulation/arbitrage_env.py:34-42 | `_update_prices` moves every price one step of the walk, floors it at 0.01, and keeps the tables' shape. |
| Simulation.ArbitrageEnv.SampleDisruptions | src/simulation/arbitrage_env.py:52-56 | A region is disrupted when its draw exceeds its reliability. |
| Simulation.ArbitrageEnv.CalculateCost | src/simulation/arbitrage_env.py:44-88 | `calculate_cost` is the reference evaluation at the current prices, under the sampled disruptions or none. |
| Simulation.ArbitrageEnv.Step | src/simulation/arbitrage_env.py:90-101 | `step` evaluates with disruptions, returns reward = −total and done = False, advances the step counter by one and walks the prices. A KeyError leaves the state unchanged. |
| ActionSearch.Product | src/agent/rl_agent.py:37 | Reference definition of `itertools.product(regions, repeat=n)`. `ProductCount`, `ProductSound`, `ProductComplete`, `ProductAt` and `ProductDistinct` state its size, contents, order and uniqueness. |
| ActionSearch.Extend | src/agent/rl_agent.py:37 | One more position multiplies the number of combinations by the number of regions. |
| ActionSearch.ExtendSound | src/agent/rl_agent.py:37 | Every extended combination is a region in front of a shorter combination. |
| ActionSearch.ExtendAt | src/agent/rl_agent.py:37 | Entry i × len(cs) + j is region i in front of combination j. |
| ActionSearch.ProductCount | src/agent/rl_agent.py:37 | `product(regions, repeat=n)` has len(regions)^n entries. |
| ActionSearch.ProductSound | src/agent/rl_agent.py:37 | Every entry of the product is n regions from the list. |
| ActionSearch.ProductLengths | src/agent/rl_agent.py:37 | Every entry of the product has n positions. |
| ActionSearch.CombinationTail | src/agent/rl_agent.py:37 | A combination is its first region in front of a shorter combination. |
| ActionSearch.ExtendHas | src/agent/rl_agent.py:37 | Every region in front of every combination is listed. |
| ActionSearch.ProductComplete | src/agent/rl_agent.py:37 | Every combination of n listed regions is an entry of the product. |
| ActionSearch.ProductAt | src/agent/rl_agent.py:37 | The product's order: the first position varies slowest. |
| ActionSearch.ProductDistinct | src/agent/rl_agent.py:37 | With distinct regions, no combination is listed twice. |
| ActionSearch.ExtendDistinct | src/agent/rl_agent.py:37 | With distinct regions and combinations, one more position lists no combination twice. |
| ActionSearch.PlanOfCons | src/agent/rl_agent.py:38 | The plan of a combination is its first assignment in front of the plan of the rest. |
| ActionSearch.Plans | src/agent/rl_agent.py:34-40 | The action space has one plan per entry of the product. |
| ActionSearch.PlansEntry | src/agent/rl_agent.py:37-39 | Entry k of the action space is `{materials[i]: combo[i]}` for entry k of the product. |
| ActionSearch.PlansCount | src/agent/rl_agent.py:34-40 | There are len(regions)^len(materials) plans. |
| ActionSearch.PlansSound | src/agent/rl_agent.py:34-40 | Every entry assigns each material, in order, a listed region. |
| ActionSearch.PlansComplete | src/agent/rl_agent.py:34-40 | Every such assignment is in the action space. |
| ActionSearch.PlansAt | src/agent/rl_agent.py:37-39 | The first material's region varies slowest through the list. |
| ActionSearch.PlansAtBounds | src/agent/rl_agent.py:37-39 | The index i × len(regions)^(n−1) + j lies in the action space. |
| ActionSearch.PlanAtProductEntry | src/agent/rl_agent.py:37-39 | When product entry k is region i in front of entry j of the shorter product, plan k is the first material at region i in front of plan j of the remaining materials. |
| ActionSearch.PlansDistinct | src/agent/rl_agent.py:34-40 | With distinct regions, no plan is listed twice. |
| ActionSearch.Cost | src/agent/rl_agent.py:57 | `calculate_cost(action, apply_disruptions=False)` succeeds on a priceable action, and this is its total. |
| ActionSearch.PlanPriced | src/agent/rl_agent.py:57 | On a complete market every item of a plan can be priced. |
| ActionSearch.PlanCovered | src/agent/rl_agent.py:60 | A forecast covering the market has a value for every item of a plan. |
| ActionSearch.FutureCost | src/agent/rl_agent.py:60 | Reference definition of the forecast cost of a plan: the forecast entry of each item summed. `FutureCostZero` gives its value under the zero forecast. |
| ActionSearch.Metric | src/agent/rl_agent.py:61 | Reference definition of `cost + 0.1 × future_cost`. `Decide` and `Agent.RLAgent.BestIndex` state that the search picks its first least value. |
| ActionSearch.FutureCostZero | src/agent/rl_agent.py:51-52 | Under the zero forecast every plan's future cost is 0. |
| ActionSearch.Metrics | src/agent/rl_agent.py:56-61 | There is one metric per entry of the action space. |
| ActionSearch.FirstArgMin | src/agent/rl_agent.py:54-64 | The strict-`<` running minimum ends on an entry that is no greater than any other and strictly below every earlier one. |
| ActionSearch.FirstArgMinNext | src/agent/rl_agent.py:62-64 | One more score becomes the minimum only when strictly below the current one. |
| ActionSearch.FirstArgMinSnoc | src/agent/rl_agent.py:89-92 | Appending a score moves the minimum to it exactly when it is strictly smaller. |
| ActionSearch.RunningMinStep | src/agent/rl_agent.py:55-64 | Starting from infinity and replacing on `<`, the loop state stays the first minimum of the prefix and its value. |
| ActionSearch.FirstRisky | src/agent/rl_agent.py:73-75 | The first key with count > 1 and reliability < 0.98, in the dictionary's order, or None when no key qualifies. |
| ActionSearch.AltsFor | src/agent/rl_agent.py:80-82 | Reference definition of the inner loop's candidates for one item. `AltsForMeaning` and `AltsForOrdered` state which moves it lists and in what order. |
| ActionSearch.Moves | src/agent/rl_agent.py:79-82 | Reference definition of all candidates, item by item. `MovesMeaning` and `MovesTried` state which moves it lists and in what order. |
| ActionSearch.AltsForNext | src/agent/rl_agent.py:80-82 | One more region adds a candidate unless it is the risky region itself. |
| ActionSearch.MovesNext | src/agent/rl_agent.py:79 | One more item adds candidates only when it is bought from the risky region. |
| ActionSearch.AltsForMeaning | src/agent/rl_agent.py:80-84 | An item's candidates are exactly its moves to the other listed regions. |
| ActionSearch.MovesMeaning | src/agent/rl_agent.py:79-84 | The candidates are exactly the moves of an item bought from the risky region to a different listed region. |
| ActionSearch.MovesOrdered | src/agent/rl_agent.py:79-80 | The candidates are tried in item order. |
| ActionSearch.Pos | src/agent/rl_agent.py:80 | A listed region's position is an index holding it, and no earlier index does. |
| ActionSearch.PosOfDistinct | src/agent/rl_agent.py:80 | With distinct regions, the region at index j has position j. |
| ActionSearch.BeforeAsymmetric | src/agent/rl_agent.py:79-80 | The try order is strict: no move is tried before itself, and of two moves at most one is tried first. |
| ActionSearch.AltsForOrdered | src/agent/rl_agent.py:80-82 | One item's candidates over the first n regions come in the regions' list order, each at a position below n. |
| ActionSearch.MovesListed | src/agent/rl_agent.py:79-82 | Every listed candidate moves an item bought from the risky region to a different listed region. |
| ActionSearch.MovesTried | src/agent/rl_agent.py:79-82 | With distinct regions the candidates are listed in the order the two loops try them: by item, then by region. |
| ActionSearch.CandidateAt | src/agent/rl_agent.py:79-84 | Every move of an item from the risky region to another listed region is at some position of the candidate list. |
| ActionSearch.ListedCandidate | src/agent/rl_agent.py:79-84 | Every move in the candidate list is such a move. |
| ActionSearch.EarlierDearer | src/agent/rl_agent.py:89-92 | In a list in try order, the first least entry is strictly below every entry tried before it. |
| ActionSearch.CheapestCandidate | src/agent/rl_agent.py:79-92 | The first candidate of least extra cost is a valid move, no dearer than any other, and strictly cheaper than every move tried before it. |
| ActionSearch.MovedBack | src/agent/rl_agent.py:83-84 | Moving the copied item back to the region it came from gives the original plan again, and moving the same item twice keeps only the second move. |
| ActionSearch.MovedPlan | src/agent/rl_agent.py:83-84 | Moving an item to a listed region keeps a plan a plan. |
| ActionSearch.ExtraCost | src/agent/rl_agent.py:83-88 | Reference definition of `alt_cost - orig_cost` for one move, both costs without disruptions. `BestMove` states that the repair takes its first least value. |
| ActionSearch.Extras | src/agent/rl_agent.py:85-88 | There is one extra cost per candidate. |
| ActionSearch.ExtrasSnoc | src/agent/rl_agent.py:85-88 | Scoring one more candidate appends its extra cost. |
| ActionSearch.BestMove | src/agent/rl_agent.py:76-92 | None exactly when there is nowhere to move to. Otherwise it is a move of an item from the risky region to another listed region. No such move has a smaller extra cost, and every move tried before it (an earlier item, or the same item and an earlier listed region) costs strictly more, as the strict `<` of line 89 keeps the first of equal moves. |
| ActionSearch.PlanRegionsListed | src/agent/rl_agent.py:74 | Every region of a plan has reference data, so the reliability lookup succeeds. |
| ActionSearch.RegionsUsedIndexed | src/agent/rl_agent.py:70-71 | A region used is some item's region. |
| ActionSearch.Repair | src/agent/rl_agent.py:66-96 | Reference definition of the repair pass. `RepairShape`, `RepairOneMove`, `RepairAdjusts`, `RepairRiskyNone` and `RepairRiskyFirst` state its result. |
| ActionSearch.RepairShape | src/agent/rl_agent.py:66-99 | The repaired action is a plan. It is unchanged unless adjusted. The risky region is listed, and an adjusted action always has one. |
| ActionSearch.RepairOneMove | src/agent/rl_agent.py:73-95 | An adjustment moves exactly one item from the risky region to another listed region. No other such move costs less, and every such move tried before it costs strictly more. |
| ActionSearch.RepairTakesBest | src/agent/rl_agent.py:73-95 | When adjusted, the risky region has a cheapest move and the action is the plan with that move made. |
| ActionSearch.RepairAdjusts | src/agent/rl_agent.py:73-95 | The flag both ways: an adjustment implies a risky region and another listed region. Conversely, with a risky region and another listed region a cheapest move exists, and `adjusted` holds exactly when its item's material name is non-empty (the truth test of line 93). |
| ActionSearch.RepairSingleRegion | src/agent/rl_agent.py:80-82 | With a single listed region the repair never adjusts. |
| ActionSearch.NoMoveFromSingleRegion | src/agent/rl_agent.py:80-82 | With a single listed region no candidate exists. |
| ActionSearch.RiskyIsOverloaded | src/agent/rl_agent.py:74 | The dictionary test on a region is "more than one item from it and reliability < 0.98". |
| ActionSearch.RepairRiskyNone | src/agent/rl_agent.py:68-75 | `risky_region` is None exactly when no region of the plan supplies several materials at reliability below 0.98. |
| ActionSearch.KeyOrder | src/agent/rl_agent.py:69-73 | Keys are ordered by the first appearance of their regions. |
| ActionSearch.EarlierNotOverloaded | src/agent/rl_agent.py:73-75 | A region appearing before the first risky key is not overloaded. |
| ActionSearch.RepairRiskyFirst | src/agent/rl_agent.py:73-96 | The risky region is overloaded, and no region that appears earlier in the plan is. Only the first risky region is handled. |
| ActionSearch.Decide | src/agent/rl_agent.py:54-64 | The chosen index has the least metric, and every earlier entry's metric is strictly greater. |
| ActionSearch.DecideShape | src/agent/rl_agent.py:66-99 | The decided action is a plan, and an unadjusted decision is the chosen entry itself. |
| Agent.GenerateAllActions | src/agent/rl_agent.py:34-40 | `_generate_all_actions` is the action space: len(regions)^len(materials) entries, each a plan. |
| Agent.MetricOf | src/agent/rl_agent.py:57-61 | One entry's metric: its cost without disruptions + 0.1 × its forecast cost. |
| Agent.MetricAt | src/agent/rl_agent.py:56-61 | The metric of entry i of the action space. |
| Agent.BestIndex | src/agent/rl_agent.py:54-64 | The metric loop ends on the first entry of least metric. |
| Agent.RiskyRegion | src/agent/rl_agent.py:73-75 | The region loop stops at the first risky key. |
| Agent.TracksStep | src/agent/rl_agent.py:88-92 | Scoring a candidate replaces the best only when strictly cheaper. |
| Agent.MovesOfSnoc | src/agent/rl_agent.py:80-84 | Candidates to listed regions stay valid moves. |
| Agent.ScannedSkip | src/agent/rl_agent.py:81-82 | The risky region itself is skipped. |
| Agent.ScannedTry | src/agent/rl_agent.py:83-92 | Any other region is scored and kept only when strictly cheaper. |
| Agent.ScannedNone | src/agent/rl_agent.py:80 | Before the inner loop nothing has been tried for the item. |
| Agent.ScannedAll | src/agent/rl_agent.py:80-92 | After the inner loop every other region has been tried for the item. |
| Agent.ExtraOf | src/agent/rl_agent.py:83-88 | `extra_cost` is the moved copy's cost minus the original's. |
| Agent.TryRegion | src/agent/rl_agent.py:80-92 | One pass of the inner loop keeps the running minimum over the candidates so far. |
| Agent.ScanAlternatives | src/agent/rl_agent.py:80-92 | The inner loop scores every other region for the item. |
| Agent.SearchedNone | src/agent/rl_agent.py:76-78 | Before the outer loop there is no best move. |
| Agent.SearchedAll | src/agent/rl_agent.py:79-92 | After the outer loop the running best is `BestMove`. |
| Agent.TryItem | src/agent/rl_agent.py:79-92 | One pass of the outer loop scores the item's candidates when it is bought from the risky region. |
| Agent.CheapestMove | src/agent/rl_agent.py:76-92 | The candidate loops pick the first move of least extra cost. |
| Agent.RepairAction | src/agent/rl_agent.py:66-96 | The repair pass is `Repair`: count, find the first risky region, and move the cheapest item unless its material name is falsy. |
| Agent.Choose | src/agent/rl_agent.py:54-96 | The decision is `Decide` over the current action space. |
| Agent.RLAgent.Forecasted | src/agent/rl_agent.py:49-52 | Without a forecaster the forecast is 0.0 for every region and material. |
| Agent.RLAgent.constructor | src/agent/rl_agent.py:27-32 | The agent keeps the environment and forecaster. Its action space is the enumerated plans, and `last_action` is None. |
| Agent.RLAgent.DecideAction | src/agent/rl_agent.py:42-99 | Returns the decision's action, adjusted flag and risky region. The chosen entry of the action space becomes the repaired action, every other entry is unchanged, and `last_action` is the returned action. |
| Agent.RLAgent.WriteBack | src/agent/rl_agent.py:93-95 | An adjusted action replaces its entry of the action space, and nothing else changes. |
| Agent.RLAgent.DecideActionOnCopy | src/agent/rl_agent.py:42-99 | The same decision with the action space left untouched. |
| Agent.RLAgent.LearnFromExperience | src/agent/rl_agent.py:101-105 | Learning changes nothing. |
| SampleData.SampleWellFormed | src/ingest/data_ingestion.py:8-33 | The sample data has distinct materials and regions, and a base price for every pair. |
| SampleData.SampleComplete | src/ingest/data_ingestion.py:8-33 | Every sample material can be priced from every sample region. |
| SampleData.SampleReady | src/ingest/data_ingestion.py:8-33 | The sample market can be searched, with the zero forecast covering it. |
| SampleData.SamplePricesShaped | src/simulation/arbitrage_env.py:18-23 | The sample USD table has one entry per region and material. |
| SampleData.SamplePriceAt | src/simulation/arbitrage_env.py:20-23 | Each sample USD price is base price × FX (e.g. China steel 3000 × 0.14 = 420). |
| SampleData.SamplePricesInitial | src/simulation/arbitrage_env.py:18-32 | The sample prices with volatility 0.02 and trend 0.0 are initial tables of the sample data. |
| SampleData.SampleStart | src/simulation/arbitrage_env.py:9-32 | The constructor, given the sample data, starts from exactly these prices, volatility 0.02 and trend 0.0. |
| SampleData.SampleLandedCosts | src/simulation/arbitrage_env.py:60-63 | The six landed costs: USA 550 and 270, China 541 and 265.8, Mexico 670 and 300. |
| SampleData.PlanSynergy | src/simulation/arbitrage_env.py:78-85 | A two-material plan earns 20 when both materials come from one region, and 0 otherwise. |
| SampleData.SampleLine | src/simulation/arbitrage_env.py:58-63 | Without disruptions a sample item's line costs its landed cost. |
| SampleData.PlanLines | src/simulation/arbitrage_env.py:58-76 | Both items of a sample plan are priced, and they sum to the two landed costs. |
| SampleData.SumOfTwo | src/simulation/arbitrage_env.py:76 | Two lines total their two costs. |
| SampleData.PlanCost | src/simulation/arbitrage_env.py:44-88 | A sample plan costs its landed costs less the synergy (e.g. USA/USA = 550 + 270 − 20 = 800). |
| SampleData.SamplePlanAt | src/agent/rl_agent.py:37-39 | Entry 3i + j of the sample action space buys steel from region i and electronics from region j. |
| SampleData.SamplePlans | src/agent/rl_agent.py:34-40 | The sample action space lists the nine plans in product order. |
| SampleData.PlanMetric | src/agent/rl_agent.py:57-61 | Under the zero forecast a sample plan's metric is its cost. |
| SampleData.MetricIs | src/agent/rl_agent.py:57-61 | A sample plan's metric equals the given value. |
| SampleData.PlanScore | src/agent/rl_agent.py:57-61 | The metric of plan (i, j) is entry 3i + j of the sample scores. |
| SampleData.SampleMetricAt | src/agent/rl_agent.py:56-61 | The metric of entry k is the sample score k. |
| SampleData.SampleMetricEach | src/agent/rl_agent.py:56-61 | Every entry scores its sample score. |
| SampleData.SampleSpaceScorable | src/agent/rl_agent.py:56-61 | Every entry of the sample action space can be scored. |
| SampleData.SampleMetrics | src/agent/rl_agent.py:56-61 | The nine metrics are 800, 815.8, 850, 811, 786.8, 841, 940, 935.8 and 950. |
| SampleData.ScoresLeast | src/agent/rl_agent.py:62 | 786.8 is the least sample score, and only entry 4 has it. |
| SampleData.SampleChoice | src/agent/rl_agent.py:54-64 | The search picks entry 4, China/China at 786.8. |
| SampleData.TwinTally | src/agent/rl_agent.py:69-71 | A plan from one region counts that region twice. |
| SampleData.TwinRisky | src/agent/rl_agent.py:73-74 | That region is risky exactly when its reliability is below 0.98. |
| SampleData.PlanIsPlan | src/agent/rl_agent.py:37-39 | Every two-region sample plan is a plan. |
| SampleData.MovedSteel | src/agent/rl_agent.py:83-84 | Moving the steel changes only the steel's region. |
| SampleData.MovedElectronics | src/agent/rl_agent.py:83-84 | Moving the electronics changes only the electronics' region. |
| SampleData.ChinaCost | src/simulation/arbitrage_env.py:44-88 | China/China costs 786.8. |
| SampleData.ExtraCostOf | src/agent/rl_agent.py:85-88 | A move's extra cost is the moved plan's cost minus the plan's. |
| SampleData.ChinaSteelExtra | src/agent/rl_agent.py:79-88 | Moving China/China's steel elsewhere costs more than 24.2 extra. |
| SampleData.ChinaElectronicsExtra | src/agent/rl_agent.py:79-88 | Moving China/China's electronics to the USA costs exactly 24.2 extra, and more to Mexico. |
| SampleData.ChinaExtra | src/agent/rl_agent.py:79-88 | Every move away from China costs at least 24.2 extra, and exactly that only for electronics to the USA. |
| SampleData.ChinaBestMove | src/agent/rl_agent.py:76-92 | The cheapest move is electronics to the USA. |
| SampleData.RepairMoves | src/agent/rl_agent.py:73-95 | A first risky region with a cheapest move and a non-empty material name gives the adjusted repair. |
| SampleData.RepairKeeps | src/agent/rl_agent.py:67-75 | No risky region leaves the plan alone. |
| SampleData.ChinaRepair | src/agent/rl_agent.py:66-96 | China/China is repaired to {Steel: China, Electronics: USA}, adjusted, with risky region China. |
| SampleData.UsaRepair | src/agent/rl_agent.py:73-74 | USA/USA is not adjusted and has no risky region (reliability 0.99). |
| SampleData.DecideAt | src/agent/rl_agent.py:54-99 | The decision is the repair of the chosen entry. |
| SampleData.SampleDecision | src/agent/rl_agent.py:42-99 | On the sample market without a forecaster, `decide_action` returns ({Steel: China, Electronics: USA}, True, "China"). |
| SampleData.ScoresAgainLeast | src/agent/rl_agent.py:62 | After the write-back, 800 is the least score and only entry 0 has it. |
| SampleData.DecideByScores | src/agent/rl_agent.py:54-64 | The chosen index is the first least of the scores. |
| SampleData.SampleMetricEachAgain | src/agent/rl_agent.py:56-61 | After the write-back, entry 4 scores 811 and the others keep their scores. |
| SampleData.SampleChoiceAgain | src/agent/rl_agent.py:54-64 | After the write-back the search picks entry 0. |
| SampleData.SampleDecisionAgain | src/agent/rl_agent.py:93-94 | A second call on the unchanged market returns (USA/USA, False, None), because the first call overwrote entry 4. |

## Left out

- Randomness: each `random.random()` and `random.uniform` draw is an input.
  - Disruptions take one draw per region, in region order.
  - The price walk takes one unit draw per (region, material) pair.
  - `Uniform` follows CPython's `lo + (hi - lo) * t`.
- Floating point: prices and costs are exact `real`s. Rounding, `inf` and NaN are not modelled; `float('inf')` becomes an "unset" state of the running minimum.
- The forecaster (`PriceForecaster`) is not part of this model. With a forecaster, its output is a parameter of `DecideAction`. Without one, the zero table of line 52 is used.
- `state`, the parameter of `decide_action`, is unused by the source and is not modelled.
- `Agent.RLAgent.DecideAction` requires a complete market (`Ready`), a covering forecast and a non-empty action space.
  - With missing data, Python raises KeyError partway through the search.
  - With an empty action space, Python fails on `None.items()`.
  - Neither path is modelled.
- `Simulation.ArbitrageEnv.constructor` requires well-formed data: distinct materials, and a base price for every pair. It does not model the KeyError on a missing base price.
- Aliasing of dictionaries handed to the caller is not modelled.
  - `step` returns the live `current_prices` dictionary.
  - `last_action` is the same object as the action-space entry.
  - The model returns values, so a caller mutating them is out of scope. The write-back into the agent's own action space is modelled.
- `step`'s `info` dictionary is modelled as the two fields of `StepResult`.
- The dead computation of `future_cost` on src/agent/rl_agent.py:58 is not modelled separately: line 60 immediately overwrites it with the same value.
- The placeholder `RLAgent` class on lines 5-15 is not modelled: it only raises `NotImplementedError`.
- `_update_prices` iterates over `current_prices`. The model iterates over the declared regions and materials, which are the same keys because the tables stay shaped.
- Data loading is represented only by the sample market in `sample_data.dfy`. `ChatInterface` and `main` are not part of this model.

## Findings

| source | as written | input that shows it | evidently intended | confidence | as-written member | corrected member |
|---|---|---|---|---|---|---|
| src/agent/rl_agent.py:93-94 | `best_action` is the dictionary stored in `self.all_actions`, so the repair `best_action[mat_to_switch] = best_alt` overwrites that entry of the action space. Later decisions search a different space. | The sample market with no forecaster. The first `decide_action` returns ({Steel: China, Electronics: USA}, True, "China") and turns entry 4 into a copy of entry 3. A second call on the unchanged market returns ({Steel: USA, Electronics: USA}, False, None). | The repair works on a copy, and the action space stays the full product, so the same state gives the same decision. | high (not executed) | Agent.RLAgent.DecideAction, with SampleData.SampleDecision and SampleData.SampleDecisionAgain | Agent.RLAgent.DecideActionOnCopy |
