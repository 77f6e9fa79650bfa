# programming-defense: game-state transitions in Dafny

This project models the game-state core of the programming-defense tower-defense game.
The core is the state held by the game context: the player's status record
(`money`, `moneyLevel`, `power`, `speed`, `reload`, `level`, `life`), the ordered
list of owned units and the optional selected unit. On this state the model
defines each timer callback and player action as one atomic, pure transition:

- the economy tick;
- `upgradeStatus`;
- `generateUnit`;
- `relocateSelectedUnit`;
- `sellSelectedUnit`;
- `upgradeUnit`, with its greedy fusion scan.

The static unit catalog is part of the model: the generation cost, the count
limit, and the archetypes with their grades, recipes and resale values.

Files:

- `wrappers.dfy`: `Option`.
- `unit_catalog.dfy`: module `UnitCatalog`. It holds the archetype names, the catalog
  map, the two constants, the grade-1 draw pool and the catalog's well-formedness lemmas.
- `unit_list.dfy`: module `UnitList`. It holds unit instances and the list operations
  the context uses: `find` by id, `filter` by id, in-place relocation and creation of a
  unit with a fresh id.
- `fusion.dfy`: module `Fusion`. It holds the greedy first-match scan of `upgradeUnit`
  and its characterisation: a reference definition, the multiset of what remains
  needed, the success condition and the consumed names.
- `game.dfy`: module `Game`. It holds the state, the operations, the invariant `Valid`
  and one preservation lemma per operation.
- `game_run.dfy`: module `GameRun`. It holds runs of steps, the invariant and the
  count bound over every run, the generation boundary, the resale loss and a fusion
  scenario.

Modelling choices:

- Each operation returns the new state. Operations that can show a message
  (`showGameMessage`, or `console.error` when the fused unit cannot be placed) return
  an `Outcome` whose `notice` field carries the message as a `Notice` tag.
- `createNewUnit` and `getRandomFirstGradeUnit` appear only as imports
  (`src/context/GameContext.tsx:16-21`); their definitions are not part of this model.
  `createNewUnit` becomes `UnitList.CreateNewUnit`:
  - the map search is the parameter `spot: Option<Position>`, the answer the search
    gave for the current list;
  - the id is one more than the largest id in the list, so it is fresh;
  - the new unit copies the archetype's name and resale value.
- `getRandomFirstGradeUnit` becomes `RandomFirstGradeUnit(pick)`. The randomness is the
  index `pick` into the grade-1 archetypes in catalog order, so every grade-1 archetype
  can be drawn and nothing else can.
- `upgradeCost` (from `src/const/calc`) is a parameter
  `upgradeCost: (StatusKind, int) -> nat`. It is any cost function with non-negative
  costs.
- Unit ids are natural numbers. An absent selection is `None`.
- Archetype names form a datatype, as the TypeScript union type `UnitName` does. The
  catalog is a map over that datatype, and `UnitCatalog.UnitsTotal` proves that every
  name is a key.

Behaviour of the source the model keeps as written:

- `generateUnit` debits the generation cost before placement; when no cell is found the
  money is still gone and the list is unchanged (`src/context/GameContext.tsx:186-199`).
- The count guard is `unitList.length > UNIT_CNT_LIMIT`. Generation at exactly the limit
  therefore proceeds, and the list can hold one unit more than the limit.
- `upgradeUnit` looks for the fused unit's placement before it scans. A missing
  placement is reported as `NextUnitNotFound` even when the recipe is also unsatisfied.

## Model

| member | source | states |
|---|---|---|
| UnitCatalog.UnitsTotal | src/const/unit.ts:13-67 | every archetype name is a key of the catalog |
| UnitCatalog.GenerationConstants | src/const/unit.ts:9-11 | the generation cost is 10 (positive) and the unit count limit is 100 |
| UnitCatalog.FirstGradeNames | src/const/unit.ts:14-66 | the draw pool holds an archetype exactly when its catalog grade is 1 |
| UnitCatalog.FirstGradePool | src/const/unit.ts:14-56 | the grade-1 pool is javascript, html, css in catalog order |
| UnitCatalog.RandomFirstGradeUnit | src/context/GameContext.tsx:192 | the random draw always yields a grade-1 archetype |
| UnitCatalog.RandomFirstGradeUnitCovers | src/context/GameContext.tsx:192 | every grade-1 archetype is a possible outcome of the draw |
| UnitCatalog.FirstGradeArchetypes | src/const/unit.ts:14-66 | grade 1 holds exactly for javascript, html and css; typescript is grade 2 |
| UnitCatalog.NamesMatchKeys | src/const/unit.ts:14-56 | each catalog entry's name field equals its key |
| UnitCatalog.RecipesReferToCatalog | src/const/unit.ts:22-27 | every recipe's result and every consumed name are catalog keys |
| UnitCatalog.OnlyRecipe | src/const/unit.ts:17-58 | the only recipe is javascript's two-javascript-to-typescript, and it raises the grade |
| UnitCatalog.ResaleBelowGenerationCost | src/const/unit.ts:11-64 | every archetype resells for 5, non-negative and strictly below the generation cost |
| UnitList.FindUnit | src/context/GameContext.tsx:107 | lookup succeeds exactly when the id is in the list, and yields the first unit carrying it |
| UnitList.Keep | src/context/GameContext.tsx:127-129 | the filtered list keeps every copy of each unit whose id is not dropped and no unit whose id is dropped, in their original order, and its id set is the old one minus the dropped ids |
| UnitList.MoveUnit | src/context/GameContext.tsx:107-113 | only the first unit with the id gets the new coordinates; every other position is unchanged and the length is kept |
| UnitList.KeepOneLength | src/context/GameContext.tsx:127-129 | with unique ids, filtering out one present id removes exactly one unit |
| UnitList.CreateNewUnit | src/context/GameContext.tsx:191-199 | a unit exists exactly when the map search found a cell; it has a fresh id, the requested archetype, its resale value and the found coordinates |
| UnitList.AppendFreshUnique | src/context/GameContext.tsx:199 | appending a unit with a new id keeps ids unique |
| Fusion.RemoveFirst | src/context/GameContext.tsx:153-156 | removing the first occurrence of a present name removes exactly one copy from the multiset; an absent name leaves the list as is |
| Fusion.Scan | src/context/GameContext.tsx:149-160 | the consumed units come from the list in list order, and consumed names plus names still needed make up the needed multiset |
| Fusion.ScanIsFirstMatch | src/context/GameContext.tsx:152-160 | the scan takes a unit exactly when its name is still needed when the scan reaches it; neither the order of needed names nor the early break changes the choice |
| Fusion.ScanRestIsDifference | src/context/GameContext.tsx:149-162 | the names still needed after the scan are the needed multiset minus the list's names |
| Fusion.ScanSucceedsIff | src/context/GameContext.tsx:152-165 | the recipe is satisfied exactly when the list holds the needed names with their multiplicities |
| Fusion.ConsumedNames | src/context/GameContext.tsx:149-160 | consumed names are the needed multiset intersected with the list's names, and equal the needed multiset on success |
| Fusion.KeepSubSeqLength | src/context/GameContext.tsx:167-168 | with unique ids, filtering out the consumed ids removes exactly as many units as were consumed |
| Game.SetLevel | src/context/GameContext.tsx:94-98 | writing one upgradeable field changes only that field |
| Game.Tick | src/context/GameContext.tsx:77-82 | one tick raises money by exactly moneyLevel and leaves every other status field, the unit list and the selection unchanged |
| Game.SelectUnit | src/context/GameContext.tsx:65 | selecting sets the selection to the given id (or none) and changes neither status nor units |
| Game.TicksAccrue | src/context/GameContext.tsx:77-82 | n ticks add n times moneyLevel to money; every other status field, the unit list and the selection are unchanged |
| Game.TickKeepsValid | src/context/GameContext.tsx:78-81 | a tick keeps money non-negative and the units untouched |
| Game.UpgradeStatus | src/context/GameContext.tsx:85-101 | refused with no change exactly when money is below the cost; otherwise money drops by the cost, the chosen field rises by exactly one and nothing else changes |
| Game.UpgradeStatusKeepsValid | src/context/GameContext.tsx:87-98 | a status upgrade never makes money negative |
| Game.GenerateUnit | src/context/GameContext.tsx:177-201 | refused for funds exactly when money is below 10; refused for count exactly when funded and the list is longer than 100; otherwise the cost is debited, and the list gains one grade-1 unit at the end with a fresh id, or is unchanged when no cell is found |
| Game.GenerateUnitKeepsValid | src/context/GameContext.tsx:186-199 | generation keeps money non-negative, ids unique and prices from the catalog |
| Game.RelocateSelectedUnit | src/context/GameContext.tsx:103-117 | no change without a live selection; otherwise only the selected unit gets the coordinates, ids, names, prices, length and status are unchanged, and the selection clears |
| Game.RelocateKeepsValid | src/context/GameContext.tsx:105-114 | relocation keeps the invariant |
| Game.SellSelectedUnit | src/context/GameContext.tsx:119-135 | no change without a live selection; otherwise the list is the old one filtered to ids other than the selected one, money grows by the resale value of the first unit carrying that id, and the selection clears |
| Game.SellKeepsValid | src/context/GameContext.tsx:120-134 | sale keeps the invariant and removes exactly one unit when ids are unique |
| Game.SellCreditsCatalogPrice | src/context/GameContext.tsx:130-133 | the credit is exactly the resale value configured for the sold unit's archetype |
| Game.UpgradeUnit | src/context/GameContext.tsx:137-175 | without a cell it reports NextUnitNotFound with no change; with a cell it reports NeedMoreUnits with no change exactly when the list lacks the needed names; on success the list is the old one minus the consumed ids followed by the fused unit, consumed names equal the recipe, money is untouched and the selection clears |
| Game.UpgradeUnitFailureIdempotent | src/context/GameContext.tsx:139-165 | a failed fusion leaves the state as it was, so repeating it gives the same outcome |
| Game.UpgradeUnitKeepsValid | src/context/GameContext.tsx:162-172 | fusion keeps the invariant; on success with unique ids the length becomes old minus the recipe size plus one |
| GameRun.InitialStateValid | src/context/GameContext.tsx:48-66 | the starting state (money 1, no units) satisfies the invariant |
| GameRun.ApplyKeepsValid | src/context/GameContext.tsx:72-201 | every tick and player action keeps the invariant |
| GameRun.RunKeepsValid | src/context/GameContext.tsx:72-201 | any sequence of steps from a valid state ends valid, with money non-negative |
| GameRun.MoneyNeverNegative | src/context/GameContext.tsx:48-56 | from the starting state, money is non-negative after every sequence of steps |
| GameRun.CatalogRecipesConsume | src/const/unit.ts:22-27 | every catalog recipe consumes at least one unit |
| GameRun.ApplyKeepsBound | src/context/GameContext.tsx:181-184 | with consuming recipes, no step takes the list past one unit beyond the limit |
| GameRun.RunKeepsBound | src/context/GameContext.tsx:181-184 | with consuming recipes, any run keeps at most limit + 1 units |
| GameRun.GenerateAtLimit | src/context/GameContext.tsx:178-184 | at exactly the limit a funded generation with a cell succeeds and reaches limit + 1, and the next generation is refused for the count |
| GameRun.SellThenGenerateLoses | src/context/GameContext.tsx:130-189 | selling a unit and then generating one costs exactly 5 money |
| GameRun.FusionScenario | src/context/GameContext.tsx:137-201 | from 20 money, two javascript generations leave 0 money and two units, and the catalog fusion leaves one typescript unit with money still 0 |

## Left out

- React plumbing is not modelled: the context object, the hooks, re-rendering and the
  difference between closure state and `prev` state. Each operation is one atomic
  transition. `upgradeStatus` and `generateUnit` test the closure's status while their
  updates read `prev`. The model reads one state for both, as a run-to-completion event
  loop gives.
- Timers are not modelled: `setInterval`/`clearInterval`, restart cancellation and
  teardown cleanup (`src/context/GameContext.tsx:72-83`, `204-211`). They are resource
  management. Only the tick body is modelled, as `Game.Tick`.
- `showGameMessage` and `console.error` are I/O. They appear only as the returned
  `Notice` tag.
- Map geometry inside `createNewUnit` is not modelled. The placement is an input.
- Randomness inside `getRandomFirstGradeUnit` is not modelled. The draw is an input
  index.
- The `upgradeCost` formula is not modelled. Costs are an input function. That
  formula's file is not part of this model.
- `src/const/stage.ts` is not modelled. It is configuration data only, and no code that
  advances waves or spawns mobs is among the modelled files.
- Display-only catalog fields are not modelled: `imgSrc` and `desc`.
- Unit instances carry only id, name, position and resale value; the other stats of a
  created unit are not modelled, because no modelled operation reads them. The catalog
  entries do carry grade, attack type, damage, speed and reload.
- Coordinates are integers. JavaScript numbers could be fractional, but no modelled
  operation does arithmetic on them.
- Money, the status levels and the results of `upgradeCost` are JavaScript numbers
  modelled as unbounded `int`/`nat`: fractional values and floating-point rounding are
  not modelled.
- Game.RelocateSelectedUnit: the source mutates the found unit object in place without
  calling the list setter. The model treats this as a state change; when React would
  re-render it is not modelled.
- GameRun.RunKeepsBound: the bound assumes every fusion consumes at least one unit. All
  catalog recipes do. `upgradeUnit` accepts any recipe value, and one with no needed
  units would add a unit without consuming one.
