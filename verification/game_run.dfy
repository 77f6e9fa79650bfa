/** Sequences of game steps: timer ticks and player actions applied one
    after another from a state, each step atomic. The lemmas here relate
    several operations: the invariant over any run, the unit-count bound,
    the generation boundary, the cost of reselling and a full fusion
    scenario. */
module GameRun {
  import opened Wrappers
  import opened UnitCatalog
  import opened UnitList
  import opened Game

  /** One step: a timer tick or a player action, carrying the answers of
      the random draw and of the map search it needs. */
  datatype Action =
    | TickStep
    | UpgradeStatusStep(kind: StatusKind)
    | GenerateStep(pick: nat, spot: Option<Position>)
    | SelectStep(id: Option<Id>)
    | RelocateStep(x: int, y: int)
    | SellStep
    | FuseStep(next: NextUnit, spot: Option<Position>)

  /** The state after one step. */
  function Apply(s: State, a: Action, upgradeCost: (StatusKind, int) -> nat): State
  {
    match a
    case TickStep => Tick(s)
    case UpgradeStatusStep(kind) => UpgradeStatus(s, kind, upgradeCost).state
    case GenerateStep(pick, spot) => GenerateUnit(s, pick, spot).state
    case SelectStep(id) => SelectUnit(s, id)
    case RelocateStep(x, y) => RelocateSelectedUnit(s, x, y)
    case SellStep => SellSelectedUnit(s)
    case FuseStep(next, spot) => UpgradeUnit(s, next, spot).state
  }

  /** The state after the steps of `acts`, first to last. */
  function Run(s: State, acts: seq<Action>, upgradeCost: (StatusKind, int) -> nat): State
    decreases |acts|
  {
    if |acts| == 0 then s
    else Run(Apply(s, acts[0], upgradeCost), acts[1..], upgradeCost)
  }

  /** The start of a game satisfies the invariant. */
  lemma InitialStateValid()
    ensures Valid(InitialState)
    ensures InitialState.status.money == 1 && InitialState.units == []
  {
  }

  /** Every step keeps the invariant. */
  lemma ApplyKeepsValid(s: State, a: Action, upgradeCost: (StatusKind, int) -> nat)
    requires Valid(s)
    ensures Valid(Apply(s, a, upgradeCost))
  {
    match a
    case TickStep => TickKeepsValid(s);
    case UpgradeStatusStep(kind) => UpgradeStatusKeepsValid(s, kind, upgradeCost);
    case GenerateStep(pick, spot) => GenerateUnitKeepsValid(s, pick, spot);
    case SelectStep(id) =>
    case RelocateStep(x, y) => RelocateKeepsValid(s, x, y);
    case SellStep => SellKeepsValid(s);
    case FuseStep(next, spot) => UpgradeUnitKeepsValid(s, next, spot);
  }

  /** Any run from a valid state ends in a valid state; in particular money
      is never negative after any sequence of steps from the start of a game. */
  lemma {:induction false} RunKeepsValid(s: State, acts: seq<Action>, upgradeCost: (StatusKind, int) -> nat)
    requires Valid(s)
    ensures Valid(Run(s, acts, upgradeCost))
    ensures Run(s, acts, upgradeCost).status.money >= 0
    decreases |acts|
  {
    if |acts| > 0 {
      ApplyKeepsValid(s, acts[0], upgradeCost);
      RunKeepsValid(Apply(s, acts[0], upgradeCost), acts[1..], upgradeCost);
    }
  }

  /** Money is never negative after any run from the start of a game. */
  lemma MoneyNeverNegative(acts: seq<Action>, upgradeCost: (StatusKind, int) -> nat)
    ensures Run(InitialState, acts, upgradeCost).status.money >= 0
  {
    RunKeepsValid(InitialState, acts, upgradeCost);
  }

  /** At most one unit beyond the limit: generation stops only once the list
      is longer than the limit. */
  predicate Bounded(s: State)
  {
    |s.units| <= UnitCntLimit + 1
  }

  /** Fusions that consume at least one unit. */
  predicate Consuming(a: Action)
  {
    a.FuseStep? ==> |a.next.neededUnits| > 0
  }

  /** Every catalog recipe consumes at least one unit. */
  lemma CatalogRecipesConsume(n: UnitName, i: nat, spot: Option<Position>)
    requires i < |Info(n).nextUnits|
    ensures Consuming(FuseStep(Info(n).nextUnits[i], spot))
  {
    OnlyRecipe(n, i);
  }

  /** Every step whose fusion consumes at least one unit keeps the count
      within one past the limit. */
  lemma ApplyKeepsBound(s: State, a: Action, upgradeCost: (StatusKind, int) -> nat)
    requires Valid(s) && Bounded(s) && Consuming(a)
    ensures Bounded(Apply(s, a, upgradeCost))
  {
    match a
    case TickStep =>
    case UpgradeStatusStep(kind) =>
    case GenerateStep(pick, spot) =>
    case SelectStep(id) =>
    case RelocateStep(x, y) =>
    case SellStep =>
      SellKeepsValid(s);
    case FuseStep(next, spot) =>
      UpgradeUnitKeepsValid(s, next, spot);
  }

  /** Any run of consuming steps from a valid, bounded state stays bounded. */
  lemma {:induction false} RunKeepsBound(s: State, acts: seq<Action>, upgradeCost: (StatusKind, int) -> nat)
    requires Valid(s) && Bounded(s)
    requires forall i :: 0 <= i < |acts| ==> Consuming(acts[i])
    ensures Bounded(Run(s, acts, upgradeCost))
    decreases |acts|
  {
    if |acts| > 0 {
      ApplyKeepsValid(s, acts[0], upgradeCost);
      ApplyKeepsBound(s, acts[0], upgradeCost);
      RunKeepsBound(Apply(s, acts[0], upgradeCost), acts[1..], upgradeCost);
    }
  }

  /** At exactly the limit generation still proceeds and the list reaches one
      past the limit, after which the next generation is refused. */
  lemma GenerateAtLimit(s: State, pick: nat, p: Position, pick': nat, spot': Option<Position>)
    requires |s.units| == UnitCntLimit
    requires s.status.money >= 2 * UnitGenerationCost
    ensures GenerateUnit(s, pick, Some(p)).notice.None?
    ensures |GenerateUnit(s, pick, Some(p)).state.units| == UnitCntLimit + 1
    ensures GenerateUnit(GenerateUnit(s, pick, Some(p)).state, pick', spot').notice == Some(UnitLimitExceeded)
  {
  }

  /** Selling a unit and generating one in its place costs 5 money. */
  lemma SellThenGenerateLoses(s: State, u: Unit, pick: nat, spot: Option<Position>)
    requires Valid(s) && u in s.units && s.selected == Some(u.id)
    requires s.status.money + Info(u.name).returnCost >= UnitGenerationCost
    requires |s.units| <= UnitCntLimit + 1
    ensures GenerateUnit(SellSelectedUnit(s), pick, spot).notice.None?
    ensures GenerateUnit(SellSelectedUnit(s), pick, spot).state.status.money == s.status.money - 5
  {
    SellCreditsCatalogPrice(s, u);
    SellKeepsValid(s);
    ResaleBelowGenerationCost(u.name);
  }

  /** Two generations of javascript units from 20 money, then the catalog's
      fusion: the two are replaced by one typescript unit and money stays 0. */
  lemma FusionScenario(p1: Position, p2: Position, p3: Position)
    ensures var s0 := InitialState.(status := DefaultGameStatus.(money := 20));
            var s1 := GenerateUnit(s0, 0, Some(p1)).state;
            var s2 := GenerateUnit(s1, 0, Some(p2)).state;
            var r := UpgradeUnit(s2, Info(Javascript).nextUnits[0], Some(p3));
            && s2.status.money == 0 && |s2.units| == 2
            && r.notice.None?
            && r.state.status.money == 0
            && |r.state.units| == 1 && r.state.units[0].name == Typescript
  {
    var s0 := InitialState.(status := DefaultGameStatus.(money := 20));
    var u1 := Unit(0, Javascript, p1.x, p1.y, 5);
    var u2 := Unit(1, Javascript, p2.x, p2.y, 5);
    ScenarioFirst(s0, p1);
    var s1 := GenerateUnit(s0, 0, Some(p1)).state;
    ScenarioSecond(s1, u1, p2);
    var s2 := GenerateUnit(s1, 0, Some(p2)).state;
    ScenarioFuse(s2, u1, u2, p3);
  }

  lemma ScenarioFirst(s0: State, p1: Position)
    requires s0 == InitialState.(status := DefaultGameStatus.(money := 20))
    ensures GenerateUnit(s0, 0, Some(p1)).state ==
            State(DefaultGameStatus.(money := 10), [Unit(0, Javascript, p1.x, p1.y, 5)], None)
  {
    FirstGradePool();
    assert RandomFirstGradeUnit(0) == Javascript;
  }

  lemma ScenarioSecond(s1: State, u1: Unit, p2: Position)
    requires u1.id == 0 && u1.name == Javascript
    requires s1 == State(DefaultGameStatus.(money := 10), [u1], None)
    ensures GenerateUnit(s1, 0, Some(p2)).state ==
            State(DefaultGameStatus.(money := 0), [u1, Unit(1, Javascript, p2.x, p2.y, 5)], None)
  {
    FirstGradePool();
    assert RandomFirstGradeUnit(0) == Javascript;
    assert FreshId([u1]) == 1;
  }

  lemma ScenarioFuse(s2: State, u1: Unit, u2: Unit, p3: Position)
    requires u1.id == 0 && u1.name == Javascript && u1.returnCost == 5
    requires u2.id == 1 && u2.name == Javascript && u2.returnCost == 5
    requires s2 == State(DefaultGameStatus.(money := 0), [u1, u2], None)
    ensures var r := UpgradeUnit(s2, Info(Javascript).nextUnits[0], Some(p3));
            && r.notice.None? && r.state.status.money == 0
            && |r.state.units| == 1 && r.state.units[0].name == Typescript
  {
    var recipe := Info(Javascript).nextUnits[0];
    assert recipe == NextUnit(Typescript, [Javascript, Javascript]);
    assert Names(s2.units) == [Javascript, Javascript];
    assert UniqueIds(s2.units) by {
      assert s2.units[1..] == [u2];
      assert Ids([u2]) == {1};
    }
    assert CatalogPrices(s2.units);
    UpgradeUnitKeepsValid(s2, recipe, Some(p3));
  }
}
