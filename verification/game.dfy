/** The game-state transitions: the economy tick, status upgrades, unit
    generation, relocation, sale and fusion. Each player action or timer
    callback is one atomic step from a state to a state, with the message the
    source would show returned as a tag instead of being displayed. */
module Game {
  import opened Wrappers
  import opened UnitCatalog
  import opened UnitList
  import Fusion

  /** The player's status record. */
  datatype GameStatus = GameStatus(
    level: int,
    life: int,
    money: int,
    moneyLevel: int,
    power: int,
    speed: int,
    reload: int
  )

  /** The status fields a player can upgrade. */
  datatype StatusKind = MoneyLevel | Power | Speed | Reload

  /** The whole game state: status, the ordered unit list and the selection. */
  datatype State = State(status: GameStatus, units: seq<Unit>, selected: Option<Id>)

  /** The messages an operation reports instead of acting. */
  datatype Notice =
    | NotEnoughMoney       // upgradeStatus and generateUnit refused for funds
    | UnitLimitExceeded    // generateUnit refused for the count limit
    | NeedMoreUnits        // upgradeUnit: the recipe is not satisfied
    | NextUnitNotFound     // upgradeUnit: no placement for the fused unit

  /** The state after an operation and the message it reported, if any. */
  datatype Outcome = Outcome(state: State, notice: Option<Notice>)

  /** The status at the start of a game. */
  const DefaultGameStatus: GameStatus := GameStatus(1, 100, 1, 1, 0, 0, 0)

  /** The state at the start of a game: default status, no units, nothing selected. */
  const InitialState: State := State(DefaultGameStatus, [], None)

  /** The invariant every reachable state keeps: money and income are never
      negative, unit ids are unique, and every unit resells at its archetype's
      configured value. */
  predicate Valid(s: State)
  {
    && s.status.money >= 0
    && s.status.moneyLevel >= 0
    && UniqueIds(s.units)
    && CatalogPrices(s.units)
  }

  /** The current level of an upgradeable field. */
  function Level(st: GameStatus, kind: StatusKind): int
  {
    match kind
    case MoneyLevel => st.moneyLevel
    case Power => st.power
    case Speed => st.speed
    case Reload => st.reload
  }

  /** `st` with field `kind` set to `v`. */
  function SetLevel(st: GameStatus, kind: StatusKind, v: int): (r: GameStatus)
    ensures Level(r, kind) == v
    ensures forall k :: k != kind ==> Level(r, k) == Level(st, k)
    ensures r.money == st.money && r.level == st.level && r.life == st.life
  {
    match kind
    case MoneyLevel => st.(moneyLevel := v)
    case Power => st.(power := v)
    case Speed => st.(speed := v)
    case Reload => st.(reload := v)
  }

  /** One economy tick: the body of the periodic money timer. */
  function Tick(s: State): (r: State)
    ensures r.status.money - s.status.money == s.status.moneyLevel
    ensures r.status.(money := s.status.money) == s.status
    ensures r.units == s.units && r.selected == s.selected
  {
    s.(status := s.status.(money := s.status.money + s.status.moneyLevel))
  }

  /** `n` consecutive economy ticks. */
  function Ticks(s: State, n: nat): State
  {
    if n == 0 then s else Tick(Ticks(s, n - 1))
  }

  /** Over `n` ticks money grows by `n` times the income, and nothing else
      changes. */
  lemma {:induction false} TicksAccrue(s: State, n: nat)
    ensures Ticks(s, n).status.money == s.status.money + n * s.status.moneyLevel
    ensures Ticks(s, n).status.(money := s.status.money) == s.status
    ensures Ticks(s, n).units == s.units && Ticks(s, n).selected == s.selected
  {
    if n > 0 {
      TicksAccrue(s, n - 1);
    }
  }

  /** A tick keeps the invariant. */
  lemma TickKeepsValid(s: State)
    requires Valid(s)
    ensures Valid(Tick(s))
  {
  }

  /** Upgrade of one status field, gated by what the cost function asks for
      the field's current level. */
  function UpgradeStatus(s: State, kind: StatusKind, upgradeCost: (StatusKind, int) -> nat): (r: Outcome)
    ensures var cost := upgradeCost(kind, Level(s.status, kind));
            && (r.notice.Some? <==> s.status.money < cost)
            && (r.notice.Some? ==> r.notice == Some(NotEnoughMoney) && r.state == s)
            && (r.notice.None? ==>
                  && r.state.status.money == s.status.money - cost
                  && Level(r.state.status, kind) == Level(s.status, kind) + 1)
    ensures r.notice.None? ==>
              && (forall k :: k != kind ==> Level(r.state.status, k) == Level(s.status, k))
              && r.state.status.level == s.status.level
              && r.state.status.life == s.status.life
              && r.state.units == s.units && r.state.selected == s.selected
  {
    var cost := upgradeCost(kind, Level(s.status, kind));
    if s.status.money < cost then Outcome(s, Some(NotEnoughMoney))
    else
      var raised := SetLevel(s.status, kind, Level(s.status, kind) + 1);
      Outcome(s.(status := raised.(money := s.status.money - cost)), None)
  }

  /** A status upgrade keeps the invariant: money never goes negative. */
  lemma UpgradeStatusKeepsValid(s: State, kind: StatusKind, upgradeCost: (StatusKind, int) -> nat)
    requires Valid(s)
    ensures Valid(UpgradeStatus(s, kind, upgradeCost).state)
  {
  }

  /** Generation of a random grade-1 unit. Refused when money is below the
      generation cost, then when the list is already longer than the limit.
      Otherwise money is debited before the placement is attempted, so a
      failed placement still costs the generation fee. */
  function GenerateUnit(s: State, pick: nat, spot: Option<Position>): (r: Outcome)
    ensures r.notice == Some(NotEnoughMoney) <==> s.status.money < UnitGenerationCost
    ensures r.notice == Some(UnitLimitExceeded) <==>
              s.status.money >= UnitGenerationCost && |s.units| > UnitCntLimit
    ensures r.notice.None? <==> s.status.money >= UnitGenerationCost && |s.units| <= UnitCntLimit
    ensures r.notice.Some? ==> r.state == s
    ensures r.notice.None? ==>
              && r.state.status == s.status.(money := s.status.money - UnitGenerationCost)
              && r.state.selected == s.selected
    ensures r.notice.None? && spot.None? ==> r.state.units == s.units
    ensures r.notice.None? && spot.Some? ==>
              && |r.state.units| == |s.units| + 1
              && r.state.units[..|s.units|] == s.units
              && var u := r.state.units[|s.units|];
                 u.id !in Ids(s.units) && Info(u.name).grade == 1
                 && u.x == spot.value.x && u.y == spot.value.y
  {
    if s.status.money < UnitGenerationCost then Outcome(s, Some(NotEnoughMoney))
    else if |s.units| > UnitCntLimit then Outcome(s, Some(UnitLimitExceeded))
    else
      var debited := s.status.(money := s.status.money - UnitGenerationCost);
      var created := CreateNewUnit(RandomFirstGradeUnit(pick), s.units, spot);
      var units := if created.Some? then s.units + [created.value] else s.units;
      Outcome(State(debited, units, s.selected), None)
  }

  /** Generation keeps the invariant: money stays non-negative and the new
      unit has a fresh id. */
  lemma GenerateUnitKeepsValid(s: State, pick: nat, spot: Option<Position>)
    requires Valid(s)
    ensures Valid(GenerateUnit(s, pick, spot).state)
  {
    var r := GenerateUnit(s, pick, spot);
    if r.notice.None? && spot.Some? {
      var created := CreateNewUnit(RandomFirstGradeUnit(pick), s.units, spot).value;
      assert r.state.units == s.units + [created];
      AppendFreshUnique(s.units, created);
      AppendPrices(s.units, created);
    }
  }

  /** The selection setter exposed to the board. */
  function SelectUnit(s: State, id: Option<Id>): (r: State)
    ensures r.selected == id && r.status == s.status && r.units == s.units
  {
    s.(selected := id)
  }

  /** Relocation of the selected unit. A no-op when nothing is selected or the
      selected id is stale; otherwise the unit moves and the selection clears. */
  function RelocateSelectedUnit(s: State, x: int, y: int): (r: State)
    ensures s.selected.None? || s.selected.value !in Ids(s.units) ==> r == s
    ensures r.status == s.status
    ensures |r.units| == |s.units|
    ensures forall i :: 0 <= i < |s.units| ==>
              r.units[i].id == s.units[i].id && r.units[i].name == s.units[i].name
              && r.units[i].returnCost == s.units[i].returnCost
    ensures s.selected.Some? && s.selected.value in Ids(s.units) ==>
              && r.selected.None?
              && (exists i :: 0 <= i < |s.units| && FirstWith(s.units, s.selected.value, i)
                   && r.units[i].x == x && r.units[i].y == y)
              && forall i :: 0 <= i < |s.units| && !FirstWith(s.units, s.selected.value, i) ==>
                   r.units[i] == s.units[i]
  {
    if s.selected.None? then s
    else
      var found := FindUnit(s.units, s.selected.value);
      if found.None? then s
      else s.(units := MoveUnit(s.units, s.selected.value, x, y), selected := None)
  }

  /** Relocation keeps the invariant. */
  lemma RelocateKeepsValid(s: State, x: int, y: int)
    requires Valid(s)
    ensures Valid(RelocateSelectedUnit(s, x, y))
  {
    if s.selected.Some? && s.selected.value in Ids(s.units) {
      MoveKeeps(s.units, s.selected.value, x, y);
    }
  }

  /** Sale of the selected unit. A no-op when nothing is selected or the
      selected id is stale; otherwise the unit leaves the list, its resale
      value is credited and the selection clears. */
  function SellSelectedUnit(s: State): (r: State)
    ensures s.selected.None? || s.selected.value !in Ids(s.units) ==> r == s
    ensures s.selected.Some? && s.selected.value in Ids(s.units) ==>
              && r.selected.None?
              && r.units == Keep(s.units, {s.selected.value})
              && exists i :: 0 <= i < |s.units| && FirstWith(s.units, s.selected.value, i)
                   && r.status == s.status.(money := s.status.money + s.units[i].returnCost)
  {
    if s.selected.None? then s
    else
      var found := FindUnit(s.units, s.selected.value);
      if found.None? then s
      else
        var id := s.selected.value;
        var st := s.status.(money := s.status.money + found.value.returnCost);
        State(st, Keep(s.units, {id}), None)
  }

  /** Sale keeps the invariant; with unique ids it removes exactly one unit
      and credits exactly its archetype's resale value. */
  lemma SellKeepsValid(s: State)
    requires Valid(s)
    ensures Valid(SellSelectedUnit(s))
    ensures s.selected.Some? && s.selected.value in Ids(s.units) ==>
              |SellSelectedUnit(s).units| == |s.units| - 1
  {
    if s.selected.Some? && s.selected.value in Ids(s.units) {
      var id := s.selected.value;
      SellCreditsNonNegative(s);
      KeepUnique(s.units, {id});
      KeepPrices(s.units, {id});
      KeepOneLength(s.units, id);
    }
  }

  lemma SellCreditsNonNegative(s: State)
    requires Valid(s) && s.selected.Some? && s.selected.value in Ids(s.units)
    ensures SellSelectedUnit(s).status.money >= s.status.money
    ensures SellSelectedUnit(s).status.moneyLevel == s.status.moneyLevel
  {
    var found := FindUnit(s.units, s.selected.value).value;
    assert found in s.units;
    assert SellSelectedUnit(s).status == s.status.(money := s.status.money + found.returnCost);
  }

  /** Sale credits exactly the resale value configured for the sold unit's
      archetype. */
  lemma SellCreditsCatalogPrice(s: State, u: Unit)
    requires Valid(s) && u in s.units && s.selected == Some(u.id)
    ensures SellSelectedUnit(s).status.money == s.status.money + Info(u.name).returnCost
  {
    var found := FindUnit(s.units, u.id).value;
    UniqueIdsSame(s.units, u, found);
  }

  /** Fusion by a recipe. The fused unit's placement is sought first and its
      absence aborts; then the greedy scan picks the units to consume, and an
      unsatisfied recipe aborts. On success the consumed units leave the list,
      the new unit is appended and the selection clears; money is untouched. */
  function UpgradeUnit(s: State, next: NextUnit, spot: Option<Position>): (r: Outcome)
    ensures spot.None? ==> r == Outcome(s, Some(NextUnitNotFound))
    ensures spot.Some? && !(multiset(next.neededUnits) <= multiset(Names(s.units))) ==>
              r == Outcome(s, Some(NeedMoreUnits))
    ensures spot.Some? && multiset(next.neededUnits) <= multiset(Names(s.units)) ==> r.notice.None?
    ensures r.notice.Some? ==> r.state == s
    ensures r.notice.None? ==>
              && spot.Some? && multiset(next.neededUnits) <= multiset(Names(s.units))
              && r.state.status == s.status
              && r.state.selected.None?
              && |r.state.units| > 0
              && var taken := Fusion.Scan(s.units, next.neededUnits).taken;
                 var fused := r.state.units[|r.state.units| - 1];
                 && r.state.units[..|r.state.units| - 1] == Keep(s.units, Ids(taken))
                 && multiset(Names(taken)) == multiset(next.neededUnits)
                 && fused.name == next.unitName && fused.id !in Ids(s.units)
                 && fused.x == spot.value.x && fused.y == spot.value.y
  {
    var created := CreateNewUnit(next.unitName, s.units, spot);
    if created.None? then Outcome(s, Some(NextUnitNotFound))
    else
      var scan := Fusion.Scan(s.units, next.neededUnits);
      Fusion.ScanSucceedsIff(s.units, next.neededUnits);
      Fusion.ConsumedNames(s.units, next.neededUnits);
      if |scan.rest| > 0 then Outcome(s, Some(NeedMoreUnits))
      else
        var kept := Keep(s.units, Ids(scan.taken));
        assert (kept + [created.value])[..|kept|] == kept;
        Outcome(s.(units := kept + [created.value], selected := None), None)
  }

  /** A failed fusion changes nothing, so repeating it changes nothing either. */
  lemma UpgradeUnitFailureIdempotent(s: State, next: NextUnit, spot: Option<Position>)
    requires UpgradeUnit(s, next, spot).notice.Some?
    ensures UpgradeUnit(UpgradeUnit(s, next, spot).state, next, spot) == UpgradeUnit(s, next, spot)
  {
  }

  /** A successful fusion keeps the invariant and, with unique ids, replaces
      exactly as many units as the recipe needs by one. */
  lemma UpgradeUnitKeepsValid(s: State, next: NextUnit, spot: Option<Position>)
    requires Valid(s)
    ensures Valid(UpgradeUnit(s, next, spot).state)
    ensures UpgradeUnit(s, next, spot).notice.None? ==>
              |UpgradeUnit(s, next, spot).state.units| == |s.units| - |next.neededUnits| + 1
  {
    var r := UpgradeUnit(s, next, spot);
    if r.notice.None? {
      var scan := Fusion.Scan(s.units, next.neededUnits);
      var created := CreateNewUnit(next.unitName, s.units, spot).value;
      var kept := Keep(s.units, Ids(scan.taken));
      Fusion.KeepSubSeqLength(scan.taken, s.units);
      Fusion.ConsumedNames(s.units, next.neededUnits);
      assert |Names(scan.taken)| == |next.neededUnits| by {
        assert |multiset(Names(scan.taken))| == |multiset(next.neededUnits)|;
      }
      KeepUnique(s.units, Ids(scan.taken));
      KeepPrices(s.units, Ids(scan.taken));
      AppendFreshUnique(kept, created);
      AppendPrices(kept, created);
      assert r.state.units == kept + [created];
    }
  }
}
