/** The static unit catalog of the game: the archetypes a player can own,
    their grade, their resale value and the fusion recipes that lead from one
    archetype to a higher one, plus the two generation constants. The catalog
    is fixed data; the lemmas below state its well-formedness. */
module UnitCatalog {

  /** Names of the unit archetypes; the catalog has exactly one entry per name. */
  datatype UnitName = Javascript | Html | Css | Typescript

  /** A fusion recipe: the archetype produced and the names of the units
      consumed, with multiplicity. */
  datatype NextUnit = NextUnit(unitName: UnitName, neededUnits: seq<UnitName>)

  /** A catalog entry, without its display-only fields (image, description). */
  datatype UnitInfo = UnitInfo(
    name: UnitName,
    grade: nat,
    attackType: string,
    damage: int,
    speed: int,
    reload: int,
    nextUnits: seq<NextUnit>,
    returnCost: int
  )

  /** The largest unit count at which generation is still allowed. */
  const UnitCntLimit: nat := 100

  /** The money debited by one generation. */
  const UnitGenerationCost: nat := 10

  /** The catalog, keyed by archetype name. */
  const Units: map<UnitName, UnitInfo> := map[
    Javascript := UnitInfo(Javascript, 1, "basic", 1, 1, 1,
                           [NextUnit(Typescript, [Javascript, Javascript])], 5),
    Html       := UnitInfo(Html, 1, "basic", 1, 1, 1, [], 5),
    Css        := UnitInfo(Css, 1, "basic", 1, 1, 1, [], 5),
    Typescript := UnitInfo(Typescript, 2, "basic", 1, 2, 1, [], 5)
  ]

  /** The catalog entries in declaration order. */
  const AllNames: seq<UnitName> := [Javascript, Html, Css, Typescript]

  /** The catalog is total over the archetype names. */
  lemma UnitsTotal(n: UnitName)
    ensures n in Units
  {
    match n
    case Javascript =>
    case Html =>
    case Css =>
    case Typescript =>
  }

  /** The catalog entry of archetype `n`. */
  function Info(n: UnitName): (info: UnitInfo)
    ensures n in Units && info == Units[n]
  {
    UnitsTotal(n);
    Units[n]
  }

  /** The archetypes of grade 1, in catalog order: the pool the random
      generation draws from. */
  function FirstGradeNames(): (names: seq<UnitName>)
    ensures forall n :: n in names <==> Info(n).grade == 1
  {
    FilterFirstGrade(AllNames)
  }

  function FilterFirstGrade(ns: seq<UnitName>): (r: seq<UnitName>)
    ensures forall n :: n in r <==> n in ns && Info(n).grade == 1
  {
    if |ns| == 0 then []
    else (if Info(ns[0]).grade == 1 then [ns[0]] else []) + FilterFirstGrade(ns[1..])
  }

  /** The random draw of a grade-1 archetype; the source of randomness is
      abstracted into the index `pick`, so every grade-1 archetype is a
      possible outcome and nothing else is. */
  function RandomFirstGradeUnit(pick: nat): (n: UnitName)
    ensures Info(n).grade == 1
  {
    assert Javascript in FirstGradeNames();
    var pool := FirstGradeNames();
    pool[pick % |pool|]
  }

  /** The draw pool is javascript, html and css, in catalog order. */
  lemma FirstGradePool()
    ensures FirstGradeNames() == [Javascript, Html, Css]
  {
    assert AllNames[1..][1..][1..][1..] == [];
  }

  /** Every grade-1 archetype is the outcome of some draw. */
  lemma RandomFirstGradeUnitCovers(n: UnitName)
    requires Info(n).grade == 1
    ensures exists pick: nat :: RandomFirstGradeUnit(pick) == n
  {
    var pick: nat := if n == Javascript then 0 else if n == Html then 1 else 2;
    DrawAt(pick);
  }

  lemma DrawAt(pick: nat)
    requires pick < 3
    ensures RandomFirstGradeUnit(pick) == [Javascript, Html, Css][pick]
  {
    FirstGradePool();
    assert |FirstGradeNames()| == 3;
    assert pick % 3 == pick;
  }

  /** The generation cost is 10 (positive) and the count limit is 100. */
  lemma GenerationConstants()
    ensures UnitGenerationCost == 10 && UnitGenerationCost > 0
    ensures UnitCntLimit == 100
  {
  }

  /** The grade-1 archetypes are exactly javascript, html and css, and
      typescript is of grade 2. */
  lemma FirstGradeArchetypes(n: UnitName)
    ensures Info(n).grade == 1 <==> n in {Javascript, Html, Css}
    ensures Info(Typescript).grade == 2
  {
  }

  /** Each catalog entry carries its own key as its name. */
  lemma NamesMatchKeys(n: UnitName)
    ensures Info(n).name == n
  {
  }

  /** Every recipe names archetypes of the catalog, both the one it produces
      and every one it consumes. */
  lemma RecipesReferToCatalog(n: UnitName, i: nat)
    requires i < |Info(n).nextUnits|
    ensures Info(n).nextUnits[i].unitName in Units
    ensures forall m :: m in Info(n).nextUnits[i].neededUnits ==> m in Units
  {
    var rec := Info(n).nextUnits[i];
    UnitsTotal(rec.unitName);
    forall m | m in rec.neededUnits
      ensures m in Units
    {
      UnitsTotal(m);
    }
  }

  /** The only recipe of the catalog turns two javascript units into one
      typescript unit, and it raises the grade of the archetype listing it. */
  lemma OnlyRecipe(n: UnitName, i: nat)
    requires i < |Info(n).nextUnits|
    ensures n == Javascript && i == 0
    ensures Info(n).nextUnits[i] == NextUnit(Typescript, [Javascript, Javascript])
    ensures Info(Info(n).nextUnits[i].unitName).grade > Info(n).grade
  {
  }

  /** Every archetype resells for 5, strictly less than a generation costs. */
  lemma ResaleBelowGenerationCost(n: UnitName)
    ensures Info(n).returnCost == 5
    ensures 0 <= Info(n).returnCost < UnitGenerationCost
  {
  }
}
