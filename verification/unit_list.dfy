/** Unit instances and the ordered unit list the game owns: lookup by id,
    removal by id, in-place relocation and the creation of a new unit with a
    fresh id at a placement chosen by the map. */
module UnitList {
  import opened Wrappers
  import opened UnitCatalog

  type Id = nat

  /** A board coordinate. */
  datatype Position = Position(x: int, y: int)

  /** A unit instance; its identity is its id. */
  datatype Unit = Unit(id: Id, name: UnitName, x: int, y: int, returnCost: int)

  /** The set of ids present in a list. */
  function Ids(list: seq<Unit>): (ids: set<Id>)
    ensures forall u :: u in list ==> u.id in ids
  {
    if |list| == 0 then {} else {list[0].id} + Ids(list[1..])
  }

  /** The ids of a list, in list order. */
  function IdSeq(list: seq<Unit>): (ids: seq<Id>)
    ensures |ids| == |list|
    ensures forall i :: 0 <= i < |list| ==> ids[i] == list[i].id
  {
    if |list| == 0 then [] else [list[0].id] + IdSeq(list[1..])
  }

  /** The names of a list, in list order. */
  function Names(list: seq<Unit>): (names: seq<UnitName>)
    ensures |names| == |list|
    ensures forall i :: 0 <= i < |list| ==> names[i] == list[i].name
  {
    if |list| == 0 then [] else [list[0].name] + Names(list[1..])
  }

  /** No two units of the list share an id. */
  predicate UniqueIds(list: seq<Unit>)
  {
    |list| == 0 || (list[0].id !in Ids(list[1..]) && UniqueIds(list[1..]))
  }

  /** In a list with unique ids, an id determines its unit. */
  lemma {:induction false} UniqueIdsSame(list: seq<Unit>, u: Unit, v: Unit)
    requires UniqueIds(list) && u in list && v in list && u.id == v.id
    ensures u == v
  {
    if u != list[0] && v != list[0] {
      assert u in list[1..] && v in list[1..];
      UniqueIdsSame(list[1..], u, v);
    }
  }

  /** Every unit resells for the value its archetype is configured with. */
  predicate CatalogPrices(list: seq<Unit>)
  {
    forall u :: u in list ==> u.returnCost == Info(u.name).returnCost
  }

  /** `a` is `b` with some elements dropped, the rest kept in order. */
  predicate SubSeq<T(==)>(a: seq<T>, b: seq<T>)
  {
    if |a| == 0 then true
    else if |b| == 0 then false
    else (a[0] == b[0] && SubSeq(a[1..], b[1..])) || SubSeq(a, b[1..])
  }

  /** The first unit of the list carrying `id`, as `Array.prototype.find`
      returns it. */
  function FindUnit(list: seq<Unit>, id: Id): (r: Option<Unit>)
    ensures r.Some? <==> id in Ids(list)
    ensures r.Some? ==> r.value in list && r.value.id == id
    ensures r.Some? ==> exists i :: 0 <= i < |list| && list[i] == r.value && FirstWith(list, id, i)
  {
    if |list| == 0 then None
    else if list[0].id == id then Some(list[0])
    else
      var r := FindUnit(list[1..], id);
      if r.Some? then
        var i :| 0 <= i < |list[1..]| && list[1..][i] == r.value && FirstWith(list[1..], id, i);
        assert list[i + 1] == r.value && FirstWith(list, id, i + 1);
        r
      else r
  }

  /** The list without the units whose id is in `drop`, order kept. */
  function Keep(list: seq<Unit>, drop: set<Id>): (r: seq<Unit>)
    ensures forall u :: u in r <==> u in list && u.id !in drop
    ensures Ids(r) == Ids(list) - drop
    ensures SubSeq(r, list)
    ensures forall u :: multiset(r)[u] == if u.id in drop then 0 else multiset(list)[u]
  {
    if |list| == 0 then []
    else
      var r := Keep(list[1..], drop);
      KeepStep(list, drop, r);
      if list[0].id in drop then r else [list[0]] + r
  }

  /** The facts of `Keep` for a list, given those facts for its tail. */
  lemma KeepStep(list: seq<Unit>, drop: set<Id>, r: seq<Unit>)
    requires |list| > 0
    requires forall u :: u in r <==> u in list[1..] && u.id !in drop
    requires Ids(r) == Ids(list[1..]) - drop
    requires SubSeq(r, list[1..])
    requires forall u :: multiset(r)[u] == if u.id in drop then 0 else multiset(list[1..])[u]
    ensures var res := if list[0].id in drop then r else [list[0]] + r;
            && (forall u :: u in res <==> u in list && u.id !in drop)
            && Ids(res) == Ids(list) - drop
            && SubSeq(res, list)
            && forall u :: multiset(res)[u] == if u.id in drop then 0 else multiset(list)[u]
  {
    assert list == [list[0]] + list[1..];
    assert multiset(list) == multiset{list[0]} + multiset(list[1..]);
    if list[0].id in drop {
      SubSeqSkip(r, list);
    } else {
      var res := [list[0]] + r;
      assert res[1..] == r;
      assert multiset(res) == multiset{list[0]} + multiset(r);
    }
  }

  lemma SubSeqSkip<T>(a: seq<T>, b: seq<T>)
    requires |b| > 0 && SubSeq(a, b[1..])
    ensures SubSeq(a, b)
  {
  }

  /** Keep preserves unique ids. */
  lemma {:induction false} KeepUnique(list: seq<Unit>, drop: set<Id>)
    requires UniqueIds(list)
    ensures UniqueIds(Keep(list, drop))
  {
    if |list| > 0 {
      KeepUnique(list[1..], drop);
      var r := Keep(list[1..], drop);
      if list[0].id !in drop {
        assert ([list[0]] + r)[1..] == r;
      }
    }
  }

  /** Removing ids not present in the list changes nothing. */
  lemma {:induction false} KeepAbsent(list: seq<Unit>, drop: set<Id>)
    requires Ids(list) !! drop
    ensures Keep(list, drop) == list
  {
    if |list| > 0 {
      assert list[0].id in Ids(list);
      KeepAbsent(list[1..], drop);
      assert [list[0]] + list[1..] == list;
    }
  }

  /** Removing the id of one unit of a list with unique ids removes exactly
      one unit. */
  lemma {:induction false} KeepOneLength(list: seq<Unit>, id: Id)
    requires UniqueIds(list) && id in Ids(list)
    ensures |Keep(list, {id})| == |list| - 1
  {
    if list[0].id == id {
      KeepAbsent(list[1..], {id});
    } else {
      KeepOneLength(list[1..], id);
    }
  }

  /** Position `i` holds the first unit of the list carrying `id`. */
  predicate FirstWith(list: seq<Unit>, id: Id, i: int)
    requires 0 <= i < |list|
  {
    list[i].id == id && forall j :: 0 <= j < i ==> list[j].id != id
  }

  /** The list with the first unit carrying `id` moved to (x, y), the object
      mutation the source performs on the unit `find` returns. */
  function MoveUnit(list: seq<Unit>, id: Id, x: int, y: int): (r: seq<Unit>)
    ensures |r| == |list|
    ensures forall i :: 0 <= i < |list| ==>
              r[i] == if FirstWith(list, id, i) then list[i].(x := x, y := y) else list[i]
  {
    if |list| == 0 then []
    else if list[0].id == id then [list[0].(x := x, y := y)] + list[1..]
    else
      var r := MoveUnit(list[1..], id, x, y);
      assert forall i :: 1 <= i < |list| ==> (FirstWith(list, id, i) <==> FirstWith(list[1..], id, i - 1));
      [list[0]] + r
  }

  /** Lists that agree on ids position by position have the same id set and
      the same uniqueness. */
  lemma {:induction false} SameIdsUnique(a: seq<Unit>, b: seq<Unit>)
    requires |a| == |b|
    requires forall i :: 0 <= i < |a| ==> a[i].id == b[i].id
    ensures Ids(a) == Ids(b)
    ensures UniqueIds(a) <==> UniqueIds(b)
  {
    if |a| > 0 {
      SameIdsUnique(a[1..], b[1..]);
    }
  }

  /** Dropping units keeps every remaining unit's configured price. */
  lemma KeepPrices(list: seq<Unit>, drop: set<Id>)
    requires CatalogPrices(list)
    ensures CatalogPrices(Keep(list, drop))
  {
    var r := Keep(list, drop);
    forall u | u in r
      ensures u.returnCost == Info(u.name).returnCost
    {
      assert u in list;
    }
  }

  /** Appending a unit priced from the catalog keeps the catalog prices. */
  lemma AppendPrices(list: seq<Unit>, u: Unit)
    requires CatalogPrices(list) && u.returnCost == Info(u.name).returnCost
    ensures CatalogPrices(list + [u])
  {
    forall v | v in list + [u]
      ensures v.returnCost == Info(v.name).returnCost
    {
      if v != u {
        assert v in list;
      }
    }
  }

  /** Moving a unit keeps the list's ids, uniqueness and prices. */
  lemma MoveKeeps(list: seq<Unit>, id: Id, x: int, y: int)
    requires UniqueIds(list) && CatalogPrices(list)
    ensures UniqueIds(MoveUnit(list, id, x, y)) && CatalogPrices(MoveUnit(list, id, x, y))
    ensures Ids(MoveUnit(list, id, x, y)) == Ids(list)
  {
    var r := MoveUnit(list, id, x, y);
    SameIdsUnique(r, list);
    forall u | u in r
      ensures u.returnCost == Info(u.name).returnCost
    {
      var i :| 0 <= i < |r| && r[i] == u;
      assert list[i] in list;
    }
  }

  /** An id larger than every id of the list. */
  function FreshId(list: seq<Unit>): (id: Id)
    ensures forall other :: other in Ids(list) ==> other < id
  {
    if |list| == 0 then 0
    else
      var rest := FreshId(list[1..]);
      if list[0].id < rest then rest else list[0].id + 1
  }

  /** Appending a unit whose id is new keeps ids unique. */
  lemma {:induction false} AppendFreshUnique(list: seq<Unit>, u: Unit)
    requires UniqueIds(list) && u.id !in Ids(list)
    ensures UniqueIds(list + [u])
    ensures Ids(list + [u]) == Ids(list) + {u.id}
  {
    if |list| > 0 {
      assert (list + [u])[1..] == list[1..] + [u];
      AppendFreshUnique(list[1..], u);
    } else {
      assert list + [u] == [u];
    }
  }

  /** A new unit of archetype `name` at the placement the map search found,
      or nothing when the search found no open cell. */
  function CreateNewUnit(name: UnitName, list: seq<Unit>, spot: Option<Position>): (r: Option<Unit>)
    ensures r.Some? <==> spot.Some?
    ensures r.Some? ==> r.value.id !in Ids(list)
    ensures r.Some? ==> r.value.name == name && r.value.returnCost == Info(name).returnCost
    ensures r.Some? ==> r.value.x == spot.value.x && r.value.y == spot.value.y
  {
    match spot
    case None => None
    case Some(p) => Some(Unit(FreshId(list), name, p.x, p.y, Info(name).returnCost))
  }
}
