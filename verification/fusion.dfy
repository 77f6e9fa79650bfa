/** The fusion scan: which owned units a recipe consumes. The scan walks the
    unit list in order and takes a unit whenever its name is still among the
    names the recipe needs, removing one occurrence of that name; it stops as
    soon as nothing more is needed. It is greedy and first-match. */
module Fusion {
  import opened UnitCatalog
  import opened UnitList

  /** `needed` without its first occurrence of `n` (`indexOf` then `splice`). */
  function RemoveFirst(needed: seq<UnitName>, n: UnitName): (r: seq<UnitName>)
    ensures n in needed ==> multiset(r) == multiset(needed) - multiset{n} && |r| == |needed| - 1
    ensures n !in needed ==> r == needed
  {
    if |needed| == 0 then []
    else
      assert needed == [needed[0]] + needed[1..];
      if needed[0] == n then needed[1..]
      else [needed[0]] + RemoveFirst(needed[1..], n)
  }

  /** The units the scan consumes, in list order, and the names still needed
      when it stops. */
  datatype ScanResult = ScanResult(taken: seq<Unit>, rest: seq<UnitName>)

  /** The scan of the source's fusion loop, including its early exit. */
  function Scan(list: seq<Unit>, needed: seq<UnitName>): (r: ScanResult)
    ensures SubSeq(r.taken, list)
    ensures multiset(Names(r.taken)) + multiset(r.rest) == multiset(needed)
  {
    if |list| == 0 then ScanResult([], needed)
    else
      var u := list[0];
      var taken := if u.name in needed then [u] else [];
      var left := RemoveFirst(needed, u.name);
      TakeFirst(list, needed);
      if |left| == 0 then
        ScanResult(taken, left)
      else
        var r := Scan(list[1..], left);
        TakeRest(list, taken, r.taken);
        NamesAppend(taken, r.taken);
        ScanResult(taken + r.taken, r.rest)
  }

  /** One step of the scan: the first unit is taken when its name is needed,
      and taken names plus still-needed names make up the needed names. */
  lemma TakeFirst(list: seq<Unit>, needed: seq<UnitName>)
    requires |list| > 0
    ensures var taken := if list[0].name in needed then [list[0]] else [];
            && SubSeq(taken, list)
            && multiset(Names(taken)) + multiset(RemoveFirst(needed, list[0].name)) == multiset(needed)
  {
    if list[0].name in needed {
      assert Names([list[0]]) == [list[0].name];
      assert [list[0]][1..] == [];
    } else {
      assert Names([]) == [];
    }
  }

  lemma TakeRest(list: seq<Unit>, taken: seq<Unit>, more: seq<Unit>)
    requires |list| > 0 && (taken == [] || taken == [list[0]])
    requires SubSeq(more, list[1..])
    ensures SubSeq(taken + more, list)
  {
    if taken == [] {
      assert taken + more == more;
    } else {
      assert (taken + more)[0] == list[0];
      assert (taken + more)[1..] == more;
    }
  }

  lemma NamesAppend(a: seq<Unit>, b: seq<Unit>)
    ensures Names(a + b) == Names(a) + Names(b)
    ensures multiset(Names(a + b)) == multiset(Names(a)) + multiset(Names(b))
  {
  }

  /** Reference definition of the greedy choice over a multiset of needed
      names, with no early exit: a unit is taken exactly when its name is
      still needed when the scan reaches it. */
  function FirstMatches(list: seq<Unit>, needed: multiset<UnitName>): (r: seq<Unit>)
  {
    if |list| == 0 then []
    else if needed[list[0].name] > 0 then [list[0]] + FirstMatches(list[1..], needed - multiset{list[0].name})
    else FirstMatches(list[1..], needed)
  }

  lemma {:induction false} FirstMatchesNothingNeeded(list: seq<Unit>)
    ensures FirstMatches(list, multiset{}) == []
  {
    if |list| > 0 {
      FirstMatchesNothingNeeded(list[1..]);
    }
  }

  /** The scan takes exactly the greedy first matches: the order of the
      needed names and the early exit do not affect which units it takes. */
  lemma {:induction false} ScanIsFirstMatch(list: seq<Unit>, needed: seq<UnitName>)
    ensures Scan(list, needed).taken == FirstMatches(list, multiset(needed))
  {
    if |list| > 0 {
      var u := list[0];
      var left := RemoveFirst(needed, u.name);
      if |left| == 0 {
        assert multiset(left) == multiset{};
        if u.name in needed {
          FirstMatchesNothingNeeded(list[1..]);
        } else {
          assert multiset(needed) == multiset{};
          FirstMatchesNothingNeeded(list);
        }
      } else {
        ScanIsFirstMatch(list[1..], left);
      }
    }
  }

  /** The names the scan still needs when it stops are the needed names minus
      the names of the whole list. */
  lemma {:induction false} ScanRestIsDifference(list: seq<Unit>, needed: seq<UnitName>)
    ensures multiset(Scan(list, needed).rest) == multiset(needed) - multiset(Names(list))
  {
    if |list| > 0 {
      var u := list[0];
      var left := RemoveFirst(needed, u.name);
      var names' := multiset(Names(list[1..]));
      assert Names(list) == [u.name] + Names(list[1..]);
      assert multiset(Names(list)) == multiset{u.name} + names';
      DifferenceStep(multiset(needed), u.name, names');
      assert multiset(left) == multiset(needed) - multiset{u.name};
      if |left| == 0 {
        assert multiset(left) == multiset{};
        assert multiset{} - names' == multiset{};
      } else {
        ScanRestIsDifference(list[1..], left);
      }
    }
  }

  /** Subtracting one occurrence first, then the rest, is subtracting all. */
  lemma DifferenceStep(m: multiset<UnitName>, n: UnitName, others: multiset<UnitName>)
    ensures (m - multiset{n}) - others == m - (multiset{n} + others)
  {
    forall k
      ensures ((m - multiset{n}) - others)[k] == (m - (multiset{n} + others))[k]
    {
    }
  }

  /** The scan satisfies the recipe exactly when the list holds at least the
      needed names with their multiplicities. */
  lemma ScanSucceedsIff(list: seq<Unit>, needed: seq<UnitName>)
    ensures |Scan(list, needed).rest| == 0 <==> multiset(needed) <= multiset(Names(list))
  {
    ScanRestIsDifference(list, needed);
    var rest := Scan(list, needed).rest;
    if multiset(needed) <= multiset(Names(list)) {
      assert multiset(rest) == multiset{};
    } else {
      var n :| multiset(needed)[n] > multiset(Names(list))[n];
      assert n in multiset(rest);
    }
  }

  /** The consumed names are the needed names the list can supply; on success
      they are the needed names exactly. */
  lemma ConsumedNames(list: seq<Unit>, needed: seq<UnitName>)
    ensures multiset(Names(Scan(list, needed).taken)) == multiset(needed) * multiset(Names(list))
    ensures |Scan(list, needed).rest| == 0 ==> multiset(Names(Scan(list, needed).taken)) == multiset(needed)
  {
    ScanRestIsDifference(list, needed);
  }

  /** Each unit of a sub-sequence of a list with unique ids is a distinct
      unit of the list, so dropping their ids removes exactly that many. */
  lemma {:induction false} KeepSubSeqLength(taken: seq<Unit>, list: seq<Unit>)
    requires UniqueIds(list) && SubSeq(taken, list)
    ensures UniqueIds(taken)
    ensures Ids(taken) <= Ids(list)
    ensures |Keep(list, Ids(taken))| == |list| - |taken|
  {
    if |taken| == 0 {
      KeepAbsent(list, {});
    } else {
      assert |list| > 0;
      var id0 := list[0].id;
      var keepRest := Keep(list[1..], Ids(taken));
      if taken[0] == list[0] && SubSeq(taken[1..], list[1..]) {
        KeepSubSeqLength(taken[1..], list[1..]);
        assert Ids(taken) == {id0} + Ids(taken[1..]);
        KeepDropOutside(list[1..], Ids(taken[1..]), id0);
        assert Ids(taken[1..]) + {id0} == Ids(taken);
        assert Keep(list, Ids(taken)) == keepRest;
      } else {
        assert SubSeq(taken, list[1..]);
        KeepSubSeqLength(taken, list[1..]);
        assert id0 !in Ids(taken);
        assert Keep(list, Ids(taken)) == [list[0]] + keepRest;
      }
    }
  }

  /** Dropping an id the list does not hold changes nothing. */
  lemma {:induction false} KeepDropOutside(list: seq<Unit>, drop: set<Id>, id: Id)
    requires id !in Ids(list)
    ensures Keep(list, drop + {id}) == Keep(list, drop)
  {
    if |list| > 0 {
      KeepDropOutside(list[1..], drop, id);
    }
  }
}
