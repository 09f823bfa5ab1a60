/**
 * The dish-count map every placement strategy and the consumer work from:
 * the order lines flattened to "dish id -> units", with every combo line
 * replaced by its member dishes (member units times the number of combos).
 */
module DishNumMaps {
  import opened Common

  /** Adds `count` combos' worth of each member, one member after the other. */
  function AddMembers(m: map<int, int>, members: seq<ComboDish>, count: int): map<int, int>
  {
    if members == [] then m
    else
      var last := members[|members| - 1];
      AddTo(AddMembers(m, members[..|members| - 1], count), last.dishId, last.dishNum * count)
  }

  /** Adds one order line: a combo through its members, any other dish under its own id. */
  function AddLine(m: map<int, int>, line: DishLine, combos: ComboTable): map<int, int>
  {
    if IsCombo(line.dishId) then AddMembers(m, ComboMembers(combos, line.dishId), line.dishNum)
    else AddTo(m, line.dishId, line.dishNum)
  }

  /** The dish-count map of a list of order lines, accumulated line by line. */
  function DishNumMap(lines: seq<DishLine>, combos: ComboTable): map<int, int>
  {
    if lines == [] then map[]
    else AddLine(DishNumMap(lines[..|lines| - 1], combos), lines[|lines| - 1], combos)
  }

  /** The loop that builds the map, one line and one combo member at a time. */
  method GetDishNumMap(lines: seq<DishLine>, combos: ComboTable) returns (m: map<int, int>)
    ensures m == DishNumMap(lines, combos)
  {
    m := map[];
    var i := 0;
    while i < |lines|
      invariant 0 <= i <= |lines|
      invariant m == DishNumMap(lines[..i], combos)
    {
      var line := lines[i];
      if IsCombo(line.dishId) {
        var members := ComboMembers(combos, line.dishId);
        ghost var m0 := m;
        var j := 0;
        while j < |members|
          invariant 0 <= j <= |members|
          invariant m == AddMembers(m0, members[..j], line.dishNum)
        {
          m := AddTo(m, members[j].dishId, members[j].dishNum * line.dishNum);
          assert members[..j + 1][..j] == members[..j];
          j := j + 1;
        }
        assert members[..j] == members;
      } else {
        m := AddTo(m, line.dishId, line.dishNum);
      }
      assert lines[..i + 1][..i] == lines[..i];
      i := i + 1;
    }
    assert lines[..i] == lines;
  }

  // ---------------------------------------------------------------------
  // An independent description: units per dish as a sum over the lines.
  // ---------------------------------------------------------------------

  /** Units of dish `id` that `count` combos with these members contain. */
  function MemberUnits(members: seq<ComboDish>, count: int, id: int): int
  {
    if members == [] then 0
    else
      var last := members[|members| - 1];
      MemberUnits(members[..|members| - 1], count, id) + (if last.dishId == id then last.dishNum * count else 0)
  }

  /** Units of dish `id` that one order line asks for. */
  function LineUnits(line: DishLine, combos: ComboTable, id: int): int
  {
    if IsCombo(line.dishId) then MemberUnits(ComboMembers(combos, line.dishId), line.dishNum, id)
    else if line.dishId == id then line.dishNum
    else 0
  }

  /** Units of dish `id` that a list of order lines asks for. */
  function Units(lines: seq<DishLine>, combos: ComboTable, id: int): int
  {
    if lines == [] then 0
    else Units(lines[..|lines| - 1], combos, id) + LineUnits(lines[|lines| - 1], combos, id)
  }

  /** The line names dish `id`, itself or as a member of its combo. */
  predicate LineMentions(line: DishLine, combos: ComboTable, id: int)
  {
    if IsCombo(line.dishId) then exists c :: c in ComboMembers(combos, line.dishId) && c.dishId == id
    else line.dishId == id
  }

  predicate Mentions(lines: seq<DishLine>, combos: ComboTable, id: int)
  {
    exists l :: l in lines && LineMentions(l, combos, id)
  }

  lemma {:induction false} AddMembersEffect(m: map<int, int>, members: seq<ComboDish>, count: int)
    ensures forall id :: id in AddMembers(m, members, count) <==> id in m || exists c :: c in members && c.dishId == id
    ensures forall id :: GetOrZero(AddMembers(m, members, count), id) == GetOrZero(m, id) + MemberUnits(members, count, id)
  {
    if members != [] {
      var init := members[..|members| - 1];
      var last := members[|members| - 1];
      AddMembersEffect(m, init, count);
      assert members == init + [last];
      forall id
        ensures id in AddMembers(m, members, count) <==> id in m || exists c :: c in members && c.dishId == id
      {
        if id == last.dishId {
          assert last in members;
        } else if exists c :: c in members && c.dishId == id {
          var c :| c in members && c.dishId == id;
          assert c in init;
        }
      }
    }
  }

  /** Adding a line adds exactly that line's units to every dish, and no dish it does not name. */
  lemma AddLineEffect(m: map<int, int>, line: DishLine, combos: ComboTable)
    ensures forall id :: id in AddLine(m, line, combos) <==> id in m || LineMentions(line, combos, id)
    ensures forall id :: GetOrZero(AddLine(m, line, combos), id) == GetOrZero(m, id) + LineUnits(line, combos, id)
  {
    if IsCombo(line.dishId) {
      AddMembersEffect(m, ComboMembers(combos, line.dishId), line.dishNum);
    }
  }

  /**
   * The accumulated map agrees with the independent description: a dish is
   * a key exactly when some line names it, and its value is the units the
   * lines ask for in total.
   */
  lemma {:induction false} DishNumMapCounts(lines: seq<DishLine>, combos: ComboTable)
    ensures forall id :: id in DishNumMap(lines, combos) <==> Mentions(lines, combos, id)
    ensures forall id :: GetOrZero(DishNumMap(lines, combos), id) == Units(lines, combos, id)
  {
    if lines != [] {
      var init := lines[..|lines| - 1];
      var last := lines[|lines| - 1];
      DishNumMapCounts(init, combos);
      AddLineEffect(DishNumMap(init, combos), last, combos);
      assert lines == init + [last];
      forall id
        ensures Mentions(lines, combos, id) <==> Mentions(init, combos, id) || LineMentions(last, combos, id)
      {
        if Mentions(lines, combos, id) && !LineMentions(last, combos, id) {
          var l :| l in lines && LineMentions(l, combos, id);
          assert l in init;
        }
        if LineMentions(last, combos, id) {
          assert last in lines;
        }
      }
    }
  }

  lemma {:induction false} UnitsAppend(a: seq<DishLine>, b: seq<DishLine>, combos: ComboTable, id: int)
    ensures Units(a + b, combos, id) == Units(a, combos, id) + Units(b, combos, id)
  {
    if b == [] {
      assert a + b == a;
    } else {
      var init := b[..|b| - 1];
      UnitsAppend(a, init, combos, id);
      assert (a + b)[..|a + b| - 1] == a + init;
    }
  }

  /** The sum of two dish-count maps: every dish of either, with its units added. */
  function Merge(m1: map<int, int>, m2: map<int, int>): (m: map<int, int>)
    ensures m.Keys == m1.Keys + m2.Keys
    ensures forall k :: k in m ==> m[k] == GetOrZero(m1, k) + GetOrZero(m2, k)
  {
    map k | k in m1.Keys + m2.Keys :: GetOrZero(m1, k) + GetOrZero(m2, k)
  }

  /** Merging is additive: the map of two lists of lines is the sum of their maps. */
  lemma DishNumMapAppend(a: seq<DishLine>, b: seq<DishLine>, combos: ComboTable)
    ensures DishNumMap(a + b, combos) == Merge(DishNumMap(a, combos), DishNumMap(b, combos))
  {
    DishNumMapCounts(a, combos);
    DishNumMapCounts(b, combos);
    DishNumMapCounts(a + b, combos);
    var m := DishNumMap(a + b, combos);
    var s := Merge(DishNumMap(a, combos), DishNumMap(b, combos));
    forall id
      ensures id in m <==> id in s
      ensures id in m ==> m[id] == s[id]
    {
      UnitsAppend(a, b, combos, id);
      if Mentions(a + b, combos, id) {
        var l :| l in a + b && LineMentions(l, combos, id);
        if l in a { assert Mentions(a, combos, id); } else { assert Mentions(b, combos, id); }
      }
      if Mentions(a, combos, id) {
        var l :| l in a && LineMentions(l, combos, id);
        assert l in a + b;
      }
      if Mentions(b, combos, id) {
        var l :| l in b && LineMentions(l, combos, id);
        assert l in a + b;
      }
    }
  }

  lemma {:induction false} UnitsPermutation(a: seq<DishLine>, b: seq<DishLine>, combos: ComboTable, id: int)
    requires multiset(a) == multiset(b)
    ensures Units(a, combos, id) == Units(b, combos, id)
  {
    if a != [] {
      var init := a[..|a| - 1];
      var x := a[|a| - 1];
      assert a == init + [x];
      assert x in multiset(b);
      var i :| 0 <= i < |b| && b[i] == x;
      var rest := b[..i] + b[i + 1..];
      RemoveMatching(a, b, i);
      UnitsPermutation(init, rest, combos, id);
      assert b == (b[..i] + [x]) + b[i + 1..];
      UnitsAppend(b[..i] + [x], b[i + 1..], combos, id);
      UnitsAppend(b[..i], b[i + 1..], combos, id);
      assert (b[..i] + [x])[..i] == b[..i];
      assert Units(b[..i] + [x], combos, id) == Units(b[..i], combos, id) + LineUnits(x, combos, id);
      assert Units(a, combos, id) == Units(init, combos, id) + LineUnits(x, combos, id);
    } else {
      assert |b| == |multiset(b)| == 0;
    }
  }

  /** Taking the last element off one sequence and a matching one off a permutation of it. */
  lemma RemoveMatching<T>(a: seq<T>, b: seq<T>, i: int)
    requires multiset(a) == multiset(b) && |a| > 0
    requires 0 <= i < |b| && b[i] == a[|a| - 1]
    ensures multiset(a[..|a| - 1]) == multiset(b[..i] + b[i + 1..])
  {
    var x := a[|a| - 1];
    var init := a[..|a| - 1];
    var rest := b[..i] + b[i + 1..];
    assert a == init + [x];
    assert multiset(a) == multiset(init) + multiset{x};
    assert b == b[..i] + [x] + b[i + 1..];
    assert multiset(b) == multiset(b[..i]) + multiset{x} + multiset(b[i + 1..]);
    assert multiset(rest) == multiset(b[..i]) + multiset(b[i + 1..]);
    assert multiset(init) + multiset{x} == multiset(rest) + multiset{x};
    forall e
      ensures multiset(init)[e] == multiset(rest)[e]
    {
      assert (multiset(init) + multiset{x})[e] == (multiset(rest) + multiset{x})[e];
    }
  }

  /** The map does not depend on the order of the lines. */
  lemma DishNumMapPermutation(a: seq<DishLine>, b: seq<DishLine>, combos: ComboTable)
    requires multiset(a) == multiset(b)
    ensures DishNumMap(a, combos) == DishNumMap(b, combos)
  {
    DishNumMapCounts(a, combos);
    DishNumMapCounts(b, combos);
    var ma := DishNumMap(a, combos);
    var mb := DishNumMap(b, combos);
    forall id
      ensures id in ma <==> id in mb
      ensures id in ma ==> ma[id] == mb[id]
    {
      UnitsPermutation(a, b, combos, id);
      if Mentions(a, combos, id) {
        var l :| l in a && LineMentions(l, combos, id);
        assert l in multiset(b);
      }
      if Mentions(b, combos, id) {
        var l :| l in b && LineMentions(l, combos, id);
        assert l in multiset(a);
      }
    }
  }

  /** In particular two halves of an order can be listed either way round. */
  lemma DishNumMapSwap(a: seq<DishLine>, b: seq<DishLine>, combos: ComboTable)
    ensures DishNumMap(a + b, combos) == DishNumMap(b + a, combos)
  {
    assert multiset(a + b) == multiset(b + a);
    DishNumMapPermutation(a + b, b + a, combos);
  }

  // ---------------------------------------------------------------------
  // The values of the map add up to the units ordered.
  // ---------------------------------------------------------------------

  ghost function MapSum(m: map<int, int>): int
    decreases |m|
  {
    if m == map[] then 0
    else
      NonEmptyHasKey(m);
      var k :| k in m;
      m[k] + MapSum(m - {k})
  }

  lemma NonEmptyHasKey(m: map<int, int>)
    requires m != map[]
    ensures exists k :: k in m
  {
    if forall k :: k !in m {
      assert false;
    }
  }

  lemma {:induction false} MapSumRemove(m: map<int, int>, k: int)
    requires k in m
    ensures MapSum(m) == m[k] + MapSum(m - {k})
    decreases |m|
  {
    var j :| j in m && MapSum(m) == m[j] + MapSum(m - {j});
    if j != k {
      MapSumRemove(m - {j}, k);
      MapSumRemove(m - {k}, j);
      assert m - {j} - {k} == m - {k} - {j};
    }
  }

  lemma MapSumAddTo(m: map<int, int>, k: int, d: int)
    ensures MapSum(AddTo(m, k, d)) == MapSum(m) + d
  {
    var m2 := AddTo(m, k, d);
    MapSumRemove(m2, k);
    assert m2 - {k} == m - {k};
    if k in m {
      MapSumRemove(m, k);
    } else {
      assert m - {k} == m;
    }
  }

  /** Units a list of combo members holds for `count` combos, over all dishes. */
  function MemberTotal(members: seq<ComboDish>, count: int): int
  {
    if members == [] then 0
    else MemberTotal(members[..|members| - 1], count) + members[|members| - 1].dishNum * count
  }

  /** Units of all dishes that one order line asks for. */
  function LineTotal(line: DishLine, combos: ComboTable): int
  {
    if IsCombo(line.dishId) then MemberTotal(ComboMembers(combos, line.dishId), line.dishNum)
    else line.dishNum
  }

  /** Units of all dishes that a list of order lines asks for. */
  function TotalUnits(lines: seq<DishLine>, combos: ComboTable): int
  {
    if lines == [] then 0
    else TotalUnits(lines[..|lines| - 1], combos) + LineTotal(lines[|lines| - 1], combos)
  }

  lemma {:induction false} AddMembersSum(m: map<int, int>, members: seq<ComboDish>, count: int)
    ensures MapSum(AddMembers(m, members, count)) == MapSum(m) + MemberTotal(members, count)
  {
    if members != [] {
      var last := members[|members| - 1];
      AddMembersSum(m, members[..|members| - 1], count);
      MapSumAddTo(AddMembers(m, members[..|members| - 1], count), last.dishId, last.dishNum * count);
    }
  }

  /** The values of the map add up to the total units the lines ask for. */
  lemma {:induction false} DishNumMapSum(lines: seq<DishLine>, combos: ComboTable)
    ensures MapSum(DishNumMap(lines, combos)) == TotalUnits(lines, combos)
  {
    if lines != [] {
      var init := lines[..|lines| - 1];
      var last := lines[|lines| - 1];
      DishNumMapSum(init, combos);
      if IsCombo(last.dishId) {
        AddMembersSum(DishNumMap(init, combos), ComboMembers(combos, last.dishId), last.dishNum);
      } else {
        MapSumAddTo(DishNumMap(init, combos), last.dishId, last.dishNum);
      }
    }
  }
}
