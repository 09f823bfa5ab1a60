/**
 * The conversions between a cart and an order: the order lines a cart
 * emits when the customer checks out, the order built around them, and the
 * cart rebuilt from a placed order when the customer comes back to add
 * dishes to it.
 *
 * The source keys a cart's lines by the decimal string of the dish id and
 * parses it back when it emits the order lines; the model keys them by the
 * id itself, which is the same thing because parsing undoes rendering.
 * A map is visited in an order the source leaves open, so the emitted lines
 * are stated for every visiting order `ks` of the keys.
 */
module CartConversion {
  import opened Common
  import opened Cart
  import opened CartRules
  import opened Strategies
  import OrderStatus

  /** The order line of a cart line; `isAdd` marks lines of the additions map. */
  function ToLine(did: int, d: DishOrder, isAdd: bool): DishLine
  {
    DishLine(did, d.num, d.price, d.discountUsedCount, d.name, isAdd)
  }

  /** The cart line an order line is replayed into. */
  function FromLine(l: DishLine): DishOrder
  {
    DishOrder(l.dishId, l.dishPrice, l.dishNum, l.usedCount, l.dishName)
  }

  /** The lines a map of cart lines emits when its keys are visited in the order `ks`. */
  function LinesOfKeys(m: map<int, DishOrder>, ks: seq<int>, isAdd: bool): (r: seq<DishLine>)
    requires forall k :: k in ks ==> k in m
    ensures |r| == |ks|
  {
    seq(|ks|, i requires 0 <= i < |ks| => ToLine(ks[i], m[ks[i]], isAdd))
  }

  /** Visiting every key once emits one line per key, each the key's own cart line. */
  lemma LinesOfEnumeration(m: map<int, DishOrder>, ks: seq<int>, isAdd: bool)
    requires Enumerates(ks, m.Keys)
    ensures var lines := LinesOfKeys(m, ks, isAdd);
      && (forall i :: 0 <= i < |lines| ==> lines[i].dishId in m && lines[i] == ToLine(lines[i].dishId, m[lines[i].dishId], isAdd))
      && (forall i, j :: 0 <= i < j < |lines| ==> lines[i].dishId != lines[j].dishId)
      && (forall k :: k in m ==> exists i :: 0 <= i < |lines| && lines[i].dishId == k)
  {
    var lines := LinesOfKeys(m, ks, isAdd);
    forall k | k in m
      ensures exists i :: 0 <= i < |lines| && lines[i].dishId == k
    {
      var i :| 0 <= i < |ks| && ks[i] == k;
      assert lines[i].dishId == k;
    }
  }

  /** Units of a dish over a list of order lines. */
  function UnitsOf(lines: seq<DishLine>, did: int): int
  {
    if lines == [] then 0
    else UnitsOf(lines[..|lines| - 1], did) +
         (if lines[|lines| - 1].dishId == did then lines[|lines| - 1].dishNum else 0)
  }

  /** Discounted units of a dish over a list of order lines. */
  function DiscountedOf(lines: seq<DishLine>, did: int): int
  {
    if lines == [] then 0
    else DiscountedOf(lines[..|lines| - 1], did) +
         (if lines[|lines| - 1].dishId == did then lines[|lines| - 1].usedCount else 0)
  }

  lemma {:induction false} UnitsOfAppend(a: seq<DishLine>, b: seq<DishLine>, did: int)
    ensures UnitsOf(a + b, did) == UnitsOf(a, did) + UnitsOf(b, did)
    ensures DiscountedOf(a + b, did) == DiscountedOf(a, did) + DiscountedOf(b, did)
    decreases |b|
  {
    if b == [] {
      assert a + b == a;
    } else {
      var b' := b[..|b| - 1];
      UnitsOfAppend(a, b', did);
      assert (a + b)[..|a + b| - 1] == a + b';
    }
  }

  /**
   * Emitting the lines of a map, in any visiting order, yields for every
   * dish exactly the units and discounted units of its cart line.
   */
  lemma {:induction false} UnitsOfDistinctKeys(m: map<int, DishOrder>, ks: seq<int>, isAdd: bool, did: int)
    requires forall k :: k in ks ==> k in m
    requires forall i, j :: 0 <= i < j < |ks| ==> ks[i] != ks[j]
    ensures UnitsOf(LinesOfKeys(m, ks, isAdd), did) == (if did in ks then m[did].num else 0)
    ensures DiscountedOf(LinesOfKeys(m, ks, isAdd), did) == (if did in ks then m[did].discountUsedCount else 0)
    decreases |ks|
  {
    if ks != [] {
      var ks' := ks[..|ks| - 1];
      var k := ks[|ks| - 1];
      UnitsOfDistinctKeys(m, ks', isAdd, did);
      var lines := LinesOfKeys(m, ks, isAdd);
      assert lines[..|lines| - 1] == LinesOfKeys(m, ks', isAdd);
      assert lines[|lines| - 1] == ToLine(k, m[k], isAdd);
      assert did in ks <==> did in ks' || did == k;
      assert forall i :: 0 <= i < |ks'| ==> ks'[i] == ks[i] && ks[i] != k;
    }
  }

  lemma UnitsOfEnumeration(m: map<int, DishOrder>, ks: seq<int>, isAdd: bool, did: int)
    requires Enumerates(ks, m.Keys)
    ensures UnitsOf(LinesOfKeys(m, ks, isAdd), did) == LineOf(m, did).num
    ensures DiscountedOf(LinesOfKeys(m, ks, isAdd), did) == LineOf(m, did).discountUsedCount
  {
    UnitsOfDistinctKeys(m, ks, isAdd, did);
  }

  /** A list whose lines all carry the same `isAdd` flag is kept whole or dropped whole by the additions filter. */
  lemma {:induction false} AddedLinesUniform(lines: seq<DishLine>, flag: bool)
    requires forall i :: 0 <= i < |lines| ==> lines[i].isAdd == flag
    ensures AddedLines(lines) == if flag then lines else []
  {
    if lines != [] {
      AddedLinesUniform(lines[1..], flag);
      assert lines == [lines[0]] + lines[1..];
    }
  }

  /** The lines a cart emits at checkout: its original lines, then its additions flagged `isAdd`. */
  function CartLines(c: CartState, ks1: seq<int>, ks2: seq<int>): seq<DishLine>
    requires forall k :: k in ks1 ==> k in c.dishOrders
    requires forall k :: k in ks2 ==> k in c.newDishOrders
  {
    LinesOfKeys(c.dishOrders, ks1, false) + LinesOfKeys(c.newDishOrders, ks2, true)
  }

  /**
   * The checkout lines carry, for every dish, all the units and discounted
   * units of both of the cart's maps, and exactly the lines of the
   * additions map are flagged as added.
   */
  lemma CartLinesCount(c: CartState, ks1: seq<int>, ks2: seq<int>, did: int)
    requires Enumerates(ks1, c.dishOrders.Keys) && Enumerates(ks2, c.newDishOrders.Keys)
    ensures UnitsOf(CartLines(c, ks1, ks2), did) == DishNum(c, did)
    ensures DiscountedOf(CartLines(c, ks1, ks2), did) == UsedInCart(c, did)
    ensures AddedLines(CartLines(c, ks1, ks2)) == LinesOfKeys(c.newDishOrders, ks2, true)
    ensures UnitsOf(AddedLines(CartLines(c, ks1, ks2)), did) == LineOf(c.newDishOrders, did).num
  {
    var a := LinesOfKeys(c.dishOrders, ks1, false);
    var b := LinesOfKeys(c.newDishOrders, ks2, true);
    var lines := CartLines(c, ks1, ks2);
    assert lines == a + b;
    UnitsOfEnumeration(c.newDishOrders, ks2, true, did);
    assert UnitsOf(lines, did) == DishNum(c, did) && DiscountedOf(lines, did) == UsedInCart(c, did) by {
      UnitsOfAppend(a, b, did);
      UnitsOfEnumeration(c.dishOrders, ks1, false, did);
    }
    assert AddedLines(lines) == b by {
      AddedLinesAppend(a, b);
      AddedLinesUniform(a, false);
      AddedLinesUniform(b, true);
      assert [] + b == b;
    }
  }

  /**
   * The status an order starts in when it is built from a cart: dine-in is
   * confirming at once; dine-in with a deposit pays the deposit first,
   * unless it continues a placed order; takeaway and delivery start unpaid.
   */
  function InitialOrderType(consumeType: int, complete: bool): int
  {
    if consumeType == 0 then OrderStatus.CONFIRMING
    else if consumeType == 1 then (if !complete then OrderStatus.TO_BE_PAID_MARGIN else OrderStatus.CONFIRMING)
    else OrderStatus.TO_BE_PAID
  }

  /**
   * A new order starts in the first state of its consumption type's flow,
   * and a continuation of a deposit order resumes at its confirming stage;
   * either way the status has a successor.
   */
  lemma InitialOrderTypeOnPath(consumeType: int, complete: bool)
    requires 0 <= consumeType < 4
    ensures !complete ==> InitialOrderType(consumeType, complete) == OrderStatus.Path(consumeType)[0]
    ensures complete && consumeType == 1 ==> InitialOrderType(consumeType, complete) == OrderStatus.Path(1)[1]
    ensures OrderStatus.NextStatus(consumeType, InitialOrderType(consumeType, complete)).Some?
  {
    OrderStatus.SuccessorDefinedIffNotCompleted(consumeType, InitialOrderType(consumeType, complete));
  }

  /**
   * The order a cart checks out as: a rebuilt cart continues its placed
   * order under that order's id, any other cart is a new order (no id yet);
   * the price and the discount are the cart's running totals.
   */
  function OrderOfCart(c: CartState, uid: string, lines: seq<DishLine>): Order
  {
    Order(if c.complete then c.orderId else "", uid, c.storeId, c.tableId, c.consumeType,
          InitialOrderType(c.consumeType, c.complete), c.totalPrice, c.discount, "", None,
          !c.complete, 0, lines)
  }

  /** The cart lines an order's lines replay into; a later line for the same dish replaces an earlier one. */
  function LinesToMap(lines: seq<DishLine>): map<int, DishOrder>
  {
    if lines == [] then map[]
    else LinesToMap(lines[..|lines| - 1])[lines[|lines| - 1].dishId := FromLine(lines[|lines| - 1])]
  }

  /** The cart rebuilt from a placed order: complete, holding its table, every line in the original map. */
  function CartFromOrder(o: Order): CartState
  {
    CartState(o.userId, o.id, o.storeId, o.table, o.consumeType, o.originalPrice, o.shopDiscount,
              0, true, true, LinesToMap(o.dishOrders), map[])
  }

  /** Every ordered dish has an entry in the replayed map. */
  lemma {:induction false} LinesToMapHas(lines: seq<DishLine>, i: int)
    requires 0 <= i < |lines|
    ensures lines[i].dishId in LinesToMap(lines)
  {
    var n := |lines| - 1;
    if i < n {
      LinesToMapHas(lines[..n], i);
    }
  }

  /** Every entry of the replayed map is an ordered dish. */
  lemma {:induction false} LinesToMapOnly(lines: seq<DishLine>, k: int) returns (i: int)
    requires k in LinesToMap(lines)
    ensures 0 <= i < |lines| && lines[i].dishId == k
  {
    var n := |lines| - 1;
    if lines[n].dishId == k {
      i := n;
    } else {
      i := LinesToMapOnly(lines[..n], k);
    }
  }

  /** A dish's entry is its last line. */
  lemma {:induction false} LinesToMapLast(lines: seq<DishLine>, i: int)
    requires 0 <= i < |lines|
    requires forall j :: i < j < |lines| ==> lines[j].dishId != lines[i].dishId
    ensures lines[i].dishId in LinesToMap(lines) && LinesToMap(lines)[lines[i].dishId] == FromLine(lines[i])
  {
    var n := |lines| - 1;
    if i < n {
      var init := lines[..n];
      assert forall j :: i < j < |init| ==> init[j] == lines[j];
      LinesToMapLast(init, i);
      assert lines[n].dishId != lines[i].dishId;
    }
  }

  /** The replayed map holds exactly the ordered dishes, each with its last line. */
  lemma LinesToMapEntries(lines: seq<DishLine>)
    ensures forall k :: k in LinesToMap(lines) <==> exists i :: 0 <= i < |lines| && lines[i].dishId == k
    ensures forall i :: 0 <= i < |lines| && (forall j :: i < j < |lines| ==> lines[j].dishId != lines[i].dishId) ==>
      LinesToMap(lines)[lines[i].dishId] == FromLine(lines[i])
  {
    forall k
      ensures k in LinesToMap(lines) <==> exists i :: 0 <= i < |lines| && lines[i].dishId == k
    {
      if k in LinesToMap(lines) {
        var i := LinesToMapOnly(lines, k);
      }
      if exists i :: 0 <= i < |lines| && lines[i].dishId == k {
        var i :| 0 <= i < |lines| && lines[i].dishId == k;
        LinesToMapHas(lines, i);
      }
    }
    forall i | 0 <= i < |lines| && (forall j :: i < j < |lines| ==> lines[j].dishId != lines[i].dishId)
      ensures LinesToMap(lines)[lines[i].dishId] == FromLine(lines[i])
    {
      LinesToMapLast(lines, i);
    }
  }

  /** Distinct-dish lines: the order lines with the `isAdd` flag cleared. */
  function Cleared(lines: seq<DishLine>): (r: seq<DishLine>)
    ensures |r| == |lines|
  {
    seq(|lines|, i requires 0 <= i < |lines| => lines[i].(isAdd := false))
  }

  predicate DistinctDishes(lines: seq<DishLine>)
  {
    forall i, j :: 0 <= i < j < |lines| ==> lines[i].dishId != lines[j].dishId
  }

  /** A list without repeats has as many distinct elements as it is long. */
  lemma {:induction false} DistinctCard(ks: seq<int>)
    requires forall i, j :: 0 <= i < j < |ks| ==> ks[i] != ks[j]
    ensures |set k | k in ks| == |ks|
  {
    if ks != [] {
      var ks' := ks[..|ks| - 1];
      DistinctCard(ks');
      assert (set k | k in ks) == (set k | k in ks') + {ks[|ks| - 1]};
      assert forall i :: 0 <= i < |ks'| ==> ks'[i] == ks[i] && ks[i] != ks[|ks| - 1];
    }
  }

  /** Every line the replayed cart emits is an original line with its flag cleared, and the other way round. */
  lemma ReplayedLinesMembers(lines: seq<DishLine>, ks: seq<int>)
    requires DistinctDishes(lines)
    requires Enumerates(ks, LinesToMap(lines).Keys)
    ensures forall l :: l in LinesOfKeys(LinesToMap(lines), ks, false) <==> l in Cleared(lines)
  {
    var m := LinesToMap(lines);
    var out := LinesOfKeys(m, ks, false);
    LinesToMapEntries(lines);
    forall l | l in out ensures l in Cleared(lines) {
      var i :| 0 <= i < |out| && out[i] == l;
      var j :| 0 <= j < |lines| && lines[j].dishId == ks[i];
      assert m[ks[i]] == FromLine(lines[j]);
      assert Cleared(lines)[j] == l;
    }
    forall l | l in Cleared(lines) ensures l in out {
      var j :| 0 <= j < |lines| && Cleared(lines)[j] == l;
      var k := lines[j].dishId;
      assert k in m;
      var i :| 0 <= i < |ks| && ks[i] == k;
      assert m[k] == FromLine(lines[j]);
      assert out[i] == l;
    }
  }

  /** The replayed map has one key per line when the lines name distinct dishes. */
  lemma ReplayedLinesCount(lines: seq<DishLine>, ks: seq<int>)
    requires DistinctDishes(lines)
    requires Enumerates(ks, LinesToMap(lines).Keys)
    ensures |ks| == |lines|
  {
    var m := LinesToMap(lines);
    var ids := seq(|lines|, i requires 0 <= i < |lines| => lines[i].dishId);
    DistinctCard(ids);
    DistinctCard(ks);
    forall k | k in ids ensures k in m {
      var i :| 0 <= i < |ids| && ids[i] == k;
      LinesToMapHas(lines, i);
    }
    forall k | k in m ensures k in ids {
      var i := LinesToMapOnly(lines, k);
      assert ids[i] == k;
    }
    assert (set k | k in ids) == m.Keys;
    assert (set k | k in ks) == m.Keys;
  }

  /**
   * Replaying an order with one line per dish into a cart and checking the
   * cart out again gives back the same order: the same id, now a
   * continuation, the same totals, and the same lines (in some order, none
   * of them flagged as added), so no dish is taken a second time.
   */
  lemma ReplayRoundTrip(o: Order, ks: seq<int>)
    requires DistinctDishes(o.dishOrders)
    requires Enumerates(ks, LinesToMap(o.dishOrders).Keys)
    ensures var c := CartFromOrder(o);
      var o2 := OrderOfCart(c, o.userId, CartLines(c, ks, []));
      && o2.id == o.id && !o2.isNew && o2.userId == o.userId && o2.storeId == o.storeId
      && o2.table == o.table && o2.consumeType == o.consumeType
      && o2.originalPrice == o.originalPrice && o2.shopDiscount == o.shopDiscount
      && |o2.dishOrders| == |o.dishOrders|
      && (forall l :: l in o2.dishOrders <==> l in Cleared(o.dishOrders))
      && AddedLines(o2.dishOrders) == []
  {
    var c := CartFromOrder(o);
    var out := CartLines(c, ks, []);
    assert out == LinesOfKeys(c.dishOrders, ks, false) + [];
    ReplayedLinesMembers(o.dishOrders, ks);
    ReplayedLinesCount(o.dishOrders, ks);
    AddedLinesUniform(out, false);
  }
}
