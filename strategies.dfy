/**
 * The four order-placement strategies. Each turns a confirmed cart (an
 * `Order`) into an order message for the background consumer, and differs
 * in where stock is checked and taken:
 *
 *  - high concurrency: checked and taken in the cache, made durable later;
 *  - optimistic: nothing at placement, the consumer takes durable stock;
 *  - pessimistic: checked and taken in durable stock at placement;
 *  - serialize: a placeholder that does nothing.
 *
 * A new order (`isNew`) gets fresh ids; a continuation (dishes added to an
 * already placed order) only handles the lines marked `isAdd`. The clock,
 * the id generators and whether the broker accepts a message are the
 * `Fresh` parameter.
 */
module Strategies {
  import opened Common
  import opened RedisStore
  import opened Database
  import opened Messages
  import opened CacheManager
  import opened DishNumMaps
  import OrderStatus

  /** Why a placement failed. */
  datatype PlaceError =
    | OutOfStock   // a requested dish is short (or unknown to the store)
    | CacheMiss    // a stock entry is still missing after the refill
    | SendFailed   // the broker refused the order message
    | NoStrategy   // no strategy is selected
    | NoCart       // the customer has no cart to place (already placed, or never filled)

  /** The reply to a new order: what the customer pays under, and the order's id. */
  datatype PayInfo = PayInfo(payId: string, orderId: string)

  /** A placement either succeeds, with a reply for new orders only, or fails. */
  datatype Outcome = Placed(reply: Option<PayInfo>) | Failed(error: PlaceError)

  /** The time, the two fresh ids, the pick-up code generated for this placement, and whether sending fails. */
  datatype Fresh = Fresh(now: int, orderId: string, payId: string, fetchCode: string, sendFails: bool)

  /** The lines of a continuation that were added to the placed order. */
  function AddedLines(lines: seq<DishLine>): seq<DishLine>
  {
    if lines == [] then []
    else (if lines[0].isAdd then [lines[0]] else []) + AddedLines(lines[1..])
  }

  /** The filter keeps exactly the added lines, and no more lines than it was given. */
  lemma {:induction false} AddedLinesMembers(lines: seq<DishLine>)
    ensures forall l :: l in AddedLines(lines) <==> l in lines && l.isAdd
    ensures |AddedLines(lines)| <= |lines|
  {
    if lines != [] {
      AddedLinesMembers(lines[1..]);
      assert lines == [lines[0]] + lines[1..];
    }
  }

  lemma {:induction false} AddedLinesAppend(a: seq<DishLine>, b: seq<DishLine>)
    ensures AddedLines(a + b) == AddedLines(a) + AddedLines(b)
  {
    if a == [] {
      assert a + b == b;
    } else {
      var head := if a[0].isAdd then [a[0]] else [];
      AddedLinesAppend(a[1..], b);
      assert (a + b)[0] == a[0];
      assert (a + b)[1..] == a[1..] + b;
      calc {
        AddedLines(a + b);
        head + AddedLines(a[1..] + b);
        head + (AddedLines(a[1..]) + AddedLines(b));
        (head + AddedLines(a[1..])) + AddedLines(b);
      }
    }
  }

  /** A new order as the strategies complete it: marked new, stamped, given fresh ids, and a pick-up code for takeaway. */
  function PrepareNewOrder(o: Order, f: Fresh): (o2: Order)
    ensures o2.isNew && o2.id == f.orderId && o2.payId == f.payId && o2.createTime == f.now
    ensures o2.fetchMealCode == if o.consumeType == 2 then Some(f.fetchCode) else o.fetchMealCode
    ensures o2.(isNew := o.isNew, id := o.id, payId := o.payId, createTime := o.createTime,
                fetchMealCode := o.fetchMealCode) == o
  {
    o.(isNew := true, createTime := f.now, id := f.orderId, payId := f.payId,
       fetchMealCode := if o.consumeType == 2 then Some(f.fetchCode) else o.fetchMealCode)
  }

  /** A continuation as the strategies send it on: only the added lines, back to confirming. */
  function PrepareOldOrder(o: Order): (o2: Order)
    ensures !o2.isNew && o2.orderType == OrderStatus.CONFIRMING
    ensures o2.dishOrders == AddedLines(o.dishOrders)
    ensures o2.(isNew := o.isNew, orderType := o.orderType, dishOrders := o.dishOrders) == o
  {
    o.(isNew := false, dishOrders := AddedLines(o.dishOrders), orderType := OrderStatus.CONFIRMING)
  }

  /** The order a placement sends on. */
  function PlacedOrder(o: Order, f: Fresh): Order
  {
    if o.isNew then PrepareNewOrder(o, f) else PrepareOldOrder(o)
  }

  /** The lines a placement takes stock for: the whole order, or only the added lines of a continuation. */
  function PlacedLines(o: Order): seq<DishLine>
  {
    if o.isNew then o.dishOrders else AddedLines(o.dishOrders)
  }

  /** The units a placement takes, per dish. */
  function PlacementMap(o: Order, combos: ComboTable): map<int, int>
  {
    DishNumMap(PlacedLines(o), combos)
  }

  /** What a successful placement answers: pay info for a new order, nothing for a continuation. */
  function PlacedReply(o: Order, f: Fresh): Option<PayInfo>
  {
    if o.isNew then Some(PayInfo(f.payId, f.orderId)) else None
  }

  /** A continuation takes nothing for a line that was not added, wherever that line stands. */
  lemma ContinuationIgnoresPlacedLines(o: Order, l: DishLine, combos: ComboTable)
    requires !o.isNew && !l.isAdd
    ensures PlacementMap(o.(dishOrders := o.dishOrders + [l]), combos) == PlacementMap(o, combos)
    ensures PlacementMap(o.(dishOrders := [l] + o.dishOrders), combos) == PlacementMap(o, combos)
  {
    AddedLinesAppend(o.dishOrders, [l]);
    AddedLinesAppend([l], o.dishOrders);
    assert AddedLines([l]) == [];
    assert AddedLines(o.dishOrders) + [] == AddedLines(o.dishOrders);
    assert [] + AddedLines(o.dishOrders) == AddedLines(o.dishOrders);
  }

  /** A continuation takes, for every dish, exactly the units of its added lines, and the order it sends carries just those lines. */
  lemma ContinuationTakesAddedUnits(o: Order, combos: ComboTable, f: Fresh, id: int)
    requires !o.isNew
    ensures GetOrZero(PlacementMap(o, combos), id) == Units(AddedLines(o.dishOrders), combos, id)
    ensures PlacedOrder(o, f).dishOrders == AddedLines(o.dishOrders)
  {
    DishNumMapCounts(AddedLines(o.dishOrders), combos);
  }

  // ---------------------------------------------------------------------
  // The completion marker the consumer writes: 0 pending, 1 done, -1 failed.
  // ---------------------------------------------------------------------

  /**
   * The marker value while the marker key is present (it exists with a time
   * to live), and 0 otherwise; None when the present key holds no plain
   * value, where the source's read fails.
   */
  function IsComplete(r: Redis, orderId: string): (v: Option<int>)
    reads r
    ensures !HasKey(r, OrderMessageCacheKey(orderId)) ==> v == Some(0)
    ensures HasKey(r, OrderMessageCacheKey(orderId)) ==>
      (v.Some? <==> OrderMessageCacheKey(orderId) in r.values) &&
      (v.Some? ==> v.value == r.values[OrderMessageCacheKey(orderId)])
  {
    var key := OrderMessageCacheKey(orderId);
    if !HasKey(r, key) then Some(0)
    else if key in r.values then Some(r.values[key])
    else None
  }

  // ---------------------------------------------------------------------
  // Stock arithmetic shared by the strategies.
  // ---------------------------------------------------------------------

  /** Every requested dish has an entry. */
  predicate Present(h: map<int, int>, m: map<int, int>)
  {
    forall id :: id in m ==> id in h
  }

  /** No requested dish that has an entry has fewer units than requested. */
  predicate Sufficient(h: map<int, int>, m: map<int, int>)
  {
    forall id :: id in m && id in h ==> h[id] >= m[id]
  }

  /** Every requested dish has an entry with at least the requested units. */
  predicate Available(h: map<int, int>, m: map<int, int>)
  {
    Present(h, m) && Sufficient(h, m)
  }

  /** A hash with `sign` times each requested amount added (an absent entry counts as 0). */
  function Shift(h: map<int, int>, m: map<int, int>, sign: int): map<int, int>
  {
    map k | k in h.Keys + m.Keys :: GetOrZero(h, k) + (if k in m then sign * m[k] else 0)
  }

  lemma ShiftNothing(h: map<int, int>, m: map<int, int>, sign: int)
    ensures Shift(h, m - m.Keys, sign) == h
  {
    assert m - m.Keys == map[];
  }

  lemma ShiftStep(h: map<int, int>, m: map<int, int>, todo: set<int>, id: int, sign: int)
    requires id in todo && id in m
    ensures Shift(h, m - (todo - {id}), sign) == AddTo(Shift(h, m - todo, sign), id, sign * m[id])
  {
  }

  lemma ShiftEmpty(h: map<int, int>, sign: int)
    ensures Shift(h, map[], sign) == h
  {
  }

  /** No oversell: taking what a passed check allowed leaves every entry at or above zero. */
  lemma NoOversell(h: map<int, int>, m: map<int, int>)
    requires Available(h, m)
    requires forall id :: id in h ==> h[id] >= 0
    ensures Shift(h, m, -1).Keys == h.Keys
    ensures forall id :: id in m ==> Shift(h, m, -1)[id] == h[id] - m[id]
    ensures forall id :: id in h && id !in m ==> Shift(h, m, -1)[id] == h[id]
    ensures forall id :: id in h ==> Shift(h, m, -1)[id] >= 0
  {
  }

  /**
   * Taking the units and then adding back the compensation map (the same
   * entries plus -1 mapped to the store) restores every dish other than -1;
   * a dish that had no entry ends with 0.
   */
  lemma {:induction false} DeductThenRollBack(h: map<int, int>, m: map<int, int>, storeId: int)
    requires -1 !in m
    ensures var back := Shift(Shift(h, m, -1), m[-1 := storeId], 1);
      forall id :: id != -1 ==> GetOrZero(back, id) == GetOrZero(h, id)
  {
    var back := Shift(Shift(h, m, -1), m[-1 := storeId], 1);
    forall id | id != -1
      ensures GetOrZero(back, id) == GetOrZero(h, id)
    {
      if id in m {
        assert id in back && back[id] == GetOrZero(h, id) - m[id] + m[id];
      }
    }
  }

  // ---------------------------------------------------------------------
  // The cache check with its refill, and the cache decrement.
  // ---------------------------------------------------------------------

  /**
   * What a check over `h` may answer: true exactly when every entry is there
   * and sufficient, a failed lookup (None) only when some entry is missing,
   * false only when some entry is short. Which of several problems is met
   * first depends on the hash map's iteration order, which is left open.
   */
  predicate CheckAnswers(h: map<int, int>, m: map<int, int>, res: Option<bool>)
  {
    && (res == Some(true) <==> Available(h, m))
    && (res == None ==> !Present(h, m))
    && (res == Some(false) ==> !Sufficient(h, m))
  }

  /** One pass over the requested dishes against the cached stock hash. */
  method CheckStockOnce(r: Redis, key: string, m: map<int, int>) returns (res: Option<bool>)
    ensures CheckAnswers(r.HashOf(key), m, res)
  {
    var todo := m.Keys;
    while todo != {}
      invariant todo <= m.Keys
      invariant forall id :: id in m && id !in todo ==> id in r.HashOf(key) && r.HashOf(key)[id] >= m[id]
      decreases |todo|
    {
      var id := Choose(todo);
      var v := r.HashGet(key, id);
      if v.None? {
        return None;
      }
      if v.value < m[id] {
        return Some(false);
      }
      todo := todo - {id};
    }
    return Some(true);
  }

  /** The stock hash after a refill from durable stock `s`; it is dropped first only when it counts as present. */
  function Refilled(h: map<int, int>, hadKey: bool, s: map<int, int>): map<int, int>
  {
    (if hadKey then map[] else h) + s
  }

  /**
   * How a check with one refill ends: either the first pass answered over
   * the cached hash `h`, or it met a missing entry, the hash was refilled
   * from `s`, and the answer is over the refilled hash `checked`.
   */
  predicate CheckOutcome(h: map<int, int>, hadKey: bool, s: map<int, int>, m: map<int, int>,
                         checked: map<int, int>, res: Option<bool>)
  {
    || (checked == h && res.Some? && CheckAnswers(h, m, res))
    || (!Present(h, m) && checked == Refilled(h, hadKey, s) && CheckAnswers(checked, m, res))
  }

  /**
   * The check with its refill: a missing entry refills the store's stock
   * hash from durable stock and checks once more; a miss on the second pass
   * ends the check with None.
   */
  method CheckStock(r: Redis, db: Db, m: map<int, int>, storeId: int) returns (res: Option<bool>)
    modifies r
    ensures var key := DishStockCacheKey(storeId);
      CheckOutcome(old(r.HashOf(key)), old(HasKey(r, key)), StockOf(db.t, storeId), m, r.HashOf(key), res)
    ensures OnlyKeyChanged(r, DishStockCacheKey(storeId))
  {
    var key := DishStockCacheKey(storeId);
    res := CheckStockOnce(r, key, m);
    if res == None {
      FlushRedisDishStockCache(r, StockOf(db.t, storeId), storeId);
      res := CheckStockOnce(r, key, m);
    }
  }

  /** With every entry cached, the check answers over the cache as it is. */
  lemma CachedStockIsUsed(h: map<int, int>, hadKey: bool, s: map<int, int>, m: map<int, int>,
                          checked: map<int, int>, res: Option<bool>)
    requires Present(h, m) && CheckOutcome(h, hadKey, s, m, checked, res)
    ensures checked == h && res.Some? && (res.value <==> Sufficient(h, m))
  {
  }

  /** Over an emptied cache, a non-empty request is always checked against the durable stock itself. */
  lemma EmptiedCacheChecksDurableStock(s: map<int, int>, m: map<int, int>, checked: map<int, int>, res: Option<bool>)
    requires m != map[] && CheckOutcome(map[], false, s, m, checked, res)
    ensures checked == s
    ensures res == Some(true) <==> Available(s, m)
    ensures res == Some(false) ==> !Sufficient(s, m)
    ensures res == None ==> !Present(s, m)
  {
    var empty: map<int, int> := map[];
    NonEmptyHasKey(m);
    var id :| id in m;
    assert !Present(empty, m);
    assert Sufficient(empty, m);
    assert !CheckAnswers(empty, m, Some(true)) && !CheckAnswers(empty, m, Some(false));
    if res.Some? {
      if res.value {
        assert res == Some(true);
      } else {
        assert res == Some(false);
      }
    }
    assert Refilled(empty, false, s) == s;
  }

  /** `x` is `h` with the dishes of `m` outside `todo` already shifted. */
  predicate ShiftedBy(x: map<int, int>, h: map<int, int>, m: map<int, int>, todo: set<int>, sign: int)
  {
    && x.Keys == h.Keys + (m.Keys - todo)
    && forall k :: k in x ==> x[k] == GetOrZero(h, k) + (if k in m && k !in todo then sign * m[k] else 0)
  }

  lemma ShiftedByStep(x: map<int, int>, h: map<int, int>, m: map<int, int>, todo: set<int>, id: int, sign: int)
    requires ShiftedBy(x, h, m, todo, sign) && id in todo && id in m
    ensures ShiftedBy(AddTo(x, id, sign * m[id]), h, m, todo - {id}, sign)
  {
  }

  lemma ShiftedByAll(x: map<int, int>, h: map<int, int>, m: map<int, int>, sign: int)
    requires ShiftedBy(x, h, m, {}, sign)
    ensures x == Shift(h, m, sign)
  {
  }

  /** One HINCRBY of the loop below, stated without the arithmetic of the whole map. */
  method IncrementOne(r: Redis, key: string, id: int, d: int,
                      ghost h: map<int, int>, ghost m: map<int, int>, ghost todo: set<int>, ghost sign: int)
    requires id in todo && id in m && d == sign * m[id] && ShiftedBy(r.HashOf(key), h, m, todo, sign)
    modifies r`hashes
    ensures ShiftedBy(r.HashOf(key), h, m, todo - {id}, sign)
    ensures r.hashes == old(r.hashes)[key := r.HashOf(key)]
  {
    ShiftedByStep(r.HashOf(key), h, m, todo, id, sign);
    r.HashIncrement(key, id, d);
  }

  /** HINCRBY of every requested dish by `sign` times its amount. */
  method IncrementFields(r: Redis, key: string, m: map<int, int>, sign: int)
    modifies r`hashes
    ensures m == map[] ==> r.hashes == old(r.hashes)
    ensures m != map[] ==> r.hashes == old(r.hashes)[key := Shift(old(r.HashOf(key)), m, sign)]
  {
    ghost var h := r.HashOf(key);
    var todo := m.Keys;
    while todo != {}
      invariant todo <= m.Keys
      invariant ShiftedBy(r.HashOf(key), h, m, todo, sign)
      invariant todo == m.Keys ==> r.hashes == old(r.hashes)
      invariant todo != m.Keys ==> r.hashes == old(r.hashes)[key := r.HashOf(key)]
      decreases |todo|
    {
      var id := Choose(todo);
      IncrementOne(r, key, id, sign * m[id], h, m, todo, sign);
      todo := todo - {id};
    }
    ShiftedByAll(r.HashOf(key), h, m, sign);
    assert m == map[] <==> m.Keys == {};
  }

  // ---------------------------------------------------------------------
  // The high-concurrency strategy.
  // ---------------------------------------------------------------------

  /** Distinct stores never share a stock key. */
  lemma DistinctStoresDistinctKeys(a: int, b: int)
    requires a != b
    ensures DishStockCacheKey(a) != DishStockCacheKey(b)
  {
    if DishStockCacheKey(a) == DishStockCacheKey(b) {
      DishStockKeyInjective(a, b);
    }
  }

  /** In the cache's hashes, the stock hash of store `s` holds every dish of that store with its durable stock. */
  predicate Refreshed(hashes: map<string, map<int, int>>, t: Tables, s: int)
  {
    forall id :: id in StockOf(t, s) ==>
      DishStockCacheKey(s) in hashes && id in hashes[DishStockCacheKey(s)] &&
      hashes[DishStockCacheKey(s)][id] == StockOf(t, s)[id]
  }

  /** Refilling one store leaves every other store's refreshed hash as it was. */
  lemma RefreshedKept(before: map<string, map<int, int>>, after: map<string, map<int, int>>, t: Tables, s: int, sid: int)
    requires after - {DishStockCacheKey(sid)} == before - {DishStockCacheKey(sid)} && s != sid
    requires Refreshed(before, t, s)
    ensures Refreshed(after, t, s)
  {
    var k := DishStockCacheKey(s);
    DistinctStoresDistinctKeys(s, sid);
    if k in before {
      assert k in before - {DishStockCacheKey(sid)};
      assert after[k] == (after - {DishStockCacheKey(sid)})[k] == before[k];
    }
  }

  /** Switching the strategy on refills the stock hash of every store from durable stock. */
  method HighConcurrencyInit(r: Redis, db: Db)
    modifies r
    ensures forall s, id :: s in db.t.storeIds && id in StockOf(db.t, s) ==>
      r.HashGet(DishStockCacheKey(s), id) == Some(StockOf(db.t, s)[id])
  {
    var todo := db.t.storeIds;
    while todo != {}
      invariant todo <= db.t.storeIds
      invariant forall s :: s in db.t.storeIds - todo ==> Refreshed(r.hashes, db.t, s)
      decreases |todo|
    {
      var sid := Choose(todo);
      ghost var before := r.hashes;
      FlushRedisDishStockCache(r, StockOf(db.t, sid), sid);
      forall s | s in db.t.storeIds - todo
        ensures Refreshed(r.hashes, db.t, s)
      {
        RefreshedKept(before, r.hashes, db.t, s, sid);
      }
      assert Refreshed(r.hashes, db.t, sid);
      todo := todo - {sid};
    }
    assert forall s :: s in db.t.storeIds ==> Refreshed(r.hashes, db.t, s);
  }

  /**
   * The high-concurrency placement. A new order first drops the store's
   * stock hash, so its check always refills it from durable stock. The
   * check answers `answer` over the hash `checked` (the cached one, or the
   * refilled one); on a passing check every requested unit is taken off the
   * cached stock and the order message, carrying the map of what was taken,
   * is sent. If the broker refuses it, a compensation map (the same entries
   * plus -1 mapped to the store) is sent for the consumer to add back.
   */
  twostate predicate HighConcurrencyPlaced(r: Redis, db: Db, b: Broker, o: Order, combos: ComboTable, f: Fresh,
                                          out: Outcome, checked: map<int, int>, new answer: Option<bool>)
    reads r, db, b
  {
    var key := DishStockCacheKey(o.storeId);
    var m := PlacementMap(o, combos);
    var h0 := if o.isNew then map[] else old(r.HashOf(key));
    var had := if o.isNew then false else old(HasKey(r, key));
    && CheckOutcome(h0, had, StockOf(db.t, o.storeId), m, checked, answer)
    && (answer == None ==> out == Failed(CacheMiss) && r.HashOf(key) == checked && b.sent == old(b.sent))
    && (answer == Some(false) ==> out == Failed(OutOfStock) && r.HashOf(key) == checked && b.sent == old(b.sent))
    && (answer == Some(true) ==> r.HashOf(key) == Shift(checked, m, -1))
    && (answer == Some(true) && !f.sendFails ==>
          out == Placed(PlacedReply(o, f)) &&
          b.sent == old(b.sent) + [AddOrder(NewOrderMessage(Some(m), PlacedOrder(o, f)))])
    && (answer == Some(true) && f.sendFails ==>
          out == Failed(SendFailed) &&
          b.sent == old(b.sent) + [RollbackStock(m[-1 := o.storeId])])
    && OnlyKeyChanged(r, key)
  }

  method HighConcurrencyPlace(r: Redis, db: Db, b: Broker, o: Order, combos: ComboTable, f: Fresh)
    returns (out: Outcome, ghost checked: map<int, int>, ghost answer: Option<bool>)
    modifies r, b
    ensures HighConcurrencyPlaced(r, db, b, o, combos, f, out, checked, answer)
  {
    var key := DishStockCacheKey(o.storeId);
    var m := GetDishNumMap(PlacedLines(o), combos);
    var res := DropAndCheck(r, db, m, o.storeId, o.isNew);
    checked, answer := r.HashOf(key), res;
    if res == None {
      return Failed(CacheMiss), checked, answer;
    }
    if res == Some(false) {
      return Failed(OutOfStock), checked, answer;
    }
    out := DeductAndSend(r, b, key, m, o.storeId, PlacedOrder(o, f), PlacedReply(o, f), f.sendFails);
  }

  /** The placement's check; a new order first drops the store's stock hash. */
  method DropAndCheck(r: Redis, db: Db, m: map<int, int>, storeId: int, isNew: bool) returns (res: Option<bool>)
    modifies r
    ensures var key := DishStockCacheKey(storeId);
      var h0 := if isNew then map[] else old(r.HashOf(key));
      var had := if isNew then false else old(HasKey(r, key));
      CheckOutcome(h0, had, StockOf(db.t, storeId), m, r.HashOf(key), res)
    ensures OnlyKeyChanged(r, DishStockCacheKey(storeId))
  {
    if isNew {
      r.Delete(DishStockCacheKey(storeId));
    }
    res := CheckStock(r, db, m, storeId);
  }

  /** The part of the placement after a passed check: take the units off the cache, then send. */
  method DeductAndSend(r: Redis, b: Broker, key: string, m: map<int, int>, storeId: int,
                       order: Order, reply: Option<PayInfo>, sendFails: bool)
    returns (out: Outcome)
    modifies r`hashes, b
    ensures r.HashOf(key) == Shift(old(r.HashOf(key)), m, -1)
    ensures r.hashes - {key} == old(r.hashes) - {key}
    ensures !sendFails ==> out == Placed(reply) && b.sent == old(b.sent) + [AddOrder(NewOrderMessage(Some(m), order))]
    ensures sendFails ==> out == Failed(SendFailed) && b.sent == old(b.sent) + [RollbackStock(m[-1 := storeId])]
  {
    ghost var h := r.HashOf(key);
    IncrementFields(r, key, m, -1);
    ShiftEmpty(h, -1);
    if sendFails {
      b.Publish(RollbackStock(m[-1 := storeId]));
      out := Failed(SendFailed);
    } else {
      b.Publish(AddOrder(NewOrderMessage(Some(m), order)));
      out := Placed(reply);
    }
  }

  // ---------------------------------------------------------------------
  // The optimistic strategy.
  // ---------------------------------------------------------------------

  /** The optimistic placement: no stock is read or taken; the message carries the whole map for the consumer. */
  twostate predicate OptimisticPlaced(b: Broker, o: Order, combos: ComboTable, f: Fresh, out: Outcome)
    reads b
  {
    && (!f.sendFails ==>
          out == Placed(PlacedReply(o, f)) &&
          b.sent == old(b.sent) + [AddOrder(NewOrderMessage(Some(PlacementMap(o, combos)), PlacedOrder(o, f)))])
    && (f.sendFails ==> out == Failed(SendFailed) && b.sent == old(b.sent))
  }

  method OptimisticPlace(b: Broker, o: Order, combos: ComboTable, f: Fresh) returns (out: Outcome)
    modifies b
    ensures OptimisticPlaced(b, o, combos, f, out)
  {
    var m := GetDishNumMap(PlacedLines(o), combos);
    var order := PlacedOrder(o, f);
    if f.sendFails {
      return Failed(SendFailed);
    }
    b.Publish(AddOrder(NewOrderMessage(Some(m), order)));
    out := Placed(PlacedReply(o, f));
  }

  // ---------------------------------------------------------------------
  // The pessimistic strategy.
  // ---------------------------------------------------------------------

  /** Java's `int << n`: only the low five bits of the distance count. */
  function JavaIntShiftLeft(x: bv32, n: nat): bv32
  {
    x << (n % 32)
  }

  /** A Java int as its 32 bits. */
  function ToBits(x: int): bv32
  {
    (x % 0x1_0000_0000) as bv32
  }

  /** 32 bits read back as a Java int (widening it to a long keeps the value). */
  function FromBits(b: bv32): int
  {
    if b as int >= 0x8000_0000 then b as int - 0x1_0000_0000 else b as int
  }

  /** The lock key as the strategy computes it, `(did << 32) | sid` on Java ints: the shift is by 0. */
  function LockKeyAsWritten(did: int, sid: int): (k: int)
    ensures k == FromBits(ToBits(did) | ToBits(sid))
  {
    FromBits(JavaIntShiftLeft(ToBits(did), 32) | ToBits(sid))
  }

  /** Two different (dish, store) pairs get the same lock key as written. */
  lemma LockKeyAsWrittenCollides()
    ensures (1, 2) != (3, 0) && LockKeyAsWritten(1, 2) == LockKeyAsWritten(3, 0) == 3
  {
    assert ToBits(1) == 1 && ToBits(2) == 2 && ToBits(3) == 3 && ToBits(0) == 0;
    assert (1 as bv32 | 2 as bv32) == 3;
    assert (3 as bv32 | 0 as bv32) == 3;
  }

  predicate IsInt32(x: int)
  {
    -0x8000_0000 <= x < 0x8000_0000
  }

  /** The evidently intended lock key, `((long) did << 32) | (sid & 0xFFFFFFFFL)`. */
  function LockKey(did: int, sid: int): int
  {
    did * 0x1_0000_0000 + sid % 0x1_0000_0000
  }

  lemma SplitKey(d: int, r: int)
    requires 0 <= r < 0x1_0000_0000
    ensures (d * 0x1_0000_0000 + r) / 0x1_0000_0000 == d
    ensures (d * 0x1_0000_0000 + r) % 0x1_0000_0000 == r
  {
  }

  /** Distinct (dish, store) pairs of Java ints get distinct intended lock keys. */
  lemma LockKeyInjective(d1: int, s1: int, d2: int, s2: int)
    requires IsInt32(d1) && IsInt32(s1) && IsInt32(d2) && IsInt32(s2)
    requires LockKey(d1, s1) == LockKey(d2, s2)
    ensures d1 == d2 && s1 == s2
  {
    SplitKey(d1, s1 % 0x1_0000_0000);
    SplitKey(d2, s2 % 0x1_0000_0000);
    assert s1 % 0x1_0000_0000 == (if s1 >= 0 then s1 else s1 + 0x1_0000_0000);
    assert s2 % 0x1_0000_0000 == (if s2 >= 0 then s2 else s2 + 0x1_0000_0000);
  }

  /** A lock; only its identity matters here. */
  class Lock {
    constructor ()
    {
    }
  }

  /** The shared registry of per-(dish, store) locks. */
  class LockMap {
    var locks: map<int, Lock>

    constructor ()
      ensures locks == map[]
    {
      locks := map[];
    }

    /** The pair's lock, created on first use; later calls for the same pair return the same lock. */
    method GetLock(did: int, sid: int) returns (l: Lock)
      modifies this
      ensures LockKey(did, sid) in old(locks) ==> l == old(locks)[LockKey(did, sid)] && locks == old(locks)
      ensures LockKey(did, sid) !in old(locks) ==> fresh(l) && locks == old(locks)[LockKey(did, sid) := l]
    {
      var key := LockKey(did, sid);
      if key !in locks {
        var created := new Lock();
        locks := locks[key := created];
      }
      l := locks[key];
    }
  }

  /** The tables while the deduction is under way: the dishes out of `todo` have been taken. */
  function Deducting(t: Tables, sid: int, m: map<int, int>, todo: set<int>): Tables
  {
    t.(stock := t.stock[sid := Shift(StockOf(t, sid), m - todo, -1)])
  }

  /** The tables after every requested unit has been taken off one store's durable stock. */
  function Deducted(t: Tables, sid: int, m: map<int, int>): Tables
  {
    if m == map[] then t else Deducting(t, sid, m, {})
  }

  lemma StockStep(s: map<int, int>, m: map<int, int>, todo: set<int>, id: int)
    requires todo <= m.Keys && id in todo
    ensures (id in Shift(s, m - todo, -1)) == (id in s)
    ensures id in s ==> Shift(s, m - todo, -1)[id] == s[id]
    ensures id in s ==> Shift(s, m - todo, -1)[id := s[id] - m[id]] == Shift(s, m - (todo - {id}), -1)
  {
    ShiftStep(s, m, todo, id, -1);
  }

  /** The conditional deduction of a dish with enough stock succeeds and sets it to the given value. */
  lemma DeductSucceeds(t: Tables, sid: int, id: int, n: int, rest: map<int, int>)
    requires id in StockOf(t, sid) && StockOf(t, sid)[id] >= n
    requires StockOf(t, sid)[id := StockOf(t, sid)[id] - n] == rest
    ensures var u := OptimisticDeductInventory(t, sid, id, n);
      u.rows == 1 && u.tables == t.(stock := t.stock[sid := rest])
  {
  }

  /** The tables a deduction loop has reached, with the dishes out of `todo` taken. */
  function Reached(t: Tables, sid: int, m: map<int, int>, todo: set<int>): Tables
  {
    if todo == m.Keys then t else Deducting(t, sid, m, todo)
  }

  /** Before its turn, a dish still has the stock it had before the loop. */
  lemma ReachedStock(t: Tables, sid: int, m: map<int, int>, todo: set<int>, id: int)
    requires todo <= m.Keys && id in todo
    ensures StockOf(Reached(t, sid, m, todo), sid) == Shift(StockOf(t, sid), m - todo, -1)
    ensures GetTheDishInventory(Reached(t, sid, m, todo), sid, id) == GetTheDishInventory(t, sid, id)
  {
    var s := StockOf(t, sid);
    StockStep(s, m, todo, id);
    if todo == m.Keys {
      ShiftNothing(s, m, -1);
    }
  }

  /**
   * One conditional deduction of a loop over the requested dishes: it
   * succeeds exactly when the dish had enough stock before the loop, and
   * then it takes that one more dish.
   */
  lemma DeductStep(t: Tables, sid: int, m: map<int, int>, todo: set<int>, id: int)
    requires todo <= m.Keys && id in todo
    ensures var u := OptimisticDeductInventory(Reached(t, sid, m, todo), sid, id, m[id]);
      && (u.rows == 1 <==> id in StockOf(t, sid) && StockOf(t, sid)[id] >= m[id])
      && (u.rows == 1 ==> u.tables == Deducting(t, sid, m, todo - {id}))
  {
    var s := StockOf(t, sid);
    var cur := Reached(t, sid, m, todo);
    ReachedStock(t, sid, m, todo, id);
    StockStep(s, m, todo, id);
    var u := OptimisticDeductInventory(cur, sid, id, m[id]);
    assert u.rows == 1 <==> id in s && s[id] >= m[id];
    if id in s && s[id] >= m[id] {
      var next := Shift(s, m - (todo - {id}), -1);
      DeductSucceeds(cur, sid, id, m[id], next);
      RestockedTwice(t, sid, m, todo, next);
    }
  }

  /** Replacing a store's stock forgets what an earlier replacement wrote there. */
  lemma RestockedTwice(t: Tables, sid: int, m: map<int, int>, todo: set<int>, x: map<int, int>)
    ensures var cur := Reached(t, sid, m, todo);
      cur.(stock := cur.stock[sid := x]) == t.(stock := t.stock[sid := x])
  {
    if todo != m.Keys {
      var y := Shift(StockOf(t, sid), m - todo, -1);
      assert Reached(t, sid, m, todo) == t.(stock := t.stock[sid := y]);
      assert t.stock[sid := y][sid := x] == t.stock[sid := x];
    }
  }

  /** The durable stock query finds the dish with at least `n` units. */
  predicate InStock(t: Tables, sid: int, id: int, n: int)
  {
    match GetTheDishInventory(t, sid, id)
    case Some(v) => v >= n
    case None => false
  }

  /** The lock-and-check loop: every requested dish's lock is taken and its durable stock read. */
  method LockAndCheck(db: Db, locks: LockMap, sid: int, m: map<int, int>) returns (check: bool)
    modifies locks
    ensures check <==> Available(StockOf(db.t, sid), m)
    ensures forall id :: id in m ==> LockKey(id, sid) in locks.locks
    ensures forall k :: k in old(locks.locks) ==> k in locks.locks && locks.locks[k] == old(locks.locks)[k]
  {
    check := true;
    var todo := m.Keys;
    while todo != {}
      invariant todo <= m.Keys
      invariant check <==> forall id :: id in m && id !in todo ==> InStock(db.t, sid, id, m[id])
      invariant forall id :: id in m && id !in todo ==> LockKey(id, sid) in locks.locks
      invariant forall k :: k in old(locks.locks) ==> k in locks.locks && locks.locks[k] == old(locks.locks)[k]
      decreases |todo|
    {
      var id := Choose(todo);
      var l := locks.GetLock(id, sid);
      var v := GetTheDishInventory(db.t, sid, id);
      if v.None? || v.value < m[id] {
        check := false;
      }
      todo := todo - {id};
    }
  }

  /** The deduction loop; after a passed check every conditional deduction succeeds. */
  method DeductAll(db: Db, sid: int, m: map<int, int>)
    requires Available(StockOf(db.t, sid), m)
    modifies db
    ensures db.t == Deducted(old(db.t), sid, m)
  {
    var t0 := db.t;
    var todo := m.Keys;
    while todo != {}
      invariant todo <= m.Keys
      invariant db.t == Reached(t0, sid, m, todo)
      decreases |todo|
    {
      var id := Choose(todo);
      DeductStep(t0, sid, m, todo, id);
      var u := OptimisticDeductInventory(db.t, sid, id, m[id]);
      db.t := u.tables;
      todo := todo - {id};
    }
    assert m == map[] <==> m.Keys == {};
  }

  /**
   * The pessimistic placement, all or nothing: every requested dish's
   * durable stock is read under its lock; if any is missing or short the
   * placement fails before anything is taken; otherwise every requested unit
   * is taken and the message is sent with no map, so the consumer takes
   * nothing again. The strategy runs in one transaction, so a refused
   * message rolls the deduction back.
   */
  twostate predicate PessimisticPlaced(db: Db, b: Broker, locks: LockMap, o: Order, combos: ComboTable, f: Fresh,
                                       out: Outcome)
    reads db, b, locks
  {
    var m := PlacementMap(o, combos);
    var s := StockOf(old(db.t), o.storeId);
    && (!Available(s, m) ==> out == Failed(OutOfStock) && db.t == old(db.t) && b.sent == old(b.sent))
    && (Available(s, m) && f.sendFails ==> out == Failed(SendFailed) && db.t == old(db.t) && b.sent == old(b.sent))
    && (Available(s, m) && !f.sendFails ==>
          out == Placed(PlacedReply(o, f)) &&
          db.t == Deducted(old(db.t), o.storeId, m) &&
          b.sent == old(b.sent) + [AddOrder(NewOrderMessage(None, PlacedOrder(o, f)))])
    && (forall id :: id in m ==> LockKey(id, o.storeId) in locks.locks)
    && (forall k :: k in old(locks.locks) ==> k in locks.locks && locks.locks[k] == old(locks.locks)[k])
  }

  method PessimisticPlace(db: Db, b: Broker, locks: LockMap, o: Order, combos: ComboTable, f: Fresh)
    returns (out: Outcome)
    modifies db, b, locks
    ensures PessimisticPlaced(db, b, locks, o, combos, f, out)
  {
    var m := GetDishNumMap(PlacedLines(o), combos);
    var order := PlacedOrder(o, f);
    var check := LockAndCheck(db, locks, o.storeId, m);
    if !check {
      return Failed(OutOfStock);
    }
    var t0 := db.t;
    DeductAll(db, o.storeId, m);
    if f.sendFails {
      db.t := t0;
      return Failed(SendFailed);
    }
    b.Publish(AddOrder(NewOrderMessage(None, order)));
    out := Placed(PlacedReply(o, f));
  }

  /** Durable stock taken by a passed pessimistic check never goes below zero, and other stores keep theirs. */
  lemma PessimisticNoOversell(t: Tables, sid: int, m: map<int, int>)
    requires Available(StockOf(t, sid), m)
    requires forall id :: id in StockOf(t, sid) ==> StockOf(t, sid)[id] >= 0
    ensures forall id :: id in m ==>
      GetTheDishInventory(Deducted(t, sid, m), sid, id) == Some(StockOf(t, sid)[id] - m[id])
    ensures forall id :: id in StockOf(Deducted(t, sid, m), sid) ==> StockOf(Deducted(t, sid, m), sid)[id] >= 0
    ensures forall sid2, id :: sid2 != sid ==>
      GetTheDishInventory(Deducted(t, sid, m), sid2, id) == GetTheDishInventory(t, sid2, id)
  {
    NoOversell(StockOf(t, sid), m);
    assert m - {} == m;
  }

  /** Ten units and two requests for six: the first passes and leaves four, the second is refused. */
  lemma PessimisticTenAndTwoSixes(t: Tables, sid: int, did: int)
    requires StockOf(t, sid) == map[did := 10]
    ensures Available(StockOf(t, sid), map[did := 6])
    ensures StockOf(Deducted(t, sid, map[did := 6]), sid) == map[did := 4]
    ensures !Available(StockOf(Deducted(t, sid, map[did := 6]), sid), map[did := 6])
  {
    assert map[did := 6] - {} == map[did := 6];
    assert Shift(map[did := 10], map[did := 6], -1) == map[did := 4];
    assert did in map[did := 6] && did in map[did := 4] && map[did := 4][did] < map[did := 6][did];
  }
}
