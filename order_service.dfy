/**
 * The order service: the registry of carts keyed by customer, the cart
 * edits, table occupancy, checkout, placement through the selected
 * strategy, the cart rebuilt from a placed order, the waiting-time
 * estimate, and the two cancellation requests.
 *
 * The clock is the `now` parameter (milliseconds). The service's lock on a
 * cart and on itself only orders concurrent requests; requests here run one
 * after another.
 */
module OrderService {
  import opened Common
  import opened Cart
  import opened CartRules
  import opened CartConversion
  import opened RedisStore
  import opened Database
  import opened Messages
  import opened CacheManager
  import opened Strategies
  import opened StrategyContent
  import OrderStatus

  /** A table cart left alone this many whole minutes gives its table up. */
  const IDLE_MINUTES: int := 60
  const MS_PER_MINUTE: int := 60000

  /** Java's integer division, which truncates toward zero. */
  function JavaDiv(a: int, b: int): int
    requires b > 0
  {
    if a >= 0 then a / b else -((-a) / b)
  }

  /** The cart has not been edited for an hour, counted in whole minutes as the source counts. */
  predicate IdleAnHour(c: CartState, now: int)
  {
    JavaDiv(now - c.lastModify, MS_PER_MINUTE) >= IDLE_MINUTES
  }

  /** Counting in whole minutes loses nothing: idle for an hour means 3600000 ms or more since the last edit. */
  lemma IdleAnHourExactly(c: CartState, now: int)
    ensures IdleAnHour(c, now) <==> now - c.lastModify >= IDLE_MINUTES * MS_PER_MINUTE
  {
    var a := now - c.lastModify;
    if a >= 0 {
      assert a / MS_PER_MINUTE >= IDLE_MINUTES <==> a >= IDLE_MINUTES * MS_PER_MINUTE;
    } else {
      assert JavaDiv(a, MS_PER_MINUTE) <= 0;
    }
  }

  predicate AtTable(c: CartState, sid: int, tid: int)
  {
    c.storeId == sid && c.tableId == tid
  }

  /** The discounted units of a dish the customer used in placed orders today; 0 when nothing is recorded. */
  function Persisted(t: Tables, uid: string, did: int): int
  {
    GetOrZero(UsedDiscountOf(t, uid), did)
  }

  // ---------------------------------------------------------------------
  // Cart edits, as the service applies them to a cart object.
  // ---------------------------------------------------------------------

  /**
   * Writes back what an addition or removal changes: the modification time,
   * the dish's line in the map edits go to, the discount and the total.
   */
  method WriteBack(cart: ShoppingCart, did: int, line: DishOrder, discount: int, total: int, now: int)
    modifies cart
    ensures cart.State() ==
      WithTargetLines(old(cart.State()), TargetLines(old(cart.State()))[did := line])
        .(lastModify := now, discount := discount, totalPrice := total)
  {
    cart.lastModify := now;
    if cart.complete {
      cart.newDishOrders := cart.newDishOrders[did := line];
    } else {
      cart.dishOrders := cart.dishOrders[did := line];
    }
    cart.discount := discount;
    cart.totalPrice := total;
  }

  /**
   * Adds one unit of `dish` to the cart in place. The line and the discount
   * are worked out first and written back together; no step in between
   * reads the fields written.
   */
  method ApplyAddDish(cart: ShoppingCart, dish: Dish, persisted: int, now: int)
    modifies cart
    ensures cart.State() == AddDishSpec(old(cart.State()), dish, persisted, now)
  {
    var did := dish.id;
    var c1 := cart.State().(lastModify := now);
    var line := LineOf(TargetLines(c1), did);
    var restNum := dish.discountCount - UsedDiscountNum(c1, did, persisted, true);
    var discount := c1.discount;
    if restNum > 0 && !IsCombo(did) {
      line := line.IncreaseDiscountUsedCount();
      discount := discount + dish.discountValue;
    } else if IsCombo(did) {
      if dish.discountValue > 0 {
        discount := discount + dish.discountValue;
      }
    }
    line := line.(price := dish.price, name := dish.name).IncreaseDishNum();
    WriteBack(cart, did, line, discount, c1.totalPrice + dish.price, now);
  }

  /** Removes one unit of `dish` from the cart in place, or only marks the refusal. */
  method ApplyRemoveDish(cart: ShoppingCart, dish: Dish, persisted: int, now: int)
    modifies cart
    ensures cart.State() == RemoveDishSpec(old(cart.State()), dish, persisted, now)
  {
    var did := dish.id;
    if cart.complete && LineOf(cart.newDishOrders, did).num <= 0 {
      cart.lastModify := -1;
      return;
    }
    var c1 := cart.State().(lastModify := now);
    var line := LineOf(TargetLines(c1), did);
    var discountUsedNum := UsedDiscountNum(c1, did, persisted, false);
    var freeNum := dish.discountCount - UsedDiscountNum(c1, did, persisted, true) + discountUsedNum;
    var dishNum := DishNum(c1, did);
    var discount := c1.discount;
    if freeNum >= dishNum && !IsCombo(did) {
      line := line.DecreaseDiscountUsedCount();
      discount := discount - dish.discountValue;
    } else if IsCombo(did) {
      if dish.discountValue > 0 {
        discount := discount - dish.discountValue;
      }
    }
    line := line.DecreaseDishNum();
    WriteBack(cart, did, line, discount, c1.totalPrice - dish.price, now);
  }

  // ---------------------------------------------------------------------
  // The registry as a value: customer to cart state.
  // ---------------------------------------------------------------------

  /** Adding a dish for a customer: to their cart, created first when they have none. */
  function AddDishToCarts(cs: map<string, CartState>, sid: int, tid: int, uid: string, dish: Dish,
                          persisted: int, now: int): map<string, CartState>
  {
    var c := if uid in cs then cs[uid] else NewCartFor(sid, tid, uid);
    cs[uid := AddDishSpec(c, dish, persisted, now)]
  }

  /** Removing a dish for a customer; a customer without a cart changes nothing. */
  function RemoveDishFromCarts(cs: map<string, CartState>, uid: string, dish: Dish,
                               persisted: int, now: int): map<string, CartState>
  {
    if uid in cs then cs[uid := RemoveDishSpec(cs[uid], dish, persisted, now)] else cs
  }

  /**
   * An addition touches the requesting customer's cart only. A first
   * addition creates the cart for the customer's store and table, holding
   * the table exactly when there is one, with the one unit and its price.
   */
  lemma AddDishToCartsEffect(cs: map<string, CartState>, sid: int, tid: int, uid: string, dish: Dish,
                             persisted: int, now: int)
    ensures var cs2 := AddDishToCarts(cs, sid, tid, uid, dish, persisted, now);
      && cs2.Keys == cs.Keys + {uid}
      && (forall u :: u in cs && u != uid ==> cs2[u] == cs[u])
      && (uid in cs ==> DishNum(cs2[uid], dish.id) == DishNum(cs[uid], dish.id) + 1 &&
                        cs2[uid].totalPrice == cs[uid].totalPrice + dish.price && SameHeader(cs[uid], cs2[uid]))
      && (uid !in cs ==> cs2[uid].userId == uid && cs2[uid].storeId == sid && cs2[uid].tableId == tid &&
                         (cs2[uid].lock <==> tid != -1) && !cs2[uid].complete &&
                         DishNum(cs2[uid], dish.id) == 1 && cs2[uid].totalPrice == dish.price)
  {
    var c := if uid in cs then cs[uid] else NewCartFor(sid, tid, uid);
    AddDishEffect(c, dish, persisted, now);
  }

  /**
   * Adding a dish and removing it again restores the customer's running
   * total, discount and counts, whether the cart existed before or was
   * created by the addition, and leaves every other customer's cart alone.
   */
  lemma AddThenRemoveRestoresCarts(cs: map<string, CartState>, sid: int, tid: int, uid: string, dish: Dish,
                                   persisted: int, t1: int, t2: int)
    requires uid in cs ==> DishNum(cs[uid], dish.id) >= 0
    requires uid in cs && cs[uid].complete ==> LineOf(cs[uid].newDishOrders, dish.id).num >= 0
    requires uid in cs && !IsCombo(dish.id) ==> DiscountConsistent(cs[uid], dish.id, dish.discountCount, persisted)
    ensures var cs2 := RemoveDishFromCarts(AddDishToCarts(cs, sid, tid, uid, dish, persisted, t1), uid, dish, persisted, t2);
      var before := if uid in cs then cs[uid] else NewCartFor(sid, tid, uid);
      && cs2.Keys == cs.Keys + {uid}
      && (forall u :: u in cs && u != uid ==> cs2[u] == cs[u])
      && cs2[uid].totalPrice == before.totalPrice && cs2[uid].discount == before.discount
      && DishNum(cs2[uid], dish.id) == DishNum(before, dish.id)
      && UsedInCart(cs2[uid], dish.id) == UsedInCart(before, dish.id)
      && SameHeader(before, cs2[uid]) && SameOtherLines(before, cs2[uid], dish.id)
  {
    var before := if uid in cs then cs[uid] else NewCartFor(sid, tid, uid);
    assert DishNum(before, dish.id) >= 0;
    assert !IsCombo(dish.id) ==> DiscountConsistent(before, dish.id, dish.discountCount, persisted);
    var c1 := AddDishSpec(before, dish, persisted, t1);
    var c2 := RemoveDishSpec(c1, dish, persisted, t2);
    AddRemoveRoundTrip(before, dish, persisted, t1, t2);
    assert AddDishToCarts(cs, sid, tid, uid, dish, persisted, t1) == cs[uid := c1];
    UpdateTwice(cs, uid, c1, c2);
    assert RemoveDishFromCarts(cs[uid := c1], uid, dish, persisted, t2) == cs[uid := c2];
  }

  // ---------------------------------------------------------------------
  // Checkout lines.
  // ---------------------------------------------------------------------

  /** Emits one order line per entry of a map of cart lines, in the map's (unspecified) visiting order. */
  method EmitLines(m: map<int, DishOrder>, isAdd: bool) returns (lines: seq<DishLine>, ghost ks: seq<int>)
    ensures Enumerates(ks, m.Keys)
    ensures lines == LinesOfKeys(m, ks, isAdd)
    ensures forall i :: 0 <= i < |lines| ==> lines[i].dishId in m && lines[i] == ToLine(lines[i].dishId, m[lines[i].dishId], isAdd)
    ensures forall i, j :: 0 <= i < j < |lines| ==> lines[i].dishId != lines[j].dishId
    ensures forall k :: k in m ==> exists i :: 0 <= i < |lines| && lines[i].dishId == k
  {
    var todo := m.Keys;
    lines, ks := [], [];
    while todo != {}
      invariant todo <= m.Keys
      invariant forall k :: k in ks <==> k in m && k !in todo
      invariant forall i, j :: 0 <= i < j < |ks| ==> ks[i] != ks[j]
      invariant lines == LinesOfKeys(m, ks, isAdd)
      decreases |todo|
    {
      var k := Choose(todo);
      lines := lines + [ToLine(k, m[k], isAdd)];
      ks := ks + [k];
      todo := todo - {k};
    }
    LinesOfEnumeration(m, ks, isAdd);
  }

  /** The checkout lines of a cart: its original lines, then its additions flagged as added. */
  method GetDishOrders(cart: ShoppingCart) returns (lines: seq<DishLine>, ghost ks1: seq<int>, ghost ks2: seq<int>)
    ensures Enumerates(ks1, cart.dishOrders.Keys) && Enumerates(ks2, cart.newDishOrders.Keys)
    ensures lines == CartLines(cart.State(), ks1, ks2)
    ensures forall did :: UnitsOf(lines, did) == DishNum(cart.State(), did)
    ensures forall did :: DiscountedOf(lines, did) == UsedInCart(cart.State(), did)
    ensures forall did :: UnitsOf(AddedLines(lines), did) == LineOf(cart.newDishOrders, did).num
  {
    var a, b;
    a, ks1 := EmitLines(cart.dishOrders, false);
    b, ks2 := EmitLines(cart.newDishOrders, true);
    lines := a + b;
    forall did
      ensures UnitsOf(lines, did) == DishNum(cart.State(), did)
      ensures DiscountedOf(lines, did) == UsedInCart(cart.State(), did)
      ensures UnitsOf(AddedLines(lines), did) == LineOf(cart.newDishOrders, did).num
    {
      CartLinesCount(cart.State(), ks1, ks2, did);
    }
  }

  /** Replays an order's lines into a map of cart lines, one line after another. */
  method ReplayLines(lines: seq<DishLine>) returns (m: map<int, DishOrder>)
    ensures m == LinesToMap(lines)
  {
    m := map[];
    var i := 0;
    while i < |lines|
      invariant 0 <= i <= |lines|
      invariant m == LinesToMap(lines[..i])
    {
      var l := lines[i];
      m := m[l.dishId := FromLine(l)];
      assert lines[..i + 1][..i] == lines[..i];
      i := i + 1;
    }
    assert lines[..i] == lines;
  }

  // ---------------------------------------------------------------------
  // The waiting-time estimate.
  // ---------------------------------------------------------------------

  /**
   * What one queue entry adds to the wait, in milliseconds: the part of its
   * preparation still ahead of `now`. Combos are skipped; a dish without a
   * make time makes the estimate fail (None).
   */
  function EntryWait(e: QueueEntry, makeTimes: map<int, int>, now: int): (r: Option<int>)
    ensures r.None? <==> !IsCombo(e.dishId) && e.dishId !in makeTimes
    ensures r.Some? ==> r.value >= 0
    ensures r.Some? && IsCombo(e.dishId) ==> r.value == 0
    ensures r.Some? && !IsCombo(e.dishId) && e.timestamp <= now && makeTimes[e.dishId] >= 0 ==>
      r.value <= makeTimes[e.dishId] * MS_PER_MINUTE
  {
    if IsCombo(e.dishId) then Some(0)
    else if e.dishId !in makeTimes then None
    else
      var end := e.timestamp + makeTimes[e.dishId] * MS_PER_MINUTE;
      Some(if end > now then end - now else 0)
  }

  /** The remaining preparation time of the whole queue, in milliseconds. */
  function WaitingMs(q: seq<QueueEntry>, makeTimes: map<int, int>, now: int): (r: Option<int>)
    ensures r.Some? ==> r.value >= 0
  {
    if q == [] then Some(0)
    else
      match (WaitingMs(q[..|q| - 1], makeTimes, now), EntryWait(q[|q| - 1], makeTimes, now))
      case (Some(a), Some(b)) => Some(a + b)
      case _ => None
  }

  /** Milliseconds as minutes, exactly. */
  function ToMinutes(ms: Option<int>): Option<real>
  {
    if ms.Some? then Some(ms.value as real / MS_PER_MINUTE as real) else None
  }

  /** The estimate exists exactly when every dish in the queue (other than combos) has a make time, and it is never negative. */
  lemma {:induction false} WaitingDefined(q: seq<QueueEntry>, makeTimes: map<int, int>, now: int)
    ensures WaitingMs(q, makeTimes, now).Some? <==>
      forall i :: 0 <= i < |q| && !IsCombo(q[i].dishId) ==> q[i].dishId in makeTimes
    ensures WaitingMs(q, makeTimes, now).Some? ==> WaitingMs(q, makeTimes, now).value >= 0
  {
    if q != [] {
      var q' := q[..|q| - 1];
      WaitingDefined(q', makeTimes, now);
      assert forall i :: 0 <= i < |q'| ==> q'[i] == q[i];
    }
  }

  /** The estimate never grows as time passes. */
  lemma {:induction false} WaitingNonIncreasing(q: seq<QueueEntry>, makeTimes: map<int, int>, now1: int, now2: int)
    requires now1 <= now2
    ensures WaitingMs(q, makeTimes, now1).Some? <==> WaitingMs(q, makeTimes, now2).Some?
    ensures WaitingMs(q, makeTimes, now1).Some? ==>
      WaitingMs(q, makeTimes, now2).value <= WaitingMs(q, makeTimes, now1).value
  {
    if q != [] {
      WaitingNonIncreasing(q[..|q| - 1], makeTimes, now1, now2);
    }
  }

  /** Every queue entry adds its remaining time: the estimate of a longer queue is the sum of its parts. */
  lemma {:induction false} WaitingAppend(a: seq<QueueEntry>, b: seq<QueueEntry>, makeTimes: map<int, int>, now: int)
    requires WaitingMs(a, makeTimes, now).Some? && WaitingMs(b, makeTimes, now).Some?
    ensures WaitingMs(a + b, makeTimes, now) ==
      Some(WaitingMs(a, makeTimes, now).value + WaitingMs(b, makeTimes, now).value)
    decreases |b|
  {
    if b == [] {
      assert a + b == a;
    } else {
      var b' := b[..|b| - 1];
      assert (a + b)[..|a + b| - 1] == a + b';
      assert (a + b)[|a + b| - 1] == b[|b| - 1];
      WaitingAppend(a, b', makeTimes, now);
    }
  }

  /** Sums the remaining preparation time over the queue; None at the first dish without a cached make time. */
  method SumWaiting(r: Redis, q: seq<QueueEntry>, now: int) returns (ms: Option<int>)
    ensures ms == WaitingMs(q, r.HashOf(DISH_MAKE_TIME_CACHE_KEY), now)
  {
    ghost var mt := r.HashOf(DISH_MAKE_TIME_CACHE_KEY);
    var waiting := 0;
    var i := 0;
    while i < |q|
      invariant 0 <= i <= |q|
      invariant WaitingMs(q[..i], mt, now) == Some(waiting)
    {
      assert q[..i + 1][..i] == q[..i];
      var id := q[i].dishId;
      if !IsCombo(id) {
        var makeTime := r.HashGet(DISH_MAKE_TIME_CACHE_KEY, id);
        if makeTime.None? {
          WaitingPrefixFails(q, mt, now, i);
          return None;
        }
        var end := q[i].timestamp + makeTime.value * MS_PER_MINUTE;
        if end > now {
          waiting := waiting + (end - now);
        }
      }
      i := i + 1;
    }
    assert q[..i] == q;
    ms := Some(waiting);
  }

  /** A prefix that fails makes the whole queue fail. */
  lemma WaitingPrefixFails(q: seq<QueueEntry>, makeTimes: map<int, int>, now: int, i: int)
    requires 0 <= i < |q| && EntryWait(q[i], makeTimes, now).None?
    ensures WaitingMs(q, makeTimes, now).None?
  {
    WaitingDefined(q, makeTimes, now);
  }

  /**
   * The estimated wait in minutes over the whole waiting queue. When a dish
   * lacks a cached make time the make-time cache is rebuilt from the dish
   * list and the estimate is taken once more; if it fails again (a queued
   * dish that is not on the list) the answer is None.
   */
  method GetWaitingTime(r: Redis, dishes: seq<(int, int)>, now: int) returns (w: Option<real>)
    modifies r
    ensures var q := old(r.ListOf(DISH_WAITING_QUEUE_KEY));
      var first := WaitingMs(q, old(r.HashOf(DISH_MAKE_TIME_CACHE_KEY)), now);
      && (first.Some? ==> w == ToMinutes(first) && unchanged(r))
      && (first.None? ==>
            w == ToMinutes(WaitingMs(q, PairsToHash(dishes), now)) &&
            r.HashOf(DISH_MAKE_TIME_CACHE_KEY) == PairsToHash(dishes) &&
            r.ListOf(DISH_WAITING_QUEUE_KEY) == q &&
            r.hashes - {DISH_MAKE_TIME_CACHE_KEY} == old(r.hashes) - {DISH_MAKE_TIME_CACHE_KEY})
  {
    var q := r.ListOf(DISH_WAITING_QUEUE_KEY);
    var ms := SumWaiting(r, q, now);
    if ms.None? {
      InitRedisDishMakeTimeCache(r, dishes);
      assert DISH_MAKE_TIME_CACHE_KEY[8] != DISH_WAITING_QUEUE_KEY[8];
      q := r.ListOf(DISH_WAITING_QUEUE_KEY);
      ms := SumWaiting(r, q, now);
    }
    w := ToMinutes(ms);
  }

  // ---------------------------------------------------------------------
  // Payment cancellation and cancellation requests.
  // ---------------------------------------------------------------------

  /** The status an order goes back to when its payment is cancelled: the deposit for deposit orders, else unpaid. */
  function PendingStatus(consumeType: int): int
  {
    if consumeType == 1 then OrderStatus.TO_BE_PAID_MARGIN else OrderStatus.TO_BE_PAID
  }

  /**
   * The status a cancelled payment leaves the order in is on its flow, and
   * paying later resumes the flow: a dine-in order completes, every other
   * order goes on to confirming.
   */
  lemma PendingStatusResumes(consumeType: int)
    requires 0 <= consumeType < 4
    ensures PendingStatus(consumeType) in OrderStatus.Path(consumeType)
    ensures OrderStatus.NextStatus(consumeType, PendingStatus(consumeType)) ==
      Some(if consumeType == 0 then OrderStatus.COMPLETED else OrderStatus.CONFIRMING)
  {
    var k := if consumeType == 0 then 1 else 0;
    OrderStatus.NextIsSuccessorOnPath(consumeType, k);
  }

  /**
   * Cancels the payment of an order: the order goes back to its pending
   * status and the order (with that status) is published for the consumer
   * to release. An unknown order fails (a null dereference in the source)
   * and changes nothing.
   */
  method CancelPay(db: Db, b: Broker, orderId: string) returns (ok: bool)
    modifies db, b
    ensures ok <==> orderId in old(db.t.orders)
    ensures !ok ==> unchanged(db, b)
    ensures ok ==>
      var o := old(QueryOrder(db.t, orderId)).value;
      var status := PendingStatus(o.consumeType);
      && db.t == old(db.t).(orders := old(db.t.orders)[orderId := old(db.t.orders)[orderId].(orderType := status)])
      && b.sent == old(b.sent) + [PendingPayment(NewOrderMessage(None, o.(orderType := status)))]
  {
    var found := QueryOrder(db.t, orderId);
    if found.None? {
      return false;
    }
    var order := found.value;
    order := order.(orderType := PendingStatus(order.consumeType));
    var u := UpdateOrderType(db.t, orderId, order.orderType);
    if u.rows == 0 {
      return false;
    }
    db.t := u.tables;
    b.Publish(PendingPayment(NewOrderMessage(None, order)));
    ok := true;
  }

  /** The tables after a cancellation request: the request is on file (replacing an earlier one) and the order is canceling. */
  function CancelRequested(t: Tables, at: CancelApply): Tables
  {
    UpdateOrderType(t.(cancelApplies := t.cancelApplies[at.orderId := at]), at.orderId, OrderStatus.CANCELING).tables
  }

  /**
   * A cancellation request files the request and moves a known order to
   * canceling; nothing else changes.
   */
  lemma CancelRequestedEffect(t: Tables, at: CancelApply)
    ensures var t2 := CancelRequested(t, at);
      && t2.cancelApplies == t.cancelApplies[at.orderId := at]
      && (at.orderId in t.orders ==>
            t2.orders == t.orders[at.orderId := t.orders[at.orderId].(orderType := OrderStatus.CANCELING)])
      && (at.orderId !in t.orders ==> t2.orders == t.orders)
      && t2.(cancelApplies := t.cancelApplies, orders := t.orders) == t
  {
    var t1 := t.(cancelApplies := t.cancelApplies[at.orderId := at]);
    if at.orderId in t.orders {
      assert CancelRequested(t, at) ==
        t1.(orders := t.orders[at.orderId := t.orders[at.orderId].(orderType := OrderStatus.CANCELING)]);
    } else {
      assert CancelRequested(t, at) == t1;
    }
  }

  /**
   * From canceling the next step is cancelled, whatever the order's type,
   * and asking to cancel twice is the same as asking once.
   */
  lemma CancelRequestedOnce(t: Tables, at: CancelApply)
    ensures at.orderId in t.orders && t.orders[at.orderId].consumeType != -1 ==>
      var o := CancelRequested(t, at).orders[at.orderId];
      OrderStatus.NextStatus(o.consumeType, o.orderType) == Some(OrderStatus.CANCELLED)
    ensures CancelRequested(CancelRequested(t, at), at) == CancelRequested(t, at)
  {
    CancelRequestedEffect(t, at);
    var t2 := CancelRequested(t, at);
    CancelRequestedEffect(t2, at);
    var t3 := CancelRequested(t2, at);
    assert t3.cancelApplies == t2.cancelApplies;
    assert t3.orders == t2.orders;
  }

  /**
   * Files a cancellation request: the insert fails when a request for the
   * order is already on file, and then the old one is deleted and the new
   * one inserted. The order moves to canceling; the touched row count is
   * not looked at.
   */
  method CancelOrder(db: Db, at: CancelApply)
    modifies db
    ensures db.t == CancelRequested(old(db.t), at)
  {
    if at.orderId in db.t.cancelApplies {
      db.t := db.t.(cancelApplies := db.t.cancelApplies - {at.orderId});
    }
    db.t := db.t.(cancelApplies := db.t.cancelApplies[at.orderId := at]);
    var u := UpdateOrderType(db.t, at.orderId, OrderStatus.CANCELING);
    db.t := u.tables;
  }

  /** The cart a customer's first addition creates: for the store and table, holding a real table. */
  method NewCart(sid: int, tid: int, uid: string) returns (c: ShoppingCart)
    ensures fresh(c) && c.State() == NewCartFor(sid, tid, uid)
  {
    c := new ShoppingCart();
    if tid != -1 {
      c.lock := true;
    }
    c.storeId, c.tableId, c.userId, c.complete := sid, tid, uid, false;
  }

  /** A new rebuilt cart carrying a placed order's customer, table, totals and id, with no lines yet. */
  method NewCartForOrder(order: Order) returns (c: ShoppingCart)
    ensures fresh(c)
    ensures c.State() == CartState(order.userId, order.id, order.storeId, order.table, order.consumeType,
                                   order.originalPrice, order.shopDiscount, 0, true, true, map[], map[])
  {
    c := new ShoppingCart();
    c.complete, c.userId, c.storeId, c.tableId, c.consumeType :=
      true, order.userId, order.storeId, order.table, order.consumeType;
    c.lock, c.totalPrice, c.discount, c.orderId :=
      true, order.originalPrice, order.shopDiscount, order.id;
  }

  /** A new cart filled from a placed order, replaying its lines. */
  method NewCartFromOrder(order: Order) returns (c: ShoppingCart)
    ensures fresh(c) && c.State() == CartFromOrder(order)
  {
    c := NewCartForOrder(order);
    var m := ReplayLines(order.dishOrders);
    c.dishOrders := m;
  }

  // ---------------------------------------------------------------------
  // The cart registry.
  // ---------------------------------------------------------------------

  /** Every cart the service holds, one per customer. */
  class CartStore {
    var carts: map<string, ShoppingCart>

    constructor ()
      ensures carts == map[] && Valid()
    {
      carts := map[];
    }

    /** Every cart is filed under its own customer; so no cart is filed twice. */
    ghost predicate Valid()
      reads this, carts.Values
    {
      forall u :: u in carts ==> carts[u].userId == u
    }

    /** The state of every cart, by customer. */
    ghost function Contents(): map<string, CartState>
      reads this, carts.Values
    {
      map u | u in carts :: carts[u].State()
    }

    /** Two customers never share a cart object. */
    lemma CartsDistinct(u: string, v: string)
      requires Valid() && u in carts && v in carts && u != v
      ensures carts[u] != carts[v]
    {
    }

    /**
     * Adds one unit of `dish` to the customer's cart, creating the cart for
     * the store and table on the customer's first addition (holding the
     * table when there is one). The discounted units already used come
     * from the user table.
     */
    method AddDish(db: Db, sid: int, tid: int, uid: string, dish: Dish, now: int) returns (cart: ShoppingCart)
      requires Valid()
      modifies this, carts.Values
      ensures Valid()
      ensures uid in carts && cart == carts[uid]
      ensures forall u :: u in old(carts) ==> u in carts && carts[u] == old(carts[u])
      ensures uid !in old(carts) ==> fresh(cart) && carts == old(carts)[uid := cart]
      ensures Contents() == AddDishToCarts(old(Contents()), sid, tid, uid, dish, Persisted(db.t, uid, dish.id), now)
    {
      var persisted := Persisted(db.t, uid, dish.id);
      ghost var cs0 := Contents();
      ghost var c0 := if uid in cs0 then cs0[uid] else NewCartFor(sid, tid, uid);
      ghost var added := AddDishSpec(c0, dish, persisted, now);
      Open(sid, tid, uid);
      ghost var cs1 := Contents();
      assert cs1 == cs0[uid := c0];
      cart := carts[uid];
      EditFiled(uid, dish, persisted, now);
      assert Contents() == cs1[uid := added];
      UpdateTwice(cs0, uid, c0, added);
    }

    /** Makes sure the customer has a cart, creating one for the store and table when they have none. */
    method Open(sid: int, tid: int, uid: string)
      requires Valid()
      modifies this
      ensures Valid() && uid in carts
      ensures uid in old(carts) ==> carts == old(carts)
      ensures uid !in old(carts) ==> fresh(carts[uid]) && carts == old(carts)[uid := carts[uid]]
      ensures Contents() == old(Contents())[uid := if uid in old(carts) then old(Contents())[uid] else NewCartFor(sid, tid, uid)]
    {
      if uid !in carts {
        var c := NewCart(sid, tid, uid);
        File(uid, c);
      }
    }

    /** Files a cart under its customer, in place of any cart they had. */
    method File(uid: string, c: ShoppingCart)
      requires Valid() && c.userId == uid && c !in carts.Values
      modifies this
      ensures Valid()
      ensures carts == old(carts)[uid := c]
      ensures Contents() == old(Contents())[uid := c.State()]
    {
      ghost var cs0 := Contents();
      carts := carts[uid := c];
      assert forall u :: u in carts && u != uid ==> u in old(carts) && carts[u] == old(carts)[u];
      assert Contents() == cs0[uid := c.State()];
    }

    /** Adds one unit of `dish` to the cart filed under `uid`. */
    method EditFiled(uid: string, dish: Dish, persisted: int, now: int)
      requires Valid() && uid in carts
      modifies carts[uid]
      ensures Valid()
      ensures Contents() == old(Contents())[uid := AddDishSpec(old(Contents())[uid], dish, persisted, now)]
    {
      ghost var cs0 := Contents();
      var cart := carts[uid];
      ghost var before := cart.State();
      ApplyAddDish(cart, dish, persisted, now);
      AddDishEffect(before, dish, persisted, now);
      assert forall u :: u in carts && u != uid ==> carts[u] != cart;
      assert Contents() == cs0[uid := cart.State()];
    }

    /**
     * Removes one unit of `dish` from the customer's cart; None when the
     * customer has no cart. The store and table requested are not looked at.
     */
    method RemoveDish(db: Db, sid: int, tid: int, uid: string, dish: Dish, now: int)
      returns (cart: Option<ShoppingCart>)
      requires Valid()
      modifies carts.Values
      ensures Valid() && carts == old(carts)
      ensures cart.Some? <==> uid in carts
      ensures cart.Some? ==> cart.value == carts[uid]
      ensures Contents() == RemoveDishFromCarts(old(Contents()), uid, dish, Persisted(db.t, uid, dish.id), now)
    {
      if uid !in carts {
        return None;
      }
      var persisted := Persisted(db.t, uid, dish.id);
      var c := carts[uid];
      ghost var before := c.State();
      ApplyRemoveDish(c, dish, persisted, now);
      RemoveDishEffect(before, dish, persisted, now);
      assert forall u :: u in carts && u != uid ==> carts[u] != c;
      cart := Some(c);
    }

    /** Frees the customer's table by dropping their cart. */
    method RelieveOccupied(uid: string)
      requires Valid()
      modifies this
      ensures Valid()
      ensures carts == old(carts) - {uid}
      ensures Contents() == old(Contents()) - {uid}
    {
      carts := carts - {uid};
    }

    /**
     * Whether a table is held by another customer. No table (-1), a table
     * without a cart, and the requester's own cart never block; an
     * occupant idle for an hour loses the table (its cart is dropped) and
     * does not block either; otherwise the occupant blocks when its cart
     * holds the table. Among several carts for the table the first one
     * visited decides (`occupant`), in an order the source leaves open.
     */
    method IsOccupied(sid: int, tid: int, uid: string, now: int) returns (occupied: bool, ghost occupant: Option<string>)
      requires Valid()
      modifies this
      ensures Valid()
      ensures tid == -1 ==> !occupied && occupant == None && carts == old(carts)
      ensures tid != -1 ==>
        (occupant.None? <==> forall u :: u in old(carts) ==> !AtTable(old(Contents())[u], sid, tid))
      ensures occupant.Some? ==> occupant.value in old(carts) && AtTable(old(Contents())[occupant.value], sid, tid)
      ensures var released := occupant.Some? && occupant.value != uid &&
                              IdleAnHour(old(Contents())[occupant.value], now);
        carts == (if released then old(carts) - {occupant.value} else old(carts))
      ensures occupied <==> occupant.Some? && occupant.value != uid &&
                            !IdleAnHour(old(Contents())[occupant.value], now) && old(Contents())[occupant.value].lock
    {
      occupied, occupant := false, None;
      if tid == -1 {
        return;
      }
      var found := FindAtTable(sid, tid);
      occupant := found;
      if found.Some? && found.value != uid {
        var cart := carts[found.value];
        var minute := JavaDiv(now - cart.lastModify, MS_PER_MINUTE);
        if minute >= IDLE_MINUTES {
          RelieveOccupied(found.value);
          return false, occupant;
        }
        occupied := cart.lock;
      }
    }

    /** The customer whose cart is at the table, visiting the registry in some order; None when there is none. */
    method FindAtTable(sid: int, tid: int) returns (found: Option<string>)
      ensures found.None? <==> forall u :: u in carts ==> !AtTable(carts[u].State(), sid, tid)
      ensures found.Some? ==> found.value in carts && AtTable(carts[found.value].State(), sid, tid)
    {
      found := None;
      var todo := carts.Keys;
      while todo != {} && found.None?
        invariant todo <= carts.Keys
        invariant found.None? ==> forall u :: u in carts && u !in todo ==> !AtTable(carts[u].State(), sid, tid)
        invariant found.Some? ==> found.value in carts && AtTable(carts[found.value].State(), sid, tid)
        decreases |todo|
      {
        var u := Choose(todo);
        if carts[u].storeId == sid && carts[u].tableId == tid {
          found := Some(u);
        }
        todo := todo - {u};
      }
    }

    /** The customer's cart, found by visiting the registry's keys; None when there is none. */
    method GetCart(uid: string) returns (cart: Option<ShoppingCart>)
      ensures cart.Some? <==> uid in carts
      ensures cart.Some? ==> cart.value == carts[uid]
    {
      var todo := carts.Keys;
      while todo != {}
        invariant todo <= carts.Keys
        invariant uid in carts ==> uid in todo
        decreases |todo|
      {
        var u := Choose(todo);
        if u == uid {
          return Some(carts[u]);
        }
        todo := todo - {u};
      }
      return None;
    }

    /** The cart whose own customer field names `userId`, found by visiting the registry's carts. */
    method FindCartOf(userId: string) returns (cart: Option<ShoppingCart>)
      requires Valid()
      ensures cart.Some? <==> userId in carts
      ensures cart.Some? ==> cart.value == carts[userId]
    {
      var todo := carts.Keys;
      while todo != {}
        invariant todo <= carts.Keys
        invariant userId in carts ==> userId in todo
        decreases |todo|
      {
        var u := Choose(todo);
        if carts[u].userId == userId {
          return Some(carts[u]);
        }
        todo := todo - {u};
      }
      return None;
    }

    /**
     * The order the customer's cart checks out as, for the customer to
     * confirm; None (the "no order" error) when the customer has no cart.
     * Nothing is placed yet.
     */
    method GetOrder(userId: string) returns (r: Option<Order>, ghost ks1: seq<int>, ghost ks2: seq<int>)
      requires Valid()
      ensures r.None? <==> userId !in carts
      ensures userId in carts ==>
        var c := carts[userId].State();
        && Enumerates(ks1, c.dishOrders.Keys) && Enumerates(ks2, c.newDishOrders.Keys)
        && r == Some(OrderOfCart(c, userId, CartLines(c, ks1, ks2)))
    {
      ks1, ks2 := [], [];
      var found := FindCartOf(userId);
      if found.None? {
        return None, ks1, ks2;
      }
      var cart := found.value;
      var lines;
      lines, ks1, ks2 := GetDishOrders(cart);
      var status :=
        if cart.consumeType == 0 then OrderStatus.CONFIRMING
        else if cart.consumeType == 1 then (if !cart.complete then OrderStatus.TO_BE_PAID_MARGIN else OrderStatus.CONFIRMING)
        else OrderStatus.TO_BE_PAID;
      r := Some(Order(if cart.complete then cart.orderId else "", userId, cart.storeId, cart.tableId,
                      cart.consumeType, status, cart.totalPrice, cart.discount, "", None,
                      !cart.complete, 0, lines));
    }

    /**
     * Rebuilds the cart of a placed order, so that its customer can add
     * dishes to it, and files it under the order's customer (replacing any
     * cart they had). None, and no change, for an unknown order.
     */
    method GetCartFromOrder(db: Db, oid: string) returns (cart: Option<ShoppingCart>)
      requires Valid()
      modifies this
      ensures Valid()
      ensures QueryOrder(db.t, oid).None? ==> cart.None? && carts == old(carts)
      ensures QueryOrder(db.t, oid).Some? ==>
        var o := QueryOrder(db.t, oid).value;
        cart.Some? && fresh(cart.value) && carts == old(carts)[o.userId := cart.value] &&
        Contents() == old(Contents())[o.userId := CartFromOrder(o)]
    {
      var found := QueryOrder(db.t, oid);
      if found.None? {
        return None;
      }
      var order := found.value;
      var c := NewCartFromOrder(order);
      File(order.userId, c);
      cart := Some(c);
    }

    /**
     * Places the customer's order with the selected strategy and drops the
     * cart once the order is placed. A failed placement leaves the cart
     * where it was, so the customer can retry. A customer without a cart
     * (the order was already placed) gets the duplicate-order error.
     */
    method PlaceOrder(ctx: Context, r: Redis, db: Db, b: Broker, locks: LockMap, o: Order, combos: ComboTable, f: Fresh)
      returns (out: Outcome, ghost checked: map<int, int>, ghost answer: Option<bool>)
      requires Valid()
      modifies this, r, db, b, locks
      ensures Valid()
      ensures out.Placed? ==> o.userId in old(carts) && carts == old(carts) - {o.userId}
      ensures out.Failed? ==> carts == old(carts)
      ensures Contents() == if out.Placed? then old(Contents()) - {o.userId} else old(Contents())
      ensures o.userId !in old(carts) ==> out == Failed(NoCart) && unchanged(r, db, b, locks)
      ensures o.userId in old(carts) ==> ctx.Executed(r, db, b, locks, o, combos, f, out, checked, answer)
    {
      checked, answer := map[], None;
      if o.userId !in carts {
        return Failed(NoCart), checked, answer;
      }
      ghost var cs0 := Contents();
      out, checked, answer := ctx.Execute(r, db, b, locks, o, combos, f);
      assert Contents() == cs0;
      if out.Placed? {
        RelieveOccupied(o.userId);
      }
    }
  }
}
