/**
 * What a commit that goes through leaves in the tables: the order as it
 * reads back, the stock taken, the points earned; and the pessimistic
 * placement's message, as written and as the model consumes it.
 */
module CommitProperties {
  import opened Common
  import opened Database
  import opened Messages
  import opened DishNumMaps
  import opened Strategies
  import opened Consumer
  import opened RedisStore
  import OrderStatus

  /**
   * Reading a committed order back: a new order as the message carried it,
   * a continuation with the new prices, back at confirming; either way
   * with the message's lines after any lines the order already had.
   */
  lemma CommittedOrder(t: Tables, om: OrderMessage)
    requires om.order.isNew || om.order.id in t.orders
    ensures var o := om.order;
      var row := if o.isNew then o
                 else t.orders[o.id].(shopDiscount := o.shopDiscount, originalPrice := o.originalPrice,
                                      orderType := OrderStatus.CONFIRMING);
      QueryOrder(Committed(t, om), o.id) == Some(row.(dishOrders := LinesOf(t.orderDishes, o.id) + o.dishOrders))
  {
    var o := om.order;
    var t1 := Deduction(t, om);
    DeductionKeepsOrders(t, om);
    var t2 := OrderRowsWritten(t1, o);
    var t3 := FetchCodeWritten(t2, o);
    assert t3.orders == t2.orders && t3.orderDishes == t.orderDishes;
    HandledLinesEffect(t3, o.id, o.userId, o.dishOrders);
    LinesOfAppend(t.orderDishes, Rows(o.id, o.dishOrders), o.id);
    LinesOfRows(o.id, o.id, o.dishOrders);
  }

  /** A new order with no earlier lines reads back exactly as the message carried it. */
  lemma CommittedNewOrder(t: Tables, om: OrderMessage)
    requires om.order.isNew && LinesOf(t.orderDishes, om.order.id) == []
    ensures QueryOrder(Committed(t, om), om.order.id) == Some(om.order)
  {
    CommittedOrder(t, om);
    assert [] + om.order.dishOrders == om.order.dishOrders;
  }

  /** The order's own rows touch only the order, pay and points tables. */
  lemma OrderRowsFrame(t: Tables, o: Order)
    ensures var a := OrderRowsWritten(t, o);
      a == t.(orders := a.orders, orderPay := a.orderPay, points := a.points)
  {
    if o.isNew {
      NewOrderRowsFrame(t, o);
    } else {
      OldOrderRowsFrame(t, o);
    }
  }

  lemma NewOrderRowsFrame(t: Tables, o: Order)
    requires o.isNew
    ensures var a := OrderRowsWritten(t, o);
      a == t.(orders := a.orders, orderPay := a.orderPay, points := a.points)
  {
  }

  lemma OldOrderRowsFrame(t: Tables, o: Order)
    requires !o.isNew
    ensures var a := OrderRowsWritten(t, o);
      a == t.(orders := a.orders)
  {
    var a := UpdateShopDiscount(t, o.id, o.shopDiscount);
    assert a == t.(orders := a.orders);
    var b := UpdateShopOriginalPrice(a, o.id, o.originalPrice);
    assert b == t.(orders := b.orders);
    var c := UpdateOrderType(b, o.id, OrderStatus.CONFIRMING).tables;
    assert c == t.(orders := c.orders);
  }

  lemma OldOrderPoints(t: Tables, o: Order)
    requires !o.isNew
    ensures OrderRowsWritten(t, o).points == t.points
  {
    var a := UpdateShopDiscount(t, o.id, o.shopDiscount);
    assert a.points == t.points;
    var b := UpdateShopOriginalPrice(a, o.id, o.originalPrice);
    assert b.points == t.points;
    var c := UpdateOrderType(b, o.id, OrderStatus.CONFIRMING).tables;
    assert c.points == t.points;
  }

  /** A new order adds the points to its customer's record, when there is one; a continuation adds none. */
  lemma OrderRowsPoints(t: Tables, o: Order)
    ensures OrderRowsWritten(t, o).points ==
      if o.isNew && o.userId in t.points then t.points[o.userId := t.points[o.userId] + POINTS_PER_ORDER] else t.points
  {
    if o.isNew {
      NewOrderPoints(t, o);
    } else {
      OldOrderPoints(t, o);
    }
  }

  lemma NewOrderPoints(t: Tables, o: Order)
    requires o.isNew
    ensures OrderRowsWritten(t, o).points ==
      if o.userId in t.points then t.points[o.userId := t.points[o.userId] + POINTS_PER_ORDER] else t.points
  {
    var a := InsertOrderPay(InsertOrderInfo(t, o), o.id, o.payId);
    assert a.points == t.points;
  }

  /** Everything a commit writes after the deduction leaves the stock and the points where that step put them. */
  lemma AfterDeductionEffect(t1: Tables, o: Order)
    ensures var t3 := FetchCodeWritten(OrderRowsWritten(t1, o), o);
      var t4 := HandledLines(t3, o.id, o.userId, o.dishOrders);
      t4.stock == t1.stock && t4.points == OrderRowsWritten(t1, o).points
  {
    var t2 := OrderRowsWritten(t1, o);
    var t3 := FetchCodeWritten(t2, o);
    OrderRowsFrame(t1, o);
    assert t3.stock == t2.stock && t3.points == t2.points;
    HandledLinesEffect(t3, o.id, o.userId, o.dishOrders);
  }

  /** A commit takes the message's units off its store's durable stock, and nothing else from any store. */
  lemma CommittedStock(t: Tables, om: OrderMessage, s: int)
    ensures StockOf(Committed(t, om), s) ==
      if s == om.order.storeId && om.dishNumMap.Some? then Shift(StockOf(t, s), om.dishNumMap.value, -1)
      else StockOf(t, s)
  {
    AfterDeductionEffect(Deduction(t, om), om.order);
    assert Committed(t, om).stock == Deduction(t, om).stock;
    DeductionStock(t, om, s);
  }

  lemma DeductionStock(t: Tables, om: OrderMessage, s: int)
    ensures StockOf(Deduction(t, om), s) ==
      if s == om.order.storeId && om.dishNumMap.Some? then Shift(StockOf(t, s), om.dishNumMap.value, -1)
      else StockOf(t, s)
  {
    if om.dishNumMap.None? {
      assert Deduction(t, om) == t;
    } else {
      var m := om.dishNumMap.value;
      var sid := om.order.storeId;
      if m == map[] {
        assert Deduction(t, om) == t;
        ShiftEmpty(StockOf(t, sid), -1);
      } else {
        DeductedStock(t, sid, m, s);
      }
    }
  }

  lemma DeductedStock(t: Tables, sid: int, m: map<int, int>, s: int)
    requires m != map[]
    ensures StockOf(Deducted(t, sid, m), s) == if s == sid then Shift(StockOf(t, s), m, -1) else StockOf(t, s)
  {
    assert m - {} == m;
    assert Deducted(t, sid, m).stock == t.stock[sid := Shift(StockOf(t, sid), m, -1)];
  }

  /** A new order earns its customer the points, when the customer has a points record. */
  lemma CommittedPoints(t: Tables, om: OrderMessage)
    ensures var o := om.order;
      Committed(t, om).points ==
        if o.isNew && o.userId in t.points then t.points[o.userId := t.points[o.userId] + POINTS_PER_ORDER] else t.points
  {
    var t1 := Deduction(t, om);
    DeductionKeepsOrders(t, om);
    AfterDeductionEffect(t1, om.order);
    OrderRowsPoints(t1, om.order);
    assert Committed(t, om).points == OrderRowsWritten(t1, om.order).points;
  }

  /**
   * As written, the message of a pessimistic placement never commits: it
   * carries no map, and the queue step fails on it, even for a new order
   * the corrected commit writes. The tables and the queue are as before,
   * and the delivery is rejected to the dead-letter queue.
   */
  method PessimisticMessageFailsAsWritten(db: Db, r: Redis, o: Order, f: Fresh, now: int, today: string)
    returns (ok: bool)
    requires o.isNew
    modifies db, r`lists, r`hashes
    ensures CommitSucceeds(old(db.t), NewOrderMessage(None, PlacedOrder(o, f)))
    ensures !ok && db.t == old(db.t) && r.lists == old(r.lists) && r.hashes == old(r.hashes)
  {
    ghost var pushed;
    ok, pushed := CommitAsWritten(db, r, NewOrderMessage(None, PlacedOrder(o, f)), now, today);
  }

  /**
   * With the queue fed from the order's lines, a pessimistic placement's
   * message commits whenever its order can be written, queues exactly the
   * units the placement took, and takes no durable stock a second time.
   */
  lemma PessimisticMessageCommits(t: Tables, o: Order, f: Fresh, combos: ComboTable)
    requires o.isNew || o.id in t.orders
    ensures var om := NewOrderMessage(None, PlacedOrder(o, f));
      && CommitSucceeds(t, om)
      && WaitingQueueMap(om, combos) == PlacementMap(o, combos)
      && forall s :: StockOf(Committed(t, om), s) == StockOf(t, s)
  {
    var om := NewOrderMessage(None, PlacedOrder(o, f));
    assert PlacedOrder(o, f).dishOrders == PlacedLines(o);
    forall s
      ensures StockOf(Committed(t, om), s) == StockOf(t, s)
    {
      CommittedStock(t, om, s);
    }
  }
}
