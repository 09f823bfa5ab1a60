/**
 * The relational store behind the engine, reduced to the tables and the
 * mapper statements the engine uses. The whole database is one value of
 * `Tables`; a transaction that rolls back simply keeps the value it started
 * from. The SQL text of the mappers is not part of this model: each
 * statement below states the effect the engine relies on, and returns the
 * number of rows it touched where the engine looks at that number.
 */
module Database {
  import opened Common

  datatype OrderDishRow = OrderDishRow(orderId: string, line: DishLine)

  /** A system message to a customer about one of their orders. */
  datatype NoticeKind = OrderFailed | OrderCancelled
  datatype Notice = Notice(userId: string, orderId: string, kind: NoticeKind)

  datatype SaleLogRow = SaleLogRow(date: int, storeId: int, num: int)

  datatype CancelApply = CancelApply(orderId: string, reason: string)

  datatype Tables = Tables(
    stock: map<int, map<int, int>>,          // store -> dish -> units in stock
    makeTimes: map<int, int>,                 // dish -> preparation time in minutes
    storeIds: set<int>,
    dishIds: set<int>,
    userIds: set<string>,
    orders: map<string, Order>,               // order rows (their lines live in orderDishes)
    orderPay: map<string, string>,            // order id -> pay id
    points: map<string, int>,                 // user -> membership points
    usedDiscount: map<string, map<int, int>>, // user -> dish -> discounted units used today
    orderDishes: seq<OrderDishRow>,
    dishSales: map<int, int>,                 // dish -> units sold
    fetchCodes: map<string, string>,          // order id -> meal pick-up code
    notices: seq<Notice>,
    unread: map<string, int>,                 // user -> unread message count
    saleLog: seq<SaleLogRow>,
    cancelApplies: map<string, CancelApply>,
    collectedDish: set<(string, int)>,       // (user, dish) link rows: the dishes a user likes
    favoriteDish: set<(string, int)>,        // (user, dish): the dishes a user collected
    willBuyDish: set<(string, int)>,         // (user, dish): the dishes a user means to buy
    collectedStore: set<(string, int)>)      // (user, store): the stores a user collected

  /** The result of a statement that reports how many rows it touched. */
  datatype Update = Update(rows: int, tables: Tables)

  /** The dishes of a store with their stock, as the dish-info query lists them. */
  function StockOf(t: Tables, sid: int): map<int, int>
  {
    if sid in t.stock then t.stock[sid] else map[]
  }

  /** The stock of one dish in one store; None when the store has no such dish. */
  function GetTheDishInventory(t: Tables, sid: int, did: int): Option<int>
  {
    if did in StockOf(t, sid) then Some(StockOf(t, sid)[did]) else None
  }

  /**
   * The conditional deduction: it takes `n` units off a dish only if the
   * store has at least `n`, and reports one row in that case, none otherwise.
   */
  function OptimisticDeductInventory(t: Tables, sid: int, did: int, n: int): (u: Update)
    ensures u.rows == 0 || u.rows == 1
    ensures u.rows == 1 <==> (match GetTheDishInventory(t, sid, did) case Some(v) => v >= n case None => false)
    ensures u.rows == 0 ==> u.tables == t
    ensures u.rows == 1 ==> GetTheDishInventory(u.tables, sid, did) == Some(StockOf(t, sid)[did] - n)
    ensures forall s, d :: (s, d) != (sid, did) ==> GetTheDishInventory(u.tables, s, d) == GetTheDishInventory(t, s, d)
  {
    match GetTheDishInventory(t, sid, did)
    case Some(v) =>
      if v >= n then Update(1, t.(stock := t.stock[sid := StockOf(t, sid)[did := v - n]]))
      else Update(0, t)
    case None => Update(0, t)
  }

  /** The lines recorded for an order, in insertion order. */
  function LinesOf(rows: seq<OrderDishRow>, oid: string): (r: seq<DishLine>)
    ensures |r| <= |rows|
  {
    if rows == [] then []
    else (if rows[0].orderId == oid then [rows[0].line] else []) + LinesOf(rows[1..], oid)
  }

  /** The order with its lines; None (a Java null) when there is no such order. */
  function QueryOrder(t: Tables, oid: string): Option<Order>
  {
    if oid in t.orders then Some(t.orders[oid].(dishOrders := LinesOf(t.orderDishes, oid))) else None
  }

  function UpdateOrderType(t: Tables, oid: string, status: int): (u: Update)
    ensures u.rows == (if oid in t.orders then 1 else 0)
  {
    if oid in t.orders then Update(1, t.(orders := t.orders[oid := t.orders[oid].(orderType := status)]))
    else Update(0, t)
  }

  function InsertOrderInfo(t: Tables, o: Order): Tables
  {
    t.(orders := t.orders[o.id := o.(dishOrders := [])])
  }

  function InsertOrderPay(t: Tables, oid: string, payId: string): Tables
  {
    t.(orderPay := t.orderPay[oid := payId])
  }

  function UpdateUserPoints(t: Tables, uid: string, delta: int): Tables
  {
    if uid in t.points then t.(points := t.points[uid := t.points[uid] + delta]) else t
  }

  function UpdateShopDiscount(t: Tables, oid: string, discount: int): Tables
  {
    if oid in t.orders then t.(orders := t.orders[oid := t.orders[oid].(shopDiscount := discount)]) else t
  }

  function UpdateShopOriginalPrice(t: Tables, oid: string, price: int): Tables
  {
    if oid in t.orders then t.(orders := t.orders[oid := t.orders[oid].(originalPrice := price)]) else t
  }

  function InsertFetchMealCode(t: Tables, oid: string, code: Option<string>): Tables
  {
    match code
    case Some(c) => t.(fetchCodes := t.fetchCodes[oid := c])
    case None => t
  }

  function UsedDiscountOf(t: Tables, uid: string): map<int, int>
  {
    if uid in t.usedDiscount then t.usedDiscount[uid] else map[]
  }

  /** Adds to the customer's recorded discounted units of a dish, if a record exists. */
  function UpdateUsedDiscountCount(t: Tables, uid: string, did: int, used: int): (u: Update)
    ensures u.rows == (if did in UsedDiscountOf(t, uid) then 1 else 0)
  {
    var m := UsedDiscountOf(t, uid);
    if did in m then Update(1, t.(usedDiscount := t.usedDiscount[uid := m[did := m[did] + used]]))
    else Update(0, t)
  }

  function InsertUsedDiscountCount(t: Tables, uid: string, did: int, used: int): Tables
  {
    t.(usedDiscount := t.usedDiscount[uid := UsedDiscountOf(t, uid)[did := used]])
  }

  /** Sets the customer's recorded discounted units of a dish, if a record exists. */
  function UpdateUsedDiscountCountByANewVal(t: Tables, uid: string, did: int, v: int): Tables
  {
    var m := UsedDiscountOf(t, uid);
    if did in m then t.(usedDiscount := t.usedDiscount[uid := m[did := v]]) else t
  }

  function InsertOrderDish(t: Tables, oid: string, line: DishLine): Tables
  {
    t.(orderDishes := t.orderDishes + [OrderDishRow(oid, line)])
  }

  function UpdateDishSale(t: Tables, did: int, num: int): Tables
  {
    if did in t.dishSales then t.(dishSales := t.dishSales[did := t.dishSales[did] + num]) else t
  }

  function InsertMessage(t: Tables, n: Notice): Tables
  {
    t.(notices := t.notices + [n])
  }

  function UpdateUnReadUserMsgCount(t: Tables, uid: string, delta: int): (u: Update)
    ensures u.rows == (if uid in t.unread then 1 else 0)
  {
    if uid in t.unread then Update(1, t.(unread := t.unread[uid := t.unread[uid] + delta]))
    else Update(0, t)
  }

  function InsertUnReadUserMsgCount(t: Tables, uid: string, v: int): Tables
  {
    t.(unread := t.unread[uid := v])
  }

  /** Tells a customer about one of their orders: a message, and one more unread. */
  function Notify(t: Tables, n: Notice): (t2: Tables)
    ensures t2.notices == t.notices + [n]
    ensures t2.unread == t.unread[n.userId := (if n.userId in t.unread then t.unread[n.userId] else 0) + 1]
    ensures t2.(notices := t.notices, unread := t.unread) == t
  {
    var t1 := InsertMessage(t, n);
    var u := UpdateUnReadUserMsgCount(t1, n.userId, 1);
    if u.rows == 0 then InsertUnReadUserMsgCount(u.tables, n.userId, 1) else u.tables
  }

  function InsertSaleLog(t: Tables, row: SaleLogRow): Tables
  {
    t.(saleLog := t.saleLog + [row])
  }

  /** The database as a connection sees it: the current value of the tables. */
  class Db {
    var t: Tables

    constructor (initial: Tables)
      ensures t == initial
    {
      t := initial;
    }
  }
}
