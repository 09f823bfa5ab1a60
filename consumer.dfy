/**
 * The background consumer of order messages. It commits a placed order to
 * the database once per message id, takes durable stock when the message
 * carries a map of units, queues every unit for the kitchen, and records
 * the outcome in a marker the strategies' completion check reads. Its other
 * listeners add rolled-back units to the cache, cancel orders that could
 * not be committed, and cancel orders left unpaid.
 *
 * A listener's delivery ends acknowledged, rejected without requeue (the
 * broker moves it to the dead-letter queue) or not acknowledged at all when
 * the listener fails before it answers. A message that cannot be decoded is
 * `None`.
 */
module Consumer {
  import opened Common
  import opened RedisStore
  import opened Database
  import opened Messages
  import opened CacheManager
  import opened DishNumMaps
  import opened Strategies
  import OrderStatus

  datatype Delivery = Acked | Rejected | Unacked

  /** Membership points a newly committed order earns. */
  const POINTS_PER_ORDER: int := 5

  /** How long the outcome marker lives, in seconds. */
  const MARKER_SECONDS: int := 180

  // ---------------------------------------------------------------------
  // Taking durable stock.
  // ---------------------------------------------------------------------

  /**
   * The conditional deduction of every entry of the map, stopping at the
   * first one that finds too little stock. The source runs it inside the
   * commit's transaction, so a failure undoes the deductions already made.
   */
  method DeductionInventory(db: Db, m: map<int, int>, sid: int) returns (ok: bool)
    modifies db
    ensures ok <==> Available(StockOf(old(db.t), sid), m)
    ensures ok ==> db.t == Deducted(old(db.t), sid, m)
  {
    var t0 := db.t;
    var todo := m.Keys;
    while todo != {}
      invariant todo <= m.Keys
      invariant db.t == Reached(t0, sid, m, todo)
      invariant forall id :: id in m && id !in todo ==> id in StockOf(t0, sid) && StockOf(t0, sid)[id] >= m[id]
      decreases |todo|
    {
      var id := Choose(todo);
      DeductStep(t0, sid, m, todo, id);
      var u := OptimisticDeductInventory(db.t, sid, id, m[id]);
      if u.rows == 0 {
        return false;
      }
      db.t := u.tables;
      todo := todo - {id};
    }
    assert m == map[] <==> m.Keys == {};
    return true;
  }

  // ---------------------------------------------------------------------
  // The waiting queue.
  // ---------------------------------------------------------------------

  /** A list-valued cache map with `front` pushed onto the list at `key`; pushing nothing creates no list. */
  function WithFront(lists: map<string, seq<QueueEntry>>, key: string, front: seq<QueueEntry>): map<string, seq<QueueEntry>>
  {
    if front == [] then lists else lists[key := front + (if key in lists then lists[key] else [])]
  }

  lemma WithFrontTwice(lists: map<string, seq<QueueEntry>>, key: string, a: seq<QueueEntry>, b: seq<QueueEntry>)
    ensures WithFront(WithFront(lists, key, a), key, b) == WithFront(lists, key, b + a)
  {
    var rest := if key in lists then lists[key] else [];
    if a == [] {
      assert b + a == b;
    } else if b == [] {
      assert b + a == a;
    } else {
      var once := WithFront(lists, key, a);
      assert key in once && once[key] == a + rest;
      assert (b + a) + rest == b + (a + rest);
    }
  }

  /** How many copies of `e` the queue gains from a map of units queued at `now`: a dish's count, when positive. */
  function Copies(m: map<int, int>, now: int, e: QueueEntry): nat
  {
    if e.timestamp == now && e.dishId in m && m[e.dishId] > 0 then m[e.dishId] else 0
  }

  /** `n` pushes of one entry. */
  method PushCopies(r: Redis, e: QueueEntry, n: int) returns (ghost pushed: seq<QueueEntry>)
    modifies r`lists
    ensures r.lists == WithFront(old(r.lists), DISH_WAITING_QUEUE_KEY, pushed)
    ensures forall x :: multiset(pushed)[x] == if x == e && n > 0 then n else 0
  {
    pushed := [];
    var i := 0;
    while i < n
      invariant 0 <= i <= (if n > 0 then n else 0)
      invariant r.lists == WithFront(old(r.lists), DISH_WAITING_QUEUE_KEY, pushed)
      invariant forall x :: multiset(pushed)[x] == if x == e then i else 0
    {
      ghost var before := r.lists;
      r.LeftPush(DISH_WAITING_QUEUE_KEY, e);
      WithFrontTwice(old(r.lists), DISH_WAITING_QUEUE_KEY, pushed, [e]);
      assert r.lists == WithFront(before, DISH_WAITING_QUEUE_KEY, [e]);
      pushed := [e] + pushed;
      i := i + 1;
    }
  }

  /**
   * Every unit of the map becomes one queue entry, all stamped with the same
   * time; a dish with n units gets n entries. The entries go to the front of
   * the queue, in an order the model leaves open.
   */
  method AddToWaitingQueue(r: Redis, m: map<int, int>, now: int) returns (ghost pushed: seq<QueueEntry>)
    modifies r`lists
    ensures r.lists == WithFront(old(r.lists), DISH_WAITING_QUEUE_KEY, pushed)
    ensures forall e :: multiset(pushed)[e] == Copies(m, now, e)
  {
    pushed := [];
    var todo := m.Keys;
    while todo != {}
      invariant todo <= m.Keys
      invariant r.lists == WithFront(old(r.lists), DISH_WAITING_QUEUE_KEY, pushed)
      invariant forall e :: multiset(pushed)[e] == Copies(m - todo, now, e)
      decreases |todo|
    {
      var id := Choose(todo);
      var more := PushCopies(r, QueueEntry(id, now), m[id]);
      WithFrontTwice(old(r.lists), DISH_WAITING_QUEUE_KEY, pushed, more);
      forall e
        ensures multiset(more + pushed)[e] == Copies(m - (todo - {id}), now, e)
      {
        assert multiset(more + pushed)[e] == multiset(more)[e] + multiset(pushed)[e];
      }
      pushed := more + pushed;
      todo := todo - {id};
    }
    assert m - {} == m;
  }

  /**
   * The queue step as the source writes it: it walks the message's own map,
   * so a message without one fails there before anything is pushed.
   */
  method AddToWaitingQueueAsWritten(r: Redis, m: Option<map<int, int>>, now: int)
    returns (ok: bool, ghost pushed: seq<QueueEntry>)
    modifies r`lists
    ensures ok <==> m.Some?
    ensures r.lists == WithFront(old(r.lists), DISH_WAITING_QUEUE_KEY, pushed)
    ensures m.None? ==> pushed == []
    ensures m.Some? ==> forall e :: multiset(pushed)[e] == Copies(m.value, now, e)
  {
    if m.None? {
      return false, [];
    }
    pushed := AddToWaitingQueue(r, m.value, now);
    ok := true;
  }

  // ---------------------------------------------------------------------
  // The rows written per order line.
  // ---------------------------------------------------------------------

  /** The discount-usage upsert: the update, or an insert when the update touched no row. */
  function Upserted(t: Tables, uid: string, did: int, used: int): Tables
  {
    var u := UpdateUsedDiscountCount(t, uid, did, used);
    if u.rows == 0 then InsertUsedDiscountCount(u.tables, uid, did, used) else u.tables
  }

  /**
   * One line's rows: its discount usage is added to the customer's record
   * (inserted when there is no record yet), its order-dish row is inserted,
   * and its units are added to the dish's sales.
   */
  function HandleLine(t: Tables, oid: string, uid: string, line: DishLine): Tables
  {
    UpdateDishSale(InsertOrderDish(Upserted(t, uid, line.dishId, line.usedCount), oid, line), line.dishId, line.dishNum)
  }

  /** The lines handled one after another, in order. */
  function HandledLines(t: Tables, oid: string, uid: string, lines: seq<DishLine>): Tables
    decreases |lines|
  {
    if lines == [] then t
    else HandleLine(HandledLines(t, oid, uid, lines[..|lines| - 1]), oid, uid, lines[|lines| - 1])
  }

  /** The order-dish rows of an order's lines, in order. */
  function Rows(oid: string, lines: seq<DishLine>): seq<OrderDishRow>
    decreases |lines|
  {
    if lines == [] then [] else Rows(oid, lines[..|lines| - 1]) + [OrderDishRow(oid, lines[|lines| - 1])]
  }

  /** The discounted units the lines use of one dish. */
  function UsedOf(lines: seq<DishLine>, did: int): int
    decreases |lines|
  {
    if lines == [] then 0
    else UsedOf(lines[..|lines| - 1], did) + (if lines[|lines| - 1].dishId == did then lines[|lines| - 1].usedCount else 0)
  }

  /** The units the lines order of one dish. */
  function SoldOf(lines: seq<DishLine>, did: int): int
    decreases |lines|
  {
    if lines == [] then 0
    else SoldOf(lines[..|lines| - 1], did) + (if lines[|lines| - 1].dishId == did then lines[|lines| - 1].dishNum else 0)
  }

  /** The units the lines order, over all dishes. */
  function DishNumTotal(lines: seq<DishLine>): int
    decreases |lines|
  {
    if lines == [] then 0 else DishNumTotal(lines[..|lines| - 1]) + lines[|lines| - 1].dishNum
  }

  /** The upsert adds the usage to the customer's record of the dish and changes nothing else. */
  lemma UpsertedEffect(t: Tables, uid: string, did: int, used: int)
    ensures var t2 := Upserted(t, uid, did, used);
      && (forall d :: GetOrZero(UsedDiscountOf(t2, uid), d) == GetOrZero(UsedDiscountOf(t, uid), d) + (if d == did then used else 0))
      && (forall u :: u != uid ==> UsedDiscountOf(t2, u) == UsedDiscountOf(t, u))
      && t2 == t.(usedDiscount := t2.usedDiscount)
  {
    var m := UsedDiscountOf(t, uid);
    if did in m {
      assert Upserted(t, uid, did, used) == t.(usedDiscount := t.usedDiscount[uid := m[did := m[did] + used]]);
    } else {
      assert Upserted(t, uid, did, used) == t.(usedDiscount := t.usedDiscount[uid := m[did := used]]);
    }
  }

  /** The order-dish row and the sales update touch nothing but their own tables. */
  lemma RowAndSaleEffect(t: Tables, oid: string, line: DishLine)
    ensures var t2 := UpdateDishSale(InsertOrderDish(t, oid, line), line.dishId, line.dishNum);
      && t2.orderDishes == t.orderDishes + [OrderDishRow(oid, line)]
      && t2.dishSales.Keys == t.dishSales.Keys
      && (forall did :: did in t.dishSales ==>
            t2.dishSales[did] == t.dishSales[did] + (if did == line.dishId then line.dishNum else 0))
      && t2 == t.(orderDishes := t2.orderDishes, dishSales := t2.dishSales)
  {
    var t1 := InsertOrderDish(t, oid, line);
    assert t1.dishSales == t.dishSales;
    if line.dishId in t.dishSales {
      var s2 := t.dishSales[line.dishId := t.dishSales[line.dishId] + line.dishNum];
      assert UpdateDishSale(t1, line.dishId, line.dishNum) == t1.(dishSales := s2);
    }
  }

  /**
   * Handling an order's lines appends exactly their rows, adds each line's
   * units to its dish's sales, and changes nothing else but the customer's
   * discount usage.
   */
  lemma {:induction false} HandledLinesEffect(t: Tables, oid: string, uid: string, lines: seq<DishLine>)
    ensures HandledLines(t, oid, uid, lines).orderDishes == t.orderDishes + Rows(oid, lines)
    ensures HandledLines(t, oid, uid, lines).dishSales.Keys == t.dishSales.Keys
    ensures forall did :: did in t.dishSales ==>
      HandledLines(t, oid, uid, lines).dishSales[did] == t.dishSales[did] + SoldOf(lines, did)
    ensures HandledLines(t, oid, uid, lines).(orderDishes := t.orderDishes, usedDiscount := t.usedDiscount,
                                              dishSales := t.dishSales) == t
    decreases |lines|
  {
    if lines != [] {
      var init := lines[..|lines| - 1];
      var line := lines[|lines| - 1];
      var prev := HandledLines(t, oid, uid, init);
      HandledLinesEffect(t, oid, uid, init);
      UpsertedEffect(prev, uid, line.dishId, line.usedCount);
      RowAndSaleEffect(Upserted(prev, uid, line.dishId, line.usedCount), oid, line);
    }
  }

  /**
   * Handling an order's lines adds each line's discount usage to the
   * customer's record: an update, or an insert where there was no record,
   * which together make an upsert that adds. Other customers keep theirs.
   */
  lemma {:induction false} HandledLinesUsage(t: Tables, oid: string, uid: string, lines: seq<DishLine>)
    ensures forall did ::
      (GetOrZero(UsedDiscountOf(HandledLines(t, oid, uid, lines), uid), did) ==
       GetOrZero(UsedDiscountOf(t, uid), did) + UsedOf(lines, did))
    ensures forall u :: u != uid ==> UsedDiscountOf(HandledLines(t, oid, uid, lines), u) == UsedDiscountOf(t, u)
    decreases |lines|
  {
    if lines != [] {
      var init := lines[..|lines| - 1];
      var line := lines[|lines| - 1];
      var prev := HandledLines(t, oid, uid, init);
      var mid := Upserted(prev, uid, line.dishId, line.usedCount);
      HandledLinesUsage(t, oid, uid, init);
      UpsertedEffect(prev, uid, line.dishId, line.usedCount);
      RowAndSaleEffect(mid, oid, line);
      assert HandledLines(t, oid, uid, lines).usedDiscount == mid.usedDiscount;
      forall did
        ensures GetOrZero(UsedDiscountOf(HandledLines(t, oid, uid, lines), uid), did) ==
          GetOrZero(UsedDiscountOf(t, uid), did) + UsedOf(lines, did)
      {
        assert GetOrZero(UsedDiscountOf(mid, uid), did) ==
          GetOrZero(UsedDiscountOf(prev, uid), did) + (if did == line.dishId then line.usedCount else 0);
        assert UsedOf(lines, did) == UsedOf(init, did) + (if line.dishId == did then line.usedCount else 0);
      }
    }
  }

  lemma {:induction false} LinesOfAppend(a: seq<OrderDishRow>, b: seq<OrderDishRow>, oid: string)
    ensures LinesOf(a + b, oid) == LinesOf(a, oid) + LinesOf(b, oid)
    decreases |a|
  {
    if a == [] {
      assert a + b == b;
    } else {
      var head := if a[0].orderId == oid then [a[0].line] else [];
      LinesOfAppend(a[1..], b, oid);
      assert (a + b)[0] == a[0];
      assert (a + b)[1..] == a[1..] + b;
      calc {
        LinesOf(a + b, oid);
        head + LinesOf(a[1..] + b, oid);
        head + (LinesOf(a[1..], oid) + LinesOf(b, oid));
        (head + LinesOf(a[1..], oid)) + LinesOf(b, oid);
      }
    }
  }

  /** Reading back the rows of an order's lines gives those lines, and nothing for another order. */
  lemma {:induction false} LinesOfRows(oid: string, other: string, lines: seq<DishLine>)
    ensures LinesOf(Rows(oid, lines), oid) == lines
    ensures other != oid ==> LinesOf(Rows(oid, lines), other) == []
    decreases |lines|
  {
    if lines != [] {
      var init := lines[..|lines| - 1];
      LinesOfRows(oid, other, init);
      LinesOfAppend(Rows(oid, init), [OrderDishRow(oid, lines[|lines| - 1])], oid);
      LinesOfAppend(Rows(oid, init), [OrderDishRow(oid, lines[|lines| - 1])], other);
      assert init + [lines[|lines| - 1]] == lines;
    }
  }

  /** The day's per-store counters with the lines' units added to the store's field; no lines, no counter. */
  function Counted(hashes: map<string, map<int, int>>, key: string, sid: int, lines: seq<DishLine>): map<string, map<int, int>>
  {
    if lines == [] then hashes
    else hashes[key := AddTo(if key in hashes then hashes[key] else map[], sid, DishNumTotal(lines))]
  }

  lemma CountedStep(hashes: map<string, map<int, int>>, key: string, sid: int, lines: seq<DishLine>, line: DishLine)
    ensures var c := Counted(hashes, key, sid, lines);
      c[key := AddTo(if key in c then c[key] else map[], sid, line.dishNum)] == Counted(hashes, key, sid, lines + [line])
  {
    var all := lines + [line];
    assert all[..|all| - 1] == lines;
    var h := if key in hashes then hashes[key] else map[];
    if lines != [] {
      assert AddTo(AddTo(h, sid, DishNumTotal(lines)), sid, line.dishNum) == AddTo(h, sid, DishNumTotal(all));
    }
  }

  /**
   * The per-line loop: the rows of every line, and the lines' units added to
   * the store's field of the day's sales counter in the cache.
   */
  method HandleDishOrders(db: Db, r: Redis, oid: string, uid: string, sid: int, lines: seq<DishLine>, todayKey: string)
    modifies db, r`hashes
    ensures db.t == HandledLines(old(db.t), oid, uid, lines)
    ensures r.hashes == Counted(old(r.hashes), todayKey, sid, lines)
  {
    ghost var t0, h0 := db.t, r.hashes;
    var i := 0;
    while i < |lines|
      invariant 0 <= i <= |lines|
      invariant db.t == HandledLines(t0, oid, uid, lines[..i])
      invariant r.hashes == Counted(h0, todayKey, sid, lines[..i])
    {
      ApplyLine(db, r, oid, uid, sid, lines[i], todayKey);
      HandledPrefix(t0, oid, uid, lines, i);
      CountedPrefix(h0, todayKey, sid, lines, i);
      i := i + 1;
    }
    assert lines[..|lines|] == lines;
  }

  /** The writes of one line: its rows, and its units added to the day's counter. */
  method ApplyLine(db: Db, r: Redis, oid: string, uid: string, sid: int, line: DishLine, todayKey: string)
    modifies db, r`hashes
    ensures db.t == HandleLine(old(db.t), oid, uid, line)
    ensures r.hashes == old(r.hashes)[todayKey := AddTo(old(r.HashOf(todayKey)), sid, line.dishNum)]
  {
    var u := UpdateUsedDiscountCount(db.t, uid, line.dishId, line.usedCount);
    db.t := u.tables;
    if u.rows == 0 {
      db.t := InsertUsedDiscountCount(db.t, uid, line.dishId, line.usedCount);
    }
    db.t := InsertOrderDish(db.t, oid, line);
    db.t := UpdateDishSale(db.t, line.dishId, line.dishNum);
    r.HashIncrement(todayKey, sid, line.dishNum);
  }

  lemma HandledPrefix(t: Tables, oid: string, uid: string, lines: seq<DishLine>, i: nat)
    requires i < |lines|
    ensures HandledLines(t, oid, uid, lines[..i + 1]) == HandleLine(HandledLines(t, oid, uid, lines[..i]), oid, uid, lines[i])
  {
    assert lines[..i + 1][..i] == lines[..i];
  }

  lemma CountedPrefix(hashes: map<string, map<int, int>>, key: string, sid: int, lines: seq<DishLine>, i: nat)
    requires i < |lines|
    ensures var c := Counted(hashes, key, sid, lines[..i]);
      Counted(hashes, key, sid, lines[..i + 1]) == c[key := AddTo(if key in c then c[key] else map[], sid, lines[i].dishNum)]
  {
    CountedStep(hashes, key, sid, lines[..i], lines[i]);
    assert lines[..i] + [lines[i]] == lines[..i + 1];
  }

  // ---------------------------------------------------------------------
  // Committing an order message.
  // ---------------------------------------------------------------------

  /**
   * The units the corrected consumer queues for the kitchen: the message's
   * map. A pessimistic placement sends no map, since it has already taken
   * the stock; the source then fails at the queue (`CommitAsWritten`),
   * while the corrected commit queues the order's own units, which are what
   * that placement took.
   */
  function WaitingQueueMap(om: OrderMessage, combos: ComboTable): map<int, int>
  {
    match om.dishNumMap
    case Some(m) => m
    case None => DishNumMap(om.order.dishOrders, combos)
  }

  /** The durable deduction passes: the message carries no map, or every unit it names is in stock. */
  predicate DeductionPasses(t: Tables, om: OrderMessage)
  {
    om.dishNumMap.Some? ==> Available(StockOf(t, om.order.storeId), om.dishNumMap.value)
  }

  /** The commit's transaction goes through: the deduction passes, and a continuation's order exists. */
  predicate CommitSucceeds(t: Tables, om: OrderMessage)
  {
    DeductionPasses(t, om) && (om.order.isNew || om.order.id in t.orders)
  }

  /** The durable stock the message's map takes; a message without a map takes none. */
  function Deduction(t: Tables, om: OrderMessage): Tables
  {
    match om.dishNumMap
    case Some(m) => Deducted(t, om.order.storeId, m)
    case None => t
  }

  /**
   * The order's own rows: a new order gets its order and pay rows and its
   * customer the points; a continuation's prices are updated and it goes
   * back to confirming.
   */
  function OrderRowsWritten(t: Tables, o: Order): Tables
  {
    if o.isNew then
      UpdateUserPoints(InsertOrderPay(InsertOrderInfo(t, o), o.id, o.payId), o.userId, POINTS_PER_ORDER)
    else
      UpdateOrderType(UpdateShopOriginalPrice(UpdateShopDiscount(t, o.id, o.shopDiscount), o.id, o.originalPrice),
                      o.id, OrderStatus.CONFIRMING).tables
  }

  /** A takeaway order's pick-up code. */
  function FetchCodeWritten(t: Tables, o: Order): Tables
  {
    if o.consumeType == 2 then InsertFetchMealCode(t, o.id, o.fetchMealCode) else t
  }

  /** The tables after a commit that goes through. */
  function Committed(t: Tables, om: OrderMessage): Tables
  {
    var o := om.order;
    HandledLines(FetchCodeWritten(OrderRowsWritten(Deduction(t, om), o), o), o.id, o.userId, o.dishOrders)
  }

  /**
   * The service's status update: it fails when no row was touched, that is
   * when there is no such order.
   */
  method UpdateOrderTypeChecked(db: Db, oid: string, status: int) returns (ok: bool)
    modifies db
    ensures ok <==> oid in old(db.t).orders
    ensures db.t == UpdateOrderType(old(db.t), oid, status).tables
  {
    var u := UpdateOrderType(db.t, oid, status);
    db.t := u.tables;
    ok := u.rows != 0;
  }

  /** The order's own rows, failing for a continuation whose order is missing. */
  method WriteOrderRows(db: Db, o: Order) returns (ok: bool)
    modifies db
    ensures ok <==> o.isNew || o.id in old(db.t).orders
    ensures ok ==> db.t == OrderRowsWritten(old(db.t), o)
  {
    if o.isNew {
      db.t := InsertOrderInfo(db.t, o);
      db.t := InsertOrderPay(db.t, o.id, o.payId);
      db.t := UpdateUserPoints(db.t, o.userId, POINTS_PER_ORDER);
      ok := true;
    } else {
      db.t := UpdateShopDiscount(db.t, o.id, o.shopDiscount);
      db.t := UpdateShopOriginalPrice(db.t, o.id, o.originalPrice);
      ok := UpdateOrderTypeChecked(db, o.id, OrderStatus.CONFIRMING);
    }
  }

  /** The deduction of the message's map, if it carries one. */
  method DeductMessage(db: Db, om: OrderMessage) returns (ok: bool)
    modifies db
    ensures ok == DeductionPasses(old(db.t), om)
    ensures ok ==> db.t == Deduction(old(db.t), om)
  {
    ok := true;
    if om.dishNumMap.Some? {
      ok := DeductionInventory(db, om.dishNumMap.value, om.order.storeId);
    }
  }

  /** Taking stock changes nothing an order's rows are read from or checked against. */
  lemma DeductionKeepsOrders(t: Tables, om: OrderMessage)
    ensures Deduction(t, om) == t.(stock := Deduction(t, om).stock)
  {
  }

  /**
   * The commit after the stock and the queue: the order's rows, the pick-up
   * code and the rows of every line. `t0` is the tables as the transaction
   * found them, which a missing continuation rolls back to.
   */
  method FinishCommit(db: Db, r: Redis, om: OrderMessage, t0: Tables, today: string) returns (ok: bool)
    requires db.t == Deduction(t0, om)
    modifies db, r`hashes
    ensures ok <==> om.order.isNew || om.order.id in t0.orders
    ensures db.t == if ok then Committed(t0, om) else t0
    ensures r.hashes == if ok then Counted(old(r.hashes), TodayDateKey(today), om.order.storeId, om.order.dishOrders)
                        else old(r.hashes)
  {
    var o := om.order;
    DeductionKeepsOrders(t0, om);
    var written := WriteOrderRows(db, o);
    if !written {
      db.t := t0;
      return false;
    }
    db.t := FetchCodeWritten(db.t, o);
    HandleDishOrders(db, r, o.id, o.userId, o.storeId, o.dishOrders, TodayDateKey(today));
    ok := true;
  }

  /**
   * The commit inside the transaction, corrected at the queue step: take
   * the stock, queue the units (the order's own when the message carries no
   * map), write the order's rows, the pick-up code and the rows of every
   * line. A failure rolls the tables back; what was already pushed onto the
   * queue stays, since the cache is not part of the transaction.
   */
  method Commit(db: Db, r: Redis, om: OrderMessage, combos: ComboTable, now: int, today: string)
    returns (ok: bool, ghost pushed: seq<QueueEntry>)
    modifies db, r`lists, r`hashes
    ensures ok == CommitSucceeds(old(db.t), om)
    ensures db.t == if ok then Committed(old(db.t), om) else old(db.t)
    ensures r.lists == WithFront(old(r.lists), DISH_WAITING_QUEUE_KEY, pushed)
    ensures DeductionPasses(old(db.t), om) ==> forall e :: multiset(pushed)[e] == Copies(WaitingQueueMap(om, combos), now, e)
    ensures !DeductionPasses(old(db.t), om) ==> pushed == []
    ensures r.hashes == if ok then Counted(old(r.hashes), TodayDateKey(today), om.order.storeId, om.order.dishOrders)
                        else old(r.hashes)
  {
    var t0 := db.t;
    var o := om.order;
    pushed := [];
    var deducted := DeductMessage(db, om);
    if !deducted {
      db.t := t0;
      return false, pushed;
    }
    pushed := AddToWaitingQueue(r, WaitingQueueMap(om, combos), now);
    ok := FinishCommit(db, r, om, t0, today);
  }

  /**
   * The commit as the source writes it: the queue step walks the message's
   * own map, so a message without one (every pessimistic placement's) fails
   * there, after the deduction it skipped; the transaction rolls back and
   * the caller rejects the delivery. A message with a map commits as the
   * corrected commit does.
   */
  method CommitAsWritten(db: Db, r: Redis, om: OrderMessage, now: int, today: string)
    returns (ok: bool, ghost pushed: seq<QueueEntry>)
    modifies db, r`lists, r`hashes
    ensures om.dishNumMap.None? ==> !ok && pushed == []
    ensures om.dishNumMap.Some? ==> ok == CommitSucceeds(old(db.t), om)
    ensures db.t == if ok then Committed(old(db.t), om) else old(db.t)
    ensures r.lists == WithFront(old(r.lists), DISH_WAITING_QUEUE_KEY, pushed)
    ensures om.dishNumMap.Some? && DeductionPasses(old(db.t), om) ==>
      forall e :: multiset(pushed)[e] == Copies(om.dishNumMap.value, now, e)
    ensures !DeductionPasses(old(db.t), om) ==> pushed == []
    ensures r.hashes == if ok then Counted(old(r.hashes), TodayDateKey(today), om.order.storeId, om.order.dishOrders)
                        else old(r.hashes)
  {
    var t0 := db.t;
    pushed := [];
    var deducted := DeductMessage(db, om);
    if !deducted {
      db.t := t0;
      return false, pushed;
    }
    var queued;
    queued, pushed := AddToWaitingQueueAsWritten(r, om.dishNumMap, now);
    if !queued {
      db.t := t0;
      return false, pushed;
    }
    ok := FinishCommit(db, r, om, t0, today);
  }

  /**
   * What consuming a message whose marker did not exist leaves behind: the
   * delivery acknowledged when the commit goes through and rejected
   * otherwise, the tables committed or rolled back, the marker 1 or -1 for
   * 180 seconds, the queue with the pushed units, and the day's counter
   * counted only on success.
   */
  twostate predicate Consumed(db: Db, r: Redis, om: OrderMessage, combos: ComboTable, now: int, today: string,
                              d: Delivery, pushed: seq<QueueEntry>)
    reads db, r
  {
    var key := OrderMessageCacheKey(om.messageId);
    var ok := CommitSucceeds(old(db.t), om);
    && d == (if ok then Acked else Rejected)
    && db.t == (if ok then Committed(old(db.t), om) else old(db.t))
    && r.values == old(r.values)[key := if ok then 1 else -1]
    && r.expiry == old(r.expiry)[key := MARKER_SECONDS]
    && r.lists == WithFront(old(r.lists), DISH_WAITING_QUEUE_KEY, pushed)
    && r.hashes == (if ok then Counted(old(r.hashes), TodayDateKey(today), om.order.storeId, om.order.dishOrders)
                    else old(r.hashes))
    && r.bitmaps == old(r.bitmaps)
    && (DeductionPasses(old(db.t), om) ==> forall e :: multiset(pushed)[e] == Copies(WaitingQueueMap(om, combos), now, e))
    && (!DeductionPasses(old(db.t), om) ==> pushed == [])
    && IsComplete(r, om.messageId) == Some(if ok then 1 else -1)
  }

  /**
   * The order-confirmation listener. An undecodable message is
   * acknowledged and dropped. The marker is set to 0 only if its key does
   * not exist; if it exists, another delivery of the same message has
   * claimed it, and this one returns without answering and without touching
   * anything. Otherwise the commit runs, and whatever its outcome the
   * marker records it.
   */
  method DoAddOrder(db: Db, r: Redis, msg: Option<OrderMessage>, combos: ComboTable, now: int, today: string)
    returns (d: Delivery, ghost pushed: seq<QueueEntry>)
    modifies db, r
    ensures msg.None? ==> d == Acked && unchanged(db, r)
    ensures msg.Some? && old(r.Exists(OrderMessageCacheKey(msg.value.messageId))) ==> d == Unacked && unchanged(db, r)
    ensures msg.Some? && !old(r.Exists(OrderMessageCacheKey(msg.value.messageId))) ==>
      Consumed(db, r, msg.value, combos, now, today, d, pushed)
    ensures msg.Some? ==> r.Exists(OrderMessageCacheKey(msg.value.messageId))
  {
    pushed := [];
    if msg.None? {
      return Acked, pushed;
    }
    var om := msg.value;
    var key := OrderMessageCacheKey(om.messageId);
    ghost var values0 := r.values;
    var present := r.SetIfAbsent(key, 0);
    if !present {
      return Unacked, pushed;
    }
    ghost var ok := CommitSucceeds(db.t, om);
    d, pushed := CommitAndRecord(db, r, om, combos, now, today);
    assert r.values == values0[key := if ok then 1 else -1];
  }

  /** The commit of a claimed message, and the marker that records its outcome. */
  method CommitAndRecord(db: Db, r: Redis, om: OrderMessage, combos: ComboTable, now: int, today: string)
    returns (d: Delivery, ghost pushed: seq<QueueEntry>)
    requires var key := OrderMessageCacheKey(om.messageId); key !in r.hashes && key !in r.lists && key !in r.bitmaps
    modifies db, r
    ensures Consumed(db, r, om, combos, now, today, d, pushed)
  {
    var key := OrderMessageCacheKey(om.messageId);
    var ok;
    ok, pushed := Commit(db, r, om, combos, now, today);
    d := if ok then Acked else Rejected;
    MarkerKeyIsNoOtherKey(om.messageId, today);
    assert key !in r.lists && key !in r.hashes;
    RecordOutcome(r, om.messageId, if ok then 1 else -1);
  }

  /** The marker write in the listener's `finally`: the outcome, with a fresh time to live. */
  method RecordOutcome(r: Redis, mid: string, v: int)
    modifies r
    ensures var key := OrderMessageCacheKey(mid);
      && r.values == old(r.values)[key := v] && r.expiry == old(r.expiry)[key := MARKER_SECONDS]
      && r.hashes == old(r.hashes) - {key} && r.lists == old(r.lists) - {key} && r.bitmaps == old(r.bitmaps) - {key}
    ensures IsComplete(r, mid) == Some(v)
  {
    var key := OrderMessageCacheKey(mid);
    r.Set(key, v);
    r.Expire(key, MARKER_SECONDS);
  }

  /**
   * Redelivery within the marker's time to live commits at most once: a
   * second delivery of the same message finds the marker the first left, is
   * not answered and changes nothing.
   */
  method DeliverTwice(db: Db, r: Redis, om: OrderMessage, combos: ComboTable, now1: int, now2: int, today: string)
    returns (d1: Delivery, d2: Delivery)
    modifies db, r
    ensures d2 == Unacked
    ensures db.t == if !old(r.Exists(OrderMessageCacheKey(om.messageId))) && CommitSucceeds(old(db.t), om)
                    then Committed(old(db.t), om) else old(db.t)
  {
    ghost var p1, p2;
    d1, p1 := DoAddOrder(db, r, Some(om), combos, now1, today);
    d2, p2 := DoAddOrder(db, r, Some(om), combos, now2, today);
  }

  /**
   * The marker lasts `MARKER_SECONDS`: once they have passed, the same
   * message id (a continuation reuses its order's id) is consumed again and
   * answered, instead of being left unanswered.
   */
  method DeliverAfterMarkerLapses(db: Db, r: Redis, om: OrderMessage, combos: ComboTable, now1: int, now2: int, today: string)
    returns (d1: Delivery, d2: Delivery)
    modifies db, r
    ensures !old(r.Exists(OrderMessageCacheKey(om.messageId))) ==> d1 != Unacked && d2 != Unacked
  {
    ghost var p1, p2;
    d1, p1 := DoAddOrder(db, r, Some(om), combos, now1, today);
    r.Elapse(MARKER_SECONDS);
    d2, p2 := DoAddOrder(db, r, Some(om), combos, now2, today);
  }

  // ---------------------------------------------------------------------
  // Adding rolled-back units to the cache.
  // ---------------------------------------------------------------------

  /**
   * The rollback listener: the store comes from the entry under -1, and
   * every entry of the map, that one included, is added to the store's
   * cached stock. An undecodable map, or one without the -1 entry, makes
   * the listener fail before anything changes and before it answers.
   */
  method RollBackStock(r: Redis, msg: Option<map<int, int>>) returns (d: Delivery)
    modifies r`hashes
    ensures msg.None? || -1 !in msg.value ==> d == Unacked && r.hashes == old(r.hashes)
    ensures msg.Some? && -1 in msg.value ==>
      var key := DishStockCacheKey(msg.value[-1]);
      d == Acked && r.hashes == old(r.hashes)[key := Shift(old(r.HashOf(key)), msg.value, 1)]
  {
    if msg.None? || -1 !in msg.value {
      return Unacked;
    }
    var m := msg.value;
    var storeId := m[-1];
    IncrementFields(r, DishStockCacheKey(storeId), m, 1);
    d := Acked;
  }

  /**
   * A failed send in the high-concurrency strategy, once its compensation
   * map is consumed, leaves every dish of the store's cached stock where it
   * was before the placement; only the -1 field the compensation also adds
   * is new.
   */
  lemma CompensationRestoresCache(h: map<int, int>, m: map<int, int>, storeId: int)
    requires -1 !in m
    ensures var back := Shift(Shift(h, m, -1), m[-1 := storeId], 1);
      && (forall id :: id != -1 ==> GetOrZero(back, id) == GetOrZero(h, id))
      && GetOrZero(back, -1) == GetOrZero(h, -1) + storeId
  {
    DeductThenRollBack(h, m, storeId);
    var back := Shift(Shift(h, m, -1), m[-1 := storeId], 1);
    assert -1 in back && back[-1] == GetOrZero(Shift(h, m, -1), -1) + storeId;
  }

  // ---------------------------------------------------------------------
  // Cancelling orders: the dead-letter path and the unpaid-order path.
  // ---------------------------------------------------------------------

  /** The order set to cancelled (where it exists) and its customer told why. */
  function Cancelled(t: Tables, o: Order, kind: NoticeKind): Tables
  {
    Notify(UpdateOrderType(t, o.id, OrderStatus.CANCELLED).tables, Notice(o.userId, o.id, kind))
  }

  /** Cancelling sets the order's status and adds the notice; nothing else changes. */
  lemma CancelledEffect(t: Tables, o: Order, kind: NoticeKind)
    ensures var t2 := Cancelled(t, o, kind);
      && t2.orders.Keys == t.orders.Keys
      && (o.id in t.orders ==> t2.orders[o.id] == t.orders[o.id].(orderType := OrderStatus.CANCELLED))
      && (forall id :: id in t.orders && id != o.id ==> t2.orders[id] == t.orders[id])
      && t2.notices == t.notices + [Notice(o.userId, o.id, kind)]
      && t2.(orders := t.orders, notices := t.notices, unread := t.unread) == t
  {
    var t1 := UpdateOrderType(t, o.id, OrderStatus.CANCELLED).tables;
    assert t1.(orders := t.orders) == t;
  }

  /** A cancellation always tells the customer: the tables after it are never the tables before. */
  lemma CancellationNotifies(t: Tables, o: Order, kind: NoticeKind)
    ensures Cancelled(t, o, kind) != t
    ensures |Cancelled(t, o, kind).notices| == |t.notices| + 1
  {
    CancelledEffect(t, o, kind);
  }

  /**
   * The dead-letter listener, for messages the commit rejected. It runs in
   * the consumer's transaction, which any exception rolls back. An
   * undecodable message is acknowledged and then the handler fails with
   * nothing changed. Otherwise the order is cancelled and the customer told;
   * then the message's map, with -1 mapped to the store, is sent for
   * rollback and the delivery acknowledged. A message without a map fails at
   * the map, after the cancellation: the transaction undoes the cancellation
   * and the notice, and the delivery is left unanswered.
   */
  method DeadOrderMessageHandler(db: Db, b: Broker, msg: Option<OrderMessage>) returns (d: Delivery)
    modifies db, b
    ensures msg.None? ==> d == Acked && db.t == old(db.t) && b.sent == old(b.sent)
    ensures msg.Some? && msg.value.dishNumMap.None? ==> d == Unacked && db.t == old(db.t) && b.sent == old(b.sent)
    ensures msg.Some? && msg.value.dishNumMap.Some? ==>
      && d == Acked
      && db.t == Cancelled(old(db.t), msg.value.order, OrderFailed)
      && b.sent == old(b.sent) + [RollbackStock(msg.value.dishNumMap.value[-1 := msg.value.order.storeId])]
  {
    if msg.None? {
      return Acked;
    }
    var t0 := db.t;
    var o := msg.value.order;
    db.t := UpdateOrderType(db.t, o.id, OrderStatus.CANCELLED).tables;
    db.t := Notify(db.t, Notice(o.userId, o.id, OrderFailed));
    if msg.value.dishNumMap.None? {
      // the map is dereferenced here; the exception rolls the transaction back
      db.t := t0;
      return Unacked;
    }
    b.Publish(RollbackStock(msg.value.dishNumMap.value[-1 := o.storeId]));
    d := Acked;
  }

  /**
   * As written, a rejected message without a map (a pessimistic placement's)
   * leaves no trace: the order is not cancelled, the customer is not told,
   * nothing is sent for rollback and the delivery stays unanswered.
   */
  method FailedPessimisticNeverTold(db: Db, b: Broker, om: OrderMessage) returns (d: Delivery)
    requires om.dishNumMap.None?
    modifies db, b
    ensures d == Unacked && db.t == old(db.t) && b.sent == old(b.sent)
    ensures db.t != Cancelled(old(db.t), om.order, OrderFailed)
  {
    d := DeadOrderMessageHandler(db, b, Some(om));
    CancellationNotifies(old(db.t), om.order, OrderFailed);
  }

  /**
   * The dead-letter listener with the map checked: a message without one (a
   * pessimistic placement's, which took no cached stock) sends nothing for
   * rollback, but its order is still cancelled, its customer told and the
   * delivery acknowledged.
   */
  method DeadOrderMessageHandlerChecked(db: Db, b: Broker, msg: Option<OrderMessage>) returns (d: Delivery)
    modifies db, b
    ensures msg.None? ==> d == Acked && db.t == old(db.t) && b.sent == old(b.sent)
    ensures msg.Some? ==> d == Acked && db.t == Cancelled(old(db.t), msg.value.order, OrderFailed)
    ensures msg.Some? ==>
      b.sent == old(b.sent) + match msg.value.dishNumMap
        case None => []
        case Some(m) => [RollbackStock(m[-1 := msg.value.order.storeId])]
  {
    if msg.None? {
      return Acked;
    }
    var o := msg.value.order;
    db.t := UpdateOrderType(db.t, o.id, OrderStatus.CANCELLED).tables;
    db.t := Notify(db.t, Notice(o.userId, o.id, OrderFailed));
    if msg.value.dishNumMap.Some? {
      b.Publish(RollbackStock(msg.value.dishNumMap.value[-1 := o.storeId]));
    }
    d := Acked;
  }

  /** The unpaid-order listener acts only while the order still has the status the message recorded. */
  predicate CancelApplies(t: Tables, o: Order)
  {
    o.id in t.orders && t.orders[o.id].orderType == o.orderType
  }

  /**
   * The unpaid-order listener. An undecodable message is acknowledged and
   * then the handler fails; a message for an order that does not exist
   * makes it fail unanswered. If the order's status has moved on (it was
   * paid, or already cancelled), the delivery is acknowledged with nothing
   * changed. Otherwise the units of the order's lines, with -1 mapped to the
   * store, are sent for rollback, the order is cancelled and its customer
   * told.
   */
  method DoCancelOrder(db: Db, b: Broker, msg: Option<OrderMessage>, combos: ComboTable) returns (d: Delivery)
    modifies db, b
    ensures msg.None? ==> d == Acked && db.t == old(db.t) && b.sent == old(b.sent)
    ensures msg.Some? && msg.value.order.id !in old(db.t).orders ==>
      d == Unacked && db.t == old(db.t) && b.sent == old(b.sent)
    ensures msg.Some? && msg.value.order.id in old(db.t).orders && !CancelApplies(old(db.t), msg.value.order) ==>
      d == Acked && db.t == old(db.t) && b.sent == old(b.sent)
    ensures msg.Some? && CancelApplies(old(db.t), msg.value.order) ==>
      var o := msg.value.order;
      && d == Acked
      && db.t == Cancelled(old(db.t), o, OrderCancelled)
      && b.sent == old(b.sent) + [RollbackStock(DishNumMap(o.dishOrders, combos)[-1 := o.storeId])]
  {
    if msg.None? {
      return Acked;
    }
    var o := msg.value.order;
    var now := QueryOrder(db.t, o.id);
    if now.None? {
      return Unacked;
    }
    if now.value.orderType != o.orderType {
      return Acked;
    }
    var m1 := GetDishNumMap(o.dishOrders, combos);
    b.Publish(RollbackStock(m1[-1 := o.storeId]));
    db.t := UpdateOrderType(db.t, o.id, OrderStatus.CANCELLED).tables;
    db.t := Notify(db.t, Notice(o.userId, o.id, OrderCancelled));
    d := Acked;
  }

  /** Once the listener has cancelled an order, a redelivery of the same message no longer applies. */
  lemma CancelAppliesOnce(t: Tables, o: Order)
    requires CancelApplies(t, o) && o.orderType != OrderStatus.CANCELLED
    ensures !CancelApplies(Cancelled(t, o, OrderCancelled), o)
  {
    CancelledEffect(t, o, OrderCancelled);
  }
}
