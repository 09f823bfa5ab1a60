/**
 * The decisions the order controller makes before and after it calls the
 * order service: the status a submitted order starts in, which carts an
 * addition may go to, the answer codes of an edit, the completion-check
 * counter and its answer codes, and when a customer's table is freed.
 * Request parsing and the JSON answers are not modelled; an answer is its
 * code.
 */
module OrderController {
  import opened Common
  import opened Cart
  import opened CartRules
  import opened Database
  import opened RedisStore
  import opened StrategyContent
  import opened OrderService
  import OrderStatus

  const CODE_OK: int := 200
  const CODE_FAILED: int := 0
  const CODE_REFUSED: int := 101
  const CODE_CONFLICT: int := 409
  const CODE_BAD_REQUEST: int := 400

  // ---------------------------------------------------------------------
  // Submitting an order.
  // ---------------------------------------------------------------------

  /** The status table indexed by consumption type; an index outside it raises (None). */
  const ORDER_TYPES: seq<int> := [2, 0, 1, 1]

  function OrderTypeFor(consumeType: int): (t: Option<int>)
    ensures t.Some? <==> 0 <= consumeType < 4
  {
    if 0 <= consumeType < |ORDER_TYPES| then Some(ORDER_TYPES[consumeType]) else None
  }

  /** Whatever status the client sent, the order starts in the first state of its type's path. */
  lemma OrderTypeIsFirstOnPath(consumeType: int)
    requires 0 <= consumeType < 4
    ensures OrderTypeFor(consumeType) == Some(OrderStatus.Path(consumeType)[0])
    ensures OrderStatus.NextStatus(consumeType, OrderTypeFor(consumeType).value).Some?
  {
    OrderStatus.SuccessorDefinedIffNotCompleted(consumeType, ORDER_TYPES[consumeType]);
  }

  /**
   * The order handed to the service: the client's status replaced by the
   * table's, and the customer set to the requester. None when the
   * consumption type is outside the table.
   */
  function SubmittedOrder(o: Order, uid: string): (r: Option<Order>)
    ensures r.Some? <==> 0 <= o.consumeType < 4
    ensures r.Some? ==> r.value.orderType == OrderStatus.Path(o.consumeType)[0] && r.value.userId == uid
    ensures r.Some? ==> r.value.(orderType := o.orderType, userId := o.userId) == o
  {
    match OrderTypeFor(o.consumeType)
    case None => None
    case Some(t) => Some(o.(orderType := t, userId := uid))
  }

  // ---------------------------------------------------------------------
  // Editing a cart.
  // ---------------------------------------------------------------------

  /** A cart that has no consumption type yet takes the requested one. */
  function Adopted(c: CartState, consumeType: int): CartState
  {
    if c.consumeType == -1 then c.(consumeType := consumeType) else c
  }

  /** The registry after the customer's cart, if any, has adopted the requested type. */
  function AdoptType(cs: map<string, CartState>, uid: string, consumeType: int): (r: map<string, CartState>)
    ensures r.Keys == cs.Keys
    ensures forall u :: u in cs && u != uid ==> r[u] == cs[u]
    ensures uid in cs ==> r[uid] == Adopted(cs[uid], consumeType)
  {
    if uid in cs then cs[uid := Adopted(cs[uid], consumeType)] else cs
  }

  /** The cart is the one the request is for: same type, store, table and customer. */
  predicate Compatible(c: CartState, sid: int, tid: int, consumeType: int, uid: string)
  {
    c.consumeType == consumeType && c.storeId == sid && c.tableId == tid && c.userId == uid
  }

  /** An existing cart takes the addition exactly when it has no type yet or the requested one, and matches the rest. */
  lemma AdoptedCompatibleIff(c: CartState, sid: int, tid: int, consumeType: int, uid: string)
    ensures Compatible(Adopted(c, consumeType), sid, tid, consumeType, uid) <==>
      (c.consumeType == -1 || c.consumeType == consumeType) && c.storeId == sid && c.tableId == tid && c.userId == uid
  {
  }

  /** The code of a removal the service answered with cart `c`: 101 when it carries the refusal mark. */
  function RemoveCode(c: CartState): (code: int)
    ensures code == CODE_REFUSED || code == CODE_OK
  {
    if c.lastModify == -1 then CODE_REFUSED else CODE_OK
  }

  /**
   * The answer is 101 exactly when the removal was refused, and a refused
   * removal changed nothing but the time the controller stamps on it.
   */
  lemma RemoveCodeMeaning(c: CartState, dish: Dish, persisted: int, now: int, later: int)
    requires now != -1
    ensures RemoveCode(RemoveDishSpec(c, dish, persisted, now)) == CODE_REFUSED <==> RemoveRefused(c, dish.id)
    ensures RemoveRefused(c, dish.id) ==>
      RemoveDishSpec(c, dish, persisted, now).(lastModify := later) == c.(lastModify := later)
  {
  }

  /** A map that differs from `cs` only at `k`, where it holds `v`, is `cs` updated at `k`. */
  lemma UpdatedAt(cs: map<string, CartState>, r: map<string, CartState>, k: string, v: CartState)
    requires k in cs && r.Keys == cs.Keys && r[k] == v
    requires forall u :: u in r && u != k ==> r[u] == cs[u]
    ensures r == cs[k := v]
  {
  }

  /** Gives the customer's cart the requested type if it has none yet. */
  method AdoptConsumeType(store: CartStore, uid: string, consumeType: int)
    requires store.Valid() && uid in store.carts
    modifies store.carts[uid]
    ensures store.Valid()
    ensures store.Contents() == AdoptType(old(store.Contents()), uid, consumeType)
  {
    var cart := store.carts[uid];
    ghost var cs0 := store.Contents();
    if cart.consumeType == -1 {
      cart.consumeType := consumeType;
      assert forall u :: u in store.carts && u != uid ==> store.carts[u] != cart;
      UpdatedAt(cs0, store.Contents(), uid, cs0[uid].(consumeType := consumeType));
    }
  }

  /**
   * Adds a unit of `dish` for the customer. A cart the customer already
   * has first adopts the requested type; a cart for another type, store or
   * table refuses the addition (code 0) and keeps only the adopted type.
   */
  method AddDishToCart(store: CartStore, db: Db, sid: int, tid: int, consumeType: int, uid: string, dish: Dish, now: int)
    returns (code: int, cart: Option<ShoppingCart>)
    requires store.Valid()
    modifies store, store.carts.Values
    ensures store.Valid()
    ensures var cs := AdoptType(old(store.Contents()), uid, consumeType);
      if uid in cs && !Compatible(cs[uid], sid, tid, consumeType, uid)
      then code == CODE_FAILED && cart == None && store.Contents() == cs && store.carts == old(store.carts)
      else code == CODE_OK && uid in store.carts && cart == Some(store.carts[uid]) &&
           store.Contents() == AddDishToCarts(cs, sid, tid, uid, dish, Persisted(db.t, uid, dish.id), now)
  {
    ghost var cs1 := AdoptType(store.Contents(), uid, consumeType);
    var found := store.GetCart(uid);
    if found.Some? {
      AdoptConsumeType(store, uid, consumeType);
      var c := found.value;
      assert cs1[uid] == c.State();
      if c.consumeType != consumeType || c.storeId != sid || c.tableId != tid || c.userId != uid {
        return CODE_FAILED, None;
      }
    }
    assert store.Contents() == cs1;
    var added := store.AddDish(db, sid, tid, uid, dish, now);
    return CODE_OK, Some(added);
  }

  /**
   * Removes a unit of `dish` for the customer: 0 without a cart; 101 when
   * the removal was refused, after stamping the cart with the time
   * `later`; 200 otherwise.
   */
  method RemoveDishToCart(store: CartStore, db: Db, sid: int, tid: int, uid: string, dish: Dish, now: int, later: int)
    returns (code: int, cart: Option<ShoppingCart>)
    requires store.Valid()
    modifies store.carts.Values
    ensures store.Valid() && store.carts == old(store.carts)
    ensures var cs := RemoveDishFromCarts(old(store.Contents()), uid, dish, Persisted(db.t, uid, dish.id), now);
      if uid !in old(store.carts)
      then code == CODE_FAILED && cart == None && store.Contents() == cs
      else cart == Some(store.carts[uid]) && code == RemoveCode(cs[uid]) &&
           store.Contents() == if code == CODE_REFUSED then cs[uid := cs[uid].(lastModify := later)] else cs
  {
    cart := store.RemoveDish(db, sid, tid, uid, dish, now);
    if cart.None? {
      return CODE_FAILED, cart;
    }
    var c := cart.value;
    if c.lastModify == -1 {
      StampLater(store, uid, later);
      return CODE_REFUSED, cart;
    }
    code := CODE_OK;
  }

  /** The controller's stamp on a refused removal: the customer's cart gets the time `later`, nothing else changes. */
  method StampLater(store: CartStore, uid: string, later: int)
    requires store.Valid() && uid in store.carts
    modifies store.carts[uid]
    ensures store.Valid() && store.carts == old(store.carts)
    ensures store.Contents() == old(store.Contents())[uid := old(store.Contents())[uid].(lastModify := later)]
  {
    ghost var cs1 := store.Contents();
    var c := store.carts[uid];
    c.lastModify := later;
    assert forall u :: u in store.carts && u != uid ==> store.carts[u] != c;
    UpdatedAt(cs1, store.Contents(), uid, cs1[uid].(lastModify := later));
  }

  // ---------------------------------------------------------------------
  // Freeing a table.
  // ---------------------------------------------------------------------

  /**
   * The condition as the source writes it: type, store and table match and
   * the cart is another customer's. It never holds where the intended
   * condition does.
   */
  predicate RelievesAsWritten(c: CartState, sid: int, tid: int, consumeType: int, uid: string): (b: bool)
    ensures b ==> !Relieves(c, sid, tid, consumeType, uid)
  {
    c.consumeType == consumeType && c.storeId == sid && c.tableId == tid && c.userId != uid
  }

  /**
   * The cart looked at is the requester's own, filed under their name, so
   * the condition as written never holds and no table is ever freed.
   */
  lemma RelievesAsWrittenNever(cs: map<string, CartState>, sid: int, tid: int, consumeType: int, uid: string)
    requires forall u :: u in cs ==> cs[u].userId == u
    requires uid in cs
    ensures !RelievesAsWritten(AdoptType(cs, uid, consumeType)[uid], sid, tid, consumeType, uid)
  {
  }

  /** The intended condition: the requester's own cart sits at the table, for the type. */
  predicate Relieves(c: CartState, sid: int, tid: int, consumeType: int, uid: string)
  {
    Compatible(c, sid, tid, consumeType, uid)
  }

  /** The registry after the corrected request: the requester's cart is dropped when it is at the table. */
  function Relieved(cs: map<string, CartState>, sid: int, tid: int, consumeType: int, uid: string): (r: map<string, CartState>)
    ensures forall u :: u != uid ==> (u in r <==> u in cs) && (u in r ==> r[u] == cs[u])
    ensures uid in r <==> uid in cs && !Relieves(Adopted(cs[uid], consumeType), sid, tid, consumeType, uid)
    ensures uid in r ==> r[uid] == Adopted(cs[uid], consumeType)
  {
    var cs1 := AdoptType(cs, uid, consumeType);
    if uid in cs1 && Relieves(cs1[uid], sid, tid, consumeType, uid) then cs1 - {uid} else cs1
  }

  /** After the corrected request no cart of the requester holds the table, and a second request changes nothing. */
  lemma RelievedFreesTable(cs: map<string, CartState>, sid: int, tid: int, consumeType: int, uid: string)
    ensures var r := Relieved(cs, sid, tid, consumeType, uid);
      (uid in r ==> !Relieves(r[uid], sid, tid, consumeType, uid)) &&
      Relieved(r, sid, tid, consumeType, uid) == r
  {
    var r := Relieved(cs, sid, tid, consumeType, uid);
    if uid in r {
      assert Adopted(r[uid], consumeType) == r[uid];
    }
    assert Relieved(r, sid, tid, consumeType, uid) == r;
  }

  /** The two ways the corrected request can go for a customer with a cart. */
  lemma RelievedCases(cs: map<string, CartState>, cs1: map<string, CartState>, sid: int, tid: int, consumeType: int, uid: string)
    requires cs1 == AdoptType(cs, uid, consumeType)
    ensures uid !in cs ==> Relieved(cs, sid, tid, consumeType, uid) == cs
    ensures uid in cs && Relieves(cs1[uid], sid, tid, consumeType, uid) ==> Relieved(cs, sid, tid, consumeType, uid) == cs1 - {uid}
    ensures uid in cs && !Relieves(cs1[uid], sid, tid, consumeType, uid) ==> Relieved(cs, sid, tid, consumeType, uid) == cs1
  {
  }

  /**
   * Frees the requester's table, with the condition corrected to the
   * requester's own cart; the answer is always 200.
   */
  method RelieveOccupied(store: CartStore, sid: int, tid: int, consumeType: int, uid: string) returns (code: int)
    requires store.Valid()
    modifies store, store.carts.Values
    ensures store.Valid()
    ensures code == CODE_OK
    ensures store.Contents() == Relieved(old(store.Contents()), sid, tid, consumeType, uid)
  {
    ghost var cs0 := store.Contents();
    var found := store.GetCart(uid);
    if found.Some? {
      AdoptConsumeType(store, uid, consumeType);
      ghost var cs1 := store.Contents();
      RelievedCases(cs0, cs1, sid, tid, consumeType, uid);
      var c := found.value;
      if c.consumeType == consumeType && c.storeId == sid && c.tableId == tid && c.userId == uid {
        store.RelieveOccupied(uid);
      }
    }
    return CODE_OK;
  }

  // ---------------------------------------------------------------------
  // The completion check.
  // ---------------------------------------------------------------------

  /** The answer to a completion marker: 1 placed, -1 failed, anything else still queuing. */
  function CompleteCode(marker: int): (code: int)
    ensures code == CODE_OK <==> marker == 1
    ensures code == CODE_CONFLICT <==> marker == -1
    ensures code == CODE_FAILED <==> marker != 1 && marker != -1
  {
    if marker == 1 then CODE_OK else if marker == -1 then CODE_CONFLICT else CODE_FAILED
  }

  /** The counter value a check starts from: a counter below 0 is put back to 3. */
  function Reset(c: int): int
  {
    if c < 0 then 3 else c
  }

  /** A check with counter `c` asks the strategy exactly when the counter it starts from is 0. */
  predicate Consults(c: int)
  {
    Reset(c) == 0
  }

  /** The counter after `n` checks from its initial 5. */
  function CounterAfter(n: nat): (c: int)
    ensures -1 <= c <= 5
  {
    if n == 0 then 5 else Reset(CounterAfter(n - 1)) - 1
  }

  /** The counter runs 5, 4, ..., 0, -1 and then cycles -1, 2, 1, 0. */
  lemma {:induction false} CounterAfterClosed(n: nat)
    ensures n <= 6 ==> CounterAfter(n) == 5 - n
    ensures n >= 6 ==> CounterAfter(n) == [-1, 2, 1, 0][(n - 6) % 4]
  {
    if n > 0 {
      CounterAfterClosed(n - 1);
      if n > 6 {
        assert (n - 6) % 4 == ((n - 7) % 4 + 1) % 4;
      }
    }
  }

  /** The 6th check asks the strategy, and every 4th check after it; all others answer "queuing". */
  lemma ConsultsEveryFourth(n: nat)
    ensures Consults(CounterAfter(n)) <==> n >= 5 && (n - 5) % 4 == 0
  {
    CounterAfterClosed(n);
    if n >= 6 {
      assert (n - 5) % 4 == ((n - 6) % 4 + 1) % 4;
    }
  }

  /** The controller's shared completion-check counter. */
  class CheckCounter {
    var c: int

    constructor ()
      ensures c == 5
    {
      c := 5;
    }

    /**
     * Whether the order is placed yet. A missing id is a bad request and
     * leaves the counter alone. Otherwise the counter steps down, and only
     * the check that finds it at 0 asks the strategy; a strategy that
     * cannot answer (none selected, a marker of the wrong kind) is a
     * bad request too.
     */
    method IsComplete(ctx: Context, r: Redis, orderId: Option<string>) returns (code: int)
      modifies this
      ensures orderId.None? ==> code == CODE_BAD_REQUEST && c == old(c)
      ensures orderId.Some? ==> c == Reset(old(c)) - 1
      ensures orderId.Some? && !Consults(old(c)) ==> code == CODE_FAILED
      ensures orderId.Some? && Consults(old(c)) ==>
        code == match ctx.IsCompleteOf(r, orderId.value)
                case None => CODE_BAD_REQUEST
                case Some(v) => CompleteCode(v)
    {
      if orderId.None? {
        return CODE_BAD_REQUEST;
      }
      if c < 0 {
        c := 3;
      }
      var cur := c;
      c := c - 1;
      if cur != 0 {
        return CODE_FAILED;
      }
      var complete := ctx.IsCompleteOf(r, orderId.value);
      if complete.None? {
        return CODE_BAD_REQUEST;
      }
      code := CompleteCode(complete.value);
    }
  }
}
