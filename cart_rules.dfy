/**
 * What adding a dish to a cart and removing one from it do to the cart:
 * unit counts, the running total, and the per-customer daily allowance of
 * discounted units. The order service applies these rules to the carts it
 * keeps (see OrderService.CartStore).
 *
 * `persisted` is the number of discounted units of the dish the customer
 * has already used in placed orders, as the user table records it (0 when
 * there is no record).
 */
module CartRules {
  import opened Common
  import opened Cart

  function Min(a: int, b: int): int { if a <= b then a else b }
  function Max(a: int, b: int): int { if a >= b then a else b }

  /** Discounted units of a dish recorded in the cart, across both of its maps. */
  function UsedInCart(c: CartState, did: int): int
  {
    LineOf(c.dishOrders, did).discountUsedCount + LineOf(c.newDishOrders, did).discountUsedCount
  }

  /** The discounted units counted against the customer: the cart's, plus the placed ones when `addBefore`. */
  function UsedDiscountNum(c: CartState, did: int, persisted: int, addBefore: bool): int
  {
    UsedInCart(c, did) + (if addBefore then persisted else 0)
  }

  /** Units of a dish in the cart, across both of its maps. */
  function DishNum(c: CartState, did: int): int
  {
    LineOf(c.dishOrders, did).num + LineOf(c.newDishOrders, did).num
  }

  /** The map that additions and removals go to: the new-dish map of a rebuilt cart. */
  function TargetLines(c: CartState): map<int, DishOrder>
  {
    if c.complete then c.newDishOrders else c.dishOrders
  }

  function WithTargetLines(c: CartState, lines: map<int, DishOrder>): CartState
  {
    if c.complete then c.(newDishOrders := lines) else c.(dishOrders := lines)
  }

  /** The cart a customer's first addition creates; a table cart holds its table. */
  function NewCartFor(sid: int, tid: int, uid: string): (c: CartState)
    ensures c.lock <==> tid != -1
    ensures !c.complete && c.dishOrders == map[] && c.newDishOrders == map[]
    ensures c.totalPrice == 0 && c.discount == 0 && c.consumeType == -1
  {
    NEW_CART.(storeId := sid, tableId := tid, userId := uid, complete := false, lock := tid != -1)
  }

  /** Adding one unit of `dish` at time `now`. */
  function AddDishSpec(c: CartState, dish: Dish, persisted: int, now: int): (c2: CartState)
    ensures DishNum(c2, dish.id) == DishNum(c, dish.id) + 1
    ensures c2.totalPrice == c.totalPrice + dish.price && c2.lastModify == now
    ensures SameHeader(c, c2) && SameOtherLines(c, c2, dish.id)
  {
    var did := dish.id;
    var c1 := c.(lastModify := now);
    var line := LineOf(TargetLines(c1), did);
    var rest := dish.discountCount - UsedDiscountNum(c1, did, persisted, true);
    var line1 := if rest > 0 && !IsCombo(did) then line.IncreaseDiscountUsedCount() else line;
    var disc :=
      if rest > 0 && !IsCombo(did) then c1.discount + dish.discountValue
      else if IsCombo(did) && dish.discountValue > 0 then c1.discount + dish.discountValue
      else c1.discount;
    var line2 := line1.(price := dish.price, name := dish.name).IncreaseDishNum();
    WithTargetLines(c1, TargetLines(c1)[did := line2]).(discount := disc, totalPrice := c1.totalPrice + dish.price)
  }

  /**
   * Removing one unit of `dish` at time `now`. A rebuilt cart refuses to
   * remove units the placed order already holds: it only marks its
   * modification time with the -1 sentinel.
   */
  function RemoveDishSpec(c: CartState, dish: Dish, persisted: int, now: int): (c2: CartState)
    ensures RemoveRefused(c, dish.id) ==> c2 == c.(lastModify := -1)
    ensures !RemoveRefused(c, dish.id) ==>
      && DishNum(c2, dish.id) == DishNum(c, dish.id) - 1
      && c2.totalPrice == c.totalPrice - dish.price && c2.lastModify == now
      && SameHeader(c, c2) && SameOtherLines(c, c2, dish.id)
  {
    var did := dish.id;
    if c.complete && LineOf(c.newDishOrders, did).num <= 0 then c.(lastModify := -1)
    else
      var c1 := c.(lastModify := now);
      var line := LineOf(TargetLines(c1), did);
      var used := UsedDiscountNum(c1, did, persisted, false);
      var free := dish.discountCount - UsedDiscountNum(c1, did, persisted, true) + used;
      var dishNum := DishNum(c1, did);
      var line1 := if free >= dishNum && !IsCombo(did) then line.DecreaseDiscountUsedCount() else line;
      var disc :=
        if free >= dishNum && !IsCombo(did) then c1.discount - dish.discountValue
        else if IsCombo(did) && dish.discountValue > 0 then c1.discount - dish.discountValue
        else c1.discount;
      WithTargetLines(c1, TargetLines(c1)[did := line1.DecreaseDishNum()]).(discount := disc, totalPrice := c1.totalPrice - dish.price)
  }

  /** The removal was refused: the placed order holds every unit of the dish. */
  predicate RemoveRefused(c: CartState, did: int)
  {
    c.complete && LineOf(c.newDishOrders, did).num <= 0
  }

  /** Two carts agree on every line of every dish other than `did`. */
  ghost predicate SameOtherLines(c: CartState, c2: CartState, did: int)
  {
    (forall k :: k != did ==> LineOf(c2.dishOrders, k) == LineOf(c.dishOrders, k)) &&
    (forall k :: k != did ==> LineOf(c2.newDishOrders, k) == LineOf(c.newDishOrders, k))
  }

  /** Two carts agree on who, where and what kind of cart it is. */
  ghost predicate SameHeader(c: CartState, c2: CartState)
  {
    c2.userId == c.userId && c2.orderId == c.orderId && c2.storeId == c.storeId &&
    c2.tableId == c.tableId && c2.consumeType == c.consumeType && c2.lock == c.lock &&
    c2.complete == c.complete
  }

  /**
   * Adding a dish adds one unit and its price; it uses one more discounted
   * unit exactly when the allowance is not used up and the dish is not a
   * combo, and then (or for a combo with a positive discount) takes the
   * discount off. No other dish and no other field changes.
   */
  lemma AddDishEffect(c: CartState, dish: Dish, persisted: int, now: int)
    ensures var c2 := AddDishSpec(c, dish, persisted, now);
      var applies := UsedInCart(c, dish.id) + persisted < dish.discountCount && !IsCombo(dish.id);
      && DishNum(c2, dish.id) == DishNum(c, dish.id) + 1
      && c2.totalPrice == c.totalPrice + dish.price
      && UsedInCart(c2, dish.id) == UsedInCart(c, dish.id) + (if applies then 1 else 0)
      && c2.discount == c.discount +
           (if applies || (IsCombo(dish.id) && dish.discountValue > 0) then dish.discountValue else 0)
      && LineOf(TargetLines(c2), dish.id).price == dish.price
      && LineOf(TargetLines(c2), dish.id).name == dish.name
      && c2.lastModify == now
      && SameHeader(c, c2) && SameOtherLines(c, c2, dish.id)
  {
  }

  /**
   * Removing a dish that is not refused takes away one unit and its price;
   * it gives back one discounted unit exactly when the units in the cart do
   * not exceed what the allowance left before this order, and the dish is
   * not a combo.
   */
  lemma RemoveDishEffect(c: CartState, dish: Dish, persisted: int, now: int)
    ensures var c2 := RemoveDishSpec(c, dish, persisted, now);
      var gives := dish.discountCount - persisted >= DishNum(c, dish.id) && !IsCombo(dish.id);
      if RemoveRefused(c, dish.id) then
        c2 == c.(lastModify := -1)
      else
        && DishNum(c2, dish.id) == DishNum(c, dish.id) - 1
        && c2.totalPrice == c.totalPrice - dish.price
        && UsedInCart(c2, dish.id) == UsedInCart(c, dish.id) - (if gives then 1 else 0)
        && c2.discount == c.discount -
             (if gives || (IsCombo(dish.id) && dish.discountValue > 0) then dish.discountValue else 0)
        && c2.lastModify == now
        && SameHeader(c, c2) && SameOtherLines(c, c2, dish.id)
  {
  }

  /**
   * The discount bookkeeping the service relies on: of the units of a
   * non-combo dish in the cart, exactly as many are discounted as the
   * daily allowance still covers.
   */
  predicate DiscountConsistent(c: CartState, did: int, allowance: int, persisted: int)
  {
    UsedInCart(c, did) == Min(DishNum(c, did), Max(0, allowance - persisted))
  }

  /** Adding a unit keeps the discount bookkeeping, so the allowance is never exceeded. */
  lemma AddKeepsDiscountConsistent(c: CartState, dish: Dish, persisted: int, now: int)
    requires !IsCombo(dish.id) && DishNum(c, dish.id) >= 0
    requires DiscountConsistent(c, dish.id, dish.discountCount, persisted)
    ensures DiscountConsistent(AddDishSpec(c, dish, persisted, now), dish.id, dish.discountCount, persisted)
    ensures UsedInCart(AddDishSpec(c, dish, persisted, now), dish.id) <= Max(0, dish.discountCount - persisted)
  {
    AddDishEffect(c, dish, persisted, now);
  }

  /** Removing a unit that is in the cart keeps the discount bookkeeping. */
  lemma RemoveKeepsDiscountConsistent(c: CartState, dish: Dish, persisted: int, now: int)
    requires !IsCombo(dish.id) && DishNum(c, dish.id) >= 1
    requires DiscountConsistent(c, dish.id, dish.discountCount, persisted)
    ensures DiscountConsistent(RemoveDishSpec(c, dish, persisted, now), dish.id, dish.discountCount, persisted)
  {
    RemoveDishEffect(c, dish, persisted, now);
  }

  /** A combo never uses the per-dish allowance, whatever is added or removed. */
  lemma ComboUsesNoAllowance(c: CartState, dish: Dish, persisted: int, now: int)
    requires IsCombo(dish.id)
    ensures UsedInCart(AddDishSpec(c, dish, persisted, now), dish.id) == UsedInCart(c, dish.id)
    ensures UsedInCart(RemoveDishSpec(c, dish, persisted, now), dish.id) == UsedInCart(c, dish.id)
  {
    AddDishEffect(c, dish, persisted, now);
    RemoveDishEffect(c, dish, persisted, now);
  }

  /**
   * Adding a dish and then removing it restores the total, the discount and
   * the unit and discounted counts of every line; only the modification
   * time (and the price and name recorded on the dish's line) differ.
   */
  lemma AddRemoveRoundTrip(c: CartState, dish: Dish, persisted: int, t1: int, t2: int)
    requires DishNum(c, dish.id) >= 0
    requires c.complete ==> LineOf(c.newDishOrders, dish.id).num >= 0
    requires !IsCombo(dish.id) ==> DiscountConsistent(c, dish.id, dish.discountCount, persisted)
    ensures var c2 := RemoveDishSpec(AddDishSpec(c, dish, persisted, t1), dish, persisted, t2);
      && c2.totalPrice == c.totalPrice && c2.discount == c.discount && c2.lastModify == t2
      && SameHeader(c, c2) && SameOtherLines(c, c2, dish.id)
      && LineOf(c2.dishOrders, dish.id).num == LineOf(c.dishOrders, dish.id).num
      && LineOf(c2.newDishOrders, dish.id).num == LineOf(c.newDishOrders, dish.id).num
      && LineOf(c2.dishOrders, dish.id).discountUsedCount == LineOf(c.dishOrders, dish.id).discountUsedCount
      && LineOf(c2.newDishOrders, dish.id).discountUsedCount == LineOf(c.newDishOrders, dish.id).discountUsedCount
  {
    var c1 := AddDishSpec(c, dish, persisted, t1);
    AddDishEffect(c, dish, persisted, t1);
    RemoveDishEffect(c1, dish, persisted, t2);
    assert !RemoveRefused(c1, dish.id);
  }
}
