/**
 * The shopping cart a customer fills before placing an order, and the
 * per-dish line it keeps for every dish in it.
 */
module Cart {
  import opened Common

  /**
   * One line of a cart: a dish, its unit price, how many units are in the
   * cart and how many of those units are bought at the discounted price.
   * Every line belongs to exactly one cart entry, so a line is a value that
   * the cart's maps replace when it changes.
   */
  datatype DishOrder = DishOrder(id: int, price: int, num: int, discountUsedCount: int, name: string)
  {
    /** One more unit at the discounted price; nothing else changes. */
    function IncreaseDiscountUsedCount(): (r: DishOrder)
      ensures r.discountUsedCount == discountUsedCount + 1
      ensures r.(discountUsedCount := discountUsedCount) == this
    {
      this.(discountUsedCount := discountUsedCount + 1)
    }

    /** One unit fewer at the discounted price (there is no lower bound); nothing else changes. */
    function DecreaseDiscountUsedCount(): (r: DishOrder)
      ensures r.discountUsedCount == discountUsedCount - 1
      ensures r.(discountUsedCount := discountUsedCount) == this
    {
      this.(discountUsedCount := discountUsedCount - 1)
    }

    /** One more unit of the dish; nothing else changes. */
    function IncreaseDishNum(): (r: DishOrder)
      ensures r.num == num + 1
      ensures r.(num := num) == this
    {
      this.(num := num + 1)
    }

    /** One unit fewer of the dish (there is no lower bound); nothing else changes. */
    function DecreaseDishNum(): (r: DishOrder)
      ensures r.num == num - 1
      ensures r.(num := num) == this
    {
      this.(num := num - 1)
    }
  }

  /** The line a fresh DishOrder starts as: everything zero, no name. */
  const EMPTY_LINE: DishOrder := DishOrder(0, 0, 0, 0, "")

  /** Each decrement undoes the matching increment, and the other way round. */
  lemma {:induction false} IncreaseDecreaseInverse(d: DishOrder)
    ensures d.IncreaseDishNum().DecreaseDishNum() == d
    ensures d.DecreaseDishNum().IncreaseDishNum() == d
    ensures d.IncreaseDiscountUsedCount().DecreaseDiscountUsedCount() == d
    ensures d.DecreaseDiscountUsedCount().IncreaseDiscountUsedCount() == d
  {
  }

  /** The line of a dish in one of the cart's maps; a missing entry reads as an empty line. */
  function LineOf(lines: map<int, DishOrder>, did: int): DishOrder
  {
    if did in lines then lines[did] else EMPTY_LINE
  }

  /** A snapshot of every field of a cart. */
  datatype CartState = CartState(
    userId: string,
    orderId: string,
    storeId: int,
    tableId: int,
    consumeType: int,
    totalPrice: int,
    discount: int,
    lastModify: int,
    lock: bool,
    complete: bool,
    dishOrders: map<int, DishOrder>,
    newDishOrders: map<int, DishOrder>)

  /** The state of a cart that has just been created, before any field is set. */
  const NEW_CART: CartState := CartState("", "", 0, 0, -1, 0, 0, 0, false, false, map[], map[])

  /**
   * A cart. Table number -1 means the store is not ordering at a table; a
   * complete cart was rebuilt from a placed order that the customer is now
   * adding dishes to, in which case the additions go to `newDishOrders`;
   * `lock` tells whether the cart holds its table.
   */
  class ShoppingCart {
    var userId: string
    var orderId: string
    var storeId: int
    var tableId: int
    var consumeType: int
    var totalPrice: int
    var discount: int
    var lastModify: int
    var lock: bool
    var complete: bool
    var dishOrders: map<int, DishOrder>
    var newDishOrders: map<int, DishOrder>

    function State(): CartState
      reads this
    {
      CartState(userId, orderId, storeId, tableId, consumeType, totalPrice, discount,
                lastModify, lock, complete, dishOrders, newDishOrders)
    }

    constructor ()
      ensures State() == NEW_CART
    {
      userId, orderId := "", "";
      storeId, tableId := 0, 0;
      consumeType := -1;
      totalPrice, discount, lastModify := 0, 0, 0;
      lock, complete := false, false;
      dishOrders, newDishOrders := map[], map[];
    }
  }
}
