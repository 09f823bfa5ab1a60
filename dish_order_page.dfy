/**
 * The ordering page of the mini-program, reduced to the data it keeps
 * about the cart: the merged view of the cart the server answers with, the
 * unit count, price and discount it shows, and the per-dish flags and
 * remaining discount counts it paints on the dish list. Layout, dialogs and
 * the network calls are not modelled; a server answer is a parameter.
 */
module DishOrderPage {
  import opened Common
  import opened Cart
  import opened CartRules
  import opened DishNumMaps

  /** A dish as the page shows it: its id, the remaining discounted units (None: no discount), and the marks. */
  datatype PageDish = PageDish(id: int, discountCount: Option<int>, like: bool, collection: bool, willBuy: bool)

  /** The page's entry for a dish in the cart: units and discounted units over both of the server's maps. */
  datatype CartItem = CartItem(num: int, discountUsedCount: int)

  /** A server answer to an edit: its code and the cart it carries. */
  datatype Answer = Answer(code: int, body: CartState)

  /** What a change of the count a customer picked sends to the server. */
  datatype Request = NoRequest | AddRequest | RemoveRequest

  /** The stock shown for a combo without members. */
  const NO_LIMIT: int := 0x3f3f3f3f

  // ---------------------------------------------------------------------
  // The merged cart.
  // ---------------------------------------------------------------------

  /** The page's entry for `id`, adding up the original and the additional line (an absent line counts as 0). */
  function Item(a: map<int, DishOrder>, b: map<int, DishOrder>, id: int): CartItem
  {
    CartItem(LineOf(a, id).num + LineOf(b, id).num, LineOf(a, id).discountUsedCount + LineOf(b, id).discountUsedCount)
  }

  /** The entries for the dishes in `ids`. */
  function Part(a: map<int, DishOrder>, b: map<int, DishOrder>, ids: set<int>): (m: map<int, CartItem>)
    ensures m.Keys == ids
  {
    map id | id in ids :: Item(a, b, id)
  }

  /** The merged cart: an entry for every dish on either of the two maps. */
  function Merged(a: map<int, DishOrder>, b: map<int, DishOrder>): (m: map<int, CartItem>)
    ensures m.Keys == a.Keys + b.Keys
  {
    Part(a, b, a.Keys + b.Keys)
  }

  /** Visiting one more dish of `all` adds its entry. */
  lemma PartStep(a: map<int, DishOrder>, b: map<int, DishOrder>, all: set<int>, todo: set<int>, id: int)
    requires todo <= all && id in todo
    ensures Part(a, b, all - todo)[id := Item(a, b, id)] == Part(a, b, all - (todo - {id}))
  {
    assert all - todo + {id} == all - (todo - {id});
  }

  /**
   * The merged cart shows, for every dish, the server's unit count and
   * discounted-unit count over both maps; a dish absent from it has none.
   */
  lemma MergedIsServerCart(c: CartState, id: int)
    ensures var m := Merged(c.dishOrders, c.newDishOrders);
      (id in m ==> m[id].num == DishNum(c, id) && m[id].discountUsedCount == UsedInCart(c, id)) &&
      (id !in m ==> DishNum(c, id) == 0 && UsedInCart(c, id) == 0)
  {
  }

  /** Which map holds the original lines and which the additions does not matter to the page. */
  lemma MergedSymmetric(a: map<int, DishOrder>, b: map<int, DishOrder>)
    ensures Merged(a, b) == Merged(b, a)
  {
    assert Merged(a, b) == Merged(b, a);
  }

  /** Builds the merged cart: the original lines first, then the additions. */
  method MergerAndGetCart(dishOrders: map<int, DishOrder>, newDishOrders: map<int, DishOrder>)
    returns (cart: map<int, CartItem>)
    ensures cart == Merged(dishOrders, newDishOrders)
  {
    cart := map[];
    var todo := dishOrders.Keys;
    while todo != {}
      invariant todo <= dishOrders.Keys
      invariant cart == Part(dishOrders, newDishOrders, dishOrders.Keys - todo)
      decreases todo
    {
      var id := Choose(todo);
      var item := CartItem(dishOrders[id].num, dishOrders[id].discountUsedCount);
      if id in newDishOrders {
        item := CartItem(item.num + newDishOrders[id].num, item.discountUsedCount + newDishOrders[id].discountUsedCount);
      }
      assert item == Item(dishOrders, newDishOrders, id);
      PartStep(dishOrders, newDishOrders, dishOrders.Keys, todo, id);
      cart := cart[id := item];
      todo := todo - {id};
    }
    assert dishOrders.Keys - todo == (dishOrders.Keys + newDishOrders.Keys) - (newDishOrders.Keys - dishOrders.Keys);
    var todo2 := newDishOrders.Keys;
    while todo2 != {}
      invariant todo2 <= newDishOrders.Keys
      invariant cart == Part(dishOrders, newDishOrders, (dishOrders.Keys + newDishOrders.Keys) - (todo2 - dishOrders.Keys))
      decreases todo2
    {
      var id := Choose(todo2);
      var item := CartItem(newDishOrders[id].num, newDishOrders[id].discountUsedCount);
      if id in dishOrders {
        item := CartItem(item.num + dishOrders[id].num, item.discountUsedCount + dishOrders[id].discountUsedCount);
      }
      assert item == Item(dishOrders, newDishOrders, id);
      if id in dishOrders {
        assert (todo2 - {id}) - dishOrders.Keys == todo2 - dishOrders.Keys;
      } else {
        PartStep(dishOrders, newDishOrders, dishOrders.Keys + newDishOrders.Keys, todo2 - dishOrders.Keys, id);
        assert (todo2 - dishOrders.Keys) - {id} == (todo2 - {id}) - dishOrders.Keys;
      }
      cart := cart[id := item];
      todo2 := todo2 - {id};
    }
  }

  // ---------------------------------------------------------------------
  // Unit totals.
  // ---------------------------------------------------------------------

  /** The unit counts of the page cart, by dish. */
  function NumsOf(cart: map<int, CartItem>): (m: map<int, int>)
    ensures m.Keys == cart.Keys
  {
    map id | id in cart :: cart[id].num
  }

  /** The unit counts of a map of cart lines, by dish. */
  function LineNums(lines: map<int, DishOrder>): (m: map<int, int>)
    ensures m.Keys == lines.Keys
  {
    map id | id in lines :: lines[id].num
  }

  /** The pointwise sum of two count maps, an absent entry counting as 0. */
  function Plus(x: map<int, int>, y: map<int, int>): (m: map<int, int>)
    ensures m.Keys == x.Keys + y.Keys
  {
    map k | k in x.Keys + y.Keys :: GetOrZero(x, k) + GetOrZero(y, k)
  }

  /** Summing the pointwise sum adds up the two sums. */
  lemma {:induction false} MapSumPlus(x: map<int, int>, y: map<int, int>)
    ensures MapSum(Plus(x, y)) == MapSum(x) + MapSum(y)
    decreases |y|
  {
    if y == map[] {
      PlusNothing(x, y);
    } else {
      NonEmptyHasKey(y);
      var k :| k in y;
      var y1 := y - {k};
      MapSumPlus(x, y1);
      PlusStep(x, y, k);
      MapSumAddTo(Plus(x, y1), k, y[k]);
      MapSumRemove(y, k);
    }
  }

  lemma PlusNothing(x: map<int, int>, y: map<int, int>)
    requires y == map[]
    ensures Plus(x, y) == x
  {
  }

  /** Adding one entry of `y` at a time builds the pointwise sum. */
  lemma PlusStep(x: map<int, int>, y: map<int, int>, k: int)
    requires k in y
    ensures Plus(x, y) == AddTo(Plus(x, y - {k}), k, y[k])
  {
    var p, q := Plus(x, y), AddTo(Plus(x, y - {k}), k, y[k]);
    assert p.Keys == q.Keys;
    forall j | j in p
      ensures p[j] == q[j]
    {
    }
  }

  /** The page's unit count of a merged cart is the number of units on both of the server's maps. */
  lemma MergedUnits(a: map<int, DishOrder>, b: map<int, DishOrder>)
    ensures MapSum(NumsOf(Merged(a, b))) == MapSum(LineNums(a)) + MapSum(LineNums(b))
  {
    assert NumsOf(Merged(a, b)) == Plus(LineNums(a), LineNums(b));
    MapSumPlus(LineNums(a), LineNums(b));
  }

  /** The counts of the dishes outside `gone`. */
  lemma RestStep(nums: map<int, int>, gone: set<int>, id: int)
    requires id in nums && id !in gone
    ensures MapSum(nums - gone) == nums[id] + MapSum(nums - (gone + {id}))
  {
    MapSumRemove(nums - gone, id);
    assert nums - gone - {id} == nums - (gone + {id});
  }

  /** The number of units the page shows for its cart. */
  method TotalNum(cart: map<int, CartItem>) returns (num: int)
    ensures num == MapSum(NumsOf(cart))
  {
    num := 0;
    var todo := cart.Keys;
    assert NumsOf(cart) - (cart.Keys - todo) == NumsOf(cart);
    while todo != {}
      invariant todo <= cart.Keys
      invariant num + MapSum(NumsOf(cart) - (cart.Keys - todo)) == MapSum(NumsOf(cart))
      decreases todo
    {
      var id := Choose(todo);
      RestStep(NumsOf(cart), cart.Keys - todo, id);
      assert cart.Keys - todo + {id} == cart.Keys - (todo - {id});
      num := num + cart[id].num;
      todo := todo - {id};
    }
    assert NumsOf(cart) - cart.Keys == map[];
  }

  // ---------------------------------------------------------------------
  // The page.
  // ---------------------------------------------------------------------

  /** What a count change sends: nothing for the same count, an addition to go up, a removal otherwise. */
  function CountChangeRequest(cart: map<int, CartItem>, id: int, cnt: int): (q: Request)
    ensures var prev := if id in cart then cart[id].num else 0;
      (q == NoRequest <==> cnt == prev) && (q == AddRequest <==> cnt > prev) && (q == RemoveRequest <==> cnt < prev)
  {
    var prevNum := if id in cart then cart[id].num else 0;
    if prevNum == cnt then NoRequest
    else if cnt > prevNum then AddRequest
    else RemoveRequest
  }

  /** The answer that refreshes the page: an accepted addition, any removal answered with a cart. */
  predicate Refreshes(q: Request, code: int)
  {
    (q == AddRequest && code == 200) || (q == RemoveRequest && code != 0)
  }

  class Page {
    var num: int
    var price: int
    var discount: int
    var cart: map<int, CartItem>

    constructor ()
      ensures num == 0 && price == 0 && discount == 0 && cart == map[]
    {
      num, price, discount, cart := 0, 0, 0, map[];
    }

    /** The page shows the cart `c`: its merged lines, their unit count, and its price and discount. */
    ghost predicate Shows(c: CartState)
      reads this
    {
      && cart == Merged(c.dishOrders, c.newDishOrders)
      && num == MapSum(LineNums(c.dishOrders)) + MapSum(LineNums(c.newDishOrders))
      && price == c.totalPrice && discount == c.discount
    }

    /** Shows a cart, price and discount, counting the cart's units. */
    method FlusheData(newPrice: int, newDiscount: int, newCart: map<int, CartItem>)
      modifies this
      ensures num == MapSum(NumsOf(newCart)) && price == newPrice && discount == newDiscount && cart == newCart
    {
      var n := TotalNum(newCart);
      num, price, discount, cart := n, newPrice, newDiscount, newCart;
    }

    /**
     * The customer picked `cnt` units of dish `id`. The request sent is
     * decided from the count the page shows; `answer` is what the server
     * answers to it. An accepted addition, or a removal answered with a
     * cart (refused ones included), makes the page show the answered cart;
     * anything else leaves the page as it was.
     */
    method DishCountChange(id: int, cnt: int, answer: Answer) returns (sent: Request)
      modifies this
      ensures sent == CountChangeRequest(old(cart), id, cnt)
      ensures Refreshes(sent, answer.code) ==> Shows(answer.body)
      ensures !Refreshes(sent, answer.code) ==>
        num == old(num) && price == old(price) && discount == old(discount) && cart == old(cart)
    {
      var prevNum := if id in cart then cart[id].num else 0;
      if prevNum == cnt {
        return NoRequest;
      }
      sent := if cnt > prevNum then AddRequest else RemoveRequest;
      if Refreshes(sent, answer.code) {
        var merged := MergerAndGetCart(answer.body.dishOrders, answer.body.newDishOrders);
        MergedUnits(answer.body.dishOrders, answer.body.newDishOrders);
        FlusheData(answer.body.totalPrice, answer.body.discount, merged);
      }
    }
  }

  // ---------------------------------------------------------------------
  // The dish list.
  // ---------------------------------------------------------------------

  /**
   * The stock a combo can be ordered up to: the least stock among its
   * members, capped at NO_LIMIT; None when a member's dish is unknown to
   * the page (reading its stock fails).
   */
  method GetComboStock(members: seq<ComboDish>, stock: map<int, int>) returns (ans: Option<int>)
    ensures ans.None? <==> exists i :: 0 <= i < |members| && members[i].dishId !in stock
    ensures ans.Some? ==> ans.value <= NO_LIMIT
    ensures ans.Some? ==> forall i :: 0 <= i < |members| ==> ans.value <= stock[members[i].dishId]
    ensures ans.Some? ==> ans.value == NO_LIMIT || exists i :: 0 <= i < |members| && ans.value == stock[members[i].dishId]
  {
    var least := NO_LIMIT;
    var i := 0;
    while i < |members|
      invariant 0 <= i <= |members|
      invariant forall j :: 0 <= j < i ==> members[j].dishId in stock && least <= stock[members[j].dishId]
      invariant least <= NO_LIMIT
      invariant least == NO_LIMIT || exists j :: 0 <= j < i && least == stock[members[j].dishId]
    {
      var id := members[i].dishId;
      if id !in stock {
        return None;
      }
      var num := stock[id];
      least := if least > num then num else least;
      i := i + 1;
    }
    return Some(least);
  }

  /** Marks every dish as liked, collected and meant to buy exactly when its id is on the matching list. */
  method AddLikeAndCollection(dishes: array<PageDish>, likeDishes: seq<int>, collectedDishes: seq<int>, willBuyDishes: seq<int>)
    modifies dishes
    ensures forall i :: 0 <= i < dishes.Length ==>
      dishes[i] == old(dishes[i]).(like := old(dishes[i]).id in likeDishes,
                                   collection := old(dishes[i]).id in collectedDishes,
                                   willBuy := old(dishes[i]).id in willBuyDishes)
  {
    for k := 0 to dishes.Length
      invariant forall i :: 0 <= i < k ==>
        dishes[i] == old(dishes[i]).(like := old(dishes[i]).id in likeDishes,
                                     collection := old(dishes[i]).id in collectedDishes,
                                     willBuy := old(dishes[i]).id in willBuyDishes)
      invariant forall i :: k <= i < dishes.Length ==> dishes[i] == old(dishes[i])
    {
      var d := dishes[k].(like := false, collection := false, willBuy := false);
      if d.id in likeDishes {
        d := d.(like := true);
      }
      if d.id in collectedDishes {
        d := d.(collection := true);
      }
      if d.id in willBuyDishes {
        d := d.(willBuy := true);
      }
      dishes[k] := d;
    }
  }

  /** A dish's remaining discounted units once the customer's used ones are taken off. */
  function Fixed(d: PageDish, used: map<int, int>): PageDish
  {
    if d.id in used && d.discountCount.Some? then d.(discountCount := Some(d.discountCount.value - used[d.id])) else d
  }

  /**
   * The count the page shows for a dish with a discount, less the cart's
   * discounted units, is the allowance the server checks before it gives
   * one more discounted unit.
   */
  lemma FixedIsServerAllowance(d: PageDish, dish: Dish, used: map<int, int>, c: CartState)
    requires d.id == dish.id && d.discountCount == Some(dish.discountCount)
    ensures Fixed(d, used).discountCount.value - UsedInCart(c, d.id)
         == dish.discountCount - UsedDiscountNum(c, dish.id, GetOrZero(used, dish.id), true)
  {
  }

  /** Takes the customer's used discounted units off every dish that has a discount. */
  method FixDiscountNum(dishes: array<PageDish>, used: map<int, int>)
    modifies dishes
    ensures forall i :: 0 <= i < dishes.Length ==> dishes[i] == Fixed(old(dishes[i]), used)
  {
    for k := 0 to dishes.Length
      invariant forall i :: 0 <= i < k ==> dishes[i] == Fixed(old(dishes[i]), used)
      invariant forall i :: k <= i < dishes.Length ==> dishes[i] == old(dishes[i])
    {
      var id := dishes[k].id;
      if id in used && dishes[k].discountCount.Some? {
        dishes[k] := dishes[k].(discountCount := Some(dishes[k].discountCount.value - used[id]));
      }
    }
  }
}
