/**
 * Values shared by every component of the order-placement engine: optional
 * values, dishes, order lines and orders as they travel between the cart,
 * the placement strategies and the background consumer.
 *
 * Money is a whole number of cents, timestamps are milliseconds, and a Java
 * string that may be null is a `string` in which "" stands for null.
 */
module Common {

  datatype Option<T> = None | Some(value: T)

  /** Ids at or above this bound name combos (bundles of other dishes). */
  const COMBO_ID_MIN: int := 100000

  predicate IsCombo(id: int) { id >= COMBO_ID_MIN }

  /**
   * A dish as the menu describes it. `discountCount` is how many units of
   * the dish one customer may buy at the discounted price per day, and
   * `discountValue` is what the dish's discount takes off its price (the
   * discount arithmetic itself lives outside the engine).
   */
  datatype Dish = Dish(id: int, price: int, name: string, discountCount: int, discountValue: int)

  /** One member of a combo: which dish and how many units of it. */
  datatype ComboDish = ComboDish(dishId: int, dishNum: int)

  /** The combo table: combo id to its member dishes (an unknown combo has none). */
  type ComboTable = map<int, seq<ComboDish>>

  function ComboMembers(combos: ComboTable, id: int): seq<ComboDish>
  {
    if id in combos then combos[id] else []
  }

  /**
   * One line of an order as it is written into the order message and the
   * order-dish table; `isAdd` marks a line added to an already placed order.
   */
  datatype DishLine = DishLine(dishId: int, dishNum: int, dishPrice: int, usedCount: int,
                               dishName: string, isAdd: bool)

  /**
   * An order. `id` and `payId` are "" until a placement strategy assigns them;
   * `fetchMealCode` is only set for takeaway orders.
   */
  datatype Order = Order(id: string, userId: string, storeId: int, table: int,
                         consumeType: int, orderType: int, originalPrice: int,
                         shopDiscount: int, payId: string, fetchMealCode: Option<string>,
                         isNew: bool, createTime: int, dishOrders: seq<DishLine>)

  // ---------------------------------------------------------------------
  // Decimal rendering of integers, as Java's String.valueOf(int) does it.
  // ---------------------------------------------------------------------

  function DigitChar(d: int): char
    requires 0 <= d < 10
  {
    ('0' as int + d) as char
  }

  function NatToString(n: nat): (s: string)
    ensures |s| >= 1
    ensures forall i :: 0 <= i < |s| ==> '0' <= s[i] <= '9'
    ensures (|s| == 1) == (n < 10)
    decreases n
  {
    if n < 10 then [DigitChar(n)] else NatToString(n / 10) + [DigitChar(n % 10)]
  }

  function IntToString(n: int): (s: string)
    ensures |s| >= 1
    ensures (s[0] == '-') == (n < 0)
  {
    if n >= 0 then NatToString(n) else "-" + NatToString(-n)
  }

  lemma {:induction false} NatToStringInjective(a: nat, b: nat)
    requires NatToString(a) == NatToString(b)
    ensures a == b
    decreases a
  {
    var s := NatToString(a);
    if a < 10 {
      assert |s| == 1;
    } else {
      assert b >= 10;
      assert NatToString(a) == NatToString(a / 10) + [DigitChar(a % 10)];
      assert NatToString(b) == NatToString(b / 10) + [DigitChar(b % 10)];
      assert s[|s| - 1] == DigitChar(a % 10) == DigitChar(b % 10);
      assert NatToString(a / 10) == s[..|s| - 1] == NatToString(b / 10);
      NatToStringInjective(a / 10, b / 10);
    }
  }

  /** Distinct integers render as distinct strings. */
  lemma IntToStringInjective(a: int, b: int)
    requires IntToString(a) == IntToString(b)
    ensures a == b
  {
    if a >= 0 && b >= 0 {
      NatToStringInjective(a, b);
    } else if a < 0 && b < 0 {
      assert NatToString(-a) == IntToString(a)[1..] == IntToString(b)[1..] == NatToString(-b);
      NatToStringInjective(-a, -b);
    }
    // a sign-mixed pair is told apart by the leading '-'
  }

  /** A fixed prefix followed by a variable part determines the variable part. */
  lemma PrefixedInjective(prefix: string, a: string, b: string)
    requires prefix + a == prefix + b
    ensures a == b
  {
    assert a == (prefix + a)[|prefix|..];
    assert b == (prefix + b)[|prefix|..];
  }

  /** Add `delta` to the entry of `k`, counting an absent entry as 0. */
  function AddTo(m: map<int, int>, k: int, delta: int): (r: map<int, int>)
    ensures r.Keys == m.Keys + {k}
    ensures r[k] == (if k in m then m[k] else 0) + delta
    ensures forall j :: j in m && j != k ==> r[j] == m[j]
  {
    m[k := (if k in m then m[k] else 0) + delta]
  }

  function GetOrZero(m: map<int, int>, k: int): int
  {
    if k in m then m[k] else 0
  }

  /** Some element of a non-empty set, for loops that visit the keys of a map one at a time. */
  method Choose<T>(s: set<T>) returns (x: T)
    requires s != {}
    ensures x in s
  {
    assert exists y :: y in s by {
      if forall y :: y !in s {
        assert false;
      }
    }
    x :| x in s;
  }

  /** Moving a chosen element from the unvisited to the visited part of a loop over a set. */
  lemma VisitOne<T>(all: set<T>, todo: set<T>, done: set<T>, x: T)
    requires todo <= all && done == all - todo && x in todo
    ensures done + {x} == all - (todo - {x})
  {
  }

  /** `ks` lists every element of `keys` exactly once: one visiting order of a map's keys. */
  ghost predicate Enumerates<K(!new)>(ks: seq<K>, keys: set<K>)
  {
    (forall i, j :: 0 <= i < j < |ks| ==> ks[i] != ks[j]) &&
    (forall k :: k in ks <==> k in keys)
  }

  /** Visiting one more element extends an enumeration of the elements visited so far. */
  lemma EnumerateOne<K(!new)>(ks: seq<K>, all: set<K>, todo: set<K>, x: K)
    requires Enumerates(ks, all - todo) && x in todo && todo <= all
    ensures Enumerates(ks + [x], all - (todo - {x}))
  {
    assert x !in ks;
    forall k
      ensures k in ks + [x] <==> k in all - (todo - {x})
    {
      assert k in ks + [x] <==> k in ks || k == x;
    }
  }

  /** A second update of the same key overrides the first. */
  lemma UpdateTwice<K, V>(m: map<K, V>, k: K, v: V, w: V)
    ensures m[k := v][k := w] == m[k := w]
  {
  }

  /** Merging nothing leaves a map as it was. */
  lemma StartMerge(start: map<int, int>, fields: map<int, int>)
    ensures start + (fields - fields.Keys) == start
  {
    assert fields - fields.Keys == map[];
  }

  /** Removing nothing leaves a map as it was. */
  lemma EndMerge(fields: map<int, int>)
    ensures fields - {} == fields
  {
  }

  /** One more field merged is one more update. */
  lemma MergeStep(start: map<int, int>, fields: map<int, int>, todo: set<int>, id: int)
    requires id in todo && id in fields
    ensures start + (fields - (todo - {id})) == (start + (fields - todo))[id := fields[id]]
  {
  }
}
