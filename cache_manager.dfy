/**
 * The cache manager: how cache keys are built, when a key counts as
 * present, and the routines that fill a bitmap or a hash from the
 * database.
 */
module CacheManager {
  import opened Common
  import opened RedisStore

  const DISH_LIKE_NUM_CACHE_KEY: string := "A-redis-hash:dish-like-num-key"
  const DISH_MAKE_TIME_CACHE_KEY: string := "A-redis-hash:dish-make-time-key"
  const DISH_WAITING_QUEUE_KEY: string := "A-redis-list:dish-queue-key"

  /** The time to live given to cache fills, in seconds. */
  const DEFAULT_EXPIRATION_SECONDS: int := 60 * 60

  const ORDER_MESSAGE_KEY_PREFIX: string := "A-redis-kv:order-msg-key?msgId="
  const DISH_STOCK_KEY_PREFIX: string := "A-redis-hash:dish-stock-key?storeId="
  const USER_LIKE_DISH_KEY_PREFIX: string := "A-redis-bitmap:user-like-dish-cache?uid="
  const USER_COLLECTED_DISH_KEY_PREFIX: string := "A-redis-bitmap:user-collected-dish-cache?uid="
  const USER_WILL_BUY_DISH_KEY_PREFIX: string := "A-redis-bitmap:user-will-buy-dish-cache?uid="
  const USER_COLLECTED_STORE_KEY_PREFIX: string := "A-redis-bitmap:user-collected-store-cache?uid="
  const TODAY_KEY_PREFIX: string := "redis-kv:dish-sale-log?data="

  /** The key of an order message's outcome marker. */
  function OrderMessageCacheKey(mid: string): string
  {
    ORDER_MESSAGE_KEY_PREFIX + mid
  }

  /** The key of a store's stock hash. */
  function DishStockCacheKey(storeId: int): string
  {
    DISH_STOCK_KEY_PREFIX + IntToString(storeId)
  }

  function UserLikeDishCacheKey(uid: string): string { USER_LIKE_DISH_KEY_PREFIX + uid }
  function UserCollectedDishCacheKey(uid: string): string { USER_COLLECTED_DISH_KEY_PREFIX + uid }
  function UserWillBuyDishCacheKey(uid: string): string { USER_WILL_BUY_DISH_KEY_PREFIX + uid }
  function UserCollectedStoreCacheKey(uid: string): string { USER_COLLECTED_STORE_KEY_PREFIX + uid }

  /** The key of the day's per-store sales counter; `today` is the rendering of the day's midnight. */
  function TodayDateKey(today: string): string { TODAY_KEY_PREFIX + today }

  /** Distinct message ids have distinct marker keys. */
  lemma OrderMessageKeyInjective(a: string, b: string)
    requires OrderMessageCacheKey(a) == OrderMessageCacheKey(b)
    ensures a == b
  {
    PrefixedInjective(ORDER_MESSAGE_KEY_PREFIX, a, b);
  }

  /** Distinct stores have distinct stock keys. */
  lemma DishStockKeyInjective(a: int, b: int)
    requires DishStockCacheKey(a) == DishStockCacheKey(b)
    ensures a == b
  {
    PrefixedInjective(DISH_STOCK_KEY_PREFIX, IntToString(a), IntToString(b));
    IntToStringInjective(a, b);
  }

  /** No stock key is one of the fixed keys or a marker key. */
  lemma StockKeyIsNoOtherKey(sid: int, mid: string)
    ensures DishStockCacheKey(sid) != DISH_MAKE_TIME_CACHE_KEY
    ensures DishStockCacheKey(sid) != DISH_LIKE_NUM_CACHE_KEY
    ensures DishStockCacheKey(sid) != DISH_WAITING_QUEUE_KEY
    ensures DishStockCacheKey(sid) != OrderMessageCacheKey(mid)
  {
    var k := DishStockCacheKey(sid);
    assert k[18] == 's' && DISH_MAKE_TIME_CACHE_KEY[18] == 'm' && DISH_LIKE_NUM_CACHE_KEY[18] == 'l';
    assert k[8] == 'h' && DISH_WAITING_QUEUE_KEY[8] == 'l' && OrderMessageCacheKey(mid)[8] == 'k';
  }

  /** No marker key is the waiting queue's key or a day's sales-counter key. */
  lemma MarkerKeyIsNoOtherKey(mid: string, today: string)
    ensures OrderMessageCacheKey(mid) != DISH_WAITING_QUEUE_KEY
    ensures OrderMessageCacheKey(mid) != TodayDateKey(today)
  {
    var k := OrderMessageCacheKey(mid);
    assert k[8] == 'k' && DISH_WAITING_QUEUE_KEY[8] == 'l';
    assert k[0] == 'A' && TodayDateKey(today)[0] == 'r';
  }

  /** The four per-user bitmap keys never collide, for any two users. */
  lemma UserBitmapKeysDistinct(u: string, v: string)
    ensures UserLikeDishCacheKey(u) != UserCollectedDishCacheKey(v)
    ensures UserLikeDishCacheKey(u) != UserWillBuyDishCacheKey(v)
    ensures UserLikeDishCacheKey(u) != UserCollectedStoreCacheKey(v)
    ensures UserCollectedDishCacheKey(u) != UserWillBuyDishCacheKey(v)
    ensures UserCollectedDishCacheKey(u) != UserCollectedStoreCacheKey(v)
    ensures UserWillBuyDishCacheKey(u) != UserCollectedStoreCacheKey(v)
  {
    assert UserLikeDishCacheKey(u)[20] == 'l';
    assert UserCollectedDishCacheKey(u)[20] == 'c' && UserCollectedDishCacheKey(v)[20] == 'c';
    assert UserWillBuyDishCacheKey(v)[20] == 'w' && UserWillBuyDishCacheKey(u)[20] == 'w';
    assert UserCollectedStoreCacheKey(v)[20] == 'c';
    assert UserCollectedDishCacheKey(u)[30] == 'd' && UserCollectedStoreCacheKey(v)[30] == 's';
  }

  /** The manager's presence test: the key exists and has a time to live left. */
  predicate HasKey(r: Redis, key: string)
    reads r
  {
    r.Exists(key) && r.GetExpire(key) > 0
  }

  /** A key without a time to live never counts as present. */
  lemma NoTimeToLiveIsAbsent(r: Redis, key: string)
    requires key !in r.expiry
    ensures !HasKey(r, key)
  {
  }

  /** Writes a value with a time to live, unless the key is already present. */
  method AddIfAbsentForValue(r: Redis, key: string, v: int, seconds: int)
    requires seconds > 0
    modifies r
    ensures old(HasKey(r, key)) ==>
      r.values == old(r.values) && r.hashes == old(r.hashes) && r.bitmaps == old(r.bitmaps) &&
      r.lists == old(r.lists) && r.expiry == old(r.expiry)
    ensures !old(HasKey(r, key)) ==>
      r.values == old(r.values)[key := v] && r.hashes == old(r.hashes) - {key} &&
      r.bitmaps == old(r.bitmaps) - {key} && r.lists == old(r.lists) - {key} &&
      r.expiry == old(r.expiry)[key := seconds]
    ensures HasKey(r, key)
  {
    if !HasKey(r, key) {
      r.Set(key, v);
      r.Expire(key, seconds);
    }
  }

  /** GETBIT as an int: 1 for a set bit, 0 otherwise. */
  function GetBitInt(r: Redis, key: string, offset: int): (b: int)
    reads r
    ensures b == 0 || b == 1
    ensures b == 1 <==> r.GetBit(key, offset)
  {
    if r.GetBit(key, offset) then 1 else 0
  }

  /** SETBIT from an int: any non-zero value sets the bit. */
  method SetBitInt(r: Redis, key: string, offset: int, v: int)
    modifies r`bitmaps
    ensures var bits := if key in old(r.bitmaps) then old(r.bitmaps[key]) else {};
      r.bitmaps == old(r.bitmaps)[key := if v != 0 then bits + {offset} else bits - {offset}]
  {
    r.SetBit(key, offset, v != 0);
  }

  /** The offsets of `allIds` that `ids` also holds. */
  function MarkedSet(allIds: seq<int>, ids: seq<int>): set<int>
  {
    set i | i in allIds && i in ids
  }

  /**
   * Rebuilds a user's bitmap: after it, bit i is set exactly when i is one
   * of `ids`, for every i in `allIds`, and the key lives for an hour. With
   * no ids at all no bit is written, so the key does not exist.
   */
  method InitRedisUserMarkedCache(r: Redis, allIds: seq<int>, ids: seq<int>, key: string)
    modifies r
    ensures |allIds| > 0 ==> key in r.bitmaps && r.bitmaps[key] == MarkedSet(allIds, ids)
    ensures |allIds| > 0 ==> HasKey(r, key) && r.expiry[key] == DEFAULT_EXPIRATION_SECONDS
    ensures |allIds| == 0 ==> !r.Exists(key)
    ensures forall i :: 0 <= i < |allIds| ==> (r.GetBit(key, allIds[i]) <==> allIds[i] in ids)
    ensures r.bitmaps - {key} == old(r.bitmaps) - {key}
    ensures r.values == old(r.values) - {key} && r.hashes == old(r.hashes) - {key}
    ensures r.lists == old(r.lists) - {key}
    ensures r.expiry - {key} == old(r.expiry) - {key}
  {
    r.Delete(key);
    var i := 0;
    while i < |allIds|
      invariant 0 <= i <= |allIds|
      invariant i > 0 ==> key in r.bitmaps && r.bitmaps[key] == MarkedSet(allIds[..i], ids)
      invariant i == 0 ==> key !in r.bitmaps
      invariant r.bitmaps - {key} == old(r.bitmaps) - {key}
      invariant r.values == old(r.values) - {key} && r.hashes == old(r.hashes) - {key}
      invariant r.lists == old(r.lists) - {key} && r.expiry == old(r.expiry) - {key}
    {
      SetBitInt(r, key, allIds[i], if allIds[i] in ids then 1 else 0);
      assert allIds[..i + 1] == allIds[..i] + [allIds[i]];
      i := i + 1;
    }
    assert allIds[..i] == allIds;
    r.Expire(key, DEFAULT_EXPIRATION_SECONDS);
  }

  /** No later pair names the field of pair `i`. */
  predicate LastFor(pairs: seq<(int, int)>, i: int)
    requires 0 <= i < |pairs|
  {
    forall j :: i < j < |pairs| ==> pairs[j].0 != pairs[i].0
  }

  /** The hash a list of (field, value) pairs builds; a later pair for the same field wins. */
  function PairsToHash(pairs: seq<(int, int)>): (h: map<int, int>)
    ensures forall k :: k in h <==> exists i :: 0 <= i < |pairs| && pairs[i].0 == k
    ensures forall i :: 0 <= i < |pairs| && LastFor(pairs, i) ==> h[pairs[i].0] == pairs[i].1
  {
    if pairs == [] then map[]
    else
      var h := PairsToHash(pairs[..|pairs| - 1]);
      PairsToHashStep(pairs, h);
      h[pairs[|pairs| - 1].0 := pairs[|pairs| - 1].1]
  }

  /** The hash of all but the last pair, updated with the last pair, is the hash of all of them. */
  lemma PairsToHashStep(pairs: seq<(int, int)>, h: map<int, int>)
    requires |pairs| > 0
    requires var init := pairs[..|pairs| - 1];
      && (forall k :: k in h <==> exists i :: 0 <= i < |init| && init[i].0 == k)
      && (forall i :: 0 <= i < |init| && LastFor(init, i) ==> h[init[i].0] == init[i].1)
    ensures var h2 := h[pairs[|pairs| - 1].0 := pairs[|pairs| - 1].1];
      && (forall k :: k in h2 <==> exists i :: 0 <= i < |pairs| && pairs[i].0 == k)
      && (forall i :: 0 <= i < |pairs| && LastFor(pairs, i) ==> h2[pairs[i].0] == pairs[i].1)
  {
    var n := |pairs| - 1;
    var init := pairs[..n];
    var h2 := h[pairs[n].0 := pairs[n].1];
    forall k ensures k in h2 <==> exists i :: 0 <= i < |pairs| && pairs[i].0 == k {
      if k in h && k != pairs[n].0 {
        var i :| 0 <= i < |init| && init[i].0 == k;
        assert pairs[i].0 == k;
      }
      if exists i :: 0 <= i < |pairs| && pairs[i].0 == k {
        var i :| 0 <= i < |pairs| && pairs[i].0 == k;
        if i < n {
          assert init[i].0 == k;
        }
      }
    }
    forall i | 0 <= i < |pairs| && LastFor(pairs, i) ensures h2[pairs[i].0] == pairs[i].1 {
      if i < n {
        assert pairs[n].0 != pairs[i].0;
        assert init[i] == pairs[i];
        assert LastFor(init, i) by {
          forall j | i < j < |init| ensures init[j].0 != init[i].0 {
            assert init[j] == pairs[j];
          }
        }
      }
    }
  }

  /**
   * Rebuilds the make-time hash from the dish list: every listed dish maps
   * to its make time, nothing else is in the hash, and it lives for an hour.
   */
  method InitRedisDishMakeTimeCache(r: Redis, dishes: seq<(int, int)>)
    modifies r
    ensures r.HashOf(DISH_MAKE_TIME_CACHE_KEY) == PairsToHash(dishes)
    ensures |dishes| > 0 ==> HasKey(r, DISH_MAKE_TIME_CACHE_KEY)
    ensures r.hashes - {DISH_MAKE_TIME_CACHE_KEY} == old(r.hashes) - {DISH_MAKE_TIME_CACHE_KEY}
    ensures r.values == old(r.values) - {DISH_MAKE_TIME_CACHE_KEY}
    ensures r.bitmaps == old(r.bitmaps) - {DISH_MAKE_TIME_CACHE_KEY}
    ensures r.lists == old(r.lists) - {DISH_MAKE_TIME_CACHE_KEY}
    ensures r.expiry - {DISH_MAKE_TIME_CACHE_KEY} == old(r.expiry) - {DISH_MAKE_TIME_CACHE_KEY}
  {
    var key := DISH_MAKE_TIME_CACHE_KEY;
    r.Delete(key);
    var i := 0;
    while i < |dishes|
      invariant 0 <= i <= |dishes|
      invariant r.HashOf(key) == PairsToHash(dishes[..i])
      invariant i > 0 ==> key in r.hashes
      invariant r.hashes - {key} == old(r.hashes) - {key}
      invariant r.values == old(r.values) - {key} && r.bitmaps == old(r.bitmaps) - {key}
      invariant r.lists == old(r.lists) - {key} && r.expiry == old(r.expiry) - {key}
    {
      r.HashPut(key, dishes[i].0, dishes[i].1);
      assert dishes[..i + 1][..i] == dishes[..i];
      i := i + 1;
    }
    assert dishes[..i] == dishes;
    r.Expire(key, DEFAULT_EXPIRATION_SECONDS);
  }

  /**
   * Refreshes a store's stock hash from the durable stock: every listed dish
   * then holds its durable stock. The old hash is dropped first only when it
   * counts as present, that is when it has a time to live; otherwise dishes
   * no longer listed keep their old cached stock.
   */
  method FlushRedisDishStockCache(r: Redis, dishes: map<int, int>, storeId: int)
    modifies r
    ensures var key := DishStockCacheKey(storeId);
      r.HashOf(key) == (if old(HasKey(r, key)) then map[] else old(r.HashOf(key))) + dishes
    ensures forall id :: id in dishes ==> r.HashGet(DishStockCacheKey(storeId), id) == Some(dishes[id])
    ensures OnlyKeyChanged(r, DishStockCacheKey(storeId))
    ensures var key := DishStockCacheKey(storeId);
      r.hashes - {key} == old(r.hashes) - {key} &&
      (old(HasKey(r, key)) ==>
        r.values == old(r.values) - {key} && r.bitmaps == old(r.bitmaps) - {key} &&
        r.lists == old(r.lists) - {key} && r.expiry == old(r.expiry) - {key}) &&
      (!old(HasKey(r, key)) ==>
        r.values == old(r.values) && r.bitmaps == old(r.bitmaps) &&
        r.lists == old(r.lists) && r.expiry == old(r.expiry))
  {
    var key := DishStockCacheKey(storeId);
    if HasKey(r, key) {
      r.Delete(key);
    }
    PutAll(r, key, dishes);
  }

  /** HSET of every field of `fields` into one hash. */
  method PutAll(r: Redis, key: string, fields: map<int, int>)
    modifies r`hashes
    ensures fields == map[] ==> r.hashes == old(r.hashes)
    ensures fields != map[] ==> r.hashes == old(r.hashes)[key := old(r.HashOf(key)) + fields]
  {
    ghost var start := r.HashOf(key);
    var todo := fields.Keys;
    StartMerge(start, fields);
    while todo != {}
      invariant todo <= fields.Keys
      invariant todo == fields.Keys ==> r.hashes == old(r.hashes)
      invariant todo != fields.Keys ==> r.hashes == old(r.hashes)[key := start + (fields - todo)]
      decreases |todo|
    {
      var f := Choose(todo);
      MergeStep(start, fields, todo, f);
      r.HashPut(key, f, fields[f]);
      todo := todo - {f};
    }
    EndMerge(fields);
  }
}
