/**
 * The two scheduled jobs. The first writes every customer's cached marks
 * (the dishes they like, collect and mean to buy, and the stores they
 * collect) back to the link tables, the cache being the truth, and then
 * drops those caches. The second closes the day: it logs each store's sales,
 * clears the waiting queue and gives every customer their daily discount
 * allowance back.
 */
module ScheduledTask {
  import opened Common
  import opened RedisStore
  import opened Database
  import opened CacheManager

  /** The four kinds of per-customer marks the cache keeps as bitmaps. */
  datatype Mark = LikedDish | CollectedDish | WillBuyDish | CollectedStore

  /** The bitmap holding a customer's marks of one kind. */
  function BitmapKey(m: Mark, uid: string): string
  {
    match m
    case LikedDish => UserLikeDishCacheKey(uid)
    case CollectedDish => UserCollectedDishCacheKey(uid)
    case WillBuyDish => UserWillBuyDishCacheKey(uid)
    case CollectedStore => UserCollectedStoreCacheKey(uid)
  }

  /** Distinct (mark, customer) pairs have distinct bitmaps. */
  lemma BitmapKeyInjective(m: Mark, u: string, n: Mark, v: string)
    requires BitmapKey(m, u) == BitmapKey(n, v)
    ensures m == n && u == v
  {
    UserBitmapKeysDistinct(u, v);
    UserBitmapKeysDistinct(v, u);
    match m
    case LikedDish => PrefixedInjective(USER_LIKE_DISH_KEY_PREFIX, u, v);
    case CollectedDish => PrefixedInjective(USER_COLLECTED_DISH_KEY_PREFIX, u, v);
    case WillBuyDish => PrefixedInjective(USER_WILL_BUY_DISH_KEY_PREFIX, u, v);
    case CollectedStore => PrefixedInjective(USER_COLLECTED_STORE_KEY_PREFIX, u, v);
  }

  /** The offsets set in a bitmap; a missing bitmap has none. */
  function Bits(bitmaps: map<string, set<int>>, key: string): set<int>
  {
    if key in bitmaps then bitmaps[key] else {}
  }

  /** The whole content of the cache, as one value. */
  datatype CacheState = CacheState(values: map<string, int>, hashes: map<string, map<int, int>>,
                                   bitmaps: map<string, set<int>>, lists: map<string, seq<QueueEntry>>,
                                   expiry: map<string, int>)

  function CacheOf(r: Redis): CacheState
    reads r
  {
    CacheState(r.values, r.hashes, r.bitmaps, r.lists, r.expiry)
  }

  /** The keys present in a cache, of any kind. */
  function Present(c: CacheState): set<string>
  {
    c.values.Keys + c.hashes.Keys + c.bitmaps.Keys + c.lists.Keys
  }

  /** The keys present in the cache are the ones EXISTS finds. */
  function PresentKeys(r: Redis): (keys: set<string>)
    reads r
    ensures forall k :: k in keys <==> r.Exists(k)
  {
    Present(CacheOf(r))
  }

  /** The ids a customer has rows for in a link table, as the mapper's query lists them. */
  function LinkedIds(rows: set<(string, int)>, uid: string): (ids: set<int>)
    ensures forall id :: id in ids <==> (uid, id) in rows
  {
    var ids := set p | p in rows && p.0 == uid :: p.1;
    assert forall id :: (uid, id) in rows ==> id in ids by {
      forall id | (uid, id) in rows
        ensures id in ids
      {
        var p := (uid, id);
        assert p in rows && p.0 == uid;
      }
    }
    ids
  }

  /**
   * One id of one kind of mark, on the rows of its link table: a row is
   * added when the bitmap has the id and the customer's listed rows do not,
   * removed in the opposite case, and otherwise left alone.
   */
  function StepRows(rows: set<(string, int)>, uid: string, id: int, listed: bool, bit: bool): set<(string, int)>
  {
    if !listed && bit then rows + {(uid, id)}
    else if listed && !bit then rows - {(uid, id)}
    else rows
  }

  /** `rows` with one customer's rows over the ids `ids` replaced by the ids the bitmap `bits` marks. */
  function Synced(rows: set<(string, int)>, uid: string, ids: set<int>, bits: set<int>): set<(string, int)>
  {
    (set p | p in rows && !(p.0 == uid && p.1 in ids)) + (set i | i in ids && i in bits :: (uid, i))
  }

  /** Over no ids, nothing is replaced. */
  lemma SyncedNothing(rows: set<(string, int)>, uid: string, bits: set<int>)
    ensures Synced(rows, uid, {}, bits) == rows
  {
  }

  /** One step of the write-back, against the rows listed before it began, replaces one more id. */
  lemma SyncedStep(r0: set<(string, int)>, uid: string, done: set<int>, id: int, listed: bool, bit: bool, bits: set<int>)
    requires id !in done
    requires listed <==> (uid, id) in r0
    requires bit <==> id in bits
    ensures StepRows(Synced(r0, uid, done, bits), uid, id, listed, bit) == Synced(r0, uid, done + {id}, bits)
  {
    var a := StepRows(Synced(r0, uid, done, bits), uid, id, listed, bit);
    var b := Synced(r0, uid, done + {id}, bits);
    forall p | p in b
      ensures p in a
    {
    }
    forall p | p in a
      ensures p in b
    {
    }
  }

  /**
   * The dish loop's state after the dishes `done`: for each of the three
   * dish marks whose bitmap was present (`b1`, `b2`, `b3`), the customer's
   * rows over `done` are the bitmap's. The pairing of marks with tables is
   * the job's own: liked dishes go to the collected-dish table and
   * collected dishes to the favourite-dish table.
   */
  function DishesAfter(t0: Tables, uid: string, done: set<int>, b1: bool, b2: bool, b3: bool,
                       bits1: set<int>, bits2: set<int>, bits3: set<int>): Tables
  {
    t0.(collectedDish := Synced(t0.collectedDish, uid, if b1 then done else {}, bits1),
        favoriteDish := Synced(t0.favoriteDish, uid, if b2 then done else {}, bits2),
        willBuyDish := Synced(t0.willBuyDish, uid, if b3 then done else {}, bits3))
  }

  /** One id of the dish loop: each of the three dish marks whose bitmap is present takes its step. */
  function DishStep(t: Tables, uid: string, id: int, b1: bool, b2: bool, b3: bool,
                    l1: bool, l2: bool, l3: bool, v1: bool, v2: bool, v3: bool): Tables
  {
    t.(collectedDish := if b1 then StepRows(t.collectedDish, uid, id, l1, v1) else t.collectedDish,
       favoriteDish := if b2 then StepRows(t.favoriteDish, uid, id, l2, v2) else t.favoriteDish,
       willBuyDish := if b3 then StepRows(t.willBuyDish, uid, id, l3, v3) else t.willBuyDish)
  }

  /** Before the dish loop, nothing has changed. */
  lemma DishesNothing(t0: Tables, uid: string, b1: bool, b2: bool, b3: bool,
                      bits1: set<int>, bits2: set<int>, bits3: set<int>)
    ensures DishesAfter(t0, uid, {}, b1, b2, b3, bits1, bits2, bits3) == t0
  {
    var a := DishesAfter(t0, uid, {}, b1, b2, b3, bits1, bits2, bits3);
    SyncedNothing(t0.collectedDish, uid, bits1);
    SyncedNothing(t0.favoriteDish, uid, bits2);
    SyncedNothing(t0.willBuyDish, uid, bits3);
    assert a.collectedDish == t0.collectedDish && a.favoriteDish == t0.favoriteDish && a.willBuyDish == t0.willBuyDish;
  }

  /** One more dish handled, against the rows listed before the loop. */
  lemma DishesStep(t0: Tables, uid: string, done: set<int>, id: int, b1: bool, b2: bool, b3: bool,
                   bits1: set<int>, bits2: set<int>, bits3: set<int>,
                   l1: bool, l2: bool, l3: bool, v1: bool, v2: bool, v3: bool)
    requires id !in done
    requires (l1 <==> (uid, id) in t0.collectedDish) && (v1 <==> id in bits1)
    requires (l2 <==> (uid, id) in t0.favoriteDish) && (v2 <==> id in bits2)
    requires (l3 <==> (uid, id) in t0.willBuyDish) && (v3 <==> id in bits3)
    ensures DishStep(DishesAfter(t0, uid, done, b1, b2, b3, bits1, bits2, bits3), uid, id, b1, b2, b3, l1, l2, l3, v1, v2, v3)
         == DishesAfter(t0, uid, done + {id}, b1, b2, b3, bits1, bits2, bits3)
  {
    var a := DishesAfter(t0, uid, done, b1, b2, b3, bits1, bits2, bits3);
    var b := DishesAfter(t0, uid, done + {id}, b1, b2, b3, bits1, bits2, bits3);
    var c := DishStep(a, uid, id, b1, b2, b3, l1, l2, l3, v1, v2, v3);
    assert c.collectedDish == b.collectedDish by {
      if b1 { SyncedStep(t0.collectedDish, uid, done, id, l1, v1, bits1); }
    }
    assert c.favoriteDish == b.favoriteDish by {
      if b2 { SyncedStep(t0.favoriteDish, uid, done, id, l2, v2, bits2); }
    }
    assert c.willBuyDish == b.willBuyDish by {
      if b3 { SyncedStep(t0.willBuyDish, uid, done, id, l3, v3, bits3); }
    }
  }

  /** The body of the dish loop for one dish id; `k1`, `k2`, `k3` are the customer's three dish bitmaps. */
  method SyncDishId(db: Db, r: Redis, uid: string, id: int, k1: string, k2: string, k3: string,
                    b1: bool, b2: bool, b3: bool, collected: set<int>, favorite: set<int>, willBuy: set<int>)
    modifies db
    ensures db.t == DishStep(old(db.t), uid, id, b1, b2, b3, id in collected, id in favorite, id in willBuy,
                             r.GetBit(k1, id), r.GetBit(k2, id), r.GetBit(k3, id))
  {
    if b1 {
      var val1 := r.GetBit(k1, id);
      db.t := db.t.(collectedDish := StepRows(db.t.collectedDish, uid, id, id in collected, val1));
    }
    if b2 {
      var val2 := r.GetBit(k2, id);
      db.t := db.t.(favoriteDish := StepRows(db.t.favoriteDish, uid, id, id in favorite, val2));
    }
    if b3 {
      var val3 := r.GetBit(k3, id);
      db.t := db.t.(willBuyDish := StepRows(db.t.willBuyDish, uid, id, id in willBuy, val3));
    }
  }

  /** One turn of the dish loop: the dishes `done` handled, the dish `id` is handled next. */
  method SyncNextDish(db: Db, r: Redis, ghost t0: Tables, ghost done: set<int>, uid: string, id: int,
                      k1: string, k2: string, k3: string, b1: bool, b2: bool, b3: bool,
                      collected: set<int>, favorite: set<int>, willBuy: set<int>)
    requires id !in done
    requires (id in collected <==> (uid, id) in t0.collectedDish)
    requires (id in favorite <==> (uid, id) in t0.favoriteDish)
    requires (id in willBuy <==> (uid, id) in t0.willBuyDish)
    requires db.t == DishesAfter(t0, uid, done, b1, b2, b3, Bits(r.bitmaps, k1), Bits(r.bitmaps, k2), Bits(r.bitmaps, k3))
    modifies db
    ensures db.t == DishesAfter(t0, uid, done + {id}, b1, b2, b3, Bits(r.bitmaps, k1), Bits(r.bitmaps, k2), Bits(r.bitmaps, k3))
  {
    DishesStep(t0, uid, done, id, b1, b2, b3, Bits(r.bitmaps, k1), Bits(r.bitmaps, k2), Bits(r.bitmaps, k3),
               id in collected, id in favorite, id in willBuy, r.GetBit(k1, id), r.GetBit(k2, id), r.GetBit(k3, id));
    SyncDishId(db, r, uid, id, k1, k2, k3, b1, b2, b3, collected, favorite, willBuy);
  }

  /**
   * The dish loop: over every dish, each dish mark whose bitmap is present
   * brings the customer's rows in line with it, deciding against the rows
   * listed before the loop.
   */
  method SyncDishes(db: Db, r: Redis, uid: string, k1: string, k2: string, k3: string, b1: bool, b2: bool, b3: bool,
                    collected: set<int>, favorite: set<int>, willBuy: set<int>)
    requires forall id :: id in collected <==> (uid, id) in db.t.collectedDish
    requires forall id :: id in favorite <==> (uid, id) in db.t.favoriteDish
    requires forall id :: id in willBuy <==> (uid, id) in db.t.willBuyDish
    modifies db
    ensures db.t == DishesAfter(old(db.t), uid, old(db.t.dishIds), b1, b2, b3,
                                Bits(r.bitmaps, k1), Bits(r.bitmaps, k2), Bits(r.bitmaps, k3))
  {
    ghost var t0 := db.t;
    ghost var bits1 := Bits(r.bitmaps, k1);
    ghost var bits2 := Bits(r.bitmaps, k2);
    ghost var bits3 := Bits(r.bitmaps, k3);
    var todo := db.t.dishIds;
    ghost var done := {};
    DishesNothing(t0, uid, b1, b2, b3, bits1, bits2, bits3);
    while todo != {}
      invariant todo <= t0.dishIds && done == t0.dishIds - todo
      invariant db.t == DishesAfter(t0, uid, done, b1, b2, b3, bits1, bits2, bits3)
      decreases todo
    {
      var id := Choose(todo);
      SyncNextDish(db, r, t0, done, uid, id, k1, k2, k3, b1, b2, b3, collected, favorite, willBuy);
      done := done + {id};
      todo := todo - {id};
    }
    assert done == t0.dishIds;
  }

  /** The store loop: over every store, the customer's collected-store rows are brought in line with the bitmap `k`. */
  method SyncStores(db: Db, r: Redis, uid: string, k: string, store: set<int>)
    requires forall id :: id in store <==> (uid, id) in db.t.collectedStore
    modifies db
    ensures db.t == old(db.t).(collectedStore := Synced(old(db.t.collectedStore), uid, old(db.t.storeIds), Bits(r.bitmaps, k)))
  {
    ghost var t0 := db.t;
    ghost var bits := Bits(r.bitmaps, k);
    var todo := db.t.storeIds;
    ghost var done := {};
    SyncedNothing(t0.collectedStore, uid, bits);
    while todo != {}
      invariant todo <= t0.storeIds && done == t0.storeIds - todo
      invariant db.t == t0.(collectedStore := Synced(t0.collectedStore, uid, done, bits))
      decreases todo
    {
      var id := Choose(todo);
      var val1 := r.GetBit(k, id);
      SyncedStep(t0.collectedStore, uid, done, id, id in store, val1, bits);
      db.t := db.t.(collectedStore := StepRows(db.t.collectedStore, uid, id, id in store, val1));
      done := done + {id};
      todo := todo - {id};
    }
    assert done == t0.storeIds;
  }

  /**
   * The link tables once one customer's marks are written back: a kind of
   * mark whose bitmap is not in `present` leaves its table alone; otherwise,
   * over every dish (or store), the customer's rows become the bitmap's.
   */
  function UserSynced(t: Tables, uid: string, present: set<string>, bitmaps: map<string, set<int>>): Tables
  {
    var k1, k2, k3, k4 := BitmapKey(LikedDish, uid), BitmapKey(CollectedDish, uid),
                          BitmapKey(WillBuyDish, uid), BitmapKey(CollectedStore, uid);
    t.(collectedDish := Synced(t.collectedDish, uid, if k1 in present then t.dishIds else {}, Bits(bitmaps, k1)),
       favoriteDish := Synced(t.favoriteDish, uid, if k2 in present then t.dishIds else {}, Bits(bitmaps, k2)),
       willBuyDish := Synced(t.willBuyDish, uid, if k3 in present then t.dishIds else {}, Bits(bitmaps, k3)),
       collectedStore := Synced(t.collectedStore, uid, if k4 in present then t.storeIds else {}, Bits(bitmaps, k4)))
  }

  /**
   * Writes one customer's cached marks back (the body of the job's loop,
   * without the deletions that end it). The customer's rows are listed, and
   * the four bitmaps looked up, before any row is changed.
   */
  method SyncUser(db: Db, r: Redis, uid: string)
    modifies db
    ensures db.t == UserSynced(old(db.t), uid, PresentKeys(r), r.bitmaps)
  {
    ghost var t0 := db.t;
    var store := LinkedIds(db.t.collectedStore, uid);
    var collected := LinkedIds(db.t.collectedDish, uid);
    var favorite := LinkedIds(db.t.favoriteDish, uid);
    var willBuy := LinkedIds(db.t.willBuyDish, uid);
    var k1, k2, k3, k4 := UserLikeDishCacheKey(uid), UserCollectedDishCacheKey(uid),
                          UserWillBuyDishCacheKey(uid), UserCollectedStoreCacheKey(uid);
    var b1 := r.Exists(k1);
    var b2 := r.Exists(k2);
    var b3 := r.Exists(k3);
    var b4 := r.Exists(k4);
    if b1 || b2 || b3 {
      SyncDishes(db, r, uid, k1, k2, k3, b1, b2, b3, collected, favorite, willBuy);
    } else {
      DishesNothing(t0, uid, b1, b2, b3, Bits(r.bitmaps, k1), Bits(r.bitmaps, k2), Bits(r.bitmaps, k3));
    }
    ghost var t1 := db.t;
    assert t1 == DishesAfter(t0, uid, t0.dishIds, b1, b2, b3, Bits(r.bitmaps, k1), Bits(r.bitmaps, k2), Bits(r.bitmaps, k3));
    if b4 {
      SyncStores(db, r, uid, k4, store);
    } else {
      SyncedNothing(t0.collectedStore, uid, Bits(r.bitmaps, k4));
    }
    ghost var u := UserSynced(t0, uid, PresentKeys(r), r.bitmaps);
    assert db.t.collectedDish == u.collectedDish && db.t.favoriteDish == u.favoriteDish;
    assert db.t.willBuyDish == u.willBuyDish && db.t.collectedStore == u.collectedStore;
  }

  /** The four bitmaps of one customer. */
  function UserKeys(uid: string): set<string>
  {
    {BitmapKey(LikedDish, uid), BitmapKey(CollectedDish, uid),
     BitmapKey(WillBuyDish, uid), BitmapKey(CollectedStore, uid)}
  }

  /** The bitmaps of all the given customers. */
  function AllUserKeys(users: set<string>): set<string>
  {
    set u, k | u in users && k in UserKeys(u) :: k
  }

  /** The bitmaps of a customer not among `users` are not among theirs. */
  lemma OtherUserKeys(users: set<string>, uid: string, m: Mark)
    requires uid !in users
    ensures BitmapKey(m, uid) !in AllUserKeys(users)
  {
    forall u, k | u in users && k in UserKeys(u)
      ensures k != BitmapKey(m, uid)
    {
      if k == BitmapKey(m, uid) {
        var n :| n in {LikedDish, CollectedDish, WillBuyDish, CollectedStore} && k == BitmapKey(n, u);
        BitmapKeyInjective(n, u, m, uid);
      }
    }
  }

  /** Adding a customer adds their four bitmaps. */
  lemma AllUserKeysAdd(users: set<string>, uid: string)
    ensures AllUserKeys(users + {uid}) == AllUserKeys(users) + UserKeys(uid)
  {
    forall k | k in UserKeys(uid)
      ensures k in AllUserKeys(users + {uid})
    {
      assert uid in users + {uid};
    }
  }

  /** The cache without the keys `keys`, of whatever kind they hold. */
  function Without(c: CacheState, keys: set<string>): CacheState
  {
    CacheState(c.values - keys, c.hashes - keys, c.bitmaps - keys, c.lists - keys, c.expiry - keys)
  }

  /** Removing two sets of keys one after the other removes their union. */
  lemma WithoutWithout(c: CacheState, a: set<string>, b: set<string>)
    ensures Without(Without(c, a), b) == Without(c, a + b)
  {
    var x := Without(Without(c, a), b);
    var y := Without(c, a + b);
    assert x.values == y.values && x.hashes == y.hashes && x.bitmaps == y.bitmaps;
    assert x.lists == y.lists && x.expiry == y.expiry;
  }

  /** Removing four keys one after the other removes them all. */
  lemma WithoutFour(c: CacheState, k1: string, k2: string, k3: string, k4: string)
    ensures Without(Without(Without(Without(c, {k1}), {k2}), {k3}), {k4}) == Without(c, {k1, k2, k3, k4})
  {
    WithoutWithout(c, {k1}, {k2});
    WithoutWithout(c, {k1, k2}, {k3});
    WithoutWithout(c, {k1, k2, k3}, {k4});
    assert {k1} + {k2} == {k1, k2} && {k1, k2} + {k3} == {k1, k2, k3} && {k1, k2, k3} + {k4} == {k1, k2, k3, k4};
  }

  lemma WithoutNothing(c: CacheState)
    ensures Without(c, {}) == c
  {
    var x := Without(c, {});
    assert x.values == c.values && x.hashes == c.hashes && x.bitmaps == c.bitmaps;
    assert x.lists == c.lists && x.expiry == c.expiry;
  }

  /** Deletes a customer's four bitmaps (the end of the job's loop body). */
  method DeleteUserKeys(r: Redis, uid: string)
    modifies r
    ensures CacheOf(r) == Without(old(CacheOf(r)), UserKeys(uid))
  {
    var k1, k2, k3, k4 := UserLikeDishCacheKey(uid), UserCollectedDishCacheKey(uid),
                          UserWillBuyDishCacheKey(uid), UserCollectedStoreCacheKey(uid);
    ghost var c0 := CacheOf(r);
    WithoutFour(c0, k1, k2, k3, k4);
    r.Delete(k1);
    assert CacheOf(r) == Without(c0, {k1});
    r.Delete(k2);
    assert CacheOf(r) == Without(Without(c0, {k1}), {k2});
    r.Delete(k3);
    assert CacheOf(r) == Without(Without(Without(c0, {k1}), {k2}), {k3});
    r.Delete(k4);
    assert UserKeys(uid) == {k1, k2, k3, k4};
  }

  /**
   * A link table once every customer in `users` is written back: a
   * customer whose bitmap of this kind was present has, over `ids`, exactly
   * the rows the bitmap marks; every other row is kept.
   */
  function AllSynced(rows: set<(string, int)>, m: Mark, users: set<string>, ids: set<int>,
                     present: set<string>, bitmaps: map<string, set<int>>): set<(string, int)>
  {
    (set p | p in rows && !(p.0 in users && p.1 in ids && BitmapKey(m, p.0) in present))
    + (set u, i | u in users && BitmapKey(m, u) in present && i in ids && i in Bits(bitmaps, BitmapKey(m, u)) :: (u, i))
  }

  /** The cache is the truth: a row of a written-back customer is in the table exactly when its bit is set. */
  lemma AllSyncedMeaning(rows: set<(string, int)>, m: Mark, users: set<string>, ids: set<int>,
                         present: set<string>, bitmaps: map<string, set<int>>, p: (string, int))
    ensures p in AllSynced(rows, m, users, ids, present, bitmaps) <==>
            if p.0 in users && p.1 in ids && BitmapKey(m, p.0) in present
            then p.1 in Bits(bitmaps, BitmapKey(m, p.0))
            else p in rows
  {
    if p.0 in users && p.1 in ids && BitmapKey(m, p.0) in present && p.1 in Bits(bitmaps, BitmapKey(m, p.0)) {
      var (u, i) := p;
      assert u in users && BitmapKey(m, u) in present && i in ids && i in Bits(bitmaps, BitmapKey(m, u));
    }
  }

  /** Writing the same cache back twice is writing it back once. */
  lemma AllSyncedIdempotent(rows: set<(string, int)>, m: Mark, users: set<string>, ids: set<int>,
                            present: set<string>, bitmaps: map<string, set<int>>)
    ensures AllSynced(AllSynced(rows, m, users, ids, present, bitmaps), m, users, ids, present, bitmaps)
         == AllSynced(rows, m, users, ids, present, bitmaps)
  {
    var once := AllSynced(rows, m, users, ids, present, bitmaps);
    forall p
      ensures p in AllSynced(once, m, users, ids, present, bitmaps) <==> p in once
    {
      AllSyncedMeaning(once, m, users, ids, present, bitmaps, p);
      AllSyncedMeaning(rows, m, users, ids, present, bitmaps, p);
    }
  }

  /** One more customer written back, their bitmap looked up in a cache that still holds it. */
  lemma AllSyncedStep(r0: set<(string, int)>, m: Mark, users: set<string>, uid: string, ids: set<int>,
                      present: set<string>, bitmaps: map<string, set<int>>,
                      present2: set<string>, bitmaps2: map<string, set<int>>)
    requires uid !in users
    requires BitmapKey(m, uid) in present2 <==> BitmapKey(m, uid) in present
    requires Bits(bitmaps2, BitmapKey(m, uid)) == Bits(bitmaps, BitmapKey(m, uid))
    ensures Synced(AllSynced(r0, m, users, ids, present, bitmaps), uid,
                   if BitmapKey(m, uid) in present2 then ids else {}, Bits(bitmaps2, BitmapKey(m, uid)))
         == AllSynced(r0, m, users + {uid}, ids, present, bitmaps)
  {
    var a := Synced(AllSynced(r0, m, users, ids, present, bitmaps), uid,
                    if BitmapKey(m, uid) in present2 then ids else {}, Bits(bitmaps2, BitmapKey(m, uid)));
    var b := AllSynced(r0, m, users + {uid}, ids, present, bitmaps);
    forall p
      ensures p in a <==> p in b
    {
      AllSyncedMeaning(r0, m, users, ids, present, bitmaps, p);
      AllSyncedMeaning(r0, m, users + {uid}, ids, present, bitmaps, p);
      if p.0 == uid && p.1 in ids && BitmapKey(m, uid) in present && p.1 in Bits(bitmaps, BitmapKey(m, uid)) {
        var (u, i) := p;
        assert i in (if BitmapKey(m, uid) in present2 then ids else {}) && i in Bits(bitmaps2, BitmapKey(m, uid));
        assert p == (uid, i);
      }
    }
  }

  /** The four link tables once every customer in `users` is written back. */
  function AllUsersSynced(t: Tables, users: set<string>, present: set<string>, bitmaps: map<string, set<int>>): Tables
  {
    t.(collectedDish := AllSynced(t.collectedDish, LikedDish, users, t.dishIds, present, bitmaps),
       favoriteDish := AllSynced(t.favoriteDish, CollectedDish, users, t.dishIds, present, bitmaps),
       willBuyDish := AllSynced(t.willBuyDish, WillBuyDish, users, t.dishIds, present, bitmaps),
       collectedStore := AllSynced(t.collectedStore, CollectedStore, users, t.storeIds, present, bitmaps))
  }

  /** For no customers, nothing is written back. */
  lemma AllSyncedNothing(rows: set<(string, int)>, m: Mark, ids: set<int>,
                         present: set<string>, bitmaps: map<string, set<int>>)
    ensures AllSynced(rows, m, {}, ids, present, bitmaps) == rows
  {
  }

  /** Before the job, nothing is written back. */
  lemma AllUsersNothing(t: Tables, present: set<string>, bitmaps: map<string, set<int>>)
    ensures AllUsersSynced(t, {}, present, bitmaps) == t
  {
    var a := AllUsersSynced(t, {}, present, bitmaps);
    AllSyncedNothing(t.collectedDish, LikedDish, t.dishIds, present, bitmaps);
    AllSyncedNothing(t.favoriteDish, CollectedDish, t.dishIds, present, bitmaps);
    AllSyncedNothing(t.willBuyDish, WillBuyDish, t.dishIds, present, bitmaps);
    AllSyncedNothing(t.collectedStore, CollectedStore, t.storeIds, present, bitmaps);
    assert a.collectedDish == t.collectedDish && a.favoriteDish == t.favoriteDish;
    assert a.willBuyDish == t.willBuyDish && a.collectedStore == t.collectedStore;
  }

  /** One more customer written back, in all four tables. */
  lemma AllUsersStep(t0: Tables, users: set<string>, uid: string, present: set<string>, bitmaps: map<string, set<int>>,
                     present2: set<string>, bitmaps2: map<string, set<int>>)
    requires uid !in users
    requires forall m :: BitmapKey(m, uid) in present2 <==> BitmapKey(m, uid) in present
    requires forall m :: Bits(bitmaps2, BitmapKey(m, uid)) == Bits(bitmaps, BitmapKey(m, uid))
    ensures UserSynced(AllUsersSynced(t0, users, present, bitmaps), uid, present2, bitmaps2)
         == AllUsersSynced(t0, users + {uid}, present, bitmaps)
  {
    var a := UserSynced(AllUsersSynced(t0, users, present, bitmaps), uid, present2, bitmaps2);
    var b := AllUsersSynced(t0, users + {uid}, present, bitmaps);
    AllSyncedStep(t0.collectedDish, LikedDish, users, uid, t0.dishIds, present, bitmaps, present2, bitmaps2);
    AllSyncedStep(t0.favoriteDish, CollectedDish, users, uid, t0.dishIds, present, bitmaps, present2, bitmaps2);
    AllSyncedStep(t0.willBuyDish, WillBuyDish, users, uid, t0.dishIds, present, bitmaps, present2, bitmaps2);
    AllSyncedStep(t0.collectedStore, CollectedStore, users, uid, t0.storeIds, present, bitmaps, present2, bitmaps2);
    assert a.collectedDish == b.collectedDish && a.favoriteDish == b.favoriteDish;
    assert a.willBuyDish == b.willBuyDish && a.collectedStore == b.collectedStore;
  }

  /** Deleting the bitmaps of the customers before `uid` keeps those of `uid`. */
  lemma KeptInCache(c0: CacheState, done: set<string>, uid: string, m: Mark)
    requires uid !in done
    ensures BitmapKey(m, uid) in Present(Without(c0, AllUserKeys(done))) <==> BitmapKey(m, uid) in Present(c0)
    ensures Bits(Without(c0, AllUserKeys(done)).bitmaps, BitmapKey(m, uid)) == Bits(c0.bitmaps, BitmapKey(m, uid))
  {
    OtherUserKeys(done, uid, m);
  }

  /**
   * One more customer written back, their bitmaps looked up in the cache
   * from which the bitmaps of the customers before them have been deleted.
   */
  lemma AllUsersStepInCache(t0: Tables, done: set<string>, uid: string, c0: CacheState, gone: set<string>)
    requires uid !in done && gone == AllUserKeys(done)
    ensures UserSynced(AllUsersSynced(t0, done, Present(c0), c0.bitmaps), uid, Present(Without(c0, gone)), Without(c0, gone).bitmaps)
         == AllUsersSynced(t0, done + {uid}, Present(c0), c0.bitmaps)
  {
    var c := Without(c0, gone);
    forall m
      ensures BitmapKey(m, uid) in Present(c) <==> BitmapKey(m, uid) in Present(c0)
      ensures Bits(c.bitmaps, BitmapKey(m, uid)) == Bits(c0.bitmaps, BitmapKey(m, uid))
    {
      KeptInCache(c0, done, uid, m);
    }
    AllUsersStep(t0, done, uid, Present(c0), c0.bitmaps, Present(c), c.bitmaps);
  }

  /**
   * The first job: for every customer, writes their cached marks back to
   * the link tables and drops their four bitmaps, so that the next read
   * rebuilds them from the tables.
   */
  method DoTask1(db: Db, r: Redis)
    modifies db, r
    ensures db.t == AllUsersSynced(old(db.t), old(db.t.userIds), old(PresentKeys(r)), old(r.bitmaps))
    ensures CacheOf(r) == Without(old(CacheOf(r)), AllUserKeys(old(db.t.userIds)))
  {
    ghost var t0 := db.t;
    ghost var present := PresentKeys(r);
    ghost var c0 := CacheOf(r);
    ghost var b0 := c0.bitmaps;
    var users := db.t.userIds;
    var todo := users;
    ghost var done: set<string> := {};
    ghost var gone: set<string> := {};
    AllUsersNothing(t0, present, b0);
    WithoutNothing(c0);
    while todo != {}
      invariant todo <= users && done == users - todo
      invariant db.t == AllUsersSynced(t0, done, present, b0)
      invariant gone == AllUserKeys(done)
      invariant CacheOf(r) == Without(c0, gone)
      decreases todo
    {
      var uid := Choose(todo);
      ghost var t1, present1, bitmaps1 := db.t, PresentKeys(r), r.bitmaps;
      AllUsersStepInCache(t0, done, uid, c0, gone);
      SyncUser(db, r, uid);
      assert db.t == UserSynced(t1, uid, present1, bitmaps1) == AllUsersSynced(t0, done + {uid}, present, b0);
      DeleteUserKeys(r, uid);
      AllUserKeysAdd(done, uid);
      VisitOne(users, todo, done, uid);
      WithoutWithout(c0, gone, UserKeys(uid));
      gone := gone + UserKeys(uid);
      done := done + {uid};
      todo := todo - {uid};
    }
    assert done == users;
  }

  // ---------------------------------------------------------------------
  // The end-of-day job.
  // ---------------------------------------------------------------------

  /**
   * A store's sales for the day, as the job reads them when the day's
   * counter is absent it counts 0; when present, the store's field is read
   * and unboxed, so a store that sold nothing today (no field) raises a
   * null-pointer exception, here None.
   */
  function TodaySalesAsWritten(dayPresent: bool, day: map<int, int>, sid: int): (n: Option<int>)
    ensures n.None? <==> dayPresent && sid !in day
  {
    if !dayPresent then Some(0) else if sid in day then Some(day[sid]) else None
  }

  /** A store's sales for the day, a missing counter or field counting as 0. */
  function TodaySales(dayPresent: bool, day: map<int, int>, sid: int): (n: int)
    ensures TodaySalesAsWritten(dayPresent, day, sid).Some? ==> n == TodaySalesAsWritten(dayPresent, day, sid).value
    ensures TodaySalesAsWritten(dayPresent, day, sid).None? ==> n == 0
  {
    if dayPresent && sid in day then day[sid] else 0
  }

  /** The sale-log rows of the stores `ks`, in that order. */
  function SaleRows(ks: seq<int>, date: int, dayPresent: bool, day: map<int, int>): (rows: seq<SaleLogRow>)
    ensures |rows| == |ks|
    ensures forall i :: 0 <= i < |ks| ==> rows[i] == SaleLogRow(date, ks[i], TodaySales(dayPresent, day, ks[i]))
  {
    if ks == [] then [] else [SaleLogRow(date, ks[0], TodaySales(dayPresent, day, ks[0]))] + SaleRows(ks[1..], date, dayPresent, day)
  }

  /** The rows as the job writes them: None once a store's read raises, and nothing after it. */
  function SaleRowsAsWritten(ks: seq<int>, date: int, dayPresent: bool, day: map<int, int>): (rows: Option<seq<SaleLogRow>>)
    ensures rows.Some? ==> rows.value == SaleRows(ks, date, dayPresent, day)
  {
    if ks == [] then Some([])
    else match TodaySalesAsWritten(dayPresent, day, ks[0])
      case None => None
      case Some(n) =>
        match SaleRowsAsWritten(ks[1..], date, dayPresent, day)
        case None => None
        case Some(rest) => Some([SaleLogRow(date, ks[0], n)] + rest)
  }

  /** As written, the job completes exactly when the day's counter is absent or has a field for every store. */
  lemma {:induction false} SaleRowsAsWrittenAborts(ks: seq<int>, date: int, dayPresent: bool, day: map<int, int>)
    ensures SaleRowsAsWritten(ks, date, dayPresent, day).None? <==> dayPresent && exists i :: 0 <= i < |ks| && ks[i] !in day
    ensures SaleRowsAsWritten(ks, date, dayPresent, day).Some? ==>
              SaleRowsAsWritten(ks, date, dayPresent, day).value == SaleRows(ks, date, dayPresent, day)
  {
    if ks != [] {
      SaleRowsAsWrittenAborts(ks[1..], date, dayPresent, day);
      if dayPresent && (exists i :: 0 <= i < |ks[1..]| && ks[1..][i] !in day) {
        var i :| 0 <= i < |ks[1..]| && ks[1..][i] !in day;
        assert ks[i + 1] !in day;
      }
      if dayPresent && (exists i :: 0 <= i < |ks| && ks[i] !in day) && ks[0] in day {
        var i :| 0 <= i < |ks| && ks[i] !in day;
        assert i != 0 && ks[1..][i - 1] !in day;
      }
    }
  }

  /** Two stores, one of which sold nothing today: as written the job raises, where it should log 0 for it. */
  lemma UnsoldStoreAbortsAsWritten()
    ensures SaleRowsAsWritten([1, 2], 0, true, map[1 := 4]) == None
    ensures SaleRows([1, 2], 0, true, map[1 := 4]) == [SaleLogRow(0, 1, 4), SaleLogRow(0, 2, 0)]
  {
    assert [1, 2][1..] == [2];
  }

  /** Appending a store appends its row. */
  lemma {:induction false} SaleRowsAppend(ks: seq<int>, sid: int, date: int, dayPresent: bool, day: map<int, int>)
    ensures SaleRows(ks + [sid], date, dayPresent, day) ==
            SaleRows(ks, date, dayPresent, day) + [SaleLogRow(date, sid, TodaySales(dayPresent, day, sid))]
  {
    var a := SaleRows(ks + [sid], date, dayPresent, day);
    var b := SaleRows(ks, date, dayPresent, day) + [SaleLogRow(date, sid, TodaySales(dayPresent, day, sid))];
    assert |a| == |b|;
    forall i | 0 <= i < |a|
      ensures a[i] == b[i]
    {
      assert (ks + [sid])[i] == if i < |ks| then ks[i] else sid;
    }
  }

  /** A customer's discount records with every count of a dish in `ds` set to 0. */
  function ZeroOn(m: map<int, int>, ds: set<int>): (z: map<int, int>)
    ensures z.Keys == m.Keys
    ensures forall d :: d in z && d in ds ==> z[d] == 0
    ensures forall d :: d in z && d !in ds ==> z[d] == m[d]
  {
    map d | d in m :: if d in ds then 0 else m[d]
  }

  /** Logging one more store's row extends the log by that store's entry of `SaleRows`. */
  lemma SaleLogStep(t0: Tables, ks: seq<int>, sid: int, date: int, dayPresent: bool, day: map<int, int>)
    ensures InsertSaleLog(t0.(saleLog := t0.saleLog + SaleRows(ks, date, dayPresent, day)),
                          SaleLogRow(date, sid, TodaySales(dayPresent, day, sid)))
         == t0.(saleLog := t0.saleLog + SaleRows(ks + [sid], date, dayPresent, day))
  {
    SaleRowsAppend(ks, sid, date, dayPresent, day);
    var row := SaleLogRow(date, sid, TodaySales(dayPresent, day, sid));
    assert t0.saleLog + SaleRows(ks, date, dayPresent, day) + [row] == t0.saleLog + (SaleRows(ks, date, dayPresent, day) + [row]);
  }

  /** The discount records once every customer in `users` has had theirs reset. */
  function ResetAll(ud: map<string, map<int, int>>, users: set<string>): (r: map<string, map<int, int>>)
    ensures r.Keys == ud.Keys
    ensures forall u :: u in r ==> r[u].Keys == ud[u].Keys
    ensures forall u, d :: u in r && u in users && d in r[u] ==> r[u][d] == 0
    ensures forall u :: u in r && u !in users ==> r[u] == ud[u]
  {
    map u | u in ud :: if u in users then ZeroOn(ud[u], ud[u].Keys) else ud[u]
  }

  lemma ResetAllNothing(ud: map<string, map<int, int>>)
    ensures ResetAll(ud, {}) == ud
  { }

  /** Resets one customer's discount records, one dish at a time. */
  method ResetUser(db: Db, uid: string)
    modifies db
    ensures db.t == old(db.t).(usedDiscount :=
      if uid in old(db.t.usedDiscount)
      then old(db.t.usedDiscount)[uid := ZeroOn(old(db.t.usedDiscount)[uid], old(db.t.usedDiscount)[uid].Keys)]
      else old(db.t.usedDiscount))
  {
    ghost var t0 := db.t;
    var m := UsedDiscountOf(db.t, uid);
    var todo := m.Keys;
    ghost var done: set<int> := {};
    if uid in t0.usedDiscount {
      assert ZeroOn(m, {}) == m;
    }
    while todo != {}
      invariant todo <= m.Keys && done == m.Keys - todo
      invariant db.t == t0.(usedDiscount := if uid in t0.usedDiscount then t0.usedDiscount[uid := ZeroOn(m, done)] else t0.usedDiscount)
      decreases todo
    {
      var did := Choose(todo);
      db.t := UpdateUsedDiscountCountByANewVal(db.t, uid, did, 0);
      assert ZeroOn(m, done)[did := 0] == ZeroOn(m, done + {did});
      done := done + {did};
      todo := todo - {did};
    }
    assert done == m.Keys;
  }

  /** One more customer reset. */
  lemma ResetAllStep(ud: map<string, map<int, int>>, users: set<string>, uid: string)
    requires uid !in users
    ensures (var r := ResetAll(ud, users);
             (if uid in r then r[uid := ZeroOn(r[uid], r[uid].Keys)] else r) == ResetAll(ud, users + {uid}))
  {
  }

  /**
   * The second job: logs each store's sales for the day, clears the
   * waiting queue, and sets every customer's discounted units used back to
   * 0. `today` is the rendering of the day the counter is kept under and
   * `date` the day's timestamp; `ks` is the order the stores were visited in.
   */
  method DoTask2(db: Db, r: Redis, today: string, date: int) returns (ghost ks: seq<int>)
    modifies db, r
    ensures Enumerates(ks, old(db.t.storeIds))
    ensures db.t.saleLog == old(db.t.saleLog) +
      SaleRows(ks, date, old(r.Exists(TodayDateKey(today))), old(r.HashOf(TodayDateKey(today))))
    ensures db.t.usedDiscount == ResetAll(old(db.t.usedDiscount), old(db.t.userIds))
    ensures db.t == old(db.t).(saleLog := db.t.saleLog, usedDiscount := db.t.usedDiscount)
    ensures r.values == old(r.values) - {DISH_WAITING_QUEUE_KEY} && r.hashes == old(r.hashes) - {DISH_WAITING_QUEUE_KEY}
    ensures r.bitmaps == old(r.bitmaps) - {DISH_WAITING_QUEUE_KEY} && r.lists == old(r.lists) - {DISH_WAITING_QUEUE_KEY}
    ensures r.expiry == old(r.expiry) - {DISH_WAITING_QUEUE_KEY}
  {
    ghost var t0 := db.t;
    var key := TodayDateKey(today);
    var present := r.Exists(key);
    var day := r.HashOf(key);
    var todo := db.t.storeIds;
    ks := [];
    while todo != {}
      invariant todo <= t0.storeIds
      invariant Enumerates(ks, t0.storeIds - todo)
      invariant db.t == t0.(saleLog := t0.saleLog + SaleRows(ks, date, present, day))
      modifies db
      decreases todo
    {
      var id := Choose(todo);
      var num := 0;
      if r.Exists(key) {
        num := GetOrZero(r.HashOf(key), id);
      }
      assert num == TodaySales(present, day, id);
      SaleLogStep(t0, ks, id, date, present, day);
      EnumerateOne(ks, t0.storeIds, todo, id);
      db.t := InsertSaleLog(db.t, SaleLogRow(date, id, num));
      ks := ks + [id];
      todo := todo - {id};
    }
    assert t0.storeIds - todo == t0.storeIds;
    r.Delete(DISH_WAITING_QUEUE_KEY);
    ghost var t1 := db.t;
    var users := db.t.userIds;
    var left := users;
    ghost var done: set<string> := {};
    ResetAllNothing(t0.usedDiscount);
    while left != {}
      invariant left <= users && done == users - left
      invariant db.t == t1.(usedDiscount := ResetAll(t0.usedDiscount, done))
      modifies db
      decreases left
    {
      var uid := Choose(left);
      ResetUser(db, uid);
      ResetAllStep(t0.usedDiscount, done, uid);
      VisitOne(users, left, done, uid);
      done := done + {uid};
      left := left - {uid};
    }
    assert done == users;
  }
}
