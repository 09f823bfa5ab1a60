/**
 * The like counter kept by the customer controller. Every like or unlike
 * the user service accepts moves a per-dish delta in one cache hash; once a
 * delta reaches the flush threshold (in either direction) the controller
 * hands it to its observers, which write it to the dish table, and starts
 * the delta again from 0. The threshold is a constant of the controller's
 * base class, which is not part of this model, so it is a parameter here;
 * the user service's answer is one too.
 */
module UserController {
  import opened Common
  import opened RedisStore
  import opened CacheManager

  /** A delta handed to the observers: which counter (0 is the like counter), the dish, the delta reached. */
  datatype Notification = Notification(kind: int, dishId: int, delta: int)

  /** The answer of a request: the parameters were refused, or the user service's answer (None: null). */
  datatype Reply = ParamError | Answered(res: Option<string>)

  /** The observer counter the like flushes go to. */
  const LIKE_COUNTER: int := 0

  /** The user service's answer that the like was recorded. */
  const OK: string := "OK"

  /** The delta a like brings `h`'s entry for the dish to, before any flush. */
  function LikeDelta(h: map<int, int>, dishId: int): int
  {
    GetOrZero(h, dishId) + 1
  }

  /** The delta an unlike brings `h`'s entry for the dish to, before any flush. */
  function UnlikeDelta(h: map<int, int>, dishId: int): int
  {
    GetOrZero(h, dishId) - 1
  }

  /**
   * The like hash after one like: an absent entry is first put at 0, then
   * raised by 1, and put back to 0 once it reaches the threshold.
   */
  function Liked(h: map<int, int>, dishId: int, flush: int): (r: map<int, int>)
    ensures r.Keys == h.Keys + {dishId}
    ensures forall d :: d in h && d != dishId ==> r[d] == h[d]
    ensures LikeDelta(h, dishId) >= flush ==> r[dishId] == 0
    ensures LikeDelta(h, dishId) < flush ==> r[dishId] == LikeDelta(h, dishId)
  {
    var h1 := if dishId in h then h else h[dishId := 0];
    var h2 := AddTo(h1, dishId, 1);
    if h2[dishId] >= flush then h2[dishId := 0] else h2
  }

  /**
   * The like hash after one unlike: the entry (an absent one counting as 0)
   * goes down by 1, and back to 0 once it reaches minus the threshold.
   */
  function Unliked(h: map<int, int>, dishId: int, flush: int): (r: map<int, int>)
    ensures r.Keys == h.Keys + {dishId}
    ensures forall d :: d in h && d != dishId ==> r[d] == h[d]
    ensures UnlikeDelta(h, dishId) <= -flush ==> r[dishId] == 0
    ensures UnlikeDelta(h, dishId) > -flush ==> r[dishId] == UnlikeDelta(h, dishId)
  {
    var h1 := AddTo(h, dishId, -1);
    if h1[dishId] <= -flush then h1[dishId := 0] else h1
  }

  /** Every delta in the hash is strictly inside the flush threshold in both directions. */
  predicate WithinFlush(h: map<int, int>, flush: int)
  {
    forall d :: d in h ==> -flush < h[d] < flush
  }

  /** After a like the dish's delta is below the threshold, whatever it was before. */
  lemma LikeStaysBelowFlush(h: map<int, int>, dishId: int, flush: int)
    requires flush > 0
    ensures Liked(h, dishId, flush)[dishId] < flush
  {
  }

  /** After an unlike the dish's delta is above minus the threshold, whatever it was before. */
  lemma UnlikeStaysAboveFlush(h: map<int, int>, dishId: int, flush: int)
    requires flush > 0
    ensures Unliked(h, dishId, flush)[dishId] > -flush
  {
  }

  /** Likes and unlikes keep every delta inside the threshold. */
  lemma LikesKeepWithinFlush(h: map<int, int>, dishId: int, flush: int)
    requires flush > 0 && WithinFlush(h, flush)
    ensures WithinFlush(Liked(h, dishId, flush), flush)
    ensures WithinFlush(Unliked(h, dishId, flush), flush)
  {
  }

  /**
   * No like is lost: the delta left in the hash plus the delta handed to the
   * observers is the old delta moved by one.
   */
  lemma LikesConserved(h: map<int, int>, dishId: int, flush: int)
    ensures Liked(h, dishId, flush)[dishId] + (if LikeDelta(h, dishId) >= flush then LikeDelta(h, dishId) else 0)
         == GetOrZero(h, dishId) + 1
    ensures Unliked(h, dishId, flush)[dishId] + (if UnlikeDelta(h, dishId) <= -flush then UnlikeDelta(h, dishId) else 0)
         == GetOrZero(h, dishId) - 1
  {
  }

  /** An unlike undoes a like that flushed nothing, and a like undoes an unlike that flushed nothing. */
  lemma LikeUnlikeRoundTrip(h: map<int, int>, dishId: int, flush: int)
    requires dishId in h
    ensures LikeDelta(h, dishId) < flush && h[dishId] > -flush ==> Unliked(Liked(h, dishId, flush), dishId, flush) == h
    ensures UnlikeDelta(h, dishId) > -flush && h[dishId] < flush ==> Liked(Unliked(h, dishId, flush), dishId, flush) == h
  {
    if LikeDelta(h, dishId) < flush && h[dishId] > -flush {
      assert Unliked(Liked(h, dishId, flush), dishId, flush) == h;
    }
    if UnlikeDelta(h, dishId) > -flush && h[dishId] < flush {
      assert Liked(Unliked(h, dishId, flush), dishId, flush) == h;
    }
  }

  /** The customer controller: the flushes it has handed to its observers so far. */
  class Controller {
    var notified: seq<Notification>

    constructor ()
      ensures notified == []
    {
      notified := [];
    }

    /**
     * A like for `dishParam` (None: not a number) by `userId` (empty: null
     * or empty). The user service answers `answer`; only an "OK" moves the
     * counter. `flush` is the threshold.
     */
    method AddUserLikeDish(r: Redis, userId: string, dishParam: Option<int>, answer: Option<string>, flush: int)
      returns (reply: Reply)
      modifies this, r`hashes
      ensures userId == "" || dishParam.None? ==>
        reply == ParamError && r.hashes == old(r.hashes) && notified == old(notified)
      ensures userId != "" && dishParam.Some? ==> reply == Answered(answer)
      ensures userId != "" && dishParam.Some? && answer == Some(OK) ==>
        var h := old(r.HashOf(DISH_LIKE_NUM_CACHE_KEY));
        var d := dishParam.value;
        && r.hashes == old(r.hashes)[DISH_LIKE_NUM_CACHE_KEY := Liked(h, d, flush)]
        && notified == old(notified) +
             (if LikeDelta(h, d) >= flush then [Notification(LIKE_COUNTER, d, LikeDelta(h, d))] else [])
      ensures userId != "" && dishParam.Some? && answer != Some(OK) ==>
        r.hashes == old(r.hashes) && notified == old(notified)
    {
      if userId == "" || dishParam.None? {
        return ParamError;
      }
      var dishId := dishParam.value;
      reply := Answered(answer);
      if answer == Some(OK) {
        var key := DISH_LIKE_NUM_CACHE_KEY;
        ghost var h := r.HashOf(key);
        if dishId !in r.HashOf(key) {
          r.HashPut(key, dishId, 0);
        }
        r.HashIncrement(key, dishId, 1);
        var now := r.HashOf(key)[dishId];
        if now >= flush {
          notified := notified + [Notification(LIKE_COUNTER, dishId, now)];
          r.HashPut(key, dishId, 0);
        }
        assert r.HashOf(key) == Liked(h, dishId, flush);
      }
    }

    /**
     * An unlike for `dishParam` (None: not a number). The user's identifier
     * is not checked here; only an "OK" from the user service moves the
     * counter.
     */
    method RemoveUserLikeDish(r: Redis, userId: string, dishParam: Option<int>, answer: Option<string>, flush: int)
      returns (res: Option<string>)
      modifies this, r`hashes
      ensures dishParam.None? ==> res == None && r.hashes == old(r.hashes) && notified == old(notified)
      ensures dishParam.Some? ==> res == answer
      ensures dishParam.Some? && answer == Some(OK) ==>
        var h := old(r.HashOf(DISH_LIKE_NUM_CACHE_KEY));
        var d := dishParam.value;
        && r.hashes == old(r.hashes)[DISH_LIKE_NUM_CACHE_KEY := Unliked(h, d, flush)]
        && notified == old(notified) +
             (if UnlikeDelta(h, d) <= -flush then [Notification(LIKE_COUNTER, d, UnlikeDelta(h, d))] else [])
      ensures dishParam.Some? && answer != Some(OK) ==> r.hashes == old(r.hashes) && notified == old(notified)
    {
      if dishParam.None? {
        return None;
      }
      var dishId := dishParam.value;
      res := answer;
      if answer == Some(OK) {
        var key := DISH_LIKE_NUM_CACHE_KEY;
        ghost var h := r.HashOf(key);
        r.HashIncrement(key, dishId, -1);
        var now := r.HashOf(key)[dishId];
        if now <= -flush {
          notified := notified + [Notification(LIKE_COUNTER, dishId, now)];
          r.HashPut(key, dishId, 0);
        }
        assert r.HashOf(key) == Unliked(h, dishId, flush);
      }
    }
  }
}
