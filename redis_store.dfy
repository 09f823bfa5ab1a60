/**
 * The key-value cache the engine talks to, reduced to the commands it
 * uses. Every key holds one kind of value: an integer, a hash from integer
 * fields to integers, a bitmap (the set of offsets whose bit is 1) or a
 * list of waiting-queue entries. A key may carry a time to live in seconds;
 * time passes only where a caller says so, with `Elapse`.
 */
module RedisStore {
  import opened Common

  /** One unit of a dish waiting to be prepared, stamped with when it was queued. */
  datatype QueueEntry = QueueEntry(dishId: int, timestamp: int)

  class Redis {
    var values: map<string, int>
    var hashes: map<string, map<int, int>>
    var bitmaps: map<string, set<int>>
    var lists: map<string, seq<QueueEntry>>
    var expiry: map<string, int>

    constructor ()
      ensures values == map[] && hashes == map[] && bitmaps == map[] && lists == map[] && expiry == map[]
    {
      values, hashes, bitmaps, lists, expiry := map[], map[], map[], map[], map[];
    }

    /** EXISTS: the key holds a value of some kind. */
    predicate Exists(key: string)
      reads this
    {
      key in values || key in hashes || key in bitmaps || key in lists
    }

    /** TTL: -2 for a missing key, -1 for a key without a time to live, else the seconds left. */
    function GetExpire(key: string): int
      reads this
    {
      if !Exists(key) then -2 else if key in expiry then expiry[key] else -1
    }

    /** The fields of a hash; a missing hash has none. */
    function HashOf(key: string): map<int, int>
      reads this
    {
      if key in hashes then hashes[key] else map[]
    }

    /** HGET: a field of a hash, None (a Java null) when the hash or the field is missing. */
    function HashGet(key: string, field: int): Option<int>
      reads this
    {
      if field in HashOf(key) then Some(HashOf(key)[field]) else None
    }

    /** GETBIT: an offset never set reads as 0. */
    predicate GetBit(key: string, offset: int)
      reads this
    {
      key in bitmaps && offset in bitmaps[key]
    }

    function ListOf(key: string): seq<QueueEntry>
      reads this
    {
      if key in lists then lists[key] else []
    }

    /** DEL */
    method Delete(key: string)
      modifies this
      ensures values == old(values) - {key} && hashes == old(hashes) - {key}
      ensures bitmaps == old(bitmaps) - {key} && lists == old(lists) - {key}
      ensures expiry == old(expiry) - {key}
    {
      values := values - {key};
      hashes := hashes - {key};
      bitmaps := bitmaps - {key};
      lists := lists - {key};
      expiry := expiry - {key};
    }

    /**
     * Time passes: every key whose time to live is at most `seconds` is
     * gone, the others have that much less left, and a key without a time
     * to live stays.
     */
    method Elapse(seconds: int)
      requires seconds > 0
      modifies this
      ensures var gone := set k | k in old(expiry) && old(expiry)[k] <= seconds;
        && values == old(values) - gone && hashes == old(hashes) - gone
        && bitmaps == old(bitmaps) - gone && lists == old(lists) - gone
      ensures expiry == map k | k in old(expiry) && old(expiry)[k] > seconds :: old(expiry)[k] - seconds
    {
      var gone := set k | k in expiry && expiry[k] <= seconds;
      values := values - gone;
      hashes := hashes - gone;
      bitmaps := bitmaps - gone;
      lists := lists - gone;
      expiry := map k | k in expiry && expiry[k] > seconds :: expiry[k] - seconds;
    }

    /** EXPIRE: give an existing key a time to live; a missing key is left missing. */
    method Expire(key: string, seconds: int)
      requires seconds > 0
      modifies this`expiry
      ensures expiry == if Exists(key) then old(expiry)[key := seconds] else old(expiry)
    {
      if Exists(key) {
        expiry := expiry[key := seconds];
      }
    }

    /** SET: the key now holds `v` and nothing else, without a time to live. */
    method Set(key: string, v: int)
      modifies this
      ensures values == old(values)[key := v] && hashes == old(hashes) - {key}
      ensures bitmaps == old(bitmaps) - {key} && lists == old(lists) - {key}
      ensures expiry == old(expiry) - {key}
    {
      values := values[key := v];
      hashes := hashes - {key};
      bitmaps := bitmaps - {key};
      lists := lists - {key};
      expiry := expiry - {key};
    }

    /** SETNX: store `v` only if the key does not exist; answer whether it was stored. */
    method SetIfAbsent(key: string, v: int) returns (stored: bool)
      modifies this`values
      ensures stored <==> !old(Exists(key))
      ensures values == if stored then old(values)[key := v] else old(values)
    {
      stored := !Exists(key);
      if stored {
        values := values[key := v];
      }
    }

    /** HSET */
    method HashPut(key: string, field: int, v: int)
      modifies this`hashes
      ensures hashes == old(hashes)[key := old(HashOf(key))[field := v]]
    {
      hashes := hashes[key := HashOf(key)[field := v]];
    }

    /** HINCRBY: a missing hash or field counts as 0. */
    method HashIncrement(key: string, field: int, delta: int)
      modifies this`hashes
      ensures hashes == old(hashes)[key := AddTo(old(HashOf(key)), field, delta)]
    {
      hashes := hashes[key := AddTo(HashOf(key), field, delta)];
    }

    /** SETBIT */
    method SetBit(key: string, offset: int, bit: bool)
      modifies this`bitmaps
      ensures var old_bits := if key in old(bitmaps) then old(bitmaps[key]) else {};
        bitmaps == old(bitmaps)[key := if bit then old_bits + {offset} else old_bits - {offset}]
    {
      var bits := if key in bitmaps then bitmaps[key] else {};
      bitmaps := bitmaps[key := if bit then bits + {offset} else bits - {offset}];
    }

    /** LPUSH */
    method LeftPush(key: string, e: QueueEntry)
      modifies this`lists
      ensures lists == old(lists)[key := [e] + old(ListOf(key))]
    {
      lists := lists[key := [e] + ListOf(key)];
    }
  }

  /** Between two states of the cache, every key other than `key` kept what it held. */
  twostate predicate OnlyKeyChanged(r: Redis, key: string)
    reads r
  {
    && r.values - {key} == old(r.values) - {key}
    && r.hashes - {key} == old(r.hashes) - {key}
    && r.bitmaps - {key} == old(r.bitmaps) - {key}
    && r.lists - {key} == old(r.lists) - {key}
    && r.expiry - {key} == old(r.expiry) - {key}
  }
}
