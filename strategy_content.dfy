/**
 * The strategy registry: the four placement strategies registered under
 * the codes 0 to 3, the one currently selected, and the calls that go
 * through to it. The serialize strategy lives here too, since all of it is
 * two constant answers.
 */
module StrategyContent {
  import opened Common
  import opened RedisStore
  import opened Database
  import opened Messages
  import opened CacheManager
  import opened Strategies

  datatype StrategyKind = HighConcurrency | Optimistic | Pessimistic | Serialize

  /** The registry as its constructor fills it. */
  const Registered: map<int, StrategyKind> :=
    map[0 := HighConcurrency, 1 := Optimistic, 2 := Pessimistic, 3 := Serialize]

  /** Exactly the codes 0 to 3 are registered, each under its own strategy. */
  lemma RegisteredCodes()
    ensures forall t :: t in Registered <==> 0 <= t <= 3
    ensures forall t1, t2 :: t1 in Registered && t2 in Registered && t1 != t2 ==> Registered[t1] != Registered[t2]
    ensures Registered[0] == HighConcurrency && Registered[1] == Optimistic
    ensures Registered[2] == Pessimistic && Registered[3] == Serialize
  {
  }

  class Context {
    /** The selected strategy; None until one is selected, or after selecting an unregistered code. */
    var strategy: Option<StrategyKind>

    constructor ()
      ensures strategy == None
    {
      strategy := None;
    }

    /** Selects the strategy registered under `t`; an unregistered code selects none. */
    method SetStrategy(t: int)
      modifies this
      ensures t in Registered ==> strategy == Some(Registered[t])
      ensures t !in Registered ==> strategy == None
    {
      if t in Registered {
        strategy := Some(Registered[t]);
      } else {
        strategy := None;
      }
    }

    /** The selected strategy's start-up hook: only the high-concurrency one does anything. */
    method InitMethod(r: Redis, db: Db)
      modifies r
      ensures strategy == Some(HighConcurrency) ==>
        forall s, id :: s in db.t.storeIds && id in StockOf(db.t, s) ==>
          r.HashGet(DishStockCacheKey(s), id) == Some(StockOf(db.t, s)[id])
      ensures strategy != Some(HighConcurrency) ==> unchanged(r)
    {
      if strategy == Some(HighConcurrency) {
        HighConcurrencyInit(r, db);
      }
    }

    /**
     * What placing an order with the selected strategy does: it answers and
     * changes what that strategy answers and changes. With none selected the
     * call fails (a null dereference in the source) before anything changes.
     * The serialize strategy answers with no reply and touches nothing.
     */
    twostate predicate Executed(r: Redis, db: Db, b: Broker, locks: LockMap, o: Order, combos: ComboTable, f: Fresh,
                                out: Outcome, checked: map<int, int>, new answer: Option<bool>)
      reads this, r, db, b, locks
    {
      && (strategy == None ==> out == Failed(NoStrategy) && unchanged(r, db, b, locks))
      && (strategy == Some(HighConcurrency) ==>
            HighConcurrencyPlaced(r, db, b, o, combos, f, out, checked, answer) && unchanged(db, locks))
      && (strategy == Some(Optimistic) ==> OptimisticPlaced(b, o, combos, f, out) && unchanged(r, db, locks))
      && (strategy == Some(Pessimistic) ==> PessimisticPlaced(db, b, locks, o, combos, f, out) && unchanged(r))
      && (strategy == Some(Serialize) ==> out == Placed(None) && unchanged(r, db, b, locks))
    }

    /** Places an order with the selected strategy and answers what it answers. */
    method Execute(r: Redis, db: Db, b: Broker, locks: LockMap, o: Order, combos: ComboTable, f: Fresh)
      returns (out: Outcome, ghost checked: map<int, int>, ghost answer: Option<bool>)
      modifies r, db, b, locks
      ensures Executed(r, db, b, locks, o, combos, f, out, checked, answer)
    {
      checked, answer := map[], None;
      match strategy {
        case None =>
          out := Failed(NoStrategy);
        case Some(HighConcurrency) =>
          out, checked, answer := HighConcurrencyPlace(r, db, b, o, combos, f);
        case Some(Optimistic) =>
          out := OptimisticPlace(b, o, combos, f);
        case Some(Pessimistic) =>
          out := PessimisticPlace(db, b, locks, o, combos, f);
        case Some(Serialize) =>
          out := Placed(None);
      }
    }

    /**
     * The completion marker as the selected strategy reports it: the
     * serialize strategy always answers 1, the others read the marker. None
     * when no strategy is selected or the marker cannot be read.
     */
    function IsCompleteOf(r: Redis, orderId: string): (v: Option<int>)
      reads this, r
      ensures strategy == None ==> v == None
      ensures strategy == Some(Serialize) ==> v == Some(1)
      ensures strategy.Some? && strategy != Some(Serialize) && !HasKey(r, OrderMessageCacheKey(orderId)) ==> v == Some(0)
      ensures strategy.Some? && strategy != Some(Serialize) && HasKey(r, OrderMessageCacheKey(orderId)) ==>
        (v.Some? <==> OrderMessageCacheKey(orderId) in r.values) &&
        (v.Some? ==> v.value == r.values[OrderMessageCacheKey(orderId)])
    {
      match strategy
      case None => None
      case Some(Serialize) => Some(1)
      case Some(_) => IsComplete(r, orderId)
    }
  }
}
