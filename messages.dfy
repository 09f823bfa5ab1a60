/**
 * The order message that travels from a placement strategy to the
 * background consumer, and the message broker as the list of everything
 * published to it.
 */
module Messages {
  import opened Common

  /**
   * An order message: the per-dish units the placement already took off the
   * cache (None when the strategy leaves no map), the order, and the id the
   * consumer deduplicates on.
   */
  datatype OrderMessage = OrderMessage(dishNumMap: Option<map<int, int>>, order: Order, messageId: string)

  /** The message constructor: the message id is the order's id at construction time. */
  function NewOrderMessage(dishNumMap: Option<map<int, int>>, order: Order): (m: OrderMessage)
    ensures m.messageId == order.id
    ensures m.dishNumMap == dishNumMap && m.order == order
  {
    OrderMessage(dishNumMap, order, order.id)
  }

  /** The id is captured once: later changes to the carried order do not move it. */
  lemma MessageIdCapturedOnce(dishNumMap: Option<map<int, int>>, order: Order, later: Order)
    ensures NewOrderMessage(dishNumMap, order).(order := later).messageId == order.id
  {
  }

  /** What can be published: an order to confirm, an order whose payment was cancelled, a stock rollback. */
  datatype Publication =
    | AddOrder(msg: OrderMessage)
    | PendingPayment(msg: OrderMessage)
    | RollbackStock(dishNumMap: map<int, int>)

  class Broker {
    var sent: seq<Publication>

    constructor ()
      ensures sent == []
    {
      sent := [];
    }

    method Publish(p: Publication)
      modifies this
      ensures sent == old(sent) + [p]
    {
      sent := sent + [p];
    }
  }
}
