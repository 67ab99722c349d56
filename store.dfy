/** The part of the MySQL database that `create_order` and `send_message`
    touch, and the two handlers as methods on it. A committed statement is
    an update of the fields; a handler that faults before committing leaves
    them as they were. */
module Store {
  import opened Orders
  import opened Escalation

  /** The user id the handlers use for the automated responder. */
  const AiId: int := 10

  /** The `chat_type` of every row the `/chat` handler writes. */
  const ClientAi: string := "client_ai"

  /** A row of `orders`. */
  datatype OrderRow = OrderRow(orderId: int, userId: int, totalAmount: int)

  /** A row of `chat_logs`. */
  datatype ChatLogRow = ChatLogRow(senderId: int, receiverId: int, message: string, chatType: string)

  /** The two `chat_logs` rows of one chat turn: the client's message to the
      responder, then the responder's final reply back to the client. */
  function TurnRows(senderId: int, message: string, reply: string): seq<ChatLogRow> {
    [ChatLogRow(senderId, AiId, message, ClientAi), ChatLogRow(AiId, senderId, reply, ClientAi)]
  }

  /** Rows `2k` and `2k+1` of `log` are one chat turn: a client-to-responder
      row answered by a responder-to-same-client row. */
  ghost predicate TurnAt(log: seq<ChatLogRow>, k: int)
    requires 0 <= k && 2 * k + 1 < |log|
  {
    && log[2 * k].receiverId == AiId
    && log[2 * k + 1].senderId == AiId
    && log[2 * k + 1].receiverId == log[2 * k].senderId
    && log[2 * k].chatType == ClientAi && log[2 * k + 1].chatType == ClientAi
  }

  /** `log` is a sequence of whole chat turns. */
  ghost predicate PairedLog(log: seq<ChatLogRow>) {
    |log| % 2 == 0 && forall k :: 0 <= k < |log| / 2 ==> TurnAt(log, k)
  }

  /** Logging one more turn keeps a log made of whole turns, and the new turn
      is the last one. */
  lemma PairedLogAppend(log: seq<ChatLogRow>, senderId: int, message: string, reply: string)
    requires PairedLog(log)
    ensures PairedLog(log + TurnRows(senderId, message, reply))
    ensures TurnAt(log + TurnRows(senderId, message, reply), |log| / 2)
  {
    var log' := log + TurnRows(senderId, message, reply);
    forall k | 0 <= k < |log'| / 2 ensures TurnAt(log', k) {
      if k < |log| / 2 {
        assert log'[2 * k] == log[2 * k] && log'[2 * k + 1] == log[2 * k + 1];
        assert TurnAt(log, k);
      }
    }
  }

  /** The ids of the given order rows. */
  ghost function IdsOf(orders: seq<OrderRow>): set<int> {
    set o | o in orders :: o.orderId
  }

  /** An id above every stored order id is not one of them. */
  lemma IdsBelow(orders: seq<OrderRow>, n: int)
    requires forall k :: 0 <= k < |orders| ==> orders[k].orderId < n
    ensures n !in IdsOf(orders)
  {
    forall o | o in orders ensures o.orderId != n {
      var k :| 0 <= k < |orders| && orders[k] == o;
    }
  }

  class Database {
    /** `products.price` by `product_id`. */
    var prices: map<int, int>
    var orders: seq<OrderRow>
    var orderItems: seq<OrderItemRow>
    var chatLogs: seq<ChatLogRow>
    /** The id the next inserted order receives (`AUTO_INCREMENT`, read back
        as `cursor.lastrowid`). */
    var nextOrderId: int

    /** Order ids are increasing and below the counter, and every order line
        belongs to a stored order. */
    ghost predicate Valid()
      reads this
    {
      (forall k :: 0 <= k < |orders| ==> orders[k].orderId < nextOrderId)
      && (forall j, k :: 0 <= j < k < |orders| ==> orders[j].orderId < orders[k].orderId)
      && (forall k :: 0 <= k < |orderItems| ==> orderItems[k].orderId in OrderIds())
      && PairedLog(chatLogs)
    }

    ghost function OrderIds(): set<int>
      reads this
    {
      IdsOf(orders)
    }

    /** An empty database with the given product prices; ids start at 1. */
    constructor (prices: map<int, int>)
      ensures Valid()
      ensures this.prices == prices && orders == [] && orderItems == [] && chatLogs == []
      ensures nextOrderId == 1
    {
      this.prices := prices;
      orders, orderItems, chatLogs := [], [], [];
      nextOrderId := 1;
    }

    /** `POST /orders`: price the items from the store, insert one order row
        under a fresh id, then one `order_items` row per item. An unknown
        product faults in the pricing loop, before anything is inserted. */
    method CreateOrder(userId: int, items: seq<Item>) returns (r: Result<int>)
      requires Valid()
      modifies this
      ensures Valid()
      ensures prices == old(prices) && chatLogs == old(chatLogs)
      ensures !AllPriced(prices, items) ==>
        && r == Err(UnknownProduct(items[FirstUnpriced(prices, items)].productId))
        && orders == old(orders) && orderItems == old(orderItems)
        && nextOrderId == old(nextOrderId)
      ensures AllPriced(prices, items) ==>
        && r == Ok(old(nextOrderId))
        && r.value !in old(OrderIds())
        && orders == old(orders) + [OrderRow(old(nextOrderId), userId, Total(prices, items))]
        && orderItems == old(orderItems) + LineRows(old(nextOrderId), prices, items)
        && nextOrderId == old(nextOrderId) + 1
        && LinesTotal(orderItems[|old(orderItems)|..]) == orders[|orders| - 1].totalAmount
    {
      var total := ComputeTotal(prices, items);
      if total.Err? {
        return total;
      }
      var orderId := nextOrderId;
      IdsBelow(orders, orderId);
      orders := orders + [OrderRow(orderId, userId, total.value)];
      nextOrderId := nextOrderId + 1;
      assert orders[|orders| - 1] in orders;
      assert old(OrderIds()) <= OrderIds();

      InsertOrderLines(orderId, items);
      return Ok(orderId);
    }

    /** The second loop of `create_order`: one `order_items` row per item,
        in item order, each carrying the store's price. */
    method InsertOrderLines(orderId: int, items: seq<Item>)
      requires Valid() && orderId in OrderIds() && AllPriced(prices, items)
      modifies this
      ensures Valid()
      ensures prices == old(prices) && orders == old(orders) && chatLogs == old(chatLogs)
      ensures orderItems == old(orderItems) + LineRows(orderId, prices, items)
      ensures nextOrderId == old(nextOrderId)
      ensures LinesTotal(orderItems[|old(orderItems)|..]) == Total(prices, items)
    {
      var i := 0;
      while i < |items|
        invariant 0 <= i <= |items|
        invariant Valid()
        invariant prices == old(prices) && orders == old(orders) && chatLogs == old(chatLogs)
        invariant nextOrderId == old(nextOrderId)
        invariant orderItems == old(orderItems) + LineRows(orderId, prices, items[..i])
      {
        assert items[..i + 1][..i] == items[..i];
        var item := items[i];
        var priceEach := prices[item.productId];
        orderItems := orderItems + [OrderItemRow(orderId, item.productId, item.quantity, priceEach)];
        i := i + 1;
      }
      assert items[..i] == items;
      assert orderItems[|old(orderItems)|..] == LineRows(orderId, prices, items);
      LinesMatchTotal(orderId, prices, items);
    }

    /** `POST /chat`: `generated` is what the language model answered to
        `message`. Decide the reply, log the turn as two rows, and return the
        reply. */
    method SendMessage(senderId: int, message: string, generated: string) returns (r: Reply)
      requires Valid()
      modifies this
      ensures Valid()
      ensures r == Decide(generated)
      ensures chatLogs == old(chatLogs)
        + [ChatLogRow(senderId, AiId, message, ClientAi), ChatLogRow(AiId, senderId, r.text, ClientAi)]
      ensures prices == old(prices) && orders == old(orders) && orderItems == old(orderItems)
      ensures nextOrderId == old(nextOrderId)
    {
      r := Decide(generated);
      PairedLogAppend(chatLogs, senderId, message, r.text);
      chatLogs := chatLogs + [ChatLogRow(senderId, AiId, message, ClientAi)];
      chatLogs := chatLogs + [ChatLogRow(AiId, senderId, r.text, ClientAi)];
      assert chatLogs == old(chatLogs) + TurnRows(senderId, message, r.text);
    }
  }
}
