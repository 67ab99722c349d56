/** Order pricing for the `/orders` handler (`create_order`): the total is
    computed from the store's product prices, never from anything the client
    sends, and one order line is written per requested item carrying that
    store price. Amounts are integers (cents), computed exactly. */
module Orders {

  /** One element of the request's `items` list: only `product_id` and
      `quantity` are read from it. */
  datatype Item = Item(productId: int, quantity: int)

  /** A row of `order_items`. */
  datatype OrderItemRow = OrderItemRow(orderId: int, productId: int, quantity: int, priceEach: int)

  /** Why an order cannot be created: the `SELECT price` for this product id
      found no row, so `fetchone()` gave `None` and indexing it faulted. */
  datatype OrderError = UnknownProduct(productId: int)

  datatype Result<T> = Ok(value: T) | Err(error: OrderError)

  /** Every item names a product that has a price in the store. */
  predicate AllPriced(prices: map<int, int>, items: seq<Item>) {
    forall k :: 0 <= k < |items| ==> items[k].productId in prices
  }

  /** Store price times quantity, summed over the items in order. */
  function Total(prices: map<int, int>, items: seq<Item>): int
    requires AllPriced(prices, items)
  {
    if items == [] then 0
    else
      var last := items[|items| - 1];
      Total(prices, items[..|items| - 1]) + prices[last.productId] * last.quantity
  }

  /** Index of the first item whose product has no price. */
  function FirstUnpriced(prices: map<int, int>, items: seq<Item>): (k: nat)
    requires !AllPriced(prices, items)
    ensures k < |items| && items[k].productId !in prices
    ensures forall j :: 0 <= j < k ==> items[j].productId in prices
  {
    if items[0].productId !in prices then 0
    else
      assert !AllPriced(prices, items[1..]) by {
        var k :| 0 <= k < |items| && items[k].productId !in prices;
        assert items[1..][k - 1] == items[k];
      }
      1 + FirstUnpriced(prices, items[1..])
  }

  /** The `order_items` rows written for order `orderId`: one per item, in
      item order. */
  function LineRows(orderId: int, prices: map<int, int>, items: seq<Item>): seq<OrderItemRow>
    requires AllPriced(prices, items)
  {
    if items == [] then []
    else
      var last := items[|items| - 1];
      LineRows(orderId, prices, items[..|items| - 1])
        + [OrderItemRow(orderId, last.productId, last.quantity, prices[last.productId])]
  }

  /** `price_each * quantity`, summed over order lines. */
  function LinesTotal(rows: seq<OrderItemRow>): int {
    if rows == [] then 0
    else LinesTotal(rows[..|rows| - 1]) + rows[|rows| - 1].priceEach * rows[|rows| - 1].quantity
  }

  /** Exactly one row per item, in item order, each carrying the order id,
      the item's product and quantity, and the store's price. */
  lemma {:induction false} LineRowsShape(orderId: int, prices: map<int, int>, items: seq<Item>)
    requires AllPriced(prices, items)
    ensures |LineRows(orderId, prices, items)| == |items|
    ensures forall k :: 0 <= k < |items| ==>
      LineRows(orderId, prices, items)[k]
        == OrderItemRow(orderId, items[k].productId, items[k].quantity, prices[items[k].productId])
  {
    if items != [] {
      var init := items[..|items| - 1];
      assert AllPriced(prices, init) by {
        assert forall k :: 0 <= k < |init| ==> init[k] == items[k];
      }
      LineRowsShape(orderId, prices, init);
    }
  }

  /** The lines of an order add up to the order's total. */
  lemma {:induction false} LinesMatchTotal(orderId: int, prices: map<int, int>, items: seq<Item>)
    requires AllPriced(prices, items)
    ensures LinesTotal(LineRows(orderId, prices, items)) == Total(prices, items)
  {
    if items != [] {
      var init := items[..|items| - 1];
      assert AllPriced(prices, init) by {
        assert forall k :: 0 <= k < |init| ==> init[k] == items[k];
      }
      LinesMatchTotal(orderId, prices, init);
      var rows := LineRows(orderId, prices, items);
      assert rows[..|rows| - 1] == LineRows(orderId, prices, init);
    }
  }

  /** Splitting the item list splits the total. */
  lemma {:induction false} TotalAppend(prices: map<int, int>, a: seq<Item>, b: seq<Item>)
    requires AllPriced(prices, a) && AllPriced(prices, b)
    ensures AllPriced(prices, a + b)
    ensures Total(prices, a + b) == Total(prices, a) + Total(prices, b)
  {
    assert AllPriced(prices, a + b) by {
      forall k | 0 <= k < |a + b| ensures (a + b)[k].productId in prices {
        if k < |a| { assert (a + b)[k] == a[k]; } else { assert (a + b)[k] == b[k - |a|]; }
      }
    }
    if b != [] {
      var init := b[..|b| - 1];
      assert AllPriced(prices, init) by {
        assert forall k :: 0 <= k < |init| ==> init[k] == b[k];
      }
      TotalAppend(prices, a, init);
      assert (a + b)[..|a + b| - 1] == a + init;
    } else {
      assert a + b == a;
    }
  }

  /** With no negative price and no negative quantity the total is not negative. */
  lemma {:induction false} TotalNonNegative(prices: map<int, int>, items: seq<Item>)
    requires AllPriced(prices, items)
    requires forall k :: 0 <= k < |items| ==> prices[items[k].productId] >= 0 && items[k].quantity >= 0
    ensures Total(prices, items) >= 0
  {
    if items != [] {
      var init := items[..|items| - 1];
      assert forall k :: 0 <= k < |init| ==> init[k] == items[k];
      TotalNonNegative(prices, init);
      var last := items[|items| - 1];
      assert prices[last.productId] * last.quantity >= 0;
    }
  }

  /** Two units of a 10.00 product and one of a 5.00 product cost 25.00,
      and the two order lines carry the store prices. */
  lemma PricingExample()
    ensures var prices := map[1 := 1000, 2 := 500];
      var items := [Item(1, 2), Item(2, 1)];
      && AllPriced(prices, items)
      && Total(prices, items) == 2500
      && LineRows(7, prices, items) == [OrderItemRow(7, 1, 2, 1000), OrderItemRow(7, 2, 1, 500)]
  {
    var prices := map[1 := 1000, 2 := 500];
    var items := [Item(1, 2), Item(2, 1)];
    assert items[..1] == [Item(1, 2)] && items[..1][..0] == [];
  }

  /** The first loop of `create_order`: look up each item's price and add
      price times quantity to the running total, faulting at the first item
      whose product is unknown. */
  method ComputeTotal(prices: map<int, int>, items: seq<Item>) returns (r: Result<int>)
    ensures AllPriced(prices, items) ==> r == Ok(Total(prices, items))
    ensures !AllPriced(prices, items) ==>
      r == Err(UnknownProduct(items[FirstUnpriced(prices, items)].productId))
  {
    var total := 0;
    var i := 0;
    while i < |items|
      invariant 0 <= i <= |items|
      invariant forall j :: 0 <= j < i ==> items[j].productId in prices
      invariant total == Total(prices, items[..i])
    {
      var item := items[i];
      if item.productId !in prices {
        return Err(UnknownProduct(item.productId));
      }
      assert items[..i + 1][..i] == items[..i];
      total := total + prices[item.productId] * item.quantity;
      i := i + 1;
    }
    assert items[..i] == items;
    return Ok(total);
  }
}
