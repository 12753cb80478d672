/** The `orders` and `order_items` tables and the routes of
    candle-shop-backend/routes/orders.js: the order-placement transaction
    (BEGIN; INSERT order; per item INSERT line and UPDATE stock; COMMIT, or
    ROLLBACK on any failure), the status update and the two reads. Amounts are
    integer pence. The data follow orders.js's own view: line items carry a
    `product_id` and stock lives in the `products` table. */
module Orders {
  import opened Tables
  import opened Products

  /** A row of `orders`; the nullable columns are `Option`s. */
  datatype Order = Order(
    id: int,
    customerEmail: string,
    customerName: Option<string>,
    customerPhone: Option<string>,
    shippingAddress: Option<string>,
    totalAmount: int,
    status: string,
    paymentIntentId: Option<string>,
    notes: Option<string>,
    createdAt: int,
    updatedAt: int)

  datatype OrderItem = OrderItem(
    id: int,
    orderId: int,
    productId: int,
    quantity: int,
    priceAtPurchase: int)

  /** One entry of the request's `items`: the client's product id, quantity and price. */
  datatype ItemRequest = ItemRequest(productId: int, quantity: int, price: int)

  /** The body of POST `/`. A field the body leaves out of a nullable column
      is None and is stored as NULL. `items` is None when the body has no
      `items` array, which makes the `for ... of` loop throw. */
  datatype OrderRequest = OrderRequest(
    customerEmail: string,
    customerName: Option<string>,
    customerPhone: Option<string>,
    shippingAddress: Option<string>,
    totalAmount: int,
    paymentIntentId: Option<string>,
    items: Option<seq<ItemRequest>>)

  /** The statements of the transaction, in the order they are issued; the
      failure oracle of `PlaceOrder` says which of them the database rejects. */
  datatype Step = Connect | Begin | InsertOrder | InsertItem(index: nat) | UpdateStock(index: nat) | Commit

  function OrderIdOf(o: Order): int { o.id }
  function ItemIdOf(it: OrderItem): int { it.id }
  function OrderNewestFirst(o: Order): int { -o.createdAt }

  // ---------------------------------------------------------------------
  // What a committed transaction writes
  // ---------------------------------------------------------------------

  /** The row `INSERT INTO orders ... VALUES (..., 'paid') RETURNING *` creates:
      everything but the id, the timestamps and the `notes` the INSERT does not
      name (NULL) comes from the client. */
  function PaidOrder(id: int, req: OrderRequest, now: int): Order {
    Order(id, req.customerEmail, req.customerName, req.customerPhone, req.shippingAddress,
          req.totalAmount, "paid", req.paymentIntentId, None, now, now)
  }

  /** The line items inserted for `reqs`, ids drawn from the SERIAL counter
      starting at `firstId`. */
  function LineItems(orderId: int, firstId: int, reqs: seq<ItemRequest>): (r: seq<OrderItem>)
    ensures |r| == |reqs|
  {
    if |reqs| == 0 then []
    else
      var last := reqs[|reqs| - 1];
      LineItems(orderId, firstId, reqs[..|reqs| - 1])
        + [OrderItem(firstId + |reqs| - 1, orderId, last.productId, last.quantity, last.price)]
  }

  /** Sum of the quantities of the request items naming `productId`. */
  function QtyOrdered(reqs: seq<ItemRequest>, productId: int): int {
    if |reqs| == 0 then 0
    else
      var last := reqs[|reqs| - 1];
      QtyOrdered(reqs[..|reqs| - 1], productId) + (if last.productId == productId then last.quantity else 0)
  }

  /** The products table after the stock statements of `reqs`, in order. */
  function StockAfter(rows: seq<Product>, reqs: seq<ItemRequest>): (r: seq<Product>)
    ensures |r| == |rows|
  {
    if |reqs| == 0 then rows
    else
      var last := reqs[|reqs| - 1];
      Decremented(StockAfter(rows, reqs[..|reqs| - 1]), last.productId, last.quantity)
  }

  /** Whether the transaction reaches COMMIT: the pool hands out a client, no
      statement fails and `items` is an array. Nothing about the tables takes
      part: no stock check, and no check for an earlier order with the same
      payment intent. */
  predicate Commits(req: OrderRequest, fails: Step -> bool) {
    && !fails(Connect) && !fails(Begin) && !fails(InsertOrder)
    && req.items.Some?
    && (forall i :: 0 <= i < |req.items.value| ==> !fails(InsertItem(i)) && !fails(UpdateStock(i)))
    && !fails(Commit)
  }

  /** One line item per request item, in order, with the new order's id, the
      item's product and quantity, and the client's price as the price at
      purchase (no catalog lookup). */
  lemma {:induction false} LineItemsSpec(orderId: int, firstId: int, reqs: seq<ItemRequest>)
    ensures |LineItems(orderId, firstId, reqs)| == |reqs|
    ensures forall k :: 0 <= k < |reqs| ==>
      LineItems(orderId, firstId, reqs)[k]
        == OrderItem(firstId + k, orderId, reqs[k].productId, reqs[k].quantity, reqs[k].price)
  {
    if |reqs| > 0 {
      var front := reqs[..|reqs| - 1];
      LineItemsSpec(orderId, firstId, front);
      assert forall k :: 0 <= k < |front| ==> front[k] == reqs[k];
    }
  }

  /** After the stock statements each product's stock has fallen by the sum
      of the quantities naming it, and nothing else about any row changed. */
  lemma {:induction false} StockAfterSpec(rows: seq<Product>, reqs: seq<ItemRequest>)
    ensures |StockAfter(rows, reqs)| == |rows|
    ensures forall j :: 0 <= j < |rows| ==>
      StockAfter(rows, reqs)[j]
        == rows[j].(stockQuantity := rows[j].stockQuantity - QtyOrdered(reqs, rows[j].id))
  {
    if |reqs| > 0 {
      StockAfterSpec(rows, reqs[..|reqs| - 1]);
    }
  }

  /** A product no request item names keeps its row exactly. */
  lemma {:induction false} UnnamedProductUnchanged(rows: seq<Product>, reqs: seq<ItemRequest>, j: nat)
    requires j < |rows|
    requires forall k :: 0 <= k < |reqs| ==> reqs[k].productId != rows[j].id
    ensures StockAfter(rows, reqs)[j] == rows[j]
  {
    StockAfterSpec(rows, reqs);
    QtyOrderedUnnamed(reqs, rows[j].id);
  }

  lemma {:induction false} QtyOrderedUnnamed(reqs: seq<ItemRequest>, productId: int)
    requires forall k :: 0 <= k < |reqs| ==> reqs[k].productId != productId
    ensures QtyOrdered(reqs, productId) == 0
  {
    if |reqs| > 0 {
      QtyOrderedUnnamed(reqs[..|reqs| - 1], productId);
    }
  }

  /** The decrement is unconditional: ordering more than is in stock drives
      the stock negative instead of failing. */
  lemma {:induction false} NoStockCheck(rows: seq<Product>, reqs: seq<ItemRequest>, j: nat)
    requires j < |rows| && rows[j].stockQuantity < QtyOrdered(reqs, rows[j].id)
    ensures StockAfter(rows, reqs)[j].stockQuantity < 0
  {
    StockAfterSpec(rows, reqs);
  }

  /** An item naming a product id no row has matches no row: its UPDATE
      changes nothing, and (see `Commits`) is not a failure either. */
  lemma {:induction false} UnknownProductIgnored(rows: seq<Product>, reqs: seq<ItemRequest>, item: ItemRequest)
    requires forall j :: 0 <= j < |rows| ==> rows[j].id != item.productId
    ensures StockAfter(rows, reqs + [item]) == StockAfter(rows, reqs)
  {
    var whole := reqs + [item];
    assert whole[..|whole| - 1] == reqs;
    var s := StockAfter(rows, reqs);
    assert StockAfter(rows, whole) == Decremented(s, item.productId, item.quantity);
    StockAfterSpec(rows, reqs);
    assert forall j :: 0 <= j < |s| ==> s[j].id == rows[j].id;
    assert Decremented(s, item.productId, item.quantity) == s;
  }

  /** An empty `items` array passes the loop without a statement: the
      transaction commits whenever its other statements succeed, and writes
      no line and no stock change. */
  lemma EmptyItemsCommit(req: OrderRequest, fails: Step -> bool, rows: seq<Product>,
                         orderId: int, firstId: int)
    requires req.items == Some([])
    ensures Commits(req, fails) <==>
      !fails(Connect) && !fails(Begin) && !fails(InsertOrder) && !fails(Commit)
    ensures LineItems(orderId, firstId, req.items.value) == []
    ensures StockAfter(rows, req.items.value) == rows
  {
  }

  /** No idempotency: submitting the same items twice takes their
      quantities off the stock twice. */
  lemma {:induction false} Resubmission(rows: seq<Product>, reqs: seq<ItemRequest>, j: nat)
    requires j < |rows|
    ensures |StockAfter(StockAfter(rows, reqs), reqs)| == |rows|
    ensures StockAfter(StockAfter(rows, reqs), reqs)[j].stockQuantity
      == rows[j].stockQuantity - 2 * QtyOrdered(reqs, rows[j].id)
  {
    StockAfterSpec(rows, reqs);
    StockAfterSpec(StockAfter(rows, reqs), reqs);
  }

  // ---------------------------------------------------------------------
  // Reads
  // ---------------------------------------------------------------------

  /** A row of GET `/:id`'s item list: `oi.*, p.name, p.image_url`. */
  datatype OrderLine = OrderLine(item: OrderItem, productName: string, productImageUrl: string)

  datatype OrderDetail = OrderDetail(order: Order, items: seq<OrderLine>)

  /** The line carries the name and image of a product with the item's id. */
  predicate JoinsWith(line: OrderLine, products: seq<Product>) {
    exists p :: 0 <= p < |products| && products[p].id == line.item.productId
      && line.productName == products[p].name && line.productImageUrl == products[p].imageUrl
  }

  /** `FROM order_items oi JOIN products p ON oi.product_id = p.id WHERE oi.order_id = $1`.
      The query has no ORDER BY; the model keeps table order. */
  function Joined(items: seq<OrderItem>, products: seq<Product>, orderId: int): (r: seq<OrderLine>)
    ensures forall k :: 0 <= k < |r| ==>
      (r[k].item in items && r[k].item.orderId == orderId && JoinsWith(r[k], products))
  {
    if |items| == 0 then []
    else
      var it := items[0];
      var rest := Joined(items[1..], products, orderId);
      if it.orderId != orderId then rest
      else
        match IndexOf(products, IdOf, it.productId)
        case None => rest
        case Some(p) =>
          var line := OrderLine(it, products[p].name, products[p].imageUrl);
          assert JoinsWith(line, products);
          [line] + rest
  }

  /** The inner join drops nothing else: every item of the order whose
      product still exists appears. */
  lemma {:induction false} JoinedComplete(items: seq<OrderItem>, products: seq<Product>, orderId: int, j: nat)
    requires j < |items| && items[j].orderId == orderId
    requires HasKey(products, IdOf, items[j].productId)
    ensures exists k :: (0 <= k < |Joined(items, products, orderId)|
      && Joined(items, products, orderId)[k].item == items[j])
  {
    var r := Joined(items, products, orderId);
    var rest := Joined(items[1..], products, orderId);
    if j == 0 {
      assert r[0].item == items[0];
    } else {
      assert items[1..][j - 1] == items[j];
      JoinedComplete(items[1..], products, orderId, j - 1);
      var k :| 0 <= k < |rest| && rest[k].item == items[j];
      if r == rest {
        assert r[k].item == items[j];
      } else {
        assert r[k + 1] == rest[k];
      }
    }
  }

  /** GET `/:id`: 404 for a missing order, else the order with its joined items. */
  function GetOrder(orders: seq<Order>, items: seq<OrderItem>, products: seq<Product>, id: int)
    : (r: Reply<OrderDetail>)
    ensures r.Ok? <==> HasKey(orders, OrderIdOf, id)
    ensures r.Err? ==> r == Err(404, "Order not found")
    ensures r.Ok? ==>
      (r.status == 200 && r.value.order in orders && r.value.order.id == id
       && r.value.items == Joined(items, products, id))
  {
    match IndexOf(orders, OrderIdOf, id)
    case None => Err(404, "Order not found")
    case Some(i) => Ok(200, OrderDetail(orders[i], Joined(items, products, id)))
  }

  /** GET `/`: every order, newest first. */
  function ListOrders(orders: seq<Order>): (r: seq<Order>)
    ensures SortedBy(r, OrderNewestFirst)
    ensures multiset(r) == multiset(orders)
  {
    SortBy(orders, OrderNewestFirst)
  }

  // ---------------------------------------------------------------------
  // The tables and the writing routes
  // ---------------------------------------------------------------------

  /** The key invariants of the two order tables under their SERIAL counters. */
  ghost predicate Consistent(orders: seq<Order>, items: seq<OrderItem>, nextOrderId: int, nextItemId: int) {
    && 0 <= nextOrderId && 0 <= nextItemId
    && UniqueKeys(orders, OrderIdOf) && KeysBelow(orders, OrderIdOf, nextOrderId)
    && UniqueKeys(items, ItemIdOf) && KeysBelow(items, ItemIdOf, nextItemId)
    // order_items.order_id REFERENCES orders(id)
    && (forall k :: 0 <= k < |items| ==> HasKey(orders, OrderIdOf, items[k].orderId))
  }

  class OrderStore {
    var orders: seq<Order>
    var items: seq<OrderItem>
    var nextOrderId: int
    var nextItemId: int
    /** Pool clients currently checked out by this store's transactions. */
    var clientsInUse: nat
    /** The `products` table the transaction decrements. */
    const products: ProductTable

    ghost predicate Valid()
      reads this
    {
      Consistent(orders, items, nextOrderId, nextItemId)
    }

    constructor (products: ProductTable)
      ensures Valid() && this.products == products
      ensures orders == [] && items == [] && clientsInUse == 0
    {
      this.products := products;
      orders, items := [], [];
      nextOrderId, nextItemId := 1, 1;
      clientsInUse := 0;
    }

    /** POST `/`. On COMMIT: one new `paid` order carrying the client's total
        and payment intent, answered with 201; one line per item in order; the
        stock statements applied. On any failure: ROLLBACK restores all three
        tables and the answer is 500. The client goes back to the pool on both
        paths. Only the SERIAL counters keep what they drew, as Postgres
        sequences do. */
    method PlaceOrder(req: OrderRequest, now: int, fails: Step -> bool) returns (r: Reply<Order>)
      requires Valid() && products.Valid()
      modifies this, products
      ensures Valid() && products.Valid() && products.nextId == old(products.nextId)
      ensures clientsInUse == old(clientsInUse)
      ensures r.Ok? <==> Commits(req, fails)
      ensures r.Ok? ==>
        && r == Ok(201, PaidOrder(old(nextOrderId), req, now))
        && orders == old(orders) + [r.value]
        && items == old(items) + LineItems(r.value.id, old(nextItemId), req.items.value)
        && products.rows == StockAfter(old(products.rows), req.items.value)
        && nextOrderId == old(nextOrderId) + 1
        && nextItemId == old(nextItemId) + |req.items.value|
      ensures r.Err? ==>
        && r == Err(500, "Failed to create order")
        && orders == old(orders) && items == old(items) && products.rows == old(products.rows)
        && nextOrderId >= old(nextOrderId) && nextItemId >= old(nextItemId)
    {
      if fails(Connect) {
        r := Err(500, "Failed to create order");
        return;
      }
      clientsInUse := clientsInUse + 1;
      // BEGIN: what ROLLBACK returns to
      var savedOrders, savedItems, savedStock := orders, items, products.rows;
      ghost var savedOrderId, savedItemId := nextOrderId, nextItemId;
      assert Consistent(savedOrders, savedItems, savedOrderId, savedItemId);
      var order := PaidOrder(nextOrderId, req, now);
      var ok := !fails(Begin);
      if ok {
        ok := InsertOrderRow(order, fails);
      }
      if ok && req.items.None? {
        ok := false;
      }
      if ok {
        ok := InsertLines(order, req.items.value, fails);
        if ok {
          ok := !fails(Commit);
        }
      }
      if ok {
        assert Commits(req, fails);
        r := Ok(201, order);
      } else {
        assert !Commits(req, fails);
        Rollback(savedOrders, savedItems, savedStock, savedOrderId, savedItemId);
        r := Err(500, "Failed to create order");
      }
      // client.release() in `finally`
      clientsInUse := clientsInUse - 1;
    }

    /** The INSERT of the order row. Its SERIAL id is drawn even when the
        statement then fails. */
    method InsertOrderRow(order: Order, fails: Step -> bool) returns (ok: bool)
      requires Valid() && order.id == nextOrderId
      modifies this
      ensures Valid() && HasKey(orders, OrderIdOf, order.id) == ok
      ensures ok <==> !fails(InsertOrder)
      ensures orders == if ok then old(orders) + [order] else old(orders)
      ensures items == old(items) && nextItemId == old(nextItemId)
      ensures nextOrderId == old(nextOrderId) + 1 && clientsInUse == old(clientsInUse)
    {
      nextOrderId := nextOrderId + 1;
      ok := !fails(InsertOrder);
      if ok {
        AppendFresh(orders, OrderIdOf, order.id, order, nextOrderId);
        forall k | 0 <= k < |items| ensures HasKey(orders + [order], OrderIdOf, items[k].orderId) {
          HasKeyAppend(orders, OrderIdOf, items[k].orderId, order);
        }
        orders := orders + [order];
        assert orders[|orders| - 1] == order;
      }
    }

    /** ROLLBACK: the three tables return to their state at BEGIN; the
        SERIAL counters keep the values they have reached. */
    method Rollback(savedOrders: seq<Order>, savedItems: seq<OrderItem>, savedStock: seq<Product>,
                    ghost savedOrderId: int, ghost savedItemId: int)
      requires Valid() && products.Valid()
      requires Consistent(savedOrders, savedItems, savedOrderId, savedItemId)
      requires savedOrderId <= nextOrderId && savedItemId <= nextItemId
      requires UniqueKeys(savedStock, IdOf) && KeysBelow(savedStock, IdOf, products.nextId)
      modifies this, products
      ensures Valid() && products.Valid() && products.nextId == old(products.nextId)
      ensures orders == savedOrders && items == savedItems && products.rows == savedStock
      ensures nextOrderId == old(nextOrderId) && nextItemId == old(nextItemId)
      ensures clientsInUse == old(clientsInUse)
    {
      KeysBelowRaise(savedOrders, OrderIdOf, savedOrderId, nextOrderId);
      KeysBelowRaise(savedItems, ItemIdOf, savedItemId, nextItemId);
      orders, items := savedOrders, savedItems;
      products.rows := savedStock;
    }

    /** The `for (const item of items)` loop of POST `/`: per item, INSERT the
        line and UPDATE the stock; the first failing statement stops it. */
    method InsertLines(order: Order, reqs: seq<ItemRequest>, fails: Step -> bool) returns (ok: bool)
      requires Valid() && products.Valid()
      requires HasKey(orders, OrderIdOf, order.id)
      modifies this, products
      ensures Valid() && products.Valid() && products.nextId == old(products.nextId)
      ensures orders == old(orders) && nextOrderId == old(nextOrderId)
      ensures clientsInUse == old(clientsInUse) && nextItemId >= old(nextItemId)
      ensures ok <==> forall i :: 0 <= i < |reqs| ==> !fails(InsertItem(i)) && !fails(UpdateStock(i))
      ensures ok ==>
        && items == old(items) + LineItems(order.id, old(nextItemId), reqs)
        && products.rows == StockAfter(old(products.rows), reqs)
        && nextItemId == old(nextItemId) + |reqs|
    {
      ok := true;
      var i := 0;
      while i < |reqs|
        invariant 0 <= i <= |reqs|
        invariant Valid() && products.Valid() && products.nextId == old(products.nextId)
        invariant orders == old(orders) && nextOrderId == old(nextOrderId)
        invariant clientsInUse == old(clientsInUse)
        invariant nextItemId == old(nextItemId) + i
        invariant items == old(items) + LineItems(order.id, old(nextItemId), reqs[..i])
        invariant products.rows == StockAfter(old(products.rows), reqs[..i])
        invariant forall k :: 0 <= k < i ==> !fails(InsertItem(k)) && !fails(UpdateStock(k))
      {
        var item := reqs[i];
        var line := OrderItem(nextItemId, order.id, item.productId, item.quantity, item.price);
        nextItemId := nextItemId + 1;
        if fails(InsertItem(i)) {
          ok := false;
          break;
        }
        AppendFresh(items, ItemIdOf, line.id, line, nextItemId);
        items := items + [line];
        if fails(UpdateStock(i)) {
          ok := false;
          break;
        }
        products.DecrementStock(item.productId, item.quantity);
        assert reqs[..i + 1][..i] == reqs[..i];
        i := i + 1;
      }
      if ok {
        assert reqs[..i] == reqs;
      }
    }

    /** PUT `/:id/status`: any supplied status is stored, with no transition
        check; only `status` and `updated_at` of that order change. 404 when
        no order has the id; a missing status violates NOT NULL (500). */
    method UpdateStatus(id: int, status: Option<string>, now: int) returns (r: Reply<Order>)
      requires Valid()
      modifies this
      ensures Valid()
      ensures items == old(items) && nextOrderId == old(nextOrderId) && nextItemId == old(nextItemId)
      ensures clientsInUse == old(clientsInUse)
      ensures match IndexOf(old(orders), OrderIdOf, id)
        case None => r == Err(404, "Order not found") && orders == old(orders)
        case Some(i) =>
          match status
          case None => r == Err(500, "Failed to update order") && orders == old(orders)
          case Some(s) =>
            && orders == old(orders)[i := old(orders)[i].(status := s, updatedAt := now)]
            && r == Ok(200, orders[i])
    {
      match IndexOf(orders, OrderIdOf, id)
      case None =>
        r := Err(404, "Order not found");
      case Some(i) =>
        if status.None? {
          r := Err(500, "Failed to update order");
        } else {
          var o := orders[i].(status := status.value, updatedAt := now);
          OverwriteKeepsKeys(orders, OrderIdOf, nextOrderId, i, o);
          var after := orders[i := o];
          assert forall m :: 0 <= m < |after| ==> OrderIdOf(after[m]) == OrderIdOf(orders[m]);
          orders := after;
          r := Ok(200, o);
        }
    }
  }
}
