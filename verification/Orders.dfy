/** Carts and orders over the stock ledger. */
module Orders {
  import opened Wrappers
  import opened Stock

  datatype CartLine = CartLine(product: Id, quantity: int)

  datatype Item = Item(product: Id, quantity: int, unitPrice: int, totalPrice: int)

  datatype Status = Pending | Confirmed | Processing | Shipped | Delivered | Cancelled

  datatype Order = Order(user: nat, status: Status, items: seq<Item>, subtotal: int, total: int)

  datatype OrderError = EmptyCart | AddressNotFound | OrderNotFound | NotPending | StockProblem(cause: StockError)

  datatype CartError = NoProduct | OutOfStock | InsufficientStock | NoItem

  /** A snapshot of the tables. `cancels` and `resets` count, for each order, the successful cancels
      and the admin updates that moved it back to pending. */
  datatype Shop = Shop(ledger: Ledger, orders: seq<Order>, carts: map<nat, seq<CartLine>>,
                       cancels: seq<nat>, resets: seq<nat>)

  const EMPTY := Shop(Ledger(map[], []), [], map[], [], [])

  // ---------------------------------------------------------------- specification

  function CartOf(carts: map<nat, seq<CartLine>>, user: nat): seq<CartLine>
  {
    if user in carts then carts[user] else []
  }

  function ItemFor(line: CartLine, price: int): Item
  {
    Item(line.product, line.quantity, price, price * line.quantity)
  }

  /** The items an order takes from a cart: lines whose product is gone or short are skipped. */
  function Eligible(products: map<Id, Product>, cart: seq<CartLine>): seq<Item>
  {
    if cart == [] then []
    else
      var line := cart[|cart| - 1];
      Eligible(products, cart[..|cart| - 1]) +
      if Live(products, line.product) && products[line.product].stock >= line.quantity then
        [ItemFor(line, products[line.product].price)]
      else []
  }

  function Subtotal(items: seq<Item>): int
  {
    if items == [] then 0
    else Subtotal(items[..|items| - 1]) + items[|items| - 1].totalPrice
  }

  lemma SubtotalSnoc(items: seq<Item>, item: Item)
    ensures Subtotal(items + [item]) == Subtotal(items) + item.totalPrice
  {
  }

  /** How many of a product an order's items hold. */
  function Qty(items: seq<Item>, id: Id): int
  {
    if items == [] then 0
    else
      var last := items[|items| - 1];
      Qty(items[..|items| - 1], id) + if last.product == id then last.quantity else 0
  }

  /** One item's adjustment: an order takes its quantity, a cancellation returns it. */
  function AdjustItem(s: Ledger, item: Item, taking: bool, order: nat): Result<Ledger, StockError>
  {
    var delta, reason := if taking then -item.quantity else item.quantity, if taking then ForOrder else ForCancel;
    Adjust(s, item.product, delta, reason, Some(order))
  }

  /** The stock transaction of an order: one adjustment an item, failing at the first that fails. */
  function AdjustItems(s: Ledger, items: seq<Item>, taking: bool, order: nat): Result<Ledger, StockError>
  {
    if items == [] then Ok(s)
    else
      match AdjustItems(s, items[..|items| - 1], taking, order)
      case Err(e) => Err(e)
      case Ok(t) => AdjustItem(t, items[|items| - 1], taking, order)
  }

  /** `cleared` says whether emptying the cart afterwards succeeds; that it fails is ignored. */
  function PlaceOrder(s: Shop, user: nat, addresses: bool, cleared: bool): (Shop, Result<nat, OrderError>)
  {
    var cart := CartOf(s.carts, user);
    var items := Eligible(s.ledger.products, cart);
    if cart == [] then (s, Err(EmptyCart))
    else if !addresses then (s, Err(AddressNotFound))
    else if items == [] then (s, Err(EmptyCart))
    else
      var id := |s.orders|;
      match AdjustItems(s.ledger, items, true, id)
      case Err(e) => (s, Err(StockProblem(e)))
      case Ok(t) =>
        (Shop(t, s.orders + [Order(user, Pending, items, Subtotal(items), Subtotal(items))],
              if cleared then s.carts[user := []] else s.carts, s.cancels + [0], s.resets + [0]), Ok(id))
  }

  function CancelOrder(s: Shop, id: nat, user: nat): (Shop, Option<OrderError>)
    requires |s.cancels| == |s.orders|
  {
    if id >= |s.orders| || s.orders[id].user != user then (s, Some(OrderNotFound))
    else if s.orders[id].status != Pending then (s, Some(NotPending))
    else
      match AdjustItems(s.ledger, s.orders[id].items, false, id)
      case Err(e) => (s, Some(StockProblem(e)))
      case Ok(t) =>
        (s.(ledger := t, orders := s.orders[id := s.orders[id].(status := Cancelled)],
            cancels := s.cancels[id := s.cancels[id] + 1]), None)
  }

  function SetStatus(s: Shop, id: nat, status: Status): Shop
    requires |s.resets| == |s.orders|
  {
    if id >= |s.orders| then s
    else
      var back := status == Pending && s.orders[id].status != Pending;
      s.(orders := s.orders[id := s.orders[id].(status := status)],
         resets := if back then s.resets[id := s.resets[id] + 1] else s.resets)
  }

  /** The position of a product in a cart, or the cart's length. */
  function LineOf(cart: seq<CartLine>, product: Id): (k: nat)
    ensures k <= |cart| && (k < |cart| ==> cart[k].product == product)
    ensures forall i :: 0 <= i < k ==> cart[i].product != product
  {
    if cart == [] then 0
    else if cart[0].product == product then 0
    else 1 + LineOf(cart[1..], product)
  }

  function AddToCart(products: map<Id, Product>, cart: seq<CartLine>, product: Id,
                     quantity: int): Result<seq<CartLine>, CartError>
  {
    if !Live(products, product) then Err(NoProduct)
    else
      var stock := products[product].stock;
      if stock <= 0 then Err(OutOfStock)
      else if stock < quantity then Err(InsufficientStock)
      else
        var k := LineOf(cart, product);
        if k < |cart| then
          var sum := cart[k].quantity + quantity;
          Ok(cart[k := CartLine(product, if sum > stock then stock else sum)])
        else Ok(cart + [CartLine(product, quantity)])
  }

  function UpdateCart(products: map<Id, Product>, cart: seq<CartLine>, k: nat,
                      quantity: int): Result<seq<CartLine>, CartError>
  {
    if k >= |cart| then Err(NoItem)
    else
      var id := cart[k].product;
      var capped := if Live(products, id) && quantity > products[id].stock then products[id].stock else quantity;
      Ok(cart[k := cart[k].(quantity := capped)])
  }

  /** One service call. Quantities below one are turned away before the service. */
  datatype Step =
    | NewProduct(id: Id, price: int, threshold: int)
    | AdjustStock(id: Id, delta: int, reason: Reason)
    | EditProduct(id: Id, newPrice: Option<int>, newThreshold: Option<int>)
    | SetThreshold(id: Id, threshold: int)
    | BulkSetThreshold(threshold: int, ids: set<Id>)
    | DeleteProduct(id: Id)
    | Scan(list: seq<Id>, commits: seq<bool>)
    | AddItem(user: nat, product: Id, quantity: int)
    | UpdateItem(user: nat, position: nat, quantity: int)
    | RemoveItem(user: nat, position: nat)
    | ClearCart(user: nat)
    | Create(user: nat, addresses: bool, cleared: bool)
    | Cancel(order: nat, user: nat)
    | UpdateStatus(order: nat, status: Status)
    | MarkPaid(order: nat)
    | MarkRefunded(order: nat)

  function NewRow(price: int, threshold: int): Product
  {
    Product(price, 0, Effective(threshold), false, 0, false)
  }

  function WithCart(s: Shop, user: nat, r: Result<seq<CartLine>, CartError>): Shop
  {
    if r.Ok? then s.(carts := s.carts[user := r.value]) else s
  }

  function SetThresholds(products: map<Id, Product>, threshold: int, ids: set<Id>): map<Id, Product>
  {
    map id | id in products ::
      if id in ids && !products[id].deleted then products[id].(threshold := threshold) else products[id]
  }

  /** The product update sets a threshold unchecked. */
  function Edited(p: Product, price: Option<int>, threshold: Option<int>): Product
  {
    p.(price := if price.Some? then price.value else p.price,
       threshold := if threshold.Some? then threshold.value else p.threshold)
  }

  function NextProducts(products: map<Id, Product>, step: Step): map<Id, Product>
  {
    match step
    case NewProduct(id, price, threshold) =>
      if id in products then products else products[id := NewRow(price, threshold)]
    case EditProduct(id, price, threshold) =>
      if Live(products, id) then products[id := Edited(products[id], price, threshold)] else products
    case SetThreshold(id, threshold) => if threshold < 0 then products else SetThresholds(products, threshold, {id})
    case BulkSetThreshold(threshold, ids) => if threshold < 0 then products else SetThresholds(products, threshold, ids)
    case DeleteProduct(id) => if id in products then products[id := products[id].(deleted := true)] else products
    case _ => products
  }

  function NextCart(s: Shop, step: Step): Shop
  {
    match step
    case AddItem(user, product, quantity) =>
      if quantity < 1 then s
      else WithCart(s, user, AddToCart(s.ledger.products, CartOf(s.carts, user), product, quantity))
    case UpdateItem(user, k, quantity) =>
      if quantity < 1 then s else WithCart(s, user, UpdateCart(s.ledger.products, CartOf(s.carts, user), k, quantity))
    case RemoveItem(user, k) =>
      var cart := CartOf(s.carts, user);
      if k < |cart| then s.(carts := s.carts[user := cart[..k] + cart[k + 1..]]) else s
    case ClearCart(user) => s.(carts := s.carts[user := []])
    case _ => s
  }

  /** The shop after one step; a scan whose list the query cannot return changes nothing. */
  ghost function Next(s: Shop, step: Step): (t: Shop)
    requires |s.cancels| == |s.resets| == |s.orders|
    ensures |t.cancels| == |t.resets| == |t.orders|
  {
    match step
    case AdjustStock(id, delta, reason) =>
      var r := Adjust(s.ledger, id, delta, reason, None);
      if r.Ok? then s.(ledger := r.value) else s
    case Scan(ids, commits) =>
      if ScanList(s.ledger.products, ids) && |commits| == |ids|
      then s.(ledger := s.ledger.(products := ScanAll(s.ledger.products, ids, commits))) else s
    case Create(user, addresses, cleared) => PlaceOrder(s, user, addresses, cleared).0
    case Cancel(id, user) => CancelOrder(s, id, user).0
    case UpdateStatus(id, status) => SetStatus(s, id, status)
    case MarkPaid(id) => if id < |s.orders| && s.orders[id].status == Pending then SetStatus(s, id, Confirmed) else s
    case MarkRefunded(id) => SetStatus(s, id, Cancelled)
    case AddItem(_, _, _) => NextCart(s, step)
    case UpdateItem(_, _, _) => NextCart(s, step)
    case RemoveItem(_, _) => NextCart(s, step)
    case ClearCart(_) => NextCart(s, step)
    case _ => s.(ledger := s.ledger.(products := NextProducts(s.ledger.products, step)))
  }

  ghost function Run(s: Shop, steps: seq<Step>): (t: Shop)
    requires |s.cancels| == |s.resets| == |s.orders|
    ensures |t.cancels| == |t.resets| == |t.orders|
  {
    if steps == [] then s else Next(Run(s, steps[..|steps| - 1]), steps[|steps| - 1])
  }

  // ---------------------------------------------------------------- what every step keeps

  /** What an order of `quantity` has put back, after taking it once and returning it `cancels` times. */
  function Returned(quantity: int, cancels: nat): int
  {
    quantity * cancels - quantity
  }

  ghost predicate OrderOk(s: Shop, o: nat)
    requires |s.cancels| == |s.resets| == |s.orders| && o < |s.orders|
  {
    var order := s.orders[o];
    && (forall item :: item in order.items ==>
          item.quantity >= 0 && item.product in s.ledger.products && item.totalPrice == item.unitPrice * item.quantity)
    && order.subtotal == order.total == Subtotal(order.items)
    && s.cancels[o] <= s.resets[o] + (if order.status == Pending then 0 else 1)
    && forall id :: Net(s.ledger.movements, id, Some(o)) == Returned(Qty(order.items, id), s.cancels[o])
  }

  ghost predicate CartOk(cart: seq<CartLine>)
  {
    && (forall i :: 0 <= i < |cart| ==> cart[i].quantity >= 0)
    && (forall i, j :: 0 <= i < j < |cart| ==> cart[i].product != cart[j].product)
  }

  ghost predicate RefsBelow(ms: seq<Movement>, n: nat)
  {
    forall m :: m in ms && m.order.Some? ==> m.order.value < n
  }

  ghost predicate Valid(s: Shop)
  {
    && |s.cancels| == |s.resets| == |s.orders|
    && Balanced(s.ledger)
    && RefsBelow(s.ledger.movements, |s.orders|)
    && (forall o :: 0 <= o < |s.orders| ==> OrderOk(s, o))
    && (forall user :: user in s.carts ==> CartOk(s.carts[user]))
  }

  lemma {:induction false} NetOfUnknownRef(ms: seq<Movement>, id: Id, o: nat)
    requires RefsBelow(ms, o)
    ensures Net(ms, id, Some(o)) == 0
  {
    if ms != [] {
      assert ms[|ms| - 1] in ms;
      NetOfUnknownRef(ms[..|ms| - 1], id, o);
    }
  }

  /** What one adjustment changes besides the balance. */
  predicate SameButStock(p: Product, q: Product)
  {
    q == p.(stock := q.stock, notified := q.notified, cycle := q.cycle)
  }

  /** What every adjustment under an order's reference keeps, the order's transaction keeps. */
  lemma {:induction false} AdjustItemsKeep(s: Ledger, items: seq<Item>, taking: bool, order: nat, keeps: Ledger -> bool)
    requires keeps(s) && AdjustItems(s, items, taking, order).Ok?
    requires forall t, id, delta, reason :: keeps(t) && Adjust(t, id, delta, reason, Some(order)).Ok? ==>
      keeps(Adjust(t, id, delta, reason, Some(order)).value)
    ensures keeps(AdjustItems(s, items, taking, order).value)
  {
    if items != [] {
      AdjustItemsKeep(s, items[..|items| - 1], taking, order, keeps);
    }
  }

  lemma AdjustItemsKeeps(s: Ledger, items: seq<Item>, taking: bool, order: nat)
    requires Balanced(s) && AdjustItems(s, items, taking, order).Ok?
    ensures Balanced(AdjustItems(s, items, taking, order).value)
    ensures AdjustItems(s, items, taking, order).value.products.Keys == s.products.Keys
  {
    forall t, id, delta, reason | Balanced(t) && Adjust(t, id, delta, reason, Some(order)).Ok?
      ensures Balanced(Adjust(t, id, delta, reason, Some(order)).value)
    {
      AdjustKeepsBalanced(t, id, delta, reason, Some(order));
    }
    AdjustItemsKeep(s, items, taking, order, (t: Ledger) => Balanced(t));
    AdjustItemsKeep(s, items, taking, order, (t: Ledger) => t.products.Keys == s.products.Keys);
  }

  lemma {:induction false} AdjustItemsLive(s: Ledger, items: seq<Item>, taking: bool, order: nat)
    requires AdjustItems(s, items, taking, order).Ok?
    ensures forall item :: item in items ==> Live(s.products, item.product)
  {
    if items != [] {
      var n := |items| - 1;
      AdjustItemsLive(s, items[..n], taking, order);
      AdjustItemsMoves(s, items[..n], taking, order, items[n].product, None);
      assert items == items[..n] + [items[n]];
    }
  }

  lemma AdjustItemsRefs(s: Ledger, items: seq<Item>, taking: bool, order: nat, bound: nat)
    requires AdjustItems(s, items, taking, order).Ok? && RefsBelow(s.movements, bound) && order < bound
    ensures RefsBelow(AdjustItems(s, items, taking, order).value.movements, bound)
  {
    AdjustItemsKeep(s, items, taking, order, (t: Ledger) => RefsBelow(t.movements, bound));
  }

  /** The transaction moves each product by exactly the quantity its items hold, under its own reference. */
  lemma {:induction false} AdjustItemsMoves(s: Ledger, items: seq<Item>, taking: bool, order: nat, id: Id,
                                            ref: Option<nat>)
    requires AdjustItems(s, items, taking, order).Ok?
    ensures var t := AdjustItems(s, items, taking, order).value;
      var moved := if taking then -Qty(items, id) else Qty(items, id);
      && Net(t.movements, id, ref) == Net(s.movements, id, ref) + (if ref == Some(order) then moved else 0)
      && (id in t.products <==> id in s.products)
      && (id in s.products ==>
            && SameButStock(s.products[id], t.products[id])
            && t.products[id].stock == s.products[id].stock + moved)
  {
    if items != [] {
      var last := items[|items| - 1];
      AdjustItemsMoves(s, items[..|items| - 1], taking, order, id, ref);
      var before := AdjustItems(s, items[..|items| - 1], taking, order).value;
      var t := AdjustItems(s, items, taking, order).value;
      SnocSums(before.movements, t.movements[|before.movements|], id, ref);
    }
  }

  /** Movement k of an order's transaction: its k-th item, taken or returned, under its reference. */
  predicate RecordOf(m: Movement, item: Item, taking: bool, order: nat)
  {
    && m.product == item.product && m.order == Some(order)
    && m.delta == (if taking then -item.quantity else item.quantity)
    && m.reason == (if taking then ForOrder else ForCancel)
  }

  /** An order's transaction records one movement an item, in the items' order, after those that were there. */
  lemma {:induction false} AdjustItemsRecords(s: Ledger, items: seq<Item>, taking: bool, order: nat)
    requires AdjustItems(s, items, taking, order).Ok?
    ensures var t, n := AdjustItems(s, items, taking, order).value, |s.movements|;
      && |t.movements| == n + |items| && t.movements[..n] == s.movements
      && forall k :: 0 <= k < |items| ==> RecordOf(t.movements[n + k], items[k], taking, order)
  {
    if items != [] {
      AdjustItemsRecords(s, items[..|items| - 1], taking, order);
    }
  }

  predicate Names(cart: seq<CartLine>, product: Id)
  {
    exists i :: 0 <= i < |cart| && cart[i].product == product
  }

  lemma {:induction false} EligibleFacts(products: map<Id, Product>, cart: seq<CartLine>)
    requires forall i :: 0 <= i < |cart| ==> cart[i].quantity >= 0
    ensures forall item :: item in Eligible(products, cart) ==>
      item.quantity >= 0 && Live(products, item.product) && item.totalPrice == item.unitPrice * item.quantity
    ensures forall item :: item in Eligible(products, cart) ==> Names(cart, item.product)
  {
    if cart != [] {
      var n := |cart| - 1;
      EligibleFacts(products, cart[..n]);
      forall item | item in Eligible(products, cart) ensures Names(cart, item.product) {
        if item in Eligible(products, cart[..n]) {
          var i :| 0 <= i < n && cart[..n][i].product == item.product;
          assert cart[i].product == item.product;
        } else {
          assert cart[n].product == item.product;
        }
      }
    }
  }

  lemma OrderKept(s: Shop, t: Shop, o: nat)
    requires |s.cancels| == |s.resets| == |s.orders| && o < |s.orders|
    requires |t.cancels| == |t.resets| == |t.orders| && o < |t.orders|
    requires OrderOk(s, o)
    requires t.orders[o] == s.orders[o] && t.cancels[o] == s.cancels[o] && t.resets[o] == s.resets[o]
    requires s.ledger.products.Keys <= t.ledger.products.Keys
    requires forall id :: Net(t.ledger.movements, id, Some(o)) == Net(s.ledger.movements, id, Some(o))
    ensures OrderOk(t, o)
  {
  }

  lemma PlaceKeepsOrder(s: Shop, user: nat, addresses: bool, cleared: bool, o: nat)
    requires Valid(s) && PlaceOrder(s, user, addresses, cleared).1.Ok? && o < |s.orders|
    ensures |PlaceOrder(s, user, addresses, cleared).0.cancels| == |PlaceOrder(s, user, addresses, cleared).0.resets|
         == |PlaceOrder(s, user, addresses, cleared).0.orders| == |s.orders| + 1
    ensures OrderOk(PlaceOrder(s, user, addresses, cleared).0, o)
  {
    var t := PlaceOrder(s, user, addresses, cleared).0;
    var items := Eligible(s.ledger.products, CartOf(s.carts, user));
    AdjustItemsKeeps(s.ledger, items, true, |s.orders|);
    forall id ensures Net(t.ledger.movements, id, Some(o)) == Net(s.ledger.movements, id, Some(o)) {
      AdjustItemsMoves(s.ledger, items, true, |s.orders|, id, Some(o));
    }
    OrderKept(s, t, o);
  }

  lemma PlaceAddsOrder(s: Shop, user: nat, addresses: bool, cleared: bool)
    requires Valid(s) && PlaceOrder(s, user, addresses, cleared).1.Ok?
    ensures |PlaceOrder(s, user, addresses, cleared).0.cancels| == |PlaceOrder(s, user, addresses, cleared).0.resets|
         == |PlaceOrder(s, user, addresses, cleared).0.orders| == |s.orders| + 1
    ensures OrderOk(PlaceOrder(s, user, addresses, cleared).0, |s.orders|)
  {
    var n := |s.orders|;
    var t := PlaceOrder(s, user, addresses, cleared).0;
    var cart := CartOf(s.carts, user);
    var items := Eligible(s.ledger.products, cart);
    assert CartOk(cart);
    EligibleFacts(s.ledger.products, cart);
    AdjustItemsKeeps(s.ledger, items, true, n);
    forall id ensures Net(t.ledger.movements, id, Some(n)) == Returned(Qty(items, id), 0) {
      AdjustItemsMoves(s.ledger, items, true, n, id, Some(n));
      NetOfUnknownRef(s.ledger.movements, id, n);
    }
  }

  lemma PlaceKeepsLedger(s: Shop, user: nat, addresses: bool, cleared: bool)
    requires Valid(s) && PlaceOrder(s, user, addresses, cleared).1.Ok?
    ensures var t := PlaceOrder(s, user, addresses, cleared).0;
      Balanced(t.ledger) && |t.orders| == |s.orders| + 1 && RefsBelow(t.ledger.movements, |t.orders|)
  {
    var n := |s.orders|;
    var items := Eligible(s.ledger.products, CartOf(s.carts, user));
    assert RefsBelow(s.ledger.movements, n + 1);
    AdjustItemsRefs(s.ledger, items, true, n, n + 1);
    AdjustItemsKeeps(s.ledger, items, true, n);
  }

  lemma PlaceKeeps(s: Shop, user: nat, addresses: bool, cleared: bool)
    requires Valid(s)
    ensures Valid(PlaceOrder(s, user, addresses, cleared).0)
  {
    var (t, r) := PlaceOrder(s, user, addresses, cleared);
    if r.Ok? {
      PlaceKeepsLedger(s, user, addresses, cleared);
      PlaceAddsOrder(s, user, addresses, cleared);
      forall o | 0 <= o < |t.orders| ensures OrderOk(t, o) {
        if o < |s.orders| { PlaceKeepsOrder(s, user, addresses, cleared, o); }
      }
      forall u | u in t.carts ensures CartOk(t.carts[u]) {
        assert CartOk([]);
      }
    }
  }

  lemma ReturnedOnceMore(quantity: int, cancels: nat)
    ensures Returned(quantity, cancels + 1) == Returned(quantity, cancels) + quantity
  {
  }

  lemma CancelKeepsOther(s: Shop, id: nat, user: nat, o: nat)
    requires Valid(s) && CancelOrder(s, id, user).1.None? && o < |s.orders| && o != id
    ensures OrderOk(CancelOrder(s, id, user).0, o)
  {
    var t := CancelOrder(s, id, user).0;
    var items := s.orders[id].items;
    AdjustItemsKeeps(s.ledger, items, false, id);
    forall p ensures Net(t.ledger.movements, p, Some(o)) == Net(s.ledger.movements, p, Some(o)) {
      AdjustItemsMoves(s.ledger, items, false, id, p, Some(o));
    }
    OrderKept(s, t, o);
  }

  lemma CancelledNet(s: Shop, id: nat, user: nat, p: Id)
    requires Valid(s) && CancelOrder(s, id, user).1.None?
    ensures Net(CancelOrder(s, id, user).0.ledger.movements, p, Some(id))
         == Returned(Qty(s.orders[id].items, p), s.cancels[id] + 1)
  {
    assert OrderOk(s, id);
    AdjustItemsMoves(s.ledger, s.orders[id].items, false, id, p, Some(id));
    ReturnedOnceMore(Qty(s.orders[id].items, p), s.cancels[id]);
  }

  lemma CancelKeepsOrder(s: Shop, id: nat, user: nat)
    requires Valid(s) && CancelOrder(s, id, user).1.None?
    ensures OrderOk(CancelOrder(s, id, user).0, id)
  {
    assert OrderOk(s, id);
    AdjustItemsKeeps(s.ledger, s.orders[id].items, false, id);
    var t := CancelOrder(s, id, user).0;
    forall p ensures Net(t.ledger.movements, p, Some(id)) == Returned(Qty(t.orders[id].items, p), t.cancels[id]) {
      CancelledNet(s, id, user, p);
    }
  }

  lemma CancelKeeps(s: Shop, id: nat, user: nat)
    requires Valid(s)
    ensures Valid(CancelOrder(s, id, user).0)
  {
    var (t, r) := CancelOrder(s, id, user);
    if r.None? {
      AdjustItemsKeeps(s.ledger, s.orders[id].items, false, id);
      AdjustItemsRefs(s.ledger, s.orders[id].items, false, id, |s.orders|);
      forall o | 0 <= o < |s.orders| ensures OrderOk(t, o) {
        if o == id { CancelKeepsOrder(s, id, user); } else { CancelKeepsOther(s, id, user, o); }
      }
    }
  }

  lemma StatusKeeps(s: Shop, id: nat, status: Status)
    requires Valid(s)
    ensures Valid(SetStatus(s, id, status))
  {
    var t := SetStatus(s, id, status);
    forall o | 0 <= o < |t.orders| ensures OrderOk(t, o) {
      assert OrderOk(s, o);
    }
  }

  /** Changes that leave stocks and movements alone keep everything. */
  lemma ProductsKeep(s: Shop, t: Shop)
    requires Valid(s)
    requires t == s.(ledger := t.ledger) && t.ledger.movements == s.ledger.movements
    requires s.ledger.products.Keys <= t.ledger.products.Keys
    requires forall id :: id in s.ledger.products ==> t.ledger.products[id].stock == s.ledger.products[id].stock
    requires forall id :: id in t.ledger.products && id !in s.ledger.products ==> t.ledger.products[id].stock == 0
    ensures Valid(t)
  {
    forall id | id in t.ledger.products ensures t.ledger.products[id].stock == Total(t.ledger.movements, id) >= 0 {
      if id !in s.ledger.products { NoMovements(s.ledger.movements, id); }
    }
    forall o | 0 <= o < |t.orders| ensures OrderOk(t, o) {
      OrderKept(s, t, o);
    }
  }

  lemma AdjustKeeps(s: Shop, id: Id, delta: int, reason: Reason)
    requires Valid(s)
    ensures Valid(Next(s, AdjustStock(id, delta, reason)))
  {
    var r := Adjust(s.ledger, id, delta, reason, None);
    if r.Ok? {
      var t := s.(ledger := r.value);
      AdjustKeepsBalanced(s.ledger, id, delta, reason, None);
      forall o | 0 <= o < |t.orders| ensures OrderOk(t, o) {
        forall p ensures Net(t.ledger.movements, p, Some(o)) == Net(s.ledger.movements, p, Some(o)) {
          SnocSums(s.ledger.movements, t.ledger.movements[|s.ledger.movements|], p, Some(o));
        }
        OrderKept(s, t, o);
      }
    }
  }

  lemma CartChangeOk(products: map<Id, Product>, cart: seq<CartLine>, product: Id, k: nat, quantity: int)
    requires CartOk(cart) && quantity >= 1 && forall id :: id in products ==> products[id].stock >= 0
    ensures var added := AddToCart(products, cart, product, quantity); added.Ok? ==> CartOk(added.value)
    ensures var updated := UpdateCart(products, cart, k, quantity); updated.Ok? ==> CartOk(updated.value)
    ensures k < |cart| ==> CartOk(cart[..k] + cart[k + 1..])
  {
  }

  predicate ChangesCart(step: Step)
  {
    step.AddItem? || step.UpdateItem? || step.RemoveItem? || step.ClearCart?
  }

  lemma CartStepOk(s: Shop, step: Step)
    requires ChangesCart(step) && CartOk(CartOf(s.carts, step.user))
    requires forall id :: id in s.ledger.products ==> s.ledger.products[id].stock >= 0
    ensures CartOk(CartOf(NextCart(s, step).carts, step.user))
  {
    var products, cart := s.ledger.products, CartOf(s.carts, step.user);
    match step
    case AddItem(_, product, quantity) => if quantity >= 1 { CartChangeOk(products, cart, product, 0, quantity); }
    case UpdateItem(_, k, quantity) => if quantity >= 1 { CartChangeOk(products, cart, 0, k, quantity); }
    case RemoveItem(_, k) => CartChangeOk(products, cart, 0, k, 1);
    case _ =>
  }

  lemma CartsKeep(s: Shop, step: Step)
    requires Valid(s) && ChangesCart(step)
    ensures Valid(Next(s, step))
  {
    assert CartOk(CartOf(s.carts, step.user));
    CartStepOk(s, step);
    CartsReplaced(s, NextCart(s, step), step.user);
  }

  lemma CartsReplaced(s: Shop, t: Shop, user: nat)
    requires Valid(s) && t == s.(carts := t.carts)
    requires CartOk(CartOf(t.carts, user))
    requires forall other :: other in t.carts && other != user ==> other in s.carts && t.carts[other] == s.carts[other]
    ensures Valid(t)
  {
    forall o | 0 <= o < |t.orders| ensures OrderOk(t, o) {
      OrderKept(s, t, o);
    }
  }

  lemma ScanKeeps(s: Shop, list: seq<Id>, commits: seq<bool>)
    requires Valid(s)
    ensures Valid(Next(s, Scan(list, commits)))
  {
    if ScanList(s.ledger.products, list) && |commits| == |list| {
      forall id ensures ScanAll(s.ledger.products, list, commits).Keys == s.ledger.products.Keys
        && (id in s.ledger.products ==>
              ScanAll(s.ledger.products, list, commits)[id].stock == s.ledger.products[id].stock)
      {
        ScanEffect(s.ledger.products, list, commits, id);
      }
      ProductsKeep(s, Next(s, Scan(list, commits)));
    }
  }

  predicate ChangesProducts(step: Step)
  {
    step.NewProduct? || step.EditProduct? || step.SetThreshold? || step.BulkSetThreshold? || step.DeleteProduct?
  }

  lemma ProductStepKeeps(s: Shop, step: Step)
    requires Valid(s) && ChangesProducts(step)
    ensures Valid(Next(s, step))
  {
    ProductsKeep(s, Next(s, step));
  }

  lemma NextKeeps(s: Shop, step: Step)
    requires Valid(s)
    ensures Valid(Next(s, step))
  {
    match step
    case AdjustStock(id, delta, reason) => AdjustKeeps(s, id, delta, reason);
    case Scan(list, commits) => ScanKeeps(s, list, commits);
    case Create(user, addresses, cleared) => PlaceKeeps(s, user, addresses, cleared);
    case Cancel(id, user) => CancelKeeps(s, id, user);
    case UpdateStatus(id, status) => StatusKeeps(s, id, status);
    case MarkPaid(id) => StatusKeeps(s, id, Confirmed);
    case MarkRefunded(id) => StatusKeeps(s, id, Cancelled);
    case AddItem(_, _, _) => CartsKeep(s, step);
    case UpdateItem(_, _, _) => CartsKeep(s, step);
    case RemoveItem(_, _) => CartsKeep(s, step);
    case ClearCart(_) => CartsKeep(s, step);
    case _ => ProductStepKeeps(s, step);
  }

  lemma {:induction false} RunKeeps(s: Shop, steps: seq<Step>)
    requires Valid(s)
    ensures Valid(Run(s, steps))
  {
    if steps != [] {
      RunKeeps(s, steps[..|steps| - 1]);
      NextKeeps(Run(s, steps[..|steps| - 1]), steps[|steps| - 1]);
    }
  }

  lemma EmptyValid()
    ensures Valid(EMPTY)
  {
  }

  // ---------------------------------------------------------------- carts

  /** A cart as a map from products to quantities. */
  function InCart(cart: seq<CartLine>, product: Id): int
  {
    var k := LineOf(cart, product);
    if k < |cart| then cart[k].quantity else 0
  }

  lemma LineOfAt(cart: seq<CartLine>, k: nat)
    requires CartOk(cart) && k < |cart|
    ensures LineOf(cart, cart[k].product) == k
  {
  }

  /** Adding succeeds exactly when the product is there with that much stock; the cart then holds as much more
      of it, up to the stock, and the same of everything else. */
  lemma AddItemOutcome(products: map<Id, Product>, cart: seq<CartLine>, product: Id, quantity: int)
    requires CartOk(cart) && quantity >= 1
    ensures var r := AddToCart(products, cart, product, quantity);
      && (r.Ok? <==> Live(products, product) && products[product].stock >= quantity)
      && (r == Err(NoProduct) <==> !Live(products, product))
      && (r == Err(OutOfStock) <==> Live(products, product) && products[product].stock <= 0)
      && (r.Ok? ==>
            var sum, stock := InCart(cart, product) + quantity, products[product].stock;
            CartOk(r.value) && InCart(r.value, product) == if sum > stock then stock else sum)
      && (r.Ok? ==> forall other :: other != product ==> InCart(r.value, other) == InCart(cart, other))
      && (r.Ok? ==> |r.value| >= |cart| && forall i :: 0 <= i < |cart| ==> r.value[i].product == cart[i].product)
  {
    var r := AddToCart(products, cart, product, quantity);
    if r.Ok? {
      var k := LineOf(cart, product);
      LineOfAt(r.value, k);
      forall other | other != product ensures InCart(r.value, other) == InCart(cart, other) {
        var a := LineOf(cart, other);
        if a < |cart| { LineOfAt(r.value, a); }
      }
    }
  }

  /** An update succeeds exactly for a line that is there. The line then holds the quantity asked for, or the stock if
      the product is there with less; the rest of the cart stays. */
  lemma UpdateItemOutcome(products: map<Id, Product>, cart: seq<CartLine>, k: nat, quantity: int)
    requires CartOk(cart)
    ensures var r := UpdateCart(products, cart, k, quantity);
      && (r.Ok? <==> k < |cart|)
      && (r.Err? ==> r.error == NoItem)
      && (r.Ok? ==>
            var id := cart[k].product;
            var short := id in products && !products[id].deleted && products[id].stock < quantity;
            InCart(r.value, id) == if short then products[id].stock else quantity)
      && (r.Ok? ==> forall other :: other != cart[k].product ==> InCart(r.value, other) == InCart(cart, other))
  {
    if k < |cart| {
      var after := UpdateCart(products, cart, k, quantity).value;
      LineOfFirst(cart, k);
      LineOfFirst(after, k);
      forall other | other != cart[k].product ensures InCart(after, other) == InCart(cart, other) {
        LineOfSame(cart, after, other);
      }
    }
  }

  lemma LineOfFirst(cart: seq<CartLine>, k: nat)
    requires k < |cart| && forall i :: 0 <= i < k ==> cart[i].product != cart[k].product
    ensures LineOf(cart, cart[k].product) == k
  {
  }

  lemma LineOfSame(a: seq<CartLine>, b: seq<CartLine>, product: Id)
    requires |a| == |b| && forall i :: 0 <= i < |a| ==> a[i].product == b[i].product
    requires forall i :: 0 <= i < |a| && a[i].product == product ==> a[i] == b[i]
    ensures InCart(a, product) == InCart(b, product)
  {
    assert LineOf(a, product) == LineOf(b, product);
  }

  lemma LineOfGone(cart: seq<CartLine>, product: Id)
    ensures (forall i :: 0 <= i < |cart| ==> cart[i].product != product) ==> LineOf(cart, product) == |cart|
  {
  }

  /** Removing a line empties the cart of its product and keeps the rest. */
  lemma RemoveItemOutcome(cart: seq<CartLine>, k: nat)
    requires CartOk(cart) && k < |cart|
    ensures var after := cart[..k] + cart[k + 1..];
      && InCart(after, cart[k].product) == 0
      && forall other :: other != cart[k].product ==> InCart(after, other) == InCart(cart, other)
  {
    var after := cart[..k] + cart[k + 1..];
    LineOfGone(after, cart[k].product);
    forall other | other != cart[k].product ensures InCart(after, other) == InCart(cart, other) {
      var a := LineOf(cart, other);
      if a < |cart| {
        assert after[if a < k then a else a - 1] == cart[a];
        LineOfFirst(after, if a < k then a else a - 1);
      } else {
        LineOfGone(after, other);
      }
    }
  }

  /** A cart call changes only its user's cart, as the functions on one cart say; quantities below one and
      lines that are not there change nothing. */
  lemma CartStepOutcome(s: Shop, step: Step)
    requires ChangesCart(step) && |s.cancels| == |s.resets| == |s.orders|
    ensures var t := Next(s, step);
      var cart, after := CartOf(s.carts, step.user), CartOf(t.carts, step.user);
      && t == s.(carts := t.carts)
      && (forall other :: other != step.user ==> CartOf(t.carts, other) == CartOf(s.carts, other))
      && (step.ClearCart? ==> after == [])
      && (step.RemoveItem? ==>
            var k := step.position;
            after == if k < |cart| then cart[..k] + cart[k + 1..] else cart)
      && (step.AddItem? ==>
            var r := AddToCart(s.ledger.products, cart, step.product, step.quantity);
            after == if step.quantity >= 1 && r.Ok? then r.value else cart)
      && (step.UpdateItem? ==>
            var r := UpdateCart(s.ledger.products, cart, step.position, step.quantity);
            after == if step.quantity >= 1 && r.Ok? then r.value else cart)
  {
  }

  // ---------------------------------------------------------------- settings and statuses

  /** What the product calls store: a new product starts with no stock, not flagged, at cycle 0, with threshold 5
      unless a positive one is given; a settings update stores a non-negative threshold and nothing else; an edit
      stores what it is given; a deleted product keeps its row. */
  lemma ProductStepOutcome(products: map<Id, Product>, step: Step, id: Id)
    requires ChangesProducts(step)
    ensures var after := NextProducts(products, step);
      && (id in after <==> id in products || (step.NewProduct? && step.id == id))
      && (id in products ==>
            var p := products[id];
            var edited := step.EditProduct? && step.id == id && !p.deleted;
            var settled := ((step.SetThreshold? && step.id == id) || (step.BulkSetThreshold? && id in step.ids))
                       && step.threshold >= 0 && !p.deleted;
            var price := if edited && step.newPrice.Some? then step.newPrice.value else p.price;
            var threshold := if settled then step.threshold
                             else if edited && step.newThreshold.Some? then step.newThreshold.value
                             else p.threshold;
            var deleted := p.deleted || (step.DeleteProduct? && step.id == id);
            after[id] == p.(price := price, threshold := threshold, deleted := deleted))
      && (id !in products && id in after ==>
            after[id] == Product(step.price, 0, if step.threshold > 0 then step.threshold else 5, false, 0, false))
  {
  }

  /** A status update writes the status of its order alone; moving the order back to pending counts as a reset. */
  lemma StatusOutcome(s: Shop, id: nat, status: Status)
    requires |s.cancels| == |s.resets| == |s.orders|
    ensures var t := SetStatus(s, id, status);
      && t == s.(orders := t.orders, resets := t.resets) && |t.orders| == |s.orders| && |t.resets| == |s.resets|
      && (forall o :: 0 <= o < |s.orders| ==>
            t.orders[o] == if o == id then s.orders[o].(status := status) else s.orders[o])
      && (forall o :: 0 <= o < |s.orders| ==>
            var back := o == id && status == Pending && s.orders[o].status != Pending;
            t.resets[o] == s.resets[o] + if back then 1 else 0)
  {
  }

  /** A manual adjustment moves the ledger alone, and not at all if it fails. */
  lemma AdjustStepOutcome(s: Shop, id: Id, delta: int, reason: Reason)
    requires |s.cancels| == |s.resets| == |s.orders|
    ensures var r := Adjust(s.ledger, id, delta, reason, None);
      Next(s, AdjustStock(id, delta, reason)) == if r.Ok? then s.(ledger := r.value) else s
  {
  }

  /** A payment confirms a pending order and leaves any other status; a refund cancels the order. */
  lemma PaymentStatusOutcome(s: Shop, id: nat)
    requires |s.cancels| == |s.resets| == |s.orders| && id < |s.orders|
    ensures Next(s, MarkPaid(id)) == if s.orders[id].status == Pending then SetStatus(s, id, Confirmed) else s
    ensures id < |Next(s, MarkRefunded(id)).orders| && Next(s, MarkRefunded(id)).orders[id].status == Cancelled
  {
  }

  // ---------------------------------------------------------------- conservation

  /** What the first n orders have taken of a product and not given back. */
  function Outstanding(orders: seq<Order>, cancels: seq<nat>, id: Id): int
    requires |cancels| == |orders|
  {
    if orders == [] then 0
    else
      var n := |orders| - 1;
      Outstanding(orders[..n], cancels[..n], id) - Returned(Qty(orders[n].items, id), cancels[n])
  }

  ghost function NetOfOrders(ms: seq<Movement>, id: Id, n: nat): int
  {
    if n == 0 then 0 else NetOfOrders(ms, id, n - 1) + Net(ms, id, Some(n - 1))
  }

  lemma {:induction false} NetOfOrdersSnoc(ms: seq<Movement>, m: Movement, id: Id, n: nat)
    ensures NetOfOrders(ms + [m], id, n) == NetOfOrders(ms, id, n)
         + (if m.product == id && m.order.Some? && m.order.value < n then m.delta else 0)
  {
    if n > 0 {
      NetOfOrdersSnoc(ms, m, id, n - 1);
      SnocSums(ms, m, id, Some(n - 1));
    }
  }

  lemma {:induction false} NetOfNothing(id: Id, n: nat)
    ensures NetOfOrders([], id, n) == 0
  {
    if n > 0 { NetOfNothing(id, n - 1); }
  }

  /** The ledger splits into manual movements and those of the orders. */
  lemma {:induction false} TotalSplits(ms: seq<Movement>, id: Id, n: nat)
    requires RefsBelow(ms, n)
    ensures Total(ms, id) == Net(ms, id, None) + NetOfOrders(ms, id, n)
  {
    if ms == [] {
      NetOfNothing(id, n);
    } else {
      var before, m := ms[..|ms| - 1], ms[|ms| - 1];
      assert ms == before + [m] && m in ms;
      TotalSplits(before, id, n);
      NetOfOrdersSnoc(before, m, id, n);
    }
  }

  lemma {:induction false} NetOfOrdersIsOutstanding(s: Shop, id: Id, n: nat)
    requires Valid(s) && n <= |s.orders|
    ensures NetOfOrders(s.ledger.movements, id, n) == -Outstanding(s.orders[..n], s.cancels[..n], id)
  {
    if n > 0 {
      NetOfOrdersIsOutstanding(s, id, n - 1);
      assert OrderOk(s, n - 1);
      assert s.orders[..n][..n - 1] == s.orders[..n - 1] && s.cancels[..n][..n - 1] == s.cancels[..n - 1];
    }
  }

  /** In every reachable shop a product's stock is what was put in by hand less what its orders took
      and did not give back; every balance ever written is the sum of the deltas up to it and is not negative. */
  lemma {:induction false} StockConserved(steps: seq<Step>, id: Id)
    requires id in Run(EMPTY, steps).ledger.products
    ensures var s := Run(EMPTY, steps);
      && s.ledger.products[id].stock == Net(s.ledger.movements, id, None) - Outstanding(s.orders, s.cancels, id) >= 0
      && (forall k :: 0 <= k < |s.ledger.movements| ==> BalanceOk(s.ledger.movements, k))
  {
    EmptyValid();
    RunKeeps(EMPTY, steps);
    var s := Run(EMPTY, steps);
    TotalSplits(s.ledger.movements, id, |s.orders|);
    NetOfOrdersIsOutstanding(s, id, |s.orders|);
    assert s.orders[..|s.orders|] == s.orders && s.cancels[..|s.orders|] == s.cancels;
  }

  /** An order gives its goods back at most once more than it is moved back to pending;
      while pending, at most as often. */
  lemma {:induction false} CancelsBounded(steps: seq<Step>, o: nat)
    requires o < |Run(EMPTY, steps).orders|
    ensures var s := Run(EMPTY, steps);
      s.cancels[o] <= s.resets[o] + (if s.orders[o].status == Pending then 0 else 1)
  {
    EmptyValid();
    RunKeeps(EMPTY, steps);
    assert OrderOk(Run(EMPTY, steps), o);
  }

  lemma PlacingResets(s: Shop, user: nat, addresses: bool, cleared: bool)
    requires |s.cancels| == |s.resets| == |s.orders|
    ensures var t := PlaceOrder(s, user, addresses, cleared).0; t.resets == s.resets || t.resets == s.resets + [0]
  {
  }

  lemma StatusResets(s: Shop, id: nat, status: Status, o: nat)
    requires |s.cancels| == |s.resets| == |s.orders| && o < |s.orders|
    requires !(id == o && status == Pending)
    ensures SetStatus(s, id, status).resets[o] == s.resets[o]
  {
  }

  /** Only an admin update of this order to pending counts as moving it back. */
  lemma NextResets(s: Shop, step: Step, o: nat)
    requires |s.cancels| == |s.resets| == |s.orders| && step != UpdateStatus(o, Pending)
    ensures var t := Next(s, step);
      o < |t.resets| ==> t.resets[o] == if o < |s.resets| then s.resets[o] else 0
  {
    match step
    case Create(user, addresses, cleared) => PlacingResets(s, user, addresses, cleared);
    case UpdateStatus(id, status) => if o < |s.orders| { StatusResets(s, id, status, o); }
    case MarkPaid(id) => if o < |s.orders| { StatusResets(s, id, Confirmed, o); }
    case MarkRefunded(id) => if o < |s.orders| { StatusResets(s, id, Cancelled, o); }
    case _ => assert Next(s, step).resets == s.resets;
  }

  lemma {:induction false} ResetsAreSteps(s: Shop, steps: seq<Step>, o: nat)
    requires |s.cancels| == |s.resets| == |s.orders|
    requires forall step :: step in steps ==> step != UpdateStatus(o, Pending)
    requires o < |s.orders| ==> s.resets[o] == 0
    ensures o < |Run(s, steps).orders| ==> Run(s, steps).resets[o] == 0
  {
    if steps != [] {
      var n := |steps| - 1;
      assert steps[n] in steps && forall step :: step in steps[..n] ==> step in steps;
      ResetsAreSteps(s, steps[..n], o);
      NextResets(Run(s, steps[..n]), steps[n], o);
    }
  }

  /** On runs in which no admin update sets an order to pending, it gives its goods back at most once. */
  lemma {:induction false} CancelledAtMostOnce(steps: seq<Step>, o: nat)
    requires o < |Run(EMPTY, steps).orders|
    requires forall step :: step in steps ==> step != UpdateStatus(o, Pending)
    ensures Run(EMPTY, steps).cancels[o] <= 1
  {
    CancelsBounded(steps, o);
    ResetsAreSteps(EMPTY, steps, o);
  }

  // ---------------------------------------------------------------- the low-stock latch

  lemma AdjustItemsKeepsLatch(s: Ledger, items: seq<Item>, taking: bool, order: nat, id: Id, exact: bool)
    requires Latched(s, id, exact) && AdjustItems(s, items, taking, order).Ok?
    ensures Latched(AdjustItems(s, items, taking, order).value, id, exact)
  {
    forall t, moved, delta, reason | Latched(t, id, exact) && Adjust(t, moved, delta, reason, Some(order)).Ok?
      ensures Latched(Adjust(t, moved, delta, reason, Some(order)).value, id, exact)
    {
      AdjustKeepsLatch(t, moved, delta, reason, Some(order), id, exact);
    }
    AdjustItemsKeep(s, items, taking, order, (t: Ledger) => Latched(t, id, exact));
  }

  predicate SetsThreshold(step: Step, id: Id)
  {
    || (step.SetThreshold? && step.id == id)
    || (step.BulkSetThreshold? && id in step.ids)
    || (step.EditProduct? && step.id == id && step.newThreshold.Some?)
  }

  predicate Scans(step: Step, id: Id)
  {
    step.Scan? && id in step.list
  }

  lemma ProductsKeepLatch(s: Shop, step: Step, id: Id, exact: bool)
    requires Valid(s) && Latched(s.ledger, id, exact) && ChangesProducts(step) && !SetsThreshold(step, id)
    ensures Latched(Next(s, step).ledger, id, exact)
  {
    if id !in s.ledger.products { NoMovements(s.ledger.movements, id); }
  }

  lemma ScanKeepsLatch(s: Shop, list: seq<Id>, commits: seq<bool>, id: Id, exact: bool)
    requires Latched(s.ledger, id, exact) && (exact ==> id !in list) && |s.cancels| == |s.resets| == |s.orders|
    ensures Latched(Next(s, Scan(list, commits)).ledger, id, exact)
  {
    if ScanList(s.ledger.products, list) && |commits| == |list| {
      ScanEffect(s.ledger.products, list, commits, id);
      assert id in list ==> id in Unnotified(s.ledger.products);
    }
  }

  lemma PlaceKeepsLatch(s: Shop, user: nat, addresses: bool, cleared: bool, id: Id, exact: bool)
    requires Latched(s.ledger, id, exact)
    ensures Latched(PlaceOrder(s, user, addresses, cleared).0.ledger, id, exact)
  {
    if PlaceOrder(s, user, addresses, cleared).1.Ok? {
      var items := Eligible(s.ledger.products, CartOf(s.carts, user));
      AdjustItemsKeepsLatch(s.ledger, items, true, |s.orders|, id, exact);
    }
  }

  lemma CancelKeepsLatch(s: Shop, order: nat, user: nat, id: Id, exact: bool)
    requires Latched(s.ledger, id, exact) && |s.cancels| == |s.orders|
    ensures Latched(CancelOrder(s, order, user).0.ledger, id, exact)
  {
    if CancelOrder(s, order, user).1.None? {
      AdjustItemsKeepsLatch(s.ledger, s.orders[order].items, false, order, id, exact);
    }
  }

  lemma OrdersKeepLatch(s: Shop, step: Step, id: Id, exact: bool)
    requires Valid(s) && Latched(s.ledger, id, exact) && (step.AdjustStock? || step.Create? || step.Cancel?)
    ensures Latched(Next(s, step).ledger, id, exact)
  {
    match step
    case AdjustStock(moved, delta, reason) =>
      if Adjust(s.ledger, moved, delta, reason, None).Ok? {
        AdjustKeepsLatch(s.ledger, moved, delta, reason, None, id, exact);
      }
    case Create(user, addresses, cleared) => PlaceKeepsLatch(s, user, addresses, cleared, id, exact);
    case Cancel(order, user) => CancelKeepsLatch(s, order, user, id, exact);
  }

  lemma NextKeepsLatch(s: Shop, step: Step, id: Id, exact: bool)
    requires Valid(s) && Latched(s.ledger, id, exact) && !SetsThreshold(step, id) && (exact ==> !Scans(step, id))
    ensures Latched(Next(s, step).ledger, id, exact)
  {
    if step.AdjustStock? || step.Create? || step.Cancel? {
      OrdersKeepLatch(s, step, id, exact);
    } else if step.Scan? {
      ScanKeepsLatch(s, step.list, step.commits, id, exact);
    } else if ChangesProducts(step) {
      ProductsKeepLatch(s, step, id, exact);
    } else {
      assert Next(s, step).ledger == s.ledger;
    }
  }

  lemma {:induction false} RunKeepsLatch(steps: seq<Step>, id: Id, exact: bool)
    requires forall step :: step in steps ==> !SetsThreshold(step, id) && (exact ==> !Scans(step, id))
    ensures Latched(Run(EMPTY, steps).ledger, id, exact)
  {
    if steps != [] {
      var n := |steps| - 1;
      assert steps[n] in steps && forall step :: step in steps[..n] ==> step in steps;
      RunKeepsLatch(steps[..n], id, exact);
      EmptyValid();
      RunKeeps(EMPTY, steps[..n]);
      NextKeepsLatch(Run(EMPTY, steps[..n]), steps[n], id, exact);
    }
  }

  /** A product whose threshold stays as created is, once it has moved, flagged exactly while it is low, and no
      scan selects it then. Its cycle is the number of times it went low; it can be one more only if a scan
      listed it, and only if it has not moved yet or moved first to a high stock. */
  lemma {:induction false} LatchCountsExcursions(steps: seq<Step>, id: Id)
    requires forall step :: step in steps ==> !SetsThreshold(step, id)
    requires id in Run(EMPTY, steps).ledger.products
    ensures var s := Run(EMPTY, steps).ledger;
      var p, h := s.products[id], History(s.movements, id);
      var level := if p.threshold > 0 then p.threshold else 5;
      var runs := LowRuns(h, level);
      && (h != [] ==> (p.notified <==> p.stock <= level) && !Scannable(p))
      && (p.cycle == runs || (p.cycle == runs + 1 && (h == [] || h[0] > level)))
      && ((forall step :: step in steps ==> !Scans(step, id)) ==> p.cycle == runs)
  {
    RunKeepsLatch(steps, id, false);
    if forall step :: step in steps ==> !Scans(step, id) {
      RunKeepsLatch(steps, id, true);
    }
  }

  // ---------------------------------------------------------------- placing orders

  /** Taking stock for a list of items succeeds exactly when every product is there and
      holds all the items that name it. */
  lemma {:induction false} TakeSucceedsIff(s: Ledger, items: seq<Item>, order: nat)
    requires Balanced(s) && forall item :: item in items ==> item.quantity >= 0
    ensures AdjustItems(s, items, true, order).Ok? <==>
      && (forall item :: item in items ==> Live(s.products, item.product))
      && (forall id :: id in s.products ==> Qty(items, id) <= s.products[id].stock)
  {
    if items != [] {
      var n := |items| - 1;
      var last := items[n];
      assert items == items[..n] + [last];
      TakeSucceedsIff(s, items[..n], order);
      if AdjustItems(s, items, true, order).Ok? {
        AdjustItemsKeeps(s, items, true, order);
        AdjustItemsLive(s, items, true, order);
        forall id | id in s.products ensures Qty(items, id) <= s.products[id].stock {
          AdjustItemsMoves(s, items, true, order, id, None);
        }
      } else if AdjustItems(s, items[..n], true, order).Ok? {
        AdjustItemsMoves(s, items[..n], true, order, last.product, None);
      } else if forall id :: id in s.products ==> Qty(items, id) <= s.products[id].stock {
        assert forall id :: id in s.products ==> Qty(items[..n], id) <= Qty(items, id);
      }
    }
  }

  lemma {:induction false} EligibleAbsent(products: map<Id, Product>, cart: seq<CartLine>, id: Id)
    requires forall line :: line in cart ==> line.product != id
    ensures Qty(Eligible(products, cart), id) == 0
  {
    if cart != [] {
      var n := |cart| - 1;
      assert cart[n] in cart && forall line :: line in cart[..n] ==> line in cart;
      EligibleAbsent(products, cart[..n], id);
      QtyOfEligible(products, cart, id);
    }
  }

  lemma QtyOfEligible(products: map<Id, Product>, cart: seq<CartLine>, id: Id)
    requires cart != []
    ensures var line := cart[|cart| - 1];
      Qty(Eligible(products, cart), id) == Qty(Eligible(products, cart[..|cart| - 1]), id)
        + if Live(products, line.product) && products[line.product].stock >= line.quantity && line.product == id
          then line.quantity else 0
  {
    var before := Eligible(products, cart[..|cart| - 1]);
    var items := Eligible(products, cart);
    if items != before {
      assert items[..|items| - 1] == before;
    }
  }

  lemma {:induction false} EligibleFits(products: map<Id, Product>, cart: seq<CartLine>, id: Id)
    requires CartOk(cart) && id in products && products[id].stock >= 0
    ensures Qty(Eligible(products, cart), id) <= products[id].stock
  {
    if cart != [] {
      var n := |cart| - 1;
      QtyOfEligible(products, cart, id);
      if cart[n].product == id {
        EligibleAbsent(products, cart[..n], id);
      } else {
        EligibleFits(products, cart[..n], id);
      }
    }
  }

  /** What placing an order with these items must have done. */
  ghost predicate Placed(s: Shop, t: Shop, user: nat, id: nat, items: seq<Item>, cleared: bool)
  {
    && id == |s.orders| && |t.orders| == |s.orders| + 1 && t.orders[..id] == s.orders
    && t.orders[id].user == user && t.orders[id].status == Pending && t.orders[id].items == items
    && t.orders[id].subtotal == t.orders[id].total == Subtotal(items)
    && CartOf(t.carts, user) == (if cleared then [] else CartOf(s.carts, user))
    && t.ledger.products.Keys == s.ledger.products.Keys
    && forall p :: p in s.ledger.products ==> t.ledger.products[p].stock == s.ledger.products[p].stock - Qty(items, p)
  }

  /** A cart line an order takes: its product is there with that much stock. */
  predicate Takeable(products: map<Id, Product>, line: CartLine)
  {
    line.product in products && !products[line.product].deleted && products[line.product].stock >= line.quantity
  }

  /** An item is a cart line's product and quantity at the product's price. */
  predicate Bills(products: map<Id, Product>, line: CartLine, item: Item)
  {
    && item.product == line.product && item.quantity == line.quantity
    && line.product in products && item.unitPrice == products[line.product].price
    && item.totalPrice == item.unitPrice * item.quantity
  }

  /** The items stand one for one, in the cart's order, for the lines that can be taken. */
  ghost predicate TakenAt(products: map<Id, Product>, cart: seq<CartLine>, items: seq<Item>, picks: seq<nat>)
  {
    && |picks| == |items|
    && (forall a, b :: 0 <= a < b < |picks| ==> picks[a] < picks[b])
    && (forall a :: 0 <= a < |picks| ==> picks[a] < |cart| && Bills(products, cart[picks[a]], items[a]))
    && (forall i :: 0 <= i < |cart| ==> (i in picks <==> Takeable(products, cart[i])))
  }

  /** The sum of price by quantity over the lines that can be taken. */
  function TakenTotal(products: map<Id, Product>, cart: seq<CartLine>): int
  {
    if cart == [] then 0
    else
      var line := cart[|cart| - 1];
      TakenTotal(products, cart[..|cart| - 1])
        + if Takeable(products, line) then products[line.product].price * line.quantity else 0
  }

  lemma EligibleSnoc(products: map<Id, Product>, cart: seq<CartLine>)
    requires cart != []
    ensures var line, before := cart[|cart| - 1], Eligible(products, cart[..|cart| - 1]);
      Eligible(products, cart)
      == if Takeable(products, line) then before + [ItemFor(line, products[line.product].price)] else before
  {
    var before := Eligible(products, cart[..|cart| - 1]);
    assert before + [] == before;
  }

  lemma SkippedLine(products: map<Id, Product>, cart: seq<CartLine>, items: seq<Item>, picks: seq<nat>)
    requires cart != [] && TakenAt(products, cart[..|cart| - 1], items, picks)
    requires !Takeable(products, cart[|cart| - 1])
    ensures TakenAt(products, cart, items, picks)
  {
    assert forall i :: 0 <= i < |cart| - 1 ==> cart[..|cart| - 1][i] == cart[i];
  }

  lemma TakenLine(products: map<Id, Product>, cart: seq<CartLine>, items: seq<Item>, picks: seq<nat>)
    requires cart != [] && items != [] && TakenAt(products, cart[..|cart| - 1], items[..|items| - 1], picks)
    requires Takeable(products, cart[|cart| - 1]) && Bills(products, cart[|cart| - 1], items[|items| - 1])
    ensures TakenAt(products, cart, items, picks + [|cart| - 1])
  {
    var n := |cart| - 1;
    assert forall i :: 0 <= i < n ==> cart[..n][i] == cart[i];
    forall i | 0 <= i < |cart| ensures i in picks + [n] <==> Takeable(products, cart[i]) {
      assert i < n ==> (i in picks <==> Takeable(products, cart[..n][i]));
    }
    forall a | 0 <= a < |picks| ensures Bills(products, cart[picks[a]], items[a]) {
      assert Bills(products, cart[..n][picks[a]], items[..|items| - 1][a]);
    }
  }

  lemma {:induction false} EligibleTaken(products: map<Id, Product>, cart: seq<CartLine>) returns (picks: seq<nat>)
    ensures TakenAt(products, cart, Eligible(products, cart), picks)
  {
    picks := [];
    if cart != [] {
      var n := |cart| - 1;
      var before, items := Eligible(products, cart[..n]), Eligible(products, cart);
      picks := EligibleTaken(products, cart[..n]);
      EligibleSnoc(products, cart);
      if Takeable(products, cart[n]) {
        assert items[..|items| - 1] == before;
        TakenLine(products, cart, items, picks);
        picks := picks + [n];
      } else {
        SkippedLine(products, cart, items, picks);
      }
    }
  }

  lemma {:induction false} EligibleTotal(products: map<Id, Product>, cart: seq<CartLine>)
    ensures Subtotal(Eligible(products, cart)) == TakenTotal(products, cart)
  {
    if cart != [] {
      var n := |cart| - 1;
      EligibleTotal(products, cart[..n]);
      EligibleSnoc(products, cart);
      if Takeable(products, cart[n]) {
        SubtotalSnoc(Eligible(products, cart[..n]), ItemFor(cart[n], products[cart[n].product].price));
      }
    }
  }

  /** An order's items are the cart's lines that can be taken, one for one and in order, each at its product's price
      when the order is placed; the subtotal and the total are the sum over those lines. */
  lemma PlacedItems(s: Shop, user: nat, addresses: bool, cleared: bool) returns (picks: seq<nat>)
    requires PlaceOrder(s, user, addresses, cleared).1.Ok?
    ensures var (t, r) := PlaceOrder(s, user, addresses, cleared);
      && r.value < |t.orders|
      && TakenAt(s.ledger.products, CartOf(s.carts, user), t.orders[r.value].items, picks)
      && t.orders[r.value].subtotal == t.orders[r.value].total == TakenTotal(s.ledger.products, CartOf(s.carts, user))
  {
    picks := EligibleTaken(s.ledger.products, CartOf(s.carts, user));
    EligibleTotal(s.ledger.products, CartOf(s.carts, user));
  }

  /** In a reachable shop an order is placed exactly when the cart holds something that can be taken:
      the stock transaction never fails. A refused order changes nothing; a placed one has its totals
      right, empties the cart unless that fails, and takes exactly its quantities. */
  lemma {:induction false} PlaceOrderOutcome(steps: seq<Step>, user: nat, addresses: bool, cleared: bool)
    ensures var s := Run(EMPTY, steps);
      var (t, r) := PlaceOrder(s, user, addresses, cleared);
      var items := Eligible(s.ledger.products, CartOf(s.carts, user));
      && (r.Ok? <==> addresses && items != [])
      && (r.Err? ==> t == s)
      && (r.Err? ==> r.error == if CartOf(s.carts, user) != [] && !addresses then AddressNotFound else EmptyCart)
      && (r.Ok? ==> Placed(s, t, user, r.value, items, cleared))
  {
    EmptyValid();
    RunKeeps(EMPTY, steps);
    var s := Run(EMPTY, steps);
    var cart := CartOf(s.carts, user);
    var items := Eligible(s.ledger.products, cart);
    assert CartOk(cart);
    EligibleFacts(s.ledger.products, cart);
    forall id | id in s.ledger.products ensures Qty(items, id) <= s.ledger.products[id].stock {
      EligibleFits(s.ledger.products, cart, id);
    }
    TakeSucceedsIff(s.ledger, items, |s.orders|);
    if AdjustItems(s.ledger, items, true, |s.orders|).Ok? {
      AdjustItemsKeeps(s.ledger, items, true, |s.orders|);
    }
    forall id | id in s.ledger.products && AdjustItems(s.ledger, items, true, |s.orders|).Ok?
      ensures var t := AdjustItems(s.ledger, items, true, |s.orders|).value;
        id in t.products && t.products[id].stock == s.ledger.products[id].stock - Qty(items, id)
    {
      AdjustItemsMoves(s.ledger, items, true, |s.orders|, id, None);
    }
  }

  lemma {:induction false} GiveBackSucceeds(s: Ledger, items: seq<Item>, order: nat)
    requires Balanced(s)
    requires forall item :: item in items ==> item.quantity >= 0 && Live(s.products, item.product)
    ensures AdjustItems(s, items, false, order).Ok?
  {
    if items != [] {
      var n := |items| - 1;
      assert items[n] in items;
      GiveBackSucceeds(s, items[..n], order);
      AdjustItemsKeeps(s, items[..n], false, order);
      AdjustItemsMoves(s, items[..n], false, order, items[n].product, None);
    }
  }

  /** What an order takes can be given back, and giving it back restores every stock. */
  lemma GiveBackUndoesTaking(s: Ledger, items: seq<Item>, order: nat)
    requires Balanced(s) && (forall item :: item in items ==> item.quantity >= 0)
    requires AdjustItems(s, items, true, order).Ok?
    ensures var t := AdjustItems(s, items, true, order).value;
      var r := AdjustItems(t, items, false, order);
      && r.Ok? && r.value.products.Keys == s.products.Keys
      && forall id :: id in s.products ==> r.value.products[id].stock == s.products[id].stock
  {
    var t := AdjustItems(s, items, true, order).value;
    AdjustItemsKeeps(s, items, true, order);
    AdjustItemsLive(s, items, true, order);
    forall item | item in items ensures Live(t.products, item.product) {
      AdjustItemsMoves(s, items, true, order, item.product, None);
    }
    GiveBackSucceeds(t, items, order);
    AdjustItemsKeeps(t, items, false, order);
    forall id | id in s.products
      ensures AdjustItems(t, items, false, order).value.products[id].stock == s.products[id].stock
    {
      AdjustItemsMoves(s, items, true, order, id, None);
      AdjustItemsMoves(t, items, false, order, id, None);
    }
  }

  /** Cancelling an order just placed succeeds and puts every product's stock back where it was. */
  lemma CancelUndoesPlacing(s: Shop, user: nat, addresses: bool, cleared: bool)
    requires Valid(s) && PlaceOrder(s, user, addresses, cleared).1.Ok?
    ensures var (t, r) := PlaceOrder(s, user, addresses, cleared);
      && |t.cancels| == |t.orders|
      && var (u, e) := CancelOrder(t, r.value, user);
      && e.None? && u.orders[r.value].status == Cancelled
      && u.ledger.products.Keys == s.ledger.products.Keys
      && forall id :: id in s.ledger.products ==> u.ledger.products[id].stock == s.ledger.products[id].stock
  {
    var cart := CartOf(s.carts, user);
    assert CartOk(cart);
    EligibleFacts(s.ledger.products, cart);
    GiveBackUndoesTaking(s.ledger, Eligible(s.ledger.products, cart), |s.orders|);
  }

  /** Without the condition on admin updates a second restock is possible: cancel, set back, cancel
      puts the goods of an order of any quantity back twice. */
  lemma SecondRestock(s: Shop, o: nat, id: Id)
    requires Valid(s) && o < |s.orders| && s.orders[o].status == Pending && id in s.ledger.products
    requires forall item :: item in s.orders[o].items ==> Live(s.ledger.products, item.product)
    ensures var user := s.orders[o].user;
      var t := CancelOrder(s, o, user).0;
      && |t.resets| == |t.orders|
      && var back := SetStatus(t, o, Pending);
      && |back.cancels| == |back.orders|
      && var (u, e) := CancelOrder(back, o, user);
      && e.None? && id in u.ledger.products
      && u.ledger.products[id].stock == s.ledger.products[id].stock + 2 * Qty(s.orders[o].items, id)
  {
    var user, items := s.orders[o].user, s.orders[o].items;
    assert OrderOk(s, o);
    GiveBackSucceeds(s.ledger, items, o);
    CancelKeeps(s, o, user);
    var t := CancelOrder(s, o, user).0;
    forall item | item in items ensures Live(t.ledger.products, item.product) {
      AdjustItemsMoves(s.ledger, items, false, o, item.product, None);
    }
    GiveBackSucceeds(t.ledger, items, o);
    AdjustItemsMoves(s.ledger, items, false, o, id, None);
    AdjustItemsMoves(t.ledger, items, false, o, id, None);
  }

  /** When a cancellation fails, for whatever caller, and what it does when it does not. */
  lemma CancelOrderOutcome(s: Shop, o: nat, user: nat)
    requires Valid(s)
    ensures var (t, e) := CancelOrder(s, o, user);
      var own := o < |s.orders| && s.orders[o].user == user;
      && (e == Some(OrderNotFound) <==> !own)
      && (e == Some(NotPending) <==> own && s.orders[o].status != Pending)
      && (e.None? <==> own && s.orders[o].status == Pending
                       && forall item :: item in s.orders[o].items ==> Live(s.ledger.products, item.product))
      && (e.Some? ==> t == s)
      && (e.None? ==>
            && t.orders == s.orders[o := s.orders[o].(status := Cancelled)] && t.carts == s.carts
            && t.cancels == s.cancels[o := s.cancels[o] + 1] && t.resets == s.resets
            && AdjustItems(s.ledger, s.orders[o].items, false, o) == Ok(t.ledger))
  {
    if o < |s.orders| {
      var items := s.orders[o].items;
      assert OrderOk(s, o);
      if forall item :: item in items ==> Live(s.ledger.products, item.product) {
        GiveBackSucceeds(s.ledger, items, o);
      }
      if AdjustItems(s.ledger, items, false, o).Ok? { AdjustItemsLive(s.ledger, items, false, o); }
    }
  }

  /** An order is given back again by setting its status and cancelling exactly when it was given back before, the
      status set is pending, and all its products are still there; then its quantities go back once more. */
  lemma RestockedAgainIff(s: Shop, o: nat, status: Status, id: Id)
    requires Valid(s) && o < |s.orders|
    ensures var back := SetStatus(s, o, status);
      && |back.cancels| == |back.orders|
      && var (u, e) := CancelOrder(back, o, s.orders[o].user);
      var items := s.orders[o].items;
      && (e.None? && u.cancels[o] >= 2
          <==> status == Pending && s.cancels[o] >= 1
               && forall item :: item in items ==> Live(s.ledger.products, item.product))
      && (e.None? && id in s.ledger.products ==>
            id in u.ledger.products && u.ledger.products[id].stock == s.ledger.products[id].stock + Qty(items, id))
  {
    var items := s.orders[o].items;
    assert OrderOk(s, o);
    if forall item :: item in items ==> Live(s.ledger.products, item.product) {
      GiveBackSucceeds(s.ledger, items, o);
    }
    if AdjustItems(s.ledger, items, false, o).Ok? {
      AdjustItemsLive(s.ledger, items, false, o);
      AdjustItemsMoves(s.ledger, items, false, o, id, None);
    }
  }

  // ---------------------------------------------------------------- the services

  /** The inventory, order and cart services over their shared tables. The two counts record history. */
  class Store {
    var products: map<Id, Product>
    var movements: seq<Movement>
    var orders: seq<Order>
    var carts: map<nat, seq<CartLine>>
    ghost var cancels: seq<nat>
    ghost var resets: seq<nat>

    ghost function View(): Shop
      reads this
    {
      Shop(Ledger(products, movements), orders, carts, cancels, resets)
    }

    constructor ()
      ensures View() == EMPTY
    {
      products, movements, orders, carts, cancels, resets := map[], [], [], map[], [], [];
    }

    method HandleThreshold(id: Id)
      requires id in products
      modifies `products
      ensures products == old(products)[id := Stock.HandleThreshold(old(products)[id])]
    {
      var p := products[id];
      var threshold := p.threshold;
      if threshold <= 0 {
        threshold := DEFAULT_LOW_STOCK_THRESHOLD;
      }
      if p.stock <= threshold {
        if !p.notified {
          products := products[id := p.(cycle := p.cycle + 1, notified := true)];
        }
      } else if p.notified {
        products := products[id := p.(notified := false)];
      }
    }

    method AdjustStock(id: Id, delta: int, reason: Reason, order: Option<nat>) returns (e: Option<StockError>)
      modifies `products, `movements
      ensures match Adjust(old(View()).ledger, id, delta, reason, order)
              case Ok(t) => e.None? && View().ledger == t
              case Err(cause) => e == Some(cause) && View() == old(View())
    {
      if id !in products || products[id].deleted {
        return Some(ProductNotFound);
      }
      var after := products[id].stock + delta;
      if after < 0 {
        return Some(NegativeStock);
      }
      products := products[id := products[id].(stock := after)];
      movements := movements + [Movement(id, delta, after, reason, order)];
      HandleThreshold(id);
      e := None;
    }

    /** The transaction's loop over an order's items; on an error nothing of it remains. */
    method AdjustAll(items: seq<Item>, taking: bool, order: nat) returns (e: Option<StockError>)
      modifies `products, `movements
      ensures match AdjustItems(old(View()).ledger, items, taking, order)
              case Ok(t) => e.None? && View().ledger == t
              case Err(cause) => e == Some(cause) && View() == old(View())
    {
      var savedProducts, savedMovements := products, movements;
      for i := 0 to |items|
        invariant AdjustItems(old(View()).ledger, items[..i], taking, order) == Ok(View().ledger)
      {
        assert items[..i + 1][..i] == items[..i];
        if taking {
          e := AdjustStock(items[i].product, -items[i].quantity, ForOrder, Some(order));
        } else {
          e := AdjustStock(items[i].product, items[i].quantity, ForCancel, Some(order));
        }
        if e.Some? {
          products, movements := savedProducts, savedMovements;
          FailurePersists(old(View()).ledger, items, i + 1, taking, order);
          return;
        }
      }
      assert items[..|items|] == items;
      e := None;
    }

    /** The loop that turns cart lines into order items. */
    method CollectItems(cart: seq<CartLine>) returns (items: seq<Item>, subtotal: int)
      ensures items == Eligible(products, cart) && subtotal == Subtotal(items)
      ensures subtotal == TakenTotal(products, cart) && exists picks :: TakenAt(products, cart, items, picks)
    {
      subtotal := 0;
      items := [];
      for i := 0 to |cart|
        invariant items == Eligible(products, cart[..i]) && subtotal == Subtotal(items)
      {
        assert cart[..i + 1][..i] == cart[..i];
        var line := cart[i];
        if !Live(products, line.product) || products[line.product].stock < line.quantity {
          continue;
        }
        var item := ItemFor(line, products[line.product].price);
        SubtotalSnoc(items, item);
        subtotal := subtotal + item.totalPrice;
        items := items + [item];
      }
      assert cart[..|cart|] == cart;
      EligibleTotal(products, cart);
      ghost var picks := EligibleTaken(products, cart);
    }

    method Create(user: nat, addresses: bool, cleared: bool) returns (r: Result<nat, OrderError>)
      modifies this
      ensures (View(), r) == PlaceOrder(old(View()), user, addresses, cleared)
    {
      var cart := CartOf(carts, user);
      if cart == [] {
        return Err(EmptyCart);
      }
      if !addresses {
        return Err(AddressNotFound);
      }
      var items, subtotal := CollectItems(cart);
      if items == [] {
        return Err(EmptyCart);
      }
      var id := |orders|;
      var e := AdjustAll(items, true, id);
      if e.Some? {
        return Err(StockProblem(e.value));
      }
      orders := orders + [Order(user, Pending, items, subtotal, subtotal)];
      cancels, resets := cancels + [0], resets + [0];
      if cleared {
        carts := carts[user := []];
      }
      r := Ok(id);
    }

    method Cancel(id: nat, user: nat) returns (e: Option<OrderError>)
      requires |cancels| == |orders|
      modifies this
      ensures (View(), e) == CancelOrder(old(View()), id, user)
    {
      if id >= |orders| || orders[id].user != user {
        return Some(OrderNotFound);
      }
      if orders[id].status != Pending {
        return Some(NotPending);
      }
      var failure := AdjustAll(orders[id].items, false, id);
      if failure.Some? {
        return Some(StockProblem(failure.value));
      }
      orders := orders[id := orders[id].(status := Cancelled)];
      cancels := cancels[id := cancels[id] + 1];
      e := None;
    }

    method UpdateStatus(id: nat, status: Status) returns (found: bool)
      requires |resets| == |orders|
      modifies `orders, `resets
      ensures View() == SetStatus(old(View()), id, status) && found == (id < |orders|)
    {
      if id >= |orders| {
        return false;
      }
      if status == Pending && orders[id].status != Pending {
        resets := resets[id := resets[id] + 1];
      }
      orders := orders[id := orders[id].(status := status)];
      found := true;
    }

    /** `list` is what the query returned; `commits` says which transactions commit. */
    method ScanLowStock(list: seq<Id>, commits: seq<bool>) returns (count: nat)
      requires ScanList(products, list) && |commits| == |list|
      modifies `products
      ensures products == ScanAll(old(products), list, commits)
      ensures count == multiset(commits)[true]
    {
      count := 0;
      ghost var start := products;
      for i := 0 to |list|
        invariant products == ScanAll(start, list[..i], commits[..i])
        invariant count == multiset(commits[..i])[true]
      {
        ScanTurn(start, list, commits, i);
        assert commits[..i + 1] == commits[..i] + [commits[i]];
        if commits[i] {
          HandleThreshold(list[i]);
          if products[list[i]].notified {
            count := count + 1;
          }
        }
      }
      assert list[..|list|] == list && commits[..|commits|] == commits;
    }

    method UpdateSettings(id: Id, threshold: int) returns (ok: bool)
      modifies `products
      ensures ok == (Live(old(products), id) && threshold >= 0)
      ensures products == NextProducts(old(products), SetThreshold(id, threshold))
    {
      if !Live(products, id) || threshold < 0 {
        assert threshold >= 0 ==> products == SetThresholds(products, threshold, {id});
        return false;
      }
      products := products[id := products[id].(threshold := threshold)];
      ok := true;
    }

    method AddItem(user: nat, product: Id, quantity: int) returns (e: Option<CartError>)
      modifies `carts
      ensures match AddToCart(products, CartOf(old(carts), user), product, quantity)
              case Ok(cart) => e.None? && carts == old(carts)[user := cart]
              case Err(cause) => e == Some(cause) && carts == old(carts)
    {
      if !Live(products, product) {
        return Some(NoProduct);
      }
      var stock := products[product].stock;
      if stock <= 0 {
        return Some(OutOfStock);
      }
      if stock < quantity {
        return Some(InsufficientStock);
      }
      var cart := CartOf(carts, user);
      var k := LineOf(cart, product);
      if k < |cart| {
        var sum := cart[k].quantity + quantity;
        if sum > stock {
          sum := stock;
        }
        carts := carts[user := cart[k := CartLine(product, sum)]];
      } else {
        carts := carts[user := cart + [CartLine(product, quantity)]];
      }
      e := None;
    }

    method UpdateItem(user: nat, k: nat, quantity: int) returns (e: Option<CartError>)
      modifies `carts
      ensures match UpdateCart(products, CartOf(old(carts), user), k, quantity)
              case Ok(cart) => e.None? && carts == old(carts)[user := cart]
              case Err(cause) => e == Some(cause) && carts == old(carts)
    {
      var cart := CartOf(carts, user);
      if k >= |cart| {
        return Some(NoItem);
      }
      var capped := quantity;
      if Live(products, cart[k].product) && quantity > products[cart[k].product].stock {
        capped := products[cart[k].product].stock;
      }
      carts := carts[user := cart[k := cart[k].(quantity := capped)]];
      e := None;
    }
  }

  lemma {:induction false} FailurePersists(s: Ledger, items: seq<Item>, n: nat, taking: bool, order: nat)
    requires n <= |items| && AdjustItems(s, items[..n], taking, order).Err?
    ensures AdjustItems(s, items, taking, order) == AdjustItems(s, items[..n], taking, order)
  {
    if n == |items| {
      assert items[..n] == items;
    } else {
      var m := |items| - 1;
      assert items[..m][..n] == items[..n];
      FailurePersists(s, items[..m], n, taking, order);
    }
  }
}
