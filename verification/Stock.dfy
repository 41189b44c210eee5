/** Products, the stock ledger and the low-stock latch. */
module Stock {
  import opened Wrappers

  type Id = nat

  const DEFAULT_LOW_STOCK_THRESHOLD: int := 5
  const SCAN_LIMIT: nat := 100

  /** Prices are in minor units. */
  datatype Product = Product(price: int, stock: int, threshold: int, notified: bool, cycle: nat, deleted: bool)

  datatype Reason = ForOrder | Restock | Adjustment | Refund | ForCancel

  /** `order` is the reference id; manual movements have none. */
  datatype Movement = Movement(product: Id, delta: int, after: int, reason: Reason, order: Option<nat>)

  datatype Ledger = Ledger(products: map<Id, Product>, movements: seq<Movement>)

  datatype StockError = ProductNotFound | NegativeStock

  // ---------------------------------------------------------------- specification

  function Effective(threshold: int): int
  {
    if threshold <= 0 then DEFAULT_LOW_STOCK_THRESHOLD else threshold
  }

  predicate Low(p: Product)
  {
    p.stock <= Effective(p.threshold)
  }

  function HandleThreshold(p: Product): Product
  {
    if Low(p) then if p.notified then p else p.(notified := true, cycle := p.cycle + 1)
    else p.(notified := false)
  }

  predicate Live(products: map<Id, Product>, id: Id)
  {
    id in products && !products[id].deleted
  }

  function Adjust(s: Ledger, id: Id, delta: int, reason: Reason, order: Option<nat>): Result<Ledger, StockError>
  {
    if !Live(s.products, id) then Err(ProductNotFound)
    else
      var p := s.products[id];
      var after := p.stock + delta;
      if after < 0 then Err(NegativeStock)
      else Ok(Ledger(s.products[id := HandleThreshold(p.(stock := after))],
                     s.movements + [Movement(id, delta, after, reason, order)]))
  }

  /** What the scan's query selects: it compares with the stored threshold, not the effective one. */
  predicate Scannable(p: Product)
  {
    !p.deleted && p.stock <= p.threshold && !p.notified
  }

  ghost function Unnotified(products: map<Id, Product>): set<Id>
  {
    set id | id in products && Scannable(products[id])
  }

  ghost predicate Distinct<T>(s: seq<T>)
  {
    forall i, j :: 0 <= i < j < |s| ==> s[i] != s[j]
  }

  /** A list the query may return: any SCAN_LIMIT of the selected products, or all of them. */
  ghost predicate ScanList(products: map<Id, Product>, ids: seq<Id>)
  {
    && Distinct(ids)
    && (forall id :: id in ids ==> id in Unnotified(products))
    && |ids| == if |Unnotified(products)| < SCAN_LIMIT then |Unnotified(products)| else SCAN_LIMIT
  }

  /** The scan's effect on the listed products whose transaction commits. */
  function ScanAll(products: map<Id, Product>, ids: seq<Id>, commits: seq<bool>): map<Id, Product>
    requires |commits| == |ids|
  {
    if ids == [] then products
    else
      var n := |ids| - 1;
      var before := ScanAll(products, ids[..n], commits[..n]);
      if commits[n] && ids[n] in before then before[ids[n] := HandleThreshold(before[ids[n]])] else before
  }

  // ---------------------------------------------------------------- the ledger's sums

  /** The sum of a product's deltas, over all movements or over those with one reference. */
  function Total(ms: seq<Movement>, id: Id): int
  {
    if ms == [] then 0
    else
      var m := ms[|ms| - 1];
      Total(ms[..|ms| - 1], id) + if m.product == id then m.delta else 0
  }

  function Net(ms: seq<Movement>, id: Id, order: Option<nat>): int
  {
    if ms == [] then 0
    else
      var m := ms[|ms| - 1];
      Net(ms[..|ms| - 1], id, order) + if m.product == id && m.order == order then m.delta else 0
  }

  /** A product's running balances, in the order they were written. */
  function History(ms: seq<Movement>, id: Id): seq<int>
  {
    if ms == [] then []
    else
      var m := ms[|ms| - 1];
      History(ms[..|ms| - 1], id) + if m.product == id then [m.after] else []
  }

  /** The number of maximal stretches of a history that lie at or below a level. */
  function LowRuns(h: seq<int>, level: int): nat
  {
    if h == [] then 0
    else
      var n := |h| - 1;
      LowRuns(h[..n], level) + if h[n] <= level && (n == 0 || h[n - 1] > level) then 1 else 0
  }

  /** A movement's balance is the sum of its product's deltas up to it, and not negative. */
  ghost predicate BalanceOk(ms: seq<Movement>, k: nat)
    requires k < |ms|
  {
    ms[k].after == Total(ms[..k + 1], ms[k].product) >= 0
  }

  ghost predicate Balanced(s: Ledger)
  {
    && (forall id :: id in s.products ==> s.products[id].stock == Total(s.movements, id) >= 0)
    && (forall m :: m in s.movements ==> m.product in s.products)
    && (forall k :: 0 <= k < |s.movements| ==> BalanceOk(s.movements, k))
  }

  /** The latch of a product that has moved mirrors its stock. */
  ghost predicate LatchOk(p: Product, h: seq<int>)
  {
    h != [] ==> p.stock == h[|h| - 1] && (p.notified <==> Low(p))
  }

  /** The cycle number counts the times the stock has gone low; it is one ahead if a scan flagged the product
      before its first movement and that movement left it high. */
  ghost predicate CycleOk(p: Product, h: seq<int>)
  {
    var runs := LowRuns(h, Effective(p.threshold));
    if h == [] then p.cycle == if p.notified then 1 else 0
    else p.cycle == runs || (p.cycle == runs + 1 && h[0] > Effective(p.threshold))
  }

  /** The count of a product no scan has listed. */
  ghost predicate CycleExact(p: Product, h: seq<int>)
  {
    p.cycle == LowRuns(h, Effective(p.threshold)) && (h == [] ==> !p.notified)
  }

  ghost predicate Latched(s: Ledger, id: Id, exact: bool)
  {
    id in s.products ==>
      var p, h := s.products[id], History(s.movements, id);
      LatchOk(p, h) && CycleOk(p, h) && (exact ==> CycleExact(p, h))
  }

  lemma SnocSums(ms: seq<Movement>, m: Movement, id: Id, order: Option<nat>)
    ensures Total(ms + [m], id) == Total(ms, id) + (if m.product == id then m.delta else 0)
    ensures Net(ms + [m], id, order)
      == Net(ms, id, order) + (if m.product == id && m.order == order then m.delta else 0)
    ensures History(ms + [m], id) == History(ms, id) + (if m.product == id then [m.after] else [])
  {
  }

  lemma {:induction false} NoMovements(ms: seq<Movement>, id: Id)
    requires forall m :: m in ms ==> m.product != id
    ensures Total(ms, id) == 0 && History(ms, id) == []
  {
    if ms != [] {
      assert ms[|ms| - 1] in ms;
      NoMovements(ms[..|ms| - 1], id);
    }
  }

  /** An adjustment succeeds exactly if the product is there and its stock stays non-negative. It changes that stock by
      the delta, records one movement with the new balance, and leaves every other product and field alone. */
  lemma AdjustOutcome(s: Ledger, id: Id, delta: int, reason: Reason, order: Option<nat>)
    ensures var r := Adjust(s, id, delta, reason, order);
      var there := id in s.products && !s.products[id].deleted;
      && (r.Ok? <==> there && s.products[id].stock + delta >= 0)
      && (r == Err(ProductNotFound) <==> !there)
      && (r.Ok? ==>
            var p, q := s.products[id], if id in r.value.products then r.value.products[id] else s.products[id];
            && r.value.products == s.products[id := q]
            && q == p.(stock := p.stock + delta, notified := q.notified, cycle := q.cycle)
            && r.value.movements == s.movements + [Movement(id, delta, p.stock + delta, reason, order)])
  {
  }

  lemma AdjustKeepsBalanced(s: Ledger, id: Id, delta: int, reason: Reason, order: Option<nat>)
    requires Balanced(s) && Adjust(s, id, delta, reason, order).Ok?
    ensures Balanced(Adjust(s, id, delta, reason, order).value)
  {
    var t := Adjust(s, id, delta, reason, order).value;
    var n := |s.movements|;
    forall x | x in t.products ensures t.products[x].stock == Total(t.movements, x) >= 0 {
      SnocSums(s.movements, t.movements[n], x, None);
    }
    forall k | 0 <= k < |t.movements| ensures BalanceOk(t.movements, k) {
      if k < n {
        assert BalanceOk(s.movements, k) && t.movements[..k + 1] == s.movements[..k + 1];
      } else {
        assert t.movements[..k + 1] == t.movements;
      }
    }
  }

  lemma HandleKeepsLatch(p: Product, h: seq<int>, after: int)
    requires LatchOk(p, h) && CycleOk(p, h)
    ensures var q := HandleThreshold(p.(stock := after));
      && LatchOk(q, h + [after]) && CycleOk(q, h + [after])
      && (CycleExact(p, h) ==> CycleExact(q, h + [after]))
  {
  }

  lemma AdjustKeepsLatch(s: Ledger, moved: Id, delta: int, reason: Reason, order: Option<nat>, id: Id, exact: bool)
    requires Latched(s, id, exact) && Adjust(s, moved, delta, reason, order).Ok?
    ensures Latched(Adjust(s, moved, delta, reason, order).value, id, exact)
  {
    var t := Adjust(s, moved, delta, reason, order).value;
    var m := t.movements[|s.movements|];
    SnocSums(s.movements, m, id, None);
    if id == moved {
      HandleKeepsLatch(s.products[id], History(s.movements, id), m.after);
    } else {
      assert History(t.movements, id) == History(s.movements, id);
    }
  }

  // ---------------------------------------------------------------- scans

  /** Under the latch a scan selects exactly the products that are there, have never moved, are not flagged and
      hold no more than their stored threshold. */
  lemma ScanSelectsIff(s: Ledger, id: Id)
    requires Latched(s, id, false) && id in s.products
    ensures var p := s.products[id];
      id in Unnotified(s.products)
      <==> !p.deleted && History(s.movements, id) == [] && !p.notified && p.stock <= p.threshold
  {
  }

  /** Under the latch, the scan selects no product that has ever moved. */
  lemma ScanSparesMoved(s: Ledger, id: Id)
    requires Latched(s, id, false) && id in s.products && History(s.movements, id) != []
    ensures id !in Unnotified(s.products)
  {
  }

  /** A scan touches the listed products alone, each committed one exactly once. */
  lemma {:induction false} ScanEffect(products: map<Id, Product>, ids: seq<Id>, commits: seq<bool>, id: Id)
    requires |commits| == |ids| && Distinct(ids) && (forall x :: x in ids ==> x in products)
    ensures ScanAll(products, ids, commits).Keys == products.Keys
    ensures id in products ==>
      var hit := exists k :: 0 <= k < |ids| && ids[k] == id && commits[k];
      ScanAll(products, ids, commits)[id] == if hit then HandleThreshold(products[id]) else products[id]
  {
    if ids != [] {
      var n := |ids| - 1;
      ScanEffect(products, ids[..n], commits[..n], id);
      ScanEffect(products, ids[..n], commits[..n], ids[n]);
      if id in products {
        if exists k :: 0 <= k < |ids| && ids[k] == id && commits[k] {
          var k :| 0 <= k < |ids| && ids[k] == id && commits[k];
          if k < n { assert ids[..n][k] == id && commits[..n][k]; }
        }
        if k :| 0 <= k < n && ids[..n][k] == id && commits[..n][k] {
          assert ids[k] == id && commits[k];
        }
      }
    }
  }

  /** One turn of the scan's loop: the next listed product is there, and its transaction leaves it flagged. */
  lemma ScanTurn(products: map<Id, Product>, ids: seq<Id>, commits: seq<bool>, i: nat)
    requires ScanList(products, ids) && |commits| == |ids| && i < |ids|
    ensures var before := ScanAll(products, ids[..i], commits[..i]);
      && ids[i] in before && HandleThreshold(before[ids[i]]).notified
      && ScanAll(products, ids[..i + 1], commits[..i + 1])
         == if commits[i] then before[ids[i] := HandleThreshold(before[ids[i]])] else before
  {
    assert ids[..i + 1][..i] == ids[..i] && commits[..i + 1][..i] == commits[..i];
    assert ids[i] in Unnotified(products) && forall x :: x in ids[..i] ==> x in ids;
    ScanEffect(products, ids[..i], commits[..i], ids[i]);
  }

  function AllCommit(n: nat): (commits: seq<bool>)
    ensures |commits| == n && forall k :: 0 <= k < n ==> commits[k]
  {
    seq(n, _ => true)
  }

  ghost function Members(ids: seq<Id>): set<Id>
  {
    set id | id in ids
  }

  lemma {:induction false} DistinctSize(ids: seq<Id>)
    requires Distinct(ids)
    ensures |Members(ids)| == |ids|
  {
    if ids == [] {
      assert Members(ids) == {};
    } else {
      var n := |ids| - 1;
      DistinctSize(ids[..n]);
      assert ids == ids[..n] + [ids[n]];
      assert ids[n] !in Members(ids[..n]);
      assert Members(ids) == Members(ids[..n]) + {ids[n]};
    }
  }

  function Alerted(p: Product, hit: bool): Product
  {
    if hit then p.(notified := true, cycle := p.cycle + 1) else p
  }

  lemma ScanAlerts(products: map<Id, Product>, ids: seq<Id>, id: Id)
    requires ScanList(products, ids) && id in products
    ensures id in ScanAll(products, ids, AllCommit(|ids|))
    ensures ScanAll(products, ids, AllCommit(|ids|))[id] == Alerted(products[id], id in ids)
  {
    var commits := AllCommit(|ids|);
    ScanEffect(products, ids, commits, id);
    if id in ids {
      var k :| 0 <= k < |ids| && ids[k] == id;
      assert commits[k] && ids[k] in Unnotified(products);
    }
  }

  lemma AlertedLeaveSelection(products: map<Id, Product>, after: map<Id, Product>, ids: seq<Id>)
    requires forall id :: id in ids ==> id in Unnotified(products)
    requires after.Keys == products.Keys
    requires forall id :: id in products ==> after[id] == Alerted(products[id], id in ids)
    ensures Unnotified(after) == Unnotified(products) - Members(ids)
    ensures |Unnotified(after)| == |Unnotified(products)| - |Members(ids)|
  {
  }

  /** One scan takes the listed products out of the selection and raises each one's cycle by one;
      the selection shrinks by SCAN_LIMIT or to nothing. */
  lemma {:induction false} ScanStep(products: map<Id, Product>, ids: seq<Id>)
    requires ScanList(products, ids)
    ensures var after := ScanAll(products, ids, AllCommit(|ids|));
      && after.Keys == products.Keys
      && (forall id :: id in products ==> after[id] == Alerted(products[id], id in ids))
      && Unnotified(after) == Unnotified(products) - Members(ids)
      && |Unnotified(after)| == |Unnotified(products)| - |ids|
  {
    var after := ScanAll(products, ids, AllCommit(|ids|));
    ScanEffect(products, ids, AllCommit(|ids|), 0);
    forall id | id in products ensures after[id] == Alerted(products[id], id in ids) {
      ScanAlerts(products, ids, id);
    }
    DistinctSize(ids);
    AlertedLeaveSelection(products, after, ids);
  }

  /** Scans with nothing between them: each list is one the query may return then. */
  ghost predicate Scans(products: map<Id, Product>, lists: seq<seq<Id>>)
    decreases |lists|
  {
    lists == [] || (ScanList(products, lists[0])
                    && Scans(ScanAll(products, lists[0], AllCommit(|lists[0]|)), lists[1..]))
  }

  ghost function AfterScans(products: map<Id, Product>, lists: seq<seq<Id>>): map<Id, Product>
    decreases |lists|
  {
    if lists == [] then products
    else AfterScans(ScanAll(products, lists[0], AllCommit(|lists[0]|)), lists[1..])
  }

  /** k scans leave n - 100k products unnotified, and alert each of the others exactly once. */
  lemma {:induction false} ScansConverge(products: map<Id, Product>, lists: seq<seq<Id>>)
    decreases |lists|
    requires Scans(products, lists)
    ensures var after := AfterScans(products, lists);
      && after.Keys == products.Keys
      && Unnotified(after) <= Unnotified(products)
      && |Unnotified(after)| == (if |Unnotified(products)| <= 100 * |lists| then 0
                                 else |Unnotified(products)| - 100 * |lists|)
      && (forall id :: id in products ==>
            after[id] == Alerted(products[id], id in Unnotified(products) - Unnotified(after)))
  {
    if lists != [] {
      var next := ScanAll(products, lists[0], AllCommit(|lists[0]|));
      ScanStep(products, lists[0]);
      ScansConverge(next, lists[1..]);
    }
  }

  /** Changing a threshold keeps a product's latch right exactly when the product is low under
      both thresholds or under neither. */
  lemma ThresholdChangeKeepsLatchIff(p: Product, threshold: int)
    requires p.notified <==> Low(p)
    ensures (p.(threshold := threshold).notified <==> Low(p.(threshold := threshold)))
            <==> (p.stock <= Effective(p.threshold) <==> p.stock <= Effective(threshold))
  {
  }
}
