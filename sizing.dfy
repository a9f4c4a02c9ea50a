/**
 * The start-up adjustment of worker counts (index.js): the largest row
 * quantity over all orders, and the raise of every operation's worker
 * count to at least the number of full-capacity claims that row needs.
 */
module Sizing {
  import opened Settings
  import opened Orders

  /** Integer form of Math.ceil(n / d) for a positive divisor. */
  function CeilDiv(n: int, d: int): (c: int)
    requires d > 0
    ensures c * d >= n
    ensures (c - 1) * d < n
  {
    (n + d - 1) / d
  }

  /** The ceiling is the only integer with those two bounds. */
  lemma CeilDivUnique(n: int, d: int, c: int)
    requires d > 0 && c * d >= n && (c - 1) * d < n
    ensures c == CeilDiv(n, d)
  {
    var e := CeilDiv(n, d);
    if c < e {
      MulMonotone(c, e - 1, d);
    } else if c > e {
      MulMonotone(e, c - 1, d);
    }
  }

  function Max(a: int, b: int): (m: int) {
    if a >= b then a else b
  }

  /**
   * The inner reduce: the running maximum acc folded over the quantities
   * of rows, left to right.
   */
  function RowMax(acc: int, rows: seq<Row>): (m: int)
    ensures m >= acc
    ensures forall k | 0 <= k < |rows| :: rows[k].quantity <= m
    ensures m == acc || exists k | 0 <= k < |rows| :: rows[k].quantity == m
    decreases rows
  {
    if rows == [] then acc
    else
      var m := RowMax(Max(acc, rows[0].quantity), rows[1..]);
      assert forall k | 1 <= k < |rows| :: rows[k] == rows[1..][k - 1];
      m
  }

  /** The outer reduce: folds the largest row quantity of every order into acc. */
  function OrdersMax(acc: int, orders: seq<Order>): (m: int)
    requires acc >= 0
    ensures m >= acc
    ensures forall i, k | 0 <= i < |orders| && 0 <= k < |orders[i].rows| :: orders[i].rows[k].quantity <= m
    ensures m == acc || exists i, k | 0 <= i < |orders| && 0 <= k < |orders[i].rows| :: orders[i].rows[k].quantity == m
    decreases orders
  {
    if orders == [] then acc
    else
      var first := RowMax(0, orders[0].rows);
      var m := OrdersMax(Max(acc, first), orders[1..]);
      assert forall i | 1 <= i < |orders| :: orders[i] == orders[1..][i - 1];
      assert m != acc && m == first && first != 0 ==>
        exists k | 0 <= k < |orders[0].rows| :: orders[0].rows[k].quantity == m;
      m
  }

  /** The largest row quantity of all orders, starting from 0. */
  function MaxSize(orders: seq<Order>): (m: int)
    ensures m >= 0
    ensures forall i, k | 0 <= i < |orders| && 0 <= k < |orders[i].rows| :: orders[i].rows[k].quantity <= m
  {
    OrdersMax(0, orders)
  }

  /**
   * MaxSize is the maximum of 0 and every row quantity: it bounds every
   * row, it is not negative, and unless it is 0 some row attains it.
   */
  lemma MaxSizeIsMaximum(orders: seq<Order>)
    ensures MaxSize(orders) >= 0
    ensures forall i, k | 0 <= i < |orders| && 0 <= k < |orders[i].rows| :: orders[i].rows[k].quantity <= MaxSize(orders)
    ensures MaxSize(orders) == 0 || exists i, k | 0 <= i < |orders| && 0 <= k < |orders[i].rows| :: orders[i].rows[k].quantity == MaxSize(orders)
  {
  }

  /** The count an operation ends up with: max(count, ceil(maxSize / capacity)). */
  function AdjustedCount(count: int, capacity: int, maxSize: int): (c: int)
    requires capacity > 0
    ensures c >= count && c >= CeilDiv(maxSize, capacity)
    ensures c == count || c == CeilDiv(maxSize, capacity)
  {
    Max(count, CeilDiv(maxSize, capacity))
  }

  /**
   * The adjusted count keeps the configured count and lets the workers of
   * one operation together take maxSize units in one round of claims.
   */
  lemma AdjustedCountBounds(count: int, capacity: int, maxSize: int)
    requires capacity > 0
    ensures AdjustedCount(count, capacity, maxSize) >= count
    ensures AdjustedCount(count, capacity, maxSize) * capacity >= maxSize
  {
    var c := AdjustedCount(count, capacity, maxSize);
    var e := CeilDiv(maxSize, capacity);
    assert c >= e;
    MulMonotone(e, c, capacity);
  }

  lemma MulMonotone(a: int, b: int, d: int)
    requires a <= b && d > 0
    ensures a * d <= b * d
  {
  }

  /** No smaller count meets both bounds. */
  lemma AdjustedCountLeast(count: int, capacity: int, maxSize: int, c: int)
    requires capacity > 0
    requires c >= count && c * capacity >= maxSize
    ensures c >= AdjustedCount(count, capacity, maxSize)
  {
    var e := CeilDiv(maxSize, capacity);
    if c < e {
      MulMonotone(c, e - 1, capacity);
    }
  }

  /** Adjusting an already adjusted count changes nothing. */
  lemma AdjustedCountIdempotent(count: int, capacity: int, maxSize: int)
    requires capacity > 0
    ensures AdjustedCount(AdjustedCount(count, capacity, maxSize), capacity, maxSize) == AdjustedCount(count, capacity, maxSize)
  {
  }

  /**
   * The forEach over the operations: every listed operation's count is
   * replaced by its adjusted count, each exactly once; every other entry of
   * the counts table is left as it was.
   */
  method AdjustCounts(counts: map<string, int>, capacities: map<string, int>, maxSize: int)
    returns (adjusted: map<string, int>)
    requires forall op | IsOperation(op) :: op in counts && op in capacities && capacities[op] > 0
    ensures adjusted.Keys == counts.Keys
    ensures forall op | IsOperation(op) :: adjusted[op] == AdjustedCount(counts[op], capacities[op], maxSize)
    ensures forall op | op in counts && !IsOperation(op) :: adjusted[op] == counts[op]
  {
    OperationsShape();
    adjusted := counts;
    var i := 0;
    while i < |Operations|
      invariant 0 <= i <= |Operations|
      invariant adjusted.Keys == counts.Keys
      invariant forall k | 0 <= k < i :: adjusted[Operations[k]] == AdjustedCount(counts[Operations[k]], capacities[Operations[k]], maxSize)
      invariant forall k | i <= k < |Operations| :: adjusted[Operations[k]] == counts[Operations[k]]
      invariant forall op | op in counts && !IsOperation(op) :: adjusted[op] == counts[op]
    {
      var op := Operations[i];
      adjusted := adjusted[op := Max(adjusted[op], CeilDiv(maxSize, capacities[op]))];
      i := i + 1;
    }
  }

  /** Running the adjustment a second time gives back the same table. */
  method AdjustTwice(counts: map<string, int>, capacities: map<string, int>, maxSize: int)
    returns (once: map<string, int>, twice: map<string, int>)
    requires forall op | IsOperation(op) :: op in counts && op in capacities && capacities[op] > 0
    ensures once == twice
  {
    once := AdjustCounts(counts, capacities, maxSize);
    twice := AdjustCounts(once, capacities, maxSize);
    forall op | op in once ensures twice[op] == once[op] {
      if IsOperation(op) {
        AdjustedCountIdempotent(counts[op], capacities[op], maxSize);
      }
    }
  }
}
