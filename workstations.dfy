/**
 * The per-operation pending queues of the simulator and the two halves of
 * one workstation step (workstations.js): seeding the first operation's
 * queue from the orders, claiming units from the head of a queue, and, once
 * the simulated work is done, moving the claimed units on to the next
 * operation's queue.
 */
module Workstations {
  import opened Settings
  import opened Orders
  import opened Batches
  import Priority
  import Sizing

  /** The fields of a batch record, as a value. */
  datatype Entry = Entry(order: int, quantity: int, cardid: int, priority: real)

  function View(b: Batch): (e: Entry)
    reads b
  {
    Entry(b.order, b.quantity, b.cardid, b.priority)
  }

  /** The records pushed for the order at position i of the input. */
  function RowEntries(o: Order, i: nat): (r: seq<Entry>) {
    seq(|o.rows|, k requires 0 <= k < |o.rows| =>
      Entry(o.order, o.rows[k].quantity, o.rows[k].cardid, Priority.Key(i, o.rows[k].priority)))
  }

  /** The records pushed for all orders, in the order the nested loops push them. */
  function Entries(orders: seq<Order>): (r: seq<Entry>)
    decreases |orders|
  {
    if orders == [] then []
    else Entries(orders[..|orders| - 1]) + RowEntries(orders[|orders| - 1], |orders| - 1)
  }

  lemma EntriesSnoc(orders: seq<Order>, i: nat)
    requires i < |orders|
    ensures Entries(orders[..i + 1]) == Entries(orders[..i]) + RowEntries(orders[i], i)
  {
    assert orders[..i + 1][..i] == orders[..i];
  }

  /** Number of rows in the first n orders. */
  function RowsBefore(orders: seq<Order>, n: nat): (r: nat)
    requires n <= |orders|
  {
    if n == 0 then 0 else RowsBefore(orders, n - 1) + |orders[n - 1].rows|
  }

  /**
   * Seeding pushes exactly one record per row: row k of the order at
   * position i lands at position RowsBefore(orders, i) + k and carries that
   * row's card id and quantity, the order's number, and the key "i.p".
   */
  lemma {:induction false} EntriesAt(orders: seq<Order>, i: nat, k: nat)
    requires i < |orders| && k < |orders[i].rows|
    ensures |Entries(orders)| == RowsBefore(orders, |orders|)
    ensures RowsBefore(orders, i) + k < |Entries(orders)|
    ensures Entries(orders)[RowsBefore(orders, i) + k] ==
      Entry(orders[i].order, orders[i].rows[k].quantity, orders[i].rows[k].cardid,
            Priority.Key(i, orders[i].rows[k].priority))
    decreases |orders|
  {
    var n := |orders| - 1;
    var init := orders[..n];
    EntriesLength(orders);
    RowsBeforePrefix(orders, n, i);
    if i < n {
      EntriesAt(init, i, k);
      assert init[i] == orders[i];
    } else {
      EntriesLength(init);
      RowsBeforePrefix(orders, n, n);
    }
  }

  lemma {:induction false} EntriesLength(orders: seq<Order>)
    ensures |Entries(orders)| == RowsBefore(orders, |orders|)
    decreases |orders|
  {
    if orders != [] {
      var n := |orders| - 1;
      EntriesLength(orders[..n]);
      RowsBeforePrefix(orders, n, n);
    }
  }

  /** Counting rows of a prefix of the orders gives the same numbers. */
  lemma {:induction false} RowsBeforePrefix(orders: seq<Order>, n: nat, i: nat)
    requires i <= n <= |orders|
    ensures RowsBefore(orders[..n], i) == RowsBefore(orders, i)
  {
    if i > 0 {
      RowsBeforePrefix(orders, n, i - 1);
      assert orders[..n][i - 1] == orders[i - 1];
    }
  }

  /**
   * In a queue sorted by key, a batch keyed "i.p" stands before a batch
   * keyed "j.q" whenever i < j: every row of an earlier order is served
   * before every row of a later one.
   */
  lemma EarlierOrderFirst(q: seq<Batch>, a: nat, b: nat, i: nat, p: nat, j: nat, r: nat)
    requires Sorted(q) && a < |q| && b < |q|
    requires q[a].priority == Priority.Key(i, p) && q[b].priority == Priority.Key(j, r)
    requires i < j
    ensures a < b
  {
    Priority.KeyOrdersByIndex(i, p, j, r);
  }

  /**
   * The units a run of claims takes from one batch of q units when nothing
   * else touches it: capacity-sized pieces while more than a capacity is
   * left, then the rest.
   */
  function ClaimSizes(q: int, capacity: int): (r: seq<int>)
    requires capacity > 0
    decreases q
  {
    if q > capacity then [capacity] + ClaimSizes(q - capacity, capacity) else [q]
  }

  function Sum(s: seq<int>): (r: int) {
    if s == [] then 0 else s[0] + Sum(s[1..])
  }

  /** The claims on a batch add up to its quantity. */
  lemma {:induction false} ClaimSizesSum(q: int, capacity: int)
    requires capacity > 0
    ensures Sum(ClaimSizes(q, capacity)) == q
    decreases q
  {
    if q > capacity {
      ClaimSizesSum(q - capacity, capacity);
      assert ClaimSizes(q, capacity)[1..] == ClaimSizes(q - capacity, capacity);
    }
  }

  /**
   * Every claim but the last takes a full capacity; the last takes at most
   * a capacity, and at least one unit when the batch had any.
   */
  lemma {:induction false} ClaimSizesShape(q: int, capacity: int)
    requires capacity > 0
    ensures forall k | 0 <= k < |ClaimSizes(q, capacity)| - 1 :: ClaimSizes(q, capacity)[k] == capacity
    ensures Last(ClaimSizes(q, capacity)) <= capacity
    ensures q > 0 ==> Last(ClaimSizes(q, capacity)) > 0
    decreases q
  {
    if q > capacity {
      ClaimSizesShape(q - capacity, capacity);
      var rest := ClaimSizes(q - capacity, capacity);
      assert ClaimSizes(q, capacity) == [capacity] + rest;
      assert Last(ClaimSizes(q, capacity)) == Last(rest);
    }
  }

  function Last(s: seq<int>): (r: int)
    requires s != []
  {
    s[|s| - 1]
  }

  /** A batch of q > 0 units is used up after ceil(q / capacity) claims. */
  lemma {:induction false} ClaimSizesCount(q: int, capacity: int)
    requires capacity > 0 && q > 0
    ensures |ClaimSizes(q, capacity)| == Sizing.CeilDiv(q, capacity)
    decreases q
  {
    if q > capacity {
      ClaimSizesCount(q - capacity, capacity);
      var c := Sizing.CeilDiv(q - capacity, capacity);
      assert (c + 1) * capacity == c * capacity + capacity;
      assert c * capacity == (c - 1) * capacity + capacity;
      Sizing.CeilDivUnique(q, capacity, c + 1);
    } else {
      Sizing.CeilDivUnique(q, capacity, 1);
    }
  }

  /** A row of 100 units at capacity 40 is taken as 40, 40 and 20. */
  lemma ClaimsOfHundredAtForty()
    ensures ClaimSizes(100, 40) == [40, 40, 20]
  {
  }

  class Pipeline {
    /** For each operation, the batches waiting for one of its workstations. */
    var pending: map<string, seq<Batch>>

    /**
     * There is one queue per operation, every queue is sorted by key, and
     * no queue holds the same batch object twice.
     */
    ghost predicate Valid()
      reads this
    {
      && (forall op :: op in pending <==> IsOperation(op))
      && (forall op | op in pending :: Sorted(pending[op]) && Distinct(pending[op]))
    }

    /** The queue the completion of a claim at operation feeds, if any. */
    function NextQueue(operation: string): (q: seq<Batch>)
      reads this
    {
      match GetNextStep(operation)
      case Some(next) => if next in pending then pending[next] else []
      case None => []
    }

    /** The empty queues set up for every operation before the workers start. */
    constructor ()
      ensures Valid()
      ensures forall op | IsOperation(op) :: pending[op] == []
    {
      pending := map op | op in Operations :: [];
    }

    /**
     * Seeding: one new batch per row of every order is pushed onto the first
     * operation's queue, which is then sorted by key. The batches pushed are
     * returned, in push order, for the contract's sake.
     */
    method QueueRows(orders: seq<Order>) returns (ghost pushed: seq<Batch>)
      requires Valid()
      modifies this
      ensures Valid()
      ensures |pushed| == |Entries(orders)|
      ensures forall k | 0 <= k < |pushed| :: fresh(pushed[k]) && View(pushed[k]) == Entries(orders)[k]
      ensures Sorted(pending[FirstOperation])
      ensures multiset(pending[FirstOperation]) == multiset(old(pending[FirstOperation]) + pushed)
      ensures forall op | op in pending && op != FirstOperation :: pending[op] == old(pending[op])
    {
      pushed := PushOrders(orders);
      SortQueue(FirstOperation);
    }

    /** The outer loop of seeding: pushes the rows of every order, in input order. */
    method PushOrders(orders: seq<Order>) returns (ghost pushed: seq<Batch>)
      requires FirstOperation in pending && Distinct(pending[FirstOperation])
      modifies this
      ensures pending == old(pending)[FirstOperation := old(pending[FirstOperation]) + pushed]
      ensures Distinct(pending[FirstOperation])
      ensures |pushed| == |Entries(orders)|
      ensures forall k | 0 <= k < |pushed| :: fresh(pushed[k]) && View(pushed[k]) == Entries(orders)[k]
    {
      ghost var start := pending[FirstOperation];
      pushed := [];
      assert start + pushed == start;
      assert old(pending)[FirstOperation := start] == old(pending);
      var i := 0;
      while i < |orders|
        invariant 0 <= i <= |orders|
        invariant pending == old(pending)[FirstOperation := start + pushed]
        invariant |pushed| == |Entries(orders[..i])|
        invariant forall k | 0 <= k < |pushed| :: fresh(pushed[k]) && View(pushed[k]) == Entries(orders[..i])[k]
        invariant Distinct(start + pushed)
      {
        ghost var added := PushOrder(orders[i], i);
        assert start + (pushed + added) == (start + pushed) + added;
        EntriesSnoc(orders, i);
        pushed := pushed + added;
        i := i + 1;
      }
      assert orders[..|orders|] == orders;
    }

    /** The in-place sort of one queue by key. */
    method SortQueue(op: string)
      requires op in pending && Distinct(pending[op])
      modifies this
      ensures op in pending && pending == old(pending)[op := pending[op]]
      ensures Sorted(pending[op]) && Distinct(pending[op])
      ensures multiset(pending[op]) == multiset(old(pending[op]))
    {
      var sorted := SortByPriority(pending[op]);
      DistinctPermutation(pending[op], sorted);
      pending := pending[op := sorted];
    }

    /** The inner loop of seeding: pushes one new batch per row of the order at position i. */
    method PushOrder(order: Order, i: nat) returns (ghost added: seq<Batch>)
      requires FirstOperation in pending && Distinct(pending[FirstOperation])
      modifies this
      ensures pending == old(pending)[FirstOperation := old(pending[FirstOperation]) + added]
      ensures Distinct(pending[FirstOperation])
      ensures |added| == |order.rows|
      ensures forall k | 0 <= k < |added| :: fresh(added[k]) && View(added[k]) == RowEntries(order, i)[k]
    {
      ghost var start := pending[FirstOperation];
      added := [];
      assert start + added == start;
      assert old(pending)[FirstOperation := start] == old(pending);
      var j := 0;
      while j < |order.rows|
        invariant 0 <= j <= |order.rows|
        invariant pending == old(pending)[FirstOperation := start + added]
        invariant |added| == j
        invariant forall k | 0 <= k < j :: fresh(added[k]) && View(added[k]) == RowEntries(order, i)[k]
        invariant Distinct(start + added)
      {
        var row := order.rows[j];
        var b := new Batch(order.order, row.quantity, row.cardid, Priority.Key(i, row.priority));
        DistinctAppend(start + added, b);
        assert start + (added + [b]) == (start + added) + [b];
        pending := pending[FirstOperation := pending[FirstOperation] + [b]];
        added := added + [b];
        j := j + 1;
      }
    }

    /**
     * The claim half of a workstation step at operation: the head batch is
     * shifted off the queue; if it holds more than the operation's capacity,
     * a capacity's worth is taken, the batch keeps the rest and goes back to
     * the head; otherwise all of it is taken and it leaves the queue. An
     * empty queue yields no batch and changes nothing.
     */
    method Claim(operation: string) returns (batch: Batch?, quantity: int)
      requires Valid() && IsOperation(operation)
      modifies this, pending[operation]
      ensures Valid()
      ensures old(pending[operation]) == [] ==> batch == null && quantity == 0 && pending == old(pending)
      ensures old(pending[operation]) != [] ==> batch == old(pending[operation][0])
      ensures batch != null && old(batch.quantity) > Capacities[operation] ==>
        && quantity == Capacities[operation]
        && batch.quantity == old(batch.quantity) - quantity > 0
        && pending == old(pending)
      ensures batch != null && old(batch.quantity) <= Capacities[operation] ==>
        && quantity == old(batch.quantity)
        && batch.quantity == old(batch.quantity)
        && pending == old(pending)[operation := old(pending[operation][1..])]
      ensures batch != null && old(batch.quantity) > Capacities[operation] ==>
        ClaimSizes(old(batch.quantity), Capacities[operation]) == [quantity] + ClaimSizes(batch.quantity, Capacities[operation])
      ensures batch != null && old(batch.quantity) <= Capacities[operation] ==>
        ClaimSizes(old(batch.quantity), Capacities[operation]) == [quantity]
      ensures forall b | b in old(pending[operation]) && b != batch :: b.quantity == old(b.quantity)
    {
      TablesPositive(operation);
      var queue := pending[operation];
      if queue == [] {
        return null, 0;
      }
      batch := queue[0];
      pending := pending[operation := queue[1..]];
      quantity := batch.quantity;
      var capacity := Capacities[operation];
      if batch.quantity > capacity {
        batch.quantity := batch.quantity - capacity;
        pending := pending[operation := [batch] + pending[operation]];
        quantity := capacity;
        assert [batch] + queue[1..] == queue;
        assert pending == old(pending);
        assert ClaimSizes(old(batch.quantity), capacity) == [capacity] + ClaimSizes(batch.quantity, capacity);
      } else {
        DistinctTail(queue);
        assert ClaimSizes(batch.quantity, capacity) == [quantity];
      }
    }

    /** Pushes b onto the queue of next and re-sorts that queue. */
    method PushSorted(next: string, b: Batch)
      requires Valid() && IsOperation(next) && b !in pending[next]
      modifies this
      ensures Valid()
      ensures pending == old(pending)[next := pending[next]]
      ensures multiset(pending[next]) == multiset(old(pending[next])) + multiset{b}
      ensures |pending[next]| == |old(pending[next])| + 1
    {
      DistinctAppend(pending[next], b);
      pending := pending[next := pending[next] + [b]];
      SortQueue(next);
      assert |pending[next]| == |multiset(pending[next])|;
    }

    /**
     * The completion half of a workstation step, as written: after claiming
     * quantity units of batch at operation, the units go to the next
     * operation. If that queue already holds a batch of the same card and
     * order, its quantity grows by the units; otherwise the batch object
     * itself, with whatever quantity it holds now, is pushed and the queue
     * re-sorted. An operation with no successor changes no queue.
     */
    method Complete(operation: string, batch: Batch, quantity: int)
      requires Valid()
      modifies this, NextQueue(operation)
      ensures Valid()
      ensures GetNextStep(operation).None? ==> pending == old(pending)
      ensures GetNextStep(operation).Some? ==>
        var next := GetNextStep(operation).value;
        var q := old(pending[next]);
        match FindMatch(q, batch.cardid, batch.order)
        case Some(k) =>
          && pending == old(pending)
          && q[k].quantity == old(q[k].quantity) + quantity
          && (forall j | 0 <= j < |q| && j != k :: q[j].quantity == old(q[j].quantity))
        case None =>
          && pending == old(pending)[next := pending[next]]
          && |pending[next]| == |q| + 1
          && multiset(pending[next]) == multiset(q) + multiset{batch}
          && batch.quantity == old(batch.quantity)
          && (forall j | 0 <= j < |q| :: q[j].quantity == old(q[j].quantity))
    {
      match GetNextStep(operation)
      case None =>
      case Some(next) =>
        var queue := pending[next];
        match FindMatch(queue, batch.cardid, batch.order)
        case Some(k) =>
          var existing := queue[k];
          existing.quantity := existing.quantity + quantity;
        case None =>
          PushSorted(next, batch);
    }

    /** The queue the corrected completion at operation feeds, if any. */
    function NextStageQueue(operation: string): (q: seq<Batch>)
      reads this
    {
      match NextStage(operation)
      case Some(next) => if next in pending then pending[next] else []
      case None => []
    }

    /**
     * The corrected completion: the successor is the next
     * operation in list order, and when no entry of the same card and order
     * is waiting there, a new batch carrying exactly the units taken is
     * pushed instead of the claimed object. Either way the next queue gains
     * exactly quantity units for that card and order.
     */
    method CompleteCorrected(operation: string, batch: Batch, quantity: int) returns (ghost copy: Batch?)
      requires Valid()
      modifies this, NextStageQueue(operation)
      ensures Valid()
      ensures NextStage(operation).None? ==> pending == old(pending) && copy == null
      ensures NextStage(operation).Some? ==>
        var next := NextStage(operation).value;
        var q := old(pending[next]);
        match FindMatch(q, batch.cardid, batch.order)
        case Some(k) =>
          && copy == null
          && pending == old(pending)
          && q[k].quantity == old(q[k].quantity) + quantity
          && (forall j | 0 <= j < |q| && j != k :: q[j].quantity == old(q[j].quantity))
        case None =>
          && copy != null && fresh(copy)
          && View(copy) == Entry(batch.order, quantity, batch.cardid, batch.priority)
          && pending == old(pending)[next := pending[next]]
          && multiset(pending[next]) == multiset(q) + multiset{copy}
          && (forall j | 0 <= j < |q| :: q[j].quantity == old(q[j].quantity))
    {
      copy := null;
      match NextStage(operation)
      case None =>
      case Some(next) =>
        var queue := pending[next];
        match FindMatch(queue, batch.cardid, batch.order)
        case Some(k) =>
          var existing := queue[k];
          existing.quantity := existing.quantity + quantity;
        case None =>
          var c := new Batch(batch.order, quantity, batch.cardid, batch.priority);
          PushSorted(next, c);
          copy := c;
    }
  }

  /** A queue with the same objects as a one-element queue is that queue. */
  lemma SingletonQueue(q: seq<Batch>, b: Batch)
    requires multiset(q) == multiset([b])
    ensures q == [b]
  {
    assert |q| == |multiset(q)| == 1;
    assert q[0] in multiset(q);
  }

  /** One order with one row of 100 units of card 7, seeded into an empty pipeline. */
  method SeedOneRow() returns (p: Pipeline, b: Batch)
    ensures fresh(p) && fresh(b) && p.Valid()
    ensures p.pending["paper"] == [b] && p.pending["cut"] == []
    ensures b.quantity == 100
  {
    OperationsShape();
    p := new Pipeline();
    ghost var pushed := p.QueueRows([Order(1, [Row(7, 100, 0)])]);
    assert Entries([Order(1, [Row(7, 100, 0)])]) == [Entry(1, 100, 7, Priority.Key(0, 0))];
    SingletonQueue(p.pending["paper"], pushed[0]);
    b := p.pending["paper"][0];
  }

  /**
   * The three paper workstations claim from the seeded row at once: 40, 40
   * and 20 units, all from the same batch object, which is left holding 20
   * and no longer queued.
   */
  method SeedAndClaimAtPaper() returns (p: Pipeline, b: Batch, q1: int, q2: int, q3: int)
    ensures fresh(p) && fresh(b) && p.Valid()
    ensures p.pending["paper"] == [] && p.pending["cut"] == []
    ensures b.quantity == 20 && q1 == 40 && q2 == 40 && q3 == 20
  {
    p, b := SeedOneRow();
    var b1, b2, b3;
    b1, q1 := p.Claim("paper");
    b2, q2 := p.Claim("paper");
    b3, q3 := p.Claim("paper");
  }

  /**
   * Continuing in the interleaving the timers produce: the 20-unit claim
   * finishes first and puts the batch object on the cut queue; a cut
   * workstation claims those 20; then the two 40-unit claims finish. Paper
   * completed 100 units, but cut received only 80, because the object the
   * second completion pushes carries its live quantity (20) rather than the
   * 40 units completed.
   */
  method AliasedCompletionScenario() returns (completedAtPaper: int, receivedAtCut: int)
    ensures completedAtPaper == 100
    ensures receivedAtCut == 80
  {
    var p, b, q1, q2, q3 := SeedAndClaimAtPaper();
    p.Complete("paper", b, q3);
    SingletonQueue(p.pending["cut"], b);
    assert b.quantity == 20;
    var c, r := p.Claim("cut");
    assert r == 20 && p.pending["cut"] == [] && b.quantity == 20;
    p.Complete("paper", b, q1);
    SingletonQueue(p.pending["cut"], b);
    assert b.quantity == 20;
    p.Complete("paper", b, q2);
    assert p.pending["cut"] == [b] && b.quantity == 60;
    completedAtPaper := q1 + q2 + q3;
    receivedAtCut := r + p.pending["cut"][0].quantity;
  }

  /**
   * The first half of the same interleaving with the corrected completion:
   * the 20-unit claim finishes, which queues a new 20-unit batch at cut, and
   * a cut workstation claims all of it.
   */
  method CorrectedFirstCompletion() returns (p: Pipeline, b: Batch, q1: int, q2: int, q3: int, r: int)
    ensures fresh(p) && p.Valid()
    ensures p.pending["paper"] == [] && p.pending["cut"] == []
    ensures q1 == 40 && q2 == 40 && q3 == 20 && r == 20
  {
    p, b, q1, q2, q3 := SeedAndClaimAtPaper();
    ghost var copy3 := p.CompleteCorrected("paper", b, q3);
    SingletonQueue(p.pending["cut"], copy3);
    assert copy3.quantity == 20;
    var c;
    c, r := p.Claim("cut");
  }

  /** The same interleaving with the corrected completion delivers all 100 units to cut. */
  method CorrectedCompletionScenario() returns (completedAtPaper: int, receivedAtCut: int)
    ensures completedAtPaper == 100
    ensures receivedAtCut == 100
  {
    var p, b, q1, q2, q3, r := CorrectedFirstCompletion();
    ghost var copy1 := p.CompleteCorrected("paper", b, q1);
    SingletonQueue(p.pending["cut"], copy1);
    assert copy1.quantity == 40;
    ghost var copy2 := p.CompleteCorrected("paper", b, q2);
    assert p.pending["cut"] == [copy1] && copy1.quantity == 80;
    completedAtPaper := q1 + q2 + q3;
    receivedAtCut := r + p.pending["cut"][0].quantity;
  }
}
