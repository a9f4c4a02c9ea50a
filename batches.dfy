/**
 * Batches and the per-operation pending queues that hold them
 * (workstations.js). A batch is a heap object: claims decrement its quantity
 * in place and merges increment it in place, and the same object may be
 * referenced from more than one queue. Its order number, card id and
 * priority key are set when it is created and never written again.
 */
module Batches {
  import opened Settings

  class Batch {
    const order: int
    var quantity: int
    const cardid: int
    const priority: real

    constructor (order: int, quantity: int, cardid: int, priority: real)
      ensures this.order == order && this.quantity == quantity
      ensures this.cardid == cardid && this.priority == priority
    {
      this.order := order;
      this.quantity := quantity;
      this.cardid := cardid;
      this.priority := priority;
    }

    /** Whether this batch is a piece of the same row as (cardid, order). */
    predicate SameRow(cardid: int, order: int) {
      this.cardid == cardid && this.order == order
    }
  }

  /** Ascending by priority key, as the comparator x.priority - y.priority orders them. */
  ghost predicate Sorted(q: seq<Batch>) {
    forall i, j | 0 <= i < j < |q| :: q[i].priority <= q[j].priority
  }

  /** No batch object occurs twice in one queue. */
  ghost predicate Distinct(q: seq<Batch>) {
    forall i, j | 0 <= i < j < |q| :: q[i] != q[j]
  }

  /** Places b in front of the first entry with a larger-or-equal key. */
  function Insert(q: seq<Batch>, b: Batch): (r: seq<Batch>)
    requires Sorted(q)
    ensures Sorted(r)
    ensures multiset(r) == multiset(q) + multiset{b}
    ensures |r| == |q| + 1 && (r[0] == b || (q != [] && r[0] == q[0]))
  {
    if q == [] || b.priority <= q[0].priority then [b] + q
    else
      var rest := Insert(q[1..], b);
      SortedCons(q[0], rest);
      assert q == [q[0]] + q[1..];
      [q[0]] + rest
  }

  lemma SortedCons(x: Batch, q: seq<Batch>)
    requires Sorted(q)
    requires q != [] ==> x.priority <= q[0].priority
    ensures Sorted([x] + q)
  {
  }

  /**
   * The in-place sort of a pending queue: the result is sorted by priority
   * and holds exactly the same batch objects.
   */
  method SortByPriority(q: seq<Batch>) returns (r: seq<Batch>)
    ensures Sorted(r)
    ensures multiset(r) == multiset(q)
  {
    r := [];
    var i := 0;
    while i < |q|
      invariant 0 <= i <= |q|
      invariant Sorted(r)
      invariant multiset(r) == multiset(q[..i])
    {
      assert q[..i + 1] == q[..i] + [q[i]];
      r := Insert(r, q[i]);
      i := i + 1;
    }
    assert q[..|q|] == q;
  }

  /**
   * The first entry of q that is a piece of the row (cardid, order), as
   * Array.prototype.find returns it, or None when there is none.
   */
  function FindMatch(q: seq<Batch>, cardid: int, order: int): (r: Option<nat>)
    ensures r.Some? ==> r.value < |q| && q[r.value].SameRow(cardid, order)
    ensures r.Some? ==> forall j | 0 <= j < r.value :: !q[j].SameRow(cardid, order)
    ensures r.None? <==> forall j | 0 <= j < |q| :: !q[j].SameRow(cardid, order)
  {
    if q == [] then None
    else if q[0].SameRow(cardid, order) then Some(0)
    else match FindMatch(q[1..], cardid, order)
      case None => None
      case Some(k) => Some(k + 1)
  }

  /** A permutation of a queue without repeated objects has none either. */
  lemma DistinctPermutation(q: seq<Batch>, r: seq<Batch>)
    requires Distinct(q) && multiset(r) == multiset(q)
    ensures Distinct(r)
  {
    forall i, j | 0 <= i < j < |r| ensures r[i] != r[j] {
      RepeatCounted(r, i, j);
      DistinctCountsOnce(q, r[i]);
    }
  }

  /** An object occurs at most once in a queue without repeats. */
  lemma {:induction false} DistinctCountsOnce(q: seq<Batch>, x: Batch)
    requires Distinct(q)
    ensures multiset(q)[x] <= 1
  {
    if q != [] {
      assert q == [q[0]] + q[1..];
      DistinctCountsOnce(q[1..], x);
      assert q[0] == x ==> x !in q[1..];
    }
  }

  lemma RepeatCounted(q: seq<Batch>, i: nat, j: nat)
    requires i < j < |q|
    ensures q[i] == q[j] ==> multiset(q)[q[i]] >= 2
  {
    assert q == q[..j] + q[j..];
    assert q[i] in q[..j] && q[j] in q[j..];
  }

  /** Appending an object not yet in the queue keeps it free of repeats. */
  lemma DistinctAppend(q: seq<Batch>, b: Batch)
    requires Distinct(q) && b !in q
    ensures Distinct(q + [b])
  {
  }

  /** Dropping the head of a queue without repeats leaves none. */
  lemma DistinctTail(q: seq<Batch>)
    requires Distinct(q) && q != []
    ensures Distinct(q[1..])
  {
  }
}
