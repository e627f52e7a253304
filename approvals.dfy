/** The approvals page: its own copy of the pre-order list, the decision that
    sets the status of the order with a given id, and the queue of orders
    still pending. The decision does not look at the current status; the
    page offers the approve and reject buttons only on pending orders. */
module ApprovalsPage {
  import opened Lists
  import opened Data
  import Dashboard

  datatype Decision = Approve | Reject {
    function Status(): (s: PreOrderStatus)
      ensures s != Pending
      ensures this == Approve <==> s == Approved
      ensures this == Reject <==> s == Rejected
    {
      match this
      case Approve => Approved
      case Reject => Rejected
    }
  }

  /** One order after the decision: its status replaced when its id matches. */
  function Decide(o: PreOrder, id: string, d: Decision): (r: PreOrder)
    ensures r == o.(status := r.status)
    ensures o.id == id ==> r.status == d.Status()
    ensures o.id != id ==> r == o
  {
    if o.id == id then o.(status := d.Status()) else o
  }

  /** The list after deciding on `id`: same length and order, every order with
      that id carries the decision's status and keeps its other fields, every
      other order is unchanged. */
  function ApplyDecision(orders: seq<PreOrder>, id: string, d: Decision): (r: seq<PreOrder>)
    ensures |r| == |orders|
    ensures forall i :: 0 <= i < |r| ==> r[i] == orders[i].(status := r[i].status)
    ensures forall i :: 0 <= i < |r| && orders[i].id == id ==> r[i].status == d.Status()
    ensures forall i :: 0 <= i < |r| && orders[i].id != id ==> r[i] == orders[i]
  {
    seq(|orders|, i requires 0 <= i < |orders| => Decide(orders[i], id, d))
  }

  /** An id that no order has leaves the list as it was. */
  lemma {:induction false} AbsentIdChangesNothing(orders: seq<PreOrder>, id: string, d: Decision)
    requires forall i :: 0 <= i < |orders| ==> orders[i].id != id
    ensures ApplyDecision(orders, id, d) == orders
  {
    var r := ApplyDecision(orders, id, d);
    assert forall i :: 0 <= i < |r| ==> r[i] == orders[i];
  }

  /** Deciding twice on the same id: the second decision is what remains, so
      repeating a decision changes nothing. */
  lemma {:induction false} LaterDecisionWins(orders: seq<PreOrder>, id: string, d1: Decision, d2: Decision)
    ensures ApplyDecision(ApplyDecision(orders, id, d1), id, d2) == ApplyDecision(orders, id, d2)
    ensures ApplyDecision(ApplyDecision(orders, id, d1), id, d1) == ApplyDecision(orders, id, d1)
  {
    var a, b := ApplyDecision(ApplyDecision(orders, id, d1), id, d2), ApplyDecision(orders, id, d2);
    assert forall i :: 0 <= i < |a| ==> a[i] == b[i];
    var c, e := ApplyDecision(ApplyDecision(orders, id, d1), id, d1), ApplyDecision(orders, id, d1);
    assert forall i :: 0 <= i < |c| ==> c[i] == e[i];
  }

  /** Decisions on two different ids do not interfere. */
  lemma {:induction false} DecisionsCommute(orders: seq<PreOrder>, id1: string, d1: Decision, id2: string, d2: Decision)
    requires id1 != id2
    ensures ApplyDecision(ApplyDecision(orders, id1, d1), id2, d2) == ApplyDecision(ApplyDecision(orders, id2, d2), id1, d1)
  {
    var a, b := ApplyDecision(ApplyDecision(orders, id1, d1), id2, d2), ApplyDecision(ApplyDecision(orders, id2, d2), id1, d1);
    assert forall i :: 0 <= i < |a| ==> a[i] == b[i];
  }

  /** The orders awaiting a decision, in list order. */
  function PendingApprovals(orders: seq<PreOrder>): (r: seq<PreOrder>)
    ensures forall i :: 0 <= i < |r| ==> r[i].status == Pending
    ensures forall x :: multiset(r)[x] == if x.status == Pending then multiset(orders)[x] else 0
    ensures IsSubsequence(r, orders)
  {
    Filter(orders, IsPendingOrder)
  }

  /** The dashboard's pending figure is the length of the approvals queue. */
  lemma PendingCountIsQueueLength(orders: seq<PreOrder>)
    ensures Dashboard.PendingPreOrders(orders) == |PendingApprovals(orders)|
  {
  }

  /** The test the queue keeps after a decision on `id`. */
  function PendingOtherThan(id: string): PreOrder -> bool
  {
    (o: PreOrder) => o.status == Pending && o.id != id
  }

  lemma ApplyDecisionCons(o: PreOrder, orders: seq<PreOrder>, id: string, d: Decision)
    ensures ApplyDecision([o] + orders, id, d) == [Decide(o, id, d)] + ApplyDecision(orders, id, d)
  {
    var a, b := ApplyDecision([o] + orders, id, d), [Decide(o, id, d)] + ApplyDecision(orders, id, d);
    assert forall i :: 1 <= i < |a| ==> a[i] == b[i];
  }

  /** After a decision on `id` the queue is the old queue without the orders
      that have that id, in the same order. */
  lemma {:induction false} QueueAfterDecision(orders: seq<PreOrder>, id: string, d: Decision)
    ensures PendingApprovals(ApplyDecision(orders, id, d)) == Filter(orders, PendingOtherThan(id))
    decreases |orders|
  {
    if orders != [] {
      var o, rest := orders[0], orders[1..];
      assert orders == [o] + rest;
      ApplyDecisionCons(o, rest, id, d);
      FilterPrepend(Decide(o, id, d), ApplyDecision(rest, id, d), IsPendingOrder);
      FilterPrepend(o, rest, PendingOtherThan(id));
      QueueAfterDecision(rest, id, d);
    }
  }

  /** No order with the decided id stays in the queue, and every other
      pending order stays. */
  lemma DecidedOrderLeavesQueue(orders: seq<PreOrder>, id: string, d: Decision)
    ensures forall o :: o in PendingApprovals(ApplyDecision(orders, id, d)) <==> o in orders && o.status == Pending && o.id != id
  {
    QueueAfterDecision(orders, id, d);
    forall o ensures o in Filter(orders, PendingOtherThan(id)) <==> o in orders && o.status == Pending && o.id != id {
      FilterMembership(orders, PendingOtherThan(id), o);
    }
  }

  /** Deciding on the first of three orders, when only the second of the
      others is pending, leaves the second alone in the queue. */
  lemma QueueOfThree(a: PreOrder, b: PreOrder, c: PreOrder, d: Decision)
    requires b.status == Pending && b.id != a.id && c.status != Pending
    ensures PendingApprovals(ApplyDecision([a, b, c], a.id, d)) == [b]
  {
    var keep := PendingOtherThan(a.id);
    assert Filter([c], keep) == [] by {
      FilterPrepend(c, [], keep);
    }
    assert Filter([b, c], keep) == [b] by {
      assert [b, c] == [b] + [c];
      FilterPrepend(b, [c], keep);
    }
    assert Filter([a, b, c], keep) == [b] by {
      assert [a, b, c] == [a] + [b, c];
      FilterPrepend(a, [b, c], keep);
    }
    QueueAfterDecision([a, b, c], a.id, d);
  }

  /** Approving `PO-001` on the seed list leaves `PO-002` alone in the queue:
      `PO-003` is already fulfilled. */
  lemma SeedApprovalExample(now: Instant)
    ensures PendingApprovals(ApplyDecision(SeedPreOrders(now), "PO-001", Approve)) == [SeedPreOrders(now)[1]]
  {
    var s := SeedPreOrders(now);
    assert s == [s[0], s[1], s[2]];
    assert s[0].id == "PO-001" && s[1].id == "PO-002";
    QueueOfThree(s[0], s[1], s[2], Approve);
  }

  /** The page state: the approvals page loads its own copy of the seeds. */
  class ApprovalQueue {
    var orders: seq<PreOrder>

    constructor (now: Instant)
      ensures orders == SeedPreOrders(now)
    {
      orders := SeedPreOrders(now);
    }

    method HandleApproval(id: string, d: Decision)
      modifies this
      ensures orders == ApplyDecision(old(orders), id, d)
    {
      orders := ApplyDecision(orders, id, d);
    }
  }
}
