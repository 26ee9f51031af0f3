/** The orders table of the dashboard (`src/components/OrderTable.tsx`): the
    priority order of its rows, the "current step" cell, the status menu of
    each row and the store update one menu choice sends. */
module OrderTable {
  import opened Wrappers
  import opened MockData
  import Seqs
  import OrderDetail

  /** `statusPriority`: in progress first, then waiting, postponed, cancelled,
      and completed last. */
  function Priority(s: Status): (p: nat)
    ensures p <= 4
    ensures s == EnCours <==> p == 0
    ensures s == Termine <==> p == 4
  {
    match s
    case EnCours => 0
    case EnAttente => 1
    case Reporte => 2
    case Annule => 3
    case Termine => 4
  }

  /** Distinct statuses have distinct priorities, so a priority block holds one status. */
  lemma PriorityInjective(a: Status, b: Status)
    ensures Priority(a) == Priority(b) <==> a == b
  {
  }

  /** The orders of priority `k`, in their original order. */
  function Block(orders: seq<Order>, k: nat): seq<Order> {
    Seqs.Filter(orders, (o: Order) => Priority(o.status) == k)
  }

  /** The blocks of priority `k` to 4, one after the other. */
  function FromLevel(orders: seq<Order>, k: nat): (r: seq<Order>)
    ensures forall i :: 0 <= i < |r| ==> k <= Priority(r[i].status)
    decreases 5 - k
  {
    if k > 4 then [] else Block(orders, k) + FromLevel(orders, k + 1)
  }

  /** `sortedOrders`: the rows as the table lists them. `Array.prototype.sort`
      is stable, so with a comparator that only compares priorities the result
      is the priority blocks in order, each keeping the input order. */
  function SortedOrders(orders: seq<Order>): (sorted: seq<Order>)
    ensures multiset(sorted) == multiset(orders)
    ensures SortedByPriority(sorted)
  {
    FromLevelPermutes(orders);
    FromLevelSorted(orders, 0);
    FromLevel(orders, 0)
  }

  predicate SortedByPriority(rows: seq<Order>) {
    forall i, j :: 0 <= i < j < |rows| ==> Priority(rows[i].status) <= Priority(rows[j].status)
  }

  /** A block of one priority followed by sorted rows of that priority or
      more is sorted. */
  lemma BlockThenSorted(b: seq<Order>, rest: seq<Order>, k: nat)
    requires forall i :: 0 <= i < |b| ==> Priority(b[i].status) == k
    requires forall i :: 0 <= i < |rest| ==> k <= Priority(rest[i].status)
    requires SortedByPriority(rest)
    ensures SortedByPriority(b + rest)
  {
    var r := b + rest;
    forall i, j | 0 <= i < j < |r|
      ensures Priority(r[i].status) <= Priority(r[j].status)
    {
      if j < |b| {
        assert r[i] == b[i] && r[j] == b[j];
      } else if i < |b| {
        assert r[i] == b[i] && r[j] == rest[j - |b|];
      } else {
        assert r[i] == rest[i - |b|] && r[j] == rest[j - |b|];
      }
    }
  }

  lemma {:induction false} FromLevelSorted(orders: seq<Order>, k: nat)
    ensures SortedByPriority(FromLevel(orders, k))
    decreases 5 - k
  {
    if k <= 4 {
      var b := Block(orders, k);
      FromLevelSorted(orders, k + 1);
      forall i | 0 <= i < |b|
        ensures Priority(b[i].status) == k
      {
        assert b[i] in b;
      }
      BlockThenSorted(b, FromLevel(orders, k + 1), k);
    }
  }

  /** The blocks `k..4` hold each order of priority at least `k` as often
      as the input does, and no other order. */
  lemma {:induction false} FromLevelMultiplicity(orders: seq<Order>, k: nat)
    ensures forall y :: multiset(FromLevel(orders, k))[y]
                        == if k <= Priority(y.status) then multiset(orders)[y] else 0
    decreases 5 - k
  {
    if k <= 4 {
      FromLevelMultiplicity(orders, k + 1);
      Seqs.FilterMultiplicity(orders, (o: Order) => Priority(o.status) == k);
      assert FromLevel(orders, k) == Block(orders, k) + FromLevel(orders, k + 1);
    }
  }

  lemma FromLevelPermutes(orders: seq<Order>)
    ensures multiset(FromLevel(orders, 0)) == multiset(orders)
  {
    FromLevelMultiplicity(orders, 0);
  }

  /** Keeping only the orders of priority `j` from the blocks `k..4` (`k <= j`)
      finds them in their input order. */
  lemma {:induction false} FromLevelBlock(orders: seq<Order>, k: nat, j: nat)
    requires k <= j
    ensures Block(FromLevel(orders, k), j) == (if j <= 4 then Block(orders, j) else [])
    decreases 5 - k
  {
    var p := (o: Order) => Priority(o.status) == j;
    if k > 4 {
    } else {
      Seqs.FilterConcat(Block(orders, k), FromLevel(orders, k + 1), p);
      if k == j {
        Seqs.FilterIdempotent(orders, p);
        var rest := FromLevel(orders, k + 1);
        Seqs.FilterNone(rest, p);
      } else {
        var b := Block(orders, k);
        Seqs.FilterNone(b, p);
        FromLevelBlock(orders, k + 1, j);
      }
    }
  }

  /** The table lists every order exactly once, in priority order, and orders
      of the same status keep the relative order they were passed in. */
  lemma SortedOrdersSpec(orders: seq<Order>)
    ensures multiset(SortedOrders(orders)) == multiset(orders)
    ensures SortedByPriority(SortedOrders(orders))
    ensures forall s: Status :: Block(SortedOrders(orders), Priority(s)) == Block(orders, Priority(s))
  {
    forall s: Status
      ensures Block(SortedOrders(orders), Priority(s)) == Block(orders, Priority(s))
    {
      FromLevelBlock(orders, 0, Priority(s));
    }
  }

  /** The product a row works with: the joined one, else the first product
      of the list with the order's `product_id`. */
  function RowProduct(order: Order, products: seq<Product>): (p: Option<Product>)
    ensures order.product.Some? ==> p == order.product
    ensures order.product.None? ==> p == ProductById(products, order.productId)
  {
    if order.product.Some? then order.product else ProductById(products, order.productId)
  }

  const MissingProductText := "Détails produit manquants"
  const NoStepsText := "Étapes non définies"
  const ReadyText := "Prêt à commencer"
  const UndefinedText := "Indéfini"

  /** `getCurrentStepDisplay`: the cell names the current step when the index
      designates one; otherwise it explains why there is none. */
  function StepDisplay(order: Order, products: seq<Product>): (text: string)
    ensures RowProduct(order, products).None? ==>
              text == if order.status == Termine then FinishedText else MissingProductText
    ensures RowProduct(order, products).Some? && RowProduct(order, products).value.steps == [] ==>
              text == if order.status == Termine then FinishedText else NoStepsText
    ensures RowProduct(order, products).Some? && RowProduct(order, products).value.steps != [] ==>
              var steps := RowProduct(order, products).value.steps;
              && (OrderDetail.OnStep(steps, order.stepIndex) ==> text == steps[order.stepIndex])
              && (order.stepIndex >= |steps| ==> text == FinishedText)
              && (order.stepIndex < 0 ==> text == if order.status == EnAttente then ReadyText else UndefinedText)
  {
    match RowProduct(order, products)
    case None => if order.status == Termine then FinishedText else MissingProductText
    case Some(p) =>
      if |p.steps| == 0 then (if order.status == Termine then FinishedText else NoStepsText)
      else if order.stepIndex >= |p.steps| then FinishedText
      else if order.stepIndex < 0 && order.status == EnAttente then ReadyText
      else if order.stepIndex < 0 then UndefinedText
      else p.steps[order.stepIndex]
  }

  const FinishedText := "Terminé"

  /** Where the table shows a step, the order detail page names the same step
      as current, for an active order whose product is joined. */
  lemma StepDisplayMatchesDetail(order: Order, products: seq<Product>)
    requires order.product.Some? && order.status in {EnAttente, EnCours}
    requires OrderDetail.OnStep(order.product.value.steps, order.stepIndex)
    ensures OrderDetail.CurrentStepMessage(order.status, OrderDetail.MainSteps(order.product), order.stepIndex)
            == OrderDetail.CurrentStepPrefix + StepDisplay(order, products)
  {
  }

  /** The `step` text of the history entry `changeOrderStatus` appends. */
  function TableStatusChangeLabel(oldStatus: Status, newStatus: Status, steps: Option<seq<string>>, index: int): (text: string)
    ensures steps.None? ==> text == "Changement vers " + Text(newStatus) + " (produit non spécifié)"
    ensures steps.Some? && !OrderDetail.OnStep(steps.value, index)
            && !(steps.value == [] && newStatus == Termine)
            && !(steps.value == [] && oldStatus == EnAttente && newStatus == EnCours)
            && newStatus != Termine
            ==> text == "Changement vers " + Text(newStatus)
  {
    match steps
    case None => "Changement vers " + Text(newStatus) + " (produit non spécifié)"
    case Some(s) =>
      if newStatus == Termine && |s| == 0 then OrderDetail.NoStepsLabel
      else if oldStatus == EnAttente && newStatus == EnCours && |s| == 0 then OrderDetail.InitiatedLabel
      else if |s| > 0 && index >= 0 && index < |s| then s[index]
      else if newStatus == Termine then OrderDetail.CompletionLabel
      else "Changement vers " + Text(newStatus)
  }

  /** The table and the detail page write the same label whenever the order
      has a product and the change completes it, starts a product without
      steps, or happens on a valid step. They differ only in the fallback
      (the table names the new status, the detail page the old status key)
      and without a product. */
  lemma TableLabelAgreesWithDetail(oldStatus: Status, newStatus: Status, steps: Option<seq<string>>, index: int)
    ensures steps.Some? && (newStatus == Termine || OrderDetail.OnStep(steps.value, index)
                            || (steps.value == [] && oldStatus == EnAttente && newStatus == EnCours))
            ==> TableStatusChangeLabel(oldStatus, newStatus, steps, index)
                == OrderDetail.StatusChangeLabel(oldStatus, newStatus, steps, index)
    ensures steps.Some? && newStatus != Termine && !OrderDetail.OnStep(steps.value, index)
            && !(steps.value == [] && oldStatus == EnAttente && newStatus == EnCours)
            ==> TableStatusChangeLabel(oldStatus, newStatus, steps, index)
                != OrderDetail.StatusChangeLabel(oldStatus, newStatus, steps, index)
  {
    if steps.Some? && newStatus != Termine && !OrderDetail.OnStep(steps.value, index)
       && !(steps.value == [] && oldStatus == EnAttente && newStatus == EnCours) {
      var t := TableStatusChangeLabel(oldStatus, newStatus, steps, index);
      assert t[0] == 'C';
      assert StatusKey(oldStatus)[0] != 'C';
    }
  }

  /** The row fields `changeOrderStatus` writes. */
  datatype StatusUpdate = StatusUpdate(id: string, status: Status, history: seq<HistoryEntry>)

  /** `changeOrderStatus(order, newStatus)`: the new status and the history
      with exactly one entry appended, for the order's own row; the step index
      is left alone. */
  function StatusChangeRequest(order: Order, products: seq<Product>, newStatus: Status, now: Timestamp): (u: StatusUpdate)
    ensures u.id == order.id && u.status == newStatus
    ensures |u.history| == |HistoryOrEmpty(order.history)| + 1
    ensures u.history[..|u.history| - 1] == HistoryOrEmpty(order.history)
    ensures u.history[|u.history| - 1].status == newStatus
    ensures u.history[|u.history| - 1].timestamp == now
    ensures u.history[|u.history| - 1].step
            == TableStatusChangeLabel(order.status, newStatus,
                 OrderDetail.MainSteps(RowProduct(order, products)), order.stepIndex)
  {
    var text := TableStatusChangeLabel(order.status, newStatus,
                   OrderDetail.MainSteps(RowProduct(order, products)), order.stepIndex);
    StatusUpdate(order.id, newStatus, AppendHistory(order.history, HistoryEntry(text, newStatus, now)))
  }

  /** A status change from the dashboard, as written: the dashboard's query
      does not select `history`, so the table's row has none and the update
      carries a one-entry history in place of the row's stored log. */
  lemma {:induction false} TableChangeAfterLoad(stored: Order, products: seq<Product>, newStatus: Status, now: Timestamp)
    ensures var u := StatusChangeRequest(AsSelected(stored), products, newStatus, now);
            && |u.history| == 1
            && (HistoryOrEmpty(stored.history) != [] ==> u.history != AppendHistory(stored.history, u.history[0]))
  {
    var u := StatusChangeRequest(AsSelected(stored), products, newStatus, now);
    assert HistoryOrEmpty(AsSelected(stored).history) == [];
    if HistoryOrEmpty(stored.history) != [] {
      assert |AppendHistory(stored.history, u.history[0])| >= 2;
    }
  }

  /** The status choices of a row's menu, top to bottom. */
  function MenuOptions(status: Status): (options: seq<Status>)
    // Completed and cancelled orders offer none.
    ensures status == Termine || status == Annule ==> options == []
    // Otherwise every status but the current one, each once.
    ensures status != Termine && status != Annule ==>
              (forall s :: s in options <==> s != status) && |options| == 4
    // "Marquer Terminé" and "Marquer Annulé" come last.
    ensures status != Termine && status != Annule ==>
              options[2] == Termine && options[3] == Annule
  {
    if status == Termine || status == Annule then []
    else
      (if status != EnAttente then [EnAttente] else [])
      + (if status != EnCours then [EnCours] else [])
      + (if status != Reporte then [Reporte] else [])
      + [Termine, Annule]
  }
}
