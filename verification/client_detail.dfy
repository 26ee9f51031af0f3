/** The client detail page (`src/pages/ClientDetail.tsx`): its own status
    colours and texts, the products it loads for the client's orders, and the
    product name and current step its helpers compute for an order (the table
    cells that would show them are commented out in the page). */
module ClientDetail {
  import opened Wrappers
  import opened MockData
  import Seqs
  import StatusTally

  const GrayBadge := "bg-gray-500 text-white"

  /** The page's own `getStatusColor` over the raw status string. */
  function LocalStatusColor(raw: string): (color: string)
    ensures raw == "en_cours" <==> color == "bg-blue-500 text-white"
    ensures raw == "termine" <==> color == "bg-green-500 text-white"
    ensures raw == "annule" <==> color == "bg-red-500 text-white"
    ensures raw !in {"en_cours", "termine", "annule"} <==> color == GrayBadge
  {
    if raw == "en_cours" then "bg-blue-500 text-white"
    else if raw == "termine" then "bg-green-500 text-white"
    else if raw == "annule" then "bg-red-500 text-white"
    else GrayBadge
  }

  /** The page's own `getStatusText`: three statuses get a label, every
      other string is shown as it is. */
  function LocalStatusText(raw: string): (text: string)
    ensures raw == "en_cours" ==> text == "En Cours"
    ensures raw == "termine" ==> text == "Terminé"
    ensures raw == "annule" ==> text == "Annulé"
    ensures text != raw <==> raw in {"en_cours", "termine", "annule"}
  {
    if raw == "en_cours" then "En Cours"
    else if raw == "termine" then "Terminé"
    else if raw == "annule" then "Annulé"
    else raw
  }

  /** Against the shared labels: completed and cancelled read the same, "en
      cours" differs in capitalisation, and the waiting and postponed keys are
      shown raw. */
  lemma LocalTextAgainstShared(s: Status)
    ensures s in {Termine, Annule} ==> LocalStatusText(StatusKey(s)) == Text(s)
    ensures s == EnCours ==> LocalStatusText(StatusKey(s)) != Text(s)
    ensures s in {EnAttente, Reporte} ==> LocalStatusText(StatusKey(s)) == StatusKey(s)
  {
    if s == EnCours {
      assert LocalStatusText(StatusKey(s))[3] == 'C';
      assert Text(s)[3] == 'c';
    }
  }

  /** The `product_id` column of each order, "" when unset. */
  function ProductIdsOf(orders: seq<Order>): (ids: seq<string>)
    ensures |ids| == |orders|
    ensures forall i :: 0 <= i < |orders| ==> ids[i] == orders[i].productId
  {
    if orders == [] then [] else [orders[0].productId] + ProductIdsOf(orders[1..])
  }

  /** The product ids the page queries: each set `product_id` of the client's
      orders, once. */
  function ProductIdsToLoad(orders: seq<Order>): (ids: seq<string>)
    ensures forall id :: id in ids <==> id != "" && exists i :: 0 <= i < |orders| && orders[i].productId == id
    ensures forall i, j :: 0 <= i < j < |ids| ==> ids[i] != ids[j]
  {
    var all := ProductIdsOf(orders);
    var r := Seqs.Distinct(Seqs.Filter(all, (id: string) => id != ""));
    assert forall id :: id in all <==> exists i :: 0 <= i < |orders| && orders[i].productId == id by {
      forall id | id in all
        ensures exists i :: 0 <= i < |orders| && orders[i].productId == id
      {
        var i :| 0 <= i < |all| && all[i] == id;
        assert orders[i].productId == id;
      }
      forall id | exists i :: 0 <= i < |orders| && orders[i].productId == id
        ensures id in all
      {
        var i :| 0 <= i < |orders| && orders[i].productId == id;
        assert all[i] == id;
      }
    }
    r
  }

  const UnspecifiedProduct := "Produit non spécifié"
  const UnknownProduct := "Produit inconnu"

  /** `getProductName`. */
  function ProductName(productId: string, products: seq<Product>): (name: string)
    ensures productId == "" ==> name == UnspecifiedProduct
    ensures productId != "" && ProductById(products, productId).None? ==> name == UnknownProduct
    ensures productId != "" && ProductById(products, productId).Some? ==>
              name == ProductById(products, productId).value.name
  {
    if productId == "" then UnspecifiedProduct
    else match ProductById(products, productId)
      case None => UnknownProduct
      case Some(p) => p.name
  }

  const FinishedText := "Terminé"

  /** `getCurrentStep`: `None` stands for the `undefined` that indexing the
      steps at a negative index yields. */
  function CurrentStep(order: Order, products: seq<Product>): (step: Option<string>)
    ensures order.productId == "" ==> step == Some(UnspecifiedProduct)
    ensures order.productId != "" && ProductById(products, order.productId).None? ==> step == Some(FinishedText)
    ensures order.productId != "" && ProductById(products, order.productId).Some? ==>
              var steps := ProductById(products, order.productId).value.steps;
              && (order.stepIndex >= |steps| ==> step == Some(FinishedText))
              && (0 <= order.stepIndex < |steps| ==> step == Some(steps[order.stepIndex]))
              && (order.stepIndex < 0 ==> step.None?)
  {
    if order.productId == "" then Some(UnspecifiedProduct)
    else match ProductById(products, order.productId)
      case None => Some(FinishedText)
      case Some(p) =>
        if order.stepIndex >= |p.steps| then Some(FinishedText)
        else if order.stepIndex < 0 then None
        else Some(p.steps[order.stepIndex])
  }

  /** A named step is always one of the product's steps or one of the two
      fixed texts. */
  lemma CurrentStepIsKnown(order: Order, products: seq<Product>)
    ensures var step := CurrentStep(order, products);
            step.Some? ==> step.value in {UnspecifiedProduct, FinishedText}
                           || exists p :: p in products && p.id == order.productId && step.value in p.steps
  {
    var step := CurrentStep(order, products);
    if step.Some? && order.productId != "" && ProductById(products, order.productId).Some? {
      var p := ProductById(products, order.productId).value;
      if 0 <= order.stepIndex < |p.steps| {
        assert p in products;
        assert step.value == p.steps[order.stepIndex];
      }
    }
  }

  function StatusOf(o: Order): Status {
    o.status
  }

  /** The "commandes en cours" counter: the shared per-status count. */
  function InProgressCount(orders: seq<Order>): (n: nat)
    ensures n == StatusTally.CountStatus(orders, StatusOf, EnCours)
    ensures n <= |orders|
    ensures n == 0 <==> forall o :: o in orders ==> o.status != EnCours
  {
    StatusTally.CountStatusBounds(orders, StatusOf, EnCours);
    StatusTally.CountStatus(orders, StatusOf, EnCours)
  }

  /** Each order in progress adds one to the counter, and any other order
      adds nothing. */
  lemma {:induction false} InProgressCountCons(o: Order, rest: seq<Order>)
    ensures InProgressCount([o] + rest) == (if o.status == EnCours then 1 else 0) + InProgressCount(rest)
  {
    StatusTally.CountStatusCons([o] + rest, StatusOf, EnCours);
    assert ([o] + rest)[1..] == rest;
  }
}
