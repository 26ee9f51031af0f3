/** The order-items page (`src/pages/OrdersPage.tsx`): rows normalised from
    the store, the product, client and quantity filters, the two sort modes
    (in-progress rows first), the sort toggle, the tab counts and the status
    badge of each row. */
module OrdersPage {
  import opened Wrappers
  import opened MockData
  import Seqs
  import StatusTally

  /** A row of `order_items` as the store returns it: every optional column
      may be missing; `orderDate` is the order's date already read as a
      number of milliseconds, `None` when absent. */
  datatype RawItem = RawItem(
    id: string,
    orderId: string,
    quantity: int,
    status: Option<Status>,
    stepIndex: Option<int>,
    product: Option<ProductInfo>,
    clientName: Option<string>,
    orderDate: Option<int>)

  /** The joined product columns of a row. */
  datatype ProductInfo = ProductInfo(name: string, steps: seq<string>)

  /** A row as the page keeps it. */
  datatype OrderItem = OrderItem(
    id: string,
    orderId: string,
    title: string,
    quantity: int,
    status: Status,
    stepIndex: int,
    product: ProductInfo,
    clientName: string,
    orderDate: Option<int>)

  const UnknownProduct := "Produit inconnu"
  const UnknownClient := "Client inconnu"

  /** The row normalisation of `fetchOrderItems`: each missing or empty
      column gets its default. */
  function Normalise(raw: RawItem): (item: OrderItem)
    ensures item.id == raw.id && item.orderId == raw.orderId && item.quantity == raw.quantity
    ensures item.orderDate == raw.orderDate
    ensures item.status == raw.status.GetOr(EnAttente)
    ensures item.stepIndex == raw.stepIndex.GetOr(0)
    ensures raw.product.None? ==> item.product == ProductInfo(UnknownProduct, [])
    ensures raw.product.Some? ==> item.product == raw.product.value
    ensures item.title == if raw.product.Some? && raw.product.value.name != "" then raw.product.value.name
                          else UnknownProduct
    ensures item.clientName == if raw.clientName.Some? && raw.clientName.value != "" then raw.clientName.value
                               else UnknownClient
  {
    OrderItem(
      raw.id,
      raw.orderId,
      if raw.product.Some? && raw.product.value.name != "" then raw.product.value.name else UnknownProduct,
      raw.quantity,
      raw.status.GetOr(EnAttente),
      raw.stepIndex.GetOr(0),
      raw.product.GetOr(ProductInfo(UnknownProduct, [])),
      if raw.clientName.Some? && raw.clientName.value != "" then raw.clientName.value else UnknownClient,
      raw.orderDate)
  }

  /** A normalised row always has a title and a client name to show. */
  lemma NormalisedRowsAreNamed(raw: RawItem)
    ensures Normalise(raw).title != "" && Normalise(raw).clientName != ""
  {
  }

  datatype Variant = Default | Secondary | Destructive | Outline

  datatype BadgeProps = BadgeProps(variant: Variant, text: string, className: Option<string>)

  /** `getStatusBadgeProps`. */
  function StatusBadgeProps(s: Status): (b: BadgeProps)
    ensures b.className.None? <==> s == Annule
    ensures b.variant == Outline <==> s == EnAttente || s == EnCours
  {
    match s
    case Termine => BadgeProps(Default, "Terminé", Some("bg-green-500 hover:bg-green-600 text-white"))
    case Reporte => BadgeProps(Secondary, "Reporté", Some("text-gray-600 border-gray-400"))
    case Annule => BadgeProps(Destructive, "Annulé", None)
    case EnAttente => BadgeProps(Outline, "En attente", Some("text-blue-500 border-blue-400"))
    case EnCours => BadgeProps(Outline, "En cours", Some("text-yellow-500 border-yellow-400"))
  }

  /** The badge texts are the shared status labels, so no two statuses share one. */
  lemma BadgeTextIsStatusText(s: Status)
    ensures StatusBadgeProps(s).text == Text(s)
  {
  }

  const FinalStepName := "Emballage"
  const InProgressText := "En Cours"

  /** The badge text of a row: an item in progress names its current step,
      unless that is the final packing step or the index is off the list. */
  function BadgeText(item: OrderItem): (text: string)
    ensures item.status != EnCours ==> text == StatusBadgeProps(item.status).text
    ensures item.status == EnCours && 0 <= item.stepIndex < |item.product.steps|
            && item.product.steps[item.stepIndex] != FinalStepName
            ==> text == InProgressText + " - " + item.product.steps[item.stepIndex]
    ensures item.status == EnCours && !(0 <= item.stepIndex < |item.product.steps|
                                        && item.product.steps[item.stepIndex] != FinalStepName)
            ==> text == InProgressText
  {
    if item.status != EnCours then StatusBadgeProps(item.status).text
    else
      var steps := item.product.steps;
      if |steps| > 0 && item.stepIndex >= 0 && item.stepIndex < |steps| then
        if steps[item.stepIndex] != FinalStepName then InProgressText + " - " + steps[item.stepIndex]
        else InProgressText
      else InProgressText
  }

  const AllProducts := "Tous les produits"
  const AllClients := "Tous les clients"

  /** The filter inputs; the quantity bounds are the already-parsed text
      fields, `None` when empty or not an integer. */
  datatype Filters = Filters(product: string, client: string, minQuantity: Option<int>, maxQuantity: Option<int>)

  predicate ProductFilterOn(f: Filters) {
    f.product != "" && f.product != AllProducts
  }

  predicate ClientFilterOn(f: Filters) {
    f.client != "" && f.client != AllClients
  }

  /** Whether a row passes every active filter. */
  predicate Matches(f: Filters, item: OrderItem) {
    PassesUpTo(f, item, 4)
  }

  /** The filters applied by the first `stage` steps of the pipeline:
      product, client, minimum and maximum quantity, in that order. */
  predicate PassesUpTo(f: Filters, item: OrderItem, stage: nat) {
    && (stage >= 1 && ProductFilterOn(f) ==> item.title == f.product)
    && (stage >= 2 && ClientFilterOn(f) ==> item.clientName == f.client)
    && (stage >= 3 && f.minQuantity.Some? ==> item.quantity >= f.minQuantity.value)
    && (stage >= 4 && f.maxQuantity.Some? ==> item.quantity <= f.maxQuantity.value)
  }

  /** With no active filter every row passes. */
  lemma NoFilterKeepsAll(f: Filters, item: OrderItem)
    requires f.product in {"", AllProducts} && f.client in {"", AllClients}
    requires f.minQuantity.None? && f.maxQuantity.None?
    ensures Matches(f, item)
  {
  }

  datatype SortKey = Quantity
  datatype Direction = Asc | Desc

  /** The page's sort state. */
  datatype SortConfig = SortConfig(key: Option<SortKey>, direction: Direction)

  /** The two comparators of `filteredAndSortedOrderItems`: negative when `a`
      goes first. */
  function Compare(config: SortConfig, a: OrderItem, b: OrderItem): (c: int)
    // In-progress rows go before all others, in both modes.
    ensures a.status == EnCours && b.status != EnCours ==> c < 0
    ensures a.status != EnCours && b.status == EnCours ==> c > 0
    // Within a class, the keyed mode orders by quantity in the chosen direction.
    ensures config.key.Some? && (a.status == EnCours <==> b.status == EnCours) && a.quantity != b.quantity
            ==> (c < 0 <==> (config.direction == Asc <==> a.quantity < b.quantity))
  {
    if a.status == EnCours && b.status != EnCours then -1
    else if a.status != EnCours && b.status == EnCours then 1
    else if config.key.Some? && a.quantity < b.quantity then (if config.direction == Asc then -1 else 1)
    else if config.key.Some? && a.quantity > b.quantity then (if config.direction == Asc then 1 else -1)
    else if a.orderDate.Some? && b.orderDate.Some? then b.orderDate.value - a.orderDate.value
    else 0
  }

  /** Swapping the rows flips the sign of the comparison. */
  lemma CompareAntisymmetric(config: SortConfig, a: OrderItem, b: OrderItem)
    ensures Compare(config, a, b) == -Compare(config, b, a)
  {
  }

  /** Each row is in order with the next one. */
  predicate Sorted(config: SortConfig, rows: seq<OrderItem>) {
    forall i :: 0 <= i < |rows| - 1 ==> Compare(config, rows[i], rows[i + 1]) <= 0
  }

  /** Inserting `x` in front of the first row it does not follow. */
  function Insert(config: SortConfig, x: OrderItem, rows: seq<OrderItem>): (r: seq<OrderItem>)
    ensures multiset(r) == multiset(rows) + multiset{x}
    ensures |r| > 0 && (r[0] == x || (rows != [] && r[0] == rows[0]))
  {
    if rows == [] then [x]
    else if Compare(config, x, rows[0]) <= 0 then [x] + rows
    else
      assert rows == [rows[0]] + rows[1..];
      [rows[0]] + Insert(config, x, rows[1..])
  }

  lemma SortedTail(config: SortConfig, rows: seq<OrderItem>)
    requires rows != [] && Sorted(config, rows)
    ensures Sorted(config, rows[1..])
  {
    forall i | 0 <= i < |rows[1..]| - 1
      ensures Compare(config, rows[1..][i], rows[1..][i + 1]) <= 0
    {
      assert rows[1..][i] == rows[i + 1] && rows[1..][i + 1] == rows[i + 2];
    }
  }

  /** Inserting into sorted rows keeps them sorted. */
  lemma {:induction false} InsertSorted(config: SortConfig, x: OrderItem, rows: seq<OrderItem>)
    requires Sorted(config, rows)
    ensures Sorted(config, Insert(config, x, rows))
    decreases |rows|
  {
    if rows == [] {
    } else if Compare(config, x, rows[0]) <= 0 {
      var r := [x] + rows;
      forall i | 0 <= i < |r| - 1
        ensures Compare(config, r[i], r[i + 1]) <= 0
      {
        if i > 0 {
          assert r[i] == rows[i - 1] && r[i + 1] == rows[i];
        }
      }
    } else {
      CompareAntisymmetric(config, x, rows[0]);
      SortedTail(config, rows);
      InsertSorted(config, x, rows[1..]);
      var tail := Insert(config, x, rows[1..]);
      var r := [rows[0]] + tail;
      forall i | 0 <= i < |r| - 1
        ensures Compare(config, r[i], r[i + 1]) <= 0
      {
        if i > 0 {
          assert r[i] == tail[i - 1] && r[i + 1] == tail[i];
        }
      }
    }
  }

  /** `Array.prototype.sort` with the page's comparator, as a stable
      insertion sort. */
  function SortRows(config: SortConfig, rows: seq<OrderItem>): (r: seq<OrderItem>)
    ensures multiset(r) == multiset(rows)
    ensures Sorted(config, r)
  {
    if rows == [] then []
    else
      assert rows == [rows[0]] + rows[1..];
      var sortedTail := SortRows(config, rows[1..]);
      InsertSorted(config, rows[0], sortedTail);
      Insert(config, rows[0], sortedTail)
  }

  /** In a sorted list no in-progress row follows another row. */
  lemma {:induction false} InProgressFirst(config: SortConfig, rows: seq<OrderItem>)
    requires Sorted(config, rows)
    ensures forall i, j :: 0 <= i < j < |rows| && rows[j].status == EnCours ==> rows[i].status == EnCours
  {
    forall i, j | 0 <= i < j < |rows| && rows[j].status == EnCours
      ensures rows[i].status == EnCours
    {
      InProgressFirstFrom(config, rows, i, j);
    }
  }

  lemma {:induction false} InProgressFirstFrom(config: SortConfig, rows: seq<OrderItem>, i: int, j: int)
    requires Sorted(config, rows)
    requires 0 <= i < j < |rows| && rows[j].status == EnCours
    ensures rows[i].status == EnCours
    decreases j - i
  {
    if j > i + 1 {
      InProgressFirstFrom(config, rows, i + 1, j);
    }
    assert Compare(config, rows[i], rows[i + 1]) <= 0;
  }

  /** Without a sort key, rows of the same class (in progress or not) that
      all carry a date are listed newest first. */
  lemma {:induction false} DefaultModeNewestFirst(config: SortConfig, rows: seq<OrderItem>, i: int, j: int)
    requires config.key.None? && Sorted(config, rows)
    requires forall k :: 0 <= k < |rows| ==> rows[k].orderDate.Some?
    requires 0 <= i < j < |rows| && (rows[i].status == EnCours <==> rows[j].status == EnCours)
    ensures rows[i].orderDate.value >= rows[j].orderDate.value
    decreases j - i
  {
    InProgressFirst(config, rows);
    assert Compare(config, rows[i], rows[i + 1]) <= 0;
    if j > i + 1 {
      assert rows[i + 1].status == EnCours <==> rows[j].status == EnCours;
      DefaultModeNewestFirst(config, rows, i + 1, j);
    }
  }

  /** Sorted by quantity, rows of the same class (in progress or not) are
      in ascending or descending quantity, as the direction says. */
  lemma {:induction false} KeyedModeByQuantity(config: SortConfig, rows: seq<OrderItem>, i: int, j: int)
    requires config.key.Some? && Sorted(config, rows)
    requires 0 <= i < j < |rows| && (rows[i].status == EnCours <==> rows[j].status == EnCours)
    ensures config.direction == Asc ==> rows[i].quantity <= rows[j].quantity
    ensures config.direction == Desc ==> rows[i].quantity >= rows[j].quantity
    decreases j - i
  {
    InProgressFirst(config, rows);
    assert Compare(config, rows[i], rows[i + 1]) <= 0;
    if j > i + 1 {
      assert rows[i + 1].status == EnCours <==> rows[j].status == EnCours;
      KeyedModeByQuantity(config, rows, i + 1, j);
    }
  }

  /** `requestSort(key)`: a second request for the current key while
      ascending turns to descending; anything else sorts ascending by `key`. */
  function RequestedSort(config: SortConfig, key: SortKey): (r: SortConfig)
    ensures r.key == Some(key)
    ensures r.direction == Desc <==> config.key == Some(key) && config.direction == Asc
  {
    SortConfig(Some(key), if config.key == Some(key) && config.direction == Asc then Desc else Asc)
  }

  /** Once sorted by `key`, each request for it flips the direction, and two
      requests restore it. */
  lemma RequestSortToggles(config: SortConfig, key: SortKey)
    requires config.key == Some(key)
    ensures RequestedSort(config, key).direction != config.direction
    ensures RequestedSort(RequestedSort(config, key), key) == config
  {
  }

  /** The page's filter and sort state. */
  class OrdersView {
    var productFilter: string
    var clientFilter: string
    var minQuantity: Option<int>
    var maxQuantity: Option<int>
    var sort: SortConfig

    constructor ()
      ensures productFilter == "" && clientFilter == "" && minQuantity.None? && maxQuantity.None?
      ensures sort == SortConfig(None, Asc)
    {
      productFilter := "";
      clientFilter := "";
      minQuantity := None;
      maxQuantity := None;
      sort := SortConfig(None, Asc);
    }

    function CurrentFilters(): Filters
      reads this
    {
      Filters(productFilter, clientFilter, minQuantity, maxQuantity)
    }

    /** The product select: choosing "Tous les produits" clears the filter. */
    method SelectProduct(value: string)
      modifies this
      ensures productFilter == if value == AllProducts then "" else value
      ensures clientFilter == old(clientFilter) && minQuantity == old(minQuantity)
      ensures maxQuantity == old(maxQuantity) && sort == old(sort)
    {
      productFilter := if value == AllProducts then "" else value;
    }

    /** The client select: choosing "Tous les clients" clears the filter. */
    method SelectClient(value: string)
      modifies this
      ensures clientFilter == if value == AllClients then "" else value
      ensures productFilter == old(productFilter) && minQuantity == old(minQuantity)
      ensures maxQuantity == old(maxQuantity) && sort == old(sort)
    {
      clientFilter := if value == AllClients then "" else value;
    }

    /** `requestSort`. */
    method RequestSort(key: SortKey)
      modifies this
      ensures sort == RequestedSort(old(sort), key)
      ensures productFilter == old(productFilter) && clientFilter == old(clientFilter)
      ensures minQuantity == old(minQuantity) && maxQuantity == old(maxQuantity)
    {
      var direction := Asc;
      if sort.key == Some(key) && sort.direction == Asc {
        direction := Desc;
      }
      sort := SortConfig(Some(key), direction);
    }

    /** `filteredAndSortedOrderItems`: the rows passing every active filter,
        each as often as in `items`, sorted with in-progress rows first. */
    method FilteredAndSorted(items: seq<OrderItem>) returns (rows: seq<OrderItem>)
      ensures forall x :: multiset(rows)[x] == if Matches(CurrentFilters(), x) then multiset(items)[x] else 0
      ensures forall x :: x in rows <==> x in items && Matches(CurrentFilters(), x)
      ensures Sorted(sort, rows)
      ensures forall i, j :: 0 <= i < j < |rows| && rows[j].status == EnCours ==> rows[i].status == EnCours
    {
      var f := CurrentFilters();
      rows := ApplyFilters(items, f);
      rows := SortRows(sort, rows);
      InProgressFirst(sort, rows);
      forall x
        ensures x in rows <==> x in items && Matches(f, x)
      {
        assert x in rows <==> multiset(rows)[x] > 0;
        assert x in items <==> multiset(items)[x] > 0;
      }
    }
  }

  /** `rows` holds exactly the rows of `items` that pass the first `stage`
      filters, each as often as in `items`. */
  ghost predicate KeepsStage(items: seq<OrderItem>, rows: seq<OrderItem>, f: Filters, stage: nat) {
    forall x :: multiset(rows)[x] == if PassesUpTo(f, x, stage) then multiset(items)[x] else 0
  }

  /** An active filter step keeps what passes its own test. */
  lemma NarrowStage(items: seq<OrderItem>, rows: seq<OrderItem>, f: Filters, stage: nat, p: OrderItem -> bool)
    requires 1 <= stage && KeepsStage(items, rows, f, stage - 1)
    requires forall x :: PassesUpTo(f, x, stage) <==> PassesUpTo(f, x, stage - 1) && p(x)
    ensures KeepsStage(items, Seqs.Filter(rows, p), f, stage)
  {
    Seqs.FilterMultiplicity(rows, p);
  }

  /** An inactive filter step lets every row through. */
  lemma SkipStage(items: seq<OrderItem>, rows: seq<OrderItem>, f: Filters, stage: nat)
    requires 1 <= stage && KeepsStage(items, rows, f, stage - 1)
    requires forall x :: PassesUpTo(f, x, stage) == PassesUpTo(f, x, stage - 1)
    ensures KeepsStage(items, rows, f, stage)
  {
  }

  /** The filtering half of `filteredAndSortedOrderItems`: each active
      filter in turn narrows the rows. */
  method ApplyFilters(items: seq<OrderItem>, f: Filters) returns (rows: seq<OrderItem>)
    ensures forall x :: multiset(rows)[x] == if Matches(f, x) then multiset(items)[x] else 0
  {
    rows := items;
    assert KeepsStage(items, rows, f, 0);
    rows := ProductStage(items, rows, f);
    rows := ClientStage(items, rows, f);
    rows := MinQuantityStage(items, rows, f);
    rows := MaxQuantityStage(items, rows, f);
    assert KeepsStage(items, rows, f, 4);
  }

  /** The product filter, when one is chosen. */
  method ProductStage(items: seq<OrderItem>, rows: seq<OrderItem>, f: Filters) returns (out: seq<OrderItem>)
    requires KeepsStage(items, rows, f, 0)
    ensures KeepsStage(items, out, f, 1)
  {
    out := rows;
    if ProductFilterOn(f) {
      var p := (item: OrderItem) => item.title == f.product;
      NarrowStage(items, rows, f, 1, p);
      out := Seqs.Filter(rows, p);
    } else {
      SkipStage(items, rows, f, 1);
    }
  }

  /** The client filter, when one is chosen. */
  method ClientStage(items: seq<OrderItem>, rows: seq<OrderItem>, f: Filters) returns (out: seq<OrderItem>)
    requires KeepsStage(items, rows, f, 1)
    ensures KeepsStage(items, out, f, 2)
  {
    out := rows;
    if ClientFilterOn(f) {
      var p := (item: OrderItem) => item.clientName == f.client;
      NarrowStage(items, rows, f, 2, p);
      out := Seqs.Filter(rows, p);
    } else {
      SkipStage(items, rows, f, 2);
    }
  }

  /** The inclusive lower quantity bound, when one is given. */
  method MinQuantityStage(items: seq<OrderItem>, rows: seq<OrderItem>, f: Filters) returns (out: seq<OrderItem>)
    requires KeepsStage(items, rows, f, 2)
    ensures KeepsStage(items, out, f, 3)
  {
    out := rows;
    if f.minQuantity.Some? {
      var minQty := f.minQuantity.value;
      var p := (item: OrderItem) => item.quantity >= minQty;
      NarrowStage(items, rows, f, 3, p);
      out := Seqs.Filter(rows, p);
    } else {
      SkipStage(items, rows, f, 3);
    }
  }

  /** The inclusive upper quantity bound, when one is given. */
  method MaxQuantityStage(items: seq<OrderItem>, rows: seq<OrderItem>, f: Filters) returns (out: seq<OrderItem>)
    requires KeepsStage(items, rows, f, 3)
    ensures KeepsStage(items, out, f, 4)
  {
    out := rows;
    if f.maxQuantity.Some? {
      var maxQty := f.maxQuantity.value;
      var p := (item: OrderItem) => item.quantity <= maxQty;
      NarrowStage(items, rows, f, 4, p);
      out := Seqs.Filter(rows, p);
    } else {
      SkipStage(items, rows, f, 4);
    }
  }

  /** `uniqueProductTitles`: "Tous les produits", then each title once, in
      order of first appearance. */
  function ProductChoices(items: seq<OrderItem>): (choices: seq<string>)
    ensures |choices| >= 1 && choices[0] == AllProducts
    ensures forall t :: t in choices[1..] <==> exists i :: 0 <= i < |items| && items[i].title == t
    // Each title is offered once.
    ensures forall i, j :: 1 <= i < j < |choices| ==> choices[i] != choices[j]
    // In order of first appearance: the first k items never offer a later
    // title without every earlier one.
    ensures forall i, j, k :: 1 <= i < j < |choices| && 0 <= k <= |items| && choices[j] in Titles(items[..k]) ==>
      choices[i] in Titles(items[..k])
  {
    TitlesPrefixes(items);
    [AllProducts] + Seqs.Distinct(Titles(items))
  }

  lemma TitlesPrefixes(items: seq<OrderItem>)
    ensures forall k :: 0 <= k <= |items| ==> Titles(items[..k]) == Titles(items)[..k]
  {
  }

  function Titles(items: seq<OrderItem>): (titles: seq<string>)
    ensures |titles| == |items|
    ensures forall i :: 0 <= i < |items| ==> titles[i] == items[i].title
  {
    if items == [] then [] else [items[0].title] + Titles(items[1..])
  }

  /** The tab counts of `getStatusCounts`. */
  datatype Counts = Counts(all: nat, enAttente: nat, enCours: nat, termine: nat, other: nat)

  function StatusOf(item: OrderItem): Status {
    item.status
  }

  function StatusCounts(rows: seq<OrderItem>): (c: Counts)
    ensures c.all == |rows|
    ensures c.enAttente == StatusTally.CountStatus(rows, StatusOf, EnAttente)
    ensures c.enCours == StatusTally.CountStatus(rows, StatusOf, EnCours)
    ensures c.termine == StatusTally.CountStatus(rows, StatusOf, Termine)
    ensures c.other == |StatusTally.Others(rows, StatusOf)|
  {
    Counts(
      |rows|,
      StatusTally.CountStatus(rows, StatusOf, EnAttente),
      StatusTally.CountStatus(rows, StatusOf, EnCours),
      StatusTally.CountStatus(rows, StatusOf, Termine),
      |StatusTally.Others(rows, StatusOf)|)
  }

  /** The four status tabs split "Toutes" exactly. */
  lemma CountsAddUp(rows: seq<OrderItem>)
    ensures var c := StatusCounts(rows);
            c.enAttente + c.enCours + c.termine + c.other == c.all
  {
    StatusTally.CountsPartition(rows, StatusOf);
    StatusTally.OthersCount(rows, StatusOf);
  }
}
