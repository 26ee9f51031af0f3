/** The dashboard (`src/pages/Index.tsx`): the search box over the loaded
    orders, the per-status counts shown on the tabs, and the rows each tab
    hands to the orders table. */
module Dashboard {
  import opened Wrappers
  import opened MockData
  import Seqs
  import Text
  import StatusTally

  /** The client's name, lowercased, "" when the client is missing. */
  function ClientNameLower(o: Order): string {
    if o.client.Some? then Text.Lower(o.client.value.fullName) else ""
  }

  /** The product's name, lowercased, "" when the product is missing. */
  function ProductNameLower(o: Order): string {
    if o.product.Some? then Text.Lower(o.product.value.name) else ""
  }

  /** Whether an order answers a non-empty query: the lowercased client or
      product name, or the order id as it is, contains the lowercased query. */
  predicate SearchMatches(o: Order, query: string) {
    var q := Text.Lower(query);
    Text.Contains(ClientNameLower(o), q) || Text.Contains(ProductNameLower(o), q) || Text.Contains(o.id, q)
  }

  /** The search of the filtering effect: an empty query keeps every order. */
  function Search(orders: seq<Order>, query: string): (r: seq<Order>)
    ensures query == "" ==> r == orders
    ensures query != "" ==> forall o :: o in r <==> o in orders && SearchMatches(o, query)
    ensures |r| <= |orders|
  {
    if query == "" then orders else Seqs.Filter(orders, (o: Order) => SearchMatches(o, query))
  }

  /** Searching only drops orders: the kept ones stay in their relative order. */
  lemma SearchKeepsOrder(a: seq<Order>, b: seq<Order>, query: string)
    ensures Search(a + b, query) == Search(a, query) + Search(b, query)
  {
    if query != "" {
      Seqs.FilterConcat(a, b, (o: Order) => SearchMatches(o, query));
    }
  }

  /** Searching for what was already searched changes nothing more. */
  lemma SearchIdempotent(orders: seq<Order>, query: string)
    ensures Search(Search(orders, query), query) == Search(orders, query)
  {
    if query != "" {
      Seqs.FilterIdempotent(orders, (o: Order) => SearchMatches(o, query));
    }
  }

  /** An order is always found by its own id. */
  lemma FoundById(o: Order)
    requires o.id != "" && forall i :: 0 <= i < |o.id| ==> !('A' <= o.id[i] <= 'Z')
    ensures SearchMatches(o, o.id)
  {
    var q := Text.Lower(o.id);
    assert q == o.id;
    Text.ContainsSelf(o.id);
  }

  /** The six counts of the tabs. */
  datatype Counts = Counts(all: nat, enAttente: nat, enCours: nat, termine: nat, reporte: nat, annule: nat)

  function StatusOf(o: Order): Status {
    o.status
  }

  /** The counts of the counting effect. */
  function StatusCounts(orders: seq<Order>): (c: Counts)
    ensures c.all == |orders|
    ensures c.enAttente + c.enCours + c.termine + c.reporte + c.annule == c.all
    ensures c.enCours == StatusTally.CountStatus(orders, StatusOf, EnCours)
    ensures c.enAttente == StatusTally.CountStatus(orders, StatusOf, EnAttente)
    ensures c.termine == StatusTally.CountStatus(orders, StatusOf, Termine)
    ensures c.reporte == StatusTally.CountStatus(orders, StatusOf, Reporte)
    ensures c.annule == StatusTally.CountStatus(orders, StatusOf, Annule)
  {
    StatusTally.CountsPartition(orders, StatusOf);
    Counts(
      |orders|,
      StatusTally.CountStatus(orders, StatusOf, EnAttente),
      StatusTally.CountStatus(orders, StatusOf, EnCours),
      StatusTally.CountStatus(orders, StatusOf, Termine),
      StatusTally.CountStatus(orders, StatusOf, Reporte),
      StatusTally.CountStatus(orders, StatusOf, Annule))
  }

  datatype Tab = All | Waiting | InProgress | Done | Other

  /** Whether a tab lists an order of the filtered list. */
  predicate OnTab(o: Order, tab: Tab) {
    match tab
    case All => true
    case Waiting => o.status == EnAttente
    case InProgress => o.status == EnCours
    case Done => o.status == Termine
    case Other => o.status in {Reporte, Annule}
  }

  /** The rows a tab passes to the orders table. */
  function TabRows(filtered: seq<Order>, tab: Tab): (rows: seq<Order>)
    ensures tab == All ==> rows == filtered
    ensures tab == Waiting ==> forall o :: o in rows <==> o in filtered && o.status == EnAttente
    ensures tab == InProgress ==> forall o :: o in rows <==> o in filtered && o.status == EnCours
    ensures tab == Done ==> forall o :: o in rows <==> o in filtered && o.status == Termine
    ensures tab == Other ==> forall o :: o in rows <==> o in filtered && o.status in {Reporte, Annule}
  {
    match tab
    case All => filtered
    case Waiting => Seqs.Filter(filtered, (o: Order) => o.status == EnAttente)
    case InProgress => Seqs.Filter(filtered, (o: Order) => o.status == EnCours)
    case Done => Seqs.Filter(filtered, (o: Order) => o.status == Termine)
    case Other => StatusTally.Others(filtered, StatusOf)
  }

  /** Each order a tab lists appears there as often as in the filtered list. */
  lemma {:induction false} TabRowsMultiplicity(filtered: seq<Order>, tab: Tab)
    ensures forall o :: multiset(TabRows(filtered, tab))[o] == if OnTab(o, tab) then multiset(filtered)[o] else 0
  {
    match tab
    case All =>
    case Waiting => Seqs.FilterMultiplicity(filtered, (o: Order) => o.status == EnAttente);
    case InProgress => Seqs.FilterMultiplicity(filtered, (o: Order) => o.status == EnCours);
    case Done => Seqs.FilterMultiplicity(filtered, (o: Order) => o.status == Termine);
    case Other => StatusTally.OthersFilter(filtered, [], StatusOf);
  }

  /** A tab keeps the filtered list's order: it distributes over
      concatenation. */
  lemma {:induction false} TabRowsKeepOrder(a: seq<Order>, b: seq<Order>, tab: Tab)
    ensures TabRows(a + b, tab) == TabRows(a, tab) + TabRows(b, tab)
  {
    match tab
    case All =>
    case Waiting => Seqs.FilterConcat(a, b, (o: Order) => o.status == EnAttente);
    case InProgress => Seqs.FilterConcat(a, b, (o: Order) => o.status == EnCours);
    case Done => Seqs.FilterConcat(a, b, (o: Order) => o.status == Termine);
    case Other => StatusTally.OthersFilter(a, b, StatusOf);
  }

  /** The label of the "Reporté / Annulé" tab counts the loaded orders, the
      tab lists the searched ones: with no query they agree. */
  lemma OtherTabLabelMatchesRows(orders: seq<Order>)
    ensures var c := StatusCounts(orders);
            c.reporte + c.annule == |TabRows(Search(orders, ""), Other)|
  {
    StatusTally.OthersCount(orders, StatusOf);
  }

  /** The page state the two effects maintain. */
  class DashboardState {
    var orders: seq<Order>
    var filteredOrders: seq<Order>
    var counts: Counts
    var isLoading: bool
    var searchQuery: string

    constructor ()
      ensures orders == [] && filteredOrders == [] && counts == Counts(0, 0, 0, 0, 0, 0)
      ensures isLoading && searchQuery == ""
    {
      orders := [];
      filteredOrders := [];
      counts := Counts(0, 0, 0, 0, 0, 0);
      isLoading := true;
      searchQuery := "";
    }

    /** The filtering effect: skipped when nothing is loaded and loading has
        finished; otherwise the searched orders replace the shown ones. */
    method ApplySearch()
      modifies this
      ensures orders == old(orders) && counts == old(counts) && isLoading == old(isLoading)
      ensures searchQuery == old(searchQuery)
      ensures |orders| == 0 && !isLoading ==> filteredOrders == old(filteredOrders)
      ensures !(|orders| == 0 && !isLoading) ==> filteredOrders == Search(orders, searchQuery)
    {
      if |orders| == 0 && !isLoading {
        return;
      }
      var tempFilteredOrders := orders;
      if searchQuery != "" {
        var q := searchQuery;
        tempFilteredOrders := Seqs.Filter(tempFilteredOrders, (o: Order) => SearchMatches(o, q));
      }
      filteredOrders := tempFilteredOrders;
    }

    /** The counting effect: the counts are left as they were when no order
        is loaded. */
    method RecountStatuses()
      modifies this
      ensures orders == old(orders) && filteredOrders == old(filteredOrders)
      ensures isLoading == old(isLoading) && searchQuery == old(searchQuery)
      ensures orders == [] ==> counts == old(counts)
      ensures orders != [] ==> counts == StatusCounts(orders)
    {
      if |orders| == 0 {
        return;
      }
      counts := StatusCounts(orders);
    }
  }
}
