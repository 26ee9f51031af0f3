/** The shared record types of the dashboard (clients, products, orders and
    their history entries), the five order statuses, and the lookup and
    display helpers of `src/lib/mock-data.ts`. The helpers there search the
    constant mock arrays; here those arrays are parameters. */
module MockData {
  import opened Wrappers
  import Seqs

  /** The five statuses an order or an order item can be in. */
  datatype Status = EnAttente | EnCours | Termine | Reporte | Annule

  /** ISO-8601 instants, kept opaque: they are only ever stored and displayed. */
  type Timestamp = string

  /** The key under which the store and the UI name each status. */
  function StatusKey(s: Status): string {
    match s
    case EnAttente => "en_attente"
    case EnCours => "en_cours"
    case Termine => "termine"
    case Reporte => "reporte"
    case Annule => "annule"
  }

  /** Reads a raw status string; anything but the five keys is unknown. */
  function ParseStatus(raw: string): (r: Option<Status>)
    ensures r.Some? ==> StatusKey(r.value) == raw
    ensures r.None? <==> forall s: Status :: StatusKey(s) != raw
  {
    if raw == "en_attente" then Some(EnAttente)
    else if raw == "en_cours" then Some(EnCours)
    else if raw == "termine" then Some(Termine)
    else if raw == "reporte" then Some(Reporte)
    else if raw == "annule" then Some(Annule)
    else None
  }

  /** Keys and statuses are in one-to-one correspondence. */
  lemma ParseStatusKey(s: Status)
    ensures ParseStatus(StatusKey(s)) == Some(s)
  {
  }

  /** One line of an order's audit trail: what happened and the status it left. */
  datatype HistoryEntry = HistoryEntry(step: string, status: Status, timestamp: Timestamp)

  datatype Client = Client(id: string, fullName: string, email: string, phone: string)

  /** A product and its ordered manufacturing steps (`process_steps`). */
  datatype Product = Product(id: string, name: string, description: Option<string>, steps: seq<string>)

  /** An order row as the pages load it: `client` and `product` are the joined
      `clients`/`products` records (absent when the join found nothing);
      `productId` is the legacy single-product column, "" when unset;
      `history` is `None` when the column does not hold an array. */
  datatype Order = Order(
    id: string,
    clientId: string,
    client: Option<Client>,
    productId: string,
    product: Option<Product>,
    quantity: int,
    orderDate: Timestamp,
    status: Status,
    stepIndex: int,
    history: Option<seq<HistoryEntry>>)

  /** `Array.isArray(order.history) ? order.history : []`. */
  function HistoryOrEmpty(h: Option<seq<HistoryEntry>>): (r: seq<HistoryEntry>)
    ensures h.Some? ==> r == h.value
    ensures h.None? ==> r == []
  {
    h.GetOr([])
  }

  /** The history a status change or a step advance writes back: the existing
      entries, unchanged (none when the column is not an array), followed by
      exactly one new entry. */
  function AppendHistory(h: Option<seq<HistoryEntry>>, e: HistoryEntry): (r: seq<HistoryEntry>)
    ensures |r| == |HistoryOrEmpty(h)| + 1
    ensures r[..|r| - 1] == HistoryOrEmpty(h)
    ensures r[|r| - 1] == e
  {
    HistoryOrEmpty(h) + [e]
  }

  /** An order as the dashboard and the detail page select it: their queries
      name every column but `history`, so the loaded row has none. */
  function AsSelected(stored: Order): (o: Order)
    ensures o.history.None?
    ensures o.(history := stored.history) == stored
  {
    stored.(history := None)
  }

  /** Advancing a step starts a waiting order or item; any other status is kept. */
  function StatusAfterAdvance(s: Status): (r: Status)
    ensures r != EnAttente
    ensures s != EnAttente ==> r == s
  {
    if s == EnAttente then EnCours else s
  }

  /** `getStatusText`: the French label of a status key, "Inconnu" for any other string. */
  function StatusText(raw: string): (r: string)
    ensures r == "Inconnu" <==> ParseStatus(raw).None?
  {
    match ParseStatus(raw)
    case None => "Inconnu"
    case Some(EnAttente) => "En attente"
    case Some(EnCours) => "En cours"
    case Some(Termine) => "Terminé"
    case Some(Reporte) => "Reporté"
    case Some(Annule) => "Annulé"
  }

  /** The French label of a status value. */
  function Text(s: Status): string {
    StatusText(StatusKey(s))
  }

  /** The five labels of `getStatusText`, and no two statuses share one. */
  lemma StatusTextValues(a: Status, b: Status)
    ensures Text(EnAttente) == "En attente" && Text(EnCours) == "En cours"
    ensures Text(Termine) == "Terminé" && Text(Reporte) == "Reporté" && Text(Annule) == "Annulé"
    ensures a != b ==> Text(a) != Text(b)
  {
  }

  /** The three Tailwind classes of a badge in one colour: light background,
      dark text, mid-tone border. */
  function Badge(color: string): string {
    "bg-" + color + "-100 text-" + color + "-700 border-" + color + "-300"
  }

  /** Two badges are the same class only when their colours are: the colour
      is read back from its place after `bg-`. */
  lemma BadgeInjective(c: string, d: string)
    ensures Badge(c) == Badge(d) <==> c == d
  {
    if Badge(c) == Badge(d) {
      assert |Badge(c)| == 3 * |c| + 29;
      assert Badge(c)[3..3 + |c|] == c;
      assert Badge(d)[3..3 + |d|] == d;
    }
  }

  /** The colour of each status's badge. */
  function ColorName(s: Status): string {
    match s
    case EnAttente => "yellow"
    case EnCours => "blue"
    case Termine => "green"
    case Reporte => "orange"
    case Annule => "red"
  }

  const DefaultColor := Badge("gray")

  /** `getStatusColor`: a badge class per status key, gray for anything else. */
  function StatusColor(raw: string): (r: string)
    ensures r == DefaultColor <==> ParseStatus(raw).None?
  {
    match ParseStatus(raw)
    case None => DefaultColor
    case Some(s) =>
      BadgeInjective(ColorName(s), "gray");
      Badge(ColorName(s))
  }

  /** No two statuses share a badge class. */
  lemma StatusColorDistinct(a: Status, b: Status)
    ensures a != b ==> StatusColor(StatusKey(a)) != StatusColor(StatusKey(b))
  {
    ParseStatusKey(a);
    ParseStatusKey(b);
    BadgeInjective(ColorName(a), ColorName(b));
  }

  /** `getClientById`: the first client with that id, if any. */
  function ClientById(clients: seq<Client>, id: string): (r: Option<Client>)
    ensures r.None? <==> forall c :: c in clients ==> c.id != id
    ensures r.Some? ==> r.value.id == id
    ensures r.Some? ==> exists i :: 0 <= i < |clients| && clients[i] == r.value
                                   && forall j :: 0 <= j < i ==> clients[j].id != id
  {
    match Seqs.FindFirst(clients, (c: Client) => c.id == id)
    case None => None
    case Some(i) => Some(clients[i])
  }

  /** `getProductById`: the first product with that id, if any. */
  function ProductById(products: seq<Product>, id: string): (r: Option<Product>)
    ensures r.None? <==> forall p :: p in products ==> p.id != id
    ensures r.Some? ==> r.value.id == id
    ensures r.Some? ==> exists i :: 0 <= i < |products| && products[i] == r.value
                                   && forall j :: 0 <= j < i ==> products[j].id != id
  {
    match Seqs.FindFirst(products, (p: Product) => p.id == id)
    case None => None
    case Some(i) => Some(products[i])
  }

  /** `getOrdersByClientId`: exactly the orders of that client. */
  function OrdersByClientId(orders: seq<Order>, clientId: string): (r: seq<Order>)
    ensures forall o :: o in r <==> o in orders && o.clientId == clientId
    ensures |r| <= |orders|
  {
    Seqs.Filter(orders, (o: Order) => o.clientId == clientId)
  }

  /** The client's orders keep their original relative order. */
  lemma OrdersByClientIdKeepsOrder(a: seq<Order>, b: seq<Order>, clientId: string)
    ensures OrdersByClientId(a + b, clientId) == OrdersByClientId(a, clientId) + OrdersByClientId(b, clientId)
  {
    Seqs.FilterConcat(a, b, (o: Order) => o.clientId == clientId);
  }
}
