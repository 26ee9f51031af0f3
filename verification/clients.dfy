/** The client list (`src/pages/Clients.tsx`): the search, the number of
    orders shown per client, and the confirmed delete, which removes the
    client's orders before the client. */
module Clients {
  import opened Wrappers
  import opened MockData
  import Seqs
  import Text
  import opened Store

  /** The `id, client_id` pair the page loads per order. */
  datatype OrderRef = OrderRef(id: string, clientId: string)

  /** The search predicate: lowercased name or email contain the lowercased
      query, or the phone, as typed, contains the query as typed. */
  predicate ClientMatches(c: Client, query: string) {
    var q := Text.Lower(query);
    Text.Contains(Text.Lower(c.fullName), q) || Text.Contains(Text.Lower(c.email), q) || Text.Contains(c.phone, query)
  }

  /** The search effect. */
  function Search(clients: seq<Client>, query: string): (r: seq<Client>)
    ensures forall c :: c in r <==> c in clients && ClientMatches(c, query)
    ensures multiset(r) <= multiset(clients)
  {
    Seqs.Filter(clients, (c: Client) => ClientMatches(c, query))
  }

  /** An empty query lists every client. */
  lemma {:induction false} EmptySearchKeepsAll(clients: seq<Client>)
    ensures Search(clients, "") == clients
  {
    forall c | c in clients
      ensures ClientMatches(c, "")
    {
      Text.ContainsEmpty(Text.Lower(c.fullName));
    }
    Seqs.FilterKeepsAll(clients, (c: Client) => ClientMatches(c, ""));
  }

  /** The orders of one client. */
  function OrdersOf(orders: seq<OrderRef>, clientId: string): (mine: seq<OrderRef>)
    ensures forall o :: o in mine <==> o in orders && o.clientId == clientId
  {
    Seqs.Filter(orders, (o: OrderRef) => o.clientId == clientId)
  }

  /** `getClientOrdersCount`. */
  function OrdersCount(orders: seq<OrderRef>, clientId: string): (n: nat)
    ensures n <= |orders|
    ensures n == 0 <==> forall o :: o in orders ==> o.clientId != clientId
  {
    var mine := OrdersOf(orders, clientId);
    assert mine != [] ==> mine[0] in mine;
    |mine|
  }

  /** Each order of the client adds one to its count, and any other order
      adds nothing. */
  lemma {:induction false} OrdersCountCons(o: OrderRef, rest: seq<OrderRef>, clientId: string)
    ensures OrdersCount([o] + rest, clientId) == (if o.clientId == clientId then 1 else 0) + OrdersCount(rest, clientId)
  {
    assert ([o] + rest)[1..] == rest;
    assert OrdersOf([o] + rest, clientId) == (if o.clientId == clientId then [o] else []) + OrdersOf(rest, clientId);
  }

  /** Orders of two different clients are counted apart: the two counts
      never exceed the number of orders. */
  lemma {:induction false} OrdersCountsDisjoint(orders: seq<OrderRef>, a: string, b: string)
    requires a != b
    ensures OrdersCount(orders, a) + OrdersCount(orders, b) <= |orders|
    decreases |orders|
  {
    if orders != [] {
      var o := orders[0];
      OrdersCountsDisjoint(orders[1..], a, b);
      assert OrdersOf(orders, a) == (if o.clientId == a then [o] else []) + OrdersOf(orders[1..], a);
      assert OrdersOf(orders, b) == (if o.clientId == b then [o] else []) + OrdersOf(orders[1..], b);
    }
  }

  /** What the confirmed delete ends with. */
  datatype DeleteOutcome =
    | NothingPending       // no client was waiting for confirmation
    | OrdersDeleteFailed   // the orders could not be deleted: the client stays
    | ClientDeleteFailed   // the orders were deleted, the client was not
    | Deleted              // client and orders deleted; the lists are reloaded

  /** The confirm dialog's state. */
  class DeleteDialog {
    var clientToDelete: Option<Client>
    var isDeleteConfirmOpen: bool

    constructor ()
      ensures clientToDelete.None? && !isDeleteConfirmOpen
    {
      clientToDelete := None;
      isDeleteConfirmOpen := false;
    }

    /** `openDeleteConfirmDialog`. */
    method Open(client: Client)
      modifies this
      ensures clientToDelete == Some(client) && isDeleteConfirmOpen
    {
      clientToDelete := Some(client);
      isDeleteConfirmOpen := true;
    }

    /** `handleDeleteClient`: without a pending client nothing happens;
        otherwise the client's orders are deleted, then, only if that
        succeeded, the client; whatever the outcome the dialog then closes
        and forgets the client. `ordersOk` and `clientOk` say whether the two
        deletes succeed. */
    method HandleDeleteClient(ordersOk: bool, clientOk: bool) returns (calls: seq<Call>, outcome: DeleteOutcome)
      modifies this
      ensures old(clientToDelete).None? ==>
                calls == [] && outcome == NothingPending
                && clientToDelete == old(clientToDelete) && isDeleteConfirmOpen == old(isDeleteConfirmOpen)
      ensures old(clientToDelete).Some? ==>
                var id := old(clientToDelete).value.id;
                && clientToDelete.None? && !isDeleteConfirmOpen
                && |calls| >= 1 && calls[0] == DeleteWhere(OrdersTable, "client_id", id)
                && (!ordersOk ==> calls == [calls[0]] && outcome == OrdersDeleteFailed)
                && (ordersOk ==> calls == [calls[0], DeleteWhere(ClientsTable, "id", id)]
                                 && outcome == (if clientOk then Deleted else ClientDeleteFailed))
      ensures Deletes(calls, ClientsTable) <==> old(clientToDelete).Some? && ordersOk
    {
      calls := [];
      if clientToDelete.None? {
        outcome := NothingPending;
        return;
      }
      var id := clientToDelete.value.id;
      calls := [DeleteWhere(OrdersTable, "client_id", id)];
      if !ordersOk {
        outcome := OrdersDeleteFailed;
      } else {
        calls := calls + [DeleteWhere(ClientsTable, "id", id)];
        assert calls[1].DeleteWhere? && calls[1].table == ClientsTable;
        outcome := if clientOk then Deleted else ClientDeleteFailed;
      }
      isDeleteConfirmOpen := false;
      clientToDelete := None;
    }
  }
}
