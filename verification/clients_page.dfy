/** The second client list (`src/pages/ClientsPage.tsx`): clients whose email
    may be null, its search, and a delete handler that refuses to delete a
    client an order still refers to. */
module ClientsPage {
  import opened Wrappers
  import Seqs
  import Text
  import opened Store

  /** A client as this page holds it: the email may be null. */
  datatype ClientRecord = ClientRecord(id: string, fullName: string, phone: string, email: Option<string>)

  /** The load's normalisation: a missing or empty email becomes null. */
  function NormaliseEmail(c: ClientRecord): (r: ClientRecord)
    ensures r.id == c.id && r.fullName == c.fullName && r.phone == c.phone
    ensures r.email.None? <==> c.email.None? || c.email.value == ""
    ensures r.email.Some? ==> r.email == c.email
  {
    if c.email.Some? && c.email.value == "" then c.(email := None) else c
  }

  function NormaliseAll(rows: seq<ClientRecord>): (cs: seq<ClientRecord>)
    ensures |cs| == |rows|
    ensures forall i :: 0 <= i < |rows| ==> cs[i] == NormaliseEmail(rows[i])
  {
    if rows == [] then [] else [NormaliseEmail(rows[0])] + NormaliseAll(rows[1..])
  }

  /** The search predicate: the lowercased name or phone, or the email when
      there is one, contains the lowercased query. */
  predicate ClientMatches(c: ClientRecord, query: string) {
    var q := Text.Lower(query);
    || Text.Contains(Text.Lower(c.fullName), q)
    || Text.Contains(Text.Lower(c.phone), q)
    || (c.email.Some? && Text.Contains(Text.Lower(c.email.value), q))
  }

  /** The search effect. */
  function Search(clients: seq<ClientRecord>, query: string): (r: seq<ClientRecord>)
    ensures forall c :: c in r <==> c in clients && ClientMatches(c, query)
    ensures multiset(r) <= multiset(clients)
  {
    Seqs.Filter(clients, (c: ClientRecord) => ClientMatches(c, query))
  }

  /** A client without email is found by name or phone alone, and normalising
      the email never changes which queries find a client. */
  lemma SearchIgnoresEmptyEmail(c: ClientRecord, query: string)
    ensures c.email.None? ==>
              (ClientMatches(c, query) <==>
                 Text.Contains(Text.Lower(c.fullName), Text.Lower(query)) || Text.Contains(Text.Lower(c.phone), Text.Lower(query)))
    ensures query != "" ==> (ClientMatches(NormaliseEmail(c), query) <==> ClientMatches(c, query))
  {
    if query != "" && c.email.Some? && c.email.value == "" {
      assert Text.Lower(query) != "" && Text.Lower("") == "";
    }
  }

  /** What `handleDeleteClient` ends with. */
  datatype DeleteOutcome =
    | NoConnection  // no database client yet: nothing happens
    | InUse         // an order refers to the client: nothing deleted
    | Deleted       // deleted; the list is then reloaded
    | Failed        // the check or the delete failed; the error is shown

  /** The call that looks for an order of the client. */
  function ReferenceCheck(clientId: string): Call {
    SelectWhere(OrdersTable, "client_id", clientId)
  }

  /** `handleDeleteClient`: with a database client, check for an order of
      the client, and delete it only when the check succeeded and found
      none; a failed check is handled by the same error path as a failed
      delete. */
  method HandleDeleteClient(connected: bool, clientId: string, check: CheckReply, deleteOk: bool)
    returns (calls: seq<Call>, outcome: DeleteOutcome)
    ensures !connected ==> calls == [] && outcome == NoConnection
    ensures connected ==> |calls| >= 1 && calls[0] == ReferenceCheck(clientId)
    ensures Deletes(calls, ClientsTable) <==> connected && Clean(check)
    ensures DeleteFollowsCheck(calls, ClientsTable, OrdersTable)
    ensures connected && check.CheckError? ==> calls == [ReferenceCheck(clientId)] && outcome == Failed
    ensures connected && check.Rows? && check.count > 0 ==> calls == [ReferenceCheck(clientId)] && outcome == InUse
    ensures connected && Clean(check) ==>
              calls == [ReferenceCheck(clientId), DeleteWhere(ClientsTable, "id", clientId)]
              && outcome == (if deleteOk then Deleted else Failed)
  {
    calls := [];
    if !connected {
      outcome := NoConnection;
      return;
    }
    calls := [ReferenceCheck(clientId)];
    if check.CheckError? {
      outcome := Failed;
      return;
    }
    if check.count > 0 {
      outcome := InUse;
      return;
    }
    calls := calls + [DeleteWhere(ClientsTable, "id", clientId)];
    assert calls[1].DeleteWhere? && calls[1].table == ClientsTable;
    outcome := if deleteOk then Deleted else Failed;
  }

  /** The page state the load and the search effect maintain. */
  class ClientsView {
    var clients: seq<ClientRecord>
    var filteredClients: seq<ClientRecord>
    var searchQuery: string

    constructor ()
      ensures clients == [] && filteredClients == [] && searchQuery == ""
    {
      clients := [];
      filteredClients := [];
      searchQuery := "";
    }

    /** A successful load: both lists become the normalised rows. */
    method Loaded(rows: seq<ClientRecord>)
      modifies this
      ensures clients == NormaliseAll(rows) && filteredClients == clients
      ensures searchQuery == old(searchQuery)
    {
      clients := NormaliseAll(rows);
      filteredClients := clients;
    }

    /** The search effect, run when the query or the clients change. */
    method SearchChanged(query: string)
      modifies this
      ensures searchQuery == query && clients == old(clients)
      ensures filteredClients == Search(clients, query)
    {
      searchQuery := query;
      filteredClients := Seqs.Filter(clients, (c: ClientRecord) => ClientMatches(c, query));
    }
  }
}
