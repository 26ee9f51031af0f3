/** The calls the pages' delete handlers make to the database, recorded in
    order, and the replies the model takes as inputs. */
module Store {
  datatype Table = OrdersTable | ProductsTable | ClientsTable

  /** A `select … eq(column, value)` or a `delete … eq(column, value)`. */
  datatype Call =
    | SelectWhere(table: Table, column: string, value: string)
    | DeleteWhere(table: Table, column: string, value: string)

  /** The reply to a reference check: an error, or the rows found. */
  datatype CheckReply = CheckError | Rows(count: nat)

  /** Whether a reply found no referencing row. */
  predicate Clean(reply: CheckReply) {
    reply.Rows? && reply.count == 0
  }

  /** Whether a trace issues any delete on `table`. */
  predicate Deletes(calls: seq<Call>, table: Table) {
    exists i :: 0 <= i < |calls| && calls[i].DeleteWhere? && calls[i].table == table
  }

  /** Every delete on `table` comes right after a select on `checked`. */
  predicate DeleteFollowsCheck(calls: seq<Call>, table: Table, checked: Table) {
    forall i :: 0 <= i < |calls| && calls[i].DeleteWhere? && calls[i].table == table ==>
      i > 0 && calls[i - 1].SelectWhere? && calls[i - 1].table == checked
  }
}
