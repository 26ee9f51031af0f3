/** The products page (`src/pages/Products.tsx`): the normalisation of the
    loaded products, the search by name, and the delete handler that refuses
    to delete a product an order still uses. */
module ProductsPage {
  import opened Wrappers
  import opened MockData
  import Seqs
  import Text
  import opened Store

  /** A product row as the store returns it: steps and description may be
      missing. */
  datatype ProductRow = ProductRow(id: string, name: string, description: Option<string>, steps: Option<seq<string>>)

  /** The load's normalisation: missing steps become the empty list, and a
      missing or empty description becomes null. */
  function Normalise(row: ProductRow): (p: Product)
    ensures p.id == row.id && p.name == row.name
    ensures row.steps.Some? ==> p.steps == row.steps.value
    ensures row.steps.None? ==> p.steps == []
    ensures p.description.None? <==> row.description.None? || row.description.value == ""
    ensures p.description.Some? ==> p.description == row.description
  {
    Product(row.id, row.name,
            if row.description.Some? && row.description.value != "" then row.description else None,
            row.steps.GetOr([]))
  }

  function NormaliseAll(rows: seq<ProductRow>): (ps: seq<Product>)
    ensures |ps| == |rows|
    ensures forall i :: 0 <= i < |rows| ==> ps[i] == Normalise(rows[i])
  {
    if rows == [] then [] else [Normalise(rows[0])] + NormaliseAll(rows[1..])
  }

  /** Normalising twice changes nothing more. */
  lemma NormaliseIdempotent(row: ProductRow)
    ensures var p := Normalise(row);
            Normalise(ProductRow(p.id, p.name, p.description, Some(p.steps))) == p
  {
  }

  predicate NameMatches(p: Product, query: string) {
    Text.Contains(Text.Lower(p.name), Text.Lower(query))
  }

  /** The search effect: the products whose lowercased name contains the
      lowercased query, in their order. */
  function Search(products: seq<Product>, query: string): (r: seq<Product>)
    ensures forall p :: p in r <==> p in products && NameMatches(p, query)
    ensures multiset(r) <= multiset(products)
  {
    Seqs.Filter(products, (p: Product) => NameMatches(p, query))
  }

  /** An empty query lists every product. */
  lemma {:induction false} EmptySearchKeepsAll(products: seq<Product>)
    ensures Search(products, "") == products
  {
    forall p | p in products
      ensures NameMatches(p, "")
    {
      Text.ContainsEmpty(Text.Lower(p.name));
    }
    Seqs.FilterKeepsAll(products, (p: Product) => NameMatches(p, ""));
  }

  /** What `handleDeleteProduct` ends with. */
  datatype DeleteOutcome =
    | CheckFailed   // the reference check failed: deletion abandoned
    | InUse         // an order uses the product: nothing deleted
    | Deleted       // deleted; the list is then reloaded
    | DeleteFailed  // the delete itself failed

  /** The call that looks for an order using the product. */
  function ReferenceCheck(productId: string): Call {
    SelectWhere(OrdersTable, "product_id", productId)
  }

  /** `handleDeleteProduct`: check for a referencing order, then delete only
      when the check succeeded and found none. `check` is the check's reply
      and `deleteOk` whether the delete succeeds. */
  method HandleDeleteProduct(productId: string, check: CheckReply, deleteOk: bool)
    returns (calls: seq<Call>, outcome: DeleteOutcome)
    ensures |calls| >= 1 && calls[0] == ReferenceCheck(productId)
    ensures Deletes(calls, ProductsTable) <==> Clean(check)
    ensures DeleteFollowsCheck(calls, ProductsTable, OrdersTable)
    ensures check.CheckError? ==> calls == [ReferenceCheck(productId)] && outcome == CheckFailed
    ensures check.Rows? && check.count > 0 ==> calls == [ReferenceCheck(productId)] && outcome == InUse
    ensures Clean(check) ==>
              calls == [ReferenceCheck(productId), DeleteWhere(ProductsTable, "id", productId)]
              && outcome == (if deleteOk then Deleted else DeleteFailed)
  {
    calls := [ReferenceCheck(productId)];
    if check.CheckError? {
      outcome := CheckFailed;
      return;
    }
    if check.count > 0 {
      outcome := InUse;
      return;
    }
    calls := calls + [DeleteWhere(ProductsTable, "id", productId)];
    assert calls[1].DeleteWhere? && calls[1].table == ProductsTable;
    if !deleteOk {
      outcome := DeleteFailed;
      return;
    }
    outcome := Deleted;
  }

  /** The page state the load and the search effect maintain. */
  class ProductsView {
    var products: seq<Product>
    var filteredProducts: seq<Product>
    var searchQuery: string

    constructor ()
      ensures products == [] && filteredProducts == [] && searchQuery == ""
    {
      products := [];
      filteredProducts := [];
      searchQuery := "";
    }

    /** A successful load: both lists become the normalised rows. */
    method Loaded(rows: seq<ProductRow>)
      modifies this
      ensures products == NormaliseAll(rows) && filteredProducts == products
      ensures searchQuery == old(searchQuery)
    {
      products := NormaliseAll(rows);
      filteredProducts := products;
    }

    /** The search effect, run when the query or the products change. */
    method SearchChanged(query: string)
      modifies this
      ensures searchQuery == query && products == old(products)
      ensures filteredProducts == Search(products, query)
    {
      searchQuery := query;
      filteredProducts := Seqs.Filter(products, (p: Product) => NameMatches(p, query));
    }
  }
}
