/**
 * `src/components/ProductTable.tsx`: the product table, its stock badges,
 * the edit and delete buttons for administrators, and which product the
 * edit or delete dialog is open for.
 */
module ProductTable {
  import opened Wrappers
  import opened Text
  import opened Inventory

  /** `getStockBadge` */
  function StockBadge(p: Product): Badge {
    if p.quantity == 0 then Destructive
    else if p.quantity <= p.threshold then Warning
    else Success
  }

  /** Red exactly for empty shelves, amber for 0 < q <= threshold, green above the threshold. */
  lemma StockBadgeCases(p: Product)
    ensures StockBadge(p) == Destructive <==> p.quantity == 0
    ensures StockBadge(p) == Warning <==> p.quantity != 0 && p.quantity <= p.threshold
    ensures StockBadge(p) == Success <==> p.quantity != 0 && p.quantity > p.threshold
    ensures StockBadge(p) == Destructive <==> Classify(p) == OutOfStock
    ensures StockBadge(p) == Warning <==> Classify(p) == LowStock
  {
  }

  /** One table row; `actions` when the edit and delete buttons are shown. */
  datatype Row = Row(name: string, category: string, quantity: int, price: string, badge: Badge, actions: bool)

  datatype View = Spinner | NoProducts | Table(actionsColumn: bool, rows: seq<Row>)

  /** A product's row: its name, category and quantity, the `$`-prefixed two-decimal price, its badge. */
  function RowOf(p: Product, isAdmin: bool): Row {
    Row(p.name, p.category, p.quantity, "$" + FormatCents(p.price), StockBadge(p), isAdmin)
  }

  /**
   * The spinner while loading whatever the products, the empty message
   * when there are none, otherwise one row per product in order, with the
   * actions column and buttons exactly for administrators.
   */
  function Render(ps: seq<Product>, loading: bool, isAdmin: bool): (v: View)
    ensures loading <==> v == Spinner
    ensures v == NoProducts <==> !loading && ps == []
    ensures v.Table? ==> v.actionsColumn == isAdmin && |v.rows| == |ps|
    ensures v.Table? ==> forall i :: 0 <= i < |ps| ==> v.rows[i] == RowOf(ps[i], isAdmin)
    ensures v.Table? ==> forall i :: 0 <= i < |ps| ==>
      v.rows[i].name == ps[i].name && v.rows[i].badge == StockBadge(ps[i]) && v.rows[i].actions == isAdmin
  {
    if loading then Spinner
    else if |ps| == 0 then NoProducts
    else Table(isAdmin, seq(|ps|, i requires 0 <= i < |ps| => RowOf(ps[i], isAdmin)))
  }

  /** A row's price reads back as the product's price. */
  lemma RowPrice(p: Product, isAdmin: bool)
    ensures RowOf(p, isAdmin).price[0] == '$' && ParseCents(RowOf(p, isAdmin).price[1..]) == Some(p.price)
  {
    FormatCentsRoundTrip(p.price);
    assert RowOf(p, isAdmin).price[1..] == FormatCents(p.price);
  }

  /** The dialog state of the table. */
  class ProductTableState {
    var editingProduct: Option<Product>
    var deletingProduct: Option<Product>
    /** How many times `onRefresh` has been called. */
    var refreshes: nat

    constructor()
      ensures editingProduct == None && deletingProduct == None && refreshes == 0
    {
      editingProduct := None;
      deletingProduct := None;
      refreshes := 0;
    }

    /** The edit button of a row: the edit dialog opens for that product. */
    method ClickEdit(p: Product)
      modifies this
      ensures editingProduct == Some(p)
      ensures deletingProduct == old(deletingProduct) && refreshes == old(refreshes)
    {
      editingProduct := Some(p);
    }

    /** The delete button of a row. */
    method ClickDelete(p: Product)
      modifies this
      ensures deletingProduct == Some(p)
      ensures editingProduct == old(editingProduct) && refreshes == old(refreshes)
    {
      deletingProduct := Some(p);
    }

    /** `onOpenChange={(open) => !open && setEditingProduct(null)}` */
    method EditOpenChange(open: bool)
      modifies this
      ensures editingProduct == (if open then old(editingProduct) else None)
      ensures deletingProduct == old(deletingProduct) && refreshes == old(refreshes)
    {
      if !open {
        editingProduct := None;
      }
    }

    method DeleteOpenChange(open: bool)
      modifies this
      ensures deletingProduct == (if open then old(deletingProduct) else None)
      ensures editingProduct == old(editingProduct) && refreshes == old(refreshes)
    {
      if !open {
        deletingProduct := None;
      }
    }

    /** The edit dialog succeeded: it closes and the list is refreshed. */
    method EditSuccess()
      modifies this
      ensures editingProduct == None && refreshes == old(refreshes) + 1
      ensures deletingProduct == old(deletingProduct)
    {
      editingProduct := None;
      refreshes := refreshes + 1;
    }

    method DeleteSuccess()
      modifies this
      ensures deletingProduct == None && refreshes == old(refreshes) + 1
      ensures editingProduct == old(editingProduct)
    {
      deletingProduct := None;
      refreshes := refreshes + 1;
    }
  }
}
