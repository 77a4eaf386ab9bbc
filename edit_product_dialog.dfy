/**
 * `src/components/EditProductDialog.tsx`: the form state of the dialog,
 * filled from the product being edited, and what a submit does to it. The
 * store's reply to the update is a parameter of `Submit`.
 */
module EditProductDialog {
  import opened Wrappers
  import opened Inventory
  import opened ProductSchema

  /** `update(values).eq("id", id)` */
  datatype UpdateRequest = UpdateRequest(id: string, values: ProductForm)

  /** The update a submit sends, if it sends one. */
  function SentUpdates(id: string, o: Outcome): seq<UpdateRequest> {
    if o.sent.Some? then [UpdateRequest(id, o.sent.value)] else []
  }

  class EditProductDialog {
    /** The `product` prop. */
    var product: Product
    var form: ProductForm
    var loading: bool
    var open: bool
    /** The updates sent, oldest first. */
    var updates: seq<UpdateRequest>
    /** The notices shown, oldest first. */
    var notices: seq<Notice>
    /** How many times `onSuccess` was called. */
    var refreshes: nat

    /** The form starts as the product's own values. */
    constructor(p: Product, isOpen: bool)
      ensures product == p && form == FormOf(p) && !loading && open == isOpen
      ensures updates == [] && notices == [] && refreshes == 0
    {
      product := p;
      form := FormOf(p);
      loading := false;
      open := isOpen;
      updates := [];
      notices := [];
      refreshes := 0;
    }

    /** The effect on `[product]`: a new product refills the form with its values. */
    method Sync(p: Product)
      modifies this
      ensures product == p && form == FormOf(p)
      ensures loading == old(loading) && open == old(open)
      ensures updates == old(updates) && notices == old(notices) && refreshes == old(refreshes)
    {
      product := p;
      form := FormOf(p);
    }

    /** Typing into the inputs replaces the form's values. */
    method Change(f: ProductForm)
      modifies this
      ensures form == f && product == old(product)
      ensures loading == old(loading) && open == old(open)
      ensures updates == old(updates) && notices == old(notices) && refreshes == old(refreshes)
    {
      form := f;
    }

    /**
     * `handleSubmit`. Invalid values: the first problem is reported and no
     * update is sent. Valid values: the trimmed values are sent for the row
     * whose id is the product's; on success the dialog closes and
     * `onSuccess` fires, otherwise it stays open. The form is left as it is.
     */
    method Submit(reply: StoreReply)
      modifies this
      ensures var o := SubmitOutcome(old(form), reply);
        && notices == old(notices) + [o.notice]
        && updates == old(updates) + SentUpdates(old(product).id, o)
        && (o.success ==> !open && refreshes == old(refreshes) + 1)
        && (!o.success ==> open == old(open) && refreshes == old(refreshes))
      ensures form == old(form) && product == old(product) && !loading
    {
      var o := SubmitOutcome(form, reply);
      notices := notices + [o.notice];
      updates := updates + SentUpdates(product.id, o);
      open := if o.success then false else open;
      refreshes := if o.success then refreshes + 1 else refreshes;
      loading := false;
    }
  }

  /**
   * A product whose values the schema accepts as they are is sent back
   * unchanged when submitted without edits.
   */
  lemma UneditedProductResent(p: Product, reply: StoreReply)
    requires Acceptable(FormOf(p)) && Trimmed(FormOf(p)) == FormOf(p)
    ensures SubmitOutcome(FormOf(p), reply).sent == Some(FormOf(p))
  {
  }
}
