/**
 * `src/components/AddProductDialog.tsx`: the form state of the dialog and
 * what a submit does to it. The store's reply to the insert is a parameter
 * of `Submit`; the inserts sent, the dialog's open flag as the parent keeps
 * it, and the number of `onSuccess` calls are fields.
 */
module AddProductDialog {
  import opened Wrappers
  import opened ProductSchema

  class AddProductDialog {
    var form: ProductForm
    var loading: bool
    var open: bool
    /** The rows handed to `insert`, oldest first. */
    var inserts: seq<ProductForm>
    /** The notices shown, oldest first. */
    var notices: seq<Notice>
    /** How many times `onSuccess` was called. */
    var refreshes: nat

    /** The dialog as it mounts: the blank form with threshold 10. */
    constructor(isOpen: bool)
      ensures form == BlankForm && !loading && open == isOpen
      ensures inserts == [] && notices == [] && refreshes == 0
    {
      form := BlankForm;
      loading := false;
      open := isOpen;
      inserts := [];
      notices := [];
      refreshes := 0;
    }

    /** Typing into the inputs replaces the form's values. */
    method Change(f: ProductForm)
      modifies this
      ensures form == f
      ensures loading == old(loading) && open == old(open)
      ensures inserts == old(inserts) && notices == old(notices) && refreshes == old(refreshes)
    {
      form := f;
    }

    /**
     * `handleSubmit`. Invalid values: the first problem is reported and
     * nothing is inserted. Valid values: the trimmed row is inserted; on a
     * duplicate or another failure the form and the dialog stay as they
     * are; on success the form resets, the dialog closes and `onSuccess`
     * fires. The button is enabled again in every case.
     */
    method Submit(reply: StoreReply)
      modifies this
      ensures var o := SubmitOutcome(old(form), reply);
        && notices == old(notices) + [o.notice]
        && inserts == old(inserts) + (if o.sent.Some? then [o.sent.value] else [])
        && (o.success ==> form == BlankForm && !open && refreshes == old(refreshes) + 1)
        && (!o.success ==> form == old(form) && open == old(open) && refreshes == old(refreshes))
      ensures !loading
    {
      var o := SubmitOutcome(form, reply);
      notices := notices + [o.notice];
      inserts := inserts + (if o.sent.Some? then [o.sent.value] else []);
      form := if o.success then BlankForm else form;
      open := if o.success then false else open;
      refreshes := if o.success then refreshes + 1 else refreshes;
      loading := false;
    }
  }
}
