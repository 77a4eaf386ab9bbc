/**
 * The product schema that `src/components/AddProductDialog.tsx` and
 * `src/components/EditProductDialog.tsx` declare twice, identically, and
 * the submit logic both dialogs share: trim the two text fields, validate,
 * and report the first problem found in the schema's field order.
 */
module ProductSchema {
  import opened Wrappers
  import opened Text
  import opened Inventory

  /** The form's fields; `price` in cents. */
  datatype ProductForm = ProductForm(name: string, category: string, quantity: int, price: int, threshold: int)

  const NameRequired := "Product name is required"
  const NameTooLong := "Name too long"
  const CategoryRequired := "Category is required"
  const CategoryTooLong := "Category too long"
  const QuantityNegative := "Quantity must be 0 or greater"
  const PriceNotPositive := "Price must be greater than 0"
  const ThresholdNegative := "Threshold must be 0 or greater"

  /** `z.string().trim().min(1, required).max(limit, tooLong)`, on a string already trimmed. */
  function TextIssues(s: string, limit: nat, required: string, tooLong: string): seq<string> {
    if |s| < 1 then [required] else if |s| > limit then [tooLong] else []
  }

  /** `z.number().int().min(0, message)`; the form's numbers are always integers here. */
  function CountIssues(n: int, message: string): seq<string> {
    if n < 0 then [message] else []
  }

  /**
   * Every problem the schema reports about `f`, in field order; the text
   * fields arrive trimmed, so the schema's own trim leaves them as they are.
   */
  function Issues(f: ProductForm): seq<string> {
    TextIssues(f.name, 200, NameRequired, NameTooLong)
    + TextIssues(f.category, 100, CategoryRequired, CategoryTooLong)
    + CountIssues(f.quantity, QuantityNegative)
    + (if f.price > 0 then [] else [PriceNotPositive])
    + CountIssues(f.threshold, ThresholdNegative)
  }

  /** The form with both text fields trimmed, as the handler prepares it. */
  function Trimmed(f: ProductForm): (r: ProductForm)
    ensures r.quantity == f.quantity && r.price == f.price && r.threshold == f.threshold
  {
    f.(name := Trim(f.name), category := Trim(f.category))
  }

  /** The acceptance rule written out field by field. */
  predicate Acceptable(f: ProductForm) {
    && 1 <= |Trim(f.name)| <= 200
    && 1 <= |Trim(f.category)| <= 100
    && f.quantity >= 0
    && f.price > 0
    && f.threshold >= 0
  }

  /**
   * `productSchema.parse({...formData, name: name.trim(), category: category.trim()})`:
   * the trimmed values, or the first error's message.
   */
  function Validate(f: ProductForm): (r: Result<ProductForm, string>)
    ensures r.Ok? <==> Acceptable(f)
    ensures r.Ok? ==> r.value == Trimmed(f)
  {
    var g := Trimmed(f);
    var issues := Issues(g);
    if issues == [] then Ok(g) else Err(issues[0])
  }

  /**
   * The message reported is the first failing rule in the schema's order:
   * name, category, quantity, price, threshold.
   */
  lemma FirstIssueReported(f: ProductForm)
    ensures |Trim(f.name)| < 1 ==> Validate(f) == Err(NameRequired)
    ensures |Trim(f.name)| > 200 ==> Validate(f) == Err(NameTooLong)
    ensures (1 <= |Trim(f.name)| <= 200 && |Trim(f.category)| < 1) ==> Validate(f) == Err(CategoryRequired)
    ensures (1 <= |Trim(f.name)| <= 200 && |Trim(f.category)| > 100) ==> Validate(f) == Err(CategoryTooLong)
    ensures (1 <= |Trim(f.name)| <= 200 && 1 <= |Trim(f.category)| <= 100 && f.quantity < 0)
      ==> Validate(f) == Err(QuantityNegative)
    ensures (1 <= |Trim(f.name)| <= 200 && 1 <= |Trim(f.category)| <= 100 && f.quantity >= 0 && f.price <= 0)
      ==> Validate(f) == Err(PriceNotPositive)
    ensures (1 <= |Trim(f.name)| <= 200 && 1 <= |Trim(f.category)| <= 100 && f.quantity >= 0 && f.price > 0
             && f.threshold < 0)
      ==> Validate(f) == Err(ThresholdNegative)
  {
  }

  /** Validating the values validation returned accepts them unchanged. */
  lemma ValidateIdempotent(f: ProductForm)
    requires Validate(f).Ok?
    ensures Validate(Validate(f).value) == Validate(f)
  {
    TrimIdempotent(f.name);
    TrimIdempotent(f.category);
  }

  /** The add dialog's initial and reset form. */
  const BlankForm := ProductForm("", "", 0, 0, 10)

  /** Submitting the blank form fails on the name first; its zero price would fail too. */
  lemma BlankFormRejected()
    ensures Validate(BlankForm) == Err(NameRequired)
    ensures PriceNotPositive in Issues(Trimmed(BlankForm))
  {
    assert Trim("") == "";
    FirstIssueReported(BlankForm);
  }

  /** The form the edit dialog fills from a product. */
  function FormOf(p: Product): (f: ProductForm)
    ensures f.name == p.name && f.category == p.category
    ensures f.quantity == p.quantity && f.price == p.price && f.threshold == p.threshold
  {
    ProductForm(p.name, p.category, p.quantity, p.price, p.threshold)
  }

  // ---------------------------------------------------------------------
  // Submitting

  /** The store's reply to the insert or update. */
  datatype StoreReply = Stored | StoreError(code: string)

  /** The PostgreSQL code for a unique-constraint violation. */
  const UniqueViolation := "23505"

  /** The notification a submit ends with. */
  datatype Notice = ValidationFailed(message: string) | DuplicateProduct | Saved | SaveFailed

  /**
   * What a submit does: whether it sends the values to the store, the
   * notice it shows, and whether it closes the dialog (which also resets
   * the add form and asks the list to refresh).
   */
  datatype Outcome = Outcome(sent: Option<ProductForm>, notice: Notice, success: bool)

  function SubmitOutcome(f: ProductForm, reply: StoreReply): (o: Outcome)
    ensures o.sent.Some? <==> Acceptable(f)
    ensures o.sent.Some? ==> o.sent.value == Trimmed(f)
    ensures !Acceptable(f) ==> o.notice == ValidationFailed(Validate(f).error) && !o.success
    ensures Acceptable(f) ==>
      && (o.success <==> reply == Stored)
      && (reply == Stored ==> o.notice == Saved)
      && (reply == StoreError(UniqueViolation) ==> o.notice == DuplicateProduct)
      && (reply.StoreError? && reply.code != UniqueViolation ==> o.notice == SaveFailed)
  {
    match Validate(f)
    case Err(message) => Outcome(None, ValidationFailed(message), false)
    case Ok(values) =>
      if reply == Stored then Outcome(Some(values), Saved, true)
      else if reply.code == UniqueViolation then Outcome(Some(values), DuplicateProduct, false)
      else Outcome(Some(values), SaveFailed, false)
  }

  /** Whatever the store would answer, the blank form is never sent. */
  lemma BlankSubmitOutcome(reply: StoreReply)
    ensures SubmitOutcome(BlankForm, reply) == Outcome(None, ValidationFailed(NameRequired), false)
  {
    BlankFormRejected();
  }
}
