/** The order-creation page (`src/pages/CreateOrder.tsx`): the form's fields,
    their change handlers, the quantity clamp, and the validation and payload
    of the submission. */
module CreateOrder {
  import opened Wrappers
  import opened MockData

  /** `Math.max(1, n)` on the number typed in the quantity input. */
  function ClampQuantity(n: int): (q: int)
    ensures q >= 1
    ensures q >= n
    ensures q == n || q == 1
  {
    if n < 1 then 1 else n
  }

  /** Clamping an accepted quantity keeps it: the clamp is idempotent. */
  lemma ClampKeepsValid(n: int)
    ensures n >= 1 <==> ClampQuantity(n) == n
    ensures ClampQuantity(ClampQuantity(n)) == ClampQuantity(n)
  {
  }

  /** The row the submission inserts. */
  datatype OrderPayload = OrderPayload(
    clientId: string, productId: string, quantity: int, orderDate: Timestamp,
    notes: string, status: Status, stepIndex: int)

  datatype ValidationError = MissingSelection

  /** The validation of `handleSubmit`: a client, a product, a date and a
      quantity of at least one are required. */
  predicate Submittable(clientId: string, productId: string, quantity: int, orderDate: Option<Timestamp>) {
    clientId != "" && productId != "" && quantity >= 1 && orderDate.Some?
  }

  /** The form: `formData` and the date picker. */
  class OrderForm {
    var clientId: string
    var notes: string
    var productId: string
    var quantity: int
    var orderDate: Option<Timestamp>

    /** A new form: nothing selected, quantity one, dated `today`. */
    constructor (today: Timestamp)
      ensures clientId == "" && notes == "" && productId == "" && quantity == 1
      ensures orderDate == Some(today)
    {
      clientId := "";
      notes := "";
      productId := "";
      quantity := 1;
      orderDate := Some(today);
    }

    /** `handleFormInputChange`, wired only to the notes area. */
    method NotesChange(value: string)
      modifies this
      ensures notes == value
      ensures clientId == old(clientId) && productId == old(productId)
      ensures quantity == old(quantity) && orderDate == old(orderDate)
    {
      notes := value;
    }

    /** `handleClientSelectChange`. */
    method ClientSelectChange(value: string)
      modifies this
      ensures clientId == value
      ensures notes == old(notes) && productId == old(productId)
      ensures quantity == old(quantity) && orderDate == old(orderDate)
    {
      clientId := value;
    }

    /** `handleProductSelectChange`. */
    method ProductSelectChange(value: string)
      modifies this
      ensures productId == value
      ensures clientId == old(clientId) && notes == old(notes)
      ensures quantity == old(quantity) && orderDate == old(orderDate)
    {
      productId := value;
    }

    /** `handleQuantityChange`, given the number the input holds. */
    method QuantityChange(n: int)
      modifies this
      ensures quantity == ClampQuantity(n)
      ensures clientId == old(clientId) && notes == old(notes)
      ensures productId == old(productId) && orderDate == old(orderDate)
    {
      quantity := if 1 > n then 1 else n;
    }

    /** The date picker: a picked day, or none when it is cleared. */
    method DateChange(date: Option<Timestamp>)
      modifies this
      ensures orderDate == date
      ensures clientId == old(clientId) && notes == old(notes)
      ensures productId == old(productId) && quantity == old(quantity)
    {
      orderDate := date;
    }

    /** `handleSubmit`: refuses an incomplete form; otherwise the payload
        copies the form and starts the order waiting, on its first step. */
    method Submit() returns (r: Result<OrderPayload, ValidationError>)
      ensures r.Failure? <==> !Submittable(clientId, productId, quantity, orderDate)
      ensures r.Success? ==>
                && r.value.clientId == clientId && r.value.productId == productId
                && r.value.quantity == quantity && r.value.quantity >= 1
                && Some(r.value.orderDate) == orderDate
                && r.value.notes == notes
                && r.value.status == EnAttente && r.value.stepIndex == 0
    {
      if clientId == "" || productId == "" || quantity < 1 || orderDate.None? {
        return Failure(MissingSelection);
      }
      var payload := OrderPayload(clientId, productId, quantity, orderDate.value, notes, EnAttente, 0);
      r := Success(payload);
    }
  }

  /** A form edited only through its handlers always holds a quantity of at
      least one, so a filled-in form is always accepted. */
  method FilledFormIsAccepted(today: Timestamp, client: string, product: string, n: int, notes: string)
    returns (r: Result<OrderPayload, ValidationError>)
    requires client != "" && product != ""
    ensures r.Success? && r.value.quantity == ClampQuantity(n) && r.value.orderDate == today
    ensures r.value.status == EnAttente && r.value.stepIndex == 0
  {
    var form := new OrderForm(today);
    form.ClientSelectChange(client);
    form.ProductSelectChange(product);
    form.QuantityChange(n);
    form.NotesChange(notes);
    r := form.Submit();
  }
}
