/**
 * The stored records: Product and ProductType (as the store keeps them) and
 * Order with its OrderLine snapshots, plus the rules the Order schema applies
 * when an order is saved: required fields, the paymentMethod and status enums,
 * and the default status.
 */
module Models {
  import opened Wrappers
  import Js

  type ProductId = string
  type TypeId = string
  type OrderId = string

  /** A catalogue entry. `sizes` is optional: the Product schema declares no such field. */
  datatype Product = Product(
    id: ProductId,
    name: string,
    price: int,
    quantity: int,
    typeId: TypeId,
    image: string,
    sizes: Option<seq<string>>,
    createdAt: int)

  datatype ProductType = ProductType(id: TypeId, name: string, createdAt: int)

  /** One line of an order: a snapshot of the cart item it was made from. */
  datatype OrderLine = OrderLine(
    productId: ProductId,
    name: string,
    quantity: int,
    price: int,
    size: Option<string>)

  /** `status` and `paymentMethod` are strings: only saving a new order checks them against the enums. */
  datatype Order = Order(
    id: OrderId,
    fullName: string,
    email: string,
    phoneNumber: string,
    shippingAddress: string,
    cartItems: seq<OrderLine>,
    totalAmount: int,
    paymentMethod: string,
    status: string)

  const Statuses: set<string> := {"Cancel", "Processing", "Shipped", "Delivered"}
  const PaymentMethods: set<string> := {"cash", "online"}
  const DefaultStatus: string := "Processing"

  /** The fields a handler passes to `new Order({...})`; a missing field is `None`. */
  datatype OrderDraft = OrderDraft(
    fullName: Option<string>,
    email: Option<string>,
    phoneNumber: Option<string>,
    shippingAddress: Option<string>,
    cartItems: seq<OrderLine>,
    totalAmount: Option<int>,
    paymentMethod: Option<string>)

  /** A required string passes validation when present and non-empty. */
  predicate RequiredString(s: Option<string>) {
    Js.Truthy(s)
  }

  predicate PaymentMethodValid(p: Option<string>) {
    p.Some? && p.value in PaymentMethods
  }

  predicate LinesNamed(lines: seq<OrderLine>) {
    forall i :: 0 <= i < |lines| ==> lines[i].name != ""
  }

  /** The paths whose validators fail when the draft is saved. */
  function SchemaErrors(d: OrderDraft): set<string> {
    (if RequiredString(d.fullName) then {} else {"fullName"})
    + (if RequiredString(d.email) then {} else {"email"})
    + (if RequiredString(d.phoneNumber) then {} else {"phoneNumber"})
    + (if RequiredString(d.shippingAddress) then {} else {"shippingAddress"})
    + (if d.totalAmount.Some? then {} else {"totalAmount"})
    + (if PaymentMethodValid(d.paymentMethod) then {} else {"paymentMethod"})
    + (if LinesNamed(d.cartItems) then {} else {"cartItems.name"})
  }

  /**
   * `new Order(draft).save()`: either the stored order, with the default status,
   * or the set of failing paths (a ValidationError, which the handlers turn into a 500).
   */
  function BuildOrder(id: OrderId, d: OrderDraft): (r: Result<Order, set<string>>)
    ensures r.Success? <==>
      && RequiredString(d.fullName) && RequiredString(d.email)
      && RequiredString(d.phoneNumber) && RequiredString(d.shippingAddress)
      && d.totalAmount.Some? && PaymentMethodValid(d.paymentMethod) && LinesNamed(d.cartItems)
    ensures r.Success? ==>
      && r.value.id == id
      && r.value.fullName == d.fullName.value && r.value.email == d.email.value
      && r.value.phoneNumber == d.phoneNumber.value
      && r.value.shippingAddress == d.shippingAddress.value
      && r.value.cartItems == d.cartItems && r.value.totalAmount == d.totalAmount.value
      && r.value.paymentMethod in PaymentMethods
      && r.value.paymentMethod == d.paymentMethod.value
      && r.value.status == DefaultStatus && r.value.status in Statuses
    ensures r.Failure? ==> r.error != {}
    ensures r.Failure? ==> ("paymentMethod" in r.error <==> !PaymentMethodValid(d.paymentMethod))
  {
    var errors := SchemaErrors(d);
    if errors == {} then
      Success(Order(id, d.fullName.value, d.email.value, d.phoneNumber.value, d.shippingAddress.value,
                    d.cartItems, d.totalAmount.value, d.paymentMethod.value, DefaultStatus))
    else
      Failure(errors)
  }

  /** A draft without a payment method never saves, whatever else it holds. */
  lemma MissingPaymentMethodFails(id: OrderId, d: OrderDraft)
    requires d.paymentMethod.None?
    ensures BuildOrder(id, d) == Failure(SchemaErrors(d))
    ensures "paymentMethod" in BuildOrder(id, d).error
  {
  }
}
