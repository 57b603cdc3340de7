/** Checkout: the delivery fee by city and delivery method, the validation of an
    order (non-empty cart, required customer fields), the order built and stored
    by `placeOrder`, and the lookup by id. */
module CheckoutActions {
  import opened Common

  const Dhaka := "dhaka"
  const Express := "express"
  const Standard := "standard"
  const DhakaBaseFee := 0
  const OtherCityBaseFee := 100
  const ExpressFee := 50
  /** Three days in milliseconds, the delivery estimate. */
  const DeliveryEstimateMs := 3 * 24 * 60 * 60 * 1000

  /** `calculateDeliveryFee(city, deliveryMethod)`: free in Dhaka (in any letter
      case), 100 elsewhere, and 50 more for express delivery. */
  function DeliveryFee(city: string, deliveryMethod: string): (fee: int)
    ensures (fee == 0 || fee == 50) <==> ToLower(city) == Dhaka
    ensures (fee == 50 || fee == 150) <==> deliveryMethod == Express
    ensures fee in {0, 50, 100, 150}
  {
    var baseFee := if ToLower(city) == Dhaka then DhakaBaseFee else OtherCityBaseFee;
    var expressFee := if deliveryMethod == Express then ExpressFee else 0;
    baseFee + expressFee
  }

  /** A city name that lowers letter by letter to "dhaka" is free with standard
      delivery. */
  lemma DhakaInAnyCase(city: string)
    requires |city| == |Dhaka|
    requires forall i :: 0 <= i < |city| ==> LowerChar(city[i]) == Dhaka[i]
    ensures DeliveryFee(city, Standard) == 0
  {
    forall i | 0 <= i < |city| ensures ToLower(city)[i] == Dhaka[i] {
      ToLowerAt(city, i);
    }
  }

  /** Express delivery costs exactly 50 more than standard, wherever the city. */
  lemma ExpressSurcharge(city: string)
    ensures DeliveryFee(city, Express) == DeliveryFee(city, Standard) + ExpressFee
  {
  }

  // ---------------------------------------------------------------------------
  // Orders
  // ---------------------------------------------------------------------------

  /** The submitted order form; None stands for a missing field. */
  datatype OrderData = OrderData(firstName: Option<string>, lastName: Option<string>,
                                 email: Option<string>, phone: Option<string>,
                                 address: Option<string>, city: Option<string>,
                                 area: Option<string>, notes: Option<string>,
                                 paymentMethod: string)

  /** The cart `getCartAction` returns: its item count and total. */
  datatype CartSummary = CartSummary(itemCount: nat, total: int)

  datatype CustomerInfo = CustomerInfo(firstName: string, lastName: string, name: string,
                                       email: string, phone: string, address: string,
                                       area: string, city: string, notes: Option<string>)

  datatype OrderStatus = Pending
  datatype PaymentStatus = PaymentPending

  /** The stored order. Time stamps are milliseconds since the epoch. */
  datatype CheckoutOrder = CheckoutOrder(id: string, orderNumber: string, customerId: string,
                                         itemCount: nat, subtotal: int, deliveryFee: int, total: int,
                                         status: OrderStatus, paymentStatus: PaymentStatus,
                                         paymentMethod: string, deliveryMethod: string,
                                         customerInfo: CustomerInfo, createdAt: nat,
                                         estimatedDelivery: nat)

  const RequiredFields: seq<string> := ["firstName", "lastName", "phone", "address", "city", "area"]
  const CartIsEmpty := "Cart is empty"
  const MissingRequired := "Missing required fields"
  const MissingPrefix := "Please fill in all required fields: "

  /** `orderData[field]`, for the required fields. */
  function Field(data: OrderData, field: string): Option<string>
    requires field in RequiredFields
  {
    match field
    case "firstName" => data.firstName
    case "lastName" => data.lastName
    case "phone" => data.phone
    case "address" => data.address
    case "city" => data.city
    case _ => data.area
  }

  /** `!orderData[field]?.trim()`: missing, or blank after trimming. */
  predicate Blank(v: Option<string>) {
    v.None? || Trim(v.value) == ""
  }

  /** `requiredFields.filter(...)` over the first n required fields. */
  function MissingAmong(data: OrderData, n: nat): (missing: seq<string>)
    requires n <= |RequiredFields|
    ensures |missing| <= n
    ensures forall f :: f in missing <==> f in RequiredFields[..n] && Blank(Field(data, f))
  {
    if n == 0 then []
    else
      var rest := MissingAmong(data, n - 1);
      var f := RequiredFields[n - 1];
      assert RequiredFields[..n] == RequiredFields[..n - 1] + [f];
      if Blank(Field(data, f)) then rest + [f] else rest
  }

  /** The required fields that are missing or blank, in the order of the list. */
  function MissingFields(data: OrderData): (missing: seq<string>)
    ensures forall f :: f in missing <==> f in RequiredFields && Blank(Field(data, f))
  {
    assert RequiredFields[..|RequiredFields|] == RequiredFields;
    MissingAmong(data, |RequiredFields|)
  }

  /** With every required field filled in, nothing is missing; with all of them
      blank, all six are listed in order. */
  lemma MissingFieldsExtremes(data: OrderData)
    ensures (forall f :: f in RequiredFields ==> !Blank(Field(data, f))) ==> MissingFields(data) == []
    ensures (forall f :: f in RequiredFields ==> Blank(Field(data, f))) ==> MissingFields(data) == RequiredFields
  {
    assert RequiredFields[..|RequiredFields|] == RequiredFields;
    if forall f :: f in RequiredFields ==> Blank(Field(data, f)) {
      AllMissing(data, |RequiredFields|);
    }
    if forall f :: f in RequiredFields ==> !Blank(Field(data, f)) {
      NoneMissing(data, |RequiredFields|);
    }
  }

  lemma {:induction false} AllMissing(data: OrderData, n: nat)
    requires n <= |RequiredFields|
    requires forall f :: f in RequiredFields ==> Blank(Field(data, f))
    ensures MissingAmong(data, n) == RequiredFields[..n]
  {
    if n > 0 {
      AllMissing(data, n - 1);
      assert RequiredFields[n - 1] in RequiredFields;
      assert RequiredFields[..n] == RequiredFields[..n - 1] + [RequiredFields[n - 1]];
    }
  }

  lemma {:induction false} NoneMissing(data: OrderData, n: nat)
    requires n <= |RequiredFields|
    requires forall f :: f in RequiredFields ==> !Blank(Field(data, f))
    ensures MissingAmong(data, n) == []
  {
    if n > 0 {
      NoneMissing(data, n - 1);
      assert RequiredFields[n - 1] in RequiredFields;
    }
  }

  /** Every required field is present and not blank. */
  predicate AllFilled(data: OrderData) {
    && data.firstName.Some? && data.lastName.Some? && data.phone.Some?
    && data.address.Some? && data.city.Some? && data.area.Some?
    && forall f :: f in RequiredFields ==> !Blank(Field(data, f))
  }

  /** Nothing reported missing means every required field is filled in. */
  lemma NothingMissingIsFilled(data: OrderData)
    requires MissingFields(data) == []
    ensures AllFilled(data)
  {
    forall f | f in RequiredFields ensures !Blank(Field(data, f)) {
      assert f !in MissingFields(data);
    }
    assert Field(data, "firstName") == data.firstName && Field(data, "lastName") == data.lastName;
    assert Field(data, "phone") == data.phone && Field(data, "address") == data.address;
    assert Field(data, "city") == data.city && Field(data, "area") == data.area;
  }

  /** `s.slice(-6)`: the last six characters, or all of a shorter string. */
  function LastSix(s: string): (r: string)
    ensures |r| == if |s| < 6 then |s| else 6
    ensures r == s[|s| - |r|..]
  {
    if |s| <= 6 then s else s[|s| - 6..]
  }

  /** The order `placeOrder` builds for a valid form, `now` being the clock's
      reading: pending, delivered by the standard method, priced at the cart
      total plus the standard fee for the city. */
  function NewOrder(data: OrderData, cart: CartSummary, now: nat): (o: CheckoutOrder)
    requires AllFilled(data)
    ensures o.total == cart.total + DeliveryFee(data.city.value, Standard)
    ensures o.deliveryFee == 0 || o.deliveryFee == 100
    ensures o.status == Pending && o.paymentStatus == PaymentPending
    ensures o.id == "order_" + NatToString(now)
    ensures o.customerInfo.name == data.firstName.value + " " + data.lastName.value
  {
    var deliveryFee := DeliveryFee(data.city.value, Standard);
    var name := data.firstName.value + " " + data.lastName.value;
    var email := if data.email.Some? && data.email.value != "" then data.email.value else "";
    CheckoutOrder("order_" + NatToString(now), "HN" + LastSix(NatToString(now)),
                  "customer_" + NatToString(now), cart.itemCount, cart.total, deliveryFee,
                  cart.total + deliveryFee, Pending, PaymentPending, data.paymentMethod, Standard,
                  CustomerInfo(data.firstName.value, data.lastName.value, name, email,
                               data.phone.value, data.address.value, data.area.value,
                               data.city.value, data.notes),
                  now, now + DeliveryEstimateMs)
  }

  datatype PlaceResult = Placed(order: CheckoutOrder) | PlaceFailed(error: string, errors: seq<string>)

  function OrderId(o: CheckoutOrder): string {
    o.id
  }

  /** An order appended under an id no earlier order has is the one the lookup
      finds; under a repeated id the lookup keeps finding the earlier order. */
  lemma LookupAfterPlace(orders: seq<CheckoutOrder>, o: CheckoutOrder)
    ensures !HasKey(orders, OrderId, o.id) ==> FindKey(orders + [o], OrderId, o.id) == |orders|
    ensures HasKey(orders, OrderId, o.id) ==>
              FindKey(orders + [o], OrderId, o.id) == FindKey(orders, OrderId, o.id)
  {
    FindKeyAppend(orders, o, OrderId, o.id);
  }

  /** The module-level `orders` array. */
  class CheckoutStore {
    var orders: seq<CheckoutOrder>

    constructor()
      ensures orders == []
    {
      orders := [];
    }

    /** `placeOrder`, with the cart and the clock's reading as parameters: an empty
        cart, then any blank required field, is refused with nothing stored;
        otherwise the new order is appended and returned. */
    method PlaceOrder(data: OrderData, cart: CartSummary, now: nat) returns (result: PlaceResult)
      modifies this
      ensures cart.itemCount == 0 ==>
                result == PlaceFailed(CartIsEmpty, [CartIsEmpty]) && orders == old(orders)
      ensures cart.itemCount > 0 && MissingFields(data) != [] ==>
                result == PlaceFailed(MissingRequired, [MissingPrefix + Join(MissingFields(data), ", ")])
                && orders == old(orders)
      ensures cart.itemCount > 0 && MissingFields(data) == [] ==>
                AllFilled(data) && result == Placed(NewOrder(data, cart, now)) && orders == old(orders) + [result.order]
    {
      if cart.itemCount == 0 {
        return PlaceFailed(CartIsEmpty, [CartIsEmpty]);
      }
      var missingFields := MissingFields(data);
      if |missingFields| > 0 {
        return PlaceFailed(MissingRequired, [MissingPrefix + Join(missingFields, ", ")]);
      }
      NothingMissingIsFilled(data);
      var order := NewOrder(data, cart, now);
      orders := orders + [order];
      result := Placed(order);
    }

    /** `getOrder`: the first order with the id, or null. */
    method GetOrder(orderId: string) returns (result: Option<CheckoutOrder>)
      ensures result.None? <==> !HasKey(orders, OrderId, orderId)
      ensures result.Some? ==> result.value.id == orderId
                               && result.value == orders[FindKey(orders, OrderId, orderId)]
    {
      var i := FindKey(orders, OrderId, orderId);
      if i == -1 {
        return None;
      }
      return Some(orders[i]);
    }
  }
}
