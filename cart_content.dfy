/** The cart page's client state: the lines in the cart, the lines saved for
    later, the promo code being typed and the promo applied, with the handlers
    that change them and the totals computed from them. */
module CartContent {
  import opened Common

  /** A line in the cart. `inStock` is carried along from a saved line that was
      moved into the cart; the initial cart lines have none. Prices are whole
      taka. */
  datatype CartLine = CartLine(id: int, name: string, weight: string, price: nat,
                               quantity: int, inStock: Option<bool>)

  /** A line saved for later: a cart line without its quantity. */
  datatype SavedLine = SavedLine(id: int, name: string, weight: string, price: nat,
                                 inStock: Option<bool>)

  datatype Totals = Totals(subtotal: int, discount: int, deliveryFee: int, total: int)

  const PromoInput := "honey10"
  const Honey10 := "HONEY10"
  const FreeDeliveryFrom := 1000
  const FlatDeliveryFee := 60

  const InitialCartItems: seq<CartLine> :=
    [CartLine(1, "Premium Wildflower Honey", "500g", 850, 2, None),
     CartLine(2, "Pure Acacia Honey", "250g", 450, 1, None)]

  const SavedForLaterItems: seq<SavedLine> :=
    [SavedLine(5, "Litchi Blossom Honey", "250g", 550, Some(false))]

  function CartLineId(l: CartLine): int {
    l.id
  }

  function SavedLineId(l: SavedLine): int {
    l.id
  }

  /** `{ ...item, quantity: undefined }`. */
  function ToSaved(l: CartLine): SavedLine {
    SavedLine(l.id, l.name, l.weight, l.price, l.inStock)
  }

  /** `{ ...item, quantity: 1 }`. */
  function ToCart(l: SavedLine): CartLine {
    CartLine(l.id, l.name, l.weight, l.price, 1, l.inStock)
  }

  /** Moving a saved line into the cart and saving it again gives the same line. */
  lemma SavedRoundTrip(l: SavedLine)
    ensures ToSaved(ToCart(l)) == l
  {
  }

  // ---------------------------------------------------------------------------
  // Quantities and the subtotal
  // ---------------------------------------------------------------------------

  /** `items.map(item => item.id === id ? { ...item, quantity: q } : item)`. */
  function SetQuantity(items: seq<CartLine>, id: int, q: int): (r: seq<CartLine>)
    ensures |r| == |items|
  {
    if items == [] then []
    else [if items[0].id == id then items[0].(quantity := q) else items[0]]
         + SetQuantity(items[1..], id, q)
  }

  /** The cart after `updateQuantity(id, q)`: zero removes every line with the
      id, anything else sets their quantity. */
  function UpdatedItems(items: seq<CartLine>, id: int, q: int): (r: seq<CartLine>)
    ensures forall l :: l in r && l.id == id ==> q != 0 && l.quantity == q
    ensures forall l :: l in items && l.id != id ==> l in r
  {
    if q == 0 then
      FilterOutMembers(items, CartLineId, id);
      FilterOut(items, CartLineId, id)
    else
      SetQuantityLines(items, id, q);
      var r := SetQuantity(items, id, q);
      assert forall l :: l in r ==> exists k :: 0 <= k < |items| && r[k] == l;
      assert forall k :: 0 <= k < |items| && items[k].id != id ==> r[k] == items[k];
      r
  }

  /** `items.reduce((sum, item) => sum + item.price * item.quantity, 0)`. */
  function Subtotal(items: seq<CartLine>): int {
    if items == [] then 0 else items[0].price * items[0].quantity + Subtotal(items[1..])
  }

  /** What the lines with the given id contribute to the subtotal. */
  function IdSubtotal(items: seq<CartLine>, id: int): int {
    if items == [] then 0
    else (if items[0].id == id then items[0].price * items[0].quantity else 0)
         + IdSubtotal(items[1..], id)
  }

  /** The sum of the prices of the lines with the given id. */
  function IdPrices(items: seq<CartLine>, id: int): int {
    if items == [] then 0
    else (if items[0].id == id then items[0].price else 0) + IdPrices(items[1..], id)
  }

  /** Removing the lines with an id takes exactly their share off the subtotal. */
  lemma {:induction false} SubtotalWithout(items: seq<CartLine>, id: int)
    ensures Subtotal(FilterOut(items, CartLineId, id)) == Subtotal(items) - IdSubtotal(items, id)
  {
    if items != [] {
      SubtotalWithout(items[1..], id);
      var rest := FilterOut(items[1..], CartLineId, id);
      if items[0].id != id {
        assert ([items[0]] + rest)[1..] == rest;
      }
    }
  }

  /** Setting the quantity of the lines with an id replaces their share of the
      subtotal with the new quantity times their prices. */
  lemma {:induction false} SubtotalSetQuantity(items: seq<CartLine>, id: int, q: int)
    ensures Subtotal(SetQuantity(items, id, q))
            == Subtotal(items) - IdSubtotal(items, id) + q * IdPrices(items, id)
  {
    if items != [] {
      SubtotalSetQuantity(items[1..], id, q);
      var head := if items[0].id == id then items[0].(quantity := q) else items[0];
      assert ([head] + SetQuantity(items[1..], id, q))[1..] == SetQuantity(items[1..], id, q);
      calc {
        Subtotal(SetQuantity(items, id, q));
        head.price * head.quantity + Subtotal(SetQuantity(items[1..], id, q));
        head.price * head.quantity + Subtotal(items[1..]) - IdSubtotal(items[1..], id)
          + q * IdPrices(items[1..], id);
        { if items[0].id == id {
            assert q * IdPrices(items, id) == q * items[0].price + q * IdPrices(items[1..], id);
          } }
        Subtotal(items) - IdSubtotal(items, id) + q * IdPrices(items, id);
      }
    }
  }

  /** Whatever the new quantity, zero included, `updateQuantity` changes the
      subtotal by the lines' prices times the change of quantity. */
  lemma SubtotalAfterUpdate(items: seq<CartLine>, id: int, q: int)
    ensures Subtotal(UpdatedItems(items, id, q))
            == Subtotal(items) - IdSubtotal(items, id) + q * IdPrices(items, id)
  {
    if q == 0 {
      SubtotalWithout(items, id);
    } else {
      SubtotalSetQuantity(items, id, q);
    }
  }

  /** When one line has the id, its share is its price times its quantity. */
  lemma {:induction false} OneLineShare(items: seq<CartLine>, i: nat, id: int)
    requires i < |items| && items[i].id == id
    requires forall k :: 0 <= k < |items| && k != i ==> items[k].id != id
    ensures IdSubtotal(items, id) == items[i].price * items[i].quantity
    ensures IdPrices(items, id) == items[i].price
  {
    if i == 0 {
      NoLineShare(items[1..], id);
    } else {
      OneLineShare(items[1..], i - 1, id);
    }
  }

  lemma {:induction false} NoLineShare(items: seq<CartLine>, id: int)
    requires forall k :: 0 <= k < |items| ==> items[k].id != id
    ensures IdSubtotal(items, id) == 0 && IdPrices(items, id) == 0
  {
    if items != [] {
      NoLineShare(items[1..], id);
    }
  }

  /** The plus button on the only line with an id adds its price to the
      subtotal; the minus button takes it off, removing the line at zero. */
  lemma PlusMinusButtons(items: seq<CartLine>, i: nat)
    requires i < |items|
    requires forall k :: 0 <= k < |items| && k != i ==> items[k].id != items[i].id
    ensures Subtotal(UpdatedItems(items, items[i].id, items[i].quantity + 1))
            == Subtotal(items) + items[i].price
    ensures Subtotal(UpdatedItems(items, items[i].id, items[i].quantity - 1))
            == Subtotal(items) - items[i].price
  {
    ButtonStep(items, i, 1);
    ButtonStep(items, i, -1);
  }

  /** One press of a button: the quantity moves by `d`, the subtotal by `d`
      times the price. */
  lemma ButtonStep(items: seq<CartLine>, i: nat, d: int)
    requires i < |items|
    requires forall k :: 0 <= k < |items| && k != i ==> items[k].id != items[i].id
    requires d == 1 || d == -1
    ensures Subtotal(UpdatedItems(items, items[i].id, items[i].quantity + d))
            == Subtotal(items) + d * items[i].price
  {
    var q, price := items[i].quantity, items[i].price;
    UpdateOneLine(items, i, q + d);
    assert (q + d) - q == d;
    assert price * d == d * price;
  }

  /** Updating the only line with an id changes the subtotal by its price times
      the change of quantity. */
  lemma UpdateOneLine(items: seq<CartLine>, i: nat, q: int)
    requires i < |items|
    requires forall k :: 0 <= k < |items| && k != i ==> items[k].id != items[i].id
    ensures Subtotal(UpdatedItems(items, items[i].id, q))
            == Subtotal(items) + items[i].price * (q - items[i].quantity)
  {
    var price, quantity := items[i].price, items[i].quantity;
    OneLineShare(items, i, items[i].id);
    SubtotalAfterUpdate(items, items[i].id, q);
    calc {
      q * price - price * quantity;
      price * q - price * quantity;
      { MulSub(price, q, quantity); }
      price * (q - quantity);
    }
  }

  lemma MulSub(a: int, b: int, c: int)
    ensures a * b - a * c == a * (b - c)
  {
  }

  lemma {:induction false} SubtotalAppend(items: seq<CartLine>, l: CartLine)
    ensures Subtotal(items + [l]) == Subtotal(items) + l.price * l.quantity
  {
    if items == [] {
      assert [l][1..] == [];
    } else {
      assert (items + [l])[1..] == items[1..] + [l];
      SubtotalAppend(items[1..], l);
    }
  }

  // ---------------------------------------------------------------------------
  // Totals
  // ---------------------------------------------------------------------------

  /** `Math.round(subtotal * 0.1)` when HONEY10 is applied, else 0: a tenth of
      the subtotal rounded to the nearest whole taka, halves rounded up. */
  function Discount(subtotal: int, appliedPromo: Option<string>): (d: int)
    ensures appliedPromo != Some(Honey10) ==> d == 0
    ensures appliedPromo == Some(Honey10) ==> 10 * d - 5 <= subtotal < 10 * d + 5
  {
    if appliedPromo == Some(Honey10) then (subtotal + 5) / 10 else 0
  }

  /** Free delivery from 1000 taka, a flat fee below. */
  function DeliveryFee(subtotal: int): (fee: int)
    ensures fee == 0 <==> subtotal >= FreeDeliveryFrom
    ensures fee == 0 || fee == FlatDeliveryFee
  {
    if subtotal >= FreeDeliveryFrom then 0 else FlatDeliveryFee
  }

  /** The figures the order summary shows. */
  function CartTotals(items: seq<CartLine>, appliedPromo: Option<string>): (t: Totals)
    ensures t.subtotal == Subtotal(items)
    ensures t.total == t.subtotal - t.discount + t.deliveryFee
  {
    var subtotal := Subtotal(items);
    var discount := Discount(subtotal, appliedPromo);
    var deliveryFee := DeliveryFee(subtotal);
    Totals(subtotal, discount, deliveryFee, subtotal - discount + deliveryFee)
  }

  /** With a non-negative subtotal the discount is at most the subtotal, the total
      is never negative, and the promo never makes the total larger. */
  lemma TotalsBounded(items: seq<CartLine>, appliedPromo: Option<string>)
    requires Subtotal(items) >= 0
    ensures 0 <= CartTotals(items, appliedPromo).discount <= Subtotal(items)
    ensures CartTotals(items, appliedPromo).total >= 0
    ensures CartTotals(items, appliedPromo).total <= CartTotals(items, None).total
    ensures CartTotals(items, appliedPromo).total <= Subtotal(items) + FlatDeliveryFee
  {
  }

  /** Every line has at least one unit. */
  predicate PositiveQuantities(items: seq<CartLine>) {
    forall k :: 0 <= k < |items| ==> items[k].quantity >= 1
  }

  lemma {:induction false} SubtotalNonNegative(items: seq<CartLine>)
    requires PositiveQuantities(items)
    ensures Subtotal(items) >= 0
    ensures items != [] ==> Subtotal(items) >= items[0].price
  {
    if items != [] {
      SubtotalNonNegative(items[1..]);
    }
  }

  /** The totals of the initial cart: 2 x 850 + 450, delivered free. */
  lemma InitialTotals()
    ensures CartTotals(InitialCartItems, None) == Totals(2150, 0, 0, 2150)
    ensures CartTotals(InitialCartItems, Some(Honey10)) == Totals(2150, 215, 0, 1935)
  {
    assert InitialCartItems[1..][1..] == [];
  }

  // ---------------------------------------------------------------------------
  // Saving for later and moving back
  // ---------------------------------------------------------------------------

  /** The cart and saved list after `saveForLater(id)`: the first cart line with
      the id is appended, without its quantity, to the saved list, and every
      cart line with the id is removed. */
  function AfterSave(items: seq<CartLine>, saved: seq<SavedLine>, id: int): (seq<CartLine>, seq<SavedLine>) {
    var i := FindKey(items, CartLineId, id);
    if i == -1 then (items, saved)
    else (FilterOut(items, CartLineId, id), saved + [ToSaved(items[i])])
  }

  /** The cart and saved list after `moveToCart(id)`: the first saved line with
      the id is appended to the cart with quantity 1, and every saved line with
      the id is removed. */
  function AfterMove(items: seq<CartLine>, saved: seq<SavedLine>, id: int): (seq<CartLine>, seq<SavedLine>) {
    var i := FindKey(saved, SavedLineId, id);
    if i == -1 then (items, saved)
    else (items + [ToCart(saved[i])], FilterOut(saved, SavedLineId, id))
  }

  /** Saving a cart line whose id is not saved yet and moving it back restores the
      saved list, and the line returns at the end of the cart with one unit. */
  lemma SaveThenMove(items: seq<CartLine>, saved: seq<SavedLine>, id: int)
    requires HasKey(items, CartLineId, id) && !HasKey(saved, SavedLineId, id)
    ensures AfterMove(AfterSave(items, saved, id).0, AfterSave(items, saved, id).1, id)
            == (FilterOut(items, CartLineId, id)
                  + [items[FindKey(items, CartLineId, id)].(quantity := 1)], saved)
  {
    var i := FindKey(items, CartLineId, id);
    var x := ToSaved(items[i]);
    assert AfterSave(items, saved, id) == (FilterOut(items, CartLineId, id), saved + [x]);
    FindKeyAppend(saved, x, SavedLineId, id);
    FilterOutAppend(saved, x, SavedLineId, id);
    FilterOutNoKey(saved, SavedLineId, id);
    assert FindKey(saved + [x], SavedLineId, id) == |saved|;
    assert (saved + [x])[|saved|] == x;
    assert ToCart(x) == items[i].(quantity := 1);
    assert FilterOut(saved + [x], SavedLineId, id) == saved;
    assert AfterMove(FilterOut(items, CartLineId, id), saved + [x], id)
           == (FilterOut(items, CartLineId, id) + [ToCart(x)], saved);
  }

  /** Moving a saved line whose id is not in the cart and saving it again restores
      the cart, and the line returns, unchanged, at the end of the saved list. */
  lemma MoveThenSave(items: seq<CartLine>, saved: seq<SavedLine>, id: int)
    requires HasKey(saved, SavedLineId, id) && !HasKey(items, CartLineId, id)
    ensures AfterSave(AfterMove(items, saved, id).0, AfterMove(items, saved, id).1, id)
            == (items, FilterOut(saved, SavedLineId, id) + [saved[FindKey(saved, SavedLineId, id)]])
  {
    var i := FindKey(saved, SavedLineId, id);
    var x := ToCart(saved[i]);
    assert AfterMove(items, saved, id) == (items + [x], FilterOut(saved, SavedLineId, id));
    FindKeyAppend(items, x, CartLineId, id);
    FilterOutAppend(items, x, CartLineId, id);
    FilterOutNoKey(items, CartLineId, id);
    assert FindKey(items + [x], CartLineId, id) == |items|;
    assert (items + [x])[|items|] == x;
    assert ToSaved(x) == saved[i];
    assert FilterOut(items + [x], CartLineId, id) == items;
    assert AfterSave(items + [x], FilterOut(saved, SavedLineId, id), id)
           == (items, FilterOut(saved, SavedLineId, id) + [ToSaved(x)]);
  }

  /** The "Move to cart" button of a saved line is enabled only when the line is
      in stock. */
  predicate MoveEnabled(l: SavedLine) {
    l.inStock == Some(true)
  }

  /** No line, in the cart or saved, is marked in stock: true of the initial
      lists and kept by every handler. */
  predicate NoneInStock(items: seq<CartLine>, saved: seq<SavedLine>) {
    && (forall k :: 0 <= k < |items| ==> items[k].inStock != Some(true))
    && (forall k :: 0 <= k < |saved| ==> saved[k].inStock != Some(true))
  }

  /** Saving and moving keep every line not in stock, so no saved line's
      "Move to cart" button is ever enabled. */
  lemma NoneInStockKept(items: seq<CartLine>, saved: seq<SavedLine>, id: int)
    requires NoneInStock(items, saved)
    ensures NoneInStock(AfterSave(items, saved, id).0, AfterSave(items, saved, id).1)
    ensures NoneInStock(AfterMove(items, saved, id).0, AfterMove(items, saved, id).1)
    ensures forall k :: 0 <= k < |saved| ==> !MoveEnabled(saved[k])
  {
    FilterOutMembers(items, CartLineId, id);
    FilterOutMembers(saved, SavedLineId, id);
    var (i1, s1) := AfterSave(items, saved, id);
    forall k | 0 <= k < |i1| ensures i1[k].inStock != Some(true) {
      assert i1[k] in items;
    }
    var (i2, s2) := AfterMove(items, saved, id);
    forall k | 0 <= k < |s2| ensures s2[k].inStock != Some(true) {
      assert s2[k] in saved;
    }
  }

  lemma InitiallyNoneInStock()
    ensures NoneInStock(InitialCartItems, SavedForLaterItems)
  {
  }

  /** The component's state. */
  class Cart {
    var items: seq<CartLine>
    var savedItems: seq<SavedLine>
    var promoCode: string
    var appliedPromo: Option<string>

    /** Every cart line has a positive quantity and no line is in stock. */
    predicate Valid()
      reads this
    {
      PositiveQuantities(items) && NoneInStock(items, savedItems)
    }

    constructor()
      ensures items == InitialCartItems && savedItems == SavedForLaterItems
      ensures promoCode == "" && appliedPromo == None
      ensures Valid()
    {
      items := InitialCartItems;
      savedItems := SavedForLaterItems;
      promoCode := "";
      appliedPromo := None;
    }

    /** `updateQuantity(id, newQuantity)`. The buttons pass the line's quantity
        plus or minus one, never negative from a valid cart, which keeps the
        cart valid. */
    method UpdateQuantity(id: int, newQuantity: int)
      modifies this
      ensures items == UpdatedItems(old(items), id, newQuantity)
      ensures savedItems == old(savedItems) && promoCode == old(promoCode)
      ensures appliedPromo == old(appliedPromo)
      ensures old(Valid()) && newQuantity >= 0 ==> Valid()
    {
      if newQuantity == 0 {
        FilterOutMembers(items, CartLineId, id);
        items := FilterOut(items, CartLineId, id);
        forall k | 0 <= k < |items| ensures items[k] in old(items) {
        }
      } else {
        ghost var before := items;
        items := SetQuantity(items, id, newQuantity);
        SetQuantityLines(before, id, newQuantity);
      }
    }

    /** `removeItem(id)`: every cart line with the id goes. */
    method RemoveItem(id: int)
      modifies this
      ensures items == FilterOut(old(items), CartLineId, id)
      ensures savedItems == old(savedItems) && promoCode == old(promoCode)
      ensures appliedPromo == old(appliedPromo)
      ensures old(Valid()) ==> Valid()
    {
      FilterOutMembers(items, CartLineId, id);
      items := FilterOut(items, CartLineId, id);
      forall k | 0 <= k < |items| ensures items[k] in old(items) {
      }
    }

    /** `saveForLater(id)`. */
    method SaveForLater(id: int)
      modifies this
      ensures (items, savedItems) == AfterSave(old(items), old(savedItems), id)
      ensures promoCode == old(promoCode) && appliedPromo == old(appliedPromo)
      ensures old(Valid()) ==> Valid()
    {
      ghost var (i0, s0) := (items, savedItems);
      var i := FindKey(items, CartLineId, id);
      if i != -1 {
        savedItems := savedItems + [ToSaved(items[i])];
        RemoveItem(id);
      }
      if old(Valid()) {
        NoneInStockKept(i0, s0, id);
        FilterOutMembers(i0, CartLineId, id);
        forall k | 0 <= k < |items| ensures items[k] in i0 {
        }
      }
    }

    /** `moveToCart(id)`. */
    method MoveToCart(id: int)
      modifies this
      ensures (items, savedItems) == AfterMove(old(items), old(savedItems), id)
      ensures promoCode == old(promoCode) && appliedPromo == old(appliedPromo)
      ensures old(Valid()) ==> Valid()
    {
      ghost var (i0, s0) := (items, savedItems);
      var i := FindKey(savedItems, SavedLineId, id);
      if i != -1 {
        items := items + [ToCart(savedItems[i])];
        savedItems := FilterOut(savedItems, SavedLineId, id);
      }
      if old(Valid()) {
        NoneInStockKept(i0, s0, id);
      }
    }

    /** The promo code input's `onChange`. */
    method SetPromoCode(code: string)
      modifies this
      ensures promoCode == code
      ensures items == old(items) && savedItems == old(savedItems)
      ensures appliedPromo == old(appliedPromo)
    {
      promoCode := code;
    }

    /** `applyPromoCode()`: HONEY10 in any letter case applies the promo; any
        other code leaves the applied promo as it was. */
    method ApplyPromoCode()
      modifies this
      ensures appliedPromo == if ToLower(promoCode) == PromoInput then Some(Honey10) else old(appliedPromo)
      ensures items == old(items) && savedItems == old(savedItems) && promoCode == old(promoCode)
    {
      if ToLower(promoCode) == PromoInput {
        appliedPromo := Some(Honey10);
      }
    }

    /** The order summary's figures for the current state. */
    method GetTotals() returns (t: Totals)
      ensures t == CartTotals(items, appliedPromo)
      ensures Valid() ==> t.total >= 0 && t.discount <= t.subtotal
    {
      t := CartTotals(items, appliedPromo);
      if Valid() {
        SubtotalNonNegative(items);
        TotalsBounded(items, appliedPromo);
      }
    }
  }

  /** The lines `SetQuantity` produces are the original lines, those with the id
      carrying the new quantity. */
  lemma {:induction false} SetQuantityLines(items: seq<CartLine>, id: int, q: int)
    ensures forall k :: 0 <= k < |items| ==>
              SetQuantity(items, id, q)[k]
              == if items[k].id == id then items[k].(quantity := q) else items[k]
  {
    if items != [] {
      SetQuantityLines(items[1..], id, q);
    }
  }

  /** A code that lowers letter by letter to "honey10" applies the promo. */
  lemma PromoInAnyCase(code: string)
    requires |code| == |PromoInput|
    requires forall i :: 0 <= i < |code| ==> LowerChar(code[i]) == PromoInput[i]
    ensures ToLower(code) == PromoInput
  {
    forall i | 0 <= i < |code| ensures ToLower(code)[i] == PromoInput[i] {
      ToLowerAt(code, i);
    }
  }
}
