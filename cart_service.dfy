/** The cart totals of the cart service: weight labels such as "500g" or "1.5 KG"
    read as kilograms, the weight-based delivery charge and the loop that adds up a
    page of cart items. */
module CartService {
  import opened Common

  /** A weight in kilograms, or NaN (a label with no digits in it). */
  datatype Weight = Kg(kg: real) | NotANumber

  predicate IsNumericChar(c: char) {
    '0' <= c <= '9' || c == '.'
  }

  /** `s.replace(/[^0-9.]/g, "")`. */
  function KeepNumeric(s: string): (r: string)
    ensures |r| <= |s|
  {
    if s == [] then [] else (if IsNumericChar(s[0]) then [s[0]] else []) + KeepNumeric(s[1..])
  }

  /** `parseFloat` on a string without sign, white space or exponent: the longest
      prefix of the form digits, optionally a dot and more digits, with at least one
      digit; NaN when there is none. */
  function ParseFloatPrefix(s: string): (w: Weight)
    ensures w.Kg? ==> w.kg >= 0.0
  {
    var i := DigitRun(s, 10);
    var rest := s[i..];
    var frac := if rest != [] && rest[0] == '.' then rest[1..] else [];
    var f := DigitRun(frac, 10);
    if i + f == 0 then NotANumber
    else Kg(DigitsValue(s[..i], 10) as real + FractionValue(DigitsValue(frac[..f], 10), f))
  }

  /** The value of f digits after the decimal point that read as n. */
  function FractionValue(n: nat, f: nat): (r: real)
    ensures 0.0 <= r
  {
    n as real / Pow10(f)
  }

  /** `parseWeight`: an empty label weighs 0; otherwise the label is trimmed and
      lower-cased, its number read, and a label mentioning "kg" is in kilograms, one
      mentioning only "g" in grams, and any other label weighs 0. */
  function ParseWeight(weightStr: string): (w: Weight)
    ensures w.Kg? ==> w.kg >= 0.0
    ensures !Contains(ToLower(Trim(weightStr)), "g") ==> w == Kg(0.0)
  {
    if weightStr == "" then Kg(0.0) else WeightOfNormalized(ToLower(Trim(weightStr)))
  }

  /** The reading of a trimmed, lower-cased, non-empty label. */
  function WeightOfNormalized(normalized: string): (w: Weight)
    ensures w.Kg? ==> w.kg >= 0.0
    ensures !Contains(normalized, "g") ==> w == Kg(0.0)
  {
    var numeric := ParseFloatPrefix(KeepNumeric(normalized));
    KgMentionsG(normalized);
    if Contains(normalized, "kg") then numeric
    else if Contains(normalized, "g") then
      match numeric
      case Kg(v) => Kg(v / 1000.0)
      case NotANumber => NotANumber
    else Kg(0.0)
  }

  /** A label that mentions "kg" mentions "g". */
  lemma {:induction false} KgMentionsG(s: string)
    ensures Contains(s, "kg") ==> Contains(s, "g")
    decreases |s|
  {
    if StartsWith(s, "kg") {
      assert s[1..][..1] == "g";
      assert Contains(s[1..], "g");
    } else if s != [] {
      KgMentionsG(s[1..]);
    }
  }

  lemma KeepNumericAppend(a: string, b: string)
    ensures KeepNumeric(a + b) == KeepNumeric(a) + KeepNumeric(b)
  {
    if a != [] {
      assert (a + b)[1..] == a[1..] + b;
    } else {
      assert a + b == b;
    }
  }

  /** The number in a label made of a whole number and a unit is that number. */
  lemma NumberOfLabel(n: nat, unit: string)
    requires forall i :: 0 <= i < |unit| ==> 'a' <= unit[i] <= 'z'
    ensures ParseFloatPrefix(KeepNumeric(NatToString(n) + unit)) == Kg(n as real)
  {
    var d := NatToString(n);
    NatToStringValue(n);
    DigitsKept(d);
    LettersDropped(unit);
    KeepNumericAppend(d, unit);
    assert KeepNumeric(d + unit) == d;
    WholeNumberParses(d);
  }

  /** A non-empty run of digits reads as its value. */
  lemma WholeNumberParses(d: string)
    requires d != [] && DigitRun(d, 10) == |d|
    ensures ParseFloatPrefix(d) == Kg(DigitsValue(d, 10) as real)
  {
    assert d[|d|..] == [];
    assert d[..|d|] == d;
    assert FractionValue(DigitsValue([], 10), 0) == 0.0;
  }

  /** A label written as a whole number followed by "kg" reads as that many
      kilograms. */
  lemma ParseWeightOfKgLabel(n: nat)
    ensures ParseWeight(NatToString(n) + "kg") == Kg(n as real)
  {
    LabelNormalized(NatToString(n) + "kg");
    KgLabelValue(n);
  }

  lemma KgLabelValue(n: nat)
    ensures WeightOfNormalized(NatToString(n) + "kg") == Kg(n as real)
  {
    var d := NatToString(n);
    NumberOfLabel(n, "kg");
    ContainsInfix(d + "kg", |d|, "kg");
    KgReading(d + "kg");
  }

  /** A label that mentions "kg" reads its number as kilograms. */
  lemma KgReading(tag: string)
    requires Contains(tag, "kg")
    ensures WeightOfNormalized(tag) == ParseFloatPrefix(KeepNumeric(tag))
  {
  }

  /** A label written as a whole number followed by "g" reads as that many grams. */
  lemma ParseWeightOfGramLabel(n: nat)
    ensures ParseWeight(NatToString(n) + "g") == Kg(n as real / 1000.0)
  {
    LabelNormalized(NatToString(n) + "g");
    GramLabelValue(n);
  }

  lemma GramLabelValue(n: nat)
    ensures WeightOfNormalized(NatToString(n) + "g") == Kg(n as real / 1000.0)
  {
    var d := NatToString(n);
    NumberOfLabel(n, "g");
    GramTag(d);
    GramReading(d + "g", n as real);
  }

  /** Digits followed by "g" mention "g" but not "kg". */
  lemma GramTag(d: string)
    requires forall i :: 0 <= i < |d| ==> '0' <= d[i] <= '9'
    ensures !Contains(d + "g", "kg") && Contains(d + "g", "g")
  {
    NoKgBeforeLastChar(d, "g");
    ContainsInfix(d + "g", |d|, "g");
  }

  /** A label that mentions "g" but not "kg" reads its number as grams. */
  lemma GramReading(tag: string, v: real)
    requires !Contains(tag, "kg") && Contains(tag, "g")
    requires ParseFloatPrefix(KeepNumeric(tag)) == Kg(v)
    ensures WeightOfNormalized(tag) == Kg(v / 1000.0)
  {
  }

  /** "kg" does not occur in digits followed by one more character. */
  lemma {:induction false} NoKgBeforeLastChar(d: string, unit: string)
    requires forall i :: 0 <= i < |d| ==> '0' <= d[i] <= '9'
    requires |unit| == 1
    ensures !Contains(d + unit, "kg")
  {
    var tag := d + unit;
    if d == [] {
      assert tag[1..] == [];
    } else {
      assert tag[..2][0] == d[0];
      assert tag[1..] == d[1..] + unit;
      NoKgBeforeLastChar(d[1..], unit);
    }
  }

  lemma {:induction false} LettersDropped(s: string)
    requires forall i :: 0 <= i < |s| ==> 'a' <= s[i] <= 'z'
    ensures KeepNumeric(s) == []
  {
    if s != [] {
      LettersDropped(s[1..]);
    }
  }

  lemma {:induction false} DigitsKept(d: string)
    requires forall i :: 0 <= i < |d| ==> '0' <= d[i] <= '9'
    ensures KeepNumeric(d) == d
  {
    if d != [] {
      DigitsKept(d[1..]);
    }
  }

  /** A label of digits and lower-case letters is left alone by trimming and
      lower-casing. */
  lemma LabelNormalized(s: string)
    requires s != []
    requires forall i :: 0 <= i < |s| ==> '0' <= s[i] <= '9' || 'a' <= s[i] <= 'z'
    ensures ToLower(Trim(s)) == s
  {
    TrimUnpadded(s);
    ToLowerOfLower(s);
  }

  // ---------------------------------------------------------------------------
  // Delivery charge
  // ---------------------------------------------------------------------------

  /** `Math.ceil`. */
  function Ceil(x: real): (n: int)
    ensures (n - 1) as real < x <= n as real
  {
    var f := x.Floor;
    if f as real == x then f else f + 1
  }

  /** The extra charge for each started kilogram beyond the first. */
  const ChargePerExtraKg := 20

  /** `calculateDynamicDeliveryCharge`: NaN counts as 0 kg. */
  function DeliveryCharge(totalWeight: Weight, baseCharge: real): (r: real)
    ensures r >= baseCharge
    ensures (totalWeight.NotANumber? || totalWeight.kg <= 1.0) ==> r == baseCharge
  {
    var roundedKg := if totalWeight.NotANumber? then 0 else Ceil(totalWeight.kg);
    if roundedKg <= 1 then baseCharge
    else
      var extraKg := roundedKg - 1;
      baseCharge + (extraKg * ChargePerExtraKg) as real
  }

  /** Every started kilogram beyond the first costs 20 more: a weight in (n - 1, n]
      kilograms, n >= 1, is charged the base plus 20 * (n - 1). */
  lemma ChargePerStartedKg(kg: real, n: int, baseCharge: real)
    requires n >= 1 && (n - 1) as real < kg <= n as real
    ensures DeliveryCharge(Kg(kg), baseCharge) == baseCharge + (ChargePerExtraKg * (n - 1)) as real
  {
    assert Ceil(kg) == n;
  }

  /** A heavier cart never pays less for delivery. */
  lemma DeliveryChargeMonotone(a: real, b: real, baseCharge: real)
    requires a <= b
    ensures DeliveryCharge(Kg(a), baseCharge) <= DeliveryCharge(Kg(b), baseCharge)
  {
    assert Ceil(a) <= Ceil(b);
  }

  // ---------------------------------------------------------------------------
  // The totals loop of getCart
  // ---------------------------------------------------------------------------

  /** What the totals loop reads of a cart line: the quantity, the line subtotal the
      database query computed (quantity times price), the product's weight label and
      its `delivery.charge` (None when the product has no delivery settings or no
      charge). */
  datatype CartItem = CartItem(quantity: int, subtotal: real, weight: string, deliveryCharge: Option<real>)

  /** `item.delivery?.charge` is truthy. */
  predicate HasOwnCharge(item: CartItem) {
    item.deliveryCharge.Some? && item.deliveryCharge.value != 0.0
  }

  const DefaultDeliveryCharge: real := 130.0

  function ScaleWeight(w: Weight, quantity: int): Weight {
    match w
    case Kg(v) => Kg(v * quantity as real)
    case NotANumber => NotANumber
  }

  function AddWeight(a: Weight, b: Weight): Weight {
    if a.NotANumber? || b.NotANumber? then NotANumber else Kg(a.kg + b.kg)
  }

  /** `subtotal += item.subtotal` over the first n lines. */
  function Subtotal(items: seq<CartItem>, n: nat): real
    requires n <= |items|
  {
    if n == 0 then 0.0 else Subtotal(items, n - 1) + items[n - 1].subtotal
  }

  /** A reader of weight labels. `getCart` reads them with `ParseWeight`; the
      totals loop and its specification are stated for any reader, so that the
      loop's proof does not depend on how labels are parsed. */
  type WeightReader = string -> Weight

  /** The weight of one cart line: its label's weight times its quantity. */
  function LineWeight(item: CartItem, read: WeightReader): (w: Weight)
    ensures w.NotANumber? <==> read(item.weight).NotANumber?
  {
    ScaleWeight(read(item.weight), item.quantity)
  }

  /** `totalWeightKg += productWeightKg` over the first n lines: NaN as soon as one
      label has no number, the sum of the line weights otherwise. */
  function TotalWeight(items: seq<CartItem>, n: nat, read: WeightReader): (w: Weight)
    requires n <= |items|
    ensures w.Kg? ==> forall k :: 0 <= k < n ==> !Unreadable(items, k, read)
  {
    if n == 0 then Kg(0.0) else AddWeight(TotalWeight(items, n - 1, read), LineWeight(items[n - 1], read))
  }

  /** The total weight is NaN exactly when some label has no number in it. */
  lemma {:induction false} TotalWeightNaN(items: seq<CartItem>, n: nat, read: WeightReader)
    requires n <= |items|
    ensures TotalWeight(items, n, read).NotANumber? <==> exists k :: 0 <= k < n && Unreadable(items, k, read)
  {
    if n > 0 {
      TotalWeightNaN(items, n - 1, read);
      var last := LineWeight(items[n - 1], read);
      assert Unreadable(items, n - 1, read) <==> last.NotANumber?;
      if TotalWeight(items, n - 1, read).NotANumber? {
        var k :| 0 <= k < n - 1 && Unreadable(items, k, read);
        assert 0 <= k < n && Unreadable(items, k, read);
      }
      if exists k :: 0 <= k < n && Unreadable(items, k, read) {
        var k :| 0 <= k < n && Unreadable(items, k, read);
        if k < n - 1 {
          assert TotalWeight(items, n - 1, read).NotANumber?;
        }
      }
    }
  }

  /** The label of line k has no number in it. */
  predicate Unreadable(items: seq<CartItem>, k: int, read: WeightReader)
    requires 0 <= k < |items|
  {
    read(items[k].weight).NotANumber?
  }

  /** The charge of the last of the first n lines that has a charge of its own, if
      any. */
  function LastOwnCharge(items: seq<CartItem>, n: nat): Option<real>
    requires n <= |items|
  {
    if n == 0 then None
    else if HasOwnCharge(items[n - 1]) then items[n - 1].deliveryCharge
    else LastOwnCharge(items, n - 1)
  }

  /** The base charge after the first n lines: that of the last line with a charge of
      its own, 130 when no line has one. */
  function BaseDeliveryCharge(items: seq<CartItem>, n: nat): real
    requires n <= |items|
  {
    match LastOwnCharge(items, n)
    case Some(c) => c
    case None => DefaultDeliveryCharge
  }

  /** The line whose charge is used is one with a charge of its own and no later line
      has one; when no line has one, the default of 130 is used. */
  lemma {:induction false} BaseChargeIsLastOwnCharge(items: seq<CartItem>, n: nat)
    requires n <= |items|
    ensures LastOwnCharge(items, n).None? <==> forall k :: 0 <= k < n ==> !HasOwnCharge(items[k])
    ensures LastOwnCharge(items, n).None? ==> BaseDeliveryCharge(items, n) == DefaultDeliveryCharge
    ensures LastOwnCharge(items, n).Some? ==>
              exists k :: 0 <= k < n && HasOwnCharge(items[k])
                          && BaseDeliveryCharge(items, n) == items[k].deliveryCharge.value
                          && forall j :: k < j < n ==> !HasOwnCharge(items[j])
  {
    if n > 0 {
      BaseChargeIsLastOwnCharge(items, n - 1);
      if HasOwnCharge(items[n - 1]) {
        assert BaseDeliveryCharge(items, n) == items[n - 1].deliveryCharge.value;
      }
    }
  }

  /** A line with a charge of 0 or without delivery settings never changes the
      base charge, whatever its weight. */
  lemma ChargelessLineKeepsBase(items: seq<CartItem>, n: nat)
    requires n < |items| && !HasOwnCharge(items[n])
    ensures BaseDeliveryCharge(items, n + 1) == BaseDeliveryCharge(items, n)
  {
  }

  /** The value of `k` hundredths. */
  function Hundredths(k: int): real {
    k as real / 100.0
  }

  /** `parseFloat(totalWeightKg.toFixed(2))`: rounded to two decimals, halves away
      from zero. The result is a whole number of hundredths, the nearest one to `x`,
      and a tie goes up for a non-negative `x` and down for a negative one. */
  function RoundTo2(x: real): (r: real)
    ensures exists k: int :: r == Hundredths(k)
    ensures x >= 0.0 ==> -1.0 / 200.0 < r - x <= 1.0 / 200.0
    ensures x < 0.0 ==> -1.0 / 200.0 <= r - x < 1.0 / 200.0
  {
    if x >= 0.0 then Hundredths((x * 100.0 + 0.5).Floor)
    else Hundredths(-((-x * 100.0 + 0.5).Floor))
  }

  /** The `weight` field of the result: the total rounded to two decimals; the
      string "NaN" reads back as NaN. */
  function ReportedWeight(w: Weight): (r: Weight)
    ensures r.NotANumber? <==> w.NotANumber?
  {
    match w
    case Kg(v) => Kg(RoundTo2(v))
    case NotANumber => NotANumber
  }

  datatype CartTotals = CartTotals(subtotal: real, weight: Weight, deliveryCharge: real, total: real)

  datatype CartResult = Unauthorized | Totals(totals: CartTotals)

  /** The totals of `getCart` over the items of the page it fetched. An empty user id
      is refused. Whether or not an item has its own charge, the charge is the
      weight-based charge on the base charge. */
  method GetCartTotals(userId: string, cartItems: seq<CartItem>) returns (result: CartResult)
    ensures result.Unauthorized? <==> userId == ""
    ensures result.Totals? ==>
              var t := result.totals;
              && t.subtotal == Subtotal(cartItems, |cartItems|)
              && t.deliveryCharge == DeliveryCharge(TotalWeight(cartItems, |cartItems|, ParseWeight), BaseDeliveryCharge(cartItems, |cartItems|))
              && t.deliveryCharge >= BaseDeliveryCharge(cartItems, |cartItems|)
              && t.total == t.subtotal + t.deliveryCharge
              && t.weight == ReportedWeight(TotalWeight(cartItems, |cartItems|, ParseWeight))
  {
    if userId == "" {
      return Unauthorized;
    }
    var subtotal, totalWeightKg, baseDeliveryCharge, useProductDelivery := AddUpLines(cartItems, ParseWeight);
    var deliveryCharge := if useProductDelivery then DeliveryCharge(totalWeightKg, baseDeliveryCharge)
                          else DeliveryCharge(totalWeightKg, DefaultDeliveryCharge);
    var weight := ReportedWeight(totalWeightKg);
    result := Totals(CartTotals(subtotal, weight, deliveryCharge, subtotal + deliveryCharge));
  }

  /** The `for (const item of cartItems)` loop of `getCart`. */
  method AddUpLines(cartItems: seq<CartItem>, parseWeight: WeightReader)
    returns (subtotal: real, totalWeightKg: Weight, baseDeliveryCharge: real, useProductDelivery: bool)
    ensures subtotal == Subtotal(cartItems, |cartItems|)
    ensures totalWeightKg == TotalWeight(cartItems, |cartItems|, parseWeight)
    ensures baseDeliveryCharge == BaseDeliveryCharge(cartItems, |cartItems|)
    ensures useProductDelivery <==> LastOwnCharge(cartItems, |cartItems|).Some?
    ensures !useProductDelivery ==> baseDeliveryCharge == DefaultDeliveryCharge
  {
    subtotal := 0.0;
    totalWeightKg := Kg(0.0);
    baseDeliveryCharge := DefaultDeliveryCharge;
    useProductDelivery := false;
    var i := 0;
    while i < |cartItems|
      invariant 0 <= i <= |cartItems|
      invariant subtotal == Subtotal(cartItems, i)
      invariant totalWeightKg == TotalWeight(cartItems, i, parseWeight)
      invariant baseDeliveryCharge == BaseDeliveryCharge(cartItems, i)
      invariant useProductDelivery <==> LastOwnCharge(cartItems, i).Some?
    {
      var item := cartItems[i];
      subtotal := subtotal + item.subtotal;
      var productWeightKg := LineWeight(item, parseWeight);
      totalWeightKg := AddWeight(totalWeightKg, productWeightKg);
      if HasOwnCharge(item) {
        baseDeliveryCharge := item.deliveryCharge.value;
        useProductDelivery := true;
      }
      i := i + 1;
    }
  }
}
