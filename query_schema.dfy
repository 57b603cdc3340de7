/** The `page` and `limit` query parameters of `createQuerySchema`: a missing value
    takes the default, a value that does not read as a number falls back to the
    default, and the number read is clamped (page from below by 1, limit into
    [1, 100]). */
module QuerySchema {
  import opened Common

  /** The defaults used when the caller gives none. */
  const DefaultPage: JsNumber := Finite(1.0)
  const DefaultLimit: JsNumber := Finite(20.0)
  const MaxLimit: real := 100.0

  /** A number no smaller than `lo` (positive infinity included). */
  predicate AtLeast(n: JsNumber, lo: real) {
    (n.Finite? && lo <= n.v) || n == Infinite(false)
  }

  /** A finite number between `lo` and `hi`. */
  predicate Between(n: JsNumber, lo: real, hi: real) {
    n.Finite? && lo <= n.v <= hi
  }

  /** `Number(val ?? defaultPage)`, shared by both transforms. */
  function Requested(val: Option<string>, default: JsNumber): JsNumber {
    if val.Some? then StringToNumber(val.value) else default
  }

  /** The `page` transform: NaN falls back to the default, any other number is
      raised to at least 1. */
  function Page(val: Option<string>, defaultPage: JsNumber): (r: JsNumber)
    ensures r == defaultPage || AtLeast(r, 1.0)
    ensures Requested(val, defaultPage).NaN? ==> r == defaultPage
  {
    var n := Requested(val, defaultPage);
    if n.NaN? then defaultPage else MaxWith(1.0, n)
  }

  /** The `limit` transform: NaN falls back to the default, any other number is
      clamped into [1, 100]. */
  function Limit(val: Option<string>, defaultLimit: JsNumber): (r: JsNumber)
    ensures r == defaultLimit || Between(r, 1.0, MaxLimit)
    ensures Requested(val, defaultLimit).NaN? ==> r == defaultLimit
  {
    var n := Requested(val, defaultLimit);
    if n.NaN? then defaultLimit else MinWith(MaxWith(1.0, n), MaxLimit)
  }

  /** With the default options the page is at least 1 and the limit lies in
      [1, 100], whatever the query holds. */
  lemma DefaultsBounded(val: Option<string>)
    ensures AtLeast(Page(val, DefaultPage), 1.0)
    ensures Between(Limit(val, DefaultLimit), 1.0, MaxLimit)
    ensures val.None? ==> Page(val, DefaultPage) == DefaultPage && Limit(val, DefaultLimit) == DefaultLimit
  {
  }

  /** A page given as a decimal numeral is that page, except 0, which becomes 1. */
  lemma PageOfNumeral(k: nat, defaultPage: JsNumber)
    ensures Page(Some(NatToString(k)), defaultPage) == Finite(if k == 0 then 1.0 else k as real)
  {
    NumeralNumber(k);
  }

  /** A limit given as a decimal numeral is that limit, clamped into [1, 100]. */
  lemma LimitOfNumeral(k: nat, defaultLimit: JsNumber)
    ensures Limit(Some(NatToString(k)), defaultLimit)
            == Finite(if k == 0 then 1.0 else if k > 100 then MaxLimit else k as real)
  {
    NumeralNumber(k);
  }

  /** A requested number already in range passes through both transforms unchanged. */
  lemma InRangeUnchanged(s: string, defaultPage: JsNumber, defaultLimit: JsNumber)
    ensures AtLeast(StringToNumber(s), 1.0) ==> Page(Some(s), defaultPage) == StringToNumber(s)
    ensures Between(StringToNumber(s), 1.0, MaxLimit) ==> Limit(Some(s), defaultLimit) == StringToNumber(s)
  {
  }

  /** A number read below 1 (negative infinity included) becomes exactly 1 in both
      transforms, and a limit read above 100 (positive infinity included) becomes
      exactly 100. */
  lemma OutOfRangeClamped(val: Option<string>, defaultPage: JsNumber, defaultLimit: JsNumber)
    ensures var n := Requested(val, defaultPage);
            n == Infinite(true) || (n.Finite? && n.v < 1.0) ==> Page(val, defaultPage) == Finite(1.0)
    ensures var n := Requested(val, defaultLimit);
            n == Infinite(true) || (n.Finite? && n.v < 1.0) ==> Limit(val, defaultLimit) == Finite(1.0)
    ensures var n := Requested(val, defaultLimit);
            n == Infinite(false) || (n.Finite? && n.v > MaxLimit) ==> Limit(val, defaultLimit) == Finite(MaxLimit)
  {
  }
}
