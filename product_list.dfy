/** The per-row quantity logic of the product list: reading a stored quantity back for
    display, and what the decrement and increment buttons allow and emit. */
module ProductList {
  import opened JsStrings
  import opened Types
  import opened App

  /** The quantity field's value: empty for the sentinel, otherwise a number. */
  datatype DisplayValue = Blank | Shown(n: int)

  /** `parseInt` of the two strings a row can fall back to. */
  lemma ParseFallbacks()
    ensures ParseInt("") == None
    ensures ParseInt("0") == Some(0)
  {
    ParseIntWithoutDigits("");
    assert FormatDecimal(0) == "0";
    ParseIntOfDecimal(0, "");
    assert FormatDecimal(0) + "" == "0";
  }

  /** numericQty: a stored number as it is, otherwise `parseInt(rawQty ?? "0", 10)`; so the
      sentinel reads as NaN (`None`) and a missing entry as 0. */
  function NumericQty(rawQty: Option<Qty>): Option<int> {
    match rawQty
    case Some(Num(n)) => Some(n)
    case Some(Unset) => ParseInt("")
    case None => ParseInt("0")
  }

  /** safeQty: a finite, non-negative numericQty, and 0 otherwise. */
  function SafeQty(rawQty: Option<Qty>): (r: int)
    ensures r >= 0
    ensures rawQty == None || rawQty == Some(Unset) ==> r == 0
    ensures rawQty.Some? && rawQty.value.Num? && rawQty.value.n >= 0 ==> r == rawQty.value.n
    ensures rawQty.Some? && rawQty.value.Num? && rawQty.value.n < 0 ==> r == 0
  {
    ParseFallbacks();
    var numeric := NumericQty(rawQty);
    if numeric.Some? && numeric.value >= 0 then numeric.value else 0
  }

  /** displayValue: empty exactly for the sentinel, otherwise safeQty. */
  function Display(rawQty: Option<Qty>): (r: DisplayValue)
    ensures r == Blank <==> rawQty == Some(Unset)
    ensures r.Shown? ==> r.n == SafeQty(rawQty)
  {
    if rawQty == Some(Unset) then Blank else Shown(SafeQty(rawQty))
  }

  /** `disabled || safeQty <= 0`, where `disabled` is the loading flag. */
  predicate DecrementDisabled(isLoading: bool, safeQty: int) {
    isLoading || safeQty <= 0
  }

  /** `disabled || safeQty >= 99`. */
  predicate IncrementDisabled(isLoading: bool, safeQty: int) {
    isLoading || safeQty >= MaxQuantity
  }

  /** `(safeQty || 0)`: 0 is falsy, so it stays 0. */
  function OrZero(v: int): int {
    if v == 0 then 0 else v
  }

  /** What a click on the decrement button hands to the change handler: nothing while the
      button is disabled, otherwise the number one below safeQty. */
  function DecrementPress(isLoading: bool, rawQty: Option<Qty>): (r: Option<RawValue>)
    ensures r.None? <==> DecrementDisabled(isLoading, SafeQty(rawQty))
    ensures r.Some? ==> r.value == Number(SafeQty(rawQty) - 1) && SafeQty(rawQty) - 1 >= 0
  {
    var safeQty := SafeQty(rawQty);
    if DecrementDisabled(isLoading, safeQty) then None else Some(Number(OrZero(safeQty) - 1))
  }

  /** What a click on the increment button hands over: nothing while it is disabled,
      otherwise the number one above safeQty. */
  function IncrementPress(isLoading: bool, rawQty: Option<Qty>): (r: Option<RawValue>)
    ensures r.None? <==> IncrementDisabled(isLoading, SafeQty(rawQty))
    ensures r.Some? ==> r.value == Number(SafeQty(rawQty) + 1) && SafeQty(rawQty) + 1 <= MaxQuantity
  {
    var safeQty := SafeQty(rawQty);
    if IncrementDisabled(isLoading, safeQty) then None else Some(Number(OrZero(safeQty) + 1))
  }

  /** The store after a click: unchanged when the button emitted nothing, otherwise the
      change handler's update. */
  function AfterPress(m: Quantities, productId: int, press: Option<RawValue>): Quantities {
    match press
    case None => m
    case Some(raw) => UpdateQuantities(m, productId, raw)
  }

  /** On a store the change handler produced, a row shows exactly what is stored: a number
      in [0, 99] as itself, the sentinel as an empty field, a missing entry as 0. */
  lemma RowShowsStoredValue(m: Quantities, productId: int)
    requires StoreInvariant(m)
    ensures 0 <= SafeQty(Lookup(m, productId)) <= MaxQuantity
    ensures productId in m && m[productId].Num? ==>
      Display(Lookup(m, productId)) == Shown(m[productId].n)
    ensures productId in m && m[productId].Unset? ==> Display(Lookup(m, productId)) == Blank
    ensures productId !in m ==> Display(Lookup(m, productId)) == Shown(0)
  {
  }

  /** For a stored q in [0, 99], clicking + stores min(q + 1, 99) and clicking - stores
      max(q - 1, 0): a disabled button at either end leaves the store as it is. */
  lemma StepperBoundaries(m: Quantities, productId: int)
    requires productId in m && m[productId].Num? && 0 <= m[productId].n <= MaxQuantity
    ensures var q := m[productId].n;
      AfterPress(m, productId, IncrementPress(false, Lookup(m, productId)))
        == m[productId := Num(Min(q + 1, MaxQuantity))]
    ensures var q := m[productId].n;
      AfterPress(m, productId, DecrementPress(false, Lookup(m, productId)))
        == m[productId := Num(Max(q - 1, 0))]
  {
    var q := m[productId].n;
    if q == MaxQuantity {
      assert m[productId := Num(MaxQuantity)] == m;
    }
    if q == 0 {
      assert m[productId := Num(0)] == m;
    }
  }

  /** From an empty or never-edited field, + stores 1 and - is disabled. */
  lemma StepperFromEmpty(m: Quantities, productId: int)
    requires productId !in m || m[productId] == Unset
    ensures AfterPress(m, productId, IncrementPress(false, Lookup(m, productId))) == m[productId := Num(1)]
    ensures DecrementPress(false, Lookup(m, productId)) == None
  {
  }

  /** While the list is loading, neither button changes anything. */
  lemma LoadingDisablesStepper(m: Quantities, productId: int)
    ensures AfterPress(m, productId, IncrementPress(true, Lookup(m, productId))) == m
    ensures AfterPress(m, productId, DecrementPress(true, Lookup(m, productId))) == m
  {
  }

  /** The row and the cart read every stored value alike. */
  lemma SafeIsToNumber(v: Option<Qty>)
    ensures SafeQty(v) == ToNumber(v)
  {
  }

  /** An enabled + stores the resolved quantity plus one. */
  lemma IncrementStoresNext(m: Quantities, productId: int)
    requires !IncrementDisabled(false, SafeQty(Lookup(m, productId)))
    ensures AfterPress(m, productId, IncrementPress(false, Lookup(m, productId)))
         == m[productId := Num(ToNumber(Lookup(m, productId)) + 1)]
  {
    var v := Lookup(m, productId);
    var q := SafeQty(v);
    SafeIsToNumber(v);
    assert IncrementPress(false, v) == Some(Number(q + 1));
    assert Normalize(Number(q + 1)) == Num(q + 1);
  }

  /** One click on an enabled + raises the cart's grand total by the product's price and
      its item count by 1. */
  lemma IncrementClickRaisesTotals(catalog: seq<Product>, m: Quantities, k: nat)
    requires UniqueIds(catalog) && k < |catalog|
    requires !IncrementDisabled(false, SafeQty(Lookup(m, catalog[k].id)))
    ensures var m' := AfterPress(m, catalog[k].id, IncrementPress(false, Lookup(m, catalog[k].id)));
      && GrandTotal(CartItems(catalog, m')) == GrandTotal(CartItems(catalog, m)) + catalog[k].price
      && TotalItems(CartItems(catalog, m')) == TotalItems(CartItems(catalog, m)) + 1
  {
    var id := catalog[k].id;
    var m' := AfterPress(m, id, IncrementPress(false, Lookup(m, id)));
    assert m' == m[id := Num(ResolvedQuantity(m, catalog[k]) + 1)] by {
      IncrementStoresNext(m, id);
    }
    IncrementRaisesTotals(catalog, m, k);
  }
}
