/** The state and derived values of the storefront's top-level component: the sample
    catalog, the quantity store with its normalising update, the product filter and the
    cart aggregation with its two totals. */
module App {
  import opened JsStrings
  import opened Seqs
  import opened Types

  const SampleProducts: seq<Product> := [
    Product(1, "Paracetamol 500mg", 15000, "Pain Relief", false),
    Product(2, "Amoxicillin 500mg", 45000, "Antibiotic", true),
    Product(3, "Vitamin C 1000mg", 30000, "Supplement", false),
    Product(4, "Cetirizine 10mg", 20000, "Allergy", false)
  ]

  const MaxQuantity: int := 99

  // ---------------------------------------------------------------- quantity store

  /** One stored quantity: the cleared-field sentinel `""` or a number. */
  datatype Qty = Unset | Num(n: int)

  /** Product id to stored quantity; an id with no entry has never been edited. */
  type Quantities = map<int, Qty>

  /** What the quantity field (a string) or a stepper button (a number) hands over. */
  datatype RawValue = Text(s: string) | Number(n: int)

  /** The values the store can hold once every write went through the normalising update. */
  predicate WellFormed(q: Qty) {
    q.Unset? || 0 <= q.n <= MaxQuantity
  }

  predicate StoreInvariant(m: Quantities) {
    forall id :: id in m ==> WellFormed(m[id])
  }

  function Min(a: int, b: int): int { if a <= b then a else b }

  function Max(a: int, b: int): int { if a >= b then a else b }

  /** A number is taken as it is, a string goes through `parseInt(rawValue, 10)`;
      `None` stands for NaN. */
  function Numeric(raw: RawValue): Option<int> {
    match raw
    case Number(n) => Some(n)
    case Text(s) => ParseInt(s)
  }

  /** `Math.max(0, Math.min(99, v))`. */
  function Clamp(v: int): (r: int)
    ensures 0 <= r <= MaxQuantity
    ensures v > MaxQuantity ==> r == MaxQuantity
    ensures v < 0 ==> r == 0
    ensures 0 <= v <= MaxQuantity ==> r == v
  {
    Max(0, Min(MaxQuantity, v))
  }

  /** The value the update stores for a raw input: the sentinel for the empty string,
      otherwise the parsed number (0 for NaN) clamped into [0, 99]. */
  function Normalize(raw: RawValue): (q: Qty)
    ensures q == Unset <==> raw == Text("")
    ensures WellFormed(q)
    ensures raw != Text("") && Numeric(raw) == None ==> q == Num(0)
    ensures raw != Text("") && Numeric(raw).Some? ==> q == Num(Clamp(Numeric(raw).value))
  {
    if raw == Text("") then Unset
    else
      var numeric := Numeric(raw);
      Num(Clamp(if numeric.None? then 0 else numeric.value))
  }

  /** The store after one quantity change: only `productId`'s entry is (over)written. */
  function UpdateQuantities(m: Quantities, productId: int, raw: RawValue): (r: Quantities)
    ensures r.Keys == m.Keys + {productId}
    ensures r[productId] == Normalize(raw)
    ensures forall id :: id in m && id != productId ==> r[id] == m[id]
  {
    m[productId := Normalize(raw)]
  }

  /** The `quantities` state of the component and its change handler. */
  class QuantityStore {
    var quantities: Quantities

    ghost predicate Valid()
      reads this
    {
      StoreInvariant(quantities)
    }

    constructor ()
      ensures Valid() && quantities == map[]
    {
      quantities := map[];
    }

    /** handleQuantityChange: store the sentinel for `""`, otherwise the parsed and
        clamped number, under `productId` only. */
    method HandleQuantityChange(productId: int, rawValue: RawValue)
      modifies this
      ensures quantities == UpdateQuantities(old(quantities), productId, rawValue)
      ensures old(Valid()) ==> Valid()
    {
      if rawValue == Text("") {
        quantities := quantities[productId := Unset];
        return;
      }
      var numeric := Numeric(rawValue);
      var safeValue := Max(0, Min(MaxQuantity, if numeric.None? then 0 else numeric.value));
      quantities := quantities[productId := Num(safeValue)];
    }
  }

  /** Every store the update produces from a well-formed store is well-formed. */
  lemma UpdatePreservesInvariant(m: Quantities, productId: int, raw: RawValue)
    requires StoreInvariant(m)
    ensures StoreInvariant(UpdateQuantities(m, productId, raw))
  {
  }

  /** Applying the same raw value twice gives the same store as applying it once. */
  lemma UpdateIdempotent(m: Quantities, productId: int, raw: RawValue)
    ensures UpdateQuantities(UpdateQuantities(m, productId, raw), productId, raw)
         == UpdateQuantities(m, productId, raw)
  {
  }

  /** A stored number survives being written back, as a number or as the decimal text the
      quantity field shows for it: normalising is a projection. */
  lemma RewriteStoredValue(m: Quantities, productId: int)
    requires StoreInvariant(m)
    requires productId in m && m[productId].Num?
    ensures UpdateQuantities(m, productId, Number(m[productId].n)) == m
    ensures UpdateQuantities(m, productId, Text(FormatDecimal(m[productId].n))) == m
  {
    var v := m[productId].n;
    assert WellFormed(m[productId]);
    ParseIntOfDecimal(v, "");
    assert FormatDecimal(v) + "" == FormatDecimal(v);
    assert Text(FormatDecimal(v)) != Text("");
    assert Normalize(Text(FormatDecimal(v))) == Num(v);
    assert Normalize(Number(v)) == Num(v);
    assert m[productId := Num(v)] == m;
  }

  /** Input above the range is stored as 99. */
  lemma NormalizeAboveRange()
    ensures Normalize(Text("150")) == Num(99)
  {
    assert FormatDecimal(15) == "15";
    assert FormatDecimal(150) == "150";
    ParseIntOfDecimal(150, "");
    assert FormatDecimal(150) + "" == "150";
  }

  /** Negative input is stored as 0. */
  lemma NormalizeNegative()
    ensures Normalize(Text("-5")) == Num(0)
  {
    assert FormatDecimal(5) == "5";
    ParseIntOfNegativeDecimal(5, "");
    assert "-" + (FormatDecimal(5) + "") == "-5";
  }

  /** Input that is not a number (NaN) is stored as 0. */
  lemma NormalizeNotANumber()
    ensures Normalize(Text("abc")) == Num(0)
  {
    ParseIntWithoutDigits("abc");
  }

  /** Leading white space is skipped and a fractional part is cut off. */
  lemma NormalizeFraction()
    ensures Normalize(Text(" 7.5")) == Num(7)
  {
    ParseWithFraction();
  }

  lemma ParseWithFraction()
    ensures ParseInt(" 7.5") == Some(7)
  {
    var d := FormatDecimal(7);
    assert d == "7";
    ParseIntOfDecimal(7, ".5");
    assert d + ".5" == "7.5";
    assert AllWhitespace(" ");
    ParseIntSkipsWhitespace(" ", "7.5");
    assert " " + "7.5" == " 7.5";
  }

  // ---------------------------------------------------------------- product filter

  /** The name test of filteredProducts, for an already trimmed and lower-cased term. */
  predicate MatchesName(p: Product, lowerSearch: string) {
    IsSubstring(ToLower(p.name), lowerSearch)
  }

  /** The category test: the sentinel selects everything, otherwise an exact match. */
  predicate MatchesCategory(p: Product, category: string) {
    category == AllCategories || p.category == category
  }

  predicate Keep(p: Product, lowerSearch: string, category: string) {
    MatchesName(p, lowerSearch) && MatchesCategory(p, category)
  }

  /** The order-preserving filter of `products` by the two tests. */
  function FilterProducts(products: seq<Product>, lowerSearch: string, category: string): (r: seq<Product>)
    ensures |r| <= |products|
    ensures forall p :: p in r <==> p in products && Keep(p, lowerSearch, category)
  {
    if products == [] then []
    else
      var rest := FilterProducts(products[1..], lowerSearch, category);
      if Keep(products[0], lowerSearch, category) then [products[0]] + rest else rest
  }

  /** filteredProducts: the search term is trimmed and lower-cased once, then the
      catalog is filtered. */
  function FilteredProducts(catalog: seq<Product>, search: string, category: string): seq<Product> {
    FilterProducts(catalog, ToLower(Trim(search)), category)
  }

  /** The filter keeps the catalog's order: its result is a subsequence of the catalog. */
  lemma {:induction false} FilterIsSubsequence(products: seq<Product>, lowerSearch: string, category: string)
    ensures IsSubsequence(FilterProducts(products, lowerSearch, category), products)
  {
    if products != [] {
      FilterIsSubsequence(products[1..], lowerSearch, category);
      var rest := FilterProducts(products[1..], lowerSearch, category);
      if !Keep(products[0], lowerSearch, category) && rest != [] {
        assert rest[0] in rest;
      }
    }
  }

  /** The filter works element by element: filtering a concatenation concatenates the
      filtered parts. With the one-element case (kept exactly when `Keep` holds) this pins
      the result down completely. */
  lemma {:induction false} FilterConcat(a: seq<Product>, b: seq<Product>, lowerSearch: string, category: string)
    ensures FilterProducts(a + b, lowerSearch, category)
         == FilterProducts(a, lowerSearch, category) + FilterProducts(b, lowerSearch, category)
  {
    if a == [] {
      assert a + b == b;
    } else {
      assert (a + b)[1..] == a[1..] + b;
      FilterConcat(a[1..], b, lowerSearch, category);
    }
  }

  /** A filter that rejects nothing returns its input unchanged. */
  lemma {:induction false} FilterKeepingAll(products: seq<Product>, lowerSearch: string, category: string)
    requires forall i :: 0 <= i < |products| ==> Keep(products[i], lowerSearch, category)
    ensures FilterProducts(products, lowerSearch, category) == products
  {
    if products != [] {
      FilterKeepingAll(products[1..], lowerSearch, category);
      assert [products[0]] + products[1..] == products;
    }
  }

  /** An empty or blank search with the "all" category shows the whole catalog in order. */
  lemma BlankSearchShowsCatalog(catalog: seq<Product>, search: string)
    requires AllWhitespace(search)
    ensures FilteredProducts(catalog, search, AllCategories) == catalog
  {
    assert ToLower(Trim(search)) == "";
    forall i | 0 <= i < |catalog| ensures Keep(catalog[i], "", AllCategories) {
      EmptyIsSubstring(ToLower(catalog[i].name));
    }
    FilterKeepingAll(catalog, "", AllCategories);
  }

  /** The search is case-insensitive: on the sample catalog, "vitamin" in any case finds
      exactly the vitamin product. */
  lemma VitaminSearch()
    ensures FilteredProducts(SampleProducts, "VItamin ", AllCategories) == [SampleProducts[2]]
  {
    var c := SampleProducts;
    VitaminTerm();
    OnlyOneVitamin();
    assert FilterProducts(c[3..], "vitamin", AllCategories) == [];
    assert FilterProducts(c[2..], "vitamin", AllCategories) == [c[2]];
    assert FilterProducts(c[1..], "vitamin", AllCategories) == [c[2]];
  }

  lemma OnlyOneVitamin()
    ensures !Keep(SampleProducts[0], "vitamin", AllCategories)
    ensures !Keep(SampleProducts[1], "vitamin", AllCategories)
    ensures Keep(SampleProducts[2], "vitamin", AllCategories)
    ensures !Keep(SampleProducts[3], "vitamin", AllCategories)
  {
    NoVitamin(SampleProducts[0].name);
    NoVitamin(SampleProducts[1].name);
    VitaminName();
    NoVitamin(SampleProducts[3].name);
  }

  lemma VitaminTerm()
    ensures ToLower(Trim("VItamin ")) == "vitamin"
  {
    TrimVitaminTerm();
    LowerVitaminTerm();
  }

  lemma TrimVitaminTerm()
    ensures Trim("VItamin ") == "VItamin"
  {
    var t := "VItamin ";
    assert !IsWhitespace(t[0]);
    assert TrimStart(t) == t;
    assert IsWhitespace(t[|t| - 1]) && t[..|t| - 1] == "VItamin";
    assert TrimEnd("VItamin") == "VItamin";
  }

  lemma LowerVitaminTerm()
    ensures ToLower("VItamin") == "vitamin"
  {
    var l := ToLower("VItamin");
    assert l[0] == 'v' && l[1] == 'i' && l[2] == 't' && l[3] == 'a';
    assert l[4] == 'm' && l[5] == 'i' && l[6] == 'n';
  }

  lemma VitaminName()
    ensures MatchesName(SampleProducts[2], "vitamin")
  {
    var s := ToLower(SampleProducts[2].name);
    assert s[..7] == "vitamin";
    assert StartsWith(s[0..], "vitamin");
  }

  /** A name without the letter v in either case does not match "vitamin". */
  lemma NoVitamin(name: string)
    requires forall i :: 0 <= i < |name| ==> name[i] != 'v' && name[i] != 'V'
    ensures !IsSubstring(ToLower(name), "vitamin")
  {
    var s := ToLower(name);
    forall i | 0 <= i <= |s| ensures !StartsWith(s[i..], "vitamin") {
      if i < |s| {
        assert s[i..][0] == s[i];
      }
    }
  }

  // ---------------------------------------------------------------- cart

  /** `quantities[id]`: `None` for an id that has no entry. */
  function Lookup(m: Quantities, id: int): Option<Qty> {
    if id in m then Some(m[id]) else None
  }

  /** toNumber: a positive number is kept; the sentinel, a missing entry and a number
      that is not positive all resolve to 0. */
  function ToNumber(value: Option<Qty>): (n: nat)
    ensures n > 0 <==> value.Some? && value.value.Num? && value.value.n > 0
    ensures n > 0 ==> n == value.value.n
  {
    match value
    case Some(Num(v)) => if v > 0 then v else 0
    case Some(Unset) => 0
    case None => 0
  }

  function ResolvedQuantity(m: Quantities, p: Product): nat {
    ToNumber(Lookup(m, p.id))
  }

  /** The products of a list of cart lines, in order. */
  function ProductsOf(items: seq<CartItem>): (r: seq<Product>)
    ensures |r| == |items|
    ensures forall i :: 0 <= i < |items| ==> r[i] == items[i].product
  {
    if items == [] then [] else [items[0].product] + ProductsOf(items[1..])
  }

  /** The products of a list of cart lines that starts with `item`. */
  lemma ProductsOfCons(item: CartItem, rest: seq<CartItem>)
    ensures ProductsOf([item] + rest) == [item.product] + ProductsOf(rest)
  {
    assert ([item] + rest)[1..] == rest;
  }

  /** cartItems: one line per catalog product with a positive resolved quantity, in
      catalog order, carrying that quantity and quantity * price. */
  function CartItems(catalog: seq<Product>, m: Quantities): (r: seq<CartItem>)
    ensures |r| <= |catalog|
    ensures forall i :: 0 <= i < |r| ==>
      && r[i].product in catalog
      && r[i].quantity > 0
      && r[i].quantity == ResolvedQuantity(m, r[i].product)
      && r[i].subtotal == r[i].quantity * r[i].product.price
    ensures forall p :: p in ProductsOf(r) <==> p in catalog && ResolvedQuantity(m, p) > 0
  {
    if catalog == [] then []
    else
      var p := catalog[0];
      var q := ResolvedQuantity(m, p);
      var rest := CartItems(catalog[1..], m);
      if q > 0 then
        var line := CartItem(p, q, q * p.price);
        ProductsOfCons(line, rest);
        [line] + rest
      else rest
  }

  /** The cart lists its products in catalog order. */
  lemma {:induction false} CartInCatalogOrder(catalog: seq<Product>, m: Quantities)
    ensures IsSubsequence(ProductsOf(CartItems(catalog, m)), catalog)
  {
    if catalog != [] {
      CartInCatalogOrder(catalog[1..], m);
      var rest := ProductsOf(CartItems(catalog[1..], m));
      var p := catalog[0];
      var q := ResolvedQuantity(m, p);
      if q > 0 {
        assert ProductsOf(CartItems(catalog, m)) == [p] + rest;
      } else if rest != [] {
        assert rest[0] in rest;
      }
    }
  }

  /** grandTotal: `reduce((sum, item) => sum + item.subtotal, 0)`, a left fold. */
  function GrandTotal(items: seq<CartItem>): int {
    if items == [] then 0 else GrandTotal(items[..|items| - 1]) + items[|items| - 1].subtotal
  }

  /** totalItems: `reduce((sum, item) => sum + item.quantity, 0)`, a left fold. */
  function TotalItems(items: seq<CartItem>): int {
    if items == [] then 0 else TotalItems(items[..|items| - 1]) + items[|items| - 1].quantity
  }

  /** Both totals split over a concatenation. */
  lemma {:induction false} TotalsOfConcat(a: seq<CartItem>, b: seq<CartItem>)
    ensures GrandTotal(a + b) == GrandTotal(a) + GrandTotal(b)
    ensures TotalItems(a + b) == TotalItems(a) + TotalItems(b)
    decreases |b|
  {
    if b == [] {
      assert a + b == a;
    } else {
      var n := |b| - 1;
      assert (a + b)[..|a + b| - 1] == a + b[..n];
      TotalsOfConcat(a, b[..n]);
    }
  }

  /** The reference definition of the order total: every catalog product contributes its
      resolved quantity times its price, so unlisted products contribute nothing. */
  function CatalogTotal(catalog: seq<Product>, m: Quantities): int {
    if catalog == [] then 0
    else ResolvedQuantity(m, catalog[0]) * catalog[0].price + CatalogTotal(catalog[1..], m)
  }

  /** The reference definition of the item count: the sum of all resolved quantities. */
  function CatalogCount(catalog: seq<Product>, m: Quantities): int {
    if catalog == [] then 0 else ResolvedQuantity(m, catalog[0]) + CatalogCount(catalog[1..], m)
  }

  /** Both totals of a list that starts with `head`. */
  lemma TotalsOfCons(head: CartItem, rest: seq<CartItem>)
    ensures GrandTotal([head] + rest) == head.subtotal + GrandTotal(rest)
    ensures TotalItems([head] + rest) == head.quantity + TotalItems(rest)
  {
    TotalsOfConcat([head], rest);
    assert [head][..0] == [];
  }

  /** grandTotal and totalItems of the cart equal the catalog-wide sums. */
  lemma {:induction false} CartTotals(catalog: seq<Product>, m: Quantities)
    ensures GrandTotal(CartItems(catalog, m)) == CatalogTotal(catalog, m)
    ensures TotalItems(CartItems(catalog, m)) == CatalogCount(catalog, m)
  {
    if catalog != [] {
      CartTotals(catalog[1..], m);
      var p := catalog[0];
      var q := ResolvedQuantity(m, p);
      var rest := CartItems(catalog[1..], m);
      if q > 0 {
        var head := CartItem(p, q, q * p.price);
        assert CartItems(catalog, m) == [head] + rest;
        TotalsOfCons(head, rest);
      } else {
        assert CartItems(catalog, m) == rest;
        assert q * p.price == 0;
      }
    }
  }

  /** Entries for ids outside the catalog do not change the catalog sums. */
  lemma {:induction false} SumsIgnoreForeignIds(catalog: seq<Product>, m: Quantities, id: int, v: Qty)
    requires forall i :: 0 <= i < |catalog| ==> catalog[i].id != id
    ensures CatalogTotal(catalog, m[id := v]) == CatalogTotal(catalog, m)
    ensures CatalogCount(catalog, m[id := v]) == CatalogCount(catalog, m)
  {
    if catalog != [] {
      SumsIgnoreForeignIds(catalog[1..], m, id, v);
      assert ResolvedQuantity(m[id := v], catalog[0]) == ResolvedQuantity(m, catalog[0]);
    }
  }

  /** Storing one more of catalog product `k` raises the catalog sums by its price and by 1. */
  lemma {:induction false} SumsAfterIncrement(catalog: seq<Product>, m: Quantities, k: nat)
    requires UniqueIds(catalog) && k < |catalog|
    ensures var m' := m[catalog[k].id := Num(ResolvedQuantity(m, catalog[k]) + 1)];
      && CatalogTotal(catalog, m') == CatalogTotal(catalog, m) + catalog[k].price
      && CatalogCount(catalog, m') == CatalogCount(catalog, m) + 1
  {
    var p := catalog[k];
    var q := ResolvedQuantity(m, p);
    var m' := m[p.id := Num(q + 1)];
    if k == 0 {
      SumsIgnoreForeignIds(catalog[1..], m, p.id, Num(q + 1));
      assert ResolvedQuantity(m', p) == q + 1;
      assert (q + 1) * p.price == q * p.price + p.price;
    } else {
      SumsAfterIncrement(catalog[1..], m, k - 1);
      assert ResolvedQuantity(m', catalog[0]) == ResolvedQuantity(m, catalog[0]);
    }
  }

  /** Raising one product's quantity by one, the others fixed, raises grandTotal by exactly
      that product's price and totalItems by exactly 1. */
  lemma IncrementRaisesTotals(catalog: seq<Product>, m: Quantities, k: nat)
    requires UniqueIds(catalog) && k < |catalog|
    ensures var m' := m[catalog[k].id := Num(ResolvedQuantity(m, catalog[k]) + 1)];
      && GrandTotal(CartItems(catalog, m')) == GrandTotal(CartItems(catalog, m)) + catalog[k].price
      && TotalItems(CartItems(catalog, m')) == TotalItems(CartItems(catalog, m)) + 1
  {
    var m' := m[catalog[k].id := Num(ResolvedQuantity(m, catalog[k]) + 1)];
    CartTotals(catalog, m);
    CartTotals(catalog, m');
    SumsAfterIncrement(catalog, m, k);
  }

  /** The app's own catalog meets the precondition of IncrementRaisesTotals. */
  lemma SampleProductsUniqueIds()
    ensures UniqueIds(SampleProducts)
  {
  }

  /** Re-applying a quantity change leaves the cart as it was after the first one. */
  lemma CartIdempotent(catalog: seq<Product>, m: Quantities, productId: int, raw: RawValue)
    ensures var once := UpdateQuantities(m, productId, raw);
      CartItems(catalog, UpdateQuantities(once, productId, raw)) == CartItems(catalog, once)
  {
    UpdateIdempotent(m, productId, raw);
  }

  /** A sample cart: 2 of product 1, 0 of product 3 and a cleared field for product 4
      give one cart line of 30000 and two items. */
  lemma CartExample()
    ensures var m := map[1 := Num(2), 3 := Num(0), 4 := Unset];
      && CartItems(SampleProducts, m) == [CartItem(SampleProducts[0], 2, 30000)]
      && GrandTotal(CartItems(SampleProducts, m)) == 30000
      && TotalItems(CartItems(SampleProducts, m)) == 2
  {
    var line := [CartItem(SampleProducts[0], 2, 30000)];
    SampleCartLines();
    assert line[..0] == [];
  }

  lemma SampleCartLines()
    ensures CartItems(SampleProducts, map[1 := Num(2), 3 := Num(0), 4 := Unset])
         == [CartItem(SampleProducts[0], 2, 30000)]
  {
    var m := map[1 := Num(2), 3 := Num(0), 4 := Unset];
    var c := SampleProducts;
    assert ResolvedQuantity(m, c[3]) == 0;
    assert CartItems(c[3..], m) == [];
    assert ResolvedQuantity(m, c[2]) == 0;
    assert CartItems(c[2..], m) == [];
    assert ResolvedQuantity(m, c[1]) == 0;
    assert CartItems(c[1..], m) == [];
    assert ResolvedQuantity(m, c[0]) == 2;
  }
}
