# Pharmacy storefront: quantity store, filters and cart

This is a Dafny model of the in-memory logic of a small React storefront. The logic has three parts that feed one another.

- **Quantity store.** The top-level component keeps a map from product id to a stored quantity, held in `App.QuantityStore`. A stored quantity is either a number or the cleared-field sentinel `""`, modelled as `Qty = Unset | Num(n)`.
  - The change handler stores the sentinel for `""`.
  - Any other input — a string read with `parseInt(…, 10)`, or a number from a stepper button taken as it is — has NaN turned into 0 and is clamped into [0, 99].
  - It writes the entry for one product id only.
- **Product filter.** The catalog is filtered by a trimmed, lower-cased search term and by a category selector, in which `"all"` matches every category.
- **Cart.** Each product whose stored quantity resolves to a positive number becomes a cart line with `subtotal = quantity * price`, in catalog order. Two left folds sum the lines into the grand total and the item count.

The filter bar derives three values:
- the category choices: `"all"` followed by the distinct categories in order of first occurrence, the insertion order of a JavaScript `Set`;
- the choices that match the dropdown's own search box, where `"all"` is searched under the label `"all categories"`;
- the label of the selected category.

Each product row derives what it shows and what its buttons do:
- `safeQty`, the non-negative number it reads from the store;
- the field's display value;
- the decrement and increment buttons, which are disabled at 0 and at 99 and otherwise emit `safeQty ∓ 1` to the change handler.

Modules, in dependency order:
- `Seqs` (`seqs.dfy`): subsequences and first occurrences.
- `JsStrings` (`js_strings.dfy`): models of the JavaScript string built-ins the code uses: `trim`, `toLowerCase` on ASCII letters, `includes`, `parseInt(s, 10)` and the decimal rendering of a number.
- `Types` (`types.dfy`): the `Product` and `CartItem` records.
- `App` (`app.dfy`): the sample catalog, the quantity store, the product filter and the cart.
- `Filters` (`filters.dfy`): the category list, the category search and the selected label.
- `ProductList` (`product_list.dfy`): the per-row quantity logic.

`App.ToNumber` follows `toNumber` (`src/App.tsx:102-107`): it keeps any positive number, with no upper clamp. On stores the change handler has produced, every stored number is already in [0, 99] (`App.UpdatePreservesInvariant`), so the cart never sees a larger one.

## Model

| member | source | states |
|---|---|---|
| JsStrings.TrimStartSpec | src/App.tsx:92 | the front half of `trim`: it leaves the longest suffix that does not start with white space, and drops only white space |
| JsStrings.TrimEndSpec | src/App.tsx:92 | the back half of `trim`: it leaves the longest prefix that does not end with white space, and drops only white space |
| JsStrings.TrimStart | src/App.tsx:92 | the front half of `trim`, and the white-space skip `parseInt` starts with; its contract is JsStrings.TrimStartSpec |
| JsStrings.TrimEnd | src/App.tsx:92 | the back half of `trim`; its contract is JsStrings.TrimEndSpec |
| JsStrings.Trim | src/App.tsx:92 | the trimmed string is a slice of the input with only white space cut from either end, neither starts nor ends with white space, and is empty exactly when the input is all white space |
| JsStrings.LowerChar | src/App.tsx:92-94 | lower-casing sends each ASCII letter A to Z to the letter at the same place in a to z, and changes no other character |
| JsStrings.ToLower | src/App.tsx:92-94 | `toLowerCase` keeps the length and lower-cases character by character |
| JsStrings.EmptyIsSubstring | src/App.tsx:94 | every name `includes` the empty search term |
| JsStrings.IsSubstring | src/App.tsx:94 | `s.includes(sub)`: `sub` occurs in `s` as a contiguous block; used through App.MatchesName and Filters.LabelMatches, with JsStrings.EmptyIsSubstring and App.NoVitamin about it |
| JsStrings.DigitPrefixLength | src/App.tsx:66 | `parseInt` reads the longest run of decimal digits: the counted prefix is all digits, and the next character is not a digit |
| JsStrings.FormatDecimal | src/components/ProductList.tsx:110 | the text a number field shows for a non-negative number is a non-empty string of digits without a leading zero (0 alone is `"0"`) |
| JsStrings.DigitsValueOfFormat | src/components/ProductList.tsx:110 | reading the digits of a rendered number gives that number back |
| JsStrings.DigitPrefixOfDigits | src/App.tsx:66 | the digit run that `parseInt` reads stops where the digits end |
| JsStrings.ParseIntOfDecimal | src/App.tsx:66 | `parseInt` of a rendered number followed by non-digit text is that number (`"12abc"` is 12, `"1.5"` is 1) |
| JsStrings.ParseIntOfNegativeDecimal | src/App.tsx:66 | a minus sign in front of a rendered number negates it (`"-5"` is -5) |
| JsStrings.TrimStartSkipsWhitespace | src/App.tsx:92 | any leading white space is skipped |
| JsStrings.ParseIntSkipsWhitespace | src/App.tsx:66 | leading white space does not change what `parseInt` reads |
| JsStrings.ParseIntWithoutDigits | src/App.tsx:66 | text with no digit at all, the empty string among it, reads as NaN |
| JsStrings.ParseInt | src/App.tsx:66 | `parseInt(s, 10)`: skip leading white space, then read as ParseSigned does; its properties are the ParseInt lemmas above |
| JsStrings.ParseSigned | src/App.tsx:66 | an optional sign, then the longest run of digits; NaN when there is no digit; proved through JsStrings.ParseIntOfDecimal, JsStrings.ParseIntOfNegativeDecimal and JsStrings.ParseIntWithoutDigits |
| App.Clamp | src/App.tsx:68-71 | the clamp lands in [0, 99]: above 99 gives 99, below 0 gives 0, and values in range are kept |
| App.Min | src/App.tsx:68-71 | `Math.min` on integers; App.Clamp states the clamp it builds |
| App.Max | src/App.tsx:68-71 | `Math.max` on integers; App.Clamp states the clamp it builds |
| App.Numeric | src/App.tsx:65-66 | a number is taken as it is and a string is read with `parseInt`; its results are pinned down by App.Normalize and its examples |
| App.Normalize | src/App.tsx:57-71 | the value stored for an input: the sentinel exactly for `""`; otherwise 0 for NaN and the clamped parsed number for anything else; always in [0, 99] or the sentinel |
| App.UpdateQuantities | src/App.tsx:55-79 | the store after one change: the keys gain `productId`, whose entry is the normalised value, and every other key keeps its value |
| App.QuantityStore.constructor | src/App.tsx:52 | the store starts empty and satisfies its invariant |
| App.QuantityStore.HandleQuantityChange | src/App.tsx:55-79 | the handler's new map is the update of the old one for this id and raw value, and the invariant that every stored number is in [0, 99] is kept |
| App.UpdatePreservesInvariant | src/App.tsx:65-76 | each change keeps every stored value the sentinel or a number in [0, 99] |
| App.UpdateIdempotent | src/App.tsx:55-79 | applying the same raw value twice gives the same store as applying it once |
| App.RewriteStoredValue | src/App.tsx:65-76 | writing back a stored number leaves the store unchanged, whether it comes as a number (stepper) or as the decimal text the field shows |
| App.NormalizeAboveRange | src/App.tsx:65-71 | `"150"` is stored as 99 |
| App.NormalizeNegative | src/App.tsx:65-71 | `"-5"` is stored as 0 |
| App.NormalizeNotANumber | src/App.tsx:65-71 | `"abc"` (NaN) is stored as 0 |
| App.NormalizeFraction | src/App.tsx:65-71 | `" 7.5"` is stored as 7 |
| App.ParseWithFraction | src/App.tsx:66 | `parseInt(" 7.5", 10)` is 7 |
| App.FilterProducts | src/App.tsx:93-98 | a product is in the result exactly when it is in the input and passes both the name test and the category test |
| App.MatchesName | src/App.tsx:94 | the `matchesName` test: the lower-cased name contains the lower-cased search; its role in the result is stated by App.FilterProducts |
| App.MatchesCategory | src/App.tsx:95-96 | the `matchesCategory` test: the selector is `"all"` or equals the product's category; its role in the result is stated by App.FilterProducts |
| App.Keep | src/App.tsx:93-97 | the filter callback `matchesName && matchesCategory`; App.FilterProducts states that a product is kept exactly when it holds |
| App.FilteredProducts | src/App.tsx:91-99 | `filteredProducts`: the catalog filtered by the trimmed, lower-cased search and the category; App.FilterProducts gives its membership, App.FilterIsSubsequence its order and App.BlankSearchShowsCatalog the blank case |
| App.FilterIsSubsequence | src/App.tsx:93-98 | `filteredProducts` keeps catalog order: it is a subsequence of the catalog |
| App.FilterConcat | src/App.tsx:93-98 | the filter works element by element: filtering a concatenation concatenates the filtered parts |
| App.FilterKeepingAll | src/App.tsx:93-98 | when every product passes, the filter returns its input unchanged |
| App.BlankSearchShowsCatalog | src/App.tsx:92-96 | an empty or all-white-space search with category `"all"` shows the whole catalog in order |
| App.VitaminTerm | src/App.tsx:92 | the search `"VItamin "` becomes `"vitamin"` |
| App.TrimVitaminTerm | src/App.tsx:92 | `"VItamin ".trim()` is `"VItamin"` |
| App.LowerVitaminTerm | src/App.tsx:92 | `"VItamin".toLowerCase()` is `"vitamin"` |
| App.VitaminName | src/App.tsx:94 | the lower-cased name `"Vitamin C 1000mg"` contains `"vitamin"` |
| App.NoVitamin | src/App.tsx:94 | a name with no letter v in either case does not contain `"vitamin"` |
| App.OnlyOneVitamin | src/App.tsx:93-97 | of the sample products only the vitamin passes the search `"vitamin"` with category `"all"` |
| App.VitaminSearch | src/App.tsx:91-99 | a search that differs in case and trailing space finds exactly the vitamin product in the sample catalog |
| App.Lookup | src/App.tsx:110 | `quantities[p.id]`, with `None` for a missing key; used by App.ToNumber and ProductList.SafeQty |
| App.ResolvedQuantity | src/App.tsx:110 | the quantity `toNumber` resolves for a product; its contract is the one of App.ToNumber |
| App.ToNumber | src/App.tsx:102-107 | the resolved quantity is positive exactly for a stored positive number, and then equals it; the sentinel, a missing entry and a non-positive number give 0 |
| App.ProductsOf | src/App.tsx:109-117 | the products of the cart lines, position by position |
| App.ProductsOfCons | src/App.tsx:109-117 | the products of a list of lines that starts with one line start with that line's product |
| App.CartItems | src/App.tsx:109-117 | every line is a catalog product with its positive resolved quantity and `subtotal == quantity * price`; a product has a line exactly when its resolved quantity is positive |
| App.CartInCatalogOrder | src/App.tsx:109-117 | the cart lines follow catalog order |
| App.TotalsOfConcat | src/App.tsx:120-128 | both totals split over a concatenation of line lists |
| App.TotalsOfCons | src/App.tsx:120-128 | a leading line adds its subtotal to `grandTotal` and its quantity to `totalItems` |
| App.GrandTotal | src/App.tsx:120-123 | `grandTotal`, a left fold of the subtotals; App.CartTotals proves it equal to the catalog-wide sum of quantity times price |
| App.TotalItems | src/App.tsx:125-128 | `totalItems`, a left fold of the quantities; App.CartTotals proves it equal to the catalog-wide sum of quantities |
| App.CartTotals | src/App.tsx:120-128 | `grandTotal` is the catalog-wide sum of resolved quantity times price, and `totalItems` the sum of resolved quantities |
| App.SumsIgnoreForeignIds | src/App.tsx:109-110 | an entry for an id outside the catalog changes neither catalog sum |
| App.SumsAfterIncrement | src/App.tsx:109-115 | one more of one product (ids unique) raises the catalog sums by its price and by 1 |
| App.IncrementRaisesTotals | src/App.tsx:109-128 | raising one product's quantity by one, the others fixed, raises `grandTotal` by that product's price and `totalItems` by 1 |
| App.SampleProductsUniqueIds | src/App.tsx:16-45 | no two products of the sample catalog share an id, so the increment lemmas apply to it |
| App.SampleProducts | src/App.tsx:16-45 | the four sample products with their ids, names, prices, categories and prescription flags; App.SampleProductsUniqueIds proves their ids distinct |
| App.CartIdempotent | src/App.tsx:101-118 | repeating a quantity change leaves the cart as the first change left it |
| App.CartExample | src/App.tsx:101-128 | 2 of product 1, 0 of product 3 and a cleared field for product 4 give one line of 30000 and 2 items |
| App.SampleCartLines | src/App.tsx:109-117 | the cart lines of that sample store: one line, product 1 with quantity 2 and subtotal 30000 |
| Filters.CategoryNames | src/components/Filters.tsx:24 | `products.map((p) => p.category)`, position by position |
| Filters.InsertionOrder | src/components/Filters.tsx:24 | `Array.from(new Set(s))` holds each value of `s` once, and nothing else |
| Filters.OrderCarriesToExtension | src/components/Filters.tsx:24 | first-occurrence order within a prefix carries over to the whole sequence |
| Filters.OrderWithNewLast | src/components/Filters.tsx:24 | a value first seen at the end goes after every earlier first occurrence |
| Filters.PairsWithNewLast | src/components/Filters.tsx:24 | the membership and pairwise-order halves of the previous lemma |
| Filters.PairWithNewLast | src/components/Filters.tsx:24 | one pair of the previous lemma |
| Filters.InsertionOrderFollowsFirstOccurrence | src/components/Filters.tsx:24 | the Set's values come out in the order of their first occurrence |
| Filters.Categories | src/components/Filters.tsx:23-26 | `categories[0]` is `"all"`, and the entries after it are pairwise distinct and are exactly the product categories |
| Filters.CategoriesInFirstOccurrenceOrder | src/components/Filters.tsx:24 | after `"all"`, the categories appear in the order of each one's first occurrence among the products |
| Filters.CategoriesDistinctIff | src/components/Filters.tsx:24 | the whole list, `"all"` included, is free of repeats exactly when no product's category is the string `"all"` |
| Filters.SearchLabel | src/components/Filters.tsx:32 | the text an entry is searched by, `"all categories"` for `"all"`; see Filters.SelectedLabelIsSearchLabel |
| Filters.FilterByLabel | src/components/Filters.tsx:31-33 | an entry is kept exactly when its label (`"all categories"` for `"all"`), lower-cased, contains the query |
| Filters.LabelMatches | src/components/Filters.tsx:31-33 | the callback: the lower-cased label (`"all categories"` for `"all"`) contains the query; Filters.FilterByLabel states that an entry is kept exactly when it holds |
| Filters.FilterByLabelConcat | src/components/Filters.tsx:31-33 | the label filter works entry by entry: filtering a concatenation concatenates the filtered parts, so each copy of a repeated entry is judged on its own |
| Filters.FilteredCategories | src/components/Filters.tsx:28-34 | `filteredCategories`; its properties are stated by Filters.FilteredCategoriesSpec and Filters.BlankQueryKeepsAll |
| Filters.BlankQueryKeepsAll | src/components/Filters.tsx:29-30 | an empty or all-white-space query returns the list as it is |
| Filters.EmptyQueryFilterKeepsAll | src/components/Filters.tsx:29-33 | the early return for an empty query agrees with what the label filter would give |
| Filters.FilterByLabelIsSubsequence | src/components/Filters.tsx:31-33 | the label filter keeps the order of the list |
| Filters.FilteredCategoriesSpec | src/components/Filters.tsx:28-34 | `filteredCategories` is a subsequence of `categories` and keeps an entry exactly when its lower-cased label contains the trimmed, lower-cased query |
| Filters.SelectedLabel | src/components/Filters.tsx:41 | `"All categories"` for `"all"`, otherwise the category unchanged |
| Filters.SelectedLabelIsSearchLabel | src/components/Filters.tsx:41 | up to case, the button label equals the label the category search looks at |
| ProductList.ParseFallbacks | src/components/ProductList.tsx:63 | `parseInt("")` is NaN and `parseInt("0")` is 0 |
| ProductList.NumericQty | src/components/ProductList.tsx:62-63 | a stored number as it is, otherwise `parseInt` of `""` or `"0"`; its results are pinned down by ProductList.SafeQty |
| ProductList.SafeQty | src/components/ProductList.tsx:61-65 | `safeQty >= 0` always; 0 for a missing entry, the sentinel or a negative number; a non-negative number as it is |
| ProductList.Display | src/components/ProductList.tsx:66 | the field is empty exactly for the sentinel, and otherwise shows `safeQty` |
| ProductList.DecrementDisabled | src/components/ProductList.tsx:99 | `disabled \|\| safeQty <= 0`; ProductList.DecrementPress emits nothing exactly when it holds |
| ProductList.IncrementDisabled | src/components/ProductList.tsx:118 | `disabled \|\| safeQty >= 99`; ProductList.IncrementPress emits nothing exactly when it holds |
| ProductList.OrZero | src/components/ProductList.tsx:100 | `(safeQty \|\| 0)`, which is safeQty itself; ProductList.DecrementPress and ProductList.IncrementPress state the values emitted |
| ProductList.DecrementPress | src/components/ProductList.tsx:99-100 | − emits nothing exactly when loading or `safeQty <= 0`, and otherwise emits `safeQty - 1`, which is non-negative |
| ProductList.IncrementPress | src/components/ProductList.tsx:118-119 | + emits nothing exactly when loading or `safeQty >= 99`, and otherwise emits `safeQty + 1`, which is at most 99 |
| ProductList.AfterPress | src/components/ProductList.tsx:97-123 | a click handed to the change handler: no change when the button emitted nothing, otherwise App.UpdateQuantities; used by the stepper lemmas below |
| ProductList.RowShowsStoredValue | src/components/ProductList.tsx:61-66 | on a store the handler produced, a row shows a stored number as itself, the sentinel as an empty field and a missing entry as 0, and `safeQty` is in [0, 99] |
| ProductList.StepperBoundaries | src/components/ProductList.tsx:99-119 | for a stored q in [0, 99], + followed by the change handler stores `min(q + 1, 99)` and − stores `max(q - 1, 0)` |
| ProductList.StepperFromEmpty | src/components/ProductList.tsx:99-119 | from a cleared or never-edited field, + stores 1 and − is disabled |
| ProductList.LoadingDisablesStepper | src/components/ProductList.tsx:67-119 | while loading, neither button changes the store |
| ProductList.SafeIsToNumber | src/components/ProductList.tsx:61-65 | for every stored value, the safeQty a row reads agrees with the quantity `toNumber` resolves for the cart (src/App.tsx:102-107) |
| ProductList.IncrementStoresNext | src/components/ProductList.tsx:118-119 | an enabled + stores the resolved quantity plus one |
| ProductList.IncrementClickRaisesTotals | src/components/ProductList.tsx:118-119 | one click on an enabled + raises the cart's grand total by the product's price and its item count by 1 |

## Left out

- Rendering, layout, styling and the loading skeletons of every component, including all of `CartSummary.tsx`: these are presentation. The one test in it, that "Place order" is disabled when the cart is empty, is not modelled.
- The simulated loading timers (`setTimeout`, `clearTimeout`): timer behaviour. The loading flag is a parameter of the row functions.
- ProductList.LoadingDisablesStepper: while loading, the list renders skeletons instead of rows (`src/components/ProductList.tsx:20-44`), so no button exists then and the `disabled` flag is false on every rendered button. The lemma states what the row logic would do with the flag set; it does not model the skeleton branch.
- The dropdown's open/close state and its click-outside listeners: DOM event plumbing.
- `React.lazy`, `Suspense`, `React.memo`, `useMemo` and `useCallback`: framework glue. Each derived value is a function of the state it depends on.
- `ErrorBoundary.tsx` and `main.tsx`: React lifecycle, logging, page reload and mounting.
- `formatCurrency`: locale-dependent number formatting. It is not part of this model.
- App.ToNumber: does not model the branch that re-parses a non-number with `parseInt(String(value), 10)`. For the declared stored types (a number, `""` or nothing) that branch cannot be reached.
- App.QuantityStore.HandleQuantityChange: a numeric input is an unbounded integer, so the NaN, infinite and fractional JavaScript numbers that `Number.isNaN` and the clamp would also handle are not modelled.
- ProductList.SafeQty: `Number.isFinite` has nothing to reject beyond NaN, because stored numbers are integers.
- JsStrings.LowerChar: lower-cases ASCII letters only. Full Unicode case mapping is not modelled.
- JsStrings.ParseInt: reads digits into an unbounded integer. The rounding of very long digit strings to a double is not modelled; the clamp to 99 hides it in every store update.
- Types.CartItem: holds the product as a field instead of spreading the product's fields into the line. The information carried is the same.
- The browser's sanitising of a numeric input field's text: the change handler's model accepts any string, which covers whatever the browser passes on.
- Totals are unbounded integers. JavaScript doubles are exact at these magnitudes (prices up to 45000, quantities up to 99), so no rounding is modelled.
