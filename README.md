# Checkout evaluators: quantity breaks and invoice payments

This project models the two checkout functions of a merchant-admin discount app.
The host's checkout runtime calls each one with a cart snapshot and the merchant's parsed
configuration, and each returns a list of operations.

- **Quantity breaks** (`quantity_breaks.dfy`, module `QuantityBreaks`). For every cart
  line whose merchandise is a product variant, the tiers are filtered. A tier passes when
  the line's quantity reaches the tier's quantity and the line's product is in one of the
  configured collections. The tiers that pass are stably sorted by descending quantity and
  the head is taken. When that tier's quantity is not zero, the line gets one discount: it
  targets the variant, carries the tier's percentage as text, and has the message
  `BUY <q> GET <p>% OFF`. If no discounts result, the function returns the constant
  `EMPTY_DISCOUNT`. Otherwise it returns the discounts with strategy `First`.
  Tier selection is pure: `EligibleTiers`, `SortByQuantityDescending` and `SelectTier`.
  The pass over the cart is the imperative method `Run`, whose loop pushes onto a
  sequence. Its result is tied to the specification function `Discounts`.
- **Invoice payments** (`invoice_payments.dfy`, module `InvoicePayments`). If the
  configured name is missing or empty, or the threshold is missing, the function returns
  `NO_CHANGES`. Below the threshold it hides the first payment method whose name contains
  the configured string. If no name matches, or the total is at or above the threshold, it
  returns `NO_CHANGES`. This is the pure function `Run`.
- Helpers: `strings.dfy` renders whole numbers in decimal (the model of `toString`), reads
  them back, and tests for substrings. `seqs.dfy` holds first-index search (`find`) and a
  filter-map over a sequence. `wrappers.dfy` defines `Option` and `Result`.

Behaviour of the code that the model keeps:
- A missing tier list raises; it does not produce an empty result. A missing metafield
  reads as `{}`, so the `tiers.map` at `extensions/quantity-breaks/src/run.js:34` raises.
  The model returns `Failure(TiersMissing)`.
- Quantity-0 tiers stay eligible. They take part in selection, and the line gets nothing
  only when such a tier is the one selected (`LineDiscountFromBestTier`).
- Zero or negative percentages are not rejected. The statement at lines 34-39 discards
  its result, so it validates nothing.
- The strategy is always `First`.
- Matching is case-sensitive: "COD" does not match "Cash on Delivery", so that method
  stays visible below the threshold (`CaseSensitiveMatchKeepsMethod`).

## Model

| member | source | states |
|---|---|---|
| `QuantityBreaks.Run` | extensions/quantity-breaks/src/run.js:23-89 | With no tier list the evaluator fails. Otherwise it returns strategy `First` with exactly the discounts `Discounts(lines, tiers)`, which is `EMPTY_DISCOUNT` when there are none; the loop invariant keeps the pushed list equal to the discounts of the lines seen so far |
| `QuantityBreaks.EligibleTiers` | extensions/quantity-breaks/src/run.js:50 | The tiers the filter keeps, in configuration order: quantity reached (inclusive) and product in a collection; characterised by `SelectTierIsBest` and `SelectTierStep` |
| `QuantityBreaks.SortByQuantityDescending` | extensions/quantity-breaks/src/run.js:51 | The stable sort by descending quantity, by insertion; characterised by `SortIsDescending` and `SortIsPermutation` |
| `QuantityBreaks.SelectTier` | extensions/quantity-breaks/src/run.js:49-52 | Filter, sort and take the head; characterised by `SelectTierIsBest` as the first eligible tier of maximal quantity |
| `QuantityBreaks.DiscountMessage` | extensions/quantity-breaks/src/run.js:68 | The text `BUY <quantity> GET <percentage>% OFF` with both numbers rendered by `IntToString`; checked concretely by `SevenUnitsGetTheFiveUnitTier` |
| `QuantityBreaks.LineDiscount` | extensions/quantity-breaks/src/run.js:46-69 | The at-most-one discount of a line; characterised by `LineDiscountUsesBestTier`, `LineDiscountFromBestTier`, `NonVariantLineGetsNothing` and `NoEligibleTierGetsNothing` |
| `QuantityBreaks.Discounts` | extensions/quantity-breaks/src/run.js:41-72 | The discounts of all lines in cart order; the specification of `Run`'s loop, characterised by `DiscountsAt`, `DiscountsAtMostOnePerLine`, `DiscountsComeFromLines` and `DiscountsEmptyIff` |
| `Strings.IntToString` | extensions/quantity-breaks/src/run.js:65-68 | Decimal rendering with a leading `-` for negatives; characterised by `NatToString`'s contract, `IntToStringRoundTrip` and `IntToStringInjective` |
| `Strings.Includes` | extensions/invoice-payments/src/run.js:39 | The executable substring test; characterised by `IncludesIsContains` |
| `InvoicePayments.IsComplete` | extensions/invoice-payments/src/run.js:30 | The configured name is present and non-empty and the threshold is present; `Run` returns `NO_CHANGES` when it fails |
| `InvoicePayments.CartTotal` | extensions/invoice-payments/src/run.js:35 | The cart amount, or 0 when absent; `Run` compares it strictly below the threshold |
| `QuantityBreaks.InsertByQuantity` | extensions/quantity-breaks/src/run.js:51 | Inserting into the sorted list adds exactly that tier: the multiset grows by it, and no other element appears |
| `QuantityBreaks.InsertKeepsDescending` | extensions/quantity-breaks/src/run.js:51 | Inserting keeps a list sorted by descending quantity |
| `QuantityBreaks.SortIsDescending` | extensions/quantity-breaks/src/run.js:51 | The sort's output is ordered by descending quantity (every earlier tier has at least the quantity of every later one) |
| `QuantityBreaks.SortIsPermutation` | extensions/quantity-breaks/src/run.js:51 | The sort's output is a permutation of its input |
| `QuantityBreaks.SelectTierStep` | extensions/quantity-breaks/src/run.js:49-52 | One step of filter, sort and shift: a non-eligible first tier is skipped; an eligible one wins unless the rest's selection has a strictly larger quantity |
| `QuantityBreaks.SelectTierIsBest` | extensions/quantity-breaks/src/run.js:49-52 | A tier is selected exactly when some tier is eligible (quantity reached, inclusive, and product in a collection). The selected tier has the maximum quantity among eligible tiers, and every earlier eligible tier has a strictly smaller one: ties go to the earliest tier |
| `QuantityBreaks.BestTierIsUnique` | extensions/quantity-breaks/src/run.js:49-52 | The first eligible tier of maximal quantity is unique, so selection is deterministic |
| `QuantityBreaks.NonVariantLineGetsNothing` | extensions/quantity-breaks/src/run.js:46-48 | A line whose merchandise is not a product variant gets no discount |
| `QuantityBreaks.LineDiscountUsesBestTier` | extensions/quantity-breaks/src/run.js:49-69 | A line gets a discount only if it is a product variant in a collection. The discount comes from the line's best tier, whose quantity is non-zero and at most the line's quantity. It targets exactly that variant, its percentage text reads back as the tier's percentage, and its message is exactly `BUY q GET p% OFF` |
| `QuantityBreaks.LineDiscountFromBestTier` | extensions/quantity-breaks/src/run.js:54-69 | For a product-variant line, a best tier with quantity 0 yields no discount. Any other best tier yields exactly the discount built from it |
| `QuantityBreaks.NoEligibleTierGetsNothing` | extensions/quantity-breaks/src/run.js:50-54 | A line that no tier is eligible for gets no discount |
| `QuantityBreaks.DiscountsAt` | extensions/quantity-breaks/src/run.js:45-72 | The cart's discounts are those of the lines before line i, then line i's discount if any, then those of the lines after it: cart order, at most one per line |
| `QuantityBreaks.NonVariantLineContributesNothing` | extensions/quantity-breaks/src/run.js:45-48 | A non-variant line adds nothing to the cart's discounts |
| `QuantityBreaks.DiscountsAtMostOnePerLine` | extensions/quantity-breaks/src/run.js:45-72 | There are never more discounts than cart lines |
| `QuantityBreaks.DiscountsComeFromLines` | extensions/quantity-breaks/src/run.js:45-72 | Every discount in the result is the discount of some cart line |
| `QuantityBreaks.DiscountsEmptyIff` | extensions/quantity-breaks/src/run.js:78-81 | The discount list is empty exactly when no line qualifies, which is when `Run` returns `EMPTY_DISCOUNT` |
| `QuantityBreaks.SevenUnitsGetTheFiveUnitTier` | extensions/quantity-breaks/src/run.js:49-69 | With tiers 2/10, 5/20 and 10/30, a line of 7 units gets 20 percent with message `BUY 5 GET 20% OFF` |
| `QuantityBreaks.BelowTheOnlyTierGetsNothing` | extensions/quantity-breaks/src/run.js:50-54 | With one tier at 2 units, a line of 1 unit gets nothing |
| `Strings.NatToString` | extensions/quantity-breaks/src/run.js:65-68 | The rendering of a whole number is non-empty, holds only decimal digits and has no leading zero unless it is the single digit `0` (as `toString` prints integers); with the round trip below this fixes the exact text |
| `Strings.IntToStringRoundTrip` | extensions/quantity-breaks/src/run.js:65-68 | Reading back a rendered integer gives that integer |
| `Strings.IntToStringInjective` | extensions/quantity-breaks/src/run.js:65-68 | Different integers render differently |
| `InvoicePayments.Run` | extensions/invoice-payments/src/run.js:19-57 | At most one operation. A missing or empty name, or a missing threshold, gives `NO_CHANGES`. A total at or above the threshold gives `NO_CHANGES` |
| `Seqs.FirstIndex` | extensions/invoice-payments/src/run.js:38-39 | The index found satisfies the predicate and no earlier element does; none is found exactly when no element satisfies it |
| `Strings.IncludesIsContains` | extensions/invoice-payments/src/run.js:39 | The executable substring test holds exactly when the string occurs, character for character, at some position |
| `Strings.MissingCharacterExcludes` | extensions/invoice-payments/src/run.js:39 | A string that lacks one of the pattern's characters does not contain the pattern |
| `InvoicePayments.IncludesAgreesOnMethods` | extensions/invoice-payments/src/run.js:39 | The matching test on each payment method is plain substring containment on its name |
| `InvoicePayments.RunHidesFirstMatch` | extensions/invoice-payments/src/run.js:37-52 | Below the threshold, with a complete configuration, the result is one `hide` whose id is the first method whose name contains the string |
| `InvoicePayments.RunWithoutMatchChangesNothing` | extensions/invoice-payments/src/run.js:41-44 | With a complete configuration and no name containing the string, the result is `NO_CHANGES` |
| `InvoicePayments.RunHideIsFirstMatch` | extensions/invoice-payments/src/run.js:30-52 | Whenever something is hidden, the configuration is complete and the total is below the threshold. The result is then a single `hide` of the first matching method |
| `InvoicePayments.CaseSensitiveMatchKeepsMethod` | extensions/invoice-payments/src/run.js:37-44 | "COD" is not found in "Cash on Delivery", so an order below the threshold changes nothing |
| `InvoicePayments.MatchingMethodIsHidden` | extensions/invoice-payments/src/run.js:37-52 | "Cash" is found in "Cash on Delivery", so an order of 40 under a threshold of 50 hides method 1 |

## Left out

- JSON parsing of the metafields (quantity-breaks lines 31-33, invoice-payments lines 27-29): the model takes the already-parsed configuration, with absent fields as `None`.
- `parseFloat` of the cart amount and JavaScript number semantics (NaN, rounding): totals and thresholds are `real`. A missing amount reads as 0, as with `?? "0.0"`.
- Fractional percentages and quantities: tiers hold integers, and rendering covers integers only (the digits JavaScript prints for integers below 10^21). The discount's percentage is kept as the rendered text the host receives.
- Tiers whose fields are `null` or missing, which the typed model cannot express. The admin form saves each tier with `parseInt`/`parseFloat` (`app/routes/app.volume-discount.$functionId.new.jsx:231-238`), so a cleared field is stored as `null`. The source then behaves as follows:
  - A `null` tier quantity does not raise. `line.quantity >= null` holds (line 50), the sort compares it as 0 (line 51), and `null != 0` holds (line 55). When that tier is the one selected, which needs it to come first among the eligible tiers of the highest quantity, treating `null` as 0 (so no eligible tier may have a positive quantity), the line is discounted with the message `BUY null GET p% OFF`.
  - A `null` or missing percentage raises only when that tier is the one applied, at `percentage.toString()` (line 65).
  - A tier that is itself `null` raises at the `tier.quantity` read on line 35.
- The discarded `tiers.map` at quantity-breaks lines 34-39: it has no effect apart from requiring the tier list, which `Failure(TiersMissing)` models.
- `console.log` and `console.error` diagnostics, and the generated API types (`DiscountApplicationStrategy` is a local datatype).
- The admin UI routes under `app/routes/`, which are form and authentication plumbing. They are not part of this model.
