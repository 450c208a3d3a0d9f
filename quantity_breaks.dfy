/** The quantity-breaks discount function: every cart line whose merchandise is a
    product variant gets the percentage of the highest tier its quantity reaches,
    provided the line's product is in one of the configured collections. */
module QuantityBreaks {
  import opened Wrappers
  import opened Strings
  import opened Seqs

  /** One volume breakpoint: buy at least `quantity`, get `percentage` percent off. */
  datatype Tier = Tier(quantity: int, percentage: int)

  /** The parsed metafield; `tiers` is absent when the metafield is (it parses as `{}`). */
  datatype Configuration = Configuration(tiers: Option<seq<Tier>>)

  /** What a cart line sells; only product variants carry an id and collection membership. */
  datatype Merchandise =
    | ProductVariant(id: string, inAnyCollection: bool)
    | OtherMerchandise

  datatype CartLine = CartLine(quantity: int, merchandise: Merchandise)

  datatype Target = ProductVariantTarget(id: string)

  /** A discount operation; `percentage` is the rendered number, as the host receives it. */
  datatype Discount = Discount(targets: seq<Target>, percentage: string, message: string)

  datatype DiscountApplicationStrategy = First | Maximum

  datatype FunctionRunResult =
    FunctionRunResult(discountApplicationStrategy: DiscountApplicationStrategy, discounts: seq<Discount>)

  /** The evaluator raises when the configuration has no tier list. */
  datatype RunError = TiersMissing

  const EMPTY_DISCOUNT := FunctionRunResult(First, [])

  /** The filter condition: the line reaches the tier and its product is in a collection. */
  predicate Eligible(lineQuantity: int, inAnyCollection: bool, t: Tier) {
    lineQuantity >= t.quantity && inAnyCollection
  }

  /** The tiers that pass the filter, in configuration order. */
  function EligibleTiers(tiers: seq<Tier>, lineQuantity: int, inAnyCollection: bool): (r: seq<Tier>)
    decreases |tiers|
  {
    if |tiers| == 0 then []
    else
      (if Eligible(lineQuantity, inAnyCollection, tiers[0]) then [tiers[0]] else [])
      + EligibleTiers(tiers[1..], lineQuantity, inAnyCollection)
  }

  /** Inserts `t` into a list sorted by descending quantity, ahead of every tier
      whose quantity does not exceed its own (so `t`, which came first, stays first
      among equals: the sort is stable). */
  function InsertByQuantity(t: Tier, sorted: seq<Tier>): (r: seq<Tier>)
    ensures multiset(r) == multiset(sorted) + multiset{t}
    ensures forall x :: x in r ==> x == t || x in sorted
    decreases |sorted|
  {
    if |sorted| == 0 || t.quantity >= sorted[0].quantity then [t] + sorted
    else
      assert sorted == [sorted[0]] + sorted[1..];
      [sorted[0]] + InsertByQuantity(t, sorted[1..])
  }

  /** The stable sort by descending quantity (comparator `b.quantity - a.quantity`). */
  function SortByQuantityDescending(s: seq<Tier>): (r: seq<Tier>)
    decreases |s|
  {
    if |s| == 0 then [] else InsertByQuantity(s[0], SortByQuantityDescending(s[1..]))
  }

  /** The tier applied to a line: filter, sort, then take the head. */
  function SelectTier(tiers: seq<Tier>, lineQuantity: int, inAnyCollection: bool): (r: Option<Tier>) {
    var sorted := SortByQuantityDescending(EligibleTiers(tiers, lineQuantity, inAnyCollection));
    if |sorted| == 0 then None else Some(sorted[0])
  }

  ghost predicate Descending(s: seq<Tier>) {
    forall i, j :: 0 <= i < j < |s| ==> s[i].quantity >= s[j].quantity
  }

  lemma {:induction false} InsertKeepsDescending(t: Tier, sorted: seq<Tier>)
    requires Descending(sorted)
    ensures Descending(InsertByQuantity(t, sorted))
    decreases |sorted|
  {
    if |sorted| != 0 && t.quantity < sorted[0].quantity {
      var rest := InsertByQuantity(t, sorted[1..]);
      InsertKeepsDescending(t, sorted[1..]);
      forall x | x in rest ensures x.quantity <= sorted[0].quantity {
        if x != t {
          var k :| 0 <= k < |sorted[1..]| && sorted[1..][k] == x;
          assert sorted[k + 1] == x;
        }
      }
      var r := [sorted[0]] + rest;
      forall i, j | 0 <= i < j < |r| ensures r[i].quantity >= r[j].quantity {
        if i == 0 {
          assert r[j] in rest;
        } else {
          assert r[i] == rest[i - 1] && r[j] == rest[j - 1];
        }
      }
    }
  }

  /** The sort's output is ordered by descending quantity. */
  lemma {:induction false} SortIsDescending(s: seq<Tier>)
    ensures Descending(SortByQuantityDescending(s))
    decreases |s|
  {
    if |s| != 0 {
      SortIsDescending(s[1..]);
      InsertKeepsDescending(s[0], SortByQuantityDescending(s[1..]));
    }
  }

  /** The sort's output holds exactly the tiers it was given. */
  lemma {:induction false} SortIsPermutation(s: seq<Tier>)
    ensures multiset(SortByQuantityDescending(s)) == multiset(s)
    decreases |s|
  {
    if |s| != 0 {
      SortIsPermutation(s[1..]);
      assert s == [s[0]] + s[1..];
    }
  }

  /** Tier `i` is eligible, no eligible tier has a larger quantity, and every
      eligible tier before it has a strictly smaller one: it is the first
      eligible tier of maximal quantity. */
  ghost predicate IsBestTier(tiers: seq<Tier>, lineQuantity: int, inAnyCollection: bool, i: int) {
    0 <= i < |tiers| && Eligible(lineQuantity, inAnyCollection, tiers[i]) &&
    (forall j :: 0 <= j < |tiers| && Eligible(lineQuantity, inAnyCollection, tiers[j]) ==>
       tiers[j].quantity <= tiers[i].quantity) &&
    (forall j :: 0 <= j < i && Eligible(lineQuantity, inAnyCollection, tiers[j]) ==>
       tiers[j].quantity < tiers[i].quantity)
  }

  /** At most one index is the best tier. */
  lemma BestTierIsUnique(tiers: seq<Tier>, lineQuantity: int, inAnyCollection: bool, i: int, k: int)
    requires IsBestTier(tiers, lineQuantity, inAnyCollection, i)
    requires IsBestTier(tiers, lineQuantity, inAnyCollection, k)
    ensures i == k
  {
  }

  /** One step of the filter-sort-head chain: the first tier, when eligible, is
      inserted ahead of the rest's selection unless that has a larger quantity. */
  lemma SelectTierStep(tiers: seq<Tier>, lineQuantity: int, inAnyCollection: bool)
    requires |tiers| != 0
    ensures !Eligible(lineQuantity, inAnyCollection, tiers[0]) ==>
      SelectTier(tiers, lineQuantity, inAnyCollection) == SelectTier(tiers[1..], lineQuantity, inAnyCollection)
    ensures Eligible(lineQuantity, inAnyCollection, tiers[0]) ==>
      SelectTier(tiers, lineQuantity, inAnyCollection) ==
        match SelectTier(tiers[1..], lineQuantity, inAnyCollection)
        case None => Some(tiers[0])
        case Some(t) => if tiers[0].quantity >= t.quantity then Some(tiers[0]) else Some(t)
  {
    var restEligible := EligibleTiers(tiers[1..], lineQuantity, inAnyCollection);
    if Eligible(lineQuantity, inAnyCollection, tiers[0]) {
      var filtered := [tiers[0]] + restEligible;
      assert EligibleTiers(tiers, lineQuantity, inAnyCollection) == filtered;
      assert filtered[0] == tiers[0] && filtered[1..] == restEligible;
      assert SortByQuantityDescending(filtered) ==
             InsertByQuantity(tiers[0], SortByQuantityDescending(restEligible));
    } else {
      assert EligibleTiers(tiers, lineQuantity, inAnyCollection) == restEligible;
    }
  }

  /** The best tier of the rest is the best tier of the whole list unless the
      first tier is eligible with at least its quantity. */
  lemma BestTierOfRest(tiers: seq<Tier>, lineQuantity: int, inAnyCollection: bool, i: int)
    requires |tiers| != 0
    requires IsBestTier(tiers[1..], lineQuantity, inAnyCollection, i)
    requires Eligible(lineQuantity, inAnyCollection, tiers[0]) ==> tiers[0].quantity < tiers[i + 1].quantity
    ensures IsBestTier(tiers, lineQuantity, inAnyCollection, i + 1)
  {
  }

  /** An eligible first tier that no eligible tier exceeds is the best tier. */
  lemma BestTierIsHead(tiers: seq<Tier>, lineQuantity: int, inAnyCollection: bool)
    requires |tiers| != 0 && Eligible(lineQuantity, inAnyCollection, tiers[0])
    requires forall j :: 0 <= j < |tiers| - 1 && Eligible(lineQuantity, inAnyCollection, tiers[1..][j]) ==>
               tiers[1..][j].quantity <= tiers[0].quantity
    ensures IsBestTier(tiers, lineQuantity, inAnyCollection, 0)
  {
    assert forall j :: 1 <= j < |tiers| ==> tiers[j] == tiers[1..][j - 1];
  }

  /** Filter, sort and head select a tier exactly when some tier is eligible,
      and the tier selected is the first eligible one of maximal quantity. */
  lemma {:induction false} SelectTierIsBest(tiers: seq<Tier>, lineQuantity: int, inAnyCollection: bool)
    ensures SelectTier(tiers, lineQuantity, inAnyCollection).Some? <==>
            exists j :: 0 <= j < |tiers| && Eligible(lineQuantity, inAnyCollection, tiers[j])
    ensures SelectTier(tiers, lineQuantity, inAnyCollection).Some? ==>
            exists i :: IsBestTier(tiers, lineQuantity, inAnyCollection, i) &&
                        SelectTier(tiers, lineQuantity, inAnyCollection).value == tiers[i]
    decreases |tiers|
  {
    if |tiers| != 0 {
      var rest := tiers[1..];
      SelectTierIsBest(rest, lineQuantity, inAnyCollection);
      SelectTierStep(tiers, lineQuantity, inAnyCollection);
      assert forall j :: 1 <= j < |tiers| ==> tiers[j] == rest[j - 1];
      var eligible0 := Eligible(lineQuantity, inAnyCollection, tiers[0]);
      match SelectTier(rest, lineQuantity, inAnyCollection)
      case None =>
        if eligible0 {
          BestTierIsHead(tiers, lineQuantity, inAnyCollection);
        }
      case Some(t) =>
        var i :| IsBestTier(rest, lineQuantity, inAnyCollection, i) && t == rest[i];
        if eligible0 && tiers[0].quantity >= t.quantity {
          BestTierIsHead(tiers, lineQuantity, inAnyCollection);
        } else {
          BestTierOfRest(tiers, lineQuantity, inAnyCollection, i);
        }
    }
  }

  /** The message shown at checkout for a tier. */
  function DiscountMessage(t: Tier): (message: string) {
    "BUY " + IntToString(t.quantity) + " GET " + IntToString(t.percentage) + "% OFF"
  }

  /** The discount one cart line contributes, if any. */
  function LineDiscount(line: CartLine, tiers: seq<Tier>): (r: Option<Discount>) {
    match line.merchandise
    case OtherMerchandise => None
    case ProductVariant(id, inAnyCollection) =>
      match SelectTier(tiers, line.quantity, inAnyCollection)
      case None => None
      case Some(t) =>
        if t.quantity != 0 then
          Some(Discount([ProductVariantTarget(id)], IntToString(t.percentage), DiscountMessage(t)))
        else None
  }

  /** A line that is not a product variant never gets a discount. */
  lemma NonVariantLineGetsNothing(line: CartLine, tiers: seq<Tier>)
    requires !line.merchandise.ProductVariant?
    ensures LineDiscount(line, tiers) == None
  {
  }

  /** A discount, when a line gets one, targets exactly that line's variant,
      comes from the line's best tier (whose quantity the line reaches and is not
      zero), carries that tier's percentage and says "BUY q GET p% OFF". */
  lemma LineDiscountUsesBestTier(line: CartLine, tiers: seq<Tier>)
    requires LineDiscount(line, tiers).Some?
    ensures line.merchandise.ProductVariant? && line.merchandise.inAnyCollection
    ensures exists i ::
      && IsBestTier(tiers, line.quantity, true, i)
      && tiers[i].quantity != 0 && tiers[i].quantity <= line.quantity
      && LineDiscount(line, tiers).value.targets == [ProductVariantTarget(line.merchandise.id)]
      && ParseInt(LineDiscount(line, tiers).value.percentage) == tiers[i].percentage
      && LineDiscount(line, tiers).value.message ==
           "BUY " + IntToString(tiers[i].quantity) + " GET " + IntToString(tiers[i].percentage) + "% OFF"
  {
    var inAnyCollection := line.merchandise.inAnyCollection;
    SelectTierIsBest(tiers, line.quantity, inAnyCollection);
    var i :| IsBestTier(tiers, line.quantity, inAnyCollection, i) &&
             SelectTier(tiers, line.quantity, inAnyCollection).value == tiers[i];
    IntToStringRoundTrip(tiers[i].percentage);
    assert IsBestTier(tiers, line.quantity, true, i);
  }

  /** For a product-variant line, the best tier decides: a discount from it when
      its quantity is not zero, no discount at all when it is zero. */
  lemma LineDiscountFromBestTier(line: CartLine, tiers: seq<Tier>, i: int)
    requires line.merchandise.ProductVariant?
    requires IsBestTier(tiers, line.quantity, line.merchandise.inAnyCollection, i)
    ensures tiers[i].quantity == 0 ==> LineDiscount(line, tiers) == None
    ensures tiers[i].quantity != 0 ==>
      LineDiscount(line, tiers) == Some(Discount([ProductVariantTarget(line.merchandise.id)],
                                                 IntToString(tiers[i].percentage),
                                                 DiscountMessage(tiers[i])))
  {
    var inAnyCollection := line.merchandise.inAnyCollection;
    SelectTierIsBest(tiers, line.quantity, inAnyCollection);
    var k :| IsBestTier(tiers, line.quantity, inAnyCollection, k) &&
             SelectTier(tiers, line.quantity, inAnyCollection).value == tiers[k];
    BestTierIsUnique(tiers, line.quantity, inAnyCollection, i, k);
  }

  /** A line no tier is eligible for gets no discount. */
  lemma NoEligibleTierGetsNothing(line: CartLine, tiers: seq<Tier>)
    requires line.merchandise.ProductVariant?
    requires forall j :: 0 <= j < |tiers| ==> !Eligible(line.quantity, line.merchandise.inAnyCollection, tiers[j])
    ensures LineDiscount(line, tiers) == None
  {
    SelectTierIsBest(tiers, line.quantity, line.merchandise.inAnyCollection);
  }

  /** The per-line evaluation, as a function of the line. */
  function LineDiscountFor(tiers: seq<Tier>): (f: CartLine -> Option<Discount>) {
    line => LineDiscount(line, tiers)
  }

  /** The discounts of a cart, line by line in cart order. */
  function Discounts(lines: seq<CartLine>, tiers: seq<Tier>): (r: seq<Discount>) {
    FilterMap(lines, LineDiscountFor(tiers))
  }

  /** Line `i`'s discount, if any, sits after those of the lines before it and
      before those of the lines after it: discounts follow cart order. */
  lemma DiscountsAt(lines: seq<CartLine>, tiers: seq<Tier>, i: int)
    requires 0 <= i < |lines|
    ensures Discounts(lines, tiers) ==
      Discounts(lines[..i], tiers) + LineDiscount(lines[i], tiers).ToSeq() + Discounts(lines[i + 1..], tiers)
  {
    FilterMapAt(lines, LineDiscountFor(tiers), i);
  }

  /** A line that is not a product variant adds nothing to the cart's discounts. */
  lemma NonVariantLineContributesNothing(lines: seq<CartLine>, tiers: seq<Tier>, i: int)
    requires 0 <= i < |lines| && !lines[i].merchandise.ProductVariant?
    ensures Discounts(lines, tiers) == Discounts(lines[..i], tiers) + Discounts(lines[i + 1..], tiers)
  {
    DiscountsAt(lines, tiers, i);
  }

  /** Each line contributes at most one discount. */
  lemma DiscountsAtMostOnePerLine(lines: seq<CartLine>, tiers: seq<Tier>)
    ensures |Discounts(lines, tiers)| <= |lines|
  {
    FilterMapLength(lines, LineDiscountFor(tiers));
  }

  /** Every discount is the discount of some line of the cart. */
  lemma DiscountsComeFromLines(lines: seq<CartLine>, tiers: seq<Tier>, k: int)
    requires 0 <= k < |Discounts(lines, tiers)|
    ensures exists i :: 0 <= i < |lines| && LineDiscount(lines[i], tiers) == Some(Discounts(lines, tiers)[k])
  {
    FilterMapFrom(lines, LineDiscountFor(tiers), k);
  }

  /** The cart gets no discount exactly when none of its lines does. */
  lemma DiscountsEmptyIff(lines: seq<CartLine>, tiers: seq<Tier>)
    ensures Discounts(lines, tiers) == [] <==>
            forall i :: 0 <= i < |lines| ==> LineDiscount(lines[i], tiers) == None
  {
    FilterMapEmpty(lines, LineDiscountFor(tiers));
  }

  /** The evaluator: a discount per qualifying line, pushed in cart order; the
      canonical empty result when no line qualifies; a failure when the
      configuration has no tier list. */
  method Run(configuration: Configuration, lines: seq<CartLine>) returns (r: Result<FunctionRunResult, RunError>)
    ensures configuration.tiers.None? ==> r == Failure(TiersMissing)
    ensures configuration.tiers.Some? ==>
      r == Success(FunctionRunResult(First, Discounts(lines, configuration.tiers.value)))
  {
    if configuration.tiers.None? {
      return Failure(TiersMissing);
    }
    var tiers := configuration.tiers.value;
    var discountsToApply: seq<Discount> := [];
    var i := 0;
    while i < |lines|
      invariant 0 <= i <= |lines|
      invariant discountsToApply == Discounts(lines[..i], tiers)
    {
      var line := lines[i];
      assert lines[..i + 1][..i] == lines[..i];
      assert Discounts(lines[..i + 1], tiers) == discountsToApply + LineDiscount(line, tiers).ToSeq();
      match line.merchandise {
        case OtherMerchandise =>
        case ProductVariant(id, inAnyCollection) =>
          var applicableDiscount := SelectTier(tiers, line.quantity, inAnyCollection);
          if applicableDiscount.Some? && applicableDiscount.value.quantity != 0 {
            var t := applicableDiscount.value;
            discountsToApply := discountsToApply +
              [Discount([ProductVariantTarget(id)], IntToString(t.percentage), DiscountMessage(t))];
          }
      }
      i := i + 1;
    }
    assert lines[..|lines|] == lines;
    if |discountsToApply| == 0 {
      return Success(EMPTY_DISCOUNT);
    }
    return Success(FunctionRunResult(First, discountsToApply));
  }

  /** Tiers 2/10%, 5/20% and 10/30% with a line of 7 units: the 5-unit tier
      applies and the message reads "BUY 5 GET 20% OFF". */
  lemma SevenUnitsGetTheFiveUnitTier()
    ensures LineDiscount(CartLine(7, ProductVariant("v1", true)), [Tier(2, 10), Tier(5, 20), Tier(10, 30)]) ==
            Some(Discount([ProductVariantTarget("v1")], "20", "BUY 5 GET 20% OFF"))
  {
    var tiers := [Tier(2, 10), Tier(5, 20), Tier(10, 30)];
    assert IsBestTier(tiers, 7, true, 1);
    assert IntToString(5) == "5";
    assert NatToString(2) == "2";
    assert IntToString(20) == "20";
    assert DiscountMessage(tiers[1]) == "BUY 5 GET 20% OFF";
    LineDiscountFromBestTier(CartLine(7, ProductVariant("v1", true)), tiers, 1);
    assert LineDiscount(CartLine(7, ProductVariant("v1", true)), tiers) ==
      Some(Discount([ProductVariantTarget("v1")], IntToString(tiers[1].percentage), DiscountMessage(tiers[1])));
  }

  /** A line below the only tier gets nothing. */
  lemma BelowTheOnlyTierGetsNothing()
    ensures LineDiscount(CartLine(1, ProductVariant("v1", true)), [Tier(2, 10)]) == None
  {
  }
}
