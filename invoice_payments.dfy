/** The invoice-payments customization: below a configured cart total, hide the
    first payment method whose name contains a configured string. */
module InvoicePayments {
  import opened Wrappers
  import opened Strings
  import opened Seqs

  /** The parsed metafield; each field is absent when the metafield lacks it. */
  datatype Configuration = Configuration(paymentMethodName: Option<string>, cartTotal: Option<real>)

  datatype PaymentMethod = PaymentMethod(id: string, name: string)

  datatype Operation = Hide(paymentMethodId: string)

  datatype FunctionRunResult = FunctionRunResult(operations: seq<Operation>)

  const NO_CHANGES := FunctionRunResult([])

  /** A name that is present and not empty (JavaScript truthiness of a string)
      and a threshold that is present (not null or undefined). */
  predicate IsComplete(configuration: Configuration) {
    && configuration.paymentMethodName.Some?
    && configuration.paymentMethodName.value != ""
    && configuration.cartTotal.Some?
  }

  /** The cart total, with a missing amount read as zero. */
  function CartTotal(amount: Option<real>): (total: real) {
    amount.GetOr(0.0)
  }

  /** The matching test applied to each payment method. */
  function NameIncludes(pattern: string): (matches: PaymentMethod -> bool) {
    (m: PaymentMethod) => Includes(m.name, pattern)
  }

  /** Method `i` is the first one whose name contains `pattern`. */
  ghost predicate IsFirstMatch(methods: seq<PaymentMethod>, pattern: string, i: int) {
    0 <= i < |methods| && Contains(methods[i].name, pattern) &&
    forall j :: 0 <= j < i ==> !Contains(methods[j].name, pattern)
  }

  /** The evaluator. */
  function Run(configuration: Configuration, amount: Option<real>, methods: seq<PaymentMethod>): (r: FunctionRunResult)
    ensures |r.operations| <= 1
    ensures !IsComplete(configuration) ==> r == NO_CHANGES
    ensures IsComplete(configuration) && CartTotal(amount) >= configuration.cartTotal.value ==> r == NO_CHANGES
  {
    if !IsComplete(configuration) then NO_CHANGES
    else if CartTotal(amount) < configuration.cartTotal.value then
      match FirstIndex(methods, NameIncludes(configuration.paymentMethodName.value))
      case None => NO_CHANGES
      case Some(i) => FunctionRunResult([Hide(methods[i].id)])
    else NO_CHANGES
  }

  lemma IncludesAgreesOnMethods(methods: seq<PaymentMethod>, pattern: string)
    ensures forall j :: 0 <= j < |methods| ==> (NameIncludes(pattern)(methods[j]) <==> Contains(methods[j].name, pattern))
  {
    forall j | 0 <= j < |methods| ensures NameIncludes(pattern)(methods[j]) <==> Contains(methods[j].name, pattern) {
      IncludesIsContains(methods[j].name, pattern);
    }
  }

  /** Below the threshold, the first method whose name contains the configured
      string, and only it, is hidden. */
  lemma RunHidesFirstMatch(configuration: Configuration, amount: Option<real>, methods: seq<PaymentMethod>, i: int)
    requires IsComplete(configuration) && CartTotal(amount) < configuration.cartTotal.value
    requires IsFirstMatch(methods, configuration.paymentMethodName.value, i)
    ensures Run(configuration, amount, methods) == FunctionRunResult([Hide(methods[i].id)])
  {
    IncludesAgreesOnMethods(methods, configuration.paymentMethodName.value);
  }

  /** Below the threshold, when no method name contains the configured string,
      nothing is hidden. */
  lemma RunWithoutMatchChangesNothing(configuration: Configuration, amount: Option<real>, methods: seq<PaymentMethod>)
    requires IsComplete(configuration)
    requires forall j :: 0 <= j < |methods| ==> !Contains(methods[j].name, configuration.paymentMethodName.value)
    ensures Run(configuration, amount, methods) == NO_CHANGES
  {
    IncludesAgreesOnMethods(methods, configuration.paymentMethodName.value);
  }

  /** Whenever something is hidden, the configuration is complete, the total is
      below the threshold and the hidden method is the first match. */
  lemma RunHideIsFirstMatch(configuration: Configuration, amount: Option<real>, methods: seq<PaymentMethod>)
    requires Run(configuration, amount, methods).operations != []
    ensures IsComplete(configuration) && CartTotal(amount) < configuration.cartTotal.value
    ensures exists i :: IsFirstMatch(methods, configuration.paymentMethodName.value, i) &&
                        Run(configuration, amount, methods).operations == [Hide(methods[i].id)]
  {
    var pattern := configuration.paymentMethodName.value;
    IncludesAgreesOnMethods(methods, pattern);
    var i := FirstIndex(methods, NameIncludes(pattern)).value;
    assert IsFirstMatch(methods, pattern, i);
  }

  /** Matching is case-sensitive: "COD" is not found in "Cash on Delivery",
      so that method stays visible even below the threshold. */
  lemma CaseSensitiveMatchKeepsMethod()
    ensures Run(Configuration(Some("COD"), Some(50.0)), Some(40.0),
                [PaymentMethod("1", "Cash on Delivery")]) == NO_CHANGES
  {
    MissingCharacterExcludes("Cash on Delivery", "COD", 1);
    RunWithoutMatchChangesNothing(Configuration(Some("COD"), Some(50.0)), Some(40.0),
                                  [PaymentMethod("1", "Cash on Delivery")]);
  }

  /** Below the threshold a method whose name holds the string is hidden. */
  lemma MatchingMethodIsHidden()
    ensures Run(Configuration(Some("Cash"), Some(50.0)), Some(40.0),
                [PaymentMethod("1", "Cash on Delivery")]) == FunctionRunResult([Hide("1")])
  {
    var name := "Cash on Delivery";
    assert OccursAt(name, "Cash", 0);
    RunHidesFirstMatch(Configuration(Some("Cash"), Some(50.0)), Some(40.0), [PaymentMethod("1", name)], 0);
  }
}
