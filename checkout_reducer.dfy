/** The checkout slice: country and state lists for the address forms, the
    credit-card month list, and the payment, order and Stripe flags. */
module CheckoutReducer {
  import opened Js

  /** Country and state records come from `common/models/country` and
      `common/models/state`, which are not part of this model; the reducer
      only stores them, so they are kept as plain values here. */
  datatype Country = Country(code: string, name: string)
  datatype Region = Region(name: string)

  datatype AddressType = Shipping | Billing

  datatype CheckoutState = CheckoutState(
    countries: seq<Country>,
    shippingAddressStates: seq<Region>,
    billingAddressStates: seq<Region>,
    creditCardMonths: seq<int>,
    creditCardYears: seq<int>,
    isProcessingPayment: bool,
    paymentError: Option<string>,
    clientSecret: Option<string>,
    isStripeInitialized: bool,
    stripeError: Option<string>,
    loading: bool,
    error: Option<string>)

  const InitialCheckoutState: CheckoutState :=
    CheckoutState([], [], [], [], [], false, None, None, false, None, false, None)

  /** The checkout actions; the payloads of loadStates, loadCreditCardMonths,
      createPaymentIntent, placeOrder and placeOrderSuccess are not read by
      the reducer and are kept only where they name something. */
  datatype Action =
    | LoadCountries
    | LoadCountriesSuccess(countries: seq<Country>)
    | LoadCountriesFailure(error: string)
    | LoadStates(countryCode: string, addressType: AddressType)
    | LoadStatesSuccess(states: seq<Region>, addressType: AddressType)
    | LoadStatesFailure(error: string)
    | LoadCreditCardMonths(startMonth: int)
    | LoadCreditCardMonthsSuccess(months: seq<int>)
    | CreatePaymentIntent
    | CreatePaymentIntentSuccess(clientSecret: string)
    | CreatePaymentIntentFailure(error: string)
    | PlaceOrder
    | PlaceOrderSuccess(orderTrackingNumber: string)
    | PlaceOrderFailure(error: string)
    | ResetCheckout
    | SetPaymentProcessing(isProcessing: bool)
    | ClearCheckoutError
    | ClearPaymentError
    | InitializeStripe
    | InitializeStripeSuccess
    | InitializeStripeFailure(error: string)
    | SetStripeError(error: string)
    | ClearStripeError

  /** checkoutReducer. */
  function Reduce(s: CheckoutState, a: Action): CheckoutState
  {
    match a
    case LoadCountries => s.(loading := true)
    case LoadCountriesSuccess(countries) => s.(countries := countries, loading := false)
    case LoadCountriesFailure(e) => s.(loading := false, error := Some(e))
    case LoadStates(_, _) => s.(loading := true)
    case LoadStatesSuccess(states, addressType) =>
      if addressType == Shipping then s.(shippingAddressStates := states, loading := false)
      else s.(billingAddressStates := states, loading := false)
    case LoadStatesFailure(e) => s.(loading := false, error := Some(e))
    case LoadCreditCardMonths(_) => s
    case LoadCreditCardMonthsSuccess(months) => s.(creditCardMonths := months)
    case CreatePaymentIntent => s.(isProcessingPayment := true, paymentError := None)
    case CreatePaymentIntentSuccess(secret) =>
      s.(isProcessingPayment := false, paymentError := None, clientSecret := Some(secret))
    case CreatePaymentIntentFailure(e) => s.(isProcessingPayment := false, paymentError := Some(e))
    case PlaceOrder => s.(isProcessingPayment := true, paymentError := None)
    case PlaceOrderSuccess(_) => s.(isProcessingPayment := false, paymentError := None)
    case PlaceOrderFailure(e) => s.(isProcessingPayment := false, paymentError := Some(e))
    case ResetCheckout => InitialCheckoutState
    case SetPaymentProcessing(p) => s.(isProcessingPayment := p)
    case ClearCheckoutError => s.(error := None)
    case ClearPaymentError => s.(paymentError := None)
    case InitializeStripe => s.(loading := true, stripeError := None)
    case InitializeStripeSuccess => s.(loading := false, isStripeInitialized := true, stripeError := None)
    case InitializeStripeFailure(e) => s.(loading := false, isStripeInitialized := false, stripeError := Some(e))
    case SetStripeError(e) => s.(stripeError := Some(e))
    case ClearStripeError => s.(stripeError := None)
  }

  /** loadStatesSuccess writes only the list named by the address type. */
  lemma StatesGoToTheirAddress(s: CheckoutState, states: seq<Region>, t: AddressType)
    ensures var r := Reduce(s, LoadStatesSuccess(states, t));
            && (t == Shipping ==> r == s.(shippingAddressStates := states, loading := false))
            && (t == Billing ==> r == s.(billingAddressStates := states, loading := false))
            && (t == Shipping ==> r.billingAddressStates == s.billingAddressStates)
            && (t == Billing ==> r.shippingAddressStates == s.shippingAddressStates)
  {
  }

  /** resetCheckout forgets everything. */
  lemma ResetIsInitial(s: CheckoutState, t: CheckoutState)
    ensures Reduce(s, ResetCheckout) == Reduce(t, ResetCheckout) == InitialCheckoutState
    ensures Reduce(s, ResetCheckout).countries == [] && !Reduce(s, ResetCheckout).isProcessingPayment
  {
  }

  /** Starting a payment intent or an order marks the payment as in progress
      and clears the payment error. */
  lemma PaymentStarts(s: CheckoutState, a: Action)
    requires a.CreatePaymentIntent? || a.PlaceOrder?
    ensures Reduce(s, a) == s.(isProcessingPayment := true, paymentError := None)
  {
  }

  /** Each payment-intent or order outcome ends processing; a failure records
      its error and a success clears it. */
  lemma PaymentEnds(s: CheckoutState, a: Action)
    requires a.CreatePaymentIntentSuccess? || a.CreatePaymentIntentFailure?
          || a.PlaceOrderSuccess? || a.PlaceOrderFailure?
    ensures var r := Reduce(s, a);
            && !r.isProcessingPayment
            && (a.CreatePaymentIntentFailure? || a.PlaceOrderFailure? ==> r.paymentError == Some(a.error))
            && (a.CreatePaymentIntentSuccess? || a.PlaceOrderSuccess? ==> r.paymentError == None)
  {
  }

  /** Only createPaymentIntentSuccess (and a reset) changes the client secret. */
  lemma ClientSecretOwner(s: CheckoutState, a: Action)
    ensures !a.CreatePaymentIntentSuccess? && !a.ResetCheckout? ==> Reduce(s, a).clientSecret == s.clientSecret
    ensures a.CreatePaymentIntentSuccess? ==> Reduce(s, a).clientSecret == Some(a.clientSecret)
  {
  }

  /** The three clear actions each null one field; with that field put back
      the state is the one before. */
  lemma ClearsOneField(s: CheckoutState)
    ensures var r := Reduce(s, ClearCheckoutError);
            r.error == None && r.(error := s.error) == s
    ensures var r := Reduce(s, ClearPaymentError);
            r.paymentError == None && r.(paymentError := s.paymentError) == s
    ensures var r := Reduce(s, ClearStripeError);
            r.stripeError == None && r.(stripeError := s.stripeError) == s
  {
  }

  /** Stripe initialisation outcomes. */
  lemma StripeOutcome(s: CheckoutState, e: string)
    ensures var r := Reduce(s, InitializeStripeSuccess);
            r.isStripeInitialized && r.stripeError == None && !r.loading
    ensures var r := Reduce(s, InitializeStripeFailure(e));
            !r.isStripeInitialized && r.stripeError == Some(e) && !r.loading
  {
  }

  /** loadCreditCardMonths has no handler; its success replaces the months,
      and with the months put back the state is the one before. */
  lemma MonthsHandlers(s: CheckoutState, start: int, months: seq<int>)
    ensures Reduce(s, LoadCreditCardMonths(start)) == s
    ensures var r := Reduce(s, LoadCreditCardMonthsSuccess(months));
            r.creditCardMonths == months && r.(creditCardMonths := s.creditCardMonths) == s
  {
  }

  /** No checkout action ever changes the year list except a reset to `[]`. */
  lemma YearsUntouched(s: CheckoutState, a: Action)
    ensures a.ResetCheckout? || Reduce(s, a).creditCardYears == s.creditCardYears
  {
  }
}
