# Checkout screen view-model

A Dafny model of the checkout screen's UI-state machine in the AlmaCerca shopping app.
`CheckoutViewModel` holds one record, `CheckoutUiState`, with five fields:

- the payment details text;
- the promo code being typed;
- an optional promo error message;
- whether the purchase-confirmation dialog is shown;
- an optional promo success message.

Five operations rewrite that record: editing the payment details, editing the promo code,
verifying the code with the cart repository, confirming the purchase, and dismissing the dialog.

The model is the module `Checkout` in `checkout.dfy`:

- `CheckoutUiState` is a datatype. The nullable message fields are `Option<string>`.
- Each Kotlin `copy(...)` update is a pure function (`WithPromoCode`, `WithCouponOutcome`, ...).
- The class `CheckoutViewModel` holds the mutable `uiState` field. Its methods update it in
  place, as `_uiState.update { ... }` does.
- The class also keeps a ghost `history` of the calls made so far, with the repository's
  answers. `Valid()` ties `uiState` to `Run(InitialUiState(), history)`, the state reached by
  replaying that history as `Event`s from the default record.
- The lemmas about `Run` describe every reachable state. The success and error messages are
  never shown together. The dialog is open exactly when a purchase succeeded and no dismissal
  came after it. Each message is present, with its exact text, exactly when the matching
  coupon outcome came last among the events that touch that field.

The cart repository is not part of this model. Its two calls are inputs:

- `applyCoupon(code)` is an oracle parameter `applyCoupon: string -> bool` of `VerifyPromoCode`.
  The method's contract says it is asked about exactly the current promo code.
- `buyCart().isSuccess` is the boolean parameter `purchased` of `OnConfirmPurchase`.

## Model

| member | source | states |
|---|---|---|
| `Checkout.CheckoutViewModel.constructor` | app/src/main/java/com/example/almacercaapp/viewmodel/CheckoutViewModel.kt:12-28 | The initial state has payment details "Visa *1234", an empty promo code, no error, no success message and the dialog hidden. The history is empty and the invariant holds. |
| `Checkout.CheckoutViewModel.OnPaymentDetailsChanged` | app/src/main/java/com/example/almacercaapp/viewmodel/CheckoutViewModel.kt:32-34 | Sets the payment details to the given text and leaves the other four fields unchanged. Preserves the invariant. |
| `Checkout.CheckoutViewModel.OnPromoCodeChanged` | app/src/main/java/com/example/almacercaapp/viewmodel/CheckoutViewModel.kt:36-44 | Sets the promo code to the given text and clears both messages. Payment details and the dialog flag are unchanged. |
| `Checkout.CheckoutViewModel.VerifyPromoCode` | app/src/main/java/com/example/almacercaapp/viewmodel/CheckoutViewModel.kt:46-60 | Asks the coupon oracle about exactly the current code. If accepted: no error and success "Cupón aplicado con éxito". If rejected: error "Cupón inválido" and no success. Either way code, payment details and dialog flag are unchanged. |
| `Checkout.CheckoutViewModel.OnConfirmPurchase` | app/src/main/java/com/example/almacercaapp/viewmodel/CheckoutViewModel.kt:63-78 | After a successful purchase: the dialog is shown, the code is reset to "", the success message is cleared, and the error and payment details are kept. After a failed purchase the state is unchanged. |
| `Checkout.CheckoutViewModel.OnDialogDismiss` | app/src/main/java/com/example/almacercaapp/viewmodel/CheckoutViewModel.kt:80-82 | Hides the dialog and leaves the other four fields unchanged. |
| `Checkout.WithPaymentDetails` | app/src/main/java/com/example/almacercaapp/viewmodel/CheckoutViewModel.kt:33 | The payment-details update preserves message exclusivity. |
| `Checkout.WithPromoCode` | app/src/main/java/com/example/almacercaapp/viewmodel/CheckoutViewModel.kt:37-43 | After a promo-code edit the messages are exclusive, whatever the state before. |
| `Checkout.WithCouponOutcome` | app/src/main/java/com/example/almacercaapp/viewmodel/CheckoutViewModel.kt:52-59 | After either coupon outcome the messages are exclusive, whatever the state before. |
| `Checkout.WithPurchaseOutcome` | app/src/main/java/com/example/almacercaapp/viewmodel/CheckoutViewModel.kt:69-76 | The purchase update, successful or not, preserves message exclusivity. |
| `Checkout.WithDialogDismissed` | app/src/main/java/com/example/almacercaapp/viewmodel/CheckoutViewModel.kt:81 | The dismiss update preserves message exclusivity. |
| `Checkout.Step` | app/src/main/java/com/example/almacercaapp/viewmodel/CheckoutViewModel.kt:32-82 | Every one of the five operations preserves message exclusivity. |
| `Checkout.RunKeepsMessagesExclusive` | app/src/main/java/com/example/almacercaapp/viewmodel/CheckoutViewModel.kt:15-82 | Any sequence of operations from a state with exclusive messages reaches a state with exclusive messages. So a success message and an error message are never shown together. |
| `Checkout.DialogOpenIffPurchasedSinceDismiss` | app/src/main/java/com/example/almacercaapp/viewmodel/CheckoutViewModel.kt:63-82 | From the initial state, the dialog is shown if and only if some purchase succeeded and no dismissal came after it. |
| `Checkout.SuccessShownIffCouponAcceptedSinceCleared` | app/src/main/java/com/example/almacercaapp/viewmodel/CheckoutViewModel.kt:36-72 | From the initial state, the success message is "Cupón aplicado con éxito" if some coupon was accepted and no later code edit, rejection or successful purchase cleared it. Otherwise it is absent. |
| `Checkout.ErrorShownIffCouponRejectedSinceCleared` | app/src/main/java/com/example/almacercaapp/viewmodel/CheckoutViewModel.kt:36-76 | From the initial state, the error message is "Cupón inválido" if some coupon was rejected and no later code edit or acceptance cleared it. Otherwise it is absent. A purchase never clears it. |
| `Checkout.DismissIdempotent` | app/src/main/java/com/example/almacercaapp/viewmodel/CheckoutViewModel.kt:80-82 | Dismissing the dialog twice gives the same state as dismissing it once. |
| `Checkout.VerifyIdempotent` | app/src/main/java/com/example/almacercaapp/viewmodel/CheckoutViewModel.kt:46-60 | Verification keeps the code. So against a repository that answers a code the same way each time, verifying twice gives the same state as verifying once. |

## Left out

- Coupon and purchase rules: `CartRepository` is not part of this model. Its answers are parameters, so the model never assumes a code is valid or a purchase succeeds.
- Side effects inside the repository: applying a coupon or buying the cart may change the cart. Only the answers returned to the view-model are modelled.
- Coroutines: `onConfirmPurchase` runs the purchase in `viewModelScope.launch`. The model treats it as one atomic step taken in call order. Interleaving with other calls while the purchase is pending is not modelled.
- State flows: `MutableStateFlow` and `asStateFlow` are read here as a plain field that the screen reads. Observers and the emission of values are not modelled.
- `cartUiState`: it only forwards the repository's state, so it has no behaviour of its own to state.
- Purchase failure: the source's failure branch does nothing and shows no message, and the model does the same.
