/** The UI state of the checkout screen and the view-model that rewrites it.

    The two calls the view-model makes into the cart repository are inputs
    here: whether the repository accepted a coupon code is an oracle
    `applyCoupon: string -> bool`, and whether a purchase went through is a
    boolean. No coupon or purchase rule is assumed.
 */
module Checkout {

  datatype Option<+T> = None | Some(value: T)

  /** Placeholder payment method shown before the user edits it. */
  const DefaultPaymentDetails: string := "Visa *1234"
  /** Shown under the promo field when the repository accepts the code. */
  const CouponAppliedMessage: string := "Cupón aplicado con éxito"
  /** Shown under the promo field when the repository rejects the code. */
  const InvalidCouponMessage: string := "Cupón inválido"

  /** The record the checkout screen observes; a nullable message is an Option. */
  datatype CheckoutUiState = CheckoutUiState(
    paymentDetails: string,
    promoCode: string,
    promoError: Option<string>,
    showConfirmDialog: bool,
    promoSuccess: Option<string>)

  /** The record built with every field at its default value. */
  function InitialUiState(): CheckoutUiState {
    CheckoutUiState(DefaultPaymentDetails, "", None, false, None)
  }

  /** The screen never shows a success message and an error message together. */
  predicate MessagesExclusive(s: CheckoutUiState) {
    !(s.promoError.Some? && s.promoSuccess.Some?)
  }

  // ---------------------------------------------------------------------
  // The record updates each operation applies to the current state

  function WithPaymentDetails(s: CheckoutUiState, text: string): (r: CheckoutUiState)
    ensures MessagesExclusive(s) ==> MessagesExclusive(r)
  {
    s.(paymentDetails := text)
  }

  /** Typing a new code hides whatever message the last verification left. */
  function WithPromoCode(s: CheckoutUiState, text: string): (r: CheckoutUiState)
    ensures MessagesExclusive(r)
  {
    s.(promoCode := text, promoError := None, promoSuccess := None)
  }

  /** The outcome of asking the repository about the current code. */
  function WithCouponOutcome(s: CheckoutUiState, accepted: bool): (r: CheckoutUiState)
    ensures MessagesExclusive(r)
  {
    if accepted then s.(promoError := None, promoSuccess := Some(CouponAppliedMessage))
    else s.(promoError := Some(InvalidCouponMessage), promoSuccess := None)
  }

  /** A successful purchase opens the dialog and resets the code; a failed one changes nothing. */
  function WithPurchaseOutcome(s: CheckoutUiState, succeeded: bool): (r: CheckoutUiState)
    ensures MessagesExclusive(s) ==> MessagesExclusive(r)
  {
    if succeeded then s.(showConfirmDialog := true, promoCode := "", promoSuccess := None)
    else s
  }

  function WithDialogDismissed(s: CheckoutUiState): (r: CheckoutUiState)
    ensures MessagesExclusive(s) ==> MessagesExclusive(r)
  {
    s.(showConfirmDialog := false)
  }

  // ---------------------------------------------------------------------
  // The screen's calls as a trace of events

  /** One call into the view-model, with the repository's answer where it makes one. */
  datatype Event =
    | PaymentDetailsChanged(text: string)
    | PromoCodeChanged(text: string)
    | PromoCodeVerified(accepted: bool)
    | PurchaseConfirmed(succeeded: bool)
    | DialogDismissed

  function Step(s: CheckoutUiState, e: Event): (r: CheckoutUiState)
    ensures MessagesExclusive(s) ==> MessagesExclusive(r)
  {
    match e
    case PaymentDetailsChanged(text) => WithPaymentDetails(s, text)
    case PromoCodeChanged(text) => WithPromoCode(s, text)
    case PromoCodeVerified(accepted) => WithCouponOutcome(s, accepted)
    case PurchaseConfirmed(succeeded) => WithPurchaseOutcome(s, succeeded)
    case DialogDismissed => WithDialogDismissed(s)
  }

  /** The state after the events `es`, applied in order, starting from `s`. */
  function Run(s: CheckoutUiState, es: seq<Event>): CheckoutUiState
    decreases |es|
  {
    if es == [] then s else Step(Run(s, es[..|es| - 1]), es[|es| - 1])
  }

  /** Holds when some event of `es` satisfies `marks` and no later event satisfies `clears`:
      the last of the events that touch a field is one that sets it. */
  ghost predicate LastMarked(es: seq<Event>, marks: Event -> bool, clears: Event -> bool) {
    exists i :: 0 <= i < |es| && marks(es[i]) && forall j :: i < j < |es| ==> !clears(es[j])
  }

  predicate OpensDialog(e: Event) { e == PurchaseConfirmed(true) }
  predicate ClosesDialog(e: Event) { e.DialogDismissed? }
  predicate AcceptsCoupon(e: Event) { e == PromoCodeVerified(true) }
  predicate RejectsCoupon(e: Event) { e == PromoCodeVerified(false) }
  /** Events that set promoSuccess to none. */
  predicate ClearsSuccess(e: Event) {
    e.PromoCodeChanged? || e == PromoCodeVerified(false) || e == PurchaseConfirmed(true)
  }
  /** Events that set promoError to none. */
  predicate ClearsError(e: Event) {
    e.PromoCodeChanged? || e == PromoCodeVerified(true)
  }

  // ---------------------------------------------------------------------
  // Properties of the transitions

  /** Every sequence of calls keeps the two messages exclusive. */
  lemma {:induction false} RunKeepsMessagesExclusive(s: CheckoutUiState, es: seq<Event>)
    requires MessagesExclusive(s)
    ensures MessagesExclusive(Run(s, es))
    decreases |es|
  {
    if es != [] {
      RunKeepsMessagesExclusive(s, es[..|es| - 1]);
    }
  }

  lemma RunAppend(s: CheckoutUiState, es: seq<Event>, e: Event)
    ensures Run(s, es + [e]) == Step(Run(s, es), e)
  {
    assert (es + [e])[..|es|] == es;
  }

  /** Appending one event decides LastMarked as that event does, or leaves it as before. */
  lemma LastMarkedSnoc(es: seq<Event>, e: Event, marks: Event -> bool, clears: Event -> bool)
    ensures LastMarked(es + [e], marks, clears)
         <==> marks(e) || (!clears(e) && LastMarked(es, marks, clears))
  {
    var es' := es + [e];
    assert es'[|es|] == e;
    if marks(e) {
      assert 0 <= |es| < |es'| && marks(es'[|es|]);
    } else if !clears(e) {
      if LastMarked(es, marks, clears) {
        var i :| 0 <= i < |es| && marks(es[i]) && forall j :: i < j < |es| ==> !clears(es[j]);
        assert es'[i] == es[i];
        forall j | i < j < |es'| ensures !clears(es'[j]) {
          if j < |es| { assert es'[j] == es[j]; }
        }
      }
      if LastMarked(es', marks, clears) {
        var i :| 0 <= i < |es'| && marks(es'[i]) && forall j :: i < j < |es'| ==> !clears(es'[j]);
        assert i < |es|;
        assert es'[i] == es[i];
        forall j | i < j < |es| ensures !clears(es[j]) {
          assert es'[j] == es[j];
        }
      }
    }
  }

  /** The confirmation dialog is open exactly when a purchase succeeded and the dialog
      has not been dismissed since. */
  lemma {:induction false} DialogOpenIffPurchasedSinceDismiss(es: seq<Event>)
    ensures Run(InitialUiState(), es).showConfirmDialog
        <==> LastMarked(es, OpensDialog, ClosesDialog)
    decreases |es|
  {
    if es != [] {
      var p, e := es[..|es| - 1], es[|es| - 1];
      assert es == p + [e];
      DialogOpenIffPurchasedSinceDismiss(p);
      LastMarkedSnoc(p, e, OpensDialog, ClosesDialog);
    }
  }

  /** The success message is present, and is the applied-coupon text, exactly when the
      repository accepted a code and nothing has cleared the message since. */
  lemma {:induction false} SuccessShownIffCouponAcceptedSinceCleared(es: seq<Event>)
    ensures Run(InitialUiState(), es).promoSuccess
         == if LastMarked(es, AcceptsCoupon, ClearsSuccess) then Some(CouponAppliedMessage) else None
    decreases |es|
  {
    if es != [] {
      var p, e := es[..|es| - 1], es[|es| - 1];
      assert es == p + [e];
      SuccessShownIffCouponAcceptedSinceCleared(p);
      LastMarkedSnoc(p, e, AcceptsCoupon, ClearsSuccess);
    }
  }

  /** The error message is present, and is the invalid-coupon text, exactly when the
      repository rejected a code and nothing has cleared the message since. A successful
      purchase does not clear it. */
  lemma {:induction false} ErrorShownIffCouponRejectedSinceCleared(es: seq<Event>)
    ensures Run(InitialUiState(), es).promoError
         == if LastMarked(es, RejectsCoupon, ClearsError) then Some(InvalidCouponMessage) else None
    decreases |es|
  {
    if es != [] {
      var p, e := es[..|es| - 1], es[|es| - 1];
      assert es == p + [e];
      ErrorShownIffCouponRejectedSinceCleared(p);
      LastMarkedSnoc(p, e, RejectsCoupon, ClearsError);
    }
  }

  /** Dismissing the dialog a second time changes nothing. */
  lemma DismissIdempotent(s: CheckoutUiState)
    ensures WithDialogDismissed(WithDialogDismissed(s)) == WithDialogDismissed(s)
  {
  }

  /** Verifying leaves the code as it is, so with a repository that answers the same code
      the same way, verifying twice gives the state of verifying once. */
  lemma VerifyIdempotent(s: CheckoutUiState, applyCoupon: string -> bool)
    ensures var once := WithCouponOutcome(s, applyCoupon(s.promoCode));
            WithCouponOutcome(once, applyCoupon(once.promoCode)) == once
  {
  }

  // ---------------------------------------------------------------------
  // The view-model

  class CheckoutViewModel {
    /** The state the screen observes. */
    var uiState: CheckoutUiState
    /** The calls made so far, with the repository's answers. */
    ghost var history: seq<Event>

    ghost predicate Valid()
      reads this
    {
      && uiState == Run(InitialUiState(), history)
      && MessagesExclusive(uiState)
    }

    constructor ()
      ensures Valid() && history == []
      ensures uiState.paymentDetails == DefaultPaymentDetails
      ensures uiState.promoCode == ""
      ensures uiState.promoError == None
      ensures !uiState.showConfirmDialog
      ensures uiState.promoSuccess == None
    {
      uiState := InitialUiState();
      history := [];
    }

    /** Records `e`, whose effect on uiState has been applied. */
    method Apply(e: Event)
      requires Valid()
      modifies this
      ensures Valid()
      ensures history == old(history) + [e]
      ensures uiState == Step(old(uiState), e)
    {
      RunAppend(InitialUiState(), history, e);
      uiState := Step(uiState, e);
      history := history + [e];
    }

    method OnPaymentDetailsChanged(text: string)
      requires Valid()
      modifies this
      ensures Valid() && history == old(history) + [PaymentDetailsChanged(text)]
      ensures uiState.paymentDetails == text
      ensures uiState.promoCode == old(uiState.promoCode)
      ensures uiState.promoError == old(uiState.promoError)
      ensures uiState.showConfirmDialog == old(uiState.showConfirmDialog)
      ensures uiState.promoSuccess == old(uiState.promoSuccess)
    {
      Apply(PaymentDetailsChanged(text));
    }

    method OnPromoCodeChanged(text: string)
      requires Valid()
      modifies this
      ensures Valid() && history == old(history) + [PromoCodeChanged(text)]
      ensures uiState.paymentDetails == old(uiState.paymentDetails)
      ensures uiState.promoCode == text
      ensures uiState.promoError == None
      ensures uiState.showConfirmDialog == old(uiState.showConfirmDialog)
      ensures uiState.promoSuccess == None
    {
      Apply(PromoCodeChanged(text));
    }

    /** Asks the repository about exactly the code currently in the field. */
    method VerifyPromoCode(applyCoupon: string -> bool)
      requires Valid()
      modifies this
      ensures Valid()
      ensures history == old(history) + [PromoCodeVerified(applyCoupon(old(uiState.promoCode)))]
      ensures uiState.paymentDetails == old(uiState.paymentDetails)
      ensures uiState.promoCode == old(uiState.promoCode)
      ensures uiState.showConfirmDialog == old(uiState.showConfirmDialog)
      ensures applyCoupon(old(uiState.promoCode)) ==>
                uiState.promoError == None && uiState.promoSuccess == Some(CouponAppliedMessage)
      ensures !applyCoupon(old(uiState.promoCode)) ==>
                uiState.promoError == Some(InvalidCouponMessage) && uiState.promoSuccess == None
    {
      var code := uiState.promoCode;
      var success := applyCoupon(code);
      Apply(PromoCodeVerified(success));
    }

    /** `purchased` is whether the repository's purchase call reported success. */
    method OnConfirmPurchase(purchased: bool)
      requires Valid()
      modifies this
      ensures Valid() && history == old(history) + [PurchaseConfirmed(purchased)]
      ensures purchased ==>
                && uiState.paymentDetails == old(uiState.paymentDetails)
                && uiState.promoCode == ""
                && uiState.promoError == old(uiState.promoError)
                && uiState.showConfirmDialog
                && uiState.promoSuccess == None
      ensures !purchased ==> uiState == old(uiState)
    {
      Apply(PurchaseConfirmed(purchased));
    }

    method OnDialogDismiss()
      requires Valid()
      modifies this
      ensures Valid() && history == old(history) + [DialogDismissed]
      ensures uiState.paymentDetails == old(uiState.paymentDetails)
      ensures uiState.promoCode == old(uiState.promoCode)
      ensures uiState.promoError == old(uiState.promoError)
      ensures !uiState.showConfirmDialog
      ensures uiState.promoSuccess == old(uiState.promoSuccess)
    {
      Apply(DialogDismissed);
    }
  }
}
