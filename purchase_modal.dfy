/** The purchase modal (`components/PurchaseModal.tsx`): a five-step flow
    calculating → negotiating → payment → confirming → complete, with a price offer
    the user moves within [0.5 × IV, 1.5 × IV] and a funds check before paying.

    The component's state (`purchaseStep`, `negotiatedIV`) and props are fields of a
    class; the two `setTimeout` callbacks are methods the environment calls when the
    timers fire. */
module PurchaseModal {
  import opened Util
  import opened ArticleService

  datatype Step = Calculating | Negotiating | Payment | Confirming | Complete

  /** The fixed order the step indicator shows. */
  const Steps: seq<Step> := [Calculating, Negotiating, Payment, Confirming, Complete]

  const UsdPerIvPoint: real := 0.5

  /** The position of a step in the flow, defined by cases. */
  function Rank(s: Step): nat
  {
    match s
    case Calculating => 0
    case Negotiating => 1
    case Payment => 2
    case Confirming => 3
    case Complete => 4
  }

  /** `s.indexOf(x)`: the first position holding `x`, or -1. */
  function IndexOf<T(==)>(s: seq<T>, x: T): (r: int)
    ensures -1 <= r < |s|
    ensures r == -1 <==> x !in s
    ensures r >= 0 ==> s[r] == x && x !in s[..r]
  {
    if s == [] then -1
    else if s[0] == x then 0
    else
      var k := IndexOf(s[1..], x);
      if k == -1 then -1
      else
        assert s[..k + 1] == [s[0]] + s[1..][..k];
        k + 1
  }

  /** `steps.indexOf(step)` is the step's rank: every step is in the list once, in order. */
  lemma StepIndex(s: Step)
    ensures IndexOf(Steps, s) == Rank(s)
  {
    assert Steps[Rank(s)] == s;
    assert forall i :: 0 <= i < Rank(s) ==> Steps[i] != s;
  }

  /** The list holds the steps in rank order. */
  lemma StepsRanked()
    ensures |Steps| == 5
    ensures forall i :: 0 <= i < |Steps| ==> Rank(Steps[i]) == i
  {
  }

  datatype Label = Check | Number(n: nat)

  /** One circle of the indicator: whether it is filled, what it shows, and whether
      the connector after it (the last circle has none) is filled. */
  datatype Mark = Mark(filled: bool, shows: Label, connector: Option<bool>)

  /** `StepIndicator`: one mark per step of the flow. */
  function StepIndicator(current: Step): (r: seq<Mark>)
    ensures |r| == |Steps|
    ensures forall i :: 0 <= i < |r| ==> (r[i].shows == Check <==> Rank(Steps[i]) < Rank(current))
    ensures forall i :: 0 <= i < |r| && r[i].shows != Check ==> r[i].shows == Number(i + 1)
    ensures forall i :: 0 <= i < |r| ==> (r[i].filled <==> Rank(Steps[i]) <= Rank(current))
    ensures forall i :: 0 <= i < |r| ==> (r[i].connector.None? <==> i == |Steps| - 1)
    ensures forall i :: 0 <= i < |r| && r[i].connector.Some? ==>
              (r[i].connector.value <==> Rank(Steps[i]) < Rank(current))
  {
    var k := IndexOf(Steps, current);
    StepIndex(current);
    StepsRanked();
    seq(|Steps|, i requires 0 <= i < |Steps| => MarkAt(i, k))
  }

  /** The mark of the step at position `i` when the current step is at position `k`. */
  function MarkAt(i: nat, k: int): (m: Mark)
    requires i < |Steps|
    ensures m.shows == Check <==> i < k
    ensures m.shows != Check ==> m.shows == Number(i + 1)
    ensures m.filled <==> i <= k
    ensures m.connector.None? <==> i == |Steps| - 1
    ensures m.connector.Some? ==> (m.connector.value <==> i < k)
  {
    Mark(i <= k, if i < k then Check else Number(i + 1), if i < |Steps| - 1 then Some(i < k) else None)
  }

  /** The price of an offer: half its IV in USD, so never negative nor above the IV. */
  function NegotiatedPrice(iv: real): (p: real)
    ensures iv >= 0.0 ==> 0.0 <= p <= iv
  {
    iv * UsdPerIvPoint
  }

  /** The balance is known and covers the price. */
  predicate HasSufficientFunds(balance: Option<real>, price: real)
  {
    balance.Some? && balance.value >= price
  }

  /** The slider's lower bound, never above a non-negative IV. */
  function SliderMin(iv: real): (r: real)
    ensures iv >= 0.0 ==> 0.0 <= r <= iv
  {
    iv * 0.5
  }

  /** The slider's upper bound, never below a non-negative IV. */
  function SliderMax(iv: real): (r: real)
    ensures iv >= 0.0 ==> r >= iv
  {
    iv * 1.5
  }

  /** The suggested value is a possible offer, and every offer is priced between
      a quarter and three quarters of the suggested value. */
  lemma OfferRange(iv: real, offer: real)
    requires iv >= 0.0
    ensures SliderMin(iv) <= iv <= SliderMax(iv)
    ensures SliderMin(iv) <= offer <= SliderMax(iv) ==>
              iv * 0.25 <= NegotiatedPrice(offer) <= iv * 0.75
  {
  }

  /** The step `handleConfirm` leads to. */
  function StepAfterConfirm(s: Step, sufficient: bool): (r: Step)
    ensures Rank(s) <= Rank(r) <= Rank(s) + 1
    ensures r != s <==> s == Negotiating || (s == Payment && sufficient)
  {
    match s
    case Negotiating => Payment
    case Payment => if sufficient then Confirming else Payment
    case _ => s
  }

  /** From the negotiation, two confirmations with sufficient funds reach the
      confirmation step; without funds the flow stops at payment. */
  lemma ConfirmTwice(sufficient: bool)
    ensures StepAfterConfirm(StepAfterConfirm(Negotiating, sufficient), sufficient)
            == if sufficient then Confirming else Payment
  {
  }

  /** The `onConfirm(article, price)` call a confirmation schedules. */
  datatype Purchase = Purchase(article: Article, price: real)

  class Modal {
    // props
    var article: Option<Article>
    var isOpen: bool
    var walletBalance: Option<real>
    // state
    var purchaseStep: Step
    var negotiatedIV: real
    /** The calculation timer set by the open effect has neither fired nor been cleared. */
    var calculationPending: bool
    /** A completion timer has been set and has not fired yet. */
    var completionPending: bool

    /** The modal renders (and its handlers exist) only when open with an article. */
    predicate Shown()
      reads this
    {
      isOpen && article.Some?
    }

    /** While shown for an article of non-negative value, the offer is within the slider. */
    predicate Valid()
      reads this
    {
      Shown() && article.value.informationValue >= 0.0 ==>
        SliderMin(article.value.informationValue) <= negotiatedIV <= SliderMax(article.value.informationValue)
    }

    /** Mounting with the first props runs the open effect. */
    constructor (article: Option<Article>, isOpen: bool, walletBalance: Option<real>)
      ensures this.article == article && this.isOpen == isOpen && this.walletBalance == walletBalance
      ensures isOpen && article.Some? ==>
                purchaseStep == Calculating && negotiatedIV == article.value.informationValue && calculationPending
      ensures !(isOpen && article.Some?) ==>
                purchaseStep == Calculating && negotiatedIV == 0.0 && !calculationPending
      ensures !completionPending
      ensures Valid()
    {
      this.article, this.isOpen, this.walletBalance := article, isOpen, walletBalance;
      purchaseStep, negotiatedIV := Calculating, 0.0;
      calculationPending, completionPending := false, false;
      if isOpen && article.Some? {
        negotiatedIV := article.value.informationValue;
        calculationPending := true;
      }
    }

    /** New props. When `isOpen` or `article` changes the effect's timer is cleared,
        and if the modal is now open with an article it restarts at calculation with
        the article's value as the offer. */
    method UpdateProps(article: Option<Article>, isOpen: bool, walletBalance: Option<real>)
      requires Valid()
      modifies this
      ensures this.article == article && this.isOpen == isOpen && this.walletBalance == walletBalance
      ensures (isOpen != old(this.isOpen) || article != old(this.article)) && isOpen && article.Some? ==>
                purchaseStep == Calculating && negotiatedIV == article.value.informationValue && calculationPending
      ensures (isOpen != old(this.isOpen) || article != old(this.article)) && !(isOpen && article.Some?) ==>
                purchaseStep == old(purchaseStep) && negotiatedIV == old(negotiatedIV) && !calculationPending
      ensures isOpen == old(this.isOpen) && article == old(this.article) ==>
                purchaseStep == old(purchaseStep) && negotiatedIV == old(negotiatedIV)
                && calculationPending == old(calculationPending)
      ensures completionPending == old(completionPending)
      ensures Valid()
    {
      var changed := isOpen != this.isOpen || article != this.article;
      this.article, this.isOpen, this.walletBalance := article, isOpen, walletBalance;
      if changed {
        calculationPending := false;
        if isOpen && article.Some? {
          purchaseStep := Calculating;
          negotiatedIV := article.value.informationValue;
          calculationPending := true;
        }
      }
    }

    /** The 1.5 s timer of the open effect fires. */
    method CalculationTimerFires()
      requires Valid()
      modifies this`purchaseStep, this`calculationPending
      ensures old(calculationPending) ==> purchaseStep == Negotiating
      ensures !old(calculationPending) ==> purchaseStep == old(purchaseStep)
      ensures !calculationPending
      ensures Valid()
    {
      if calculationPending {
        purchaseStep := Negotiating;
        calculationPending := false;
      }
    }

    /** The slider's `onChange`; the range input only produces values within its bounds. */
    method SetOffer(offer: real)
      requires Valid() && Shown()
      requires SliderMin(article.value.informationValue) <= offer <= SliderMax(article.value.informationValue)
      modifies this`negotiatedIV
      ensures negotiatedIV == offer
      ensures Valid()
    {
      negotiatedIV := offer;
    }

    /** `handleConfirm`: advances negotiation to payment, and payment to confirmation
        when the balance covers the offer's price, scheduling completion and the
        `onConfirm(article, price)` call. Any other step, or payment without funds,
        changes nothing. */
    method HandleConfirm() returns (scheduled: Option<Purchase>)
      requires Valid() && Shown()
      modifies this`purchaseStep, this`completionPending
      ensures purchaseStep == StepAfterConfirm(old(purchaseStep),
                                               HasSufficientFunds(walletBalance, NegotiatedPrice(negotiatedIV)))
      ensures scheduled.Some? <==> old(purchaseStep) == Payment && purchaseStep == Confirming
      ensures scheduled.Some? ==>
                scheduled.value == Purchase(article.value, NegotiatedPrice(negotiatedIV))
                && HasSufficientFunds(walletBalance, scheduled.value.price)
                && completionPending
      ensures scheduled.Some? && article.value.informationValue >= 0.0 ==>
                var iv := article.value.informationValue;
                iv * 0.25 <= scheduled.value.price <= iv * 0.75
      ensures scheduled.None? ==> completionPending == old(completionPending)
      ensures Valid()
    {
      var price := NegotiatedPrice(negotiatedIV);
      if article.value.informationValue >= 0.0 {
        OfferRange(article.value.informationValue, negotiatedIV);
      }
      var sufficient := HasSufficientFunds(walletBalance, price);
      scheduled := None;
      if purchaseStep == Negotiating {
        purchaseStep := Payment;
      } else if purchaseStep == Payment {
        if !sufficient {
          return;
        }
        purchaseStep := Confirming;
        completionPending := true;
        scheduled := Some(Purchase(article.value, price));
      }
    }

    /** The 2 s completion timer fires; it is never cleared, so it applies whatever
        the step is by then. */
    method CompletionTimerFires()
      requires Valid()
      modifies this`purchaseStep, this`completionPending
      ensures old(completionPending) ==> purchaseStep == Complete
      ensures !old(completionPending) ==> purchaseStep == old(purchaseStep)
      ensures !completionPending
      ensures Valid()
    {
      if completionPending {
        purchaseStep := Complete;
        completionPending := false;
      }
    }
  }
}
