/**
 * The payment panel's checks: the key-by-key validators of the card number
 * and CVV fields, the ordered checks made when a card payment is confirmed,
 * and the rendering of the order amounts. Message boxes become the returned
 * `Outcome`.
 */
module PaymentView {
  import opened Wrappers
  import opened Text
  import opened Money

  // ---------------------------------------------------------------- key validators

  /** Python's `s.isdigit()` on ASCII text: not empty and all digits. */
  predicate IsDigitString(s: string) {
    |s| >= 1 && AllDigits(s)
  }

  /** `_validate_card_input`: the text the field would hold after a key. */
  function ValidateCardInput(newVal: string): bool {
    if newVal == [] then true else IsDigitString(newVal) && |newVal| <= 16
  }

  /** `_validate_cvv_input`. */
  function ValidateCvvInput(newVal: string): bool {
    if newVal == [] then true else IsDigitString(newVal) && |newVal| <= 3
  }

  /** The card field admits exactly the digit strings of at most 16
      characters, the empty one included. */
  lemma CardInputAccepts(s: string)
    ensures ValidateCardInput(s) <==> AllDigits(s) && |s| <= 16
  {
  }

  /** The CVV field admits exactly the digit strings of at most 3 characters. */
  lemma CvvInputAccepts(s: string)
    ensures ValidateCvvInput(s) <==> AllDigits(s) && |s| <= 3
  {
  }

  /** Deleting from the end never leaves the field in a rejected state:
      every prefix of an accepted text is accepted. */
  lemma ValidatorsPrefixClosed(s: string, k: nat)
    requires k <= |s|
    ensures ValidateCardInput(s) ==> ValidateCardInput(s[..k])
    ensures ValidateCvvInput(s) ==> ValidateCvvInput(s[..k])
  {
    forall i | 0 <= i < k ensures s[..k][i] == s[i] { }
  }

  /** Typing one more digit is accepted exactly while there is room for it. */
  lemma ValidatorsExtend(s: string, c: char)
    requires IsDigit(c)
    ensures ValidateCardInput(s) ==> (ValidateCardInput(s + [c]) <==> |s| < 16)
    ensures ValidateCvvInput(s) ==> (ValidateCvvInput(s + [c]) <==> |s| < 3)
  {
    assert forall i :: 0 <= i < |s| ==> (s + [c])[i] == s[i];
    assert (s + [c])[|s|] == c;
  }

  // ---------------------------------------------------------------- confirmations

  /** A warning box or a success box, with its message. */
  datatype Outcome = Warning(message: string) | Confirmed(message: string)

  const FillInAllFields := "Please fill in all required fields"
  const CardLength := "Card number must be exactly 16 digits"
  const CvvLength := "CVV must be exactly 3 digits"
  const SelectBank := "Please select a bank"
  const EnterCard := "Please enter card number"

  /** `_confirm_credit_payment`: every field filled, then the card number's
      length, then the CVV's length, in that order. */
  function ConfirmCredit(cardType: string, cardNumber: string, cvv: string,
                         holder: string, month: string, year: string): Outcome {
    if cardType == [] || cardNumber == [] || cvv == [] || holder == [] || month == [] || year == [] then
      Warning(FillInAllFields)
    else if |cardNumber| != 16 then Warning(CardLength)
    else if |cvv| != 3 then Warning(CvvLength)
    else Confirmed("Credit card payment processed successfully.")
  }

  /** `_confirm_debit_payment`: a bank, then a card number, then its length. */
  function ConfirmDebit(bankName: string, cardNumber: string): Outcome {
    if bankName == [] then Warning(SelectBank)
    else if cardNumber == [] then Warning(EnterCard)
    else if |cardNumber| != 16 then Warning(CardLength)
    else Confirmed("Debit card payment processed successfully.")
  }

  /** A credit payment is confirmed exactly when all six fields are filled,
      the card number has 16 characters and the CVV 3. An empty field is
      reported first, then a card number of the wrong length, then a CVV of
      the wrong length. */
  lemma CreditChecks(cardType: string, cardNumber: string, cvv: string,
                     holder: string, month: string, year: string)
    ensures ConfirmCredit(cardType, cardNumber, cvv, holder, month, year).Confirmed? <==>
      cardType != [] && holder != [] && month != [] && year != [] && |cardNumber| == 16 && |cvv| == 3
    ensures (cardType == [] || cardNumber == [] || cvv == [] || holder == [] || month == [] || year == []) ==>
      ConfirmCredit(cardType, cardNumber, cvv, holder, month, year) == Warning(FillInAllFields)
    ensures cardType != [] && cardNumber != [] && cvv != [] && holder != [] && month != [] && year != [] ==>
      (|cardNumber| != 16 ==> ConfirmCredit(cardType, cardNumber, cvv, holder, month, year) == Warning(CardLength)) &&
      (|cardNumber| == 16 && |cvv| != 3 ==> ConfirmCredit(cardType, cardNumber, cvv, holder, month, year) == Warning(CvvLength))
  {
  }

  /** A debit payment is confirmed exactly when a bank is chosen and the card
      number has 16 characters. A missing bank is reported first, then a
      missing card number, then a card number of the wrong length. */
  lemma DebitChecks(bankName: string, cardNumber: string)
    ensures ConfirmDebit(bankName, cardNumber).Confirmed? <==> bankName != [] && |cardNumber| == 16
    ensures bankName == [] ==> ConfirmDebit(bankName, cardNumber) == Warning(SelectBank)
    ensures bankName != [] && cardNumber == [] ==> ConfirmDebit(bankName, cardNumber) == Warning(EnterCard)
    ensures bankName != [] && cardNumber != [] && |cardNumber| != 16 ==> ConfirmDebit(bankName, cardNumber) == Warning(CardLength)
  {
  }

  /** With the key validators guarding the fields, a confirmed payment holds
      a 16-digit card number (and, for credit, a 3-digit CVV). */
  lemma ConfirmedCardsAreDigits(cardType: string, cardNumber: string, cvv: string,
                                holder: string, month: string, year: string, bankName: string)
    requires ValidateCardInput(cardNumber) && ValidateCvvInput(cvv)
    ensures ConfirmCredit(cardType, cardNumber, cvv, holder, month, year).Confirmed? ==>
      IsDigitString(cardNumber) && |cardNumber| == 16 && IsDigitString(cvv) && |cvv| == 3
    ensures ConfirmDebit(bankName, cardNumber).Confirmed? ==> IsDigitString(cardNumber) && |cardNumber| == 16
  {
  }

  // ---------------------------------------------------------------- order amounts

  /** The four labels of the order summary. */
  datatype AmountLabels = AmountLabels(subtotal: string, discount: string, deliveryFee: string, total: string)

  /** `set_order_amounts`: each amount with two decimals after a dollar sign;
      the discount alone is shown with a leading minus. */
  function SetOrderAmounts(subtotal: real, discount: real, deliveryFee: real, total: real): AmountLabels {
    AmountLabels("$" + FormatAmount(subtotal), "-$" + FormatAmount(discount),
                 "$" + FormatAmount(deliveryFee), "$" + FormatAmount(total))
  }

  /** Amounts in whole cents are shown without rounding and read back to the
      same cents; only the discount label starts with '-'. */
  lemma AmountLabelsExact(subtotal: int, discount: int, deliveryFee: int, total: int)
    requires subtotal >= 0 && deliveryFee >= 0 && total >= 0
    ensures var l := SetOrderAmounts((subtotal as real) / 100.0, (discount as real) / 100.0,
                                     (deliveryFee as real) / 100.0, (total as real) / 100.0);
      l.subtotal == "$" + FormatCents(subtotal) && l.discount == "-$" + FormatCents(discount) &&
      l.deliveryFee == "$" + FormatCents(deliveryFee) && l.total == "$" + FormatCents(total) &&
      l.discount[0] == '-' && l.subtotal[0] == '$' && l.deliveryFee[1] != '-' && l.total[1] != '-' &&
      l.subtotal[1] != '-' &&
      ParseDecimal(l.total[1..]) == Some(CentsDec(total))
  {
    HalfEvenExact(subtotal);
    HalfEvenExact(discount);
    HalfEvenExact(deliveryFee);
    HalfEvenExact(total);
    ParseFormatCents(total);
    assert ("$" + FormatCents(total))[1..] == FormatCents(total);
  }
}
