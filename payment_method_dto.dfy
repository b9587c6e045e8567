/** The zod schemas of payment-method requests. */
module PaymentMethodDto {
  import opened Common

  const PaymentMethodTypes: seq<string> := ["CASH", "CARD", "BANK_ACCOUNT"]

  /** `z.string().length(4).regex(/^\d+$/)`: exactly four ASCII digits. */
  predicate IsLastFourDigits(s: string) {
    |s| == 4 && forall i | 0 <= i < |s| :: '0' <= s[i] <= '9'
  }

  /** A create body after the JSON type checks; the schema omits `id`. */
  datatype CreatePaymentMethodInput = CreatePaymentMethodInput(
    user_id: int,
    name: string,
    methodType: string,
    last_four_digits: Option<string>,
    issuer: Option<string>,
    shared_user_id: Option<int>)

  predicate ValidCreate(i: CreatePaymentMethodInput) {
    && i.methodType in PaymentMethodTypes
    && (i.last_four_digits.Some? ==> IsLastFourDigits(i.last_four_digits.value))
    // the refinement: a non-CASH method needs (truthy) last four digits
    && !(i.methodType != "CASH" && !TruthyText(i.last_four_digits))
  }

  /** An update body: every field optional; the schema omits `id` and `user_id`. */
  datatype UpdatePaymentMethodInput = UpdatePaymentMethodInput(
    name: Option<string>,
    methodType: Option<string>,
    last_four_digits: Option<string>,
    issuer: Option<Option<string>>,
    shared_user_id: Option<Option<int>>)

  predicate ValidUpdate(i: UpdatePaymentMethodInput) {
    && (i.methodType.Some? ==> i.methodType.value in PaymentMethodTypes)
    && (i.last_four_digits.Some? ==> IsLastFourDigits(i.last_four_digits.value))
    // the refinement: changing to a non-CASH type needs the digits in the same body
    && !(i.methodType.Some? && i.methodType.value != "CASH" && i.last_four_digits.None?)
  }

  function AsUpdate(i: CreatePaymentMethodInput): UpdatePaymentMethodInput {
    UpdatePaymentMethodInput(Some(i.name), Some(i.methodType), i.last_four_digits,
      if i.issuer.Some? then Some(i.issuer) else None,
      if i.shared_user_id.Some? then Some(i.shared_user_id) else None)
  }

  /** A create body is accepted iff its type is listed, and the digits are present for CARD and BANK_ACCOUNT and well formed whenever present. */
  lemma CreateAcceptance(i: CreatePaymentMethodInput)
    ensures ValidCreate(i) <==>
      && (i.methodType == "CASH" || i.methodType == "CARD" || i.methodType == "BANK_ACCOUNT")
      && (i.methodType != "CASH" ==> i.last_four_digits.Some?)
      && (i.last_four_digits.Some? ==> IsLastFourDigits(i.last_four_digits.value))
  {
  }

  lemma CashNeedsNoDigits(i: CreatePaymentMethodInput)
    requires i.methodType == "CASH" && i.last_four_digits.None?
    ensures ValidCreate(i)
  {
  }

  lemma CardNeedsDigits(i: CreatePaymentMethodInput)
    requires i.methodType != "CASH" && i.last_four_digits.None?
    ensures !ValidCreate(i)
  {
  }

  lemma UpdateToCardNeedsDigits(i: UpdatePaymentMethodInput)
    requires i.methodType.Some? && i.methodType.value != "CASH" && i.last_four_digits.None?
    ensures !ValidUpdate(i)
  {
  }

  /** An update that leaves the type alone passes the refinement, whatever the digits. */
  lemma UpdateWithoutType(i: UpdatePaymentMethodInput)
    requires i.methodType.None?
    ensures ValidUpdate(i) <==>
      (i.last_four_digits.Some? ==> IsLastFourDigits(i.last_four_digits.value))
  {
  }

  lemma CreateIsStricterThanUpdate(i: CreatePaymentMethodInput)
    requires ValidCreate(i)
    ensures ValidUpdate(AsUpdate(i))
  {
  }

  lemma DigitsExamples()
    ensures IsLastFourDigits("0427")
    ensures !IsLastFourDigits("427") && !IsLastFourDigits("04a7") && !IsLastFourDigits("04271")
  {
    assert "04a7"[2] == 'a';
  }
}
