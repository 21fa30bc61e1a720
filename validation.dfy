/** `build_validation_result` and `validate_age_investmentAmount`. */
module Validation {
  import opened Wrappers
  import opened Numbers
  import opened Lex

  /** `{"isValid": ..., "violatedSlot": ...}`, with a `"message"` key only when one was given. */
  datatype ValidationResult = ValidationResult(isValid: bool, violatedSlot: Option<string>, message: Option<Message>)

  const AgeNotPositiveText := "Please enter a valid age. Age must be greater than 0"
  const AgeOverLimitText := "I'm sorry you do not meet our age requirements. Users must be under 65."
  const AmountNotPositiveText := "Please enter an investment amount greater than 0."
  const AmountUnderMinimumText :=
    "I'm sorry you do not meet our requirement for investment amount. Users must invest at least $5000"

  /** `build_validation_result`: the message key is present exactly when content is given, as plain text. */
  function BuildValidationResult(isValid: bool, violatedSlot: Option<string>, content: Option<string>): (r: ValidationResult)
    ensures r.isValid == isValid && r.violatedSlot == violatedSlot
    ensures r.message.Some? <==> content.Some?
    ensures r.message.Some? ==> r.message.value.contentType == "PlainText" && r.message.value.content == content.value
  {
    match content
    case None => ValidationResult(isValid, violatedSlot, None)
    case Some(text) => ValidationResult(isValid, violatedSlot, Some(PlainText(text)))
  }

  /** The age rule as an interval: an absent slot or non-numeric text passes, 65 included. */
  predicate AgeAccepted(age: Option<string>) {
    match age
    case None => true
    case Some(text) => ParseInt(text).NaN? || 1 <= ParseInt(text).value <= 65
  }

  /** The investment rule as an interval: an absent slot or non-numeric text passes. */
  predicate AmountAccepted(amount: Option<string>) {
    match amount
    case None => true
    case Some(text) => ParseInt(text).NaN? || ParseInt(text).value >= 5000
  }

  /**
   * `validate_age_investmentAmount`: the age check, then the amount check; the first
   * violation found is returned. Reading the four slots raises KeyError for a missing one.
   */
  function ValidateAgeInvestmentAmount(slots: Slots): (r: Result<ValidationResult, Error>)
    ensures r.Failure? <==> !HasSlotKeys(slots)
    ensures r.Failure? ==> r.error == KeyError(MissingSlotKey(slots).value)
    ensures r.Success? ==> (r.value.isValid <==> AgeAccepted(slots["age"]) && AmountAccepted(slots["investmentAmount"]))
    ensures r.Success? ==> (r.value.isValid <==> r.value.violatedSlot.None?)
    ensures r.Success? ==> (r.value.isValid <==> r.value.message.None?)
    ensures r.Success? && !r.value.isValid ==>
              r.value.violatedSlot.value in {"age", "investmentAmount"} && slots[r.value.violatedSlot.value].Some?
    ensures r.Success? && !r.value.isValid ==>
              r.value.violatedSlot == Some(if AgeAccepted(slots["age"]) then "investmentAmount" else "age")
    ensures r.Success? && r.value.violatedSlot == Some("age") ==>
              r.value.message.value in {PlainText(AgeNotPositiveText), PlainText(AgeOverLimitText)}
    ensures r.Success? && r.value.violatedSlot == Some("investmentAmount") ==>
              r.value.message.value in {PlainText(AmountNotPositiveText), PlainText(AmountUnderMinimumText)}
  {
    match MissingSlotKey(slots)
    case Some(name) => Failure(KeyError(name))
    case None =>
      var age := slots["age"];
      var amount := slots["investmentAmount"];
      if age.Some? && AtMost(ParseInt(age.value), 0) then
        Success(BuildValidationResult(false, Some("age"), Some(AgeNotPositiveText)))
      else if age.Some? && Above(ParseInt(age.value), 65) then
        Success(BuildValidationResult(false, Some("age"), Some(AgeOverLimitText)))
      else if amount.Some? && AtMost(ParseInt(amount.value), 0) then
        Success(BuildValidationResult(false, Some("investmentAmount"), Some(AmountNotPositiveText)))
      else if amount.Some? && Below(ParseInt(amount.value), 5000) then
        Success(BuildValidationResult(false, Some("investmentAmount"), Some(AmountUnderMinimumText)))
      else
        Success(BuildValidationResult(true, None, None))
  }

  /** An age of 0 or less is the age violation, whatever the amount. */
  lemma AgeNotPositive(slots: Slots, a: int)
    requires HasSlotKeys(slots) && slots["age"].Some? && ParseInt(slots["age"].value) == Int(a) && a <= 0
    ensures ValidateAgeInvestmentAmount(slots)
            == Success(ValidationResult(false, Some("age"), Some(PlainText(AgeNotPositiveText))))
  {
  }

  /** An age over 65 is the age violation, whatever the amount. */
  lemma AgeOverLimit(slots: Slots, a: int)
    requires HasSlotKeys(slots) && slots["age"].Some? && ParseInt(slots["age"].value) == Int(a) && a > 65
    ensures ValidateAgeInvestmentAmount(slots)
            == Success(ValidationResult(false, Some("age"), Some(PlainText(AgeOverLimitText))))
  {
  }

  /** An age from 1 to 65 inclusive never causes a violation of the age slot. */
  lemma AgeInRange(slots: Slots, a: int)
    requires HasSlotKeys(slots) && slots["age"].Some? && ParseInt(slots["age"].value) == Int(a) && 1 <= a <= 65
    ensures ValidateAgeInvestmentAmount(slots).Success?
    ensures ValidateAgeInvestmentAmount(slots).value.violatedSlot != Some("age")
  {
  }

  /** With the age accepted, an amount of 0 or less is the amount violation. */
  lemma AmountNotPositive(slots: Slots, v: int)
    requires HasSlotKeys(slots) && AgeAccepted(slots["age"])
    requires slots["investmentAmount"].Some? && ParseInt(slots["investmentAmount"].value) == Int(v) && v <= 0
    ensures ValidateAgeInvestmentAmount(slots)
            == Success(ValidationResult(false, Some("investmentAmount"), Some(PlainText(AmountNotPositiveText))))
  {
  }

  /** With the age accepted, an amount from 1 to 4999 is the "$5000" violation. */
  lemma AmountUnderMinimum(slots: Slots, v: int)
    requires HasSlotKeys(slots) && AgeAccepted(slots["age"])
    requires slots["investmentAmount"].Some? && ParseInt(slots["investmentAmount"].value) == Int(v) && 1 <= v < 5000
    ensures ValidateAgeInvestmentAmount(slots)
            == Success(ValidationResult(false, Some("investmentAmount"), Some(PlainText(AmountUnderMinimumText))))
  {
  }

  /** An accepted age and an amount of at least 5000 give the bare valid result. */
  lemma ValuesAccepted(slots: Slots, a: int, v: int)
    requires HasSlotKeys(slots)
    requires slots["age"].Some? && ParseInt(slots["age"].value) == Int(a) && 1 <= a <= 65
    requires slots["investmentAmount"].Some? && ParseInt(slots["investmentAmount"].value) == Int(v) && v >= 5000
    ensures ValidateAgeInvestmentAmount(slots) == Success(ValidationResult(true, None, None))
  {
  }

  /** Absent slots and non-numeric text never cause a violation. */
  lemma AbsentOrNonNumericAccepted(slots: Slots)
    requires HasSlotKeys(slots)
    requires slots["age"].None? || ParseInt(slots["age"].value).NaN?
    requires slots["investmentAmount"].None? || ParseInt(slots["investmentAmount"].value).NaN?
    ensures ValidateAgeInvestmentAmount(slots) == Success(ValidationResult(true, None, None))
  {
  }
}
