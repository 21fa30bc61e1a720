/** Concrete requests and the responses the handler gives them. */
module Scenarios {
  import opened Wrappers
  import opened Numbers
  import opened Lex
  import opened Risk
  import opened Validation
  import opened Handler

  function SlotsOf(age: Option<string>, amount: Option<string>, risk: Option<string>): Slots {
    map["firstName" := Some("Ana"), "age" := age, "investmentAmount" := amount, "riskLevel" := risk]
  }

  /** Age 10, 6000 invested, low risk, while the dialog is running: Delegate with bonds 60 and equities 40. */
  lemma ValidDialogAddsAllocation()
    ensures var req := Request(SupportedIntent, "DialogCodeHook", Some(map[]),
                               SlotsOf(Some("10"), Some("6000"), Some("low")));
            var h := DispatchRequest(req);
            && h.result == Success(Response(Some(map["bonds" := Number(60), "equities" := Number(40)]),
                                            Delegate(req.slots)))
            && h.request.sessionAttributes == Some(map["bonds" := Number(60), "equities" := Number(40)])
  {
    var slots := SlotsOf(Some("10"), Some("6000"), Some("low"));
    assert ShowInt(10) == "10" && ShowInt(6000) == "6000";
    ParseShowInt(10);
    ParseShowInt(6000);
    ValuesAccepted(slots, 10, 6000);
    var expected := map["bonds" := Number(60), "equities" := Number(40)];
    assert WithAllocation(map[], Allocation(60, 40)) == expected;
  }

  /** Age 70: the age slot is cleared and elicited with the age-limit message. */
  lemma AgeSeventyElicitsAge()
    ensures var req := Request(SupportedIntent, "DialogCodeHook", None,
                               SlotsOf(Some("70"), Some("6000"), Some("low")));
            var h := DispatchRequest(req);
            && h.result == Success(Response(None, ElicitSlot(SupportedIntent, SlotsOf(None, Some("6000"), Some("low")),
                                                             "age", PlainText(AgeOverLimitText))))
            && h.request.slots == SlotsOf(None, Some("6000"), Some("low"))
  {
    var slots := SlotsOf(Some("70"), Some("6000"), Some("low"));
    assert ShowInt(70) == "70";
    ParseShowInt(70);
    AgeOverLimit(slots, 70);
    assert slots["age" := None] == SlotsOf(None, Some("6000"), Some("low"));
  }

  /** Age 65 is accepted: the age bound is inclusive. */
  lemma AgeSixtyFiveAccepted()
    ensures ValidateAgeInvestmentAmount(SlotsOf(Some("65"), Some("5000"), None))
            == Success(ValidationResult(true, None, None))
  {
    assert ShowInt(65) == "65" && ShowInt(5000) == "5000";
    ParseShowInt(65);
    ParseShowInt(5000);
    ValuesAccepted(SlotsOf(Some("65"), Some("5000"), None), 65, 5000);
  }

  /** Non-numeric age text passes validation, because every comparison with NaN is false. */
  lemma NonNumericAgeAccepted()
    ensures ValidateAgeInvestmentAmount(SlotsOf(Some("ten"), None, None))
            == Success(ValidationResult(true, None, None))
  {
    NonDigitIsNaN("ten", 0);
  }

  /** Age text "+070" is read as 70 and rejected with the age-limit message, as Python's `int()` reads it. */
  lemma SignedPaddedAgeRejected()
    ensures ValidateAgeInvestmentAmount(SlotsOf(Some("+070"), None, None))
            == Success(ValidationResult(false, Some("age"), Some(PlainText(AgeOverLimitText))))
  {
  }

  /** Fulfilment with a high risk level, in any letter case, closes with the 20/80 recommendation. */
  lemma FulfilmentHighRisk()
    ensures var req := Request(SupportedIntent, "FulfillmentCodeHook", None, SlotsOf(None, None, Some("HIGH")));
            DispatchRequest(req).result
            == Success(Response(None, Close("Fulfilled",
                                            PlainText(RecommendationOpening + "20" + BondsLabel + "80" + EquitiesLabel))))
  {
    assert Lower("HIGH") == "high";
    assert ShowInt(20) == "20" && ShowInt(80) == "80";
  }

  /** An unknown intent raises an exception that names it. */
  lemma UnknownIntentRaises()
    ensures DispatchRequest(Request("unknownIntent", "DialogCodeHook", None, map[])).result
            == Failure(Exception("Intent with name unknownIntent not supported"))
  {
    assert "unknownIntent" != SupportedIntent;
    assert "Intent with name " + "unknownIntent" + " not supported" == "Intent with name unknownIntent not supported";
  }

  /** An amount of 4000 while the dialog is running elicits the amount with the "$5000" message. */
  lemma SmallAmountElicitsAmount()
    ensures var req := Request(SupportedIntent, "DialogCodeHook", None, SlotsOf(None, Some("4000"), None));
            DispatchRequest(req).result
            == Success(Response(None, ElicitSlot(SupportedIntent, SlotsOf(None, None, None),
                                                 "investmentAmount", PlainText(AmountUnderMinimumText))))
  {
    var slots := SlotsOf(None, Some("4000"), None);
    assert ShowInt(4000) == "4000";
    ParseShowInt(4000);
    AmountUnderMinimum(slots, 4000);
    assert slots["investmentAmount" := None] == SlotsOf(None, None, None);
  }

  /** A risk level outside the table raises at fulfilment: `bonds` is never bound. */
  lemma UnknownRiskLevelRaises()
    ensures var req := Request(SupportedIntent, "FulfillmentCodeHook", None, SlotsOf(None, None, Some("extreme")));
            DispatchRequest(req) == Handled(Failure(UnboundLocalError("bonds")), req)
  {
    assert Lower("extreme") == "extreme";
  }
}
