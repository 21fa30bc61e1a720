/**
 * `recommend_portfolio` and `dispatch`. The pure functions Recommend and DispatchRequest
 * give the response (or exception) and the request as the handler leaves it; the class
 * IntentRequest holds the caller's dictionaries and its methods update them in place.
 */
module Handler {
  import opened Wrappers
  import opened Numbers
  import opened Lex
  import opened Risk
  import opened Validation

  /** The fields of the Lex event the handler reads (`userId` and `bot` only feed logging). */
  datatype Request = Request(intentName: string, invocationSource: string,
                             sessionAttributes: Option<Attributes>, slots: Slots)

  /** What a call returns or raises, and the request as the call leaves it. */
  datatype Handled = Handled(result: Result<Response, Error>, request: Request)

  const SupportedIntent := "recommendPortfolio"

  /** The fixed parts of the fulfilment message, with Python's triple-quoted layout. */
  const RecommendationOpening := "We recommend a portfolio of\n            "
  const BondsLabel := "% bonds (AGG) and "
  const EquitiesLabel := "% equities (SPY)\n            "

  /** The content of the fulfilment message; both figures in it read back as the allocation. */
  function RecommendationText(alloc: Allocation): (r: string)
    ensures var b := |RecommendationOpening| + |ShowInt(alloc.bonds)|;
            var e := b + |BondsLabel|;
            && |r| == e + |ShowInt(alloc.equities)| + |EquitiesLabel|
            && r[..|RecommendationOpening|] == RecommendationOpening
            && ParseInt(r[|RecommendationOpening|..b]) == Int(alloc.bonds)
            && r[b..e] == BondsLabel
            && ParseInt(r[e..e + |ShowInt(alloc.equities)|]) == Int(alloc.equities)
            && r[e + |ShowInt(alloc.equities)|..] == EquitiesLabel
  {
    var bonds := ShowInt(alloc.bonds);
    var equities := ShowInt(alloc.equities);
    ParseShowInt(alloc.bonds);
    ParseShowInt(alloc.equities);
    ConcatSlices(RecommendationOpening, bonds, BondsLabel, equities, EquitiesLabel);
    RecommendationOpening + bonds + BondsLabel + equities + EquitiesLabel
  }

  /** Each of five concatenated strings is the slice of the whole at its offset. */
  lemma ConcatSlices(a: string, b: string, c: string, d: string, e: string)
    ensures var r := a + b + c + d + e;
            var i, j := |a| + |b|, |a| + |b| + |c|;
            && |r| == j + |d| + |e|
            && r[..|a|] == a && r[|a|..i] == b && r[i..j] == c && r[j..j + |d|] == d && r[j + |d|..] == e
  {
  }

  /** The session attributes with the allocation written into `bonds` and `equities`. */
  function WithAllocation(attrs: Attributes, alloc: Allocation): (r: Attributes)
    ensures r.Keys == attrs.Keys + {"bonds", "equities"}
    ensures r["bonds"] == Number(alloc.bonds) && r["equities"] == Number(alloc.equities)
    ensures forall k | k in attrs && k != "bonds" && k != "equities" :: r[k] == attrs[k]
  {
    attrs["bonds" := Number(alloc.bonds)]["equities" := Number(alloc.equities)]
  }

  /** `recommend_portfolio` on a request; only the violated slot or the caller's session attributes change. */
  function Recommend(req: Request): (h: Handled)
    ensures h.request.intentName == req.intentName && h.request.invocationSource == req.invocationSource
    ensures h.request.slots.Keys == req.slots.Keys
    ensures h.result.Failure? ==> h.request == req && !h.result.error.Exception?
    ensures h.result.Success? && !h.result.value.dialogAction.ElicitSlot? ==> h.request.slots == req.slots
    ensures h.result.Success? && h.result.value.dialogAction.ElicitSlot? ==>
              h.request.sessionAttributes == req.sessionAttributes
    ensures h.request.sessionAttributes.None? <==> req.sessionAttributes.None?
    ensures !HasSlotKeys(req.slots) ==> h == Handled(Failure(KeyError(MissingSlotKey(req.slots).value)), req)
  {
    match ValidateAgeInvestmentAmount(req.slots)
    case Failure(e) => Handled(Failure(e), req)
    case Success(validation) =>
      if req.invocationSource == "DialogCodeHook" then
        if !validation.isValid then
          var slot := validation.violatedSlot.value;
          var slots := req.slots[slot := None];
          var response := ElicitSlotResponse(req.sessionAttributes, req.intentName, slots, slot, validation.message.value);
          Handled(Success(response), req.(slots := slots))
        else
          var output := if req.sessionAttributes.Some? then req.sessionAttributes.value else map[];
          var level := req.slots["riskLevel"];
          if level.None? then
            Handled(Success(DelegateResponse(Some(output), req.slots)), req)
          else
            match ParseRiskLevel(level)
            case Failure(e) => Handled(Failure(e), req)
            case Success(alloc) =>
              var updated := WithAllocation(output, alloc);
              var after := if req.sessionAttributes.Some? then req.(sessionAttributes := Some(updated)) else req;
              Handled(Success(DelegateResponse(Some(updated), req.slots)), after)
      else
        match ParseRiskLevel(req.slots["riskLevel"])
        case Failure(e) => Handled(Failure(e), req)
        case Success(alloc) =>
          Handled(Success(CloseResponse(req.sessionAttributes, "Fulfilled", PlainText(RecommendationText(alloc)))), req)
  }

  /** `dispatch`: the supported intent goes to Recommend, any other raises an Exception naming it. */
  function DispatchRequest(req: Request): (h: Handled)
    ensures h.result.Failure? && h.result.error.Exception? <==> req.intentName != SupportedIntent
    ensures req.intentName == SupportedIntent ==> h == Recommend(req)
    ensures req.intentName != SupportedIntent ==>
              h.request == req && h.result.error.message == "Intent with name " + req.intentName + " not supported"
  {
    if req.intentName == SupportedIntent then Recommend(req)
    else Handled(Failure(Exception("Intent with name " + req.intentName + " not supported")), req)
  }

  /** A dialog hook with a failed validation clears exactly the violated slot and elicits it again. */
  lemma InvalidInputElicitsSlot(req: Request, validation: ValidationResult)
    requires req.invocationSource == "DialogCodeHook"
    requires ValidateAgeInvestmentAmount(req.slots) == Success(validation) && !validation.isValid
    ensures var h := Recommend(req);
            var slot := validation.violatedSlot.value;
            && h.result.Success?
            && h.result.value == Response(req.sessionAttributes,
                                          ElicitSlot(req.intentName, h.request.slots, slot, validation.message.value))
            && slot in req.slots && req.slots[slot].Some? && h.request.slots[slot].None?
            && (forall k | k in req.slots && k != slot :: h.request.slots[k] == req.slots[k])
            && h.request.sessionAttributes == req.sessionAttributes
  {
  }

  /**
   * A dialog hook with a passed validation delegates with the slots unchanged; a present risk level
   * adds `bonds` and `equities` to the session attributes (an empty map when there were none).
   */
  lemma ValidInputDelegates(req: Request, validation: ValidationResult)
    requires req.invocationSource == "DialogCodeHook"
    requires ValidateAgeInvestmentAmount(req.slots) == Success(validation) && validation.isValid
    requires req.slots["riskLevel"].None? || ParseRiskLevel(req.slots["riskLevel"]).Success?
    ensures var h := Recommend(req);
            var base := if req.sessionAttributes.Some? then req.sessionAttributes.value else map[];
            var level := req.slots["riskLevel"];
            && h.result.Success?
            && h.result.value.dialogAction == Delegate(req.slots)
            && h.result.value.sessionAttributes.Some?
            && (level.None? ==> h.result.value.sessionAttributes.value == base)
            && (level.Some? ==>
                  var alloc := RiskTable[Lower(level.value)];
                  var out := h.result.value.sessionAttributes.value;
                  && out.Keys == base.Keys + {"bonds", "equities"}
                  && out["bonds"] == Number(alloc.bonds) && out["equities"] == Number(alloc.equities)
                  && (forall k | k in base && k != "bonds" && k != "equities" :: out[k] == base[k]))
            && h.request.slots == req.slots
            && h.request.sessionAttributes == (if req.sessionAttributes.Some? then h.result.value.sessionAttributes else None)
  {
  }

  /** Any other invocation source closes the dialog as Fulfilled, whatever the validation says. */
  lemma FulfillmentCloses(req: Request)
    requires req.invocationSource != "DialogCodeHook" && HasSlotKeys(req.slots)
    requires ParseRiskLevel(req.slots["riskLevel"]).Success?
    ensures var alloc := RiskTable[Lower(req.slots["riskLevel"].value)];
            Recommend(req) == Handled(Success(Response(req.sessionAttributes,
                                                       Close("Fulfilled", PlainText(RecommendationText(alloc))))), req)
  {
  }

  /** An unrecognised or absent risk level raises where it is looked up, and changes nothing. */
  lemma RiskLevelErrors(req: Request)
    requires HasSlotKeys(req.slots)
    requires ParseRiskLevel(req.slots["riskLevel"]).Failure?
    requires req.invocationSource != "DialogCodeHook" || (req.slots["riskLevel"].Some? && ValidateAgeInvestmentAmount(req.slots).value.isValid)
    ensures Recommend(req) == Handled(Failure(ParseRiskLevel(req.slots["riskLevel"]).error), req)
  {
  }

  /** The caller's request and session-attribute dictionaries, updated in place by the handler. */
  class IntentRequest {
    var intentName: string
    var invocationSource: string
    var sessionAttributes: Option<Attributes>
    var slots: Slots

    function Value(): Request
      reads this
    {
      Request(intentName, invocationSource, sessionAttributes, slots)
    }

    constructor (req: Request)
      ensures Value() == req
    {
      intentName := req.intentName;
      invocationSource := req.invocationSource;
      sessionAttributes := req.sessionAttributes;
      slots := req.slots;
    }

    /** `recommend_portfolio`, writing to the caller's slots and session attributes as the source does. */
    method RecommendPortfolio() returns (r: Result<Response, Error>)
      modifies this
      ensures r == Recommend(old(Value())).result
      ensures Value() == Recommend(old(Value())).request
    {
      var validation := ValidateAgeInvestmentAmount(slots);
      if validation.Failure? {
        return Failure(validation.error);
      }
      var result := validation.value;
      if invocationSource == "DialogCodeHook" {
        if !result.isValid {
          slots := slots[result.violatedSlot.value := None];
          return Success(ElicitSlotResponse(sessionAttributes, intentName, slots,
                                            result.violatedSlot.value, result.message.value));
        }
        var output := if sessionAttributes.Some? then sessionAttributes.value else map[];
        var level := slots["riskLevel"];
        if level.Some? {
          var alloc := ParseRiskLevel(level);
          if alloc.Failure? {
            return Failure(alloc.error);
          }
          output := output["bonds" := Number(alloc.value.bonds)];
          output := output["equities" := Number(alloc.value.equities)];
          if sessionAttributes.Some? {
            // `output` is the caller's own dictionary, so the caller sees both writes
            sessionAttributes := Some(output);
          }
        }
        return Success(DelegateResponse(Some(output), slots));
      }
      var alloc := ParseRiskLevel(slots["riskLevel"]);
      if alloc.Failure? {
        return Failure(alloc.error);
      }
      return Success(CloseResponse(sessionAttributes, "Fulfilled", PlainText(RecommendationText(alloc.value))));
    }

    /** `dispatch`: route the supported intent, raise for any other. */
    method Dispatch() returns (r: Result<Response, Error>)
      modifies this
      ensures r == DispatchRequest(old(Value())).result
      ensures Value() == DispatchRequest(old(Value())).request
    {
      if intentName == SupportedIntent {
        r := RecommendPortfolio();
        return;
      }
      r := Failure(Exception("Intent with name " + intentName + " not supported"));
    }
  }
}
