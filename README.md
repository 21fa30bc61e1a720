# recommendPortfolio: a Dafny model of the Lex slot validator and responder

This project models `Lambda/lambda_function.py`, the AWS Lambda code hook behind the
Amazon Lex bot intent `recommendPortfolio`. Lex calls the hook while it collects the
slots `firstName`, `age`, `investmentAmount` and `riskLevel` (invocation source
`DialogCodeHook`) and once more to fulfil the intent. The hook:

- validates the age, then the investment amount, and returns the first violation;
- during the dialog, clears the offending slot and asks Lex to elicit it again, or
  delegates to Lex after writing the `bonds`/`equities` split for the chosen risk level
  into the session attributes;
- at fulfilment, closes the dialog with a plain-text portfolio recommendation;
- raises an exception for any intent other than `recommendPortfolio`.

Modules, one per part of the handler:

- `Wrappers` holds `Option` and `Result`.
- `Numbers` models `parse_int` as a decimal parser whose failure is `NaN`. The
  predicates `AtMost`, `Above` and `Below` are Python's `<=`, `>` and `<`, and all three
  are false for `NaN`. `ShowInt` is Python's `str(int)`.
- `Lex` holds the slot, session-attribute and response shapes, the exceptions, and the
  builders `elicit_slot`, `delegate` and `close`. The request record is `Handler.Request`.
- `Risk` models `parse_risk_level` and the four-row allocation table it encodes.
- `Validation` models `build_validation_result` and `validate_age_investmentAmount`.
- `Handler` models `recommend_portfolio` and `dispatch`. They are pure functions
  (`Recommend`, `DispatchRequest`) that return the response and the request as the
  handler leaves it. The class `IntentRequest` holds the caller's slot and
  session-attribute dictionaries, and its methods update them in place as the Python
  does. Each method is proved equal to its function.
- `Scenarios` holds concrete requests and the responses they get.

Exceptions are values of `Lex.Error`:

- `KeyError`: one of the four slot names is missing from `currentIntent.slots`. The
  handler reads all four before doing anything else.
- `TypeError`: `str.lower(None)`, when fulfilment runs with no risk level.
- `UnboundLocalError("bonds")`: the risk level is not one of the four.
- `Exception`: the intent is not supported.

An exception leaves the caller's dictionaries as they were, because `parse_risk_level`
raises before the first write.

Behaviour as written, where it differs from the documented intent:

- An age of 65 is accepted. The test is `age > 65`, although the rejection message says
  users "must be under 65".
- Text that is not an integer becomes NaN. Every comparison with NaN is false, so such
  an age or amount passes validation instead of being rejected. The model follows the
  code.

## Model

| member | source | states |
|---|---|---|
| `Numbers.ParseInt` | Lambda/lambda_function.py:7-14 | empty text is NaN; a negative result comes from text that starts with `-` |
| `Numbers.ParseShowInt` | Lambda/lambda_function.py:7-14 | the printed form of every integer parses back to that integer |
| `Numbers.NonDigitIsNaN` | Lambda/lambda_function.py:11-14 | text with a character that is neither a digit nor a leading sign parses to NaN |
| `Numbers.ShowInt` | Lambda/lambda_function.py:169-173 | `str(n)` starts with `-` exactly when n is negative, and the rest is a non-empty run of decimal digits with no leading zero unless n is 0 |
| `Risk.Lower` | Lambda/lambda_function.py:17 | `str.lower` keeps the length and lower-cases each character |
| `Risk.ParseRiskLevel` | Lambda/lambda_function.py:16-29 | `None` raises TypeError; a level succeeds iff its lower-case form is one of none/low/medium/high, and then gives that table row, (100,0), (60,40), (40,60) or (20,80), with bonds + equities = 100; any other level raises UnboundLocalError for `bonds` |
| `Risk.RiskLevelIgnoresCase` | Lambda/lambda_function.py:17-28 | two levels that agree after lower-casing give the same result, and so does a level and its lower-case form |
| `Lex.MissingSlotKey` | Lambda/lambda_function.py:178-181 | no key is missing iff all four slot names are present; otherwise the result is the first missing name in reading order |
| `Lex.ElicitSlotResponse` | Lambda/lambda_function.py:53-67 | an action of type `ElicitSlot` whose intentName, slots, slotToElicit and message are the arguments; session attributes passed through |
| `Lex.DelegateResponse` | Lambda/lambda_function.py:70-78 | an action of type `Delegate` whose slots are the argument; session attributes passed through |
| `Lex.CloseResponse` | Lambda/lambda_function.py:81-95 | an action of type `Close` whose fulfillmentState and message are the arguments; session attributes passed through |
| `Validation.BuildValidationResult` | Lambda/lambda_function.py:31-42 | the `message` key is present iff content is given, and it is then PlainText with that content |
| `Validation.ValidateAgeInvestmentAmount` | Lambda/lambda_function.py:177-215 | raises KeyError for the first missing slot name; otherwise valid iff the age is absent, NaN or in 1..65 and the amount is absent, NaN or at least 5000; valid iff there is no violated slot iff there is no message; a violated slot was filled, and it is `age` when the age is rejected and `investmentAmount` otherwise; an age violation carries one of the two age messages and an amount violation one of the two amount messages |
| `Validation.AgeNotPositive` | Lambda/lambda_function.py:183-190 | age text parsing to a ≤ 0 gives the age violation with "Please enter a valid age. Age must be greater than 0", whatever the amount |
| `Validation.AgeOverLimit` | Lambda/lambda_function.py:191-196 | age text parsing to a > 65 gives the age violation with the "must be under 65." message, whatever the amount |
| `Validation.AgeInRange` | Lambda/lambda_function.py:183-196 | age text parsing to a value from 1 to 65 inclusive never violates the age slot |
| `Validation.AmountNotPositive` | Lambda/lambda_function.py:197-204 | with the age accepted, amount text parsing to v ≤ 0 gives the investmentAmount violation with "Please enter an investment amount greater than 0." |
| `Validation.AmountUnderMinimum` | Lambda/lambda_function.py:205-210 | with the age accepted, amount text parsing to a value from 1 to 4999 gives the investmentAmount violation with the "$5000" message |
| `Validation.ValuesAccepted` | Lambda/lambda_function.py:183-215 | age text parsing into 1..65 and amount text parsing to at least 5000 give isValid true, no violated slot and no message key |
| `Validation.AbsentOrNonNumericAccepted` | Lambda/lambda_function.py:183-215 | absent slots and non-numeric text never cause a violation |
| `Handler.RecommendationText` | Lambda/lambda_function.py:164-175 | the fulfilment text is the fixed opening, the bonds figure, the bonds label, the equities figure and the closing text, and both figures read back as the allocation |
| `Handler.WithAllocation` | Lambda/lambda_function.py:158-161 | adds exactly the keys bonds and equities, sets them from the allocation, and keeps every other attribute |
| `Handler.Recommend` | Lambda/lambda_function.py:131-175 | the intent name, invocation source and slot names never change; an exception changes nothing and is never the dispatch Exception; only an ElicitSlot changes the slots, and then the session attributes stay the same; session attributes that were None stay None; a missing slot name raises KeyError for the first one missing, changing nothing |
| `Handler.DispatchRequest` | Lambda/lambda_function.py:218-230 | `recommendPortfolio` is routed to `Recommend`; an Exception is raised iff the intent is not `recommendPortfolio`, with the message "Intent with name X not supported", and the request is then unchanged |
| `Handler.InvalidInputElicitsSlot` | Lambda/lambda_function.py:145-154 | dialog hook with a failed validation: ElicitSlot of the violated slot with the validation message, intent name and session attributes passed through, that slot set to None and every other slot unchanged |
| `Handler.ValidInputDelegates` | Lambda/lambda_function.py:155-162 | dialog hook with a passed validation: Delegate with the unchanged slots; the attributes start from an empty map when they were None; bonds and equities are set from the table only when a risk level is present; every other attribute is unchanged; the caller's own attributes are updated only when they were not None |
| `Handler.FulfillmentCloses` | Lambda/lambda_function.py:164-175 | any other invocation source closes with "Fulfilled" and the recommendation text, whatever the validation says, and changes nothing |
| `Handler.RiskLevelErrors` | Lambda/lambda_function.py:159-172 | an absent or unknown risk level, where it is looked up, raises the lookup's exception and changes nothing |
| `Handler.IntentRequest.RecommendPortfolio` | Lambda/lambda_function.py:131-175 | updates the caller's slots and session attributes in place and returns exactly what `Recommend` gives for the old request |
| `Handler.IntentRequest.Dispatch` | Lambda/lambda_function.py:218-230 | returns and leaves the request exactly as `DispatchRequest` says for the old request |
| `Scenarios.ValidDialogAddsAllocation` | Lambda/lambda_function.py:155-162 | age "10", amount "6000", risk "low" in the dialog: Delegate, with bonds 60 and equities 40 added to the attributes |
| `Scenarios.AgeSeventyElicitsAge` | Lambda/lambda_function.py:145-154 | age "70" in the dialog: the age slot is cleared and elicited with the age-limit message |
| `Scenarios.AgeSixtyFiveAccepted` | Lambda/lambda_function.py:191 | age "65" with amount "5000" is valid |
| `Scenarios.SignedPaddedAgeRejected` | Lambda/lambda_function.py:191-196 | age text "+070" is read as 70 and rejected with the age-limit message |
| `Scenarios.NonNumericAgeAccepted` | Lambda/lambda_function.py:11-14 | age "ten" is valid |
| `Scenarios.FulfilmentHighRisk` | Lambda/lambda_function.py:164-175 | fulfilment with risk "HIGH" closes with 20% bonds and 80% equities |
| `Scenarios.UnknownIntentRaises` | Lambda/lambda_function.py:224-230 | intent "unknownIntent" raises "Intent with name unknownIntent not supported" |
| `Scenarios.SmallAmountElicitsAmount` | Lambda/lambda_function.py:205-210 | amount "4000" in the dialog elicits investmentAmount with the "$5000" message |
| `Scenarios.UnknownRiskLevelRaises` | Lambda/lambda_function.py:16-29 | fulfilment with risk "extreme" raises UnboundLocalError for `bonds` and changes nothing |

## Left out

- Logging (lines 2-4, 222, 239) has no effect on behaviour.
- `lambda_handler` (lines 234-241) only forwards the event to `dispatch`. The Lex
  platform, the event transport and the Lambda `context` are outside the model, as
  are the `userId` and `bot` fields, which are read only for logging.
- `get_slots` (lines 46-50) is the field access `slots` of the request.
- The instructions block at lines 98-127 is documentation, not code.
- The unused locals (`first_name`, and the repeated reads of `invocationSource`) are not
  modelled. Only their one effect is kept: each slot read raises KeyError when the slot
  name is missing.
- Numbers.ParseInt: accepts only an optional sign followed by ASCII digits. It does not
  model the surrounding whitespace, the digit-separating underscores or the non-ASCII
  digits that Python's `int()` also accepts.
- Floating point: the NaN that `parse_int` returns is the marker `Numbers.NaN`. It is
  not an IEEE float; it only keeps the property that every comparison with it is false.
- Risk.Lower: lower-cases ASCII `A`-`Z` only, not the full Unicode case mapping of
  `str.lower`.
- Aliasing: the Python response holds the same dictionary objects as the request. The
  model gives equal values instead, so a later change to one would not show in the
  other. Nothing in the handler changes them after the response is built.
- Validating the same request twice gives the same result. This holds because the
  validator is a Dafny function, so it has no lemma of its own.
