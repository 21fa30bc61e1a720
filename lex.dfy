/**
 * The Amazon Lex (V1) request and response shapes the handler reads and builds,
 * the exceptions it can raise, and the three response builders
 * `elicit_slot`, `delegate` and `close`.
 */
module Lex {
  import opened Wrappers

  /** `currentIntent.slots`: slot name to the user's text, or `None` when not yet filled. */
  type Slots = map<string, Option<string>>

  /** A session attribute value: the platform sends strings, the handler stores ints. */
  datatype AttrValue = Text(text: string) | Number(number: int)

  type Attributes = map<string, AttrValue>

  /** A `{"contentType": ..., "content": ...}` message object. */
  datatype Message = Message(contentType: string, content: string)

  function PlainText(content: string): Message {
    Message("PlainText", content)
  }

  /** The `dialogAction` object of a response; its `type` field is given by ActionType. */
  datatype DialogAction =
    | ElicitSlot(intentName: string, slots: Slots, slotToElicit: string, message: Message)
    | Delegate(slots: Slots)
    | Close(fulfillmentState: string, message: Message)

  datatype Response = Response(sessionAttributes: Option<Attributes>, dialogAction: DialogAction)

  /** The Python exceptions the handler lets escape to the Lambda runtime. */
  datatype Error =
    | KeyError(key: string)            // a slot name missing from `currentIntent.slots`
    | TypeError                        // `str.lower(None)`: no risk level at fulfilment
    | UnboundLocalError(name: string)  // an unrecognised risk level leaves `bonds` unassigned
    | Exception(message: string)       // raised by `dispatch` for an unsupported intent

  /** The value of the `type` key of a `dialogAction`. */
  function ActionType(a: DialogAction): string {
    match a
    case ElicitSlot(_, _, _, _) => "ElicitSlot"
    case Delegate(_) => "Delegate"
    case Close(_, _) => "Close"
  }

  /** The slots the handler reads, in the order it reads them. */
  const SlotNames: seq<string> := ["firstName", "age", "investmentAmount", "riskLevel"]

  predicate HasSlotKeys(slots: Slots) {
    forall name | name in SlotNames :: name in slots
  }

  /** The first slot name whose lookup `slots[name]` raises KeyError, if any. */
  function MissingSlotKey(slots: Slots): (k: Option<string>)
    ensures k.None? <==> HasSlotKeys(slots)
    ensures k.Some? ==> k.value in SlotNames && k.value !in slots
    ensures k.Some? ==> forall i | 0 <= i < |SlotNames| && SlotNames[i] == k.value ::
                          forall j | 0 <= j < i :: SlotNames[j] in slots
  {
    if "firstName" !in slots then Some("firstName")
    else if "age" !in slots then Some("age")
    else if "investmentAmount" !in slots then Some("investmentAmount")
    else if "riskLevel" !in slots then Some("riskLevel")
    else None
  }

  /** `elicit_slot`: ask the user again for one slot. */
  function ElicitSlotResponse(sessionAttributes: Option<Attributes>, intentName: string, slots: Slots,
                              slotToElicit: string, message: Message): (r: Response)
    ensures ActionType(r.dialogAction) == "ElicitSlot" && r.sessionAttributes == sessionAttributes
    ensures r.dialogAction.intentName == intentName && r.dialogAction.slots == slots
    ensures r.dialogAction.slotToElicit == slotToElicit && r.dialogAction.message == message
  {
    Response(sessionAttributes, ElicitSlot(intentName, slots, slotToElicit, message))
  }

  /** `delegate`: let Lex choose the next step of the dialog. */
  function DelegateResponse(sessionAttributes: Option<Attributes>, slots: Slots): (r: Response)
    ensures ActionType(r.dialogAction) == "Delegate" && r.sessionAttributes == sessionAttributes
    ensures r.dialogAction.slots == slots
  {
    Response(sessionAttributes, Delegate(slots))
  }

  /** `close`: end the dialog with a final message. */
  function CloseResponse(sessionAttributes: Option<Attributes>, fulfillmentState: string, message: Message): (r: Response)
    ensures ActionType(r.dialogAction) == "Close" && r.sessionAttributes == sessionAttributes
    ensures r.dialogAction.fulfillmentState == fulfillmentState && r.dialogAction.message == message
  {
    Response(sessionAttributes, Close(fulfillmentState, message))
  }
}
