/**
 * How `process_update` picks a handler for an incoming text message: a
 * shared contact first, then a pending time answer, then the commands,
 * then a pending phone answer.
 */
module Routing {
  import opened Wrappers
  import opened Text
  import opened Conversation

  /** The handler a message is passed to. */
  datatype Route =
    | ToPhone(phone: string)
    | ToTime(text: string)
    | ToStart
    | ToAvailability
    | ToMyShifts
    | ToUnknown

  /** The text starts with one of the five commands the bot knows. */
  predicate IsCommand(text: string) {
    StartsWith(text, "/start") || StartsWith(text, "/menu") || StartsWith(text, "/disponibilita") ||
    StartsWith(text, "/turni") || StartsWith(text, "/help")
  }

  /**
   * The route of a message with text `text` (empty when it has none), an
   * optional shared phone number, from a user whose entry is at `step`
   * (`None` when there is no entry).
   */
  function RouteMessage(text: string, contact: Option<string>, step: Option<Step>): (r: Route)
    ensures contact.Some? ==> r == ToPhone(contact.value)
    ensures contact.None? && step == Some(WaitingTime) ==> r == ToTime(text)
    ensures r.ToTime? ==> contact.None? && step == Some(WaitingTime) && r.text == text
    ensures r.ToPhone? && contact.None? ==> step == Some(WaitingPhone) && !IsCommand(text) && r.phone == text
    ensures r == ToUnknown <==>
      contact.None? && step != Some(WaitingTime) && !IsCommand(text) && step != Some(WaitingPhone)
    ensures r == ToStart ==> StartsWith(text, "/start") || StartsWith(text, "/menu") || StartsWith(text, "/help")
    ensures r == ToAvailability ==> StartsWith(text, "/disponibilita")
    ensures r == ToMyShifts ==> StartsWith(text, "/turni")
    ensures contact.None? && step != Some(WaitingTime) && IsCommand(text) ==> r in {ToStart, ToAvailability, ToMyShifts}
  {
    if contact.Some? then ToPhone(contact.value)
    else if step == Some(WaitingTime) then ToTime(text)
    else if StartsWith(text, "/start") then ToStart
    else if StartsWith(text, "/menu") then ToStart
    else if StartsWith(text, "/disponibilita") then ToAvailability
    else if StartsWith(text, "/turni") then ToMyShifts
    else if StartsWith(text, "/help") then ToStart
    else if step == Some(WaitingPhone) then ToPhone(text)
    else ToUnknown
  }
}
