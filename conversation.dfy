/**
 * One entry of the bot's `user_states` dictionary: the step a user is at
 * in the registration or the add-availability conversation, and the
 * answers collected so far. A key the handlers never wrote is `None`.
 */
module Conversation {
  import opened Wrappers
  import opened Riders

  /** The values of the `state` key. */
  datatype Step = WaitingPhone | WaitingTransport | WaitingDistance | SelectingDay | WaitingTime

  datatype Session = Session(
    step: Step,
    userName: Option<string>,
    phone: Option<string>,
    transport: Option<Transport>,
    day: Option<int>)

  /**
   * What the handlers always store together with a step: the name with
   * `waiting_phone`, the phone with `waiting_transport`, the transport with
   * `waiting_distance`, and a weekday with `waiting_time`.
   */
  predicate WellFormed(s: Session) {
    && (s.step == WaitingPhone ==> s.userName.Some?)
    && (s.step == WaitingTransport ==> s.phone.Some?)
    && (s.step == WaitingDistance ==> s.transport.Some?)
    && (s.step == WaitingTime ==> s.day.Some? && IsDayOfWeek(s.day.value))
  }

  /** The entry `handle_register_rider` writes, replacing any earlier one. */
  function Registering(userName: string): (r: Session)
    ensures WellFormed(r) && r.step == WaitingPhone && r.userName == Some(userName)
    ensures r.phone.None? && r.transport.None? && r.day.None?
  {
    Session(WaitingPhone, Some(userName), None, None, None)
  }

  /** `handle_phone_received` on an existing entry: whatever its step, the phone is stored and the step advances. */
  function AfterPhone(s: Session, phone: string): (r: Session)
    ensures WellFormed(r) && r.step == WaitingTransport && r.phone == Some(phone)
    ensures r.userName == s.userName && r.transport == s.transport && r.day == s.day
  {
    s.(step := WaitingTransport, phone := Some(phone))
  }

  /** `handle_transport_selected` on an existing entry. */
  function AfterTransport(s: Session, t: Transport): (r: Session)
    ensures WellFormed(r) && r.step == WaitingDistance && r.transport == Some(t)
    ensures r.userName == s.userName && r.phone == s.phone && r.day == s.day
  {
    s.(step := WaitingDistance, transport := Some(t))
  }

  /** The entry `handle_add_availability` writes, replacing any earlier one. */
  function ChoosingDay(): (r: Session)
    ensures WellFormed(r) && r.step == SelectingDay
    ensures r.userName.None? && r.phone.None? && r.transport.None? && r.day.None?
  {
    Session(SelectingDay, None, None, None, None)
  }

  /** The entry `handle_day_selected` writes, replacing any earlier one. */
  function AwaitingTime(day: int): (r: Session)
    ensures r.step == WaitingTime && r.day == Some(day)
    ensures WellFormed(r) <==> IsDayOfWeek(day)
  {
    Session(WaitingTime, None, None, None, Some(day))
  }

  /** The name, phone and transport `handle_distance_selected` reads, when all three are present. */
  function RegistrationData(s: Session): (r: Option<(string, string, Transport)>)
    ensures r.Some? <==> s.userName.Some? && s.phone.Some? && s.transport.Some?
    ensures r.Some? ==> r.value == (s.userName.value, s.phone.value, s.transport.value)
  {
    if s.userName.Some? && s.phone.Some? && s.transport.Some? then
      Some((s.userName.value, s.phone.value, s.transport.value))
    else
      None
  }

  /** Register, phone, transport in that order leave everything the last step needs. */
  lemma RegistrationCollectsAnswers(name: string, phone: string, t: Transport)
    ensures RegistrationData(AfterTransport(AfterPhone(Registering(name), phone), t)) == Some((name, phone, t))
  {
  }

  /**
   * The phone and transport handlers do not look at the step, so a contact
   * shared during the availability conversation leads to a registration
   * without a name, which `handle_distance_selected` refuses.
   */
  lemma PhoneDuringAvailabilityHasNoName(phone: string, t: Transport)
    ensures AfterTransport(AfterPhone(ChoosingDay(), phone), t).step == WaitingDistance
    ensures RegistrationData(AfterTransport(AfterPhone(ChoosingDay(), phone), t)).None?
  {
  }

  /** The names of the week list that `handle_day_selected` indexes. */
  const DayCount: int := 7

  /**
   * As written, `handle_day_selected` only guards the day by indexing the
   * seven-name list: Python accepts indices from -7 to 6, counting negative
   * ones from the end.
   */
  predicate DayAcceptedAsWritten(day: int) {
    -DayCount <= day < DayCount
  }

  /** The guard the day buttons `day_0` .. `day_6` call for. */
  predicate DayAccepted(day: int) {
    0 <= day < DayCount
  }

  /**
   * The data `day_-3` passes the guard as written and stores a day that is
   * not a weekday; the availability created from it would have
   * `day_of_week == -3`.
   */
  lemma NegativeDayAcceptedAsWritten()
    ensures DayAcceptedAsWritten(-3)
    ensures !WellFormed(AwaitingTime(-3))
    ensures !IsDayOfWeek(-3)
  {
  }

  /** With the corrected guard, the session handed to the time step always holds a weekday. */
  lemma DayAcceptedIsWeekday(day: int)
    ensures DayAccepted(day) <==> IsDayOfWeek(day)
    ensures DayAccepted(day) ==> WellFormed(AwaitingTime(day))
    ensures DayAccepted(day) ==> DayAcceptedAsWritten(day)
  {
  }
}
