/**
 * The bot itself: the `user_states` dictionary it keeps per Telegram user
 * and the handlers that move users through registration and through adding
 * availability, accept or reject assignments, and list shifts. Sending a
 * message is replaced by the `Reply` a handler returns. A handler that
 * raises, inside or outside its own `try`, leaves `user_states` as it was;
 * the account `handle_distance_selected` gets or creates before it can
 * raise stays in the store.
 */
module Bot {
  import opened Wrappers
  import opened Text
  import opened Times
  import opened Riders
  import opened Shifts
  import opened Database
  import opened Conversation
  import opened Callback
  import opened Routing
  import Window

  /** What the bot answers, without its text and keyboard. */
  datatype Reply =
    | NoReply
    | Welcome(registered: bool)
    | AskPhone
    | AskTransport
    | AskDistance
    | Registered(rider: int)
    | RegistrationFailed
    | AvailabilityOverview(rider: int)
    | NotRegistered
    | AskDay
    | AskTime(day: int)
    | AvailabilityAdded(availability: int)
    | InvalidTimeFormat
    | ShiftList(owner: int, assignments: seq<int>)
    | OpenShiftList(shifts: seq<int>)
    | ShiftConfirmed
    | AcceptFailed
    | ShiftRejected
    | RejectFailed
    | UnknownCommand

  /** An inbound update, reduced to the fields `process_update` reads. */
  datatype Update =
    | Message(sender: int, firstName: Option<string>, text: string, contact: Option<string>)
    | CallbackQuery(sender: int, firstName: Option<string>, data: string)
    | OtherUpdate

  /** The name used when Telegram sends no first name. */
  const DefaultUserName: string := "Utente"

  /** The username of the account created for a Telegram user. */
  function AccountName(telegramId: int): (name: string)
    ensures StartsWith(name, "telegram_")
  {
    var name := "telegram_" + IntToString(telegramId);
    assert name[..9] == "telegram_";
    name
  }

  /** Different Telegram users never share an account. */
  lemma AccountNameInjective(a: int, b: int)
    requires AccountName(a) == AccountName(b)
    ensures a == b
  {
    assert IntToString(a) == AccountName(a)[9..];
    assert IntToString(b) == AccountName(b)[9..];
    ParseIntToString(a);
    ParseIntToString(b);
  }

  /** The data of a day button for day -3 is `day_-3`. */
  lemma NegativeDayData()
    ensures Encode(SelectDay(-3)) == "day_-3"
  {
    assert NatToString(3) == [DigitChar(3)];
    assert IntToString(-3) == "-3";
  }

  /**
   * The button data of a day from -7 to -1, such as `day_-3`, reaches the
   * day handler with that day, which the list index as written accepts and
   * the weekday check refuses.
   */
  lemma NegativeDayCallback(day: int)
    requires -DayCount <= day < 0
    ensures Decode(Encode(SelectDay(day))) == Dispatch(SelectDay(day))
    ensures DayAcceptedAsWritten(day) && !DayAccepted(day)
  {
    DecodeEncode(SelectDay(day));
  }

  class RiderMatchBot {
    /** `user_states`: the conversation entry of each Telegram user that has one. */
    var userStates: map<int, Session>
    const store: Store

    /**
     * The store is valid, every entry is well formed, and every window is on
     * a weekday: the store itself accepts any day, and the day handler
     * admits only the seven choices.
     */
    ghost predicate Valid()
      reads this, store
    {
      && store.Valid()
      && (forall tg :: tg in userStates ==> WellFormed(userStates[tg]))
      && (forall id :: id in store.availabilities ==> IsDayOfWeek(store.availabilities[id].day))
    }

    constructor (store: Store)
      requires store.Valid()
      requires forall id :: id in store.availabilities ==> IsDayOfWeek(store.availabilities[id].day)
      ensures Valid() && userStates == map[] && this.store == store
    {
      userStates := map[];
      this.store := store;
    }

    /** Some rider has this telegram id. */
    ghost predicate HasRider(telegramId: int)
      reads store
    {
      exists id :: id in store.riders && store.riders[id].telegramId == telegramId
    }

    /** Neither the telegram id nor the account named after it has a rider yet. */
    ghost predicate CanRegister(telegramId: int)
      reads store
    {
      && !HasRider(telegramId)
      && (AccountName(telegramId) in store.users ==>
            forall id :: id in store.riders ==> store.riders[id].user != store.users[AccountName(telegramId)])
    }

    /** The rider with this telegram id has no window starting at `start` on `day`. */
    ghost predicate WindowFree(telegramId: int, day: int, start: Time)
      reads store
    {
      exists id :: id in store.riders && store.riders[id].telegramId == telegramId &&
        !store.WindowTaken(id, day, start)
    }

    /** `handle_register_rider`: starts registration, replacing any entry. */
    method RegisterRider(telegramId: int, userName: string) returns (reply: Reply)
      requires Valid()
      modifies this
      ensures Valid()
      ensures userStates == old(userStates)[telegramId := Registering(userName)]
      ensures reply == AskPhone
    {
      userStates := userStates[telegramId := Registering(userName)];
      reply := AskPhone;
    }

    /** `handle_phone_received`: without an entry the lookup raises and nothing changes. */
    method PhoneReceived(telegramId: int, phone: string) returns (reply: Reply)
      requires Valid()
      modifies this
      ensures Valid()
      ensures telegramId in old(userStates) ==>
        userStates == old(userStates)[telegramId := AfterPhone(old(userStates)[telegramId], phone)] &&
        reply == AskTransport
      ensures telegramId !in old(userStates) ==> userStates == old(userStates) && reply == NoReply
    {
      if telegramId in userStates {
        userStates := userStates[telegramId := AfterPhone(userStates[telegramId], phone)];
        reply := AskTransport;
      } else {
        reply := NoReply;
      }
    }

    /**
     * `handle_transport_selected`: a key other than the three choices raises
     * on the name lookup, a user without an entry raises on the update.
     */
    method TransportSelected(telegramId: int, key: string) returns (reply: Reply)
      requires Valid()
      modifies this
      ensures Valid()
      ensures telegramId in old(userStates) && TransportFromKey(key).Some? ==>
        userStates == old(userStates)[telegramId :=
          AfterTransport(old(userStates)[telegramId], TransportFromKey(key).value)] &&
        reply == AskDistance
      ensures !(telegramId in old(userStates) && TransportFromKey(key).Some?) ==>
        userStates == old(userStates) && reply == NoReply
    {
      var t := TransportFromKey(key);
      if t.Some? && telegramId in userStates {
        userStates := userStates[telegramId := AfterTransport(userStates[telegramId], t.value)];
        reply := AskDistance;
      } else {
        reply := NoReply;
      }
    }

    /**
     * `handle_distance_selected`: gets or creates the account
     * `telegram_<id>`, then creates the rider. The account is created before
     * phone and transport are read, so it stays even when the rider is not
     * created. A distance wider than the column makes the insert raise.
     * Only a created rider clears the entry.
     */
    method DistanceSelected(telegramId: int, km: int) returns (reply: Reply)
      requires Valid()
      modifies this, store
      ensures Valid()
      ensures telegramId !in old(userStates) ==> unchanged(this) && unchanged(store) && reply == NoReply
      ensures reply.Registered? <==>
        telegramId in old(userStates) && RegistrationData(old(userStates)[telegramId]).Some? &&
        old(CanRegister(telegramId)) && FitsInteger(km)
      ensures reply.Registered? ==>
        var (_, phone, transport) := RegistrationData(old(userStates)[telegramId]).value;
        && userStates == old(userStates) - {telegramId}
        && reply.rider !in old(store.riders)
        && AccountName(telegramId) in store.users
        && store.riders ==
             old(store.riders)[reply.rider := NewRider(store.users[AccountName(telegramId)], telegramId, phone, transport, km)]
      ensures !reply.Registered? ==> userStates == old(userStates) && store.riders == old(store.riders)
      ensures telegramId in old(userStates) && !reply.Registered? ==> reply == RegistrationFailed
      ensures telegramId in old(userStates) && old(userStates)[telegramId].userName.Some? ==>
        AccountName(telegramId) in store.users
      ensures telegramId in old(userStates) && old(userStates)[telegramId].userName.None? ==>
        store.users == old(store.users)
      ensures forall n :: n in old(store.users) ==> n in store.users && store.users[n] == old(store.users)[n]
      ensures forall n :: n in store.users && n !in old(store.users) ==> n == AccountName(telegramId)
      ensures store.availabilities == old(store.availabilities)
      ensures store.shifts == old(store.shifts) && store.assignments == old(store.assignments)
    {
      if telegramId !in userStates {
        return NoReply;
      }
      var s := userStates[telegramId];
      if s.userName.None? {
        return RegistrationFailed;
      }
      ghost var before := store.users;
      var user := store.GetOrCreateUser(AccountName(telegramId));
      if s.phone.None? || s.transport.None? {
        return RegistrationFailed;
      }
      assert !FitsInteger(km) || store.RiderTaken(user, telegramId) <==>
        !FitsInteger(km) || old(!CanRegister(telegramId)) by {
        if AccountName(telegramId) !in before {
          forall id | id in store.riders ensures store.riders[id].user != user {
            assert store.riders[id].user in old(store.users.Values);
          }
        }
      }
      var r := store.CreateRider(user, telegramId, s.phone.value, s.transport.value, km);
      if r.Err? {
        return RegistrationFailed;
      }
      userStates := userStates - {telegramId};
      reply := Registered(r.value);
    }

    /** `handle_add_availability`: starts choosing a day, replacing any entry; registration is not checked. */
    method AddAvailability(telegramId: int) returns (reply: Reply)
      requires Valid()
      modifies this
      ensures Valid()
      ensures userStates == old(userStates)[telegramId := ChoosingDay()]
      ensures reply == AskDay
    {
      userStates := userStates[telegramId := ChoosingDay()];
      reply := AskDay;
    }

    /**
     * `handle_day_selected` with the weekday check the day buttons call for;
     * any other day changes nothing.
     */
    method DaySelected(telegramId: int, day: int) returns (reply: Reply)
      requires Valid()
      modifies this
      ensures Valid()
      ensures DayAccepted(day) ==>
        userStates == old(userStates)[telegramId := AwaitingTime(day)] && reply == AskTime(day)
      ensures !DayAccepted(day) ==> userStates == old(userStates) && reply == NoReply
      ensures telegramId in userStates && userStates[telegramId].step == WaitingTime ==>
        IsDayOfWeek(userStates[telegramId].day.value)
    {
      if DayAccepted(day) {
        DayAcceptedIsWeekday(day);
        userStates := userStates[telegramId := AwaitingTime(day)];
        reply := AskTime(day);
      } else {
        reply := NoReply;
      }
    }

    /** The conversation entry of the user is deleted; the database is untouched. */
    method EndConversation(telegramId: int)
      requires Valid()
      modifies this
      ensures Valid() && userStates == old(userStates) - {telegramId}
    {
      userStates := userStates - {telegramId};
    }

    /**
     * The insert of `handle_time_received`: the window for `day` of the
     * rider with this telegram id, refused when there is no such rider or
     * the rider already has a window starting then on that day.
     */
    method AddWindow(telegramId: int, day: int, w: Window.Window) returns (a: Option<int>)
      requires Valid() && IsDayOfWeek(day)
      modifies store
      ensures Valid() && userStates == old(userStates)
      ensures a.Some? <==> old(WindowFree(telegramId, day, w.start))
      ensures a.Some? ==>
        && a.value !in old(store.availabilities) && a.value in store.availabilities
        && store.availabilities == old(store.availabilities)[a.value := store.availabilities[a.value]]
        && store.availabilities[a.value].rider in store.riders
        && store.riders[store.availabilities[a.value].rider].telegramId == telegramId
        && store.availabilities[a.value].day == day
        && store.availabilities[a.value].start == w.start && store.availabilities[a.value].end == w.end
        && store.availabilities[a.value].preferred == w.preferred
      ensures a.None? ==> store.availabilities == old(store.availabilities)
      ensures store.users == old(store.users) && store.riders == old(store.riders)
      ensures store.shifts == old(store.shifts) && store.assignments == old(store.assignments)
    {
      var rider := store.FindRiderByTelegram(telegramId);
      assert rider.Some? ==> (WindowFree(telegramId, day, w.start) <==> !store.WindowTaken(rider.value, day, w.start));
      assert rider.None? ==> !WindowFree(telegramId, day, w.start);
      ghost var before := store.availabilities;
      var r := store.CreateAvailability(rider, day, w.start, w.end, w.preferred);
      if r.Err? {
        return None;
      }
      forall id | id in store.availabilities ensures IsDayOfWeek(store.availabilities[id].day) {
        if id != r.value {
          assert id in before && store.availabilities[id] == before[id];
        }
      }
      a := Some(r.value);
    }

    /**
     * The window is added as in `AddWindow`, and the conversation entry is
     * deleted exactly when it was.
     */
    method SaveWindow(telegramId: int, day: int, w: Window.Window) returns (a: Option<int>)
      requires Valid() && IsDayOfWeek(day)
      modifies this, store
      ensures Valid()
      ensures a.Some? <==> old(WindowFree(telegramId, day, w.start))
      ensures a.Some? ==>
        && userStates == old(userStates) - {telegramId}
        && a.value !in old(store.availabilities) && a.value in store.availabilities
        && store.availabilities == old(store.availabilities)[a.value := store.availabilities[a.value]]
        && store.availabilities[a.value].rider in store.riders
        && store.riders[store.availabilities[a.value].rider].telegramId == telegramId
        && store.availabilities[a.value].day == day
        && store.availabilities[a.value].start == w.start && store.availabilities[a.value].end == w.end
        && store.availabilities[a.value].preferred == w.preferred
      ensures a.None? ==> userStates == old(userStates) && store.availabilities == old(store.availabilities)
      ensures store.users == old(store.users) && store.riders == old(store.riders)
      ensures store.shifts == old(store.shifts) && store.assignments == old(store.assignments)
    {
      a := AddWindow(telegramId, day, w);
      if a.Some? {
        EndConversation(telegramId);
      }
    }

    /**
     * `handle_time_received`: parses the window and creates the
     * availability for the stored day. A text that does not parse, a user
     * who is not a rider, or a window already starting at that time on that
     * day all give the format error and leave the entry in place.
     */
    method TimeReceived(telegramId: int, text: string) returns (reply: Reply)
      requires Valid()
      requires telegramId in userStates && userStates[telegramId].step == WaitingTime
      modifies this, store
      ensures Valid()
      ensures reply.AvailabilityAdded? <==>
        Window.ParseWindow(text).Ok? &&
        old(WindowFree(telegramId, userStates[telegramId].day.value, Window.ParseWindow(text).value.start))
      ensures reply.AvailabilityAdded? ==>
        var w := Window.ParseWindow(text).value;
        var a := reply.availability;
        && userStates == old(userStates) - {telegramId}
        && a !in old(store.availabilities) && a in store.availabilities
        && store.availabilities == old(store.availabilities)[a := store.availabilities[a]]
        && store.availabilities[a].rider in store.riders
        && store.riders[store.availabilities[a].rider].telegramId == telegramId
        && store.availabilities[a].day == old(userStates)[telegramId].day.value
        && store.availabilities[a].start == w.start && store.availabilities[a].end == w.end
        && store.availabilities[a].preferred == w.preferred
      ensures !reply.AvailabilityAdded? ==>
        reply == InvalidTimeFormat && userStates == old(userStates) &&
        store.availabilities == old(store.availabilities)
      ensures store.users == old(store.users) && store.riders == old(store.riders)
      ensures store.shifts == old(store.shifts) && store.assignments == old(store.assignments)
    {
      var day := userStates[telegramId].day.value;
      assert IsDayOfWeek(day) by {
        assert WellFormed(userStates[telegramId]);
      }
      var parsed := Window.ParseWindow(text);
      if parsed.Err? {
        return InvalidTimeFormat;
      }
      var a := SaveWindow(telegramId, day, parsed.value);
      reply := if a.Some? then AvailabilityAdded(a.value) else InvalidTimeFormat;
    }

    /** `handle_accept_shift`. */
    method AcceptShift(telegramId: int, assignment: int) returns (reply: Reply)
      requires Valid()
      modifies store
      ensures Valid()
      ensures reply == ShiftConfirmed <==> old(store.Owns(assignment, telegramId))
      ensures reply != ShiftConfirmed ==> reply == AcceptFailed && store.assignments == old(store.assignments)
      ensures reply == ShiftConfirmed ==>
        assignment in store.assignments &&
        store.assignments[assignment] == old(store.assignments)[assignment].(confirmedByRider := true) &&
        store.assignments == old(store.assignments)[assignment := store.assignments[assignment]]
      ensures store.shifts == old(store.shifts) && store.riders == old(store.riders)
      ensures store.availabilities == old(store.availabilities) && store.users == old(store.users)
    {
      var ok := store.Accept(assignment, telegramId);
      reply := if ok then ShiftConfirmed else AcceptFailed;
    }

    /** `handle_reject_shift`. */
    method RejectShift(telegramId: int, assignment: int) returns (reply: Reply)
      requires Valid()
      modifies store
      ensures Valid()
      ensures reply == ShiftRejected <==> old(store.Owns(assignment, telegramId))
      ensures reply != ShiftRejected ==>
        reply == RejectFailed && store.assignments == old(store.assignments) && store.shifts == old(store.shifts)
      ensures reply == ShiftRejected ==>
        var s := old(store.assignments)[assignment].shift;
        && store.assignments == old(store.assignments) - {assignment}
        && store.shifts == old(store.shifts)[s := old(store.shifts)[s].(status := Open)]
        && assignment !in store.assignments
        && forall other :: other in store.assignments ==> store.assignments[other].shift != s
      ensures store.riders == old(store.riders) && store.availabilities == old(store.availabilities)
      ensures store.users == old(store.users)
    {
      var ok := store.Reject(assignment, telegramId);
      reply := if ok then ShiftRejected else RejectFailed;
    }

    /** `handle_start`: which welcome to show. */
    method Start(telegramId: int) returns (reply: Reply)
      requires Valid()
      ensures reply.Welcome?
      ensures reply.registered ==> HasRider(telegramId)
      ensures HasRider(telegramId) ==> reply.registered
    {
      var rider := store.FindRiderByTelegram(telegramId);
      if rider.Some? {
        var x := rider.value;
        assert x in store.riders && store.riders[x].telegramId == telegramId;
        assert HasRider(telegramId);
        reply := Welcome(true);
      } else {
        reply := Welcome(false);
      }
    }

    /**
     * The reply of `handle_manage_availability`: the overview of the rider
     * with this telegram id, or "not registered" when there is none.
     */
    ghost predicate ShowsOverview(telegramId: int, reply: Reply)
      reads store
    {
      && (reply.AvailabilityOverview? || reply == NotRegistered)
      && (reply.AvailabilityOverview? <==> HasRider(telegramId))
      && (reply.AvailabilityOverview? ==>
            reply.rider in store.riders && store.riders[reply.rider].telegramId == telegramId)
    }

    /** `handle_manage_availability`: the overview needs a rider. */
    method ManageAvailability(telegramId: int) returns (reply: Reply)
      requires Valid()
      ensures ShowsOverview(telegramId, reply)
    {
      var rider := store.FindRiderByTelegram(telegramId);
      reply := if rider.Some? then AvailabilityOverview(rider.value) else NotRegistered;
    }

    /**
     * The reply of `handle_my_shifts`: for a rider, exactly the rider's
     * assignments on assigned or confirmed shifts, each once, by shift date
     * and start time; nothing for a user who is not a rider.
     */
    ghost predicate ListsHeldShifts(telegramId: int, reply: Reply)
      requires store.Valid()
      reads store
    {
      && (reply.ShiftList? || reply == NoReply)
      && (reply.ShiftList? <==> HasRider(telegramId))
      && (reply.ShiftList? ==>
            var rider := reply.owner;
            var r := reply.assignments;
            && rider in store.riders && store.riders[rider].telegramId == telegramId
            && (forall id :: id in r <==> store.Listed(rider, id))
            && (forall i, j :: 0 <= i < j < |r| ==> r[i] != r[j])
            && (forall i, j :: 0 <= i < j < |r| ==>
                  r[i] in store.assignments && r[j] in store.assignments &&
                  SlotLeq(store.ShiftOf(r[i]), store.ShiftOf(r[j]))))
    }

    /**
     * `handle_my_shifts`: the rider's assignments on assigned or confirmed
     * shifts, by shift date and start time; nothing is sent to a user who
     * is not a rider.
     */
    method MyShifts(telegramId: int) returns (reply: Reply)
      requires Valid()
      ensures ListsHeldShifts(telegramId, reply)
    {
      var rider := store.FindRiderByTelegram(telegramId);
      if rider.None? {
        return NoReply;
      }
      var r := store.HeldShifts(rider.value);
      forall id | id in r ensures store.Listed(rider.value, id) {
        var i :| 0 <= i < |r| && r[i] == id;
      }
      reply := ShiftList(rider.value, r);
    }

    /** `handle_available_shifts`: at most five open shifts. */
    method AvailableShifts() returns (reply: Reply)
      requires Valid()
      ensures reply.OpenShiftList?
      ensures |reply.shifts| <= 5
      ensures forall id :: id in reply.shifts ==> store.IsOpenShift(id)
      ensures |reply.shifts| < 5 ==> forall id :: store.IsOpenShift(id) ==> id in reply.shifts
    {
      var r := store.OpenShifts(5);
      forall id | id in r ensures store.IsOpenShift(id) {
        var i :| 0 <= i < |r| && r[i] == id;
      }
      reply := OpenShiftList(r);
    }

    /**
     * What `handle_callback` does with `data`: data no branch recognises, or
     * a number `int()` refuses, changes nothing; otherwise the handler of the
     * decoded action runs with the effect its own method states.
     */
    twostate predicate CallbackEffect(telegramId: int, userName: string, data: string, reply: Reply)
      requires store.Valid()
      reads this, store
    {
      match Decode(data)
      case NotANumber => unchanged(this, store) && reply == NoReply
      case NoHandler => unchanged(this, store) && reply == NoReply
      case Dispatch(action) =>
        match action
        case MainMenu =>
          unchanged(this, store) && reply == Welcome(HasRider(telegramId))
        case RegisterRider =>
          && unchanged(store) && reply == AskPhone
          && userStates == old(userStates)[telegramId := Registering(userName)]
        case SelectTransport(key) =>
          && unchanged(store)
          && if telegramId in old(userStates) && TransportFromKey(key).Some? then
               && reply == AskDistance
               && userStates == old(userStates)[telegramId :=
                    AfterTransport(old(userStates)[telegramId], TransportFromKey(key).value)]
             else
               userStates == old(userStates) && reply == NoReply
        case SelectDistance(km) =>
          && (telegramId !in old(userStates) ==> unchanged(this, store) && reply == NoReply)
          && (reply.Registered? <==>
                telegramId in old(userStates) && RegistrationData(old(userStates)[telegramId]).Some? &&
                old(CanRegister(telegramId)) && FitsInteger(km))
          && (reply.Registered? ==>
                var (_, phone, transport) := RegistrationData(old(userStates)[telegramId]).value;
                && userStates == old(userStates) - {telegramId}
                && reply.rider !in old(store.riders)
                && AccountName(telegramId) in store.users
                && store.riders == old(store.riders)[reply.rider :=
                     NewRider(store.users[AccountName(telegramId)], telegramId, phone, transport, km)])
          && (!reply.Registered? ==> userStates == old(userStates) && store.riders == old(store.riders))
          && (telegramId in old(userStates) && !reply.Registered? ==> reply == RegistrationFailed)
          && (telegramId in old(userStates) && old(userStates)[telegramId].userName.Some? ==>
                AccountName(telegramId) in store.users)
          && (telegramId in old(userStates) && old(userStates)[telegramId].userName.None? ==>
                store.users == old(store.users))
          && (forall n :: n in old(store.users) ==> n in store.users && store.users[n] == old(store.users)[n])
          && (forall n :: n in store.users && n !in old(store.users) ==> n == AccountName(telegramId))
          && store.availabilities == old(store.availabilities)
          && store.shifts == old(store.shifts) && store.assignments == old(store.assignments)
        case ManageAvailability =>
          && unchanged(this, store)
          && ShowsOverview(telegramId, reply)
        case AddAvailability =>
          && unchanged(store) && reply == AskDay
          && userStates == old(userStates)[telegramId := ChoosingDay()]
        case SelectDay(day) =>
          && unchanged(store)
          && if DayAccepted(day) then
               userStates == old(userStates)[telegramId := AwaitingTime(day)] && reply == AskTime(day)
             else
               userStates == old(userStates) && reply == NoReply
        case MyShifts =>
          unchanged(this, store) && ListsHeldShifts(telegramId, reply)
        case AvailableShifts =>
          && unchanged(this, store)
          && reply.OpenShiftList? && |reply.shifts| <= 5
          && (forall id :: id in reply.shifts ==> store.IsOpenShift(id))
          && (|reply.shifts| < 5 ==> forall id :: store.IsOpenShift(id) ==> id in reply.shifts)
        case AcceptShift(a) =>
          && userStates == old(userStates)
          && (reply == ShiftConfirmed <==> old(store.Owns(a, telegramId)))
          && (reply != ShiftConfirmed ==> reply == AcceptFailed && store.assignments == old(store.assignments))
          && (reply == ShiftConfirmed ==>
                a in old(store.assignments) &&
                store.assignments == old(store.assignments)[a := old(store.assignments)[a].(confirmedByRider := true)])
          && store.shifts == old(store.shifts) && store.riders == old(store.riders)
          && store.availabilities == old(store.availabilities) && store.users == old(store.users)
        case RejectShift(a) =>
          && userStates == old(userStates)
          && (reply == ShiftRejected <==> old(store.Owns(a, telegramId)))
          && (reply != ShiftRejected ==>
                reply == RejectFailed && store.assignments == old(store.assignments) &&
                store.shifts == old(store.shifts))
          && (reply == ShiftRejected ==>
                && a in old(store.assignments) && old(store.assignments)[a].shift in old(store.shifts)
                && store.assignments == old(store.assignments) - {a}
                && var sh := old(store.assignments)[a].shift;
                   && store.shifts == old(store.shifts)[sh := old(store.shifts)[sh].(status := Open)]
                   && forall other :: other in store.assignments ==> store.assignments[other].shift != sh)
          && store.riders == old(store.riders) && store.availabilities == old(store.availabilities)
          && store.users == old(store.users)
    }

    /**
     * What `process_update` does with a text message, by the route
     * `RouteMessage` picks from the sender's step before the message.
     */
    twostate predicate MessageEffect(telegramId: int, text: string, contact: Option<string>, reply: Reply)
      requires store.Valid()
      reads this, store
    {
      var step := if telegramId in old(userStates) then Some(old(userStates)[telegramId].step) else None;
      match RouteMessage(text, contact, step)
      case ToPhone(phone) =>
        && unchanged(store)
        && if telegramId in old(userStates) then
             && reply == AskTransport
             && userStates == old(userStates)[telegramId := AfterPhone(old(userStates)[telegramId], phone)]
           else
             userStates == old(userStates) && reply == NoReply
      case ToTime(t) =>
        && telegramId in old(userStates) && old(userStates)[telegramId].day.Some?
        && (reply.AvailabilityAdded? <==>
              Window.ParseWindow(t).Ok? &&
              old(WindowFree(telegramId, userStates[telegramId].day.value, Window.ParseWindow(t).value.start)))
        && (reply.AvailabilityAdded? ==>
              var w := Window.ParseWindow(t).value;
              var a := reply.availability;
              && userStates == old(userStates) - {telegramId}
              && a !in old(store.availabilities) && a in store.availabilities
              && store.availabilities == old(store.availabilities)[a := store.availabilities[a]]
              && store.availabilities[a].rider in store.riders
              && store.riders[store.availabilities[a].rider].telegramId == telegramId
              && store.availabilities[a].day == old(userStates)[telegramId].day.value
              && store.availabilities[a].start == w.start && store.availabilities[a].end == w.end
              && store.availabilities[a].preferred == w.preferred)
        && (!reply.AvailabilityAdded? ==>
              reply == InvalidTimeFormat && userStates == old(userStates) &&
              store.availabilities == old(store.availabilities))
        && store.users == old(store.users) && store.riders == old(store.riders)
        && store.shifts == old(store.shifts) && store.assignments == old(store.assignments)
      case ToStart =>
        unchanged(this, store) && reply == Welcome(HasRider(telegramId))
      case ToAvailability =>
        && unchanged(this, store)
        && ShowsOverview(telegramId, reply)
      case ToMyShifts =>
        unchanged(this, store) && ListsHeldShifts(telegramId, reply)
      case ToUnknown =>
        unchanged(this, store) && reply == UnknownCommand
    }

    /** `handle_callback`: data no branch recognises, or a number `int()` refuses, changes nothing. */
    method HandleCallback(telegramId: int, userName: string, data: string) returns (reply: Reply)
      requires Valid()
      modifies this, store
      ensures Valid()
      ensures CallbackEffect(telegramId, userName, data, reply)
    {
      var decoded := Decode(data);
      if !decoded.Dispatch? {
        return NoReply;
      }
      match decoded.action
      case MainMenu => reply := Start(telegramId);
      case RegisterRider => reply := RegisterRider(telegramId, userName);
      case SelectTransport(key) => reply := TransportSelected(telegramId, key);
      case SelectDistance(km) => reply := DistanceSelected(telegramId, km);
      case ManageAvailability => reply := ManageAvailability(telegramId);
      case AddAvailability => reply := AddAvailability(telegramId);
      case SelectDay(day) => reply := DaySelected(telegramId, day);
      case MyShifts => reply := MyShifts(telegramId);
      case AvailableShifts => reply := AvailableShifts();
      case AcceptShift(id) => reply := AcceptShift(telegramId, id);
      case RejectShift(id) => reply := RejectShift(telegramId, id);
    }

    /** `process_update`: routes a message by `RouteMessage`, a callback by `Decode`. */
    method ProcessUpdate(u: Update) returns (reply: Reply)
      requires Valid()
      modifies this, store
      ensures Valid()
      ensures u.OtherUpdate? ==> unchanged(this, store) && reply == NoReply
      ensures u.Message? ==> MessageEffect(u.sender, u.text, u.contact, reply)
      ensures u.CallbackQuery? ==> CallbackEffect(u.sender, u.firstName.GetOr(DefaultUserName), u.data, reply)
    {
      match u
      case OtherUpdate =>
        reply := NoReply;
      case Message(tg, firstName, text, contact) =>
        var step := if tg in userStates then Some(userStates[tg].step) else None;
        match RouteMessage(text, contact, step) {
          case ToPhone(phone) => reply := PhoneReceived(tg, phone);
          case ToTime(t) => reply := TimeReceived(tg, t);
          case ToStart => reply := Start(tg);
          case ToAvailability => reply := ManageAvailability(tg);
          case ToMyShifts => reply := MyShifts(tg);
          case ToUnknown => reply := UnknownCommand;
        }
      case CallbackQuery(tg, firstName, data) =>
        reply := HandleCallback(tg, firstName.GetOr(DefaultUserName), data);
    }
  }
}
