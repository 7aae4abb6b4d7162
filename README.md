# RiderMatch bot core in Dafny

RiderMatch connects pizzerias with delivery riders. Riders talk to a
Telegram bot. The bot registers them (phone, transport, maximum distance),
collects their weekly availability windows, lists the shifts they hold or
that are open, and lets them accept or reject a shift assigned to them.
This project models the core of that bot. It covers:

- the rows the bot reads and writes: riders, availability windows, shifts
  and assignments, with the constraints the schema declares and the
  defaults the bot relies on;
- the parser for availability text such as `19:00-23:00*`;
- the decoding of inline-button data;
- the routing of incoming messages;
- the per-user conversation state (`user_states`) and the handlers that
  change it and the rows.

Modules:

- `Wrappers`: `Option` and `Result`.
- `Text`: the Python string operations the bot relies on. These are
  `str.strip` (with Python's whitespace set), `str.startswith`,
  `str.replace(p, '')`, `int()` and `str(int)`.
- `Times`: a time of day (`TimeField`).
- `Riders`, `Shifts`: the records of the two model files, with their
  choices, decimal widths and the defaults of the fields the bot leaves
  unset.
- `Ordering`: insertion into a sequence kept sorted by a key.
- `Database`: the class `Store`, the tables as maps. Its invariant `Valid`
  holds the declared constraints: unique telegram ids, one rider per
  account, unique (rider, day, start) windows, one assignment per shift,
  foreign keys, the integer and decimal widths. The day choices are not a
  constraint: the store accepts any day. Its methods are the
  queries and writes the bot performs, plus creating a shift and an
  assignment with their declared defaults, and the declared cascades.
- `Window`: the availability parser.
- `Callback`: `callback_data` decoding and encoding.
- `Conversation`: one `user_states` entry and how each handler rewrites it.
- `Routing`: which handler `process_update` picks for a message.
- `Bot`: the class `RiderMatchBot`, holding `user_states` and the store. It
  has one method per handler. Each method returns the reply the handler
  would send, as a value, and changes the state as the handler does. A
  handler that raises an exception (caught in the handler or in
  `process_update`) leaves `user_states` unchanged. The account that
  `handle_distance_selected` gets or creates before it can raise stays in
  the store. The bot's invariant adds that every window is on a weekday.

Times are modelled as hour and minute. Decimals (`rating`, `hourly_rate`)
are held in hundredths. Primary keys are integers handed out from a
counter and never reused.

## Model

| member | source | states |
|---|---|---|
| Text.Strip | apps/telegram_bot/complete_bot.py:351 | the result is a slice of the text, everything outside it is whitespace, and it neither starts nor ends with whitespace |
| Text.StripUnchanged | apps/telegram_bot/complete_bot.py:351 | stripping a text with no whitespace at either end leaves it unchanged |
| Text.RemoveAll | apps/telegram_bot/complete_bot.py:527 | `replace(p, '')` never lengthens the text and keeps only characters of the text |
| Text.RemoveAllAbsent | apps/telegram_bot/complete_bot.py:527 | a text in which the pattern never occurs is left unchanged by `replace` |
| Text.RemovePrefix | apps/telegram_bot/complete_bot.py:526-527 | removing the prefix from prefix + t gives t back when the prefix does not occur in t |
| Text.ParseInt | apps/telegram_bot/complete_bot.py:531 | `int()` succeeds only on text whose stripped form ends in a digit, and a negative result comes from a leading `-` |
| Text.IntToString | apps/telegram_bot/complete_bot.py:198 | `str(n)` is non-empty and made of digits and `-` |
| Text.ParseIntToString | apps/telegram_bot/complete_bot.py:506-507 | `int(str(n)) == n` for every integer |
| Text.IntToStringAvoids | apps/telegram_bot/complete_bot.py:541 | no pattern starting with a letter occurs inside `str(n)` |
| Times.MinuteOfDayOrder | apps/shifts/models.py:14 | ordering times by minute of the day is ordering them by (hour, minute) |
| Riders.TransportFromKey | apps/riders/models.py:8-12 | exactly `bike`, `scooter` and `car` name a transport, and each names the one whose key it is |
| Riders.TransportKeyRoundTrip | apps/riders/models.py:8-12 | each transport's key reads back as that transport |
| Riders.NewRider | apps/riders/models.py:13-15 | a new rider is active with rating 5.00, within the rating width, and holds the given fields |
| Shifts.StatusKeysDistinct | apps/shifts/models.py:4-10 | the five statuses are stored under five distinct keys |
| Shifts.NewShift | apps/shifts/models.py:18-19 | a new shift is open and records its creation time |
| Shifts.NewAssignment | apps/shifts/models.py:27-29 | a new assignment has both confirmation flags false and records its creation time |
| Shifts.SlotKeyOrder | apps/telegram_bot/complete_bot.py:409-412 | comparing slot keys is comparing (date, start time) lexicographically |
| Ordering.InsertBy | apps/telegram_bot/complete_bot.py:412 | the result is a permutation of the sequence plus the new element |
| Ordering.InsertBySorted | apps/telegram_bot/complete_bot.py:412 | inserting into a sequence sorted by the key keeps it sorted |
| Ordering.InsertByDistinct | apps/telegram_bot/complete_bot.py:412 | inserting a new element into a duplicate-free sequence keeps it free of duplicates and adds exactly that element |
| Database.Store.GetOrCreateUser | apps/telegram_bot/complete_bot.py:197-203 | returns the existing account of that name, or adds one with a fresh id; no other table changes |
| Database.Store.FindRiderByTelegram | apps/telegram_bot/complete_bot.py:50-55 | returns the rider with that telegram id, or `None` exactly when no rider has it |
| Database.Store.CreateRider | apps/telegram_bot/complete_bot.py:206-212 | fails exactly when the distance does not fit SQLite's 64-bit integers (an out-of-range error) or the telegram id or the account already has a rider; otherwise adds one default rider under a new id |
| Database.Store.CreateAvailability | apps/telegram_bot/complete_bot.py:360-366 | fails without a rider or when the rider has a window with that day and start; otherwise adds exactly that window, whatever the day |
| Database.Store.CreateShift | apps/shifts/models.py:16-18 | fails exactly when the rate does not fit six digits; otherwise adds an open shift |
| Database.Store.CreateAssignment | apps/shifts/models.py:24-29 | fails exactly when the shift or rider is missing or the shift already has an assignment; otherwise adds one unconfirmed assignment |
| Database.Store.DeleteShift | apps/shifts/models.py:25 | removes the shift and the assignment on it, nothing else |
| Database.Store.DeleteRider | apps/riders/models.py:22 | removes the rider with all of its availabilities and assignments, nothing else |
| Database.Store.Accept | apps/telegram_bot/complete_bot.py:595-601 | succeeds exactly when the assignment belongs to the rider with that telegram id; then only its `confirmed_by_rider` becomes true, keeping `assigned_at` and the shift status |
| Database.Store.Reject | apps/telegram_bot/complete_bot.py:635-644 | succeeds exactly for the owner; then the shift becomes open and the assignment is deleted; otherwise nothing changes |
| Database.Store.HeldShifts | apps/telegram_bot/complete_bot.py:409-412 | lists each of the rider's assignments on an assigned or confirmed shift exactly once, and no other, ordered by shift date and start time |
| Database.Store.OpenShifts | apps/telegram_bot/complete_bot.py:560 | at most `limit` distinct open shifts, and all of them when there are fewer |
| Window.ParseWindow | apps/telegram_bot/complete_bot.py:346-357 | preferred exactly when the text ends in `*`; a format error exactly when the pattern does not match the stripped text; a range error exactly when it matches with an hour above 23 or a minute above 59; otherwise the captured times |
| Window.MatchSound | apps/telegram_bot/complete_bot.py:351 | a match means the text starts with 1-2 hour digits, `:`, 2 minute digits, `-`, 1-2 hour digits, `:`, 2 minute digits, and the captures are those numbers |
| Window.MatchComplete | apps/telegram_bot/complete_bot.py:351 | every text starting with that shape matches and captures its numbers |
| Window.MatchIgnoresSuffix | apps/telegram_bot/complete_bot.py:351 | text after a match does not change the match |
| Window.ParseFormatWindow | apps/telegram_bot/complete_bot.py:346-357 | parsing the `HH:MM-HH:MM[*]` text of any window gives that window back |
| Window.ExamplePreferred | apps/telegram_bot/complete_bot.py:328 | `19:00-23:00*` is a preferred window from 19:00 to 23:00 |
| Callback.Decode | apps/telegram_bot/complete_bot.py:517-556 | no handler runs exactly when the data is none of the six names and starts with none of the five prefixes; a number error only for the four numeric prefixes |
| Callback.DecodeEncode | apps/telegram_bot/complete_bot.py:506-507 | every action's button data decodes to that action, numbers included |
| Callback.DecodeTransport | apps/telegram_bot/complete_bot.py:526-528 | `transport_<key>` dispatches the key when the key does not contain the prefix |
| Callback.DecodeDistance | apps/telegram_bot/complete_bot.py:530-532 | `distance_<n>` dispatches n |
| Callback.DecodeDay | apps/telegram_bot/complete_bot.py:540-542 | `day_<n>` dispatches n |
| Callback.DecodeAccept | apps/telegram_bot/complete_bot.py:550-552 | `accept_shift_<n>` dispatches n |
| Callback.DecodeReject | apps/telegram_bot/complete_bot.py:554-556 | `reject_shift_<n>` dispatches n |
| Callback.MoreInfoHasNoHandler | apps/telegram_bot/complete_bot.py:103 | the `more_info` button reaches no handler |
| Callback.MyProfileHasNoHandler | apps/telegram_bot/complete_bot.py:79 | the `my_profile` button reaches no handler |
| Callback.RemoveAvailabilityHasNoHandler | apps/telegram_bot/complete_bot.py:281 | the `remove_availability` button reaches no handler |
| Callback.ConfirmShiftsHasNoHandler | apps/telegram_bot/complete_bot.py:452 | the `confirm_shifts` button reaches no handler |
| Conversation.Registering | apps/telegram_bot/complete_bot.py:131-134 | registration starts at `waiting_phone` with the user's name and nothing else |
| Conversation.AfterPhone | apps/telegram_bot/complete_bot.py:155-156 | the phone is stored, the step becomes `waiting_transport`, the other answers are kept |
| Conversation.AfterTransport | apps/telegram_bot/complete_bot.py:186-187 | the transport is stored, the step becomes `waiting_distance`, the other answers are kept |
| Conversation.ChoosingDay | apps/telegram_bot/complete_bot.py:309 | adding availability starts at `selecting_day` with no answers |
| Conversation.AwaitingTime | apps/telegram_bot/complete_bot.py:331-334 | the day step stores the day and moves to `waiting_time`; the entry is well formed exactly for a weekday |
| Conversation.RegistrationData | apps/telegram_bot/complete_bot.py:193-212 | the last registration step has its data exactly when name, phone and transport are all present |
| Conversation.RegistrationCollectsAnswers | apps/telegram_bot/complete_bot.py:131-187 | register, phone, transport in that order leave exactly those answers |
| Conversation.PhoneDuringAvailabilityHasNoName | apps/telegram_bot/complete_bot.py:155-156 | a contact shared while choosing a day leads to a registration that lacks the name |
| Conversation.NegativeDayAcceptedAsWritten | apps/telegram_bot/complete_bot.py:317 | the list index accepts day -3, which is not a weekday |
| Conversation.DayAcceptedIsWeekday | apps/riders/models.py:23-26 | the corrected day check accepts exactly the weekdays 0..6 |
| Routing.RouteMessage | apps/telegram_bot/complete_bot.py:684-711 | a contact always goes to the phone step; otherwise `waiting_time` takes any text; then the five commands; then `waiting_phone` takes the text; anything else is unknown |
| Bot.AccountName | apps/telegram_bot/complete_bot.py:198 | the account name starts with `telegram_` |
| Bot.AccountNameInjective | apps/telegram_bot/complete_bot.py:198 | different telegram ids get different account names |
| Bot.NegativeDayData | apps/telegram_bot/complete_bot.py:541 | the day data for -3 is `day_-3` |
| Bot.NegativeDayCallback | apps/telegram_bot/complete_bot.py:540-542 | the button data of every day from -7 to -1 (such as `day_-3`) dispatches that day, which the check as written accepts and the corrected check refuses |
| Bot.RiderMatchBot.constructor | apps/telegram_bot/complete_bot.py:26-30 | the bot starts with no conversation entries over a store whose windows are on weekdays |
| Bot.RiderMatchBot.RegisterRider | apps/telegram_bot/complete_bot.py:109-136 | replaces the user's entry with the start of registration |
| Bot.RiderMatchBot.PhoneReceived | apps/telegram_bot/complete_bot.py:138-158 | with an entry, stores the phone and advances it; without one, nothing changes |
| Bot.RiderMatchBot.TransportSelected | apps/telegram_bot/complete_bot.py:160-189 | with an entry and a known key, stores the transport and advances it; otherwise nothing changes |
| Bot.RiderMatchBot.DistanceSelected | apps/telegram_bot/complete_bot.py:191-248 | registers exactly when name, phone and transport are present, the distance fits a 64-bit integer, and neither the telegram id nor its account has a rider; then a default rider with that distance is added and the entry removed; otherwise the entry and riders stay; the account `telegram_<id>` is created, if absent, exactly when the entry holds a name |
| Bot.RiderMatchBot.AddAvailability | apps/telegram_bot/complete_bot.py:288-310 | replaces the user's entry with the day choice, registered or not |
| Bot.RiderMatchBot.DaySelected | apps/telegram_bot/complete_bot.py:312-336 | a weekday replaces the entry with the time step for that day; any other day changes nothing |
| Bot.RiderMatchBot.TimeReceived | apps/telegram_bot/complete_bot.py:338-401 | adds the parsed window for the stored day and clears the entry exactly when the text parses and the user is a rider with no window starting then; otherwise a format error with nothing changed |
| Bot.RiderMatchBot.AcceptShift | apps/telegram_bot/complete_bot.py:592-630 | confirms exactly when the caller owns the assignment; only that flag changes |
| Bot.RiderMatchBot.RejectShift | apps/telegram_bot/complete_bot.py:632-668 | for the owner, reopens the shift and deletes the assignment, leaving the shift unassigned; otherwise nothing changes |
| Bot.RiderMatchBot.Start | apps/telegram_bot/complete_bot.py:57-107 | the welcome shown depends exactly on whether the user is a rider |
| Bot.RiderMatchBot.ManageAvailability | apps/telegram_bot/complete_bot.py:250-256 | the overview is shown exactly to a rider, for that rider |
| Bot.RiderMatchBot.MyShifts | apps/telegram_bot/complete_bot.py:403-412 | for a rider, exactly that rider's assignments on assigned or confirmed shifts, once each, by date and start time; nothing for others |
| Bot.RiderMatchBot.AvailableShifts | apps/telegram_bot/complete_bot.py:558-560 | at most five open shifts, and all of them when there are fewer |
| Bot.RiderMatchBot.HandleCallback | apps/telegram_bot/complete_bot.py:517-556 | unrecognised data or a failed number changes nothing; each decoded action has its handler's effect: the welcome by registration, registration steps, the day step for a weekday only, the overview and shift lists, accept and reject exactly for the owner |
| Bot.RiderMatchBot.ProcessUpdate | apps/telegram_bot/complete_bot.py:670-729 | keeps the invariant; an update that is neither a message nor a callback changes nothing; a message has the effect of the handler its route picks (phone, time window, welcome, overview, shift list, or the unknown-command reply with nothing changed); a callback has `handle_callback`'s effect with "Utente" for a missing first name |

## Left out

- Sending messages, fetching updates, the polling loop and `answerCallbackQuery` are network I/O. A handler returns a `Reply` value instead, and message text and keyboards are not modelled.
- `check_automatic_matching` calls a matcher in `apps.shifts.matching`. That module is not part of this model, so the states after a new window or a rejection are the states before matching runs.
- `notify_new_assignments` depends on the wall clock and on message delivery. The 30-minute confirmation limit exists only in message text, so no sweep is modelled.
- `Bot.RiderMatchBot.DaySelected`: refuses days outside 0..6 where the code as written accepts -7..6 (see Findings).
- `Riders.NewRider`: the defaults `max_distance_km = 10` and `is_preferred = False` are not modelled, because every create in the bot passes both.
- The Django `User` fields (first and last name), pizzerias, and cascades from deleting a user or a pizzeria are not modelled.
- Concurrency: the bot is one sequential loop.
- `int()` and `\d` also accept non-ASCII decimal digits; the model accepts ASCII digits only.
- Times are hour and minute; seconds and time zones are not modelled.
- `Database.Store.CreateRider`: the phone's length and the transport key's length are not checked. The development database is SQLite, which does not enforce `max_length`.
- Telegram ids and primary keys are unbounded integers; the 64-bit width of `BigIntegerField` is not modelled. The width of `max_distance_km` is modelled in `Database.Store.CreateRider` and `Bot.RiderMatchBot.DistanceSelected` as the 64-bit range of the configured SQLite backend (ridermatch/settings/development.py); the narrower 32-bit range some other backends give `IntegerField` is not.
- `Database.Store.OpenShifts`: the query has no `order_by`, so the model leaves open which five open shifts are shown. It does not claim a particular order.
- Chat ids and message ids are not modelled, since only the sender's id selects state.

## Findings

| source | as written | input that shows it | evidently intended | confidence | as-written member | corrected member |
|---|---|---|---|---|---|---|
| apps/telegram_bot/complete_bot.py:312-334 | the day is checked only by indexing the seven day names, which Python also allows with -7..-1 | callback data `day_-3` sets the time step with day -3, and the next window is stored with `day_of_week = -3`, outside the declared choices 0..6 | only days 0..6, the ones the day buttons send, are accepted | not executed | Bot.NegativeDayCallback | Bot.RiderMatchBot.DaySelected |
