/**
 * The `callback_data` strings of the inline buttons: how the bot writes them
 * and how the callback handler reads them back. Prefixed actions carry a
 * number after the prefix; the prefix is taken off with `str.replace`, so
 * every occurrence of it is removed, and the rest is read with `int()`.
 */
module Callback {
  import opened Wrappers
  import opened Text

  datatype Action =
    | MainMenu
    | RegisterRider
    | SelectTransport(key: string)
    | SelectDistance(km: int)
    | ManageAvailability
    | AddAvailability
    | SelectDay(day: int)
    | MyShifts
    | AvailableShifts
    | AcceptShift(assignment: int)
    | RejectShift(assignment: int)

  /** A handler to call, an `int()` that raises, or data no branch recognises. */
  datatype Decoded = Dispatch(action: Action) | NotANumber | NoHandler

  /** The data matched exactly. */
  const ExactNames: set<string> :=
    {"main_menu", "register_rider", "manage_availability", "add_availability", "my_shifts", "available_shifts"}

  /** The data matched by prefix. */
  const Prefixes: set<string> := {"transport_", "distance_", "day_", "accept_shift_", "reject_shift_"}

  /** `int(data.replace(prefix, ''))`, handed to `make`. */
  function NumberAfter(data: string, prefix: string, make: int -> Action): (r: Decoded)
    requires prefix != []
    ensures r != NoHandler
  {
    match ParseInt(RemoveAll(data, prefix))
    case Some(n) => Dispatch(make(n))
    case None => NotANumber
  }

  /** The branch chain of the callback handler, in its order. */
  function Decode(data: string): (r: Decoded)
    ensures r == NoHandler <==> data !in ExactNames && forall p :: p in Prefixes ==> !StartsWith(data, p)
    ensures r == NotANumber ==>
      StartsWith(data, "distance_") || StartsWith(data, "day_") ||
      StartsWith(data, "accept_shift_") || StartsWith(data, "reject_shift_")
  {
    if data == "main_menu" then Dispatch(MainMenu)
    else if data == "register_rider" then Dispatch(RegisterRider)
    else if StartsWith(data, "transport_") then Dispatch(SelectTransport(RemoveAll(data, "transport_")))
    else if StartsWith(data, "distance_") then NumberAfter(data, "distance_", n => SelectDistance(n))
    else if data == "manage_availability" then Dispatch(ManageAvailability)
    else if data == "add_availability" then Dispatch(AddAvailability)
    else if StartsWith(data, "day_") then NumberAfter(data, "day_", n => SelectDay(n))
    else if data == "my_shifts" then Dispatch(MyShifts)
    else if data == "available_shifts" then Dispatch(AvailableShifts)
    else if StartsWith(data, "accept_shift_") then NumberAfter(data, "accept_shift_", n => AcceptShift(n))
    else if StartsWith(data, "reject_shift_") then NumberAfter(data, "reject_shift_", n => RejectShift(n))
    else NoHandler
  }

  /** The data the bot puts on a button for an action. */
  function Encode(a: Action): string {
    match a
    case MainMenu => "main_menu"
    case RegisterRider => "register_rider"
    case SelectTransport(key) => "transport_" + key
    case SelectDistance(km) => "distance_" + IntToString(km)
    case ManageAvailability => "manage_availability"
    case AddAvailability => "add_availability"
    case SelectDay(day) => "day_" + IntToString(day)
    case MyShifts => "my_shifts"
    case AvailableShifts => "available_shifts"
    case AcceptShift(id) => "accept_shift_" + IntToString(id)
    case RejectShift(id) => "reject_shift_" + IntToString(id)
  }

  /** Actions whose data reads back unchanged: a transport key must not itself contain the prefix. */
  ghost predicate Encodable(a: Action) {
    a.SelectTransport? ==> forall i :: !OccursAt(a.key, "transport_", i)
  }

  /** A string that differs from `q` at index `k`, within both, neither equals nor starts with `q`. */
  lemma DiffersAt(p: string, t: string, q: string, k: nat)
    requires k < |p| && k < |q| && p[k] != q[k]
    ensures p + t != q && !StartsWith(p + t, q)
  {
    assert (p + t)[k] == p[k];
  }

  /** `prefix + str(n)` reads back as `n`. */
  lemma NumberAfterEncoded(prefix: string, n: int, make: int -> Action)
    requires prefix != [] && !IsDigit(prefix[0]) && prefix[0] != '-'
    ensures NumberAfter(prefix + IntToString(n), prefix, make) == Dispatch(make(n))
  {
    IntToStringAvoids(n, prefix);
    RemovePrefix(prefix, IntToString(n));
    ParseIntToString(n);
  }

  lemma StartsWithPrefix(p: string, t: string)
    ensures StartsWith(p + t, p)
  {
    assert (p + t)[..|p|] == p;
  }

  /** Data without a prefix that differs from `q` at index `k`. */
  lemma NotLiteral(d: string, q: string, k: nat)
    requires k < |d| && k < |q| && d[k] != q[k]
    ensures d != q && !StartsWith(d, q)
  {
    DiffersAt(d, [], q, k);
    assert d + [] == d;
  }

  lemma DecodeTransport(key: string)
    requires forall i :: !OccursAt(key, "transport_", i)
    ensures Decode("transport_" + key) == Dispatch(SelectTransport(key))
  {
    DiffersAt("transport_", key, "main_menu", 0);
    DiffersAt("transport_", key, "register_rider", 0);
    StartsWithPrefix("transport_", key);
    RemovePrefix("transport_", key);
  }

  lemma DecodeDistance(km: int)
    ensures Decode("distance_" + IntToString(km)) == Dispatch(SelectDistance(km))
  {
    var t := IntToString(km);
    DiffersAt("distance_", t, "main_menu", 0);
    DiffersAt("distance_", t, "register_rider", 0);
    DiffersAt("distance_", t, "transport_", 0);
    StartsWithPrefix("distance_", t);
    NumberAfterEncoded("distance_", km, n => SelectDistance(n));
  }

  lemma DecodeDay(day: int)
    ensures Decode("day_" + IntToString(day)) == Dispatch(SelectDay(day))
  {
    var t := IntToString(day);
    DiffersAt("day_", t, "main_menu", 0);
    DiffersAt("day_", t, "register_rider", 0);
    DiffersAt("day_", t, "transport_", 0);
    DiffersAt("day_", t, "distance_", 1);
    DiffersAt("day_", t, "manage_availability", 0);
    DiffersAt("day_", t, "add_availability", 1);
    StartsWithPrefix("day_", t);
    NumberAfterEncoded("day_", day, n => SelectDay(n));
  }

  lemma DecodeAccept(id: int)
    ensures Decode("accept_shift_" + IntToString(id)) == Dispatch(AcceptShift(id))
  {
    var t := IntToString(id);
    var p := "accept_shift_";
    DiffersAt(p, t, "main_menu", 0);
    DiffersAt(p, t, "register_rider", 0);
    DiffersAt(p, t, "transport_", 0);
    DiffersAt(p, t, "distance_", 0);
    DiffersAt(p, t, "manage_availability", 0);
    DiffersAt(p, t, "add_availability", 1);
    DiffersAt(p, t, "day_", 0);
    DiffersAt(p, t, "my_shifts", 0);
    DiffersAt(p, t, "available_shifts", 1);
    StartsWithPrefix(p, t);
    NumberAfterEncoded(p, id, n => AcceptShift(n));
  }

  lemma DecodeReject(id: int)
    ensures Decode("reject_shift_" + IntToString(id)) == Dispatch(RejectShift(id))
  {
    var t := IntToString(id);
    var p := "reject_shift_";
    DiffersAt(p, t, "main_menu", 0);
    DiffersAt(p, t, "register_rider", 2);
    DiffersAt(p, t, "transport_", 0);
    DiffersAt(p, t, "distance_", 0);
    DiffersAt(p, t, "manage_availability", 0);
    DiffersAt(p, t, "add_availability", 0);
    DiffersAt(p, t, "day_", 0);
    DiffersAt(p, t, "my_shifts", 0);
    DiffersAt(p, t, "available_shifts", 0);
    DiffersAt(p, t, "accept_shift_", 0);
    StartsWithPrefix(p, t);
    NumberAfterEncoded(p, id, n => RejectShift(n));
  }

  /** Every button the bot writes is read back as the action it was written for. */
  lemma DecodeEncode(a: Action)
    requires Encodable(a)
    ensures Decode(Encode(a)) == Dispatch(a)
  {
    match a
    case SelectTransport(key) => DecodeTransport(key);
    case SelectDistance(km) => DecodeDistance(km);
    case SelectDay(day) => DecodeDay(day);
    case AcceptShift(id) => DecodeAccept(id);
    case RejectShift(id) => DecodeReject(id);
    case MainMenu =>
    case RegisterRider => DecodeRegisterRider();
    case ManageAvailability => DecodeManageAvailability();
    case AddAvailability => DecodeAddAvailability();
    case MyShifts => DecodeMyShifts();
    case AvailableShifts => DecodeAvailableShifts();
  }

  lemma DecodeRegisterRider()
    ensures Decode(Encode(RegisterRider)) == Dispatch(RegisterRider)
  {
    NotLiteral("register_rider", "main_menu", 0);
  }

  lemma DecodeManageAvailability()
    ensures Decode(Encode(ManageAvailability)) == Dispatch(ManageAvailability)
  {
    NotLiteral("manage_availability", "main_menu", 2);
    NotLiteral("manage_availability", "register_rider", 0);
    NotLiteral("manage_availability", "transport_", 0);
    NotLiteral("manage_availability", "distance_", 0);
  }

  lemma DecodeAddAvailability()
    ensures Decode(Encode(AddAvailability)) == Dispatch(AddAvailability)
  {
    NotLiteral("add_availability", "main_menu", 0);
    NotLiteral("add_availability", "register_rider", 0);
    NotLiteral("add_availability", "transport_", 0);
    NotLiteral("add_availability", "distance_", 0);
    NotLiteral("add_availability", "manage_availability", 0);
  }

  lemma DecodeMyShifts()
    ensures Decode(Encode(MyShifts)) == Dispatch(MyShifts)
  {
    NotLiteral("my_shifts", "main_menu", 1);
    NotLiteral("my_shifts", "register_rider", 0);
    NotLiteral("my_shifts", "transport_", 0);
    NotLiteral("my_shifts", "distance_", 0);
    NotLiteral("my_shifts", "manage_availability", 1);
    NotLiteral("my_shifts", "add_availability", 0);
    NotLiteral("my_shifts", "day_", 0);
  }

  lemma DecodeAvailableShifts()
    ensures Decode(Encode(AvailableShifts)) == Dispatch(AvailableShifts)
  {
    NotLiteral("available_shifts", "main_menu", 0);
    NotLiteral("available_shifts", "register_rider", 0);
    NotLiteral("available_shifts", "transport_", 0);
    NotLiteral("available_shifts", "distance_", 0);
    NotLiteral("available_shifts", "manage_availability", 0);
    NotLiteral("available_shifts", "add_availability", 1);
    NotLiteral("available_shifts", "day_", 0);
    NotLiteral("available_shifts", "my_shifts", 0);
  }

  /** The "more info" button of the welcome menu has no handler. */
  lemma MoreInfoHasNoHandler()
    ensures Decode("more_info") == NoHandler
  {
    var d := "more_info";
    NotLiteral(d, "main_menu", 1);
    NotLiteral(d, "register_rider", 0);
    NotLiteral(d, "transport_", 0);
    NotLiteral(d, "distance_", 0);
    NotLiteral(d, "manage_availability", 1);
    NotLiteral(d, "add_availability", 0);
    NotLiteral(d, "day_", 0);
    NotLiteral(d, "my_shifts", 1);
    NotLiteral(d, "available_shifts", 0);
    NotLiteral(d, "accept_shift_", 0);
    NotLiteral(d, "reject_shift_", 0);
    assert d !in ExactNames && forall p :: p in Prefixes ==> !StartsWith(d, p);
  }

  /** The "my profile" button of the main menu has no handler. */
  lemma MyProfileHasNoHandler()
    ensures Decode("my_profile") == NoHandler
  {
    var d := "my_profile";
    NotLiteral(d, "main_menu", 1);
    NotLiteral(d, "register_rider", 0);
    NotLiteral(d, "transport_", 0);
    NotLiteral(d, "distance_", 0);
    NotLiteral(d, "manage_availability", 1);
    NotLiteral(d, "add_availability", 0);
    NotLiteral(d, "day_", 0);
    NotLiteral(d, "my_shifts", 3);
    NotLiteral(d, "available_shifts", 0);
    NotLiteral(d, "accept_shift_", 0);
    NotLiteral(d, "reject_shift_", 0);
    assert d !in ExactNames && forall p :: p in Prefixes ==> !StartsWith(d, p);
  }

  /** The "remove availability" button has no handler. */
  lemma RemoveAvailabilityHasNoHandler()
    ensures Decode("remove_availability") == NoHandler
  {
    var d := "remove_availability";
    NotLiteral(d, "main_menu", 0);
    NotLiteral(d, "register_rider", 2);
    NotLiteral(d, "transport_", 0);
    NotLiteral(d, "distance_", 0);
    NotLiteral(d, "manage_availability", 0);
    NotLiteral(d, "add_availability", 0);
    NotLiteral(d, "day_", 0);
    NotLiteral(d, "my_shifts", 0);
    NotLiteral(d, "available_shifts", 0);
    NotLiteral(d, "accept_shift_", 0);
    NotLiteral(d, "reject_shift_", 2);
    assert d !in ExactNames && forall p :: p in Prefixes ==> !StartsWith(d, p);
  }

  /** The "confirm shifts" button of the shift list has no handler. */
  lemma ConfirmShiftsHasNoHandler()
    ensures Decode("confirm_shifts") == NoHandler
  {
    var d := "confirm_shifts";
    NotLiteral(d, "main_menu", 0);
    NotLiteral(d, "register_rider", 0);
    NotLiteral(d, "transport_", 0);
    NotLiteral(d, "distance_", 0);
    NotLiteral(d, "manage_availability", 0);
    NotLiteral(d, "add_availability", 0);
    NotLiteral(d, "day_", 0);
    NotLiteral(d, "my_shifts", 0);
    NotLiteral(d, "available_shifts", 0);
    NotLiteral(d, "accept_shift_", 0);
    NotLiteral(d, "reject_shift_", 0);
    assert d !in ExactNames && forall p :: p in Prefixes ==> !StartsWith(d, p);
  }
}
