/** The rider records: `Rider` and `RiderAvailability`. */
module Riders {
  import opened Wrappers
  import opened Times

  /** The three choices of `transport_type`. */
  datatype Transport = Bike | Scooter | Car

  /** The stored key of each choice. */
  function TransportKey(t: Transport): string {
    match t
    case Bike => "bike"
    case Scooter => "scooter"
    case Car => "car"
  }

  /** The choice a stored key names, if any. */
  function TransportFromKey(key: string): (r: Option<Transport>)
    ensures r.Some? <==> key in {"bike", "scooter", "car"}
    ensures r.Some? ==> TransportKey(r.value) == key
  {
    if key == "bike" then Some(Bike)
    else if key == "scooter" then Some(Scooter)
    else if key == "car" then Some(Car)
    else None
  }

  lemma TransportKeyRoundTrip(t: Transport)
    ensures TransportFromKey(TransportKey(t)) == Some(t)
  {
  }

  /**
   * A rider. `user` is the id of the owning account, `rating` is a decimal
   * with two fractional digits held in hundredths (5.00 is 500).
   */
  datatype Rider = Rider(
    user: nat,
    telegramId: int,
    phone: string,
    transport: Transport,
    maxDistanceKm: int,
    isActive: bool,
    rating: int)

  const DefaultRating: int := 500

  /** `rating` has at most three digits, two of them fractional: |rating| <= 9.99. */
  predicate RatingFits(hundredths: int) {
    -1000 < hundredths < 1000
  }

  /** A rider as `Rider.objects.create` stores it when `is_active` and `rating` are not given. */
  function NewRider(user: nat, telegramId: int, phone: string, transport: Transport, maxDistanceKm: int): (r: Rider)
    ensures r.isActive && r.rating == DefaultRating && RatingFits(r.rating)
    ensures r.user == user && r.telegramId == telegramId && r.phone == phone
    ensures r.transport == transport && r.maxDistanceKm == maxDistanceKm
  {
    Rider(user, telegramId, phone, transport, maxDistanceKm, true, DefaultRating)
  }

  /**
   * The integers an SQLite column holds: 64-bit signed. Binding a wider
   * Python int to an insert raises before the row is written.
   */
  predicate FitsInteger(n: int) {
    -0x8000_0000_0000_0000 <= n < 0x8000_0000_0000_0000
  }

  /** `day_of_week` choices: 0 is Monday, 6 is Sunday. */
  predicate IsDayOfWeek(day: int) {
    0 <= day <= 6
  }

  /** A weekly availability window. No ordering of `start` and `end` is imposed. */
  datatype Availability = Availability(rider: nat, day: int, start: Time, end: Time, preferred: bool)

  /** The fields of the `unique_together` constraint. */
  function AvailabilityKey(a: Availability): (nat, int, Time) {
    (a.rider, a.day, a.start)
  }
}
