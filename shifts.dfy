/** The shift records: `Shift` and `ShiftAssignment`. */
module Shifts {
  import opened Times

  /** The five choices of `Shift.status`. */
  datatype ShiftStatus = Open | Assigned | Confirmed | Completed | Cancelled

  function StatusKey(s: ShiftStatus): string {
    match s
    case Open => "open"
    case Assigned => "assigned"
    case Confirmed => "confirmed"
    case Completed => "completed"
    case Cancelled => "cancelled"
  }

  /** Distinct statuses are stored under distinct keys. */
  lemma StatusKeysDistinct(a: ShiftStatus, b: ShiftStatus)
    ensures StatusKey(a) == StatusKey(b) <==> a == b
  {
  }

  /**
   * A shift. `date` is a day number, `hourlyRate` a decimal with two
   * fractional digits held in hundredths, `createdAt` a timestamp.
   */
  datatype Shift = Shift(
    pizzeria: nat,
    date: int,
    start: Time,
    end: Time,
    hourlyRate: int,
    description: string,
    status: ShiftStatus,
    createdAt: int)

  /** `hourly_rate` has at most six digits, two of them fractional: |rate| <= 9999.99. */
  predicate RateFits(hundredths: int) {
    -1000000 < hundredths < 1000000
  }

  /** A shift as first saved: `status` defaults to open, `created_at` is the creation time. */
  function NewShift(pizzeria: nat, date: int, start: Time, end: Time, hourlyRate: int, description: string, now: int): (s: Shift)
    ensures s.status == Open && s.createdAt == now
    ensures s.pizzeria == pizzeria && s.date == date && s.start == start && s.end == end
    ensures s.hourlyRate == hourlyRate && s.description == description
  {
    Shift(pizzeria, date, start, end, hourlyRate, description, Open, now)
  }

  /** The rider holding a shift, with the two confirmation flags. */
  datatype Assignment = Assignment(
    shift: nat,
    rider: nat,
    assignedAt: int,
    confirmedByRider: bool,
    confirmedByPizzeria: bool)

  /** An assignment as first saved: both flags false, `assigned_at` the creation time. */
  function NewAssignment(shift: nat, rider: nat, now: int): (a: Assignment)
    ensures !a.confirmedByRider && !a.confirmedByPizzeria
    ensures a.assignedAt == now && a.shift == shift && a.rider == rider
  {
    Assignment(shift, rider, now, false, false)
  }

  /** The statuses "my shifts" lists. */
  predicate IsHeld(s: ShiftStatus) {
    s == Assigned || s == Confirmed
  }

  /**
   * The sort key of `order_by('shift__date', 'shift__start_time')` folded
   * into one number: a day is 1440 minutes.
   */
  function SlotKey(s: Shift): int {
    s.date * 1440 + MinuteOfDay(s.start)
  }

  /** Lexicographic order on (date, start time). */
  predicate SlotLeq(a: Shift, b: Shift) {
    a.date < b.date || (a.date == b.date && TimeLeq(a.start, b.start))
  }

  /** Comparing slot keys is comparing (date, start time) lexicographically. */
  lemma SlotKeyOrder(a: Shift, b: Shift)
    ensures SlotLeq(a, b) <==> SlotKey(a) <= SlotKey(b)
  {
    MinuteOfDayOrder(a.start, b.start);
    var ma, mb := MinuteOfDay(a.start), MinuteOfDay(b.start);
    if a.date < b.date {
      assert a.date * 1440 + 1440 <= b.date * 1440;
    } else if a.date > b.date {
      assert b.date * 1440 + 1440 <= a.date * 1440;
    }
  }
}
