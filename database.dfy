/**
 * The rows the bot reads and writes, with the constraints the schema
 * declares: unique telegram ids, one rider per account, foreign keys,
 * one assignment per shift, unique (rider, day, start) windows, the
 * integer and decimal widths. Deletes cascade as declared. The `choices`
 * of a field are not a constraint: `objects.create` stores any integer
 * as `day_of_week`.
 */
module Database {
  import opened Wrappers
  import opened Times
  import opened Riders
  import opened Shifts
  import Ordering

  /** Why a write is refused: a missing referenced row, a unique constraint, a number too wide. */
  datatype StoreError = MissingRow | DuplicateKey | ValueOutOfRange

  class Store {
    /** Account ids by username. */
    var users: map<string, int>
    var riders: map<int, Rider>
    var availabilities: map<int, Availability>
    var shifts: map<int, Shift>
    var assignments: map<int, Assignment>
    /** The next primary key handed out; keys are never reused. */
    var nextId: int

    ghost predicate IdsBelowNext()
      reads this
    {
      && nextId >= 1
      && (forall u :: u in users ==> 0 < users[u] < nextId)
      && (forall id :: id in riders ==> 0 < id < nextId)
      && (forall id :: id in availabilities ==> 0 < id < nextId)
      && (forall id :: id in shifts ==> 0 < id < nextId)
      && (forall id :: id in assignments ==> 0 < id < nextId)
    }

    /** `telegram_id` is unique and `user` is one-to-one. */
    ghost predicate RidersUnique()
      reads this
    {
      forall i, j :: i in riders && j in riders && i != j ==>
        riders[i].telegramId != riders[j].telegramId && riders[i].user != riders[j].user
    }

    /** `unique_together = ['rider', 'day_of_week', 'start_time']`. */
    ghost predicate AvailabilitiesUnique()
      reads this
    {
      forall i, j :: i in availabilities && j in availabilities && i != j ==>
        AvailabilityKey(availabilities[i]) != AvailabilityKey(availabilities[j])
    }

    /** `ShiftAssignment.shift` is one-to-one: a shift has at most one assignment. */
    ghost predicate OneAssignmentPerShift()
      reads this
    {
      forall i, j :: i in assignments && j in assignments && i != j ==>
        assignments[i].shift != assignments[j].shift
    }

    ghost predicate Valid()
      reads this
    {
      && IdsBelowNext()
      && RidersUnique()
      && (forall id :: id in riders ==>
            riders[id].user in users.Values && RatingFits(riders[id].rating) &&
            FitsInteger(riders[id].maxDistanceKm))
      && AvailabilitiesUnique()
      && (forall id :: id in availabilities ==> availabilities[id].rider in riders)
      && (forall id :: id in shifts ==> RateFits(shifts[id].hourlyRate))
      && OneAssignmentPerShift()
      && (forall id :: id in assignments ==>
            assignments[id].shift in shifts && assignments[id].rider in riders)
    }

    constructor ()
      ensures Valid()
      ensures users == map[] && riders == map[] && availabilities == map[]
      ensures shifts == map[] && assignments == map[]
    {
      users, riders, availabilities, shifts, assignments := map[], map[], map[], map[], map[];
      nextId := 1;
    }

    /** `User.objects.get_or_create(username=...)`: the account of that name, created if absent. */
    method GetOrCreateUser(username: string) returns (user: int)
      requires Valid()
      modifies this
      ensures Valid()
      ensures username in old(users) ==> user == old(users)[username] && users == old(users)
      ensures username !in old(users) ==>
        user !in old(users.Values) && users == old(users)[username := user]
      ensures riders == old(riders) && availabilities == old(availabilities)
      ensures shifts == old(shifts) && assignments == old(assignments)
      ensures user in users.Values
    {
      if username in users {
        user := users[username];
      } else {
        user := nextId;
        forall v | v in users.Values ensures v < user {
          var u :| u in users && users[u] == v;
        }
        ghost var before := users;
        users := users[username := user];
        nextId := nextId + 1;
        forall id | id in riders ensures riders[id].user in users.Values {
          var u :| u in before && before[u] == riders[id].user;
          assert users[u] == riders[id].user;
        }
      }
      assert users[username] == user;
    }

    /** `Rider.objects.get(telegram_id=...)`, `None` on DoesNotExist. */
    method FindRiderByTelegram(telegramId: int) returns (r: Option<int>)
      requires Valid()
      ensures r.Some? ==> r.value in riders && riders[r.value].telegramId == telegramId
      ensures r.None? ==> forall id :: id in riders ==> riders[id].telegramId != telegramId
    {
      if id :| id in riders && riders[id].telegramId == telegramId {
        r := Some(id);
      } else {
        r := None;
      }
    }

    /** Some rider already has this telegram id or this account. */
    ghost predicate RiderTaken(user: int, telegramId: int)
      reads this
    {
      exists id :: id in riders && (riders[id].telegramId == telegramId || riders[id].user == user)
    }

    /** The rider already has a window on `day` starting at `start`. */
    ghost predicate WindowTaken(rider: int, day: int, start: Time)
      reads this
    {
      exists id :: id in availabilities && AvailabilityKey(availabilities[id]) == (rider, day, start)
    }

    /**
     * `Rider.objects.create(...)` with `is_active` and `rating` left to their
     * defaults. A distance wider than the column raises while the insert is
     * prepared; otherwise the insert is refused when the telegram id or the
     * account already has a rider.
     */
    method CreateRider(user: int, telegramId: int, phone: string, transport: Transport, maxDistanceKm: int)
      returns (r: Result<int, StoreError>)
      requires Valid()
      requires user in users.Values
      modifies this
      ensures Valid()
      ensures r.Err? <==> !FitsInteger(maxDistanceKm) || old(RiderTaken(user, telegramId))
      ensures r.Err? ==> riders == old(riders)
      ensures r.Err? ==> (r.error == ValueOutOfRange <==> !FitsInteger(maxDistanceKm))
      ensures r.Err? ==> r.error in {ValueOutOfRange, DuplicateKey}
      ensures r.Ok? ==> (r.value !in old(riders) &&
        riders == old(riders)[r.value := NewRider(user, telegramId, phone, transport, maxDistanceKm)])
      ensures users == old(users) && availabilities == old(availabilities)
      ensures shifts == old(shifts) && assignments == old(assignments)
    {
      if !FitsInteger(maxDistanceKm) {
        r := Err(ValueOutOfRange);
      } else if id :| id in riders && (riders[id].telegramId == telegramId || riders[id].user == user) {
        r := Err(DuplicateKey);
      } else {
        var id := nextId;
        riders := riders[id := NewRider(user, telegramId, phone, transport, maxDistanceKm)];
        nextId := nextId + 1;
        r := Ok(id);
      }
    }

    /**
     * `RiderAvailability.objects.create(...)`: refused when there is no rider
     * (a NOT NULL foreign key) or the rider already has a window starting at
     * `start` on `day`.
     */
    method CreateAvailability(rider: Option<int>, day: int, start: Time, end: Time, preferred: bool)
      returns (r: Result<int, StoreError>)
      requires Valid()
      requires rider.Some? ==> rider.value in riders
      modifies this
      ensures Valid()
      ensures rider.None? ==> r == Err(MissingRow)
      ensures rider.Some? ==> (r.Err? <==> old(WindowTaken(rider.value, day, start)))
      ensures r.Err? ==> availabilities == old(availabilities)
      ensures r.Ok? ==> (r.value !in old(availabilities) &&
        availabilities == old(availabilities)[r.value := Availability(rider.value, day, start, end, preferred)])
      ensures users == old(users) && riders == old(riders)
      ensures shifts == old(shifts) && assignments == old(assignments)
    {
      if rider.None? {
        r := Err(MissingRow);
      } else if id :| id in availabilities && AvailabilityKey(availabilities[id]) == (rider.value, day, start) {
        r := Err(DuplicateKey);
      } else {
        var id := nextId;
        availabilities := availabilities[id := Availability(rider.value, day, start, end, preferred)];
        nextId := nextId + 1;
        r := Ok(id);
      }
    }

    /** Saving a new shift: status open; refused when the rate needs more than six digits. */
    method CreateShift(pizzeria: nat, date: int, start: Time, end: Time, hourlyRate: int, description: string, now: int)
      returns (r: Result<int, StoreError>)
      requires Valid()
      modifies this
      ensures Valid()
      ensures r.Err? <==> !RateFits(hourlyRate)
      ensures r.Err? ==> r.error == ValueOutOfRange && shifts == old(shifts)
      ensures r.Ok? ==> (r.value !in old(shifts) &&
        shifts == old(shifts)[r.value := NewShift(pizzeria, date, start, end, hourlyRate, description, now)])
      ensures r.Ok? ==> shifts[r.value].status == Open
      ensures users == old(users) && riders == old(riders)
      ensures availabilities == old(availabilities) && assignments == old(assignments)
    {
      if !RateFits(hourlyRate) {
        r := Err(ValueOutOfRange);
      } else {
        var id := nextId;
        shifts := shifts[id := NewShift(pizzeria, date, start, end, hourlyRate, description, now)];
        nextId := nextId + 1;
        r := Ok(id);
      }
    }

    /**
     * Saving a new assignment: both confirmation flags false and `assigned_at`
     * the creation time. Refused when the shift or rider does not exist or the
     * shift already has an assignment. The shift's status is not touched.
     */
    method CreateAssignment(shift: int, rider: int, now: int) returns (r: Result<int, StoreError>)
      requires Valid()
      modifies this
      ensures Valid()
      ensures r.Err? <==> (shift !in shifts || rider !in riders ||
        exists id :: id in old(assignments) && old(assignments)[id].shift == shift)
      ensures r.Err? ==> assignments == old(assignments)
      ensures r.Ok? ==> (r.value !in old(assignments) &&
        assignments == old(assignments)[r.value := NewAssignment(shift, rider, now)])
      ensures users == old(users) && riders == old(riders)
      ensures availabilities == old(availabilities) && shifts == old(shifts)
    {
      if shift !in shifts || rider !in riders {
        r := Err(MissingRow);
      } else if id :| id in assignments && assignments[id].shift == shift {
        r := Err(DuplicateKey);
      } else {
        var id := nextId;
        assignments := assignments[id := NewAssignment(shift, rider, now)];
        nextId := nextId + 1;
        r := Ok(id);
      }
    }

    /** Deleting a shift deletes its assignment with it. */
    method DeleteShift(shift: int)
      requires Valid()
      requires shift in shifts
      modifies this
      ensures Valid()
      ensures shifts == old(shifts) - {shift}
      ensures assignments ==
        map id | id in old(assignments) && old(assignments)[id].shift != shift :: old(assignments)[id]
      ensures users == old(users) && riders == old(riders) && availabilities == old(availabilities)
    {
      assignments := map id | id in assignments && assignments[id].shift != shift :: assignments[id];
      shifts := shifts - {shift};
    }

    /** Deleting a rider deletes the rider's availability windows and assignments with it. */
    method DeleteRider(rider: int)
      requires Valid()
      requires rider in riders
      modifies this
      ensures Valid()
      ensures riders == old(riders) - {rider}
      ensures availabilities ==
        map id | id in old(availabilities) && old(availabilities)[id].rider != rider :: old(availabilities)[id]
      ensures assignments ==
        map id | id in old(assignments) && old(assignments)[id].rider != rider :: old(assignments)[id]
      ensures users == old(users) && shifts == old(shifts)
    {
      availabilities := map id | id in availabilities && availabilities[id].rider != rider :: availabilities[id];
      assignments := map id | id in assignments && assignments[id].rider != rider :: assignments[id];
      riders := riders - {rider};
    }

    /** `ShiftAssignment.objects.get(id=..., rider__telegram_id=...)` finds a row. */
    ghost predicate Owns(assignment: int, telegramId: int)
      reads this
    {
      assignment in assignments && assignments[assignment].rider in riders &&
      riders[assignments[assignment].rider].telegramId == telegramId
    }

    /**
     * A rider accepts an assignment: `confirmed_by_rider` becomes true when the
     * assignment belongs to the rider with that telegram id; otherwise nothing
     * changes. The shift's status and `assigned_at` are left as they were.
     */
    method Accept(assignment: int, telegramId: int) returns (ok: bool)
      requires Valid()
      modifies this
      ensures Valid()
      ensures ok == old(Owns(assignment, telegramId))
      ensures ok ==> (assignments ==
        old(assignments)[assignment := old(assignments)[assignment].(confirmedByRider := true)])
      ensures ok ==> assignments[assignment].assignedAt == old(assignments)[assignment].assignedAt
      ensures !ok ==> assignments == old(assignments)
      ensures users == old(users) && riders == old(riders)
      ensures availabilities == old(availabilities) && shifts == old(shifts)
    {
      ok := assignment in assignments && assignments[assignment].rider in riders &&
            riders[assignments[assignment].rider].telegramId == telegramId;
      if ok {
        assignments := assignments[assignment := assignments[assignment].(confirmedByRider := true)];
      }
    }

    /**
     * A rider rejects an assignment: when it belongs to the rider with that
     * telegram id, its shift goes back to open, whatever its status was, and
     * the assignment is deleted; otherwise nothing changes.
     */
    method Reject(assignment: int, telegramId: int) returns (ok: bool)
      requires Valid()
      modifies this
      ensures Valid()
      ensures ok == old(Owns(assignment, telegramId))
      ensures ok ==> assignments == old(assignments) - {assignment}
      ensures ok ==> (var s := old(assignments)[assignment].shift;
        shifts == old(shifts)[s := old(shifts)[s].(status := Open)])
      ensures !ok ==> assignments == old(assignments) && shifts == old(shifts)
      ensures users == old(users) && riders == old(riders) && availabilities == old(availabilities)
    {
      ok := assignment in assignments && assignments[assignment].rider in riders &&
            riders[assignments[assignment].rider].telegramId == telegramId;
      if ok {
        var s := assignments[assignment].shift;
        shifts := shifts[s := shifts[s].(status := Open)];
        assignments := assignments - {assignment};
      }
    }

    /** The assignments "my shifts" shows: the rider's, on a shift assigned or confirmed. */
    ghost predicate Listed(rider: int, id: int)
      reads this
      requires Valid()
    {
      id in assignments && assignments[id].rider == rider && IsHeld(shifts[assignments[id].shift].status)
    }

    /** The sort key of each assignment: its shift's slot. */
    static function SlotKeyOf(asg: map<int, Assignment>, sh: map<int, Shift>): (key: int -> int)
      ensures forall id :: id in asg && asg[id].shift in sh ==> key(id) == SlotKey(sh[asg[id].shift])
    {
      (id: int) => if id in asg && asg[id].shift in sh then SlotKey(sh[asg[id].shift]) else 0
    }

    /** The shift of an assignment. */
    function ShiftOf(id: int): Shift
      reads this
      requires Valid() && id in assignments
    {
      shifts[assignments[id].shift]
    }

    /**
     * The "my shifts" query: the assignments of this rider whose shift is
     * assigned or confirmed, each exactly once, by shift date and then start
     * time.
     */
    method HeldShifts(rider: int) returns (r: seq<int>)
      requires Valid()
      ensures forall i :: 0 <= i < |r| ==> Listed(rider, r[i])
      ensures forall id :: Listed(rider, id) ==> id in r
      ensures Ordering.Distinct(r)
      ensures forall i, j :: 0 <= i < j < |r| ==>
        r[i] in assignments && r[j] in assignments && SlotLeq(ShiftOf(r[i]), ShiftOf(r[j]))
    {
      var key := SlotKeyOf(assignments, shifts);
      r := [];
      var id := 1;
      while id < nextId
        invariant 1 <= id <= nextId
        invariant forall x :: x in r ==> Listed(rider, x) && x < id
        invariant forall x :: x in assignments && x < id && Listed(rider, x) ==> x in r
        invariant Ordering.Distinct(r)
        invariant Ordering.SortedBy(r, key)
      {
        if id in assignments && assignments[id].rider == rider && IsHeld(shifts[assignments[id].shift].status) {
          Ordering.InsertByDistinct(r, id, key);
          Ordering.InsertBySorted(r, id, key);
          r := Ordering.InsertBy(r, id, key);
        }
        id := id + 1;
      }
      forall i | 0 <= i < |r| ensures Listed(rider, r[i]) {
        assert r[i] in r;
      }
      forall i, j | 0 <= i < j < |r|
        ensures r[i] in assignments && r[j] in assignments && SlotLeq(ShiftOf(r[i]), ShiftOf(r[j]))
      {
        assert r[i] in r && r[j] in r;
        SlotKeyOrder(ShiftOf(r[i]), ShiftOf(r[j]));
      }
    }

    /** The open shifts: what `Shift.objects.filter(status='open')` selects. */
    ghost predicate IsOpenShift(id: int)
      reads this
    {
      id in shifts && shifts[id].status == Open
    }

    /**
     * `Shift.objects.filter(status='open')[:limit]`: up to `limit` distinct open
     * shifts, and every open shift when there are fewer than `limit`. The query
     * has no `order_by`, so which ones come first is left open.
     */
    method OpenShifts(limit: nat) returns (r: seq<int>)
      requires Valid()
      ensures |r| <= limit
      ensures forall i :: 0 <= i < |r| ==> IsOpenShift(r[i])
      ensures forall i, j :: 0 <= i < j < |r| ==> r[i] != r[j]
      ensures |r| < limit ==> forall id :: IsOpenShift(id) ==> id in r
    {
      r := [];
      var id := 1;
      while id < nextId && |r| < limit
        invariant 1 <= id <= nextId
        invariant |r| <= limit
        invariant forall i :: 0 <= i < |r| ==> IsOpenShift(r[i]) && r[i] < id
        invariant forall i, j :: 0 <= i < j < |r| ==> r[i] < r[j]
        invariant forall x :: IsOpenShift(x) && x < id ==> x in r
      {
        if id in shifts && shifts[id].status == Open {
          r := r + [id];
        }
        id := id + 1;
      }
    }
  }
}
