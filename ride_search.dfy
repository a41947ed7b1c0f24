/** GET /rides/search (search_rides in backend/app/routes/ride_routes.py): rides
    of one status (active unless another is asked for), narrowed by
    case-insensitive address fragments, by a calendar day and by a minimum of
    free seats. Instants are seconds since 1970-01-01T00:00:00 UTC. */
module RideSearch {
  import opened Common
  import opened Models
  import opened Store

  const SECONDS_PER_DAY := 86400

  // ---------------------------------------------------------------- the proleptic Gregorian calendar

  predicate IsLeapYear(year: int)
  {
    year % 4 == 0 && (year % 100 != 0 || year % 400 == 0)
  }

  function DaysInMonth(year: int, month: int): int
    requires 1 <= month <= 12
  {
    if month == 2 then (if IsLeapYear(year) then 29 else 28)
    else if month == 4 || month == 6 || month == 9 || month == 11 then 30
    else 31
  }

  /** Days from 1970-01-01 to the given date (negative before it). */
  function DaysFromCivil(year: int, month: int, day: int): int
    requires 1 <= month <= 12
  {
    var y := if month <= 2 then year - 1 else year;
    var era := y / 400;
    var yearOfEra := y - era * 400;
    var dayOfYear := (153 * (if month > 2 then month - 3 else month + 9) + 2) / 5 + day - 1;
    var dayOfEra := yearOfEra * 365 + yearOfEra / 4 - yearOfEra / 100 + dayOfYear;
    era * 146097 + dayOfEra - 719468
  }

  lemma NextDayIsOneMore(year: int, month: int, day: int)
    requires 1 <= month <= 12
    ensures DaysFromCivil(year, month, day + 1) == DaysFromCivil(year, month, day) + 1
  {
  }

  /** The `date` query parameter as datetime.fromisoformat reads it: a calendar
      date with an optional time of day, or text it rejects. */
  datatype DateParam = DateTime(year: int, month: int, day: int, secondOfDay: int) | Unparsable

  /** The values a Python datetime can hold. */
  predicate IsValidDate(d: DateParam)
  {
    d.DateTime? && 1 <= d.year <= 9999 && 1 <= d.month <= 12
    && 1 <= d.day <= DaysInMonth(d.year, d.month) && 0 <= d.secondOfDay < SECONDS_PER_DAY
  }

  function InstantOf(d: DateParam): int
    requires IsValidDate(d)
  {
    DaysFromCivil(d.year, d.month, d.day) * SECONDS_PER_DAY + d.secondOfDay
  }

  /** The [from, to) window search_rides builds, as written: the end is
      datetime(year, month, day + 1), which raises on the last day of a month. */
  function DayWindowAsWritten(d: DateParam): Result<(int, int)>
  {
    if !IsValidDate(d) then Err("Invalid isoformat string")
    else if d.day + 1 > DaysInMonth(d.year, d.month) then Err("day is out of range for month")
    else Ok((InstantOf(d), DaysFromCivil(d.year, d.month, d.day + 1) * SECONDS_PER_DAY))
  }

  /** The window the code evidently means: from the given instant to the start of
      the next calendar day, on every day of the year. */
  function DayWindow(d: DateParam): (w: Result<(int, int)>)
    ensures w.Ok? <==> IsValidDate(d)
    ensures w.Ok? ==> w.value.0 == InstantOf(d) && w.value.1 - w.value.0 == SECONDS_PER_DAY - d.secondOfDay
    ensures w.Ok? ==> w.value.0 < w.value.1
  {
    if !IsValidDate(d) then Err("Invalid isoformat string")
    else Ok((InstantOf(d), (DaysFromCivil(d.year, d.month, d.day) + 1) * SECONDS_PER_DAY))
  }

  /** On every day but the last of its month the code as written builds the
      intended window. */
  lemma AsWrittenAgreesBeforeMonthEnd(d: DateParam)
    requires IsValidDate(d) && d.day < DaysInMonth(d.year, d.month)
    ensures DayWindowAsWritten(d) == DayWindow(d)
  {
    NextDayIsOneMore(d.year, d.month, d.day);
  }

  /** On the last day of any month the code as written fails where the intended
      window exists; 2025-01-31 is one such day. */
  lemma AsWrittenFailsOnMonthEnd(d: DateParam)
    requires IsValidDate(d) && d.day == DaysInMonth(d.year, d.month)
    ensures DayWindowAsWritten(d).Err? && DayWindow(d).Ok?
  {
  }

  lemma JanuaryThirtyFirstFails()
    ensures DayWindowAsWritten(DateTime(2025, 1, 31, 0)).Err?
    ensures DayWindow(DateTime(2025, 1, 31, 0)).Ok?
  {
    AsWrittenFailsOnMonthEnd(DateTime(2025, 1, 31, 0));
  }

  // ---------------------------------------------------------------- the search

  datatype SearchParams = SearchParams(
    pickupAddress: Option<string>,
    destinationAddress: Option<string>,
    date: Option<DateParam>,      // None when the parameter is absent or empty
    minSeats: Option<int>,        // None when absent or not an integer
    status: Option<string>)

  /** Every filter but the date. ILIKE '%text%' is a case-insensitive substring test. */
  predicate MatchesSearch(rides: map<RideId, Ride>, riders: map<RecordId, RiderRecord>, id: RideId, p: SearchParams)
    requires id in rides
  {
    var ride := rides[id];
    && ride.status == p.status.GetOr(ACTIVE)
    && (!Present(p.pickupAddress) || Contains(Lower(ride.pickupAddress), Lower(p.pickupAddress.value)))
    && (!Present(p.destinationAddress) || Contains(Lower(ride.destinationAddress), Lower(p.destinationAddress.value)))
    && (!Truthy(p.minSeats) || AvailableSeats(ride.maxRiders, RiderCount(riders, id)) >= p.minSeats.value)
  }

  function RidesInWindow(rides: map<RideId, Ride>, riders: map<RecordId, RiderRecord>, p: SearchParams,
                         window: Option<(int, int)>): set<RideId>
  {
    set id | id in rides && MatchesSearch(rides, riders, id, p)
      && (window.None? || window.value.0 <= rides[id].pickupTime < window.value.1)
  }

  /** search_rides as written: a date on the last day of a month answers 400. */
  function SearchRidesAsWritten(rides: map<RideId, Ride>, riders: map<RecordId, RiderRecord>, p: SearchParams)
    : (r: Result<set<RideId>>)
    ensures r.Err? <==> p.date.Some? && DayWindowAsWritten(p.date.value).Err?
  {
    if p.date.None? then Ok(RidesInWindow(rides, riders, p, None))
    else match DayWindowAsWritten(p.date.value)
      case Err(e) => Err(e)
      case Ok(w) => Ok(RidesInWindow(rides, riders, p, Some(w)))
  }

  /** search_rides with the intended day window: it fails only on a date
      fromisoformat rejects, and every ride it lists has the requested status, the
      address fragments, enough free seats and a pickup time on that day. */
  function SearchRides(rides: map<RideId, Ride>, riders: map<RecordId, RiderRecord>, p: SearchParams)
    : (r: Result<set<RideId>>)
    ensures r.Err? <==> p.date.Some? && !IsValidDate(p.date.value)
    ensures r.Ok? ==> forall id :: id in r.value <==>
      && id in rides
      && rides[id].status == (if p.status.Some? then p.status.value else ACTIVE)
      && (p.pickupAddress.None? || p.pickupAddress.value == []
          || Contains(Lower(rides[id].pickupAddress), Lower(p.pickupAddress.value)))
      && (p.destinationAddress.None? || p.destinationAddress.value == []
          || Contains(Lower(rides[id].destinationAddress), Lower(p.destinationAddress.value)))
      && (p.minSeats.None? || p.minSeats.value == 0
          || rides[id].maxRiders - RiderCount(riders, id) >= p.minSeats.value)
      && (p.date.None?
          || InstantOf(p.date.value) <= rides[id].pickupTime
             < (DaysFromCivil(p.date.value.year, p.date.value.month, p.date.value.day) + 1) * SECONDS_PER_DAY)
  {
    if p.date.None? then Ok(RidesInWindow(rides, riders, p, None))
    else match DayWindow(p.date.value)
      case Err(e) => Err(e)
      case Ok(w) => Ok(RidesInWindow(rides, riders, p, Some(w)))
  }

  /** A min_seats of 0 is falsy in Python: it filters nothing, exactly as an
      absent parameter. */
  lemma ZeroMinSeatsIsNoFilter(rides: map<RideId, Ride>, riders: map<RecordId, RiderRecord>, p: SearchParams)
    ensures SearchRides(rides, riders, p.(minSeats := Some(0))) == SearchRides(rides, riders, p.(minSeats := None))
  {
    var zero, none := p.(minSeats := Some(0)), p.(minSeats := None);
    if p.date.None? || IsValidDate(p.date.value) {
      var w := if p.date.None? then None else Some(DayWindow(p.date.value).value);
      assert forall id :: id in rides ==> (MatchesSearch(rides, riders, id, zero) <==> MatchesSearch(rides, riders, id, none));
      assert RidesInWindow(rides, riders, zero, w) == RidesInWindow(rides, riders, none, w);
    }
  }

  /** Whenever the code as written answers, it answers what the intended search does. */
  lemma AsWrittenAgreesWhenItAnswers(rides: map<RideId, Ride>, riders: map<RecordId, RiderRecord>, p: SearchParams)
    requires SearchRidesAsWritten(rides, riders, p).Ok?
    ensures SearchRides(rides, riders, p) == SearchRidesAsWritten(rides, riders, p)
  {
    if p.date.Some? {
      AsWrittenAgreesBeforeMonthEnd(p.date.value);
    }
  }
}
