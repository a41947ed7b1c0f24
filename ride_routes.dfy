/** The ride endpoints of backend/app/routes/ride_routes.py. Every handler runs
    behind token_required, so the caller is an existing user. Each mutating
    handler either fails with its status code and leaves the database as it
    was, or commits exactly the change its ensures clause spells out. */
module RideRoutes {
  import opened Common
  import opened Models
  import opened Store

  /** A pickup_time value: an ISO-8601 text that datetime.fromisoformat accepts
      (as the instant it denotes) or one it rejects. */
  datatype TimeText = Iso(instant: int) | Malformed

  datatype CreateRideBody = CreateRideBody(
    pickupAddress: Option<string>,
    pickupTime: Option<TimeText>,
    destinationAddress: Option<string>,
    priceOption: Option<string>,
    maxRiders: Option<int>,
    driverId: Option<int>,
    organizationId: Option<int>,
    driverComment: Option<string>,
    riderComment: Option<string>)

  /** The four keys create_ride requires. */
  predicate HasRideFields(b: CreateRideBody)
  {
    b.pickupAddress.Some? && b.pickupTime.Some? && b.destinationAddress.Some? && b.priceOption.Some?
  }

  /** The row create_ride inserts: max_riders defaults to 4, a new ride is active,
      driver_id and organization_id are stored as sent. */
  function NewRide(b: CreateRideBody): (r: Ride)
    requires HasRideFields(b) && b.pickupTime.value.Iso?
    ensures r.status == ACTIVE && r.driverId == b.driverId && r.organizationId == b.organizationId
    ensures r.maxRiders == (if b.maxRiders.Some? then b.maxRiders.value else DEFAULT_MAX_RIDERS)
  {
    Ride(b.pickupAddress.value, b.pickupTime.value.instant, b.destinationAddress.value,
         b.maxRiders.GetOr(DEFAULT_MAX_RIDERS), b.priceOption.value,
         b.driverId, b.organizationId, b.driverComment, ACTIVE)
  }

  /** POST /rides. A body without a (truthy) driver_id is a rider request: the
      caller is added as its first rider, in a second commit, so a rider row the
      database refuses leaves the ride in place and still answers 400. */
  method CreateRide(db: Database, caller: UserId, body: CreateRideBody, now: int) returns (status: int)
    requires db.Valid() && caller in db.users
    modifies db
    ensures db.Valid()
    ensures var t := old(db.Snapshot());
      if !HasRideFields(body) then status == BAD_REQUEST && db.Snapshot() == t
      else if Truthy(body.driverId) && body.driverId.value !in t.drivers then
        status == NOT_FOUND && db.Snapshot() == t
      else if Truthy(body.driverId) && !t.drivers[body.driverId.value].isApproved then
        status == FORBIDDEN && db.Snapshot() == t
      else if Truthy(body.organizationId) && body.organizationId.value !in t.organizations then
        status == NOT_FOUND && db.Snapshot() == t
      else if body.pickupTime.value.Malformed? then status == BAD_REQUEST && db.Snapshot() == t
      else
        var withRide := t.(rides := t.rides[t.next.ride := NewRide(body)], next := t.next.(ride := t.next.ride + 1));
        var rec := RiderRecord(caller, t.next.ride, body.riderComment, now);
        if Truthy(body.driverId) then status == CREATED && db.Snapshot() == withRide
        else if !RiderRowFits(rec) then status == BAD_REQUEST && db.Snapshot() == withRide
        else status == CREATED
             && db.Snapshot()
                == withRide.(riders := t.riders[t.next.rider := rec], next := withRide.next.(rider := t.next.rider + 1))
  {
    var t := db.Snapshot();
    if !HasRideFields(body) {
      return BAD_REQUEST;
    }
    if Truthy(body.driverId) {
      var driver := body.driverId.value;
      if driver !in t.drivers {
        return NOT_FOUND;
      }
      if !t.drivers[driver].isApproved {
        return FORBIDDEN;
      }
    }
    if Truthy(body.organizationId) && body.organizationId.value !in t.organizations {
      return NOT_FOUND;
    }
    if body.pickupTime.value.Malformed? {
      return BAD_REQUEST;
    }
    var rideId := t.next.ride;
    InsertRideKeepsConsistent(t, NewRide(body));
    t := t.(rides := t.rides[rideId := NewRide(body)], next := t.next.(ride := t.next.ride + 1));
    db.Commit(t);
    if !Truthy(body.driverId) {
      var rec := RiderRecord(caller, rideId, body.riderComment, now);
      if !RiderRowFits(rec) {
        return BAD_REQUEST;
      }
      InsertRiderKeepsConsistent(t, rec);
      db.Commit(t.(riders := t.riders[t.next.rider := rec], next := t.next.(rider := t.next.rider + 1)));
    }
    return CREATED;
  }

  // ---------------------------------------------------------------- listings

  /** GET /rides: status and has_driver filters when given; with a (truthy)
      organization_id only that organization's rides, otherwise only rides of
      no organization. */
  function GetRides(rides: map<RideId, Ride>, status: Option<string>, hasDriver: Option<bool>,
                    organizationId: Option<int>): (r: set<RideId>)
    ensures r <= rides.Keys
    ensures Present(status) ==> forall id :: id in r ==> rides[id].status == status.value
    ensures hasDriver.Some? ==> forall id :: id in r ==> rides[id].driverId.Some? == hasDriver.value
    ensures Truthy(organizationId) ==> forall id :: id in r ==> rides[id].organizationId == organizationId
    ensures !Truthy(organizationId) ==> forall id :: id in r ==> rides[id].organizationId.None?
  {
    set id | id in rides
      && (!Present(status) || rides[id].status == status.value)
      && (hasDriver.None? || rides[id].driverId.Some? == hasDriver.value)
      && (if Truthy(organizationId) then rides[id].organizationId == organizationId
          else rides[id].organizationId.None?)
  }

  /** With no filter at all, GET /rides lists exactly the rides of no organization. */
  lemma GetRidesUnfilteredIsPublicRides(rides: map<RideId, Ride>)
    ensures GetRides(rides, None, None, None) == set id | id in rides && rides[id].organizationId.None?
  {
  }

  /** GET /rides/rider-requests: active rides without a driver. */
  function RiderRequests(rides: map<RideId, Ride>): set<RideId>
  {
    set id | id in rides && rides[id].driverId.None? && rides[id].status == ACTIVE
  }

  /** GET /rides/driver-posts: active rides with a driver. */
  function DriverPosts(rides: map<RideId, Ride>): set<RideId>
  {
    set id | id in rides && rides[id].driverId.Some? && rides[id].status == ACTIVE
  }

  /** Rider requests and driver posts never share a ride, and together they are
      all the active rides. */
  lemma RequestsAndPostsPartitionActiveRides(rides: map<RideId, Ride>)
    ensures RiderRequests(rides) !! DriverPosts(rides)
    ensures RiderRequests(rides) + DriverPosts(rides) == set id | id in rides && rides[id].status == ACTIVE
  {
  }

  // ---------------------------------------------------------------- update and delete

  datatype UpdateRideBody = UpdateRideBody(
    pickupAddress: Option<string>,
    pickupTime: Option<TimeText>,
    destinationAddress: Option<string>,
    maxRiders: Option<int>,
    priceOption: Option<string>,
    status: Option<string>,
    driverComment: Option<Option<string>>,   // outer: key present; inner: null or text
    driverId: Option<Option<int>>)

  /** The keys update_ride refuses once a ride is completed. */
  predicate TouchesFrozenField(b: UpdateRideBody)
  {
    b.pickupAddress.Some? || b.pickupTime.Some? || b.destinationAddress.Some?
    || b.maxRiders.Some? || b.priceOption.Some? || b.driverId.Some?
  }

  /** The ride after an update of an active ride: every key present is written. */
  function UpdatedRide(r: Ride, b: UpdateRideBody): (u: Ride)
    requires b.pickupTime.None? || b.pickupTime.value.Iso?
    ensures b.pickupAddress.None? ==> u.pickupAddress == r.pickupAddress
    ensures b.pickupTime.None? ==> u.pickupTime == r.pickupTime
    ensures b.destinationAddress.None? ==> u.destinationAddress == r.destinationAddress
    ensures b.maxRiders.None? ==> u.maxRiders == r.maxRiders
    ensures b.priceOption.None? ==> u.priceOption == r.priceOption
    ensures b.status.None? ==> u.status == r.status
    ensures b.driverComment.None? ==> u.driverComment == r.driverComment
    ensures b.driverId.None? ==> u.driverId == r.driverId
    ensures u.organizationId == r.organizationId
  {
    Ride(
      b.pickupAddress.GetOr(r.pickupAddress),
      if b.pickupTime.Some? then b.pickupTime.value.instant else r.pickupTime,
      b.destinationAddress.GetOr(r.destinationAddress),
      b.maxRiders.GetOr(r.maxRiders),
      b.priceOption.GetOr(r.priceOption),
      b.driverId.GetOr(r.driverId),
      r.organizationId,
      b.driverComment.GetOr(r.driverComment),
      b.status.GetOr(r.status))
  }

  /** PUT /rides/<id>. Any authenticated user may update any ride. A completed
      ride keeps everything but its driver_comment (a status key is ignored);
      an active ride takes every key sent, including a new status, and a truthy
      driver_id must name an approved driver profile (a null or 0 one is stored
      unchecked). */
  method UpdateRide(db: Database, rideId: RideId, body: UpdateRideBody) returns (status: int)
    requires db.Valid()
    modifies db
    ensures db.Valid()
    ensures var t := old(db.Snapshot());
      if rideId !in t.rides then status == NOT_FOUND && db.Snapshot() == t
      else if t.rides[rideId].status == COMPLETED then
        if TouchesFrozenField(body) then status == FORBIDDEN && db.Snapshot() == t
        else
          var r := t.rides[rideId];
          status == OK
          && db.Snapshot() == t.(rides := t.rides[rideId := r.(driverComment := body.driverComment.GetOr(r.driverComment))])
      else if body.pickupTime.Some? && body.pickupTime.value.Malformed? then
        status == BAD_REQUEST && db.Snapshot() == t
      else if body.driverId.Some? && Truthy(body.driverId.value) && body.driverId.value.value !in t.drivers then
        status == NOT_FOUND && db.Snapshot() == t
      else if body.driverId.Some? && Truthy(body.driverId.value) && !t.drivers[body.driverId.value.value].isApproved then
        status == FORBIDDEN && db.Snapshot() == t
      else
        status == OK && db.Snapshot() == t.(rides := t.rides[rideId := UpdatedRide(t.rides[rideId], body)])
  {
    var t := db.Snapshot();
    if rideId !in t.rides {
      return NOT_FOUND;
    }
    var ride := t.rides[rideId];
    if ride.status == COMPLETED {
      if TouchesFrozenField(body) {
        return FORBIDDEN;
      }
      if body.driverComment.Some? {
        ride := ride.(driverComment := body.driverComment.value);
      }
    } else {
      if body.pickupTime.Some? && body.pickupTime.value.Malformed? {
        return BAD_REQUEST;
      }
      if body.driverId.Some? && Truthy(body.driverId.value) {
        var driver := body.driverId.value.value;
        if driver !in t.drivers {
          return NOT_FOUND;
        }
        if !t.drivers[driver].isApproved {
          return FORBIDDEN;
        }
      }
      ride := UpdatedRide(ride, body);
    }
    ReplaceRideKeepsConsistent(t, rideId, ride);
    db.Commit(t.(rides := t.rides[rideId := ride]));
    return OK;
  }

  /** delete_ride's permission: the caller "is the driver" of a ride without riders
      (the caller's user id compared with the ride's driver-profile id), or the
      caller is its only rider. */
  predicate MayDeleteRide(t: Tables, caller: UserId, rideId: RideId)
    requires rideId in t.rides
  {
    (t.rides[rideId].driverId == Some(caller) && RiderCount(t.riders, rideId) == 0)
    || (RiderCount(t.riders, rideId) == 1 && HasRiderRecord(t.riders, caller, rideId))
  }

  /** DELETE /rides/<id>; the ride's rider rows and reviews go with it. */
  method DeleteRide(db: Database, caller: UserId, rideId: RideId) returns (status: int)
    requires db.Valid()
    modifies db
    ensures db.Valid()
    ensures var t := old(db.Snapshot());
      if rideId !in t.rides then status == NOT_FOUND && db.Snapshot() == t
      else if !MayDeleteRide(t, caller, rideId) then status == FORBIDDEN && db.Snapshot() == t
      else status == NO_CONTENT && db.Snapshot() == WithoutRide(t, rideId)
  {
    var t := db.Snapshot();
    if rideId !in t.rides {
      return NOT_FOUND;
    }
    if !MayDeleteRide(t, caller, rideId) {
      return FORBIDDEN;
    }
    WithoutRideKeepsConsistent(t, rideId);
    db.Commit(WithoutRide(t, rideId));
    return NO_CONTENT;
  }

  // ---------------------------------------------------------------- completing, joining, leaving

  /** POST /rides/<id>/complete: only the user behind the ride's driver profile
      may complete it, and only once. */
  method CompleteRide(db: Database, caller: UserId, rideId: RideId) returns (status: int)
    requires db.Valid()
    modifies db
    ensures db.Valid()
    ensures var t := old(db.Snapshot());
      if rideId !in t.rides then status == NOT_FOUND && db.Snapshot() == t
      else var ride := t.rides[rideId];
      if !Truthy(ride.driverId) then status == BAD_REQUEST && db.Snapshot() == t
      else if ride.driverId.value !in t.drivers then status == NOT_FOUND && db.Snapshot() == t
      else if t.drivers[ride.driverId.value].userId != caller then status == FORBIDDEN && db.Snapshot() == t
      else if ride.status == COMPLETED then status == FORBIDDEN && db.Snapshot() == t
      else status == OK && db.Snapshot() == t.(rides := t.rides[rideId := ride.(status := COMPLETED)])
  {
    var t := db.Snapshot();
    if rideId !in t.rides {
      return NOT_FOUND;
    }
    var ride := t.rides[rideId];
    if !Truthy(ride.driverId) {
      return BAD_REQUEST;
    }
    if ride.driverId.value !in t.drivers {
      return NOT_FOUND;
    }
    if t.drivers[ride.driverId.value].userId != caller {
      return FORBIDDEN;
    }
    if ride.status == COMPLETED {
      return FORBIDDEN;
    }
    ReplaceRideKeepsConsistent(t, rideId, ride.(status := COMPLETED));
    db.Commit(t.(rides := t.rides[rideId := ride.(status := COMPLETED)]));
    return OK;
  }

  /** The ride's (truthy) driver_id names a profile that belongs to the caller. */
  predicate DriverIsCaller(drivers: map<DriverId, DriverData>, driverId: Option<int>, caller: UserId)
  {
    Truthy(driverId) && driverId.value in drivers && drivers[driverId.value].userId == caller
  }

  /** POST /rides/<id>/join_rider. */
  method JoinRideRider(db: Database, caller: UserId, rideId: RideId, userComment: Option<string>, now: int)
    returns (status: int)
    requires db.Valid() && caller in db.users
    modifies db
    ensures db.Valid()
    ensures var t := old(db.Snapshot());
      if rideId !in t.rides then status == NOT_FOUND && db.Snapshot() == t
      else var ride := t.rides[rideId];
      if ride.status != ACTIVE then status == BAD_REQUEST && db.Snapshot() == t
      else if IsFull(ride.maxRiders, RiderCount(t.riders, rideId)) then status == BAD_REQUEST && db.Snapshot() == t
      else if DriverIsCaller(t.drivers, ride.driverId, caller) then status == FORBIDDEN && db.Snapshot() == t
      else if HasRiderRecord(t.riders, caller, rideId) then status == BAD_REQUEST && db.Snapshot() == t
      else
        var rec := RiderRecord(caller, rideId, userComment, now);
        if !RiderRowFits(rec) then status == BAD_REQUEST && db.Snapshot() == t
        else status == OK && db.Snapshot() == t.(riders := t.riders[t.next.rider := rec],
                                                 next := t.next.(rider := t.next.rider + 1))
  {
    var t := db.Snapshot();
    if rideId !in t.rides {
      return NOT_FOUND;
    }
    var ride := t.rides[rideId];
    if ride.status != ACTIVE {
      return BAD_REQUEST;
    }
    if IsFull(ride.maxRiders, RiderCount(t.riders, rideId)) {
      return BAD_REQUEST;
    }
    if DriverIsCaller(t.drivers, ride.driverId, caller) {
      return FORBIDDEN;
    }
    if HasRiderRecord(t.riders, caller, rideId) {
      return BAD_REQUEST;
    }
    var rec := RiderRecord(caller, rideId, userComment, now);
    if !RiderRowFits(rec) {
      return BAD_REQUEST;
    }
    InsertRiderKeepsConsistent(t, rec);
    db.Commit(t.(riders := t.riders[t.next.rider := rec], next := t.next.(rider := t.next.rider + 1)));
    return OK;
  }

  /** POST /rides/<id>/join_driver: the caller's approved profile takes an active
      rider request, unless the caller is one of its riders. */
  method JoinRideDriver(db: Database, caller: UserId, rideId: RideId, driverComment: Option<Option<string>>)
    returns (status: int)
    requires db.Valid()
    modifies db
    ensures db.Valid()
    ensures var t := old(db.Snapshot());
      if rideId !in t.rides then status == NOT_FOUND && db.Snapshot() == t
      else var ride := t.rides[rideId];
      if ride.status != ACTIVE then status == BAD_REQUEST && db.Snapshot() == t
      else if ride.driverId.Some? then status == BAD_REQUEST && db.Snapshot() == t
      else
        var profile := ProfileOf(t.drivers, caller);
        if profile.None? then status == BAD_REQUEST && db.Snapshot() == t
        else if !t.drivers[profile.value].isApproved then status == FORBIDDEN && db.Snapshot() == t
        else if HasRiderRecord(t.riders, caller, rideId) then status == FORBIDDEN && db.Snapshot() == t
        else
          var taken := ride.(driverId := profile, driverComment := driverComment.GetOr(ride.driverComment));
          status == OK && db.Snapshot() == t.(rides := t.rides[rideId := taken])
  {
    var t := db.Snapshot();
    if rideId !in t.rides {
      return NOT_FOUND;
    }
    var ride := t.rides[rideId];
    if ride.status != ACTIVE {
      return BAD_REQUEST;
    }
    if ride.driverId.Some? {
      return BAD_REQUEST;
    }
    var profile := ProfileOf(t.drivers, caller);
    if profile.None? {
      return BAD_REQUEST;
    }
    if !t.drivers[profile.value].isApproved {
      return FORBIDDEN;
    }
    if HasRiderRecord(t.riders, caller, rideId) {
      return FORBIDDEN;
    }
    ride := ride.(driverId := profile);
    if driverComment.Some? {
      ride := ride.(driverComment := driverComment.value);
    }
    ReplaceRideKeepsConsistent(t, rideId, ride);
    db.Commit(t.(rides := t.rides[rideId := ride]));
    return OK;
  }

  /** POST /rides/<id>/leave: removes the caller's rider row, whatever the ride's status. */
  method LeaveRide(db: Database, caller: UserId, rideId: RideId) returns (status: int)
    requires db.Valid()
    modifies db
    ensures db.Valid()
    ensures var t := old(db.Snapshot());
      if rideId !in t.rides then status == NOT_FOUND && db.Snapshot() == t
      else if !HasRiderRecord(t.riders, caller, rideId) then status == NOT_FOUND && db.Snapshot() == t
      else status == OK && db.Snapshot() == t.(riders := t.riders - {RecordOf(t.riders, caller, rideId).value})
    ensures status == OK ==> !HasRiderRecord(db.riders, caller, rideId)
  {
    var t := db.Snapshot();
    if rideId !in t.rides {
      return NOT_FOUND;
    }
    var rec := RecordOf(t.riders, caller, rideId);
    if rec.None? {
      return NOT_FOUND;
    }
    RemoveRiderKeepsConsistent(t, rec.value);
    db.Commit(t.(riders := t.riders - {rec.value}));
    return OK;
  }

  // ---------------------------------------------------------------- riders of a ride

  datatype RiderInfo = RiderInfo(userId: UserId, name: string, email: string, comment: Option<string>, joinedAt: int)

  /** The entry get_ride_riders builds for one rider row. */
  function RiderInfoOf(t: Tables, r: RecordId): RiderInfo
    requires r in t.riders && t.riders[r].userId in t.users
  {
    var rec := t.riders[r];
    RiderInfo(rec.userId, t.users[rec.userId].name, t.users[rec.userId].email, rec.userComment, rec.joinedAt)
  }

  /** The entries of every rider row of a ride. */
  function RiderInfos(t: Tables, rideId: RideId): set<RiderInfo>
    requires Consistent(t)
  {
    set r | r in RidersOf(t.riders, rideId) :: RiderInfoOf(t, r)
  }

  /** GET /rides/<id>/riders: one entry per rider row of the ride (the rows come
      in no particular order). */
  method GetRideRiders(db: Database, rideId: RideId) returns (status: int, riders: seq<RiderInfo>)
    requires db.Valid()
    ensures rideId !in db.rides ==> status == NOT_FOUND && riders == []
    ensures rideId in db.rides ==> status == OK && |riders| == RiderCount(db.riders, rideId)
    ensures forall i :: 0 <= i < |riders| ==> riders[i] in RiderInfos(db.Snapshot(), rideId)
    ensures forall x :: x in RiderInfos(db.Snapshot(), rideId) ==> x in riders
  {
    riders := [];
    if rideId !in db.rides {
      return NOT_FOUND, riders;
    }
    var t := db.Snapshot();
    var todo := RidersOf(db.riders, rideId);
    ghost var done: set<RecordId> := {};
    while todo != {}
      invariant t == db.Snapshot()
      invariant todo !! done
      invariant forall r :: r in RidersOf(t.riders, rideId) <==> r in todo || r in done
      invariant |riders| == |done|
      invariant forall i :: 0 <= i < |riders| ==> riders[i] in RiderInfos(t, rideId)
      invariant forall r :: r in done ==> RiderInfoOf(t, r) in riders
      decreases |todo|
    {
      var r := Pick(todo);
      riders := riders + [RiderInfoOf(t, r)];
      todo := todo - {r};
      done := done + {r};
    }
    assert forall r :: r in done <==> r in RidersOf(t.riders, rideId);
    assert done == RidersOf(t.riders, rideId);
    return OK, riders;
  }
}
