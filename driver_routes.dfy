/** The driver-profile handlers of backend/app/routes/driver_routes.py: a user
    registers at most one profile, edits only its licence and vehicle columns,
    cannot delete it while hosting rides, and a system administrator approves or
    rejects it. */
module DriverRoutes {
  import opened Common
  import opened Models
  import opened Store

  /** The JSON body of POST /drivers; None marks a missing key. */
  datatype CreateDriverBody = CreateDriverBody(
    userId: Option<int>,
    licenseImage: Option<string>,
    vehicleData: Option<string>,
    licensePlate: Option<string>,
    isApproved: Option<bool>)

  predicate HasDriverFields(b: CreateDriverBody)
  {
    b.userId.Some? && b.licenseImage.Some? && b.vehicleData.Some? && b.licensePlate.Some?
  }

  /** The profile POST /drivers builds: is_approved is taken from the body when
      given and is False otherwise. */
  function NewProfile(b: CreateDriverBody): (d: DriverData)
    requires HasDriverFields(b)
    ensures d.userId == b.userId.value && d.approvedAt.None?
    ensures d.isApproved <==> b.isApproved == Some(true)
    ensures d.licenseImage == b.licenseImage.value && d.vehicleData == b.vehicleData.value
    ensures d.licensePlate == b.licensePlate.value
  {
    NewDriverData(b.userId.value, b.licenseImage.value, b.vehicleData.value, b.licensePlate.value,
                  b.isApproved.GetOr(false))
  }

  /** POST /drivers. A second profile for the same user is a conflict; a taken
      licence image or plate, or a column wider than driver_data declares, fails
      at commit. */
  method CreateDriverData(db: Database, body: CreateDriverBody) returns (status: int)
    requires db.Valid()
    modifies db
    ensures db.Valid()
    ensures var t := old(db.Snapshot());
      if !HasDriverFields(body) then status == BAD_REQUEST && db.Snapshot() == t
      else if body.userId.value !in t.users then status == NOT_FOUND && db.Snapshot() == t
      else if ProfileOf(t.drivers, body.userId.value).Some? then status == CONFLICT && db.Snapshot() == t
      else
        var d := NewProfile(body);
        if !DriverRowFits(d) || ImageTaken(t.drivers, d.licenseImage) || PlateTaken(t.drivers, d.licensePlate)
        then status == BAD_REQUEST && db.Snapshot() == t
        else status == CREATED && db.Snapshot() == t.(drivers := t.drivers[t.next.driver := d],
                                                      next := t.next.(driver := t.next.driver + 1))
  {
    var t := db.Snapshot();
    if !HasDriverFields(body) {
      return BAD_REQUEST;
    }
    if body.userId.value !in t.users {
      return NOT_FOUND;
    }
    if ProfileOf(t.drivers, body.userId.value).Some? {
      return CONFLICT;
    }
    var d := NewProfile(body);
    if !DriverRowFits(d) || ImageTaken(t.drivers, d.licenseImage) || PlateTaken(t.drivers, d.licensePlate) {
      return BAD_REQUEST;
    }
    InsertDriverKeepsConsistent(t, d);
    db.Commit(t.(drivers := t.drivers[t.next.driver := d], next := t.next.(driver := t.next.driver + 1)));
    return CREATED;
  }

  /** The profile as PUT /drivers/<id> leaves it: only the three licence and
      vehicle columns can change, each when its key is present. */
  function EditedProfile(d: DriverData, licenseImage: Option<string>, vehicleData: Option<string>,
                         licensePlate: Option<string>): (e: DriverData)
    ensures e.isApproved == d.isApproved && e.approvedAt == d.approvedAt && e.userId == d.userId
    ensures e.licenseImage == (if licenseImage.Some? then licenseImage.value else d.licenseImage)
    ensures e.vehicleData == (if vehicleData.Some? then vehicleData.value else d.vehicleData)
    ensures e.licensePlate == (if licensePlate.Some? then licensePlate.value else d.licensePlate)
  {
    d.(licenseImage := licenseImage.GetOr(d.licenseImage),
       vehicleData := vehicleData.GetOr(d.vehicleData),
       licensePlate := licensePlate.GetOr(d.licensePlate))
  }

  /** PUT /drivers/<id>. As on creation, a taken image or plate or a column too
      wide fails at commit. */
  method UpdateDriver(db: Database, driverId: DriverId, licenseImage: Option<string>,
                      vehicleData: Option<string>, licensePlate: Option<string>) returns (status: int)
    requires db.Valid()
    modifies db
    ensures db.Valid()
    ensures var t := old(db.Snapshot());
      if driverId !in t.drivers then status == NOT_FOUND && db.Snapshot() == t
      else
        var e := EditedProfile(t.drivers[driverId], licenseImage, vehicleData, licensePlate);
        var others := t.drivers - {driverId};
        if !DriverRowFits(e) || ImageTaken(others, e.licenseImage) || PlateTaken(others, e.licensePlate)
        then status == BAD_REQUEST && db.Snapshot() == t
        else status == OK && db.Snapshot() == t.(drivers := t.drivers[driverId := e])
  {
    var t := db.Snapshot();
    if driverId !in t.drivers {
      return NOT_FOUND;
    }
    var e := EditedProfile(t.drivers[driverId], licenseImage, vehicleData, licensePlate);
    var others := t.drivers - {driverId};
    if !DriverRowFits(e) || ImageTaken(others, e.licenseImage) || PlateTaken(others, e.licensePlate) {
      return BAD_REQUEST;
    }
    ReplaceDriverKeepsConsistent(t, driverId, e);
    db.Commit(t.(drivers := t.drivers[driverId := e]));
    return OK;
  }

  /** DELETE /drivers/<id>: refused while any ride names the profile as its driver. */
  method DeleteDriver(db: Database, driverId: DriverId) returns (status: int)
    requires db.Valid()
    modifies db
    ensures db.Valid()
    ensures var t := old(db.Snapshot());
      if driverId !in t.drivers then status == NOT_FOUND && db.Snapshot() == t
      else if HostedRides(t.rides, driverId) != {} then status == BAD_REQUEST && db.Snapshot() == t
      else status == NO_CONTENT && db.Snapshot() == t.(drivers := t.drivers - {driverId})
  {
    var t := db.Snapshot();
    if driverId !in t.drivers {
      return NOT_FOUND;
    }
    if HostedRides(t.rides, driverId) != {} {
      return BAD_REQUEST;
    }
    RemoveDriverKeepsConsistent(t, driverId);
    db.Commit(t.(drivers := t.drivers - {driverId}));
    return NO_CONTENT;
  }

  /** POST /drivers/<id>/approve: the admin named in the body must exist and be a
      system administrator; the decision is stamped with `now` either way. */
  method ApproveDriver(db: Database, driverId: DriverId, approved: Option<bool>, adminUserId: Option<int>, now: int)
    returns (status: int)
    requires db.Valid()
    modifies db
    ensures db.Valid()
    ensures var t := old(db.Snapshot());
      if approved.None? || adminUserId.None? then status == BAD_REQUEST && db.Snapshot() == t
      else if adminUserId.value !in t.users then status == NOT_FOUND && db.Snapshot() == t
      else if !t.users[adminUserId.value].isSystemAdmin then status == FORBIDDEN && db.Snapshot() == t
      else if driverId !in t.drivers then status == NOT_FOUND && db.Snapshot() == t
      else
        var e := SetAsApproved(t.drivers[driverId], approved.value, now);
        status == OK && db.Snapshot() == t.(drivers := t.drivers[driverId := e])
  {
    var t := db.Snapshot();
    if approved.None? || adminUserId.None? {
      return BAD_REQUEST;
    }
    if adminUserId.value !in t.users {
      return NOT_FOUND;
    }
    if !t.users[adminUserId.value].isSystemAdmin {
      return FORBIDDEN;
    }
    if driverId !in t.drivers {
      return NOT_FOUND;
    }
    var e := SetAsApproved(t.drivers[driverId], approved.value, now);
    assert !ImageTaken(t.drivers - {driverId}, e.licenseImage) by {
      assert UniqueDriverColumns(t.drivers);
    }
    ReplaceDriverKeepsConsistent(t, driverId, e);
    db.Commit(t.(drivers := t.drivers[driverId := e]));
    return OK;
  }

  // ---------------------------------------------------------------- listings

  /** The `approved` query parameter, read with `v.lower() == 'true'`: absent is no
      filter, and any text but a spelling of "true" means false. */
  function ApprovedParam(v: Option<string>): (a: Option<bool>)
    ensures a.None? <==> v.None?
    ensures a == Some(true) <==> v.Some? && Lower(v.value) == "true"
  {
    if v.None? then None else Some(Lower(v.value) == "true")
  }

  /** GET /drivers: every profile, or those whose approval matches the parameter. */
  function GetAllDrivers(drivers: map<DriverId, DriverData>, approved: Option<string>): (r: set<DriverId>)
    ensures r <= drivers.Keys
    ensures approved.None? ==> r == drivers.Keys
    ensures approved.Some? ==> forall d :: d in r ==> drivers[d].isApproved == ApprovedParam(approved).value
  {
    var a := ApprovedParam(approved);
    set d | d in drivers && (a.None? || drivers[d].isApproved == a.value)
  }

  datatype Listing<T> = Listing(status: int, items: set<T>)

  /** GET /drivers/pending-approval: a missing or zero admin id is 400, an unknown
      admin 404, a user who is not a system administrator 403; otherwise the
      profiles not yet approved. */
  function GetPendingDrivers(t: Tables, adminUserId: Option<int>): (r: Listing<DriverId>)
    ensures !Truthy(adminUserId) ==> r == Listing(BAD_REQUEST, {})
    ensures Truthy(adminUserId) && adminUserId.value !in t.users ==> r == Listing(NOT_FOUND, {})
    ensures Truthy(adminUserId) && adminUserId.value in t.users && !t.users[adminUserId.value].isSystemAdmin
      ==> r == Listing(FORBIDDEN, {})
    ensures r.status == OK <==> Truthy(adminUserId) && adminUserId.value in t.users && t.users[adminUserId.value].isSystemAdmin
    ensures r.status == OK ==> forall d :: d in r.items <==> d in t.drivers && !t.drivers[d].isApproved
  {
    if !Truthy(adminUserId) then Listing(BAD_REQUEST, {})
    else if adminUserId.value !in t.users then Listing(NOT_FOUND, {})
    else if !t.users[adminUserId.value].isSystemAdmin then Listing(FORBIDDEN, {})
    else Listing(OK, set d | d in t.drivers && !t.drivers[d].isApproved)
  }

  /** For an administrator the pending list is GET /drivers?approved=false, and the
      approved and pending lists split the table. */
  lemma {:induction false} PendingIsUnapprovedListing(t: Tables, admin: UserId)
    requires admin != 0 && admin in t.users && t.users[admin].isSystemAdmin
    ensures GetPendingDrivers(t, Some(admin)).items == GetAllDrivers(t.drivers, Some("false"))
    ensures GetAllDrivers(t.drivers, Some("true")) !! GetAllDrivers(t.drivers, Some("false"))
    ensures GetAllDrivers(t.drivers, Some("true")) + GetAllDrivers(t.drivers, Some("false"))
         == GetAllDrivers(t.drivers, None)
  {
    assert Lower("false") == "false";
    assert Lower("true") == "true";
    var all := GetAllDrivers(t.drivers, None);
    var yes := GetAllDrivers(t.drivers, Some("true"));
    var no := GetAllDrivers(t.drivers, Some("false"));
    assert forall d :: d in yes + no <==> d in all;
  }

  /** GET /drivers/<id>/rides: the rides the profile hosts, narrowed to one status
      when a non-empty status is given. */
  function GetDriverRides(t: Tables, driverId: DriverId, status: Option<string>): (r: Result<set<RideId>>)
    ensures r.Err? <==> driverId !in t.drivers
    ensures r.Ok? ==> r.value <= HostedRides(t.rides, driverId)
    ensures r.Ok? && !Present(status) ==> r.value == HostedRides(t.rides, driverId)
    ensures r.Ok? && Present(status) ==> forall id :: id in r.value ==> t.rides[id].status == status.value
    ensures r.Ok? && Present(status) ==>
      forall id :: id in HostedRides(t.rides, driverId) && t.rides[id].status == status.value ==> id in r.value
  {
    if driverId !in t.drivers then Err("Driver not found")
    else Ok(set id | id in HostedRides(t.rides, driverId) && (!Present(status) || t.rides[id].status == status.value))
  }
}
