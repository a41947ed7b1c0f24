/** The user handlers of backend/app/routes/user_routes.py: registration with a
    unique email, profile edits that never touch the email or the administrator
    flag, and the lists of a user's memberships and rides. */
module UserRoutes {
  import opened Common
  import opened Models
  import opened Store

  /** The JSON body of POST /users; None marks a missing key. */
  datatype CreateUserBody = CreateUserBody(
    email: Option<string>,
    name: Option<string>,
    gender: Option<int>,
    preferredContact: Option<string>,
    isSystemAdmin: Option<bool>)

  predicate HasUserFields(b: CreateUserBody)
  {
    b.email.Some? && b.name.Some? && b.gender.Some? && b.preferredContact.Some?
  }

  /** The row POST /users builds: is_system_admin is taken from the body when
      given and is False otherwise. */
  function NewUserRow(b: CreateUserBody): (u: User)
    requires HasUserFields(b)
    ensures u.email == b.email.value && u.name == b.name.value && u.gender == b.gender.value
    ensures u.preferredContact == b.preferredContact.value
    ensures u.isSystemAdmin <==> b.isSystemAdmin == Some(true)
  {
    NewUser(b.email.value, b.name.value, b.gender.value, b.preferredContact.value, b.isSystemAdmin.GetOr(false))
  }

  /** POST /users. A field over the String(100) width of its column fails at
      commit. */
  method CreateUser(db: Database, body: CreateUserBody) returns (status: int)
    requires db.Valid()
    modifies db
    ensures db.Valid()
    ensures var t := old(db.Snapshot());
      if !HasUserFields(body) then status == BAD_REQUEST && db.Snapshot() == t
      else if EmailTaken(t.users, body.email.value) then status == CONFLICT && db.Snapshot() == t
      else
        var row := NewUserRow(body);
        if !UserRowFits(row) then status == BAD_REQUEST && db.Snapshot() == t
        else status == CREATED && db.Snapshot() == t.(users := t.users[t.next.user := row],
                                                      next := t.next.(user := t.next.user + 1))
  {
    var t := db.Snapshot();
    if !HasUserFields(body) {
      return BAD_REQUEST;
    }
    if EmailTaken(t.users, body.email.value) {
      return CONFLICT;
    }
    if !UserRowFits(NewUserRow(body)) {
      return BAD_REQUEST;
    }
    InsertUserKeepsConsistent(t, NewUserRow(body));
    db.Commit(t.(users := t.users[t.next.user := NewUserRow(body)], next := t.next.(user := t.next.user + 1)));
    return CREATED;
  }

  /** The user as PUT /users/<id> leaves it: name, gender and preferred contact
      change when present; email and the administrator flag never do. */
  function EditedUser(u: User, name: Option<string>, gender: Option<int>, preferredContact: Option<string>)
    : (e: User)
    ensures e.email == u.email && e.isSystemAdmin == u.isSystemAdmin
    ensures e.name == (if name.Some? then name.value else u.name)
    ensures e.gender == (if gender.Some? then gender.value else u.gender)
    ensures e.preferredContact == (if preferredContact.Some? then preferredContact.value else u.preferredContact)
  {
    u.(name := name.GetOr(u.name), gender := gender.GetOr(u.gender),
       preferredContact := preferredContact.GetOr(u.preferredContact))
  }

  /** PUT /users/<id>. As on creation, a field too wide fails at commit. */
  method UpdateUser(db: Database, userId: UserId, name: Option<string>, gender: Option<int>,
                    preferredContact: Option<string>) returns (status: int)
    requires db.Valid()
    modifies db
    ensures db.Valid()
    ensures var t := old(db.Snapshot());
      if userId !in t.users then status == NOT_FOUND && db.Snapshot() == t
      else
        var e := EditedUser(t.users[userId], name, gender, preferredContact);
        if !UserRowFits(e) then status == BAD_REQUEST && db.Snapshot() == t
        else status == OK && db.Snapshot() == t.(users := t.users[userId := e])
  {
    var t := db.Snapshot();
    if userId !in t.users {
      return NOT_FOUND;
    }
    var e := EditedUser(t.users[userId], name, gender, preferredContact);
    if !UserRowFits(e) {
      return BAD_REQUEST;
    }
    ReplaceUserKeepsConsistent(t, userId, e);
    db.Commit(t.(users := t.users[userId := e]));
    return OK;
  }

  // ---------------------------------------------------------------- a user's memberships

  datatype UserOrgInfo = UserOrgInfo(orgId: OrgId, orgName: string, isOwner: bool, isAdmin: bool, isDriver: bool)

  /** User.organizations: the membership rows of a user. */
  function MembershipsOfUser(ms: map<RecordId, Membership>, user: UserId): set<RecordId>
  {
    set m | m in ms && ms[m].userId == user
  }

  /** What the membership listing needs: every membership names an existing
      organization. */
  predicate MembershipsResolve(t: Tables)
  {
    forall m :: m in t.memberships ==> t.memberships[m].orgId in t.organizations
  }

  function UserOrgInfoOf(t: Tables, m: RecordId): UserOrgInfo
    requires MembershipsResolve(t) && m in t.memberships
  {
    var row := t.memberships[m];
    UserOrgInfo(row.orgId, t.organizations[row.orgId].name, row.isOwner, row.isAdmin, row.isDriver)
  }

  function UserOrgInfos(t: Tables, user: UserId): set<UserOrgInfo>
    requires MembershipsResolve(t)
  {
    set m | m in MembershipsOfUser(t.memberships, user) :: UserOrgInfoOf(t, m)
  }

  /** GET /users/<id>/organizations: one entry per membership of the user, with
      its three role flags. */
  method GetUserOrganizations(db: Database, userId: UserId) returns (status: int, orgs: seq<UserOrgInfo>)
    requires db.Valid()
    ensures MembershipsResolve(db.Snapshot())
    ensures userId !in db.users ==> status == NOT_FOUND && orgs == []
    ensures userId in db.users ==> status == OK && |orgs| == |MembershipsOfUser(db.memberships, userId)|
    ensures forall i :: 0 <= i < |orgs| ==> orgs[i] in UserOrgInfos(db.Snapshot(), userId)
    ensures forall x :: x in UserOrgInfos(db.Snapshot(), userId) ==> x in orgs
  {
    var t := db.Snapshot();
    assert MembershipsResolve(t);
    if userId !in t.users {
      return NOT_FOUND, [];
    }
    orgs := CollectUserOrgs(t, userId);
    return OK, orgs;
  }

  /** The loop over User.organizations, on the tables alone. */
  method CollectUserOrgs(t: Tables, userId: UserId) returns (orgs: seq<UserOrgInfo>)
    requires MembershipsResolve(t)
    ensures |orgs| == |MembershipsOfUser(t.memberships, userId)|
    ensures forall i :: 0 <= i < |orgs| ==> orgs[i] in UserOrgInfos(t, userId)
    ensures forall x :: x in UserOrgInfos(t, userId) ==> x in orgs
  {
    var rows := MembershipsOfUser(t.memberships, userId);
    var every := (m: RecordId) => true;
    var entry := m requires m in t.memberships => UserOrgInfoOf(t, m);
    ghost var order;
    orgs, order := Collect(rows, every, entry);
    assert Kept(rows, every) == rows;
    forall x | x in UserOrgInfos(t, userId)
      ensures x in orgs
    {
      var m :| m in rows && x == UserOrgInfoOf(t, m);
      var i :| 0 <= i < |order| && order[i] == m;
      assert orgs[i] == x;
    }
  }

  // ---------------------------------------------------------------- a user's rides

  datatype UserRideInfo = UserRideInfo(rideId: RideId, ride: Ride, userComment: Option<string>, joinedAt: int)

  /** User.taken_rides: the rider rows of a user. */
  function RiderRowsOfUser(riders: map<RecordId, RiderRecord>, user: UserId): set<RecordId>
  {
    set r | r in riders && riders[r].userId == user
  }

  /** What the ride listing needs: every rider row names an existing ride. */
  predicate RiderRowsResolve(t: Tables)
  {
    forall r :: r in t.riders ==> t.riders[r].rideId in t.rides
  }

  /** The ride's to_dict extended with the row's comment and joining time. */
  function UserRideInfoOf(t: Tables, r: RecordId): UserRideInfo
    requires RiderRowsResolve(t) && r in t.riders
  {
    var row := t.riders[r];
    UserRideInfo(row.rideId, t.rides[row.rideId], row.userComment, row.joinedAt)
  }

  function UserRideInfos(t: Tables, user: UserId): set<UserRideInfo>
    requires RiderRowsResolve(t)
  {
    set r | r in RiderRowsOfUser(t.riders, user) :: UserRideInfoOf(t, r)
  }

  /** GET /users/<id>/rides: one entry per rider row of the user, with the row's
      comment and joining time. */
  method GetUserRides(db: Database, userId: UserId) returns (status: int, rides: seq<UserRideInfo>)
    requires db.Valid()
    ensures RiderRowsResolve(db.Snapshot())
    ensures userId !in db.users ==> status == NOT_FOUND && rides == []
    ensures userId in db.users ==> status == OK && |rides| == |RiderRowsOfUser(db.riders, userId)|
    ensures forall i :: 0 <= i < |rides| ==> rides[i] in UserRideInfos(db.Snapshot(), userId)
    ensures forall x :: x in UserRideInfos(db.Snapshot(), userId) ==> x in rides
  {
    var t := db.Snapshot();
    assert RiderRowsResolve(t);
    if userId !in t.users {
      return NOT_FOUND, [];
    }
    rides := CollectUserRides(t, userId);
    return OK, rides;
  }

  /** The loop over User.taken_rides, on the tables alone. */
  method CollectUserRides(t: Tables, userId: UserId) returns (rides: seq<UserRideInfo>)
    requires RiderRowsResolve(t)
    ensures |rides| == |RiderRowsOfUser(t.riders, userId)|
    ensures forall i :: 0 <= i < |rides| ==> rides[i] in UserRideInfos(t, userId)
    ensures forall x :: x in UserRideInfos(t, userId) ==> x in rides
  {
    var rows := RiderRowsOfUser(t.riders, userId);
    var every := (r: RecordId) => true;
    var entry := r requires r in t.riders => UserRideInfoOf(t, r);
    ghost var order;
    rides, order := Collect(rows, every, entry);
    assert Kept(rows, every) == rows;
    forall x | x in UserRideInfos(t, userId)
      ensures x in rides
    {
      var r :| r in rows && x == UserRideInfoOf(t, r);
      var i :| 0 <= i < |order| && order[i] == r;
      assert rides[i] == x;
    }
  }

  // ---------------------------------------------------------------- a user's driver profile

  /** GET /users/<id>/driver-data: 404 for an unknown user and for a user without a
      profile; otherwise the one profile that user owns. */
  function GetUserDriverData(t: Tables, userId: UserId): (r: Result<DriverId>)
    requires OneProfilePerUser(t.drivers)
    ensures r.Err? <==> userId !in t.users || ProfileOf(t.drivers, userId).None?
    ensures r.Ok? ==> r.value in t.drivers && t.drivers[r.value].userId == userId
    ensures r.Ok? ==> forall d :: d in t.drivers && t.drivers[d].userId == userId ==> d == r.value
  {
    if userId !in t.users then Err("User not found")
    else match ProfileOf(t.drivers, userId)
      case None => Err("User is not a driver")
      case Some(d) => Ok(d)
  }
}
