/** The database the Flask handlers read and write: one map per table, keyed by
    primary key, held in a class because every handler updates it in place.
    `Consistent` collects the constraints the tables declare (unique columns,
    column widths, NOT NULL, the stars CHECK) and the references the handlers
    rely on when they follow a relationship; every handler keeps it. */
module Store {
  import opened Common
  import opened Models

  datatype Tables = Tables(
    users: map<UserId, User>,
    drivers: map<DriverId, DriverData>,
    rides: map<RideId, Ride>,
    riders: map<RecordId, RiderRecord>,
    organizations: map<OrgId, Organization>,
    memberships: map<RecordId, Membership>,
    reviews: map<RecordId, Review>,
    next: Sequences)

  /** Every table has its own autoincrement sequence, starting at 1: these are
      the keys each table's next insert receives. */
  datatype Sequences = Sequences(user: int, driver: int, ride: int, rider: int, org: int, membership: int, review: int)

  /** A table's keys were drawn from its sequence. */
  predicate KeysBelow<V>(m: map<int, V>, next: int)
  {
    forall k :: k in m ==> 1 <= k < next
  }

  // ---------------------------------------------------------------- unique constraints

  /** users.email is unique. */
  predicate UniqueEmails(users: map<UserId, User>)
  {
    forall a, b :: a in users && b in users && users[a].email == users[b].email ==> a == b
  }

  /** driver_data.user_id is unique: a user has at most one driver profile. */
  predicate OneProfilePerUser(drivers: map<DriverId, DriverData>)
  {
    forall a, b :: a in drivers && b in drivers && drivers[a].userId == drivers[b].userId ==> a == b
  }

  /** driver_data.user_id, license_image and license_plate are unique. */
  predicate UniqueDriverColumns(drivers: map<DriverId, DriverData>)
  {
    && OneProfilePerUser(drivers)
    && (forall a, b :: a in drivers && b in drivers && drivers[a].licenseImage == drivers[b].licenseImage ==> a == b)
    && (forall a, b :: a in drivers && b in drivers && drivers[a].licensePlate == drivers[b].licensePlate ==> a == b)
  }

  /** (user_id, ride_id) is unique in user_ride_data. */
  predicate UniqueRiderKeys(riders: map<RecordId, RiderRecord>)
  {
    forall a, b ::
      a in riders && b in riders && riders[a].userId == riders[b].userId && riders[a].rideId == riders[b].rideId
      ==> a == b
  }

  /** organizations.name and organizations.access_code are unique. */
  predicate UniqueOrgColumns(orgs: map<OrgId, Organization>)
  {
    && (forall a, b :: a in orgs && b in orgs && orgs[a].name == orgs[b].name ==> a == b)
    && (forall a, b :: a in orgs && b in orgs && orgs[a].accessCode == orgs[b].accessCode ==> a == b)
  }

  /** (user_id, organization_id) is unique in user_organization_data. */
  predicate UniqueMemberships(ms: map<RecordId, Membership>)
  {
    forall a, b :: a in ms && b in ms && ms[a].userId == ms[b].userId && ms[a].orgId == ms[b].orgId ==> a == b
  }

  /** (ride_id, author_id) is unique in reviews. */
  predicate UniqueReviewKeys(reviews: map<RecordId, Review>)
  {
    forall a, b ::
      a in reviews && b in reviews && reviews[a].rideId == reviews[b].rideId && reviews[a].authorId == reviews[b].authorId
      ==> a == b
  }

  // ---------------------------------------------------------------- per-table invariants

  predicate UsersOk(t: Tables)
  {
    KeysBelow(t.users, t.next.user) && UniqueEmails(t.users) && (forall u :: u in t.users ==> UserRowFits(t.users[u]))
  }

  predicate DriversOk(t: Tables)
  {
    && KeysBelow(t.drivers, t.next.driver)
    && UniqueDriverColumns(t.drivers)
    && (forall d :: d in t.drivers ==> DriverRowFits(t.drivers[d]) && t.drivers[d].userId in t.users)
  }

  predicate RidersOk(t: Tables)
  {
    && KeysBelow(t.rides, t.next.ride)
    && KeysBelow(t.riders, t.next.rider)
    && UniqueRiderKeys(t.riders)
    && (forall r :: r in t.riders ==>
          RiderRowFits(t.riders[r]) && t.riders[r].rideId in t.rides && t.riders[r].userId in t.users)
  }

  predicate OrganizationsOk(t: Tables)
  {
    && KeysBelow(t.organizations, t.next.org)
    && KeysBelow(t.memberships, t.next.membership)
    && UniqueOrgColumns(t.organizations)
    && (forall o :: o in t.organizations ==> OrgRowFits(t.organizations[o]))
    && UniqueMemberships(t.memberships)
    && (forall m :: m in t.memberships ==>
          t.memberships[m].orgId in t.organizations && t.memberships[m].userId in t.users)
  }

  predicate ReviewsOk(t: Tables)
  {
    && KeysBelow(t.reviews, t.next.review)
    && UniqueReviewKeys(t.reviews)
    && (forall r :: r in t.reviews ==> ReviewRowFits(t.reviews[r]) && t.reviews[r].authorId in t.users)
  }

  predicate SequencesStarted(t: Tables)
  {
    && 1 <= t.next.user && 1 <= t.next.driver && 1 <= t.next.ride && 1 <= t.next.rider
    && 1 <= t.next.org && 1 <= t.next.membership && 1 <= t.next.review
  }

  predicate Consistent(t: Tables)
  {
    SequencesStarted(t) && UsersOk(t) && DriversOk(t) && RidersOk(t) && OrganizationsOk(t) && ReviewsOk(t)
  }

  // ---------------------------------------------------------------- relationships

  /** Ride.riders: the UserRideData rows of a ride. */
  function RidersOf(riders: map<RecordId, RiderRecord>, ride: RideId): set<RecordId>
  {
    set r | r in riders && riders[r].rideId == ride
  }

  function RiderCount(riders: map<RecordId, RiderRecord>, ride: RideId): nat
  {
    |RidersOf(riders, ride)|
  }

  predicate HasRiderRecord(riders: map<RecordId, RiderRecord>, user: UserId, ride: RideId)
  {
    exists r :: r in riders && riders[r].userId == user && riders[r].rideId == ride
  }

  /** The UserRideData row of (user, ride), if there is one. */
  function RecordOf(riders: map<RecordId, RiderRecord>, user: UserId, ride: RideId): (r: Option<RecordId>)
    requires UniqueRiderKeys(riders)
    ensures r.Some? <==> HasRiderRecord(riders, user, ride)
    ensures r.Some? ==> r.value in riders && riders[r.value].userId == user && riders[r.value].rideId == ride
  {
    if HasRiderRecord(riders, user, ride) then
      var r :| r in riders && riders[r].userId == user && riders[r].rideId == ride;
      Some(r)
    else None
  }

  /** User.driver_data: the DriverData row of a user, if there is one. */
  function ProfileOf(drivers: map<DriverId, DriverData>, user: UserId): (d: Option<DriverId>)
    requires OneProfilePerUser(drivers)
    ensures d.Some? <==> exists e :: e in drivers && drivers[e].userId == user
    ensures d.Some? ==> d.value in drivers && drivers[d.value].userId == user
  {
    if exists e :: e in drivers && drivers[e].userId == user then
      var e :| e in drivers && drivers[e].userId == user;
      Some(e)
    else None
  }

  /** The UserOrganizationData row of (user, organization), if there is one. */
  function MembershipOf(ms: map<RecordId, Membership>, user: UserId, org: OrgId): (m: Option<RecordId>)
    requires UniqueMemberships(ms)
    ensures m.Some? <==> exists e :: e in ms && ms[e].userId == user && ms[e].orgId == org
    ensures m.Some? ==> m.value in ms && ms[m.value].userId == user && ms[m.value].orgId == org
  {
    if exists e :: e in ms && ms[e].userId == user && ms[e].orgId == org then
      var e :| e in ms && ms[e].userId == user && ms[e].orgId == org;
      Some(e)
    else None
  }

  /** DriverData.hosted_rides: the rides whose driver_id is this profile. */
  function HostedRides(rides: map<RideId, Ride>, driver: DriverId): set<RideId>
  {
    set r | r in rides && rides[r].driverId == Some(driver)
  }

  predicate EmailTaken(users: map<UserId, User>, email: string)
  {
    exists u :: u in users && users[u].email == email
  }

  /** The user with a given email, if there is one. */
  function UserByEmail(users: map<UserId, User>, email: string): (u: Option<UserId>)
    requires UniqueEmails(users)
    ensures u.Some? <==> EmailTaken(users, email)
    ensures u.Some? ==> u.value in users && users[u.value].email == email
  {
    if EmailTaken(users, email) then
      var u :| u in users && users[u].email == email;
      Some(u)
    else None
  }

  // ---------------------------------------------------------------- inserts that keep the invariant

  /** A new ride under the next key keeps every constraint. */
  lemma InsertRideKeepsConsistent(t: Tables, ride: Ride)
    requires Consistent(t)
    ensures Consistent(t.(rides := t.rides[t.next.ride := ride], next := t.next.(ride := t.next.ride + 1)))
  {
    var u := t.(rides := t.rides[t.next.ride := ride], next := t.next.(ride := t.next.ride + 1));
    assert UsersOk(u) && DriversOk(u) && OrganizationsOk(u) && ReviewsOk(u);
    assert RidersOk(u);
  }

  /** A rider row for an existing ride and user, under the next key, keeps every
      constraint as long as the user is not on that ride yet and the row fits. */
  lemma InsertRiderKeepsConsistent(t: Tables, rec: RiderRecord)
    requires Consistent(t)
    requires rec.rideId in t.rides && rec.userId in t.users && RiderRowFits(rec)
    requires !HasRiderRecord(t.riders, rec.userId, rec.rideId)
    ensures Consistent(t.(riders := t.riders[t.next.rider := rec], next := t.next.(rider := t.next.rider + 1)))
  {
    var u := t.(riders := t.riders[t.next.rider := rec], next := t.next.(rider := t.next.rider + 1));
    assert UsersOk(u) && DriversOk(u) && OrganizationsOk(u) && ReviewsOk(u);
    assert UniqueRiderKeys(u.riders);
  }

  /** Rewriting an existing ride keeps every constraint (no constraint looks
      inside a ride row). */
  lemma ReplaceRideKeepsConsistent(t: Tables, rideId: RideId, ride: Ride)
    requires Consistent(t) && rideId in t.rides
    ensures Consistent(t.(rides := t.rides[rideId := ride]))
  {
    var u := t.(rides := t.rides[rideId := ride]);
    assert UsersOk(u) && DriversOk(u) && OrganizationsOk(u) && ReviewsOk(u);
    assert RidersOk(u);
  }

  /** Deleting a rider row keeps every constraint. */
  lemma RemoveRiderKeepsConsistent(t: Tables, r: RecordId)
    requires Consistent(t)
    ensures Consistent(t.(riders := t.riders - {r}))
  {
    var u := t.(riders := t.riders - {r});
    assert UsersOk(u) && DriversOk(u) && OrganizationsOk(u) && ReviewsOk(u);
    assert RidersOk(u);
  }

  /** The tables once a ride is gone, together with its rider rows and its reviews. */
  function WithoutRide(t: Tables, rideId: RideId): (u: Tables)
    ensures u.rides.Keys == t.rides.Keys - {rideId}
    ensures forall r :: r in u.riders <==> r in t.riders && t.riders[r].rideId != rideId
    ensures forall r :: r in u.reviews <==> r in t.reviews && t.reviews[r].rideId != rideId
  {
    t.(rides := t.rides - {rideId},
       riders := map r | r in t.riders && t.riders[r].rideId != rideId :: t.riders[r],
       reviews := map r | r in t.reviews && t.reviews[r].rideId != rideId :: t.reviews[r])
  }

  /** The cascade leaves no rider row or review pointing at the deleted ride. */
  lemma WithoutRideKeepsConsistent(t: Tables, rideId: RideId)
    requires Consistent(t)
    ensures Consistent(WithoutRide(t, rideId))
  {
    var u := WithoutRide(t, rideId);
    assert UsersOk(u) && DriversOk(u) && OrganizationsOk(u);
    assert RidersOk(u);
    assert ReviewsOk(u);
  }

  // ---------------------------------------------------------------- organizations and memberships

  predicate NameTaken(orgs: map<OrgId, Organization>, name: string)
  {
    exists o :: o in orgs && orgs[o].name == name
  }

  predicate CodeTaken(orgs: map<OrgId, Organization>, code: string)
  {
    exists o :: o in orgs && orgs[o].accessCode == Some(code)
  }

  /** Organization.members: the membership rows of an organization. */
  function MembersOf(ms: map<RecordId, Membership>, org: OrgId): set<RecordId>
  {
    set m | m in ms && ms[m].orgId == org
  }

  /** A new organization under the next key keeps every constraint when its row
      fits and its name and access code are free; no membership refers to it yet. */
  lemma InsertOrganizationKeepsConsistent(t: Tables, org: Organization)
    requires Consistent(t) && OrgRowFits(org)
    requires !NameTaken(t.organizations, org.name) && !CodeTaken(t.organizations, org.accessCode.value)
    ensures Consistent(t.(organizations := t.organizations[t.next.org := org], next := t.next.(org := t.next.org + 1)))
    ensures MembersOf(t.memberships, t.next.org) == {}
    ensures forall m :: m in t.memberships ==> t.memberships[m].orgId != t.next.org
  {
    var u := t.(organizations := t.organizations[t.next.org := org], next := t.next.(org := t.next.org + 1));
    assert UsersOk(u) && DriversOk(u) && RidersOk(u) && ReviewsOk(u);
    assert UniqueOrgColumns(u.organizations);
    assert OrganizationsOk(u);
    forall m | m in t.memberships
      ensures t.memberships[m].orgId != t.next.org
    {
      assert t.memberships[m].orgId in t.organizations;
    }
  }

  /** Rewriting an organization keeps every constraint when the new row fits, keeps
      its access code and takes no other organization's name. */
  lemma ReplaceOrganizationKeepsConsistent(t: Tables, id: OrgId, org: Organization)
    requires Consistent(t) && id in t.organizations && OrgRowFits(org)
    requires org.accessCode == t.organizations[id].accessCode
    requires !NameTaken(t.organizations - {id}, org.name)
    ensures Consistent(t.(organizations := t.organizations[id := org]))
  {
    var u := t.(organizations := t.organizations[id := org]);
    forall o | o in t.organizations && o != id
      ensures t.organizations[o].name != org.name
    {
      assert o in t.organizations - {id};
    }
    assert UsersOk(u) && DriversOk(u) && RidersOk(u) && ReviewsOk(u);
    assert OrganizationsOk(u);
  }

  /** The tables once an organization is gone: its memberships are deleted with it
      (delete-orphan) and its rides stay, with no organization. */
  function WithoutOrganization(t: Tables, id: OrgId): (u: Tables)
    ensures u.organizations.Keys == t.organizations.Keys - {id}
    ensures forall o :: o in u.organizations ==> u.organizations[o] == t.organizations[o]
    ensures forall m :: m in u.memberships <==> m in t.memberships && t.memberships[m].orgId != id
    ensures u.rides.Keys == t.rides.Keys
    ensures forall r :: r in u.rides ==> u.rides[r].organizationId != Some(id)
  {
    var kept := map m | m in t.memberships && t.memberships[m].orgId != id :: t.memberships[m];
    var rides := map r | r in t.rides :: Unlinked(t.rides[r], id);
    assert rides.Keys == t.rides.Keys;
    t.(organizations := t.organizations - {id}, memberships := kept, rides := rides)
  }

  /** A ride of the deleted organization loses its link; any other ride is kept. */
  function Unlinked(r: Ride, id: OrgId): (u: Ride)
    ensures u.organizationId != Some(id)
    ensures r.organizationId != Some(id) ==> u == r
    ensures u == r.(organizationId := u.organizationId)
  {
    if r.organizationId == Some(id) then r.(organizationId := None) else r
  }

  lemma WithoutOrganizationKeepsConsistent(t: Tables, id: OrgId)
    requires Consistent(t)
    ensures Consistent(WithoutOrganization(t, id))
  {
    var u := WithoutOrganization(t, id);
    assert UsersOk(u) && DriversOk(u) && ReviewsOk(u);
    assert RidersOk(u);
    assert OrganizationsOk(u);
  }

  /** A membership of an existing user in an existing organization, under the next
      key, keeps every constraint when the user is not a member yet. */
  lemma InsertMembershipKeepsConsistent(t: Tables, m: Membership)
    requires Consistent(t) && m.orgId in t.organizations && m.userId in t.users
    requires MembershipOf(t.memberships, m.userId, m.orgId).None?
    ensures Consistent(t.(memberships := t.memberships[t.next.membership := m],
                          next := t.next.(membership := t.next.membership + 1)))
  {
    var u := t.(memberships := t.memberships[t.next.membership := m],
                next := t.next.(membership := t.next.membership + 1));
    assert UsersOk(u) && DriversOk(u) && RidersOk(u) && ReviewsOk(u);
    assert UniqueMemberships(u.memberships);
  }

  lemma RemoveMembershipKeepsConsistent(t: Tables, r: RecordId)
    requires Consistent(t)
    ensures Consistent(t.(memberships := t.memberships - {r}))
  {
    var u := t.(memberships := t.memberships - {r});
    assert UsersOk(u) && DriversOk(u) && RidersOk(u) && ReviewsOk(u);
    assert OrganizationsOk(u);
  }

  /** Changing the flags of a membership keeps every constraint. */
  lemma ReplaceMembershipKeepsConsistent(t: Tables, r: RecordId, m: Membership)
    requires Consistent(t) && r in t.memberships
    requires m.userId == t.memberships[r].userId && m.orgId == t.memberships[r].orgId
    ensures Consistent(t.(memberships := t.memberships[r := m]))
  {
    var u := t.(memberships := t.memberships[r := m]);
    assert UsersOk(u) && DriversOk(u) && RidersOk(u) && ReviewsOk(u);
    assert OrganizationsOk(u);
  }

  // ---------------------------------------------------------------- users

  /** A user with an unused email, under the next key, keeps every constraint. */
  lemma InsertUserKeepsConsistent(t: Tables, user: User)
    requires Consistent(t) && !EmailTaken(t.users, user.email) && UserRowFits(user)
    ensures Consistent(t.(users := t.users[t.next.user := user], next := t.next.(user := t.next.user + 1)))
  {
    var u := t.(users := t.users[t.next.user := user], next := t.next.(user := t.next.user + 1));
    forall a, b | a in u.users && b in u.users && a != b
      ensures u.users[a].email != u.users[b].email
    {
      if a == t.next.user {
        assert b in t.users;
      } else if b == t.next.user {
        assert a in t.users;
      }
    }
    assert UsersOk(u) && DriversOk(u) && RidersOk(u);
    assert OrganizationsOk(u) && ReviewsOk(u);
  }

  /** Rewriting a user keeps every constraint when the email stays the same. */
  lemma ReplaceUserKeepsConsistent(t: Tables, id: UserId, user: User)
    requires Consistent(t) && id in t.users && user.email == t.users[id].email && UserRowFits(user)
    ensures Consistent(t.(users := t.users[id := user]))
  {
    var u := t.(users := t.users[id := user]);
    assert UsersOk(u) && DriversOk(u) && RidersOk(u);
    assert OrganizationsOk(u) && ReviewsOk(u);
  }

  // ---------------------------------------------------------------- driver profiles

  predicate ImageTaken(drivers: map<DriverId, DriverData>, image: string)
  {
    exists d :: d in drivers && drivers[d].licenseImage == image
  }

  predicate PlateTaken(drivers: map<DriverId, DriverData>, plate: string)
  {
    exists d :: d in drivers && drivers[d].licensePlate == plate
  }

  /** Constraints outside the driver_data table hold as long as only that table
      and the key counter change. */
  lemma OnlyDriversChange(t: Tables, u: Tables)
    requires Consistent(t)
    requires u == t.(drivers := u.drivers, next := t.next.(driver := u.next.driver)) && t.next.driver <= u.next.driver
    ensures SequencesStarted(u) && UsersOk(u) && RidersOk(u) && OrganizationsOk(u) && ReviewsOk(u)
  {
  }

  /** A first profile for an existing user, under the next key, keeps every
      constraint when the row fits and its image and plate are free. */
  lemma InsertDriverKeepsConsistent(t: Tables, d: DriverData)
    requires Consistent(t) && d.userId in t.users && DriverRowFits(d)
    requires ProfileOf(t.drivers, d.userId).None?
    requires !ImageTaken(t.drivers, d.licenseImage) && !PlateTaken(t.drivers, d.licensePlate)
    ensures Consistent(t.(drivers := t.drivers[t.next.driver := d], next := t.next.(driver := t.next.driver + 1)))
  {
    var u := t.(drivers := t.drivers[t.next.driver := d], next := t.next.(driver := t.next.driver + 1));
    OnlyDriversChange(t, u);
    forall a, b | a in u.drivers && b in u.drivers && a != b
      ensures u.drivers[a].licenseImage != u.drivers[b].licenseImage
      ensures u.drivers[a].licensePlate != u.drivers[b].licensePlate
      ensures u.drivers[a].userId != u.drivers[b].userId
    {
      if a == t.next.driver {
        assert b in t.drivers;
      } else if b == t.next.driver {
        assert a in t.drivers;
      }
    }
    assert DriversOk(u);
  }

  /** Rewriting a profile keeps every constraint when the row fits, it stays with
      its user and no other profile has its image or plate. */
  lemma ReplaceDriverKeepsConsistent(t: Tables, id: DriverId, d: DriverData)
    requires Consistent(t) && id in t.drivers && DriverRowFits(d) && d.userId == t.drivers[id].userId
    requires !ImageTaken(t.drivers - {id}, d.licenseImage) && !PlateTaken(t.drivers - {id}, d.licensePlate)
    ensures Consistent(t.(drivers := t.drivers[id := d]))
  {
    var u := t.(drivers := t.drivers[id := d]);
    OnlyDriversChange(t, u);
    forall a, b | a in u.drivers && b in u.drivers && a != b
      ensures u.drivers[a].licenseImage != u.drivers[b].licenseImage
      ensures u.drivers[a].licensePlate != u.drivers[b].licensePlate
      ensures u.drivers[a].userId != u.drivers[b].userId
    {
      if a == id {
        assert b in t.drivers - {id};
      } else if b == id {
        assert a in t.drivers - {id};
      }
    }
    assert DriversOk(u);
  }

  lemma RemoveDriverKeepsConsistent(t: Tables, id: DriverId)
    requires Consistent(t)
    ensures Consistent(t.(drivers := t.drivers - {id}))
  {
    var u := t.(drivers := t.drivers - {id});
    OnlyDriversChange(t, u);
    assert DriversOk(u);
  }

  // ---------------------------------------------------------------- reviews

  /** There is a review of `ride` by `author`. */
  predicate HasReview(reviews: map<RecordId, Review>, ride: RideId, author: UserId)
  {
    exists r :: r in reviews && reviews[r].rideId == ride && reviews[r].authorId == author
  }

  /** DriverData.reviews: the reviews naming a driver profile. */
  function ReviewsOf(reviews: map<RecordId, Review>, driver: DriverId): set<RecordId>
  {
    set r | r in reviews && reviews[r].driverId == driver
  }

  /** Constraints outside the reviews table hold as long as only reviews and the
      key counter change. */
  lemma OnlyReviewsChange(t: Tables, u: Tables)
    requires Consistent(t)
    requires u == t.(reviews := u.reviews, next := t.next.(review := u.next.review)) && t.next.review <= u.next.review
    ensures SequencesStarted(u) && UsersOk(u) && DriversOk(u) && RidersOk(u) && OrganizationsOk(u)
  {
  }

  /** A review by an existing user, under the next key, keeps every constraint
      when the row fits and the author has not reviewed that ride yet. */
  lemma InsertReviewKeepsConsistent(t: Tables, rev: Review)
    requires Consistent(t) && ReviewRowFits(rev) && rev.authorId in t.users
    requires !HasReview(t.reviews, rev.rideId, rev.authorId)
    ensures Consistent(t.(reviews := t.reviews[t.next.review := rev], next := t.next.(review := t.next.review + 1)))
  {
    var u := t.(reviews := t.reviews[t.next.review := rev], next := t.next.(review := t.next.review + 1));
    OnlyReviewsChange(t, u);
    forall a, b | a in u.reviews && b in u.reviews && u.reviews[a].rideId == u.reviews[b].rideId
                  && u.reviews[a].authorId == u.reviews[b].authorId
      ensures a == b
    {
      if a != t.next.review && b != t.next.review {
        assert t.reviews[a] == u.reviews[a] && t.reviews[b] == u.reviews[b];
      }
    }
    assert forall r :: r in u.reviews ==> ReviewRowFits(u.reviews[r]) && u.reviews[r].authorId in u.users;
    assert ReviewsOk(u);
  }

  /** Rewriting a review keeps every constraint when the row fits and its ride
      and author stay the same. */
  lemma ReplaceReviewKeepsConsistent(t: Tables, r: RecordId, rev: Review)
    requires Consistent(t) && r in t.reviews && ReviewRowFits(rev)
    requires rev.rideId == t.reviews[r].rideId && rev.authorId == t.reviews[r].authorId
    ensures Consistent(t.(reviews := t.reviews[r := rev]))
  {
    var u := t.(reviews := t.reviews[r := rev]);
    assert UsersOk(u) && DriversOk(u) && RidersOk(u) && OrganizationsOk(u);
    assert ReviewsOk(u);
  }

  lemma RemoveReviewKeepsConsistent(t: Tables, r: RecordId)
    requires Consistent(t)
    ensures Consistent(t.(reviews := t.reviews - {r}))
  {
    var u := t.(reviews := t.reviews - {r});
    assert UsersOk(u) && DriversOk(u) && RidersOk(u) && OrganizationsOk(u);
    assert ReviewsOk(u);
  }

  class Database {
    var users: map<UserId, User>
    var drivers: map<DriverId, DriverData>
    var rides: map<RideId, Ride>
    var riders: map<RecordId, RiderRecord>
    var organizations: map<OrgId, Organization>
    var memberships: map<RecordId, Membership>
    var reviews: map<RecordId, Review>
    var next: Sequences

    function Snapshot(): Tables
      reads this
    {
      Tables(users, drivers, rides, riders, organizations, memberships, reviews, next)
    }

    ghost predicate Valid()
      reads this
    {
      Consistent(Snapshot())
    }

    /** db.session.commit(): the tables become `u`. Callers establish that `u`
        meets every constraint; a commit the database would refuse is modelled by
        the caller not committing. */
    method Commit(u: Tables)
      requires Consistent(u)
      modifies this
      ensures Snapshot() == u
      ensures Valid()
    {
      users, drivers, rides, riders := u.users, u.drivers, u.rides, u.riders;
      organizations, memberships, reviews, next := u.organizations, u.memberships, u.reviews, u.next;
    }

    /** An empty database. */
    constructor ()
      ensures Valid()
      ensures Snapshot() == Tables(map[], map[], map[], map[], map[], map[], map[], Sequences(1, 1, 1, 1, 1, 1, 1))
    {
      users, drivers, rides, riders := map[], map[], map[], map[];
      organizations, memberships, reviews := map[], map[], map[];
      next := Sequences(1, 1, 1, 1, 1, 1, 1);
    }
  }
}
