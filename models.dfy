/** The rows of the ZotRide database (backend/app/models) as values, the column
    constraints each table declares, the defaults of the model constructors and
    the `to_dict` views the API returns. A row's primary key is the key under
    which the store keeps it (see module Store), so it is not a field here. */
module Models {
  import opened Common

  type UserId = int
  type DriverId = int      // DriverData.id: a different id space from User.id
  type RideId = int
  type OrgId = int
  type RecordId = int      // ids of UserRideData, UserOrganizationData and Review rows

  // ---------------------------------------------------------------- rows

  datatype User = User(
    email: string,
    name: string,
    gender: int,
    preferredContact: string,
    isSystemAdmin: bool)

  datatype DriverData = DriverData(
    licenseImage: string,
    vehicleData: string,
    licensePlate: string,
    isApproved: bool,
    approvedAt: Option<int>,
    userId: UserId)

  datatype Ride = Ride(
    pickupAddress: string,
    pickupTime: int,
    destinationAddress: string,
    maxRiders: int,
    priceOption: string,
    driverId: Option<DriverId>,
    organizationId: Option<OrgId>,
    driverComment: Option<string>,
    status: string)

  /** UserRideData: one rider's place in one ride. */
  datatype RiderRecord = RiderRecord(
    userId: UserId,
    rideId: RideId,
    userComment: Option<string>,
    joinedAt: int)

  datatype Organization = Organization(
    name: string,
    description: Option<string>,
    accessCode: Option<string>)

  /** UserOrganizationData: one user's membership of one organization. */
  datatype Membership = Membership(
    userId: UserId,
    orgId: OrgId,
    isOwner: bool,
    isAdmin: bool,
    isDriver: bool)

  datatype Review = Review(
    driverId: DriverId,
    authorId: UserId,
    rideId: RideId,
    stars: real,
    comment: string)

  // ---------------------------------------------------------------- constants

  const ACTIVE := "active"
  const COMPLETED := "completed"
  const DEFAULT_MAX_RIDERS := 4
  const USER_COLUMN_MAX := 100
  const LICENSE_IMAGE_MAX := 500
  const VEHICLE_DATA_MAX := 255
  const PLATE_MAX := 10
  const RIDER_COMMENT_MAX := 500
  const REVIEW_COMMENT_MAX := 255
  const ORG_NAME_MAX := 255
  const ORG_DESCRIPTION_MAX := 500
  const ACCESS_CODE_MAX := 6
  const MIN_STARS: real := 0.5
  const MAX_STARS: real := 5.0

  // ---------------------------------------------------------------- constructors

  /** User.__init__: is_system_admin defaults to False. */
  function NewUser(email: string, name: string, gender: int, preferredContact: string,
                   isSystemAdmin: bool := false): (u: User)
    ensures u.email == email && u.isSystemAdmin == isSystemAdmin
  {
    User(email, name, gender, preferredContact, isSystemAdmin)
  }

  /** DriverData.__init__: every argument, is_approved included, is required;
      approved_at starts empty. (The False default of is_approved belongs to the
      column and never applies, since the constructor always sets it.) */
  function NewDriverData(userId: UserId, licenseImage: string, vehicleData: string,
                         licensePlate: string, isApproved: bool): (d: DriverData)
    ensures d.approvedAt.None? && d.isApproved == isApproved && d.userId == userId
  {
    DriverData(licenseImage, vehicleData, licensePlate, isApproved, None, userId)
  }

  /** DriverData.set_as_approved: sets the flag and stamps the time of the decision,
      whether the decision is an approval or a revocation. */
  function SetAsApproved(d: DriverData, approved: bool, now: int): (e: DriverData)
    ensures e.isApproved == approved && e.approvedAt == Some(now)
    ensures e.(isApproved := d.isApproved, approvedAt := d.approvedAt) == d
  {
    d.(isApproved := approved, approvedAt := Some(now))
  }

  /** Organization.__init__ sets the name and the description only. */
  function NewOrganization(name: string, description: Option<string> := None): (o: Organization)
    ensures o.name == name && o.accessCode.None?
  {
    Organization(name, description, None)
  }

  /** UserOrganizationData.__init__: every role flag defaults to False. */
  function NewMembership(userId: UserId, orgId: OrgId, isOwner: bool := false,
                         isAdmin: bool := false, isDriver: bool := false): (m: Membership)
    ensures m.userId == userId && m.orgId == orgId
  {
    Membership(userId, orgId, isOwner, isAdmin, isDriver)
  }

  // ---------------------------------------------------------------- column constraints

  /** email, name and preferred_contact are String(100). */
  predicate UserRowFits(u: User)
  {
    |u.email| <= USER_COLUMN_MAX && |u.name| <= USER_COLUMN_MAX && |u.preferredContact| <= USER_COLUMN_MAX
  }

  /** license_image is String(500), vehicle_data String(255) and license_plate
      String(10). */
  predicate DriverRowFits(d: DriverData)
  {
    |d.licenseImage| <= LICENSE_IMAGE_MAX && |d.vehicleData| <= VEHICLE_DATA_MAX && |d.licensePlate| <= PLATE_MAX
  }

  /** user_comment is String(500) and nullable. */
  predicate RiderRowFits(r: RiderRecord)
  {
    r.userComment.None? || |r.userComment.value| <= RIDER_COMMENT_MAX
  }

  /** name is String(255), description String(500) and nullable; access_code is
      String(6) and NOT NULL. */
  predicate OrgRowFits(o: Organization)
  {
    && |o.name| <= ORG_NAME_MAX
    && (o.description.None? || |o.description.value| <= ORG_DESCRIPTION_MAX)
    && o.accessCode.Some? && |o.accessCode.value| <= ACCESS_CODE_MAX
  }

  /** The CHECK constraint on stars and comment being String(255). */
  predicate ReviewRowFits(r: Review)
  {
    StarsInRange(r.stars) && |r.comment| <= REVIEW_COMMENT_MAX
  }

  predicate StarsInRange(stars: real)
  {
    MIN_STARS <= stars <= MAX_STARS
  }

  /** An organization built by its constructor can never be stored: the NOT NULL
      access_code is left empty. */
  lemma NewOrganizationNeverFits(name: string, description: Option<string>)
    ensures !OrgRowFits(NewOrganization(name, description))
  {
  }

  // ---------------------------------------------------------------- capacity

  /** available_seats: the seats left, max_riders minus the riders on board. */
  function AvailableSeats(maxRiders: int, riderCount: nat): int
  {
    maxRiders - riderCount
  }

  /** is_full: no seat left. */
  predicate IsFull(maxRiders: int, riderCount: nat)
  {
    AvailableSeats(maxRiders, riderCount) <= 0
  }

  lemma FullIffCountReachesMax(maxRiders: int, riderCount: nat)
    ensures IsFull(maxRiders, riderCount) <==> riderCount >= maxRiders
    ensures !IsFull(maxRiders, riderCount) ==> AvailableSeats(maxRiders, riderCount + 1) >= 0
  {
  }

  // ---------------------------------------------------------------- to_dict views

  datatype UserView = UserView(
    id: UserId,
    email: string,
    name: string,
    gender: int,
    preferredContact: string,
    isSystemAdmin: bool,
    isDriver: bool,
    driverId: Option<DriverId>,
    totalReviewsAuthored: nat)

  /** User.to_dict: `profile` is the user's DriverData row if there is one and
      `authored` the number of reviews the user wrote. */
  function UserToDict(id: UserId, u: User, profile: Option<(DriverId, DriverData)>, authored: nat): (v: UserView)
    ensures v.isDriver <==> profile.Some? && profile.value.1.isApproved
    ensures v.driverId.Some? <==> profile.Some?
    ensures profile.Some? ==> v.driverId == Some(profile.value.0)
    ensures v.totalReviewsAuthored == authored
  {
    UserView(id, u.email, u.name, u.gender, u.preferredContact, u.isSystemAdmin,
             profile.Some? && profile.value.1.isApproved,
             if profile.Some? then Some(profile.value.0) else None,
             authored)
  }

  /** A pending (unapproved) driver is reported with a driver_id but as not a driver. */
  lemma PendingDriverHasIdButIsNotDriver(id: UserId, u: User, did: DriverId, d: DriverData, authored: nat)
    requires !d.isApproved
    ensures UserToDict(id, u, Some((did, d)), authored).driverId == Some(did)
    ensures !UserToDict(id, u, Some((did, d)), authored).isDriver
  {
  }

  datatype RiderRecordView = RiderRecordView(id: RecordId, userId: UserId, rideId: RideId, userComment: Option<string>)

  /** UserRideData.to_dict has no joined_at. */
  function RiderRecordToDict(id: RecordId, r: RiderRecord): RiderRecordView
  {
    RiderRecordView(id, r.userId, r.rideId, r.userComment)
  }

  datatype OrganizationView = OrganizationView(
    id: OrgId,
    name: string,
    description: Option<string>,
    rideIds: set<RideId>,
    accessCode: Option<string>)

  /** Organization.to_dict: an empty description is reported as null; rides are those
      whose organization_id is this organization. */
  function OrganizationToDict(id: OrgId, o: Organization, rides: map<RideId, Ride>): (v: OrganizationView)
    ensures v.description.Some? <==> Present(o.description)
    ensures Present(o.description) ==> v.description == o.description
    ensures forall r :: r in v.rideIds <==> r in rides && rides[r].organizationId == Some(id)
  {
    OrganizationView(id, o.name, if Present(o.description) then o.description else None,
                     (set r | r in rides && rides[r].organizationId == Some(id)), o.accessCode)
  }

  datatype MembershipView = MembershipView(
    id: RecordId,
    userId: UserId,
    orgId: OrgId,
    isOwner: bool,
    isAdmin: bool,
    isDriver: bool)

  function MembershipToDict(id: RecordId, m: Membership): MembershipView
  {
    MembershipView(id, m.userId, m.orgId, m.isOwner, m.isAdmin, m.isDriver)
  }
}
