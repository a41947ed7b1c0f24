/** The organization endpoints of backend/app/routes/organization_routes.py.
    These routes take the acting user from the request (`requesting_user_id`,
    `owner_user_id`), not from a token. A member "manages" an organization when
    their membership has is_owner or is_admin set. */
module OrganizationRoutes {
  import opened Common
  import opened Models
  import opened Store

  /** The requester has a membership of the organization. */
  predicate IsMember(ms: map<RecordId, Membership>, user: UserId, org: OrgId)
    requires UniqueMemberships(ms)
  {
    MembershipOf(ms, user, org).Some?
  }

  /** The requester's membership has is_owner or is_admin. */
  predicate IsManager(ms: map<RecordId, Membership>, user: UserId, org: OrgId)
    requires UniqueMemberships(ms)
  {
    var m := MembershipOf(ms, user, org);
    m.Some? && (ms[m.value].isOwner || ms[m.value].isAdmin)
  }

  /** The requester's membership has is_owner. */
  predicate IsOwner(ms: map<RecordId, Membership>, user: UserId, org: OrgId)
    requires UniqueMemberships(ms)
  {
    var m := MembershipOf(ms, user, org);
    m.Some? && ms[m.value].isOwner
  }

  lemma OwnerIsManager(ms: map<RecordId, Membership>, user: UserId, org: OrgId)
    requires UniqueMemberships(ms)
    ensures IsOwner(ms, user, org) ==> IsManager(ms, user, org)
    ensures IsManager(ms, user, org) ==> IsMember(ms, user, org)
  {
  }

  /** Every owner membership of `t` is in `u` unchanged, and `u` has no other. */
  predicate OwnerRowsUnchanged(t: Tables, u: Tables)
  {
    && (forall m :: m in t.memberships && t.memberships[m].isOwner ==>
          m in u.memberships && u.memberships[m] == t.memberships[m])
    && (forall m :: m in u.memberships && u.memberships[m].isOwner ==>
          m in t.memberships && t.memberships[m] == u.memberships[m])
  }

  /** The owner membership create_organization adds: owner and admin, not a driver. */
  function OwnerMembership(owner: UserId, org: OrgId): (m: Membership)
    ensures m.isOwner && m.isAdmin && !m.isDriver
    ensures m.userId == owner && m.orgId == org
  {
    NewMembership(owner, org, isOwner := true, isAdmin := true, isDriver := false)
  }

  // ---------------------------------------------------------------- create

  /** POST /organizations as written. Organization.__init__ never sets the NOT NULL
      access_code, so once the request passes its checks the INSERT is refused and
      the handler answers 400: no organization is ever created. */
  method CreateOrganizationAsWritten(db: Database, name: Option<string>, description: Option<string>,
                                     ownerUserId: Option<int>)
    returns (status: int)
    requires db.Valid()
    modifies db
    ensures db.Valid() && db.Snapshot() == old(db.Snapshot())
    ensures var t := old(db.Snapshot());
      if name.None? || ownerUserId.None? then status == BAD_REQUEST
      else if NameTaken(t.organizations, name.value) then status == CONFLICT
      else if ownerUserId.value !in t.users then status == NOT_FOUND
      else status == BAD_REQUEST
  {
    var t := db.Snapshot();
    if name.None? || ownerUserId.None? {
      return BAD_REQUEST;
    }
    if NameTaken(t.organizations, name.value) {
      return CONFLICT;
    }
    if ownerUserId.value !in t.users {
      return NOT_FOUND;
    }
    var org := NewOrganization(name.value, description);
    NewOrganizationNeverFits(name.value, description);
    // the row cannot be stored, so the commit fails and is rolled back
    return BAD_REQUEST;
  }

  /** POST /organizations with the access code the row needs supplied by the
      caller (the code's generator is not part of this model). A code that is
      too long or already in use is refused by the database (400). */
  method CreateOrganization(db: Database, name: Option<string>, description: Option<string>,
                            ownerUserId: Option<int>, accessCode: string)
    returns (status: int)
    requires db.Valid()
    modifies db
    ensures db.Valid()
    ensures var t := old(db.Snapshot());
      if name.None? || ownerUserId.None? then status == BAD_REQUEST && db.Snapshot() == t
      else if NameTaken(t.organizations, name.value) then status == CONFLICT && db.Snapshot() == t
      else if ownerUserId.value !in t.users then status == NOT_FOUND && db.Snapshot() == t
      else
        var org := Organization(name.value, description, Some(accessCode));
        if !OrgRowFits(org) || CodeTaken(t.organizations, accessCode) then
          status == BAD_REQUEST && db.Snapshot() == t
        else
          status == CREATED
          && db.Snapshot()
             == t.(organizations := t.organizations[t.next.org := org],
                   memberships := t.memberships[t.next.membership := OwnerMembership(ownerUserId.value, t.next.org)],
                   next := t.next.(org := t.next.org + 1, membership := t.next.membership + 1))
  {
    var t := db.Snapshot();
    if name.None? || ownerUserId.None? {
      return BAD_REQUEST;
    }
    if NameTaken(t.organizations, name.value) {
      return CONFLICT;
    }
    if ownerUserId.value !in t.users {
      return NOT_FOUND;
    }
    var org := Organization(name.value, description, Some(accessCode));
    if !OrgRowFits(org) || CodeTaken(t.organizations, accessCode) {
      return BAD_REQUEST;
    }
    var orgId := t.next.org;
    InsertOrganizationKeepsConsistent(t, org);
    t := t.(organizations := t.organizations[orgId := org], next := t.next.(org := t.next.org + 1));
    var owner := OwnerMembership(ownerUserId.value, orgId);
    InsertMembershipKeepsConsistent(t, owner);
    db.Commit(t.(memberships := t.memberships[t.next.membership := owner],
                 next := t.next.(membership := t.next.membership + 1)));
    return CREATED;
  }

  /** A successful creation leaves the new organization with exactly one
      membership, its owner's, and adds no other owner row. */
  lemma CreatedOrganizationHasOnlyItsOwner(t: Tables, org: Organization, owner: UserId)
    requires Consistent(t)
    ensures var u := t.(organizations := t.organizations[t.next.org := org],
                        memberships := t.memberships[t.next.membership := OwnerMembership(owner, t.next.org)],
                        next := t.next.(org := t.next.org + 1, membership := t.next.membership + 1));
      && MembersOf(u.memberships, t.next.org) == {t.next.membership}
      && (forall m :: m in u.memberships && u.memberships[m].isOwner ==>
            m == t.next.membership || (m in t.memberships && t.memberships[m] == u.memberships[m]))
  {
    forall m | m in t.memberships
      ensures m != t.next.membership && t.memberships[m].orgId != t.next.org
    {
      assert t.memberships[m].orgId in t.organizations;
    }
  }

  // ---------------------------------------------------------------- update and delete

  /** PUT /organizations/<id>: a manager may rename the organization and change its
      description; a name another organization has, or a row too wide, is refused
      by the database (400). */
  method UpdateOrganization(db: Database, orgId: OrgId, requester: Option<int>,
                            name: Option<string>, description: Option<Option<string>>)
    returns (status: int)
    requires db.Valid()
    modifies db
    ensures db.Valid()
    ensures OwnerRowsUnchanged(old(db.Snapshot()), db.Snapshot())
    ensures var t := old(db.Snapshot());
      if orgId !in t.organizations then status == NOT_FOUND && db.Snapshot() == t
      else if requester.None? then status == BAD_REQUEST && db.Snapshot() == t
      else if !IsManager(t.memberships, requester.value, orgId) then status == FORBIDDEN && db.Snapshot() == t
      else
        var o := t.organizations[orgId];
        var updated := o.(name := name.GetOr(o.name), description := description.GetOr(o.description));
        if !OrgRowFits(updated) || NameTaken(t.organizations - {orgId}, updated.name) then
          status == BAD_REQUEST && db.Snapshot() == t
        else status == OK && db.Snapshot() == t.(organizations := t.organizations[orgId := updated])
  {
    var t := db.Snapshot();
    if orgId !in t.organizations {
      return NOT_FOUND;
    }
    if requester.None? {
      return BAD_REQUEST;
    }
    if !IsManager(t.memberships, requester.value, orgId) {
      return FORBIDDEN;
    }
    var updated := t.organizations[orgId];
    if name.Some? {
      updated := updated.(name := name.value);
    }
    if description.Some? {
      updated := updated.(description := description.value);
    }
    if !OrgRowFits(updated) || NameTaken(t.organizations - {orgId}, updated.name) {
      return BAD_REQUEST;
    }
    ReplaceOrganizationKeepsConsistent(t, orgId, updated);
    db.Commit(t.(organizations := t.organizations[orgId := updated]));
    return OK;
  }

  /** DELETE /organizations/<id>: only the owner; its memberships go with it and its
      rides lose their organization. */
  method DeleteOrganization(db: Database, orgId: OrgId, requester: Option<int>) returns (status: int)
    requires db.Valid()
    modifies db
    ensures db.Valid()
    ensures var t := old(db.Snapshot());
      if orgId !in t.organizations then status == NOT_FOUND && db.Snapshot() == t
      else if !Truthy(requester) then status == BAD_REQUEST && db.Snapshot() == t
      else if !IsOwner(t.memberships, requester.value, orgId) then status == FORBIDDEN && db.Snapshot() == t
      else status == NO_CONTENT && db.Snapshot() == WithoutOrganization(t, orgId)
  {
    var t := db.Snapshot();
    if orgId !in t.organizations {
      return NOT_FOUND;
    }
    if !Truthy(requester) {
      return BAD_REQUEST;
    }
    if !IsOwner(t.memberships, requester.value, orgId) {
      return FORBIDDEN;
    }
    WithoutOrganizationKeepsConsistent(t, orgId);
    db.Commit(WithoutOrganization(t, orgId));
    return NO_CONTENT;
  }

  /** Deleting one organization leaves every other organization's owner rows alone. */
  lemma DeletionKeepsOtherOwners(t: Tables, orgId: OrgId)
    ensures forall m :: m in t.memberships && t.memberships[m].isOwner && t.memberships[m].orgId != orgId ==>
      m in WithoutOrganization(t, orgId).memberships
      && WithoutOrganization(t, orgId).memberships[m] == t.memberships[m]
  {
  }

  // ---------------------------------------------------------------- members

  /** POST /organizations/<id>/members: a manager adds an existing user who is not a
      member yet; the new membership is never an owner one. */
  method AddOrganizationMember(db: Database, orgId: OrgId, userId: Option<int>, requester: Option<int>,
                               isAdmin: Option<bool>, isDriver: Option<bool>)
    returns (status: int)
    requires db.Valid()
    modifies db
    ensures db.Valid()
    ensures OwnerRowsUnchanged(old(db.Snapshot()), db.Snapshot())
    ensures var t := old(db.Snapshot());
      if orgId !in t.organizations then status == NOT_FOUND && db.Snapshot() == t
      else if userId.None? || requester.None? then status == BAD_REQUEST && db.Snapshot() == t
      else if !IsManager(t.memberships, requester.value, orgId) then status == FORBIDDEN && db.Snapshot() == t
      else if userId.value !in t.users then status == NOT_FOUND && db.Snapshot() == t
      else if IsMember(t.memberships, userId.value, orgId) then status == CONFLICT && db.Snapshot() == t
      else
        var m := NewMembership(userId.value, orgId, isOwner := false,
                               isAdmin := isAdmin.GetOr(false), isDriver := isDriver.GetOr(false));
        status == OK && db.Snapshot() == t.(memberships := t.memberships[t.next.membership := m],
                                            next := t.next.(membership := t.next.membership + 1))
  {
    var t := db.Snapshot();
    if orgId !in t.organizations {
      return NOT_FOUND;
    }
    if userId.None? || requester.None? {
      return BAD_REQUEST;
    }
    if !IsManager(t.memberships, requester.value, orgId) {
      return FORBIDDEN;
    }
    if userId.value !in t.users {
      return NOT_FOUND;
    }
    if IsMember(t.memberships, userId.value, orgId) {
      return CONFLICT;
    }
    var m := NewMembership(userId.value, orgId, isOwner := false,
                           isAdmin := isAdmin.GetOr(false), isDriver := isDriver.GetOr(false));
    InsertMembershipKeepsConsistent(t, m);
    db.Commit(t.(memberships := t.memberships[t.next.membership := m],
                 next := t.next.(membership := t.next.membership + 1)));
    return OK;
  }

  /** DELETE /organizations/<id>/members/<user_id>: a manager removes a member who
      is not the owner. */
  method RemoveOrganizationMember(db: Database, orgId: OrgId, userId: UserId, requester: Option<int>)
    returns (status: int)
    requires db.Valid()
    modifies db
    ensures db.Valid()
    ensures OwnerRowsUnchanged(old(db.Snapshot()), db.Snapshot())
    ensures var t := old(db.Snapshot());
      if orgId !in t.organizations then status == NOT_FOUND && db.Snapshot() == t
      else if !Truthy(requester) then status == BAD_REQUEST && db.Snapshot() == t
      else if !IsManager(t.memberships, requester.value, orgId) then status == FORBIDDEN && db.Snapshot() == t
      else
        var target := MembershipOf(t.memberships, userId, orgId);
        if target.None? then status == NOT_FOUND && db.Snapshot() == t
        else if t.memberships[target.value].isOwner then status == BAD_REQUEST && db.Snapshot() == t
        else status == NO_CONTENT && db.Snapshot() == t.(memberships := t.memberships - {target.value})
  {
    var t := db.Snapshot();
    if orgId !in t.organizations {
      return NOT_FOUND;
    }
    if !Truthy(requester) {
      return BAD_REQUEST;
    }
    if !IsManager(t.memberships, requester.value, orgId) {
      return FORBIDDEN;
    }
    var target := MembershipOf(t.memberships, userId, orgId);
    if target.None? {
      return NOT_FOUND;
    }
    if t.memberships[target.value].isOwner {
      return BAD_REQUEST;
    }
    RemoveMembershipKeepsConsistent(t, target.value);
    db.Commit(t.(memberships := t.memberships - {target.value}));
    return NO_CONTENT;
  }

  /** PUT /organizations/<id>/members/<user_id>/role: a manager changes is_driver of
      a non-owner member; only the owner may send is_admin (checked before the
      owner-target check); is_owner never changes. */
  method UpdateMemberRole(db: Database, orgId: OrgId, userId: UserId, requester: Option<int>,
                          isAdmin: Option<bool>, isDriver: Option<bool>)
    returns (status: int)
    requires db.Valid()
    modifies db
    ensures db.Valid()
    ensures OwnerRowsUnchanged(old(db.Snapshot()), db.Snapshot())
    ensures var t := old(db.Snapshot());
      if orgId !in t.organizations then status == NOT_FOUND && db.Snapshot() == t
      else if requester.None? then status == BAD_REQUEST && db.Snapshot() == t
      else if !IsManager(t.memberships, requester.value, orgId) then status == FORBIDDEN && db.Snapshot() == t
      else
        var target := MembershipOf(t.memberships, userId, orgId);
        if target.None? then status == NOT_FOUND && db.Snapshot() == t
        else if isAdmin.Some? && !IsOwner(t.memberships, requester.value, orgId) then
          status == FORBIDDEN && db.Snapshot() == t
        else
          var m := t.memberships[target.value];
          if m.isOwner then status == BAD_REQUEST && db.Snapshot() == t
          else status == OK
               && db.Snapshot() == t.(memberships := t.memberships[target.value :=
                                        m.(isAdmin := isAdmin.GetOr(m.isAdmin), isDriver := isDriver.GetOr(m.isDriver))])
  {
    var t := db.Snapshot();
    if orgId !in t.organizations {
      return NOT_FOUND;
    }
    if requester.None? {
      return BAD_REQUEST;
    }
    if !IsManager(t.memberships, requester.value, orgId) {
      return FORBIDDEN;
    }
    var target := MembershipOf(t.memberships, userId, orgId);
    if target.None? {
      return NOT_FOUND;
    }
    if isAdmin.Some? && !IsOwner(t.memberships, requester.value, orgId) {
      return FORBIDDEN;
    }
    var m := t.memberships[target.value];
    if m.isOwner {
      return BAD_REQUEST;
    }
    if isAdmin.Some? {
      m := m.(isAdmin := isAdmin.value);
    }
    if isDriver.Some? {
      m := m.(isDriver := isDriver.value);
    }
    ReplaceMembershipKeepsConsistent(t, target.value, m);
    db.Commit(t.(memberships := t.memberships[target.value := m]));
    return OK;
  }

  // ---------------------------------------------------------------- listings

  datatype OrgDriverInfo = OrgDriverInfo(userId: UserId, name: string, email: string, driverId: DriverId, driver: DriverData)

  /** What the drivers listing needs of the tables: a user has at most one driver
      profile, and every membership belongs to an existing user. */
  predicate DriverListingOk(t: Tables)
  {
    OneProfilePerUser(t.drivers) && forall m :: m in t.memberships ==> t.memberships[m].userId in t.users
  }

  lemma ConsistentHasDriverListingOk(t: Tables)
    requires Consistent(t)
    ensures DriverListingOk(t)
  {
  }

  /** A membership get_organization_drivers lists: flagged as a driver, and its user
      has an approved driver profile. */
  predicate ListsAsDriver(t: Tables, m: RecordId)
    requires DriverListingOk(t) && m in t.memberships
  {
    var p := ProfileOf(t.drivers, t.memberships[m].userId);
    t.memberships[m].isDriver && p.Some? && t.drivers[p.value].isApproved
  }

  /** The memberships of an organization that get_organization_drivers lists. */
  function DriverMembers(t: Tables, org: OrgId): set<RecordId>
    requires DriverListingOk(t)
  {
    set m | m in t.memberships && t.memberships[m].orgId == org && ListsAsDriver(t, m)
  }

  function OrgDriverInfoOf(t: Tables, m: RecordId): OrgDriverInfo
    requires DriverListingOk(t) && m in t.memberships && ListsAsDriver(t, m)
  {
    var user := t.memberships[m].userId;
    var p := ProfileOf(t.drivers, user).value;
    OrgDriverInfo(user, t.users[user].name, t.users[user].email, p, t.drivers[p])
  }

  function OrgDriverInfos(t: Tables, org: OrgId): set<OrgDriverInfo>
    requires DriverListingOk(t)
  {
    set m | m in DriverMembers(t, org) :: OrgDriverInfoOf(t, m)
  }

  /** The loop over Organization.members, on the tables alone. */
  method CollectDrivers(t: Tables, orgId: OrgId) returns (drivers: seq<OrgDriverInfo>)
    requires DriverListingOk(t)
    ensures |drivers| == |DriverMembers(t, orgId)|
    ensures forall i :: 0 <= i < |drivers| ==> drivers[i] in OrgDriverInfos(t, orgId)
    ensures forall x :: x in OrgDriverInfos(t, orgId) ==> x in drivers
  {
    var listed := m => m in t.memberships && ListsAsDriver(t, m);
    var entry := m requires m in t.memberships && ListsAsDriver(t, m) => OrgDriverInfoOf(t, m);
    ghost var order;
    drivers, order := Collect(MembersOf(t.memberships, orgId), listed, entry);
    assert Kept(MembersOf(t.memberships, orgId), listed) == DriverMembers(t, orgId);
    forall x | x in OrgDriverInfos(t, orgId)
      ensures x in drivers
    {
      var m :| m in DriverMembers(t, orgId) && x == OrgDriverInfoOf(t, m);
      var i :| 0 <= i < |order| && order[i] == m;
      assert drivers[i] == x;
    }
  }

  /** GET /organizations/<id>/drivers: one entry per listed membership, in no
      particular order; every entry is a driver-flagged member with an approved
      profile. */
  method GetOrganizationDrivers(db: Database, orgId: OrgId) returns (status: int, drivers: seq<OrgDriverInfo>)
    requires db.Valid()
    ensures DriverListingOk(db.Snapshot())
    ensures orgId !in db.organizations ==> status == NOT_FOUND && drivers == []
    ensures orgId in db.organizations ==> status == OK && |drivers| == |DriverMembers(db.Snapshot(), orgId)|
    ensures forall i :: 0 <= i < |drivers| ==> drivers[i] in OrgDriverInfos(db.Snapshot(), orgId)
    ensures forall x :: x in OrgDriverInfos(db.Snapshot(), orgId) ==> x in drivers
  {
    ConsistentHasDriverListingOk(db.Snapshot());
    if orgId !in db.organizations {
      return NOT_FOUND, [];
    }
    drivers := CollectDrivers(db.Snapshot(), orgId);
    return OK, drivers;
  }

  /** GET /organizations/<id>/rides: the organization's rides, narrowed to one
      status when a non-empty status is given. */
  function GetOrganizationRides(t: Tables, orgId: OrgId, status: Option<string>): (r: Result<set<RideId>>)
    ensures r.Err? <==> orgId !in t.organizations
    ensures r.Ok? ==> forall id :: id in r.value ==> id in t.rides && t.rides[id].organizationId == Some(orgId)
    ensures r.Ok? && Present(status) ==> forall id :: id in r.value ==> t.rides[id].status == status.value
    ensures r.Ok? && !Present(status) ==>
      forall id :: id in t.rides && t.rides[id].organizationId == Some(orgId) ==> id in r.value
    ensures r.Ok? && Present(status) ==>
      forall id :: id in t.rides && t.rides[id].organizationId == Some(orgId) && t.rides[id].status == status.value
        ==> id in r.value
  {
    if orgId !in t.organizations then Err("Organization not found")
    else Ok(set id | id in t.rides && t.rides[id].organizationId == Some(orgId)
                     && (!Present(status) || t.rides[id].status == status.value))
  }

  /** The organization's view lists the same rides as GET .../rides without a status. */
  lemma OrganizationRidesMatchView(t: Tables, orgId: OrgId)
    requires orgId in t.organizations
    ensures GetOrganizationRides(t, orgId, None).value
         == OrganizationToDict(orgId, t.organizations[orgId], t.rides).rideIds
  {
  }
}
