/** Access provisioning within one tenant: an actor gives a user, member already or not, an
    existing role at several locations; and the creation of a staff account with such access. */
module AccessProvisioning {
  import opened Sql
  import opened Rbac
  import opened LocationRoles
  import Authority
  import Headquarters

  datatype Candidate = Candidate(organization: int, location: int)

  /** `role` is the tenant's role of the requested name, if there is one. */
  datatype Request = Request(tenant: int, actor: int, user: int, role: Option<int>, candidates: seq<Candidate>)

  datatype Refusal =
    | NoLocations | InvalidScope | DuplicateLocation
    | TenantNotActive | ActorNotMember | ActorNotActive | UserNotActive | RoleNotActive
    | LocationNotActive | LocationUnauthorized | AuthorityRequired | CannotDelegate
    | MembershipNotActive

  /** `created` holds the locations whose operation is CREATE. */
  datatype Answer =
    | Provisioned(membership: int, membershipCreated: bool, roleCreated: bool, created: set<int>)
    | Refused(why: Refusal)

  // ---------- what the rows say ----------

  predicate IsActiveUser(ids: Authority.Identities, user: int) {
    user in ids.users && ids.users[user].active
  }

  predicate IsActiveTenant(ids: Authority.Identities, tenant: int) {
    tenant in ids.tenants && ids.tenants[tenant].active
  }

  predicate ActsIn(ids: Authority.Identities, tenant: int, actor: int) {
    actor in ids.memberships && ids.memberships[actor].tenant == tenant && ids.memberships[actor].active
  }

  predicate Holds(ids: Authority.Identities, tenant: int, user: int, m: int) {
    m in ids.memberships && ids.memberships[m].tenant == tenant && ids.memberships[m].user == user
  }

  predicate IsMember(ids: Authority.Identities, tenant: int, user: int) {
    exists m :: m in ids.memberships && Holds(ids, tenant, user, m)
  }

  /** The UNIQUE on tenant and user. */
  predicate OneMembership(ids: Authority.Identities) {
    forall a, b :: a in ids.memberships && b in ids.memberships ==>
      SameMember(ids.memberships[a], ids.memberships[b]) ==> a == b
  }

  predicate SameMember(a: Authority.Membership, b: Authority.Membership) {
    a.tenant == b.tenant && a.user == b.user
  }

  predicate WellFormed(cs: seq<Candidate>) {
    && cs != [] && (forall i :: 0 <= i < |cs| ==> cs[i].organization > 0 && cs[i].location > 0)
    && forall i, j :: 0 <= i < j < |cs| ==> cs[i].location != cs[j].location
  }

  predicate IsActivePlace(places: Headquarters.Store, tenant: int, c: Candidate) {
    && c.organization in places.organizations && c.location in places.locations
    && places.organizations[c.organization].tenant == tenant && places.organizations[c.organization].active
    && places.locations[c.location] == Headquarters.Location(tenant, c.organization, true)
  }

  /** Why this candidate is refused, in terms of the role tables. */
  function Objection(places: Headquarters.Store, t: Tables, q: Request, role: int, c: Candidate): Option<Refusal> {
    var at := Grant(q.tenant, q.actor, c.location);
    if !IsActivePlace(places, q.tenant, c) then Some(LocationNotActive)
    else if !HasRoleAt(t, at) then Some(LocationUnauthorized)
    else if !PermitsAll(t, at, REQUIRED) then Some(AuthorityRequired)
    else if !PermitsAll(t, at, CodesOf(t, role)) then Some(CannotDelegate)
    else None
  }

  predicate NoObjection(places: Headquarters.Store, t: Tables, q: Request, role: int) {
    forall i :: 0 <= i < |q.candidates| ==> Objection(places, t, q, role, q.candidates[i]).None?
  }

  /** The objection to the candidate with the smallest location that meets one. */
  predicate IsFirstObjection(places: Headquarters.Store, t: Tables, q: Request, role: int, why: Refusal) {
    exists i :: 0 <= i < |q.candidates| && Objection(places, t, q, role, q.candidates[i]) == Some(why)
      && NoneBelow(places, t, q, role, q.candidates[i].location)
  }

  predicate NoneBelow(places: Headquarters.Store, t: Tables, q: Request, role: int, location: int) {
    forall j :: 0 <= j < |q.candidates| && q.candidates[j].location < location ==>
      Objection(places, t, q, role, q.candidates[j]).None?
  }

  predicate PartiesAreActive(ids: Authority.Identities, q: Request) {
    && IsActiveTenant(ids, q.tenant) && ActsIn(ids, q.tenant, q.actor)
    && IsActiveUser(ids, ids.memberships[q.actor].user) && IsActiveUser(ids, q.user)
  }

  predicate MembershipIsActive(ids: Authority.Identities, q: Request) {
    forall m :: m in ids.memberships && Holds(ids, q.tenant, q.user, m) ==> ids.memberships[m].active
  }

  /** Everything provisioning asks for before it looks at the locations. */
  predicate CanAsk(ids: Authority.Identities, t: Tables, q: Request) {
    && WellFormed(q.candidates) && PartiesAreActive(ids, q)
    && q.role.Some? && IsActiveRole(t, q.tenant, q.role.value)
  }

  /** Everything provisioning asks for, in terms of the tables. */
  predicate CanProvision(places: Headquarters.Store, ids: Authority.Identities, t: Tables, q: Request) {
    && CanAsk(ids, t, q)
    && NoObjection(places, t, q, q.role.value) && MembershipIsActive(ids, q)
  }

  /** When each refusal is given: its condition, after those of the checks before it. */
  predicate Justifies(why: Refusal, places: Headquarters.Store, ids: Authority.Identities, t: Tables, q: Request) {
    var cs := q.candidates;
    match why
    case NoLocations => cs == []
    case InvalidScope => exists i :: 0 <= i < |cs| && (cs[i].organization <= 0 || cs[i].location <= 0)
    case DuplicateLocation => exists i, j :: 0 <= i < j < |cs| && cs[i].location == cs[j].location
    case TenantNotActive => WellFormed(cs) && !IsActiveTenant(ids, q.tenant)
    case ActorNotMember => WellFormed(cs) && IsActiveTenant(ids, q.tenant) && !ActsIn(ids, q.tenant, q.actor)
    case ActorNotActive =>
      && WellFormed(cs) && IsActiveTenant(ids, q.tenant) && ActsIn(ids, q.tenant, q.actor)
      && !IsActiveUser(ids, ids.memberships[q.actor].user)
    case UserNotActive =>
      && WellFormed(cs) && IsActiveTenant(ids, q.tenant) && ActsIn(ids, q.tenant, q.actor)
      && IsActiveUser(ids, ids.memberships[q.actor].user) && !IsActiveUser(ids, q.user)
    case RoleNotActive =>
      WellFormed(cs) && PartiesAreActive(ids, q) && (q.role.None? || !IsActiveRole(t, q.tenant, q.role.value))
    case MembershipNotActive =>
      CanAsk(ids, t, q) && NoObjection(places, t, q, q.role.value) && !MembershipIsActive(ids, q)
    case _ => CanAsk(ids, t, q) && IsFirstObjection(places, t, q, q.role.value, why)
  }

  // ---------- what it writes ----------

  function Locations(cs: seq<Candidate>): set<int> {
    set i | 0 <= i < |cs| :: cs[i].location
  }

  /** The organization of each location, and the locations in ascending order. */
  ghost predicate Indexes(byLocation: map<int, int>, sorted: seq<int>, cs: seq<Candidate>) {
    && Authority.Increasing(sorted) && (forall l :: l in sorted <==> l in Locations(cs))
    && forall i :: 0 <= i < |cs| ==> cs[i].location in byLocation && byLocation[cs[i].location] == cs[i].organization
  }

  /** The role tenant-wide, and a grant and the role at each location. */
  function WithAccess(t: Tables, tenant: int, m: int, locations: set<int>, role: int): Tables {
    t.(membershipRoles := t.membershipRoles + {MembershipRole(tenant, m, role)},
       grants := t.grants + (set l | l in locations :: Grant(tenant, m, l)),
       locationRoles := t.locationRoles + (set l | l in locations :: LocationRole(Grant(tenant, m, l), role)))
  }

  predicate IsComplete(t: Tables, at: Grant, role: int) {
    at in t.grants && LocationRole(at, role) in t.locationRoles
  }

  function Incomplete(t: Tables, tenant: int, m: int, locations: set<int>, role: int): set<int> {
    set l | l in locations && !IsComplete(t, Grant(tenant, m, l), role)
  }

  class AccessService {
    const roles: RoleStore
    var ids: Authority.Identities

    constructor (roles: RoleStore, ids: Authority.Identities)
      ensures this.roles == roles && this.ids == ids
    {
      this.roles, this.ids := roles, ids;
    }

    /** `_location_candidates`: the organization of each location, and the locations sorted. */
    method IndexCandidates(cs: seq<Candidate>)
      returns (why: Option<Refusal>, byLocation: map<int, int>, sorted: seq<int>)
      ensures why.None? <==> WellFormed(cs)
      ensures why.None? ==> Indexes(byLocation, sorted, cs)
      ensures why == Some(NoLocations) ==> cs == []
      ensures why == Some(InvalidScope) ==>
        exists i :: 0 <= i < |cs| && (cs[i].organization <= 0 || cs[i].location <= 0)
      ensures why == Some(DuplicateLocation) ==> exists i, j :: 0 <= i < j < |cs| && cs[i].location == cs[j].location
      ensures why.Some? ==> why.value in {NoLocations, InvalidScope, DuplicateLocation}
    {
      why, byLocation, sorted := None, map[], [];
      if cs == [] { return Some(NoLocations), map[], []; }
      var locations: seq<int> := [];
      for i := 0 to |cs|
        invariant |locations| == i && forall j :: 0 <= j < i ==> locations[j] == cs[j].location
        invariant forall j :: 0 <= j < i ==> cs[j].organization > 0 && cs[j].location > 0
        invariant forall j, k :: 0 <= j < k < i ==> cs[j].location != cs[k].location
        invariant forall j :: 0 <= j < i ==>
          cs[j].location in byLocation && byLocation[cs[j].location] == cs[j].organization
        invariant forall l :: l in byLocation ==> exists j :: 0 <= j < i && cs[j].location == l
      {
        if cs[i].organization <= 0 || cs[i].location <= 0 { return Some(InvalidScope), map[], []; }
        if cs[i].location in byLocation { return Some(DuplicateLocation), map[], []; }
        byLocation := byLocation[cs[i].location := cs[i].organization];
        locations := locations + [cs[i].location];
      }
      sorted := Authority.Sorted(locations);
    }

    /** permissions_by_location of the actor. */
    method PermissionsByLocation(tenant: int, actor: int) returns (permissions: map<int, set<string>>)
      ensures forall l :: l in permissions <==> HasRoleAt(roles.t, Grant(tenant, actor, l))
      ensures forall l, code :: l in permissions ==>
        (code in permissions[l] <==> Permits(roles.t, Grant(tenant, actor, l), code))
    {
      var assignments := roles.SelectAssignments(tenant, actor);
      var scoped := roles.SelectPermissions(assignments);
      var byRole := Authority.PermissionsByRole(scoped);
      var keys, names, grouped := Authority.GroupByLocation(assignments, byRole);
      permissions := grouped;
      forall l ensures l in permissions <==> HasRoleAt(roles.t, Grant(tenant, actor, l)) {
        Authority.KeysExactlyWhereRoles(roles.t, tenant, actor, assignments, l);
      }
      forall l, code | l in permissions
        ensures code in permissions[l] <==> Permits(roles.t, Grant(tenant, actor, l), code)
      {
        Authority.ByRoleBrings(assignments, scoped, byRole, l, code);
        Authority.BroughtExactlyWhenPermitted(roles.t, tenant, actor, assignments, scoped, l, code);
      }
    }

    /** The loop over the candidates in ascending order of location. */
    method FirstObjection(
        places: Headquarters.Store, q: Request, role: int, byLocation: map<int, int>, sorted: seq<int>)
      returns (why: Option<Refusal>)
      requires Indexes(byLocation, sorted, q.candidates)
      ensures why.None? <==> NoObjection(places, roles.t, q, role)
      ensures why.Some? ==> IsFirstObjection(places, roles.t, q, role, why.value)
    {
      why := None;
      var permissions := PermissionsByLocation(q.tenant, q.actor);
      for k := 0 to |sorted|
        invariant why.None?
        invariant forall i :: 0 <= i < |q.candidates| && q.candidates[i].location in sorted[..k] ==>
          Objection(places, roles.t, q, role, q.candidates[i]).None?
      {
        assert sorted[k] in sorted;
        var i :| 0 <= i < |q.candidates| && q.candidates[i].location == sorted[k];
        var c := Candidate(byLocation[sorted[k]], sorted[k]);
        assert c == q.candidates[i];
        var isPlace :=
          && c.organization in places.organizations && places.organizations[c.organization].tenant == q.tenant
          && places.organizations[c.organization].active
          && c.location in places.locations && places.locations[c.location].tenant == q.tenant
          && places.locations[c.location].active && places.locations[c.location].organization == c.organization;
        why := if !isPlace then Some(LocationNotActive)
          else if c.location !in permissions then Some(LocationUnauthorized)
          else if !(REQUIRED <= permissions[c.location]) then Some(AuthorityRequired)
          else if !(CodesOf(roles.t, role) <= permissions[c.location]) then Some(CannotDelegate)
          else None;
        assert why == Objection(places, roles.t, q, role, q.candidates[i]);
        if why.Some? {
          BelowIsBefore(q.candidates, sorted, k);
          assert NoneBelow(places, roles.t, q, role, q.candidates[i].location);
          return;
        }
      }
      forall i | 0 <= i < |q.candidates| ensures q.candidates[i].location in sorted[..|sorted|] {
        assert q.candidates[i].location in Locations(q.candidates);
      }
    }

    /** The user's membership in the tenant. */
    method FindMembership(tenant: int, user: int) returns (found: Option<int>)
      requires OneMembership(ids)
      ensures found.Some? ==> Holds(ids, tenant, user, found.value)
      ensures found.None? <==> !IsMember(ids, tenant, user)
    {
      found := None;
      var pending := ids.memberships.Items;
      while pending != {}
        invariant pending <= ids.memberships.Items
        invariant found.Some? ==> Holds(ids, tenant, user, found.value)
        invariant found.None? ==> forall m :: m in ids.memberships && Holds(ids, tenant, user, m) ==>
          (m, ids.memberships[m]) in pending
      {
        var row :| row in pending;
        pending := pending - {row};
        if row.1.tenant == tenant && row.1.user == user { found := Some(row.0); }
      }
    }

    /** Everything before the writes of provision_access_in_transaction. */
    method Decide(places: Headquarters.Store, q: Request) returns (why: Option<Refusal>, member: Option<int>)
      requires OneMembership(ids)
      ensures why.None? <==> CanProvision(places, ids, roles.t, q)
      ensures why.Some? ==> Justifies(why.value, places, ids, roles.t, q)
      ensures why.None? ==> (member.Some? ==> Holds(ids, q.tenant, q.user, member.value))
      ensures why.None? ==> (member.None? <==> !IsMember(ids, q.tenant, q.user))
    {
      var byLocation, sorted;
      member := None;
      why, byLocation, sorted := IndexCandidates(q.candidates);
      if why.Some? { return; }
      if q.tenant !in ids.tenants || !ids.tenants[q.tenant].active { return Some(TenantNotActive), None; }
      if q.actor !in ids.memberships { return Some(ActorNotMember), None; }
      var acting := ids.memberships[q.actor];
      if acting.tenant != q.tenant || !acting.active { return Some(ActorNotMember), None; }
      if acting.user !in ids.users || !ids.users[acting.user].active { return Some(ActorNotActive), None; }
      if q.user !in ids.users || !ids.users[q.user].active { return Some(UserNotActive), None; }
      if q.role.None? || q.role.value !in roles.t.roles { return Some(RoleNotActive), None; }
      var role := roles.t.roles[q.role.value];
      if role.tenant != q.tenant || !role.active { return Some(RoleNotActive), None; }
      why := FirstObjection(places, q, q.role.value, byLocation, sorted);
      if why.Some? { return; }
      member := FindMembership(q.tenant, q.user);
      OnlyMembership(ids, q, member);
      if member.Some? && !ids.memberships[member.value].active { why := Some(MembershipNotActive); }
    }

    /** The loop that adds what is missing; what exists was read before it. */
    method WriteAccess(tenant: int, m: int, role: int, locations: seq<int>)
      returns (roleCreated: bool, created: set<int>)
      requires KeysHold(roles.t) && IsActiveRole(roles.t, tenant, role)
      modifies roles`t
      ensures roles.t == WithAccess(old(roles.t), tenant, m, Elements(locations), role) && KeysHold(roles.t)
      ensures roleCreated == (MembershipRole(tenant, m, role) !in old(roles.t).membershipRoles)
      ensures created == Incomplete(old(roles.t), tenant, m, Elements(locations), role)
    {
      var before := roles.t;
      roleCreated, created := MembershipRole(tenant, m, role) !in before.membershipRoles, {};
      roles.t := before.(membershipRoles := before.membershipRoles + {MembershipRole(tenant, m, role)});
      for k := 0 to |locations|
        invariant roles.t == WithAccess(before, tenant, m, Elements(locations[..k]), role)
        invariant created == Incomplete(before, tenant, m, Elements(locations[..k]), role)
      {
        var at := Grant(tenant, m, locations[k]);
        ElementsStep(locations, k);
        AccessStep(before, tenant, m, Elements(locations[..k]), locations[k], role);
        if at !in before.grants || LocationRole(at, role) !in before.locationRoles {
          created := created + {locations[k]};
        }
        roles.t := roles.t.(
          grants := roles.t.grants + {at}, locationRoles := roles.t.locationRoles + {LocationRole(at, role)});
      }
      assert locations[..|locations|] == locations;
    }

    /** provision_access_in_transaction; `newId` is the id of the membership if one is created. */
    method ProvisionAccess(places: Headquarters.Store, q: Request, newId: int) returns (r: Answer)
      requires OneMembership(ids) && newId !in ids.memberships && KeysHold(roles.t)
      modifies `ids, roles`t
      ensures OneMembership(ids) && KeysHold(roles.t)
      ensures r.Provisioned? <==> CanProvision(places, old(ids), old(roles.t), q)
      ensures r.Refused? ==>
        Justifies(r.why, places, old(ids), old(roles.t), q) && ids == old(ids) && roles.t == old(roles.t)
      ensures r.Provisioned? ==> r.membershipCreated == !IsMember(old(ids), q.tenant, q.user)
      ensures r.Provisioned? ==> if r.membershipCreated
        then r.membership == newId && ids == WithMember(old(ids), q, newId)
        else Holds(ids, q.tenant, q.user, r.membership) && ids == old(ids)
      ensures r.Provisioned? ==>
        && roles.t == WithAccess(old(roles.t), q.tenant, r.membership, Locations(q.candidates), q.role.value)
        && r.roleCreated == (MembershipRole(q.tenant, r.membership, q.role.value) !in old(roles.t).membershipRoles)
        && r.created == Incomplete(old(roles.t), q.tenant, r.membership, Locations(q.candidates), q.role.value)
    {
      var why, member := Decide(places, q);
      if why.Some? { return Refused(why.value); }
      var m := if member.Some? then member.value else newId;
      if member.None? { ids := WithMember(ids, q, newId); }
      var locations := seq(|q.candidates|, i requires 0 <= i < |q.candidates| => q.candidates[i].location);
      SameLocations(q.candidates, locations);
      var roleCreated, created := WriteAccess(q.tenant, m, q.role.value, locations);
      r := Provisioned(m, member.None?, roleCreated, created);
    }
  }

  function WithMember(ids: Authority.Identities, q: Request, m: int): Authority.Identities {
    ids.(memberships := ids.memberships[m := Authority.Membership(q.tenant, q.user, true)])
  }

  lemma OnlyMembership(ids: Authority.Identities, q: Request, member: Option<int>)
    requires OneMembership(ids) && (member.Some? ==> Holds(ids, q.tenant, q.user, member.value))
    requires member.None? ==> !IsMember(ids, q.tenant, q.user)
    ensures MembershipIsActive(ids, q) <==> (member.Some? ==> ids.memberships[member.value].active)
  {
    if member.Some? {
      forall m | m in ids.memberships && Holds(ids, q.tenant, q.user, m) ensures m == member.value {
        assert SameMember(ids.memberships[m], ids.memberships[member.value]);
      }
    }
  }

  lemma SameLocations(cs: seq<Candidate>, locations: seq<int>)
    requires |locations| == |cs| && forall i :: 0 <= i < |cs| ==> locations[i] == cs[i].location
    ensures Elements(locations) == Locations(cs)
  {
    forall i | 0 <= i < |cs| ensures cs[i].location in Elements(locations) && locations[i] in Locations(cs) {
      assert locations[i] in locations;
    }
  }

  lemma ElementsStep(ids: seq<int>, k: nat)
    requires k < |ids|
    ensures Elements(ids[..k + 1]) == Elements(ids[..k]) + {ids[k]}
  {
    assert ids[..k + 1] == ids[..k] + [ids[k]];
  }

  lemma AccessStep(t: Tables, tenant: int, m: int, locations: set<int>, l: int, role: int)
    ensures var now := WithAccess(t, tenant, m, locations, role);
      WithAccess(t, tenant, m, locations + {l}, role) == now.(
        grants := now.grants + {Grant(tenant, m, l)},
        locationRoles := now.locationRoles + {LocationRole(Grant(tenant, m, l), role)})
    ensures Incomplete(t, tenant, m, locations + {l}, role)
      == Incomplete(t, tenant, m, locations, role) + if IsComplete(t, Grant(tenant, m, l), role) then {} else {l}
  {
  }

  // ---------- what it means ----------

  /** The member gains exactly the role's permissions, tenant-wide and at those locations; no
      other member's authority changes anywhere. */
  lemma AccessAuthority(t: Tables, tenant: int, m: int, locations: set<int>, role: int, code: string, other: Grant)
    requires IsActiveRole(t, tenant, role)
    ensures var after := WithAccess(t, tenant, m, locations, role);
      && (PermitsInTenant(after, tenant, m, code) <==> PermitsInTenant(t, tenant, m, code) || Carries(t, role, code))
      && (other.tenant == tenant && other.membership == m && other.location in locations ==>
            && HasRoleAt(after, other)
            && (Permits(after, other, code) <==> Permits(t, other, code) || Carries(t, role, code)))
      && (!(other.tenant == tenant && other.membership == m && other.location in locations) ==>
            && (HasRoleAt(after, other) <==> HasRoleAt(t, other))
            && (Permits(after, other, code) <==> Permits(t, other, code)))
      && (!(other.tenant == tenant && other.membership == m) ==>
            (PermitsInTenant(after, other.tenant, other.membership, code) <==>
              PermitsInTenant(t, other.tenant, other.membership, code)))
  {
  }

  /** What a member is given at a location the actor has there. */
  lemma NeverMoreThanActor(
      places: Headquarters.Store, ids: Authority.Identities, t: Tables, q: Request, m: int, l: int, code: string)
    requires CanProvision(places, ids, t, q) && l in Locations(q.candidates)
    ensures var after := WithAccess(t, q.tenant, m, Locations(q.candidates), q.role.value);
      Permits(after, Grant(q.tenant, m, l), code) ==>
        Permits(t, Grant(q.tenant, m, l), code) || Permits(t, Grant(q.tenant, q.actor, l), code)
  {
    AccessAuthority(t, q.tenant, m, Locations(q.candidates), q.role.value, code, Grant(q.tenant, m, l));
    var i :| 0 <= i < |q.candidates| && q.candidates[i].location == l;
    assert Objection(places, t, q, q.role.value, q.candidates[i]).None?;
    assert code in CodesOf(t, q.role.value) <==> Carries(t, q.role.value, code);
  }

  /** Location roles stay the join of grants and tenant-wide roles exactly when the member
      already had the role or gets it at every granted location, and has no other role or no
      location is new. */
  predicate JoinIsKept(t: Tables, tenant: int, m: int, locations: set<int>, role: int) {
    && (role in RolesOf(t, tenant, m)
        || forall g :: g in t.grants && g.tenant == tenant && g.membership == m ==> g.location in locations)
    && (RolesOf(t, tenant, m) <= {role} || forall l :: l in locations ==> Grant(tenant, m, l) in t.grants)
  }

  lemma AccessKeepsJoinExactly(t: Tables, tenant: int, m: int, locations: set<int>, role: int)
    requires IsJoin(t)
    ensures IsJoin(WithAccess(t, tenant, m, locations, role)) <==> JoinIsKept(t, tenant, m, locations, role)
  {
    var after := WithAccess(t, tenant, m, locations, role);
    JoinMembers(t);
    JoinMembers(after);
    if IsJoin(after) {
      forall g | role !in RolesOf(t, tenant, m) && g in t.grants && g.tenant == tenant && g.membership == m
        ensures g.location in locations
      {
        assert InJoin(after, LocationRole(g, role));
      }
      forall l, r | l in locations && r in RolesOf(t, tenant, m) && r != role ensures Grant(tenant, m, l) in t.grants {
        assert InJoin(after, LocationRole(Grant(tenant, m, l), r));
      }
    }
    if JoinIsKept(t, tenant, m, locations, role) {
      forall a ensures a in after.locationRoles <==> InJoin(after, a) {
        assert a.grant.tenant == tenant && a.grant.membership == m ==>
          (a.role in RolesOf(t, tenant, m) <==> MembershipRole(tenant, m, a.role) in t.membershipRoles);
      }
    }
  }

  lemma JoinMembers(t: Tables)
    ensures forall a :: a in Joined(t) <==> InJoin(t, a)
  {
    forall a | InJoin(t, a) ensures a in Joined(t) {
      assert MembershipRole(a.grant.tenant, a.grant.membership, a.role).role == a.role;
    }
  }

  predicate InJoin(t: Tables, a: LocationRole) {
    a.grant in t.grants && MembershipRole(a.grant.tenant, a.grant.membership, a.role) in t.membershipRoles
  }

  /** A member's second role, given at another location, leaves the join. */
  lemma SecondRoleBreaksJoin(tenant: int, m: int, a: int, b: int, first: int, second: int)
    requires a != b && first != second
    ensures var t := Tables(map[], map[], {}, {MembershipRole(tenant, m, first)}, {Grant(tenant, m, a)},
                            {LocationRole(Grant(tenant, m, a), first)});
      IsJoin(t) && !IsJoin(WithAccess(t, tenant, m, {b}, second))
  {
    var t := Tables(map[], map[], {}, {MembershipRole(tenant, m, first)}, {Grant(tenant, m, a)},
                    {LocationRole(Grant(tenant, m, a), first)});
    AccessKeepsJoinExactly(t, tenant, m, {b}, second);
    assert first in RolesOf(t, tenant, m) && Grant(tenant, m, b) !in t.grants && b in {b};
  }

  lemma NewMemberKeepsJoin(t: Tables, tenant: int, m: int, locations: set<int>, role: int)
    requires IsJoin(t) && IsNewMember(t, m)
    ensures IsJoin(WithAccess(t, tenant, m, locations, role))
  {
    AccessKeepsJoinExactly(t, tenant, m, locations, role);
  }

  /** The same request again is accepted and reports UNCHANGED throughout. */
  lemma RepeatIsIdle(
      places: Headquarters.Store, ids: Authority.Identities, t: Tables, q: Request, m: int, now: Authority.Identities)
    requires CanProvision(places, ids, t, q)
    requires if IsMember(ids, q.tenant, q.user) then now == ids && Holds(ids, q.tenant, q.user, m)
             else m !in ids.memberships && now == WithMember(ids, q, m)
    ensures var after := WithAccess(t, q.tenant, m, Locations(q.candidates), q.role.value);
      && CanProvision(places, now, after, q) && IsMember(now, q.tenant, q.user) && Holds(now, q.tenant, q.user, m)
      && WithAccess(after, q.tenant, m, Locations(q.candidates), q.role.value) == after
      && Incomplete(after, q.tenant, m, Locations(q.candidates), q.role.value) == {}
  {
    var after := WithAccess(t, q.tenant, m, Locations(q.candidates), q.role.value);
    forall i | 0 <= i < |q.candidates| ensures Objection(places, after, q, q.role.value, q.candidates[i]).None? {
      var at := Grant(q.tenant, q.actor, q.candidates[i].location);
      assert Objection(places, t, q, q.role.value, q.candidates[i]).None?;
      forall code | Permits(t, at, code) ensures Permits(after, at, code) {
        AccessAuthority(t, q.tenant, m, Locations(q.candidates), q.role.value, code, at);
      }
      AccessAuthority(t, q.tenant, m, Locations(q.candidates), q.role.value, "", at);
      assert CodesOf(after, q.role.value) == CodesOf(t, q.role.value);
    }
  }

  lemma BelowIsBefore(cs: seq<Candidate>, sorted: seq<int>, k: nat)
    requires Authority.Increasing(sorted) && k < |sorted| && forall l :: l in sorted <==> l in Locations(cs)
    ensures forall j :: 0 <= j < |cs| && cs[j].location < sorted[k] ==> cs[j].location in sorted[..k]
  {
    forall j | 0 <= j < |cs| && cs[j].location < sorted[k] ensures cs[j].location in sorted[..k] {
      assert cs[j].location in Locations(cs);
      var i :| 0 <= i < |sorted| && sorted[i] == cs[j].location;
      assert i < k;
    }
  }

  // ---------- staff accounts ----------

  /** Username, email and display name as normalised; the password is hashed beside them. */
  datatype Account = Account(username: string, email: Option<string>, displayName: string)

  datatype StaffAnswer = InvalidAccount | UsernameTaken | EmailTaken | Access(answer: Answer)

  predicate HasUsername(ids: Authority.Identities, username: string) {
    exists u :: u in ids.users && ids.users[u].username == Some(username)
  }

  predicate HasEmail(ids: Authority.Identities, email: Option<string>) {
    email.Some? && exists u :: u in ids.users && ids.users[u].email == email
  }

  /** The UNIQUEs on username and email, the memberships' key to users and their own UNIQUE. */
  predicate IdentitiesHold(ids: Authority.Identities) {
    && (forall a, b :: a in ids.users && b in ids.users && a != b ==> UsersDiffer(ids.users[a], ids.users[b]))
    && (forall m :: m in ids.memberships ==> ids.memberships[m].user in ids.users) && OneMembership(ids)
  }

  predicate UsersDiffer(a: Authority.User, b: Authority.User) {
    && !(a.username.Some? && a.username == b.username) && !(a.email.Some? && a.email == b.email)
  }

  function WithUser(ids: Authority.Identities, user: int, a: Account): Authority.Identities {
    ids.(users := ids.users[user := Authority.User(true, Some(a.username), a.email, a.displayName)])
  }

  /** One ACTIVE user with the account's fields and one ACTIVE membership of its tenant more. */
  ghost predicate IsNewStaff(
      a: Authority.Identities, b: Authority.Identities, tenant: int, user: int, account: Account, m: int)
  {
    && b.tenants == a.tenants
    && (forall u :: u in b.users <==> u in a.users || u == user)
    && (forall u :: u in a.users && u != user ==> b.users[u] == a.users[u])
    && user in b.users && b.users[user].active && b.users[user].username == Some(account.username)
    && b.users[user].email == account.email && b.users[user].displayName == account.displayName
    && (forall k :: k in b.memberships <==> k in a.memberships || k == m)
    && (forall k :: k in a.memberships && k != m ==> b.memberships[k] == a.memberships[k])
    && m in b.memberships && b.memberships[m].tenant == tenant && b.memberships[m].user == user
    && b.memberships[m].active
  }

  /** A normalised account whose username and email are free. */
  predicate AccountIsFree(ids: Authority.Identities, account: Option<Account>) {
    account.Some? && !HasUsername(ids, account.value.username) && !HasEmail(ids, account.value.email)
  }

  lemma NewUserHolds(ids: Authority.Identities, user: int, account: Option<Account>)
    requires IdentitiesHold(ids) && AccountIsFree(ids, account) && user !in ids.users
    ensures IdentitiesHold(WithUser(ids, user, account.value))
    ensures forall tenant :: !IsMember(WithUser(ids, user, account.value), tenant, user)
  {
  }

  /** provision_staff_account_in_transaction: a new user, so a new membership.  The flush never
      violates a UNIQUE.  The caller rolls back a refusal, which may have left the user. */
  method ProvisionStaffAccount(
      access: AccessService, places: Headquarters.Store, account: Option<Account>, q: Request, newId: int)
    returns (r: StaffAnswer)
    requires IdentitiesHold(access.ids) && KeysHold(access.roles.t)
    requires q.user !in access.ids.users && newId !in access.ids.memberships
    modifies access`ids, access.roles`t
    ensures IdentitiesHold(access.ids) && KeysHold(access.roles.t)
    ensures r.Access? <==> AccountIsFree(old(access.ids), account)
    ensures r.InvalidAccount? <==> account.None?
    ensures r.UsernameTaken? <==> account.Some? && HasUsername(old(access.ids), account.value.username)
    ensures r.Access? && r.answer.Refused? ==>
      Justifies(r.answer.why, places, WithUser(old(access.ids), q.user, account.value), old(access.roles.t), q)
    ensures r.Access? && r.answer.Provisioned? <==>
      account.Some? && AccountIsFree(old(access.ids), account)
      && CanProvision(places, WithUser(old(access.ids), q.user, account.value), old(access.roles.t), q)
    ensures r.Access? && r.answer.Provisioned? ==>
      && r.answer.membershipCreated && r.answer.membership == newId
      && IsNewStaff(old(access.ids), access.ids, q.tenant, q.user, account.value, newId)
      && access.ids == WithMember(WithUser(old(access.ids), q.user, account.value), q, newId)
      && access.roles.t == WithAccess(old(access.roles.t), q.tenant, newId, Locations(q.candidates), q.role.value)
    ensures !(r.Access? && r.answer.Provisioned?) ==> access.roles.t == old(access.roles.t)
  {
    if account.None? { return InvalidAccount; }
    var users, a := access.ids.users, account.value;
    if exists u :: u in users && users[u].username == Some(a.username) { return UsernameTaken; }
    if a.email.Some? && exists u :: u in users && users[u].email == a.email { return EmailTaken; }
    NewUserHolds(access.ids, q.user, account);
    access.ids := WithUser(access.ids, q.user, account.value);
    var answer := access.ProvisionAccess(places, q, newId);
    r := Access(answer);
  }
}
