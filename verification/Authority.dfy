/** The staff resolver: it accepts a token, then builds the membership's authority at each
    location from three query results, with loops over dictionaries. */
module Authority {
  import opened Sql
  import opened Rbac
  import StaffSessions

  datatype LocationAuthority = LocationAuthority(location: int, roles: seq<string>, permissions: set<string>)

  datatype Context = Context(
    user: int, username: string, email: Option<string>, displayName: string,
    tenant: int, tenantName: string, tenantSlug: string, membership: int,
    locations: seq<int>, roles: seq<string>, permissions: set<string>, authorities: seq<LocationAuthority>)

  datatype Denial =
    | InvalidCredentials
    | TenantNotAuthorized
    | MembershipNotActive
    | TenantNotActive

  datatype Answer = Unauthorized(reason: Denial) | Forbidden(why: Denial) | Authenticated(context: Context)

  // ---------- the query results ----------

  datatype Assignment = Assignment(location: int, role: int, name: string)
  datatype ScopedPermission = ScopedPermission(role: int, code: string)

  /** Active location roles of the membership, one row per location and role. */
  ghost predicate AssignmentRows(t: Tables, tenant: int, membership: int, rows: seq<Assignment>) {
    forall a: Assignment :: a in rows <==>
      a.role in t.roles && RoleAt(t, Grant(tenant, membership, a.location), a.role) && a.name == t.roles[a.role].name
  }

  predicate Selected(rows: seq<Assignment>, role: int) {
    exists k :: 0 <= k < |rows| && rows[k].role == role
  }

  /** Permission codes of the roles those assignments name. */
  ghost predicate PermissionRows(t: Tables, assignments: seq<Assignment>, rows: seq<ScopedPermission>) {
    forall p: ScopedPermission :: p in rows <==> Selected(assignments, p.role) && Carries(t, p.role, p.code)
  }

  /** Distinct permission codes of the membership's tenant-wide roles. */
  ghost predicate TenantPermissionRows(t: Tables, tenant: int, membership: int, rows: seq<string>) {
    forall code: string :: code in rows <==> PermitsInTenant(t, tenant, membership, code)
  }

  predicate HasTenantRole(t: Tables, tenant: int, membership: int, name: string) {
    exists r :: r in t.roles && TenantRole(t, tenant, membership, r) && t.roles[r].name == name
  }

  /** Distinct names of the membership's tenant-wide ACTIVE roles. */
  ghost predicate TenantRoleRows(t: Tables, tenant: int, membership: int, rows: seq<string>) {
    && (forall i, j :: 0 <= i < j < |rows| ==> rows[i] != rows[j])
    && forall name: string :: name in rows <==> HasTenantRole(t, tenant, membership, name)
  }

  // ---------- building the authorities ----------

  /** Names of the roles assigned at one location, in query order. */
  function NamesAt(rows: seq<Assignment>, location: int): seq<string> {
    if rows == [] then []
    else
      var last := rows[|rows|-1];
      NamesAt(rows[..|rows|-1], location) + (if last.location == location then [last.name] else [])
  }

  function Insert(ids: seq<int>, id: int): (r: seq<int>)
    requires Increasing(ids) && id !in ids
    ensures Increasing(r) && forall x :: x in r <==> x in ids || x == id
    ensures ids != [] && r[0] != id ==> r[0] == ids[0]
  {
    if ids == [] || id < ids[0] then [id] + ids
    else
      assert forall x :: x in ids[1..] ==> x in ids;
      var rest := Insert(ids[1..], id);
      assert forall k :: 0 <= k < |rest| ==> rest[k] in rest;
      assert forall k :: 0 <= k < |ids[1..]| ==> ids[1..][k] == ids[k + 1];
      [ids[0]] + rest
  }

  predicate Increasing(ids: seq<int>) {
    forall i, j :: 0 <= i < j < |ids| ==> ids[i] < ids[j]
  }

  /** sorted() of a dictionary's keys. */
  function Sorted(ids: seq<int>): (r: seq<int>)
    requires forall i, j :: 0 <= i < j < |ids| ==> ids[i] != ids[j]
    ensures Increasing(r) && forall x :: x in r <==> x in ids
  {
    if ids == [] then []
    else
      var rest := Sorted(ids[..|ids|-1]);
      assert ids[|ids|-1] !in ids[..|ids|-1];
      Insert(rest, ids[|ids|-1])
  }

  /** permissions_by_role: setdefault(role, set()).add(code) over the rows. */
  method PermissionsByRole(rows: seq<ScopedPermission>) returns (byRole: map<int, set<string>>)
    ensures forall role, code ::
      (role in byRole && code in byRole[role]) <==> ScopedPermission(role, code) in rows
  {
    byRole := map[];
    for k := 0 to |rows|
      invariant forall role, code ::
        (role in byRole && code in byRole[role]) <==> ScopedPermission(role, code) in rows[..k]
    {
      var role, code := rows[k].role, rows[k].code;
      byRole := byRole[role := (if role in byRole then byRole[role] else {}) + {code}];
      assert rows[..k + 1] == rows[..k] + [rows[k]];
    }
    assert rows[..|rows|] == rows;
  }

  /** Locations in order of first appearance: the keys of both dictionaries, which in Python
      keep insertion order. */
  function KeysOf(rows: seq<Assignment>): (keys: seq<int>)
    ensures forall i, j :: 0 <= i < j < |keys| ==> keys[i] != keys[j]
    ensures forall l :: l in keys <==> exists k :: 0 <= k < |rows| && rows[k].location == l
  {
    if rows == [] then []
    else
      var keys, last := KeysOf(rows[..|rows|-1]), rows[|rows|-1].location;
      if last in keys then keys else keys + [last]
  }

  /** permissions_by_role.get(role, set()) */
  function OfRole(byRole: map<int, set<string>>, role: int): set<string> {
    if role in byRole then byRole[role] else {}
  }

  function PermissionsAt(rows: seq<Assignment>, byRole: map<int, set<string>>, location: int): (codes: set<string>)
    ensures forall code :: code in codes <==>
      exists k :: 0 <= k < |rows| && rows[k].location == location && code in OfRole(byRole, rows[k].role)
  {
    if rows == [] then {}
    else
      var last := rows[|rows|-1];
      PermissionsAt(rows[..|rows|-1], byRole, location)
      + (if last.location == location then OfRole(byRole, last.role) else {})
  }

  ghost predicate NamesGrouped(rows: seq<Assignment>, roles: map<int, seq<string>>) {
    && (forall l :: l in roles <==> l in KeysOf(rows))
    && (forall l :: l in roles ==> roles[l] == NamesAt(rows, l))
  }

  ghost predicate CodesGrouped(
      rows: seq<Assignment>, byRole: map<int, set<string>>, permissions: map<int, set<string>>)
  {
    && (forall l :: l in permissions <==> l in KeysOf(rows))
    && (forall l :: l in permissions ==> permissions[l] == PermissionsAt(rows, byRole, l))
  }

  lemma {:induction false} NothingElsewhere(rows: seq<Assignment>, byRole: map<int, set<string>>, location: int)
    requires location !in KeysOf(rows)
    ensures NamesAt(rows, location) == [] && PermissionsAt(rows, byRole, location) == {}
  {
    if rows != [] {
      assert rows[|rows|-1].location != location;
      NothingElsewhere(rows[..|rows|-1], byRole, location);
    }
  }

  /** setdefault(location, []) then append; setdefault(location, set()) then update. */
  function NameAdded(roles: map<int, seq<string>>, row: Assignment): map<int, seq<string>> {
    roles[row.location := (if row.location in roles then roles[row.location] else []) + [row.name]]
  }

  function CodesAdded(permissions: map<int, set<string>>, location: int, codes: set<string>): map<int, set<string>> {
    permissions[location := (if location in permissions then permissions[location] else {}) + codes]
  }

  lemma NamesExtend(rows: seq<Assignment>, row: Assignment, roles: map<int, seq<string>>)
    requires NamesGrouped(rows, roles)
    ensures NamesGrouped(rows + [row], NameAdded(roles, row))
  {
    if row.location !in KeysOf(rows) { NothingElsewhere(rows, map[], row.location); }
    forall l
      ensures l in KeysOf(rows + [row]) <==> l in KeysOf(rows) || l == row.location
      ensures NamesAt(rows + [row], l) == NamesAt(rows, l) + (if row.location == l then [row.name] else [])
    {
      OneMoreRow(rows, row, map[], l);
    }
  }

  lemma CodesExtend(
      rows: seq<Assignment>, row: Assignment, byRole: map<int, set<string>>, permissions: map<int, set<string>>)
    requires CodesGrouped(rows, byRole, permissions)
    ensures CodesGrouped(rows + [row], byRole, CodesAdded(permissions, row.location, OfRole(byRole, row.role)))
  {
    if row.location !in KeysOf(rows) { NothingElsewhere(rows, byRole, row.location); }
    forall l
      ensures l in KeysOf(rows + [row]) <==> l in KeysOf(rows) || l == row.location
      ensures PermissionsAt(rows + [row], byRole, l)
        == PermissionsAt(rows, byRole, l) + (if row.location == l then OfRole(byRole, row.role) else {})
    {
      OneMoreRow(rows, row, byRole, l);
    }
  }

  lemma OneMoreRow(rows: seq<Assignment>, row: Assignment, byRole: map<int, set<string>>, l: int)
    ensures l in KeysOf(rows + [row]) <==> l in KeysOf(rows) || l == row.location
    ensures NamesAt(rows + [row], l) == NamesAt(rows, l) + (if row.location == l then [row.name] else [])
    ensures PermissionsAt(rows + [row], byRole, l)
      == PermissionsAt(rows, byRole, l) + (if row.location == l then OfRole(byRole, row.role) else {})
  {
  }

  /** roles_by_location and permissions_by_location, filled in one pass over the assignments. */
  method GroupByLocation(rows: seq<Assignment>, byRole: map<int, set<string>>)
    returns (keys: seq<int>, roles: map<int, seq<string>>, permissions: map<int, set<string>>)
    ensures keys == KeysOf(rows) && NamesGrouped(rows, roles) && CodesGrouped(rows, byRole, permissions)
  {
    keys, roles, permissions := [], map[], map[];
    for k := 0 to |rows|
      invariant keys == KeysOf(rows[..k])
      invariant NamesGrouped(rows[..k], roles) && CodesGrouped(rows[..k], byRole, permissions)
    {
      assert rows[..k + 1] == rows[..k] + [rows[k]] && rows[..k + 1][..k] == rows[..k];
      NamesExtend(rows[..k], rows[k], roles);
      CodesExtend(rows[..k], rows[k], byRole, permissions);
      if rows[k].location !in roles { keys := keys + [rows[k].location]; }
      roles := NameAdded(roles, rows[k]);
      permissions := CodesAdded(permissions, rows[k].location, OfRole(byRole, rows[k].role));
    }
    assert rows[..|rows|] == rows;
  }

  predicate BroughtAt(assignments: seq<Assignment>, scoped: seq<ScopedPermission>, location: int, code: string) {
    exists k :: 0 <= k < |assignments| && assignments[k].location == location
      && ScopedPermission(assignments[k].role, code) in scoped
  }

  /** The authorities in terms of the two query results. */
  ghost predicate Describes(
      authorities: seq<LocationAuthority>, assignments: seq<Assignment>, scoped: seq<ScopedPermission>)
  {
    && |authorities| == |Sorted(KeysOf(assignments))|
    && (forall k :: 0 <= k < |authorities| ==> authorities[k].location == Sorted(KeysOf(assignments))[k])
    && (forall k :: 0 <= k < |authorities| ==> authorities[k].roles == NamesAt(assignments, authorities[k].location))
    && (forall k, code :: 0 <= k < |authorities| ==>
          (code in authorities[k].permissions <==> BroughtAt(assignments, scoped, authorities[k].location, code)))
  }

  /** `location_authorities`, in sorted() order of the locations. */
  method LocationAuthorities(assignments: seq<Assignment>, scoped: seq<ScopedPermission>)
    returns (authorities: seq<LocationAuthority>)
    ensures Describes(authorities, assignments, scoped)
  {
    var byRole := PermissionsByRole(scoped);
    var keys, roles, permissions := GroupByLocation(assignments, byRole);
    var sorted := Sorted(keys);
    assert forall k :: 0 <= k < |sorted| ==> sorted[k] in sorted;
    authorities := Entries(sorted, roles, permissions);
    EntriesDescribe(authorities, assignments, scoped, byRole);
  }

  /** The tuple of entries over the sorted keys. */
  method Entries(sorted: seq<int>, roles: map<int, seq<string>>, permissions: map<int, set<string>>)
    returns (authorities: seq<LocationAuthority>)
    requires forall k :: 0 <= k < |sorted| ==> sorted[k] in roles && sorted[k] in permissions
    ensures |authorities| == |sorted|
    ensures forall k :: 0 <= k < |sorted| ==>
      authorities[k] == LocationAuthority(sorted[k], roles[sorted[k]], permissions[sorted[k]])
  {
    authorities := [];
    for k := 0 to |sorted|
      invariant |authorities| == k
      invariant forall i :: 0 <= i < k ==>
        authorities[i] == LocationAuthority(sorted[i], roles[sorted[i]], permissions[sorted[i]])
    {
      authorities := authorities + [LocationAuthority(sorted[k], roles[sorted[k]], permissions[sorted[k]])];
    }
  }

  function EntryFor(location: int, assignments: seq<Assignment>, byRole: map<int, set<string>>): LocationAuthority {
    LocationAuthority(location, NamesAt(assignments, location), PermissionsAt(assignments, byRole, location))
  }

  lemma EntriesDescribe(
    authorities: seq<LocationAuthority>, assignments: seq<Assignment>, scoped: seq<ScopedPermission>,
    byRole: map<int, set<string>>)
    requires forall role, c :: (role in byRole && c in byRole[role]) <==> ScopedPermission(role, c) in scoped
    requires |authorities| == |Sorted(KeysOf(assignments))|
    requires forall i :: 0 <= i < |authorities| ==>
      authorities[i] == EntryFor(Sorted(KeysOf(assignments))[i], assignments, byRole)
    ensures Describes(authorities, assignments, scoped)
  {
    forall k, code | 0 <= k < |authorities|
      ensures code in authorities[k].permissions <==> BroughtAt(assignments, scoped, authorities[k].location, code)
    {
      ByRoleBrings(assignments, scoped, byRole, authorities[k].location, code);
    }
  }

  lemma ByRoleBrings(
    assignments: seq<Assignment>, scoped: seq<ScopedPermission>, byRole: map<int, set<string>>, l: int, code: string)
    requires forall role, c :: (role in byRole && c in byRole[role]) <==> ScopedPermission(role, c) in scoped
    ensures code in PermissionsAt(assignments, byRole, l) <==> BroughtAt(assignments, scoped, l, code)
  {
  }

  // ---------- the authorities equal the relational meaning ----------

  /** The authorities of a membership, as the tables define them: exactly the locations where it
      has an ACTIVE role of the tenant, in strictly increasing order, each with exactly the
      permissions those roles carry. */
  ghost predicate Reflects(t: Tables, tenant: int, membership: int, authorities: seq<LocationAuthority>) {
    && (forall j, k :: 0 <= j < k < |authorities| ==> authorities[j].location < authorities[k].location)
    && (forall k :: 0 <= k < |authorities| ==> HasRoleAt(t, Grant(tenant, membership, authorities[k].location)))
    && (forall l :: HasRoleAt(t, Grant(tenant, membership, l)) ==>
          exists k :: 0 <= k < |authorities| && authorities[k].location == l)
    && (forall k, code :: 0 <= k < |authorities| ==>
          (code in authorities[k].permissions <==>
            Permits(t, Grant(tenant, membership, authorities[k].location), code)))
  }

  lemma BroughtExactlyWhenPermitted(
    t: Tables, tenant: int, membership: int, assignments: seq<Assignment>, scoped: seq<ScopedPermission>, l: int,
    code: string)
    requires AssignmentRows(t, tenant, membership, assignments) && PermissionRows(t, assignments, scoped)
    ensures BroughtAt(assignments, scoped, l, code) <==> Permits(t, Grant(tenant, membership, l), code)
  {
    var at := Grant(tenant, membership, l);
    if BroughtAt(assignments, scoped, l, code) {
      var k :| 0 <= k < |assignments| && assignments[k].location == l
        && ScopedPermission(assignments[k].role, code) in scoped;
      assert assignments[k] in assignments;
      assert RoleAt(t, at, assignments[k].role) && Carries(t, assignments[k].role, code);
    }
    if Permits(t, at, code) {
      var r :| r in t.roles && RoleAt(t, at, r) && Carries(t, r, code);
      var a := Assignment(l, r, t.roles[r].name);
      assert a in assignments;
      var k :| 0 <= k < |assignments| && assignments[k] == a;
      assert ScopedPermission(r, code) in scoped;
    }
  }

  lemma KeysExactlyWhereRoles(t: Tables, tenant: int, membership: int, assignments: seq<Assignment>, l: int)
    requires AssignmentRows(t, tenant, membership, assignments)
    ensures l in KeysOf(assignments) <==> HasRoleAt(t, Grant(tenant, membership, l))
  {
    var at := Grant(tenant, membership, l);
    if l in KeysOf(assignments) {
      var k :| 0 <= k < |assignments| && assignments[k].location == l;
      assert assignments[k] in assignments;
      assert RoleAt(t, at, assignments[k].role);
    }
    if HasRoleAt(t, at) {
      var r :| r in t.roles && RoleAt(t, at, r);
      assert Assignment(l, r, t.roles[r].name) in assignments;
    }
  }

  lemma LoopsEqualJoin(
    t: Tables, tenant: int, membership: int, assignments: seq<Assignment>, scoped: seq<ScopedPermission>,
    authorities: seq<LocationAuthority>)
    requires AssignmentRows(t, tenant, membership, assignments) && PermissionRows(t, assignments, scoped)
    requires Describes(authorities, assignments, scoped)
    ensures Reflects(t, tenant, membership, authorities)
  {
    var sorted := Sorted(KeysOf(assignments));
    forall l ensures l in sorted <==> HasRoleAt(t, Grant(tenant, membership, l)) {
      KeysExactlyWhereRoles(t, tenant, membership, assignments, l);
    }
    forall k | 0 <= k < |authorities| ensures HasRoleAt(t, Grant(tenant, membership, authorities[k].location)) {
      assert sorted[k] in sorted;
    }
    forall l | HasRoleAt(t, Grant(tenant, membership, l))
      ensures exists k :: 0 <= k < |authorities| && authorities[k].location == l
    {
      var k :| 0 <= k < |sorted| && sorted[k] == l;
      assert authorities[k].location == l;
    }
    forall k, code | 0 <= k < |authorities|
      ensures code in authorities[k].permissions <==>
        Permits(t, Grant(tenant, membership, authorities[k].location), code)
    {
      BroughtExactlyWhenPermitted(t, tenant, membership, assignments, scoped, authorities[k].location, code);
    }
  }

  lemma {:induction false} NamesAtMeaning(rows: seq<Assignment>, location: int, name: string)
    ensures name in NamesAt(rows, location) <==>
      exists k :: 0 <= k < |rows| && rows[k].location == location && rows[k].name == name
  {
    if rows != [] {
      var fewer := rows[..|rows|-1];
      NamesAtMeaning(fewer, location, name);
      if name in NamesAt(fewer, location) {
        var k :| 0 <= k < |fewer| && fewer[k].location == location && fewer[k].name == name;
        assert rows[k] == fewer[k];
      }
      if k :| 0 <= k < |rows| && rows[k].location == location && rows[k].name == name && k < |fewer| {
        assert fewer[k] == rows[k];
      }
    }
  }

  /** An ACTIVE role of this name is assigned at the location. */
  predicate HasRoleNamed(t: Tables, at: Grant, name: string) {
    exists r :: r in t.roles && RoleAt(t, at, r) && t.roles[r].name == name
  }

  /** The role names of an entry are those of the ACTIVE roles assigned there. */
  lemma RolesEqualJoin(
    t: Tables, tenant: int, membership: int, assignments: seq<Assignment>, scoped: seq<ScopedPermission>,
    authorities: seq<LocationAuthority>, k: nat, name: string)
    requires AssignmentRows(t, tenant, membership, assignments) && Describes(authorities, assignments, scoped)
    requires k < |authorities|
    ensures name in authorities[k].roles <==>
      HasRoleNamed(t, Grant(tenant, membership, authorities[k].location), name)
  {
    var l := authorities[k].location;
    NamesAtMeaning(assignments, l, name);
    if j :| 0 <= j < |assignments| && assignments[j].location == l && assignments[j].name == name {
      assert assignments[j] in assignments;
      assert RoleAt(t, Grant(tenant, membership, l), assignments[j].role);
    }
    if r :| r in t.roles && RoleAt(t, Grant(tenant, membership, l), r) && t.roles[r].name == name {
      assert Assignment(l, r, name) in assignments;
    }
  }

  // ---------- the resolver and the checks on its result ----------

  datatype Payload = Undecodable | Decoded(token: StaffSessions.Token)
  datatype Header = NoHeader | NotANumber | TenantHeader(tenant: int)

  datatype Membership = Membership(tenant: int, user: int, active: bool)

  datatype User = User(active: bool, username: Option<string>, email: Option<string>, displayName: string)
  datatype Tenant = Tenant(active: bool, name: string, slug: string)

  /** The identity rows by id. */
  datatype Identities = Identities(users: map<int, User>, memberships: map<int, Membership>, tenants: map<int, Tenant>)

  /** The join of user, membership, tenant and live session that the token names. */
  predicate Found(ids: Identities, sessions: StaffSessions.Tables, token: StaffSessions.Token) {
    && token.user in ids.users && token.tenant in ids.tenants && token.membership in ids.memberships
    && ids.memberships[token.membership].tenant == token.tenant && ids.memberships[token.membership].user == token.user
    && StaffSessions.IsAccepted(sessions, token)
  }

  /** The joined session row: ACTIVE, holding the slot, with all of the token's ids. */
  predicate HasSession(t: StaffSessions.Tables, token: StaffSessions.Token) {
    exists i :: (i in t.sessions
      && t.sessions[i].publicId == token.session && t.sessions[i].membership.id == token.membership
      && t.sessions[i].membership.tenant == token.tenant && t.sessions[i].membership.user == token.user
      && t.sessions[i].status.Active? && t.sessions[i].slot == Some(1))
  }

  lemma SessionMeaning(t: StaffSessions.Tables, token: StaffSessions.Token)
    ensures HasSession(t, token) <==> StaffSessions.IsAccepted(t, token)
  {
    if i :| i in t.sessions && StaffSessions.Finds(t, token, i) {
      assert t.sessions[i].publicId == token.session;
    }
    if HasSession(t, token) {
      var i :| (i in t.sessions
        && t.sessions[i].publicId == token.session && t.sessions[i].membership.id == token.membership
        && t.sessions[i].membership.tenant == token.tenant && t.sessions[i].membership.user == token.user
        && t.sessions[i].status.Active? && t.sessions[i].slot == Some(1));
      assert StaffSessions.Finds(t, token, i);
    }
  }

  /** The request names no tenant or the token's. */
  predicate HeaderFits(header: Header, tenant: int) {
    header.NoHeader? || header == TenantHeader(tenant)
  }

  /** The token is decoded, its tenant is the one asked for, and its session and user are live. */
  predicate Identifies(payload: Payload, header: Header, ids: Identities, sessions: StaffSessions.Tables) {
    && payload.Decoded? && HeaderFits(header, payload.token.tenant)
    && Found(ids, sessions, payload.token) && ids.users[payload.token.user].active
  }

  predicate IsMember(payload: Payload, header: Header, ids: Identities, sessions: StaffSessions.Tables) {
    Identifies(payload, header, ids, sessions) && ids.memberships[payload.token.membership].active
  }

  /** The context's rows are those the ids name; a user without a username shows an empty one. */
  predicate ShowsIdentity(c: Context, ids: Identities) {
    && c.user in ids.users && c.tenant in ids.tenants
    && Some(c.username) == (if ids.users[c.user].username.Some? then ids.users[c.user].username else Some(""))
    && c.email == ids.users[c.user].email && c.displayName == ids.users[c.user].displayName
    && c.tenantName == ids.tenants[c.tenant].name && c.tenantSlug == ids.tenants[c.tenant].slug
  }

  /** A context means what the role tables say of its membership. */
  ghost predicate Means(c: Context, t: Tables) {
    && Reflects(t, c.tenant, c.membership, c.authorities)
    && (forall k, name :: 0 <= k < |c.authorities| ==>
          (name in c.authorities[k].roles <==>
            HasRoleNamed(t, Grant(c.tenant, c.membership, c.authorities[k].location), name)))
    && (forall code :: code in c.permissions <==> PermitsInTenant(t, c.tenant, c.membership, code))
    && (forall name :: name in c.roles <==> HasTenantRole(t, c.tenant, c.membership, name))
    && (forall l :: l in c.locations <==> HasRoleAt(t, Grant(c.tenant, c.membership, l))) && Increasing(c.locations)
  }

  /** get_authenticated_context. */
  method GetAuthenticatedContext(
      payload: Payload, header: Header, ids: Identities, sessions: StaffSessions.Tables, ghost t: Tables,
      assignments: seq<Assignment>, scoped: seq<ScopedPermission>, roles: seq<string>, codes: seq<string>)
    returns (r: Answer)
    requires payload.Decoded? ==>
      var token := payload.token;
      && AssignmentRows(t, token.tenant, token.membership, assignments) && PermissionRows(t, assignments, scoped)
      && TenantRoleRows(t, token.tenant, token.membership, roles)
      && TenantPermissionRows(t, token.tenant, token.membership, codes)
    ensures r == Unauthorized(InvalidCredentials) <==>
      payload.Undecodable? || (HeaderFits(header, payload.token.tenant) && !Identifies(payload, header, ids, sessions))
    ensures r == Forbidden(TenantNotAuthorized) <==> payload.Decoded? && !HeaderFits(header, payload.token.tenant)
    ensures r == Forbidden(MembershipNotActive) <==>
      Identifies(payload, header, ids, sessions) && !ids.memberships[payload.token.membership].active
    ensures r == Forbidden(TenantNotActive) <==>
      IsMember(payload, header, ids, sessions) && !ids.tenants[payload.token.tenant].active
    ensures r.Authenticated? <==>
      IsMember(payload, header, ids, sessions) && ids.tenants[payload.token.tenant].active
    ensures r.Authenticated? ==>
      var c := r.context;
      && payload.token == StaffSessions.Token(c.user, c.tenant, c.membership, payload.token.session)
      && ShowsIdentity(c, ids) && Means(c, t)
  {
    if payload.Undecodable? { return Unauthorized(InvalidCredentials); }
    var token := payload.token;
    SessionMeaning(sessions, token);
    if header.NotANumber? || (header.TenantHeader? && header.tenant != token.tenant) {
      return Forbidden(TenantNotAuthorized);
    }
    if token.user !in ids.users || token.tenant !in ids.tenants || token.membership !in ids.memberships {
      return Unauthorized(InvalidCredentials);
    }
    var member := ids.memberships[token.membership];
    if member.tenant != token.tenant || member.user != token.user || !HasSession(sessions, token) {
      return Unauthorized(InvalidCredentials);
    }
    var user, tenant := ids.users[token.user], ids.tenants[token.tenant];
    if !user.active { return Unauthorized(InvalidCredentials); }
    if !member.active { return Forbidden(MembershipNotActive); }
    if !tenant.active { return Forbidden(TenantNotActive); }
    var authorities := LocationAuthorities(assignments, scoped);
    LoopsEqualJoin(t, token.tenant, token.membership, assignments, scoped, authorities);
    var locations := seq(|authorities|, k requires 0 <= k < |authorities| => authorities[k].location);
    LocationsAreGranted(t, token.tenant, token.membership, authorities, locations);
    forall k, name | 0 <= k < |authorities|
      ensures name in authorities[k].roles <==>
        HasRoleNamed(t, Grant(token.tenant, token.membership, authorities[k].location), name)
    {
      RolesEqualJoin(t, token.tenant, token.membership, assignments, scoped, authorities, k, name);
    }
    var permissions := set k | 0 <= k < |codes| :: codes[k];
    r := Authenticated(Context(
      token.user, if user.username.Some? then user.username.value else "", user.email, user.displayName,
      token.tenant, tenant.name, tenant.slug, token.membership, locations, roles, permissions, authorities));
  }

  lemma LocationsAreGranted(
      t: Tables, tenant: int, membership: int, authorities: seq<LocationAuthority>, locations: seq<int>)
    requires Reflects(t, tenant, membership, authorities) && |locations| == |authorities|
    requires forall k :: 0 <= k < |authorities| ==> locations[k] == authorities[k].location
    ensures Increasing(locations) && forall l :: l in locations <==> HasRoleAt(t, Grant(tenant, membership, l))
  {
    forall l | HasRoleAt(t, Grant(tenant, membership, l)) ensures l in locations {
      var k :| 0 <= k < |authorities| && authorities[k].location == l;
      assert locations[k] == l;
    }
  }

  /** authority_for_location: the first entry for the location, or None. */
  function AuthorityForLocation(authorities: seq<LocationAuthority>, location: int): (r: Option<LocationAuthority>)
    ensures r.Some? ==> r.value in authorities && r.value.location == location
    ensures r.None? ==> forall a :: a in authorities ==> a.location != location
  {
    if authorities == [] then None
    else if authorities[0].location == location then Some(authorities[0])
    else AuthorityForLocation(authorities[1..], location)
  }

  datatype Check = Allowed | LocationNotFound | InsufficientPermission

  /** require_staff_location_access followed by require_location_permission. */
  function RequireLocationPermission(c: Context, location: int, code: string): Check {
    var authority := AuthorityForLocation(c.authorities, location);
    if authority.None? then LocationNotFound
    else if code !in authority.value.permissions then InsufficientPermission
    else Allowed
  }

  /** The entry found is the only one for its location. */
  lemma EntryIsUnique(
      t: Tables, tenant: int, membership: int, authorities: seq<LocationAuthority>, a: LocationAuthority)
    requires Reflects(t, tenant, membership, authorities)
    ensures a in authorities <==> AuthorityForLocation(authorities, a.location) == Some(a)
  {
  }

  /** A request at a location passes exactly when the tables permit it there; it is answered
      404 exactly when the membership has no ACTIVE role there. */
  lemma CheckMatchesTables(t: Tables, c: Context, location: int, code: string)
    requires Reflects(t, c.tenant, c.membership, c.authorities)
    ensures var at := Grant(c.tenant, c.membership, location);
      && (RequireLocationPermission(c, location, code).Allowed? <==> Permits(t, at, code))
      && (RequireLocationPermission(c, location, code).LocationNotFound? <==> !HasRoleAt(t, at))
  {
  }
}
