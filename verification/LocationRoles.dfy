/** How location roles come to exist: migration 0064's join over grants and tenant roles, the
    creation of a location by a member and the bootstrap's get-or-create, and that they agree with
    what the resolver reads. */
module LocationRoles {
  import opened Sql
  import opened Rbac
  import Authority

  /** INSERT ... SELECT grants JOIN membership_roles ON tenant_id AND membership_id. */
  function Joined(t: Tables): set<LocationRole> {
    set g, a | g in t.grants && a in t.membershipRoles && a.tenant == g.tenant && a.membership == g.membership ::
      LocationRole(g, a.role)
  }

  /** Every location role comes from a grant and a tenant-wide role, and every such pair has one. */
  predicate IsJoin(t: Tables) {
    t.locationRoles == Joined(t)
  }

  /** Roles of a membership, tenant-wide, of any status. */
  function RolesOf(t: Tables, tenant: int, membership: int): set<int> {
    set a | a in t.membershipRoles && a.tenant == tenant && a.membership == membership :: a.role
  }

  function WithRoles(t: Tables, at: Grant, roles: set<int>): Tables {
    t.(grants := t.grants + {at}, locationRoles := t.locationRoles + set r | r in roles :: LocationRole(at, r))
  }

  /** A location nobody holds a grant for, as one just inserted. */
  predicate IsNew(t: Tables, location: int) {
    && (forall g :: g in t.grants ==> g.location != location)
    && (forall a :: a in t.locationRoles ==> a.grant.location != location)
  }

  /** A membership with no rows yet. */
  predicate IsNewMember(t: Tables, membership: int) {
    && (forall a :: a in t.membershipRoles ==> a.membership != membership)
    && (forall g :: g in t.grants ==> g.membership != membership)
    && (forall a :: a in t.locationRoles ==> a.grant.membership != membership)
  }

  function CodesOf(t: Tables, role: int): (codes: set<string>)
    ensures forall code :: code in codes <==> Carries(t, role, code)
  {
    set p | p in t.permissions && RolePermission(role, p) in t.rolePermissions :: t.permissions[p]
  }

  function Elements(ids: seq<int>): set<int> {
    set id | id in ids
  }

  const REQUIRED: set<string> := {"user.manage", "role.manage", "location.manage"}

  predicate PermitsAll(t: Tables, at: Grant, codes: set<string>) {
    forall code :: code in codes ==> Permits(t, at, code)
  }

  /** Some of these rows gives the role a permission with this code. */
  predicate CarriedBy(t: Tables, rows: set<RolePermission>, role: int, code: string) {
    exists p :: p in t.permissions && RolePermission(role, p) in rows && t.permissions[p] == code
  }

  class RoleStore {
    var t: Tables
    var created: seq<string>

    constructor (t: Tables)
      ensures this.t == t && created == []
    {
      this.t, created := t, [];
    }

    /** The data step of 0064, on the table it has just created. */
    method Backfill()
      requires KeysHold(t) && t.locationRoles == {}
      modifies `t
      ensures t == old(t).(locationRoles := Joined(old(t))) && IsJoin(t) && KeysHold(t)
    {
      t := t.(locationRoles := Joined(t));
    }

    /** Grant and roles of the member who created a location: the list comprehension over
        `role_ids`, the ids a query of the member's own roles returned. */
    method GrantCreator(at: Grant, roleIds: seq<int>)
      requires KeysHold(t) && IsNew(t, at.location)
      requires Elements(roleIds) == RolesOf(t, at.tenant, at.membership)
      modifies `t
      ensures t == WithRoles(old(t), at, RolesOf(old(t), at.tenant, at.membership)) && KeysHold(t)
      ensures old(IsJoin(t)) ==> IsJoin(t)
    {
      ghost var before := t;
      t := t.(grants := t.grants + {at});
      for k := 0 to |roleIds|
        invariant t == WithRoles(before, at, Elements(roleIds[..k]))
      {
        t := t.(locationRoles := t.locationRoles + {LocationRole(at, roleIds[k])});
        assert roleIds[..k + 1] == roleIds[..k] + [roleIds[k]];
        RolesAdd(before, at, Elements(roleIds[..k]), roleIds[k]);
        assert Elements(roleIds[..k + 1]) == Elements(roleIds[..k]) + {roleIds[k]};
      }
      assert roleIds[..|roleIds|] == roleIds;
      if IsJoin(before) { CreatorKeepsJoin(before, at); }
    }

    /** `_grant` of the bootstrap: get or create the grant, then the location role. */
    method GetOrCreate(at: Grant, role: int, name: string)
      requires KeysHold(t) && role in t.roles && t.roles[role].tenant == at.tenant
      modifies `t, `created
      ensures t == WithRoles(old(t), at, {role}) && KeysHold(t)
      ensures created == old(created)
        + (if at in old(t).grants then [] else [name + ":location_grant"])
        + (if LocationRole(at, role) in old(t).locationRoles then [] else [name + ":location_role"])
    {
      if at !in t.grants {
        t, created := t.(grants := t.grants + {at}), created + [name + ":location_grant"];
      }
      if LocationRole(at, role) !in t.locationRoles {
        t := t.(locationRoles := t.locationRoles + {LocationRole(at, role)});
        created := created + [name + ":location_role"];
      }
      assert (set r | r in {role} :: LocationRole(at, r)) == {LocationRole(at, role)};
    }

    /** SELECT role_id FROM membership_roles for one membership. */
    method SelectRoleIds(tenant: int, membership: int) returns (ids: seq<int>)
      ensures Elements(ids) == RolesOf(t, tenant, membership)
    {
      ids := [];
      var pending := t.membershipRoles;
      while pending != {}
        invariant pending <= t.membershipRoles
        invariant forall id :: id in ids <==> MembershipRole(tenant, membership, id) in t.membershipRoles - pending
      {
        var a :| a in pending;
        pending := pending - {a};
        if a.tenant == tenant && a.membership == membership { ids := ids + [a.role]; }
      }
      forall id ensures id in Elements(ids) <==> id in RolesOf(t, tenant, membership) {
        assert id in RolesOf(t, tenant, membership) <==> MembershipRole(tenant, membership, id) in t.membershipRoles;
      }
    }

    /** The location roles of a membership whose role is ACTIVE. */
    method SelectAssignments(tenant: int, membership: int) returns (rows: seq<Authority.Assignment>)
      ensures Authority.AssignmentRows(t, tenant, membership, rows)
    {
      rows := [];
      var pending := t.locationRoles;
      while pending != {}
        invariant pending <= t.locationRoles
        invariant forall a: Authority.Assignment :: a in rows <==>
          && LocationRole(Grant(tenant, membership, a.location), a.role) in t.locationRoles - pending
          && IsActiveRole(t, tenant, a.role) && a.name == t.roles[a.role].name
      {
        var a :| a in pending;
        pending := pending - {a};
        if a.grant.tenant == tenant && a.grant.membership == membership && IsActiveRole(t, tenant, a.role) {
          rows := rows + [Authority.Assignment(a.grant.location, a.role, t.roles[a.role].name)];
        }
      }
    }

    /** The permission codes of the roles selected. */
    method SelectPermissions(assignments: seq<Authority.Assignment>) returns (rows: seq<Authority.ScopedPermission>)
      ensures Authority.PermissionRows(t, assignments, rows)
    {
      rows := [];
      var pending := t.rolePermissions;
      while pending != {}
        invariant pending <= t.rolePermissions
        invariant forall p: Authority.ScopedPermission :: p in rows <==>
          Authority.Selected(assignments, p.role) && CarriedBy(t, t.rolePermissions - pending, p.role, p.code)
      {
        var a :| a in pending;
        CarriedByMore(t, t.rolePermissions - pending, a);
        assert t.rolePermissions - (pending - {a}) == t.rolePermissions - pending + {a};
        pending := pending - {a};
        if (exists k :: 0 <= k < |assignments| && assignments[k].role == a.role) && a.permission in t.permissions {
          rows := rows + [Authority.ScopedPermission(a.role, t.permissions[a.permission])];
        }
      }
      assert t.rolePermissions - pending == t.rolePermissions;
      forall role, code ensures CarriedBy(t, t.rolePermissions, role, code) <==> Carries(t, role, code) {
      }
    }

  }

  lemma CarriedByMore(t: Tables, rows: set<RolePermission>, row: RolePermission)
    ensures forall role, code :: CarriedBy(t, rows + {row}, role, code) <==>
      CarriedBy(t, rows, role, code)
      || (role == row.role && row.permission in t.permissions && code == t.permissions[row.permission])
  {
  }

  // ---------- proofs ----------

  lemma RolesAdd(t: Tables, at: Grant, roles: set<int>, role: int)
    ensures WithRoles(t, at, roles + {role})
      == WithRoles(t, at, roles).(locationRoles := WithRoles(t, at, roles).locationRoles + {LocationRole(at, role)})
  {
  }

  /** After the backfill nobody gains or loses: at a granted location the resolver finds
      exactly the tenant-wide permissions, elsewhere nothing. */
  lemma JoinPreservesAuthority(t: Tables, at: Grant, code: string)
    requires IsJoin(t)
    ensures at in t.grants ==> (Permits(t, at, code) <==> PermitsInTenant(t, at.tenant, at.membership, code))
    ensures at !in t.grants ==> !HasRoleAt(t, at)
  {
  }

  /** The same for the context the resolver returns: one entry per granted location where the
      member has any ACTIVE tenant role, each with the whole of `context.permissions`. */
  lemma ContextAfterBackfill(t: Tables, c: Authority.Context)
    requires IsJoin(t) && Authority.Reflects(t, c.tenant, c.membership, c.authorities)
    requires forall code :: code in c.permissions <==> PermitsInTenant(t, c.tenant, c.membership, code)
    ensures forall k :: 0 <= k < |c.authorities| ==>
      && Grant(c.tenant, c.membership, c.authorities[k].location) in t.grants
      && c.authorities[k].permissions == c.permissions
    ensures forall l, r :: Grant(c.tenant, c.membership, l) in t.grants && TenantRole(t, c.tenant, c.membership, r) ==>
      exists k :: 0 <= k < |c.authorities| && c.authorities[k].location == l
  {
  }

  /** uq_membership_location_roles_membership_location_role: the join inserts no duplicate,
      since a membership has one tenant. */
  lemma JoinHasNoDuplicate(t: Tables, tenants: map<int, int>, a: LocationRole, b: LocationRole)
    requires forall g :: g in t.grants ==> g.membership in tenants && g.tenant == tenants[g.membership]
    requires a in Joined(t) && b in Joined(t)
    requires a.grant.membership == b.grant.membership && a.grant.location == b.grant.location && a.role == b.role
    ensures a == b
  {
  }

  lemma CreatorKeepsJoin(t: Tables, at: Grant)
    requires IsJoin(t) && IsNew(t, at.location)
    ensures IsJoin(WithRoles(t, at, RolesOf(t, at.tenant, at.membership)))
  {
  }

  /** A member who creates a location has there exactly the tenant-wide permissions, whatever
      the tables held before, and nobody's authority at another location changes. */
  lemma CreatorAuthority(t: Tables, at: Grant, code: string, other: Grant)
    requires IsNew(t, at.location)
    ensures var after := WithRoles(t, at, RolesOf(t, at.tenant, at.membership));
      && (Permits(after, at, code) <==> PermitsInTenant(after, at.tenant, at.membership, code))
      && (PermitsInTenant(after, other.tenant, other.membership, code) <==>
            PermitsInTenant(t, other.tenant, other.membership, code))
      && (other != at ==> (Permits(after, other, code) <==> Permits(t, other, code)))
      && (other != at ==> (HasRoleAt(after, other) <==> HasRoleAt(t, other)))
  {
  }

  /** For a member whose only role is `role`, the bootstrap's get-or-create writes what the
      creation of a location writes. */
  lemma BootstrapAgrees(t: Tables, at: Grant, role: int)
    requires RolesOf(t, at.tenant, at.membership) == {role}
    ensures WithRoles(t, at, {role}) == WithRoles(t, at, RolesOf(t, at.tenant, at.membership))
    ensures at in t.grants && IsJoin(t) ==> WithRoles(t, at, {role}) == t
  {
  }

  /** Two of the delegation errors cannot occur right after the actor created the location:
      the actor has every required permission there.  What can still fail is the target role. */
  lemma CreatorCanDelegate(t: Tables, at: Grant)
    requires IsNew(t, at.location)
    requires forall code :: code in REQUIRED ==> PermitsInTenant(t, at.tenant, at.membership, code)
    ensures var after := WithRoles(t, at, RolesOf(t, at.tenant, at.membership));
      HasRoleAt(after, at) && PermitsAll(after, at, REQUIRED)
  {
  }
}
