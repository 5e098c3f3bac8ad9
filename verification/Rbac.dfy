/** The role tables and what they mean: which permissions a membership has in its tenant and at
    each location. */
module Rbac {

  datatype Role = Role(tenant: int, name: string, active: bool)
  datatype RolePermission = RolePermission(role: int, permission: int)
  datatype MembershipRole = MembershipRole(tenant: int, membership: int, role: int)
  datatype Grant = Grant(tenant: int, membership: int, location: int)
  datatype LocationRole = LocationRole(grant: Grant, role: int)

  datatype Tables = Tables(
    roles: map<int, Role>,
    permissions: map<int, string>,
    rolePermissions: set<RolePermission>,
    membershipRoles: set<MembershipRole>,
    grants: set<Grant>,
    locationRoles: set<LocationRole>)

  /** The composite foreign keys: an assignment's role belongs to its tenant, and a location
      role needs a location grant of the same membership and tenant. */
  predicate KeysHold(t: Tables) {
    && (forall a :: a in t.membershipRoles ==> a.role in t.roles && t.roles[a.role].tenant == a.tenant)
    && (forall a :: a in t.locationRoles ==>
          a.role in t.roles && t.roles[a.role].tenant == a.grant.tenant && a.grant in t.grants)
  }

  /** An ACTIVE role of the tenant. */
  predicate IsActiveRole(t: Tables, tenant: int, role: int) {
    role in t.roles && t.roles[role].tenant == tenant && t.roles[role].active
  }

  predicate Carries(t: Tables, role: int, code: string) {
    exists p :: p in t.permissions && RolePermission(role, p) in t.rolePermissions && t.permissions[p] == code
  }

  predicate RoleAt(t: Tables, at: Grant, role: int) {
    LocationRole(at, role) in t.locationRoles && IsActiveRole(t, at.tenant, role)
  }

  predicate TenantRole(t: Tables, tenant: int, membership: int, role: int) {
    MembershipRole(tenant, membership, role) in t.membershipRoles && IsActiveRole(t, tenant, role)
  }

  predicate HasRoleAt(t: Tables, at: Grant) {
    exists r :: r in t.roles && RoleAt(t, at, r)
  }

  /** Permission `code` at a location: some ACTIVE role of the tenant, assigned there, carries it. */
  predicate Permits(t: Tables, at: Grant, code: string) {
    exists r :: r in t.roles && RoleAt(t, at, r) && Carries(t, r, code)
  }

  /** Permission `code` tenant-wide. */
  predicate PermitsInTenant(t: Tables, tenant: int, membership: int, code: string) {
    exists r :: r in t.roles && TenantRole(t, tenant, membership, r) && Carries(t, r, code)
  }
}
