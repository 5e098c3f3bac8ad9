/** provision_minimal_core as one transaction over the organization, role and run tables: what a
    successful call leaves, and that every other outcome leaves nothing. */
module Provisioning {
  import opened Manifest
  import opened Rbac
  import Headquarters
  import LocationRoles
  import Authority
  import opened AccessProvisioning
  import opened Sql
  import opened ProvisioningProtocol

  const ACTOR_REQUIRED: set<string> := {"organization.manage", "location.manage", "user.manage", "role.manage"}

  /** One call: the manifest, the staff account its fields and the password normalise to (None
      when that raises), the tenant's role named role_name, and the ids the database will hand
      out. */
  datatype Call = Call(
    manifest: ProvisioningManifest, account: Option<Account>, role: Option<int>, ids: Ids, staffMembership: int)

  datatype Outcome =
    | Done(ids: Ids, replayed: bool)
    | TenantIsNotActive | OperationConflict | ActorIsNotMember | ActorLacksPermissions | CodeExists
    | Conflicted                                                 // IntegrityError or AccessProvisioningError

  /** Permission codes of the ACTIVE roles among `ids`. */
  function ActiveCodes(t: Tables, tenant: int, ids: seq<int>): set<string> {
    set i, p | 0 <= i < |ids| && p in t.permissions && IsActiveRole(t, tenant, ids[i])
      && RolePermission(ids[i], p) in t.rolePermissions ::
      t.permissions[p]
  }

  lemma ActiveCodesMeaning(t: Tables, tenant: int, membership: int, ids: seq<int>, code: string)
    requires LocationRoles.Elements(ids) == LocationRoles.RolesOf(t, tenant, membership)
    ensures code in ActiveCodes(t, tenant, ids) <==> PermitsInTenant(t, tenant, membership, code)
  {
    forall r ensures MembershipRole(tenant, membership, r) in t.membershipRoles <==> r in ids {
      assert r in LocationRoles.Elements(ids) <==> r in LocationRoles.RolesOf(t, tenant, membership);
    }
    if PermitsInTenant(t, tenant, membership, code) {
      var r :| r in t.roles && TenantRole(t, tenant, membership, r) && Carries(t, r, code);
      var i :| 0 <= i < |ids| && ids[i] == r;
      var p :| p in t.permissions && RolePermission(ids[i], p) in t.rolePermissions && t.permissions[p] == code;
    }
    if code in ActiveCodes(t, tenant, ids) {
      var i, p :| 0 <= i < |ids| && p in t.permissions && IsActiveRole(t, tenant, ids[i])
        && RolePermission(ids[i], p) in t.rolePermissions && t.permissions[p] == code;
      assert TenantRole(t, tenant, membership, ids[i]) && Carries(t, ids[i], code);
    }
  }

  /** The whole committed store, as one value. */
  datatype Snapshot = Snapshot(
    registry: Headquarters.Store, identities: Authority.Identities, roles: Tables,
    runs: seq<RunRow>, codes: set<(nat, string)>)

  function At(q: Call): Grant {
    Grant(q.manifest.tenant, q.manifest.actor, q.ids.location)
  }

  function StaffAt(q: Call): Grant {
    Grant(q.manifest.tenant, q.staffMembership, q.ids.location)
  }

  /** What the staff step asks of access provisioning. */
  function AccessRequest(q: Call): Request {
    Request(q.manifest.tenant, q.manifest.actor, q.ids.staff, q.role, [Candidate(q.ids.organization, q.ids.location)])
  }

  /** The operation id of the headquarters change: 'hq-' and the digest's text. */
  function OperationText(digestText: Digest -> string, m: ProvisioningManifest): string {
    "hq-" + digestText(HeadquartersOperationOf(m.tenant, m.operation).digest)
  }

  function RunOf(q: Call): RunRow {
    var m := q.manifest;
    RunRow(m.tenant, m.operation, Fingerprint(m), q.ids)
  }

  function WithCore(r: Headquarters.Store, q: Call, operation: string): Headquarters.Store {
    Headquarters.AfterProvisioning(r, q.manifest.tenant, q.ids.organization, q.ids.location, operation)
  }

  function WithCreator(t: Tables, q: Call): Tables {
    LocationRoles.WithRoles(t, At(q), LocationRoles.RolesOf(t, q.manifest.tenant, q.manifest.actor))
  }

  function WithStaff(t: Tables, q: Call): Tables
    requires q.role.Some?
  {
    WithAccess(WithCreator(t, q), q.manifest.tenant, q.staffMembership, {q.ids.location}, q.role.value)
  }

  function WithStaffUser(ids: Authority.Identities, q: Call): Authority.Identities
    requires q.account.Some?
  {
    WithMember(WithUser(ids, q.ids.staff, q.account.value), AccessRequest(q), q.staffMembership)
  }

  /** What one successful call adds. */
  function AfterCall(before: Snapshot, q: Call, operation: string): Snapshot
    requires q.role.Some? && q.account.Some?
  {
    Snapshot(
      WithCore(before.registry, q, operation),
      WithStaffUser(before.identities, q),
      WithStaff(before.roles, q),
      before.runs + [RunOf(q)],
      before.codes + {(q.manifest.tenant, q.manifest.organizationCode)})
  }

  /** An ACTIVE member of the tenant who holds all four provisioning permissions tenant-wide. */
  predicate ActorMayProvision(ids: Authority.Identities, t: Tables, m: ProvisioningManifest) {
    ActsIn(ids, m.tenant, m.actor) && forall code :: code in ACTOR_REQUIRED ==>
      PermitsInTenant(t, m.tenant, m.actor, code)
  }

  /** The account is free, the actor's user ACTIVE, and the target role an ACTIVE role of the
      tenant, none of whose permissions exceeds the actor's. */
  predicate CanWriteStaff(ids: Authority.Identities, t: Tables, q: Call) {
    var m := q.manifest;
    && AccountIsFree(ids, q.account)
    && m.actor in ids.memberships && IsActiveUser(ids, ids.memberships[m.actor].user)
    && q.role.Some? && IsActiveRole(t, m.tenant, q.role.value)
    && forall code :: code in LocationRoles.CodesOf(t, q.role.value) ==> PermitsInTenant(t, m.tenant, m.actor, code)
  }

  /** uq_minimal_provisioning_runs on tenant and operation. */
  predicate RunsDiffer(runs: seq<RunRow>) {
    forall j, k :: 0 <= j < k < |runs| ==> RowsDiffer(runs[j], runs[k])
  }

  predicate HasRunOf(runs: seq<RunRow>, m: ProvisioningManifest) {
    exists row :: row in runs && IsRunOf(row, m)
  }

  /** The call gets as far as authorising its actor. */
  predicate IsNewRun(before: Snapshot, m: ProvisioningManifest) {
    IsActiveTenant(before.identities, m.tenant) && !HasRunOf(before.runs, m)
  }

  predicate Creates(r: Outcome) {
    r.Done? && !r.replayed
  }

  /** When a call creates, in terms of the tables before it. */
  predicate CanCreate(before: Snapshot, q: Call, operation: string) {
    && IsNewRun(before, q.manifest)
    && ActorMayProvision(before.identities, before.roles, q.manifest)
    && (q.manifest.tenant, q.manifest.organizationCode) !in before.codes
    && !Headquarters.OperationTaken(before.registry, q.manifest.tenant, operation)
    && CanWriteStaff(before.identities, before.roles, q)
  }

  class Provisioner {
    const registry: Headquarters.Registry
    const access: AccessService
    var runs: seq<RunRow>
    var codes: set<(nat, string)>

    constructor (registry: Headquarters.Registry, access: AccessService)
      ensures this.registry == registry && this.access == access && runs == [] && codes == {}
    {
      this.registry, this.access, runs, codes := registry, access, [], {};
    }

    function Snap(): Snapshot
      reads this, registry, access, access.roles
    {
      Snapshot(registry.s, access.ids, access.roles.t, runs, codes)
    }

    /** The constraints of all tables. */
    ghost predicate Valid(origin: Headquarters.Origin)
      reads this, registry, access, access.roles
    {
      && Headquarters.Inv(registry.s, origin) && KeysHold(access.roles.t) && IdentitiesHold(access.ids)
      && RunsDiffer(runs)
    }

    /** Ids handed out by the database are positive and new everywhere. */
    predicate IdsAreNew(q: Call)
      reads this, registry, access, access.roles
    {
      && q.ids.organization > 0 && Headquarters.IsFreshOrganization(registry.s, q.ids.organization)
      && q.ids.location > 0 && q.ids.location !in registry.s.locations
      && LocationRoles.IsNew(access.roles.t, q.ids.location)
      && q.ids.staff !in access.ids.users && q.staffMembership !in access.ids.memberships
      && LocationRoles.IsNewMember(access.roles.t, q.staffMembership)
    }

    method Rollback(before: Snapshot)
      modifies `runs, `codes, registry, access`ids, access.roles`t
      ensures Snap() == before
    {
      registry.s, access.ids, access.roles.t := before.registry, before.identities, before.roles;
      runs, codes := before.runs, before.codes;
    }

    /** The run lookup: a replay of the same manifest, or a conflict. */
    method FindRun(m: ProvisioningManifest) returns (found: Option<RunRow>)
      ensures found.Some? ==> found.value in runs && IsRunOf(found.value, m)
      ensures found.None? ==> forall r :: r in runs ==> !IsRunOf(r, m)
    {
      for k := 0 to |runs|
        invariant forall j :: 0 <= j < k ==> !IsRunOf(runs[j], m)
      {
        if runs[k].tenant == m.tenant && runs[k].operation == m.operation { return Some(runs[k]); }
      }
      found := None;
    }

    /** The ids of the actor's roles, when it may provision. */
    method AuthorizeActor(m: ProvisioningManifest) returns (why: Option<Outcome>, roleIds: seq<int>)
      ensures why == (if !ActsIn(access.ids, m.tenant, m.actor) then Some(ActorIsNotMember)
        else if !ActorMayProvision(access.ids, access.roles.t, m) then Some(ActorLacksPermissions) else None)
      ensures why.None? ==>
        LocationRoles.Elements(roleIds) == LocationRoles.RolesOf(access.roles.t, m.tenant, m.actor)
    {
      if m.actor !in access.ids.memberships { return Some(ActorIsNotMember), []; }
      var actor := access.ids.memberships[m.actor];
      if actor.tenant != m.tenant || !actor.active { return Some(ActorIsNotMember), []; }
      roleIds := access.roles.SelectRoleIds(m.tenant, m.actor);
      var codes := ActiveCodes(access.roles.t, m.tenant, roleIds);
      forall code ensures code in codes <==> PermitsInTenant(access.roles.t, m.tenant, m.actor, code) {
        ActiveCodesMeaning(access.roles.t, m.tenant, m.actor, roleIds, code);
      }
      why := if ACTOR_REQUIRED <= codes then None else Some(ActorLacksPermissions);
    }

    /** Organization, location, headquarters, the actor's grant and roles, activation. */
    method WriteCore(q: Call, roleIds: seq<int>, operation: string, ghost origin: Headquarters.Origin)
      returns (ok: bool)
      requires Valid(origin) && IdsAreNew(q)
      requires LocationRoles.Elements(roleIds)
        == LocationRoles.RolesOf(access.roles.t, q.manifest.tenant, q.manifest.actor)
      modifies this`codes, registry, access.roles`t
      ensures Valid(origin)
      ensures ok <==> !Headquarters.OperationTaken(old(registry.s), q.manifest.tenant, operation)
      ensures ok ==>
        && registry.s == WithCore(old(registry.s), q, operation)
        && access.roles.t == WithCreator(old(access.roles.t), q)
        && codes == old(codes) + {(q.manifest.tenant, q.manifest.organizationCode)}
      ensures ok && old(LocationRoles.IsJoin(access.roles.t)) ==> LocationRoles.IsJoin(access.roles.t)
    {
      var core := registry.ProvisionCore(q.manifest.tenant, q.ids.organization, q.ids.location, operation, origin);
      ok := core.Ok?;
      if ok {
        codes := codes + {(q.manifest.tenant, q.manifest.organizationCode)};
        access.roles.GrantCreator(At(q), roleIds);
      }
    }

    /** The staff account and its access at the new location. */
    method WriteStaff(q: Call, ghost registered: Headquarters.Store, ghost before: Tables, operation: string)
      returns (ok: bool)
      requires IdentitiesHold(access.ids) && KeysHold(access.roles.t) && IsActiveTenant(access.ids, q.manifest.tenant)
      requires q.ids.staff !in access.ids.users && q.staffMembership !in access.ids.memberships
      requires LocationRoles.IsNew(before, q.ids.location) && LocationRoles.IsNewMember(before, q.staffMembership)
      requires q.ids.organization > 0 && q.ids.location > 0
      requires ActorMayProvision(access.ids, before, q.manifest)
      requires access.roles.t == WithCreator(before, q) && registry.s == WithCore(registered, q, operation)
      modifies access`ids, access.roles`t
      ensures IdentitiesHold(access.ids) && KeysHold(access.roles.t)
      ensures ok <==> CanWriteStaff(old(access.ids), before, q)
      ensures ok ==>
        && access.ids == WithStaffUser(old(access.ids), q)
        && access.roles.t == WithStaff(before, q)
    {
      DelegationDecides(access.ids, registered, before, q, operation);
      OneLocation(q);
      var staff := ProvisionStaffAccount(access, registry.s, q.account, AccessRequest(q), q.staffMembership);
      ok := staff.Access? && staff.answer.Provisioned?;
    }

    /** Everything after authorisation, up to the commit. */
    method Write(q: Call, roleIds: seq<int>, operation: string, ghost origin: Headquarters.Origin) returns (ok: bool)
      requires Valid(origin) && IdsAreNew(q) && IsActiveTenant(access.ids, q.manifest.tenant)
      requires LocationRoles.Elements(roleIds)
        == LocationRoles.RolesOf(access.roles.t, q.manifest.tenant, q.manifest.actor)
      requires ActorMayProvision(access.ids, access.roles.t, q.manifest) && !HasRunOf(runs, q.manifest)
      modifies this`runs, this`codes, registry, access`ids, access.roles`t
      ensures Valid(origin)
      ensures ok <==>
        && !Headquarters.OperationTaken(old(registry.s), q.manifest.tenant, operation)
        && CanWriteStaff(old(access.ids), old(access.roles.t), q)
      ensures ok ==> Snap() == AfterCall(old(Snap()), q, operation)
      ensures ok && old(LocationRoles.IsJoin(access.roles.t)) ==> LocationRoles.IsJoin(access.roles.t)
    {
      ghost var registered, before := registry.s, access.roles.t;
      ok := WriteCore(q, roleIds, operation, origin);
      if ok { ok := WriteStaff(q, registered, before, operation); }
      ghost var granted := WithCreator(before, q);
      if ok && LocationRoles.IsJoin(granted) {
        NewMemberKeepsJoin(granted, q.manifest.tenant, q.staffMembership, {q.ids.location}, q.role.value);
      }
      if ok {
        OneMoreRun(runs, q);
        runs := runs + [RunOf(q)];
      }
    }

    /** provision_minimal_core.  Replays, conflicts and every error leave the store as it was. */
    method Provision(q: Call, digestText: Digest -> string, ghost origin: Headquarters.Origin) returns (r: Outcome)
      requires Valid(origin) && IdsAreNew(q)
      modifies this`runs, this`codes, registry, access`ids, access.roles`t
      ensures Valid(origin)
      ensures Creates(r) ==> q.role.Some? && q.account.Some? && r.ids == q.ids
      ensures Creates(r) ==> Snap() == AfterCall(old(Snap()), q, OperationText(digestText, q.manifest))
      ensures !Creates(r) ==> Snap() == old(Snap())
      ensures r.TenantIsNotActive? <==> !IsActiveTenant(old(access.ids), q.manifest.tenant)
      ensures forall row :: row in old(runs) && IsRunOf(row, q.manifest) && !r.TenantIsNotActive? ==>
        r == if row.fingerprint == Fingerprint(q.manifest) then Done(row.ids, true) else OperationConflict
      ensures (r.Done? && r.replayed) || r.OperationConflict? ==> HasRunOf(old(runs), q.manifest)
      ensures r.ActorIsNotMember? <==>
        IsNewRun(old(Snap()), q.manifest) && !ActsIn(old(access.ids), q.manifest.tenant, q.manifest.actor)
      ensures r.ActorLacksPermissions? <==>
        IsNewRun(old(Snap()), q.manifest) && ActsIn(old(access.ids), q.manifest.tenant, q.manifest.actor)
        && !ActorMayProvision(old(access.ids), old(access.roles.t), q.manifest)
      ensures r.CodeExists? <==>
        IsNewRun(old(Snap()), q.manifest) && ActorMayProvision(old(access.ids), old(access.roles.t), q.manifest)
        && (q.manifest.tenant, q.manifest.organizationCode) in old(codes)
      ensures Creates(r) <==> CanCreate(old(Snap()), q, OperationText(digestText, q.manifest))
      ensures r.Done? && old(LocationRoles.IsJoin(access.roles.t)) ==> LocationRoles.IsJoin(access.roles.t)
    {
      var tenants := access.ids.tenants;
      if q.manifest.tenant !in tenants || !tenants[q.manifest.tenant].active { return TenantIsNotActive; }
      var found := FindRun(q.manifest);
      if found.Some? {
        if found.value.fingerprint != Fingerprint(q.manifest) { return OperationConflict; }
        return Done(found.value.ids, true);
      }
      var why, roleIds := AuthorizeActor(q.manifest);
      if why.Some? { return why.value; }
      if (q.manifest.tenant, q.manifest.organizationCode) in codes { return CodeExists; }
      var before := Snap();
      var ok := Write(q, roleIds, OperationText(digestText, q.manifest), origin);
      if !ok {
        Rollback(before);
        return Conflicted;
      }
      r := Done(q.ids, false);
    }
  }

  // ---------- proofs ----------

  /** Of all that access provisioning asks for, only the account, the actor's user and the
      target role are left to decide: the rest holds because the call has just created it. */
  lemma DelegationDecides(
      ids: Authority.Identities, registered: Headquarters.Store, t: Tables, q: Call, operation: string)
    requires IdentitiesHold(ids) && q.ids.staff !in ids.users && q.staffMembership !in ids.memberships
    requires IsActiveTenant(ids, q.manifest.tenant) && ActorMayProvision(ids, t, q.manifest)
    requires LocationRoles.IsNew(t, q.ids.location) && q.ids.organization > 0 && q.ids.location > 0
    ensures AccountIsFree(ids, q.account) ==> (
      CanProvision(WithCore(registered, q, operation), WithUser(ids, q.ids.staff, q.account.value),
                   WithCreator(t, q), AccessRequest(q))
      <==> CanWriteStaff(ids, t, q))
    ensures forall code :: Permits(WithCreator(t, q), At(q), code) <==>
      PermitsInTenant(t, q.manifest.tenant, q.manifest.actor, code)
  {
    if AccountIsFree(ids, q.account) {
      NewUserHolds(ids, q.ids.staff, q.account);
      LocationDecides(registered, t, q, operation);
    }
  }

  lemma OneLocation(q: Call)
    ensures Locations(AccessRequest(q).candidates) == {q.ids.location}
  {
    assert AccessRequest(q).candidates[0].location == q.ids.location;
  }

  /** The location's part: created, it is ACTIVE, the actor has a role there, and there the
      tenant-wide permissions. */
  lemma LocationDecides(registered: Headquarters.Store, t: Tables, q: Call, operation: string)
    requires LocationRoles.IsNew(t, q.ids.location)
    requires forall code :: code in ACTOR_REQUIRED ==> PermitsInTenant(t, q.manifest.tenant, q.manifest.actor, code)
    ensures q.role.Some? ==> (
      NoObjection(WithCore(registered, q, operation), WithCreator(t, q), AccessRequest(q), q.role.value)
      <==> forall code :: code in LocationRoles.CodesOf(t, q.role.value) ==>
        PermitsInTenant(t, q.manifest.tenant, q.manifest.actor, code))
  {
    LocationRoles.CreatorCanDelegate(t, At(q));
    forall code
      ensures Permits(WithCreator(t, q), At(q), code) <==> PermitsInTenant(t, q.manifest.tenant, q.manifest.actor, code)
    {
      LocationRoles.CreatorAuthority(t, At(q), code, At(q));
    }
    if q.role.Some? {
      var granted, c := WithCreator(t, q), AccessRequest(q).candidates[0];
      assert LocationRoles.CodesOf(granted, q.role.value) == LocationRoles.CodesOf(t, q.role.value);
      assert IsActivePlace(WithCore(registered, q, operation), q.manifest.tenant, c);
      assert Objection(WithCore(registered, q, operation), granted, AccessRequest(q), q.role.value, c).None?
        <==> LocationRoles.PermitsAll(granted, At(q), LocationRoles.CodesOf(granted, q.role.value));
    }
  }

  /** With digests of distinct texts distinct, no provisioning call finds its headquarters
      operation id taken by another tenant's or another operation's call. */
  lemma OperationTextsDiffer(digestText: Digest -> string, a: ProvisioningManifest, b: ProvisioningManifest)
    requires forall d, e :: digestText(d) == digestText(e) ==> d == e
    ensures OperationText(digestText, a) == OperationText(digestText, b) <==>
      a.tenant == b.tenant && a.operation == b.operation
  {
    var x := HeadquartersOperationOf(a.tenant, a.operation);
    var y := HeadquartersOperationOf(b.tenant, b.operation);
    if OperationText(digestText, a) == OperationText(digestText, b) {
      assert OperationText(digestText, a)[3..] == digestText(x.digest);
      assert OperationText(digestText, b)[3..] == digestText(y.digest);
    }
    HeadquartersOperationIdentifies(a.tenant, a.operation, b.tenant, b.operation);
  }

  /** After a call that creates, the same manifest finds its run: Provision then answers
      Done(q.ids, true), whatever other runs are stored. */
  lemma RepeatIsReplayed(before: Snapshot, q: Call, operation: string)
    requires CanCreate(before, q, operation) && RunsDiffer(before.runs)
    ensures var runs := AfterCall(before, q, operation).runs;
      && RunsDiffer(runs) && HasRunOf(runs, q.manifest)
      && (forall row :: row in runs && IsRunOf(row, q.manifest) ==>
            row.ids == q.ids && row.fingerprint == Fingerprint(q.manifest))
      && (forall row :: row in before.runs ==> row in runs)
  {
    OneMoreRun(before.runs, q);
  }

  lemma OneMoreRun(runs: seq<RunRow>, q: Call)
    requires RunsDiffer(runs) && !HasRunOf(runs, q.manifest)
    ensures var all := runs + [RunOf(q)];
      && RunsDiffer(all) && HasRunOf(all, q.manifest)
      && (forall row :: row in all && IsRunOf(row, q.manifest) ==> row == RunOf(q))
      && (forall row :: row in runs ==> row in all)
  {
    var all := runs + [RunOf(q)];
    assert all[|runs|] == RunOf(q) && RunOf(q) in all && IsRunOf(RunOf(q), q.manifest);
    forall row | row in all && IsRunOf(row, q.manifest) ensures row == RunOf(q) {
      assert row in runs ==> HasRunOf(runs, q.manifest);
    }
    forall j | 0 <= j < |runs| ensures RowsDiffer(runs[j], RunOf(q)) {
      assert runs[j] in runs && !IsRunOf(runs[j], q.manifest);
    }
  }

  /** What the new tables mean for authority: the actor has exactly the tenant-wide permissions
      at the new location, the new staff member exactly the role's and never more than the
      actor, and everybody else what they had. */
  lemma ProvisionedAuthority(before: Snapshot, q: Call, operation: string, code: string, other: Grant)
    requires LocationRoles.IsNew(before.roles, q.ids.location)
    requires LocationRoles.IsNewMember(before.roles, q.staffMembership) && q.staffMembership != q.manifest.actor
    requires CanWriteStaff(before.identities, before.roles, q)
    ensures var t := AfterCall(before, q, operation).roles;
      && (Permits(t, At(q), code) <==> PermitsInTenant(before.roles, q.manifest.tenant, q.manifest.actor, code))
      && (Permits(t, StaffAt(q), code) <==> Carries(before.roles, q.role.value, code))
      && (PermitsInTenant(t, q.manifest.tenant, q.staffMembership, code) <==> Carries(before.roles, q.role.value, code))
      && (Permits(t, StaffAt(q), code) ==> Permits(t, At(q), code))
      && (other != At(q) && other.membership != q.staffMembership ==>
            (Permits(t, other, code) <==> Permits(before.roles, other, code)))
  {
    var granted := WithCreator(before.roles, q);
    LocationRoles.CreatorAuthority(before.roles, At(q), code, At(q));
    LocationRoles.CreatorAuthority(before.roles, At(q), code, other);
    LocationRoles.CreatorAuthority(before.roles, At(q), code, StaffAt(q));
    AccessAuthority(granted, q.manifest.tenant, q.staffMembership, {q.ids.location}, q.role.value, code, At(q));
    AccessAuthority(granted, q.manifest.tenant, q.staffMembership, {q.ids.location}, q.role.value, code, StaffAt(q));
    AccessAuthority(granted, q.manifest.tenant, q.staffMembership, {q.ids.location}, q.role.value, code, other);
    assert code in LocationRoles.CodesOf(before.roles, q.role.value) <==> Carries(before.roles, q.role.value, code);
  }
}
