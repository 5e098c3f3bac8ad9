/** The operational profile reconciler: it makes the permissions of each operational role match
    a contract and counts what it changed. */
module Profiles {
  import opened Sql
  import opened Rbac

  /** One entry of OPERATIONAL_PROFILE_PERMISSIONS, under its role's name. */
  datatype Profile = Profile(roleName: string, codes: set<string>)

  datatype Outcome =
    | Reconciled(rolesCreated: nat, linksAdded: nat, linksRemoved: nat)
    | CatalogIncomplete | DuplicateRole | RoleNotActive    // RuntimeError; the transaction is rolled back

  /** uq_roles_tenant_name, uq_permissions_code and the foreign keys of role_permissions. */
  predicate SchemaHolds(t: Tables) {
    && (forall a, b :: a in t.roles && b in t.roles && a != b ==>
          !(t.roles[a].tenant == t.roles[b].tenant && t.roles[a].name == t.roles[b].name))
    && (forall p, q :: p in t.permissions && q in t.permissions && p != q ==> t.permissions[p] != t.permissions[q])
    && (forall l :: l in t.rolePermissions ==> l.role in t.roles && l.permission in t.permissions)
  }

  /** The next auto-increment values are past every id. */
  predicate IdsBelow(t: Tables, nextRole: int, nextPermission: int) {
    (forall r :: r in t.roles ==> r < nextRole) && (forall p :: p in t.permissions ==> p < nextPermission)
  }

  predicate DistinctNames(contract: seq<Profile>) {
    forall j, k :: 0 <= j < k < |contract| ==> contract[j].roleName != contract[k].roleName
  }

  function Links(rows: set<RolePermission>, role: int): set<RolePermission> {
    set l | l in rows && l.role == role
  }

  /** The links a role must have, with the permission ids the catalogue gives. */
  function Required(byCode: map<string, int>, role: int, codes: set<string>): set<RolePermission> {
    set c | c in codes && c in byCode :: RolePermission(role, byCode[c])
  }

  /** Links of one existing role to existing permissions. */
  predicate LinksOf(t: Tables, role: int, links: set<RolePermission>) {
    role in t.roles && forall l :: l in links ==> l.role == role && l.permission in t.permissions
  }

  /** One role's links replaced, everybody else's kept. */
  function Synced(rows: set<RolePermission>, role: int, required: set<RolePermission>): set<RolePermission> {
    (rows - Links(rows, role)) + required
  }

  /** How many links `after` has that `before` has not. */
  function Gained(before: set<RolePermission>, after: set<RolePermission>): nat {
    |after - before|
  }

  /** `byCode` finds existing permissions by their code. */
  predicate IsCatalog(t: Tables, byCode: map<string, int>) {
    forall c :: c in byCode ==> byCode[c] in t.permissions && t.permissions[byCode[c]] == c
  }

  predicate IsProfileRole(t: Tables, tenant: int, p: Profile, role: int) {
    role in t.roles && t.roles[role] == Role(tenant, p.roleName, true)
  }

  /** Exactly the contract: the role exists, is ACTIVE and carries the profile's codes and no other. */
  predicate Matches(t: Tables, tenant: int, p: Profile) {
    exists role :: role in t.roles && IsProfileRole(t, tenant, p, role) && CodesCarried(t, role) == p.codes
  }

  function CodesCarried(t: Tables, role: int): set<string> {
    set p | p in t.permissions && RolePermission(role, p) in t.rolePermissions :: t.permissions[p]
  }

  predicate IsCurrent(t: Tables, tenant: int, contract: seq<Profile>) {
    forall k :: 0 <= k < |contract| ==> Matches(t, tenant, contract[k])
  }

  datatype Resolved = NoInstallation | MultipleInstallations | Installation(tenant: int)

  predicate Identifies(t: Tables, names: set<string>, tenant: int) {
    exists id :: id in t.roles && t.roles[id].name in names && t.roles[id].tenant == tenant
  }

  lemma RoleIdentifies(t: Tables, names: set<string>, id: int)
    requires id in t.roles && t.roles[id].name in names
    ensures Identifies(t, names, t.roles[id].tenant)
  {
  }

  predicate AnyInactive(t: Tables, tenant: int, contract: seq<Profile>) {
    exists k :: 0 <= k < |contract| && HasInactive(t, tenant, contract[k])
  }

  /** A successful run: every profile's role exists, is ACTIVE and carries exactly its codes; no
      other role changed; the counters are the summed difference sizes. */
  ghost predicate Reconciles(
    before: Tables, t: Tables, tenant: int, contract: seq<Profile>, roles: seq<int>, byCode: map<string, int>,
    r: Outcome)
  {
    && IsCurrent(t, tenant, contract)
    && SyncedUpTo(before.(permissions := t.permissions), t, tenant, contract, roles, byCode)
    && Counts(before, t, tenant, contract, r)
    && IsCatalog(t, byCode) && byCode.Keys == AllCodes(contract) && CodesIn(t) == CodesIn(before) + AllCodes(contract)
  }

  /** The profile loop so far: each profile seen has its ACTIVE role with exactly the required
      links; every other role, and every role's row that was there, is as before. */
  ghost predicate SyncedUpTo(
    before: Tables, t: Tables, tenant: int, contract: seq<Profile>, roles: seq<int>, byCode: map<string, int>)
  {
    && |roles| == |contract| && t == before.(roles := t.roles, rolePermissions := t.rolePermissions)
    && (forall k :: 0 <= k < |roles| ==>
          IsProfileRole(t, tenant, contract[k], roles[k])
          && Links(t.rolePermissions, roles[k]) == Required(byCode, roles[k], contract[k].codes))
    && (forall r :: r in before.roles ==> r in t.roles && t.roles[r] == before.roles[r])
    && (forall r :: r in t.roles && r !in before.roles ==> r in roles)
    && ((forall r :: r in roles ==> r in before.roles) ==> t.roles == before.roles)
    && (forall r :: r !in roles ==> Links(t.rolePermissions, r) == Links(before.rolePermissions, r))
  }

  function CodesIn(t: Tables): set<string> {
    set p | p in t.permissions :: t.permissions[p]
  }

  function AllCodes(contract: seq<Profile>): set<string> {
    set k, c | 0 <= k < |contract| && c in contract[k].codes :: c
  }

  /** How many profiles have no role yet. */
  function Unnamed(t: Tables, tenant: int, contract: seq<Profile>): nat {
    if contract == [] then 0
    else Unnamed(t, tenant, contract[..|contract|-1]) + (if HasNamed(t, tenant, contract[|contract|-1]) then 0 else 1)
  }

  /** Permissions with these codes were added, and nothing else changed. */
  predicate CatalogGrown(
      before: Tables, t: Tables, found: map<string, int>, byCode: map<string, int>, added: set<string>)
  {
    && t == before.(permissions := t.permissions)
    && (forall p :: p in before.permissions ==> p in t.permissions && t.permissions[p] == before.permissions[p])
    && CodesIn(t) == CodesIn(before) + added
    && IsCatalog(t, byCode) && byCode.Keys == found.Keys + added
  }

  function WithPermission(t: Tables, id: int, code: string): Tables {
    t.(permissions := t.permissions[id := code])
  }

  /** The counters are the net change of the link table and the number of missing roles. */
  predicate Counts(before: Tables, t: Tables, tenant: int, contract: seq<Profile>, r: Outcome) {
    && r.Reconciled?
    && r.linksAdded == Gained(before.rolePermissions, t.rolePermissions)
    && r.linksRemoved == Gained(t.rolePermissions, before.rolePermissions)
    && r.rolesCreated == Unnamed(before, tenant, contract)
  }

  predicate HasNamed(t: Tables, tenant: int, p: Profile) {
    exists r :: r in t.roles && t.roles[r].tenant == tenant && t.roles[r].name == p.roleName
  }

  predicate HasInactive(t: Tables, tenant: int, p: Profile) {
    exists r :: r in t.roles && t.roles[r] == Role(tenant, p.roleName, false)
  }

  function WithRole(t: Tables, tenant: int, p: Profile, role: int): Tables {
    t.(roles := t.roles[role := Role(tenant, p.roleName, true)])
  }

  /** One profile made current. */
  function SyncedTables(t: Tables, tenant: int, p: Profile, role: int, byCode: map<string, int>): Tables {
    WithRole(t, tenant, p, role).(rolePermissions := Synced(t.rolePermissions, role, Required(byCode, role, p.codes)))
  }

  function SumGained(a: set<RolePermission>, b: set<RolePermission>, roles: seq<int>): nat {
    if roles == [] then 0
    else SumGained(a, b, roles[..|roles|-1]) + Gained(Links(a, roles[|roles|-1]), Links(b, roles[|roles|-1]))
  }

  /** The same entry n times. */
  function Copies(n: nat, entry: string): (copies: seq<string>)
    ensures |copies| == n && forall i :: 0 <= i < n ==> copies[i] == entry
  {
    seq(n, _ => entry)
  }

  lemma OneMoreCopy(n: nat, entry: string)
    ensures Copies(n + 1, entry) == Copies(n, entry) + [entry]
  {
  }

  class Reconciler {
    var t: Tables
    var nextRole: int
    var nextPermission: int

    constructor (t: Tables, nextRole: int, nextPermission: int)
      ensures this.t == t && this.nextRole == nextRole && this.nextPermission == nextPermission
    {
      this.t, this.nextRole, this.nextPermission := t, nextRole, nextPermission;
    }

    predicate Valid()
      reads this
    {
      SchemaHolds(t) && IdsBelow(t, nextRole, nextPermission)
    }

    /** SELECT DISTINCT tenant_id ... WHERE name IN (names). */
    method SelectTenants(names: set<string>) returns (tenants: seq<int>)
      ensures forall tenant :: tenant in tenants <==> Identifies(t, names, tenant)
      ensures forall i, j :: 0 <= i < j < |tenants| ==> tenants[i] != tenants[j]
    {
      tenants := [];
      var pending := t.roles.Items;
      while pending != {}
        invariant pending <= t.roles.Items
        invariant forall id :: id in t.roles && t.roles[id].name in names && (id, t.roles[id]) !in pending ==>
          t.roles[id].tenant in tenants
        invariant forall tenant :: tenant in tenants ==> Identifies(t, names, tenant)
        invariant forall i, j :: 0 <= i < j < |tenants| ==> tenants[i] != tenants[j]
        decreases pending
      {
        var row :| row in pending;
        var id: int, role: Role := row.0, row.1;
        assert id in t.roles && t.roles[id] == role;
        pending := pending - {row};
        if role.name in names && role.tenant !in tenants {
          RoleIdentifies(t, names, id);
          tenants := tenants + [role.tenant];
        }
      }
    }

    /** resolve_operational_tenant_id: the one tenant that has any of the operational roles. */
    method ResolveTenant(names: set<string>) returns (r: Resolved)
      ensures r.NoInstallation? ==> forall tenant :: !Identifies(t, names, tenant)
      ensures r.Installation? ==> forall tenant :: Identifies(t, names, tenant) <==> tenant == r.tenant
      ensures r.MultipleInstallations? ==> exists a, b :: a != b && Identifies(t, names, a) && Identifies(t, names, b)
    {
      var tenants := SelectTenants(names);
      if |tenants| == 0 { return NoInstallation; }
      assert tenants[0] in tenants;
      if |tenants| != 1 {
        assert tenants[1] in tenants && tenants[0] != tenants[1];
        return MultipleInstallations;
      }
      r := Installation(tenants[0]);
    }

    /** Ids of the tenant's roles with one name. */
    method SelectRoles(tenant: int, name: string) returns (ids: seq<int>)
      ensures forall id :: id in ids <==> id in t.roles && t.roles[id].tenant == tenant && t.roles[id].name == name
      ensures forall i, j :: 0 <= i < j < |ids| ==> ids[i] != ids[j]
    {
      ids := [];
      var pending := t.roles.Items;
      while pending != {}
        invariant pending <= t.roles.Items
        invariant forall id :: id in ids <==>
          id in t.roles && (id, t.roles[id]) !in pending && t.roles[id].tenant == tenant && t.roles[id].name == name
        invariant forall i, j :: 0 <= i < j < |ids| ==> ids[i] != ids[j]
      {
        var row :| row in pending;
        pending := pending - {row};
        if row.1.tenant == tenant && row.1.name == name { ids := ids + [row.0]; }
      }
    }

    method AddLinks(links: set<RolePermission>) returns (count: nat)
      modifies `t
      ensures t == old(t).(rolePermissions := old(t).rolePermissions + links) && count == |links|
    {
      count := 0;
      var pending := links;
      ghost var done: set<RolePermission> := {};
      while pending != {}
        invariant done + pending == links && done !! pending && count == |done|
        invariant t == old(t).(rolePermissions := old(t).rolePermissions + done)
        decreases pending
      {
        var l :| l in pending;
        t, count, pending := t.(rolePermissions := t.rolePermissions + {l}), count + 1, pending - {l};
        done := done + {l};
      }
      assert done == links;
    }

    method RemoveLinks(links: set<RolePermission>) returns (count: nat)
      modifies `t
      ensures t == old(t).(rolePermissions := old(t).rolePermissions - links) && count == |links|
    {
      count := 0;
      var pending := links;
      ghost var done: set<RolePermission> := {};
      while pending != {}
        invariant done + pending == links && done !! pending && count == |done|
        invariant t == old(t).(rolePermissions := old(t).rolePermissions - done)
        decreases pending
      {
        var l :| l in pending;
        t, count, pending := t.(rolePermissions := t.rolePermissions - {l}), count + 1, pending - {l};
        done := done + {l};
      }
      assert done == links;
    }

    /** The reconciler's two loops: adds the missing links, then deletes the stale ones. */
    method SyncLinks(role: int, required: set<RolePermission>, ghost rows: set<RolePermission>)
      returns (added: nat, removed: nat)
      requires LinksOf(t, role, required) && t.rolePermissions == rows
      modifies `t
      ensures t == old(t).(rolePermissions := Synced(rows, role, required))
      ensures added == Gained(rows, t.rolePermissions) && removed == Gained(t.rolePermissions, rows)
    {
      var existing := Links(t.rolePermissions, role);
      SyncedByDifferences(t.rolePermissions, role, required);
      added := AddLinks(required - existing);
      removed := RemoveLinks(existing - required);
    }

    /** Both loops keep the schema, whatever other role's links are stored. */
    method ReplaceLinks(role: int, required: set<RolePermission>, ghost rows: set<RolePermission>)
      returns (added: nat, removed: nat)
      requires Valid() && LinksOf(t, role, required) && t.rolePermissions == rows
      modifies `t
      ensures Valid() && t == old(t).(rolePermissions := Synced(rows, role, required))
      ensures added == Gained(rows, t.rolePermissions) && removed == Gained(t.rolePermissions, rows)
    {
      ghost var synced := t.(rolePermissions := Synced(rows, role, required));
      SyncKeepsSchema(t, role, required, synced, nextRole, nextPermission);
      added, removed := SyncLinks(role, required, rows);
      assert t == synced;
    }

    /** The bootstrap's loop: each permission in turn, adding its link unless it is there. */
    method AddMissing(roleCode: string, required: set<RolePermission>) returns (created: seq<string>)
      modifies `t
      ensures t == old(t).(rolePermissions := old(t).rolePermissions + required)
      ensures created == Copies(|required - old(t).rolePermissions|, roleCode + ":role_permission")
    {
      created := [];
      var pending := required;
      ghost var done: set<RolePermission> := {};
      while pending != {}
        invariant done + pending == required && done !! pending
        invariant t == old(t).(rolePermissions := old(t).rolePermissions + done)
        invariant created == Copies(|done - old(t).rolePermissions|, roleCode + ":role_permission")
        decreases pending
      {
        var l :| l in pending;
        OneMore(done, l, old(t).rolePermissions);
        OneMoreCopy(|done - old(t).rolePermissions|, roleCode + ":role_permission");
        if l !in t.rolePermissions {
          t, created := t.(rolePermissions := t.rolePermissions + {l}), created + [roleCode + ":role_permission"];
        }
        pending, done := pending - {l}, done + {l};
      }
      assert done == required;
    }

    /** The link-by-link algorithm of the bootstrap's `_staff`: the same links in the end, one
        entry of `created` for each change. */
    method StaffLinks(role: int, roleCode: string, required: set<RolePermission>) returns (created: seq<string>)
      requires LinksOf(t, role, required)
      modifies `t
      ensures t == old(t).(rolePermissions := Synced(old(t).rolePermissions, role, required))
      ensures created == Copies(Gained(old(t).rolePermissions, t.rolePermissions), roleCode + ":role_permission")
        + Copies(Gained(t.rolePermissions, old(t).rolePermissions), roleCode + ":role_permission_removed")
    {
      StaffCounts(t.rolePermissions, role, required);
      var added := AddMissing(roleCode, required);
      var stale := Links(t.rolePermissions, role) - required;
      var removed := RemoveLinks(stale);
      created := added + Copies(removed, roleCode + ":role_permission_removed");
    }

    method FindOrCreateRole(tenant: int, p: Profile) returns (failure: Option<Outcome>, role: int)
      requires Valid()
      modifies `t, `nextRole
      ensures Valid() && nextRole >= old(nextRole)
      ensures failure.Some? <==> HasInactive(old(t), tenant, p)
      ensures failure.Some? ==> t == old(t) && failure == Some(RoleNotActive)
      ensures failure.None? ==> t == WithRole(old(t), tenant, p, role)
      ensures failure.None? && role in old(t).roles ==> old(t).roles[role] == Role(tenant, p.roleName, true)
      ensures failure.None? ==> (role in old(t).roles <==> HasNamed(old(t), tenant, p))
    {
      failure, role := None, 0;
      var roles := SelectRoles(tenant, p.roleName);
      AtMostOne(t, tenant, p.roleName, roles);
      if |roles| > 1 {
        failure := Some(DuplicateRole);
      } else if |roles| == 1 {
        role := roles[0];
        assert role in roles;
        assert t.roles[role := t.roles[role]] == t.roles;
        if !t.roles[role].active { failure := Some(RoleNotActive); }
      } else {
        role := nextRole;
        NoneNamed(t, tenant, p, roles);
        t, nextRole := t.(roles := t.roles[role := Role(tenant, p.roleName, true)]), nextRole + 1;
      }
    }

    /** permissions_by_code for the codes the contract names. */
    method FindPermissions(required: set<string>) returns (byCode: map<string, int>)
      ensures IsCatalog(t, byCode) && byCode.Keys == required * CodesIn(t)
    {
      byCode := map[];
      var pending := t.permissions.Items;
      while pending != {}
        invariant pending <= t.permissions.Items && IsCatalog(t, byCode) && byCode.Keys <= required
        invariant forall p ::
          p in t.permissions && t.permissions[p] in required && (p, t.permissions[p]) !in pending ==>
          t.permissions[p] in byCode
        decreases pending
      {
        var row :| row in pending;
        pending := pending - {row};
        if row.1 in required { byCode := byCode[row.1 := row.0]; }
      }
      forall c ensures c in byCode.Keys <==> c in required * CodesIn(t) {
        if c in byCode { CodeIsIn(t, byCode[c]); }
        if c in required * CodesIn(t) {
          var p :| p in t.permissions && t.permissions[p] == c;
          assert (p, t.permissions[p]) !in pending;
        }
      }
    }

    /** Adds the missing permissions of the core catalogue, one by one. */
    method AddPermissions(missing: set<string>, found: map<string, int>) returns (byCode: map<string, int>)
      requires Valid() && IsCatalog(t, found) && missing !! CodesIn(t)
      modifies `t, `nextPermission
      ensures Valid() && nextPermission >= old(nextPermission)
      ensures CatalogGrown(old(t), t, found, byCode, missing)
      ensures missing == {} ==> t == old(t)
    {
      byCode := found;
      var pending := missing;
      ghost var done: set<string> := {};
      while pending != {}
        invariant done + pending == missing && done !! pending && Valid() && nextPermission >= old(nextPermission)
        invariant CatalogGrown(old(t), t, found, byCode, done)
        invariant done == {} ==> t == old(t)
        decreases pending
      {
        var code :| code in pending;
        GrowthExtends(old(t), t, nextRole, nextPermission, found, byCode, done, code);
        t, byCode := WithPermission(t, nextPermission, code), byCode[code := nextPermission];
        nextPermission := nextPermission + 1;
        pending, done := pending - {code}, done + {code};
      }
      assert done == missing;
    }

    /** The profile loop; `roles` are the ids of the contract's roles, profile by profile. */
    method SyncAll(tenant: int, contract: seq<Profile>, byCode: map<string, int>)
      returns (r: Outcome, ghost roles: seq<int>)
      requires Valid() && DistinctNames(contract) && IsCatalog(t, byCode) && AllCodes(contract) <= byCode.Keys
      modifies `t, `nextRole
      ensures Valid() && nextRole >= old(nextRole)
      ensures r.Reconciled? || r.RoleNotActive?
      ensures r.RoleNotActive? <==> AnyInactive(old(t), tenant, contract)
      ensures r.Reconciled? ==>
        SyncedUpTo(old(t), t, tenant, contract, roles, byCode) && Counts(old(t), t, tenant, contract, r)
      ensures r.Reconciled? ==> r.rolesCreated == |t.roles| - |old(t).roles|
    {
      roles := [];
      r := Reconciled(0, 0, 0);
      var k := 0;
      while k < |contract| && r.Reconciled?
        invariant 0 <= k <= |contract| && Valid() && nextRole >= old(nextRole)
        invariant r.Reconciled? || r.RoleNotActive?
        invariant r.RoleNotActive? ==> AnyInactive(old(t), tenant, contract)
        invariant r.Reconciled? ==> SyncedUpTo(old(t), t, tenant, contract[..k], roles, byCode)
        invariant r.Reconciled? ==> forall j :: 0 <= j < k ==> !HasInactive(old(t), tenant, contract[j])
        invariant r.Reconciled? ==> Counts(old(t), t, tenant, contract[..k], r)
        invariant r.Reconciled? ==> r.rolesCreated == |t.roles| - |old(t).roles|
        decreases r.Reconciled?, |contract| - k
      {
        OthersUnaffected(old(t), t, tenant, contract, k, roles, byCode);
        CatalogKept(old(t), t, byCode);
        ghost var was := t;
        var isNew := !HasNamed(t, tenant, contract[k]);
        var failure, role, added, removed := SyncProfile(tenant, contract[k], byCode);
        if failure.Some? {
          r := failure.value;
        } else {
          OneMoreProfile(old(t), was, t, tenant, contract, k, roles, byCode, role, r);
          r := Reconciled(r.rolesCreated + (if isNew then 1 else 0), r.linksAdded + added, r.linksRemoved + removed);
          roles := roles + [role];
        }
        k := k + 1;
      }
      assert contract[..|contract|] == contract;
    }

    /** One turn of the profile loop. */
    method SyncProfile(tenant: int, p: Profile, byCode: map<string, int>)
      returns (failure: Option<Outcome>, role: int, added: nat, removed: nat)
      requires Valid() && IsCatalog(t, byCode)
      modifies `t, `nextRole
      ensures Valid() && nextRole >= old(nextRole)
      ensures failure.None? || failure == Some(RoleNotActive)
      ensures failure.Some? <==> HasInactive(old(t), tenant, p)
      ensures failure.None? ==>
        && t == SyncedTables(old(t), tenant, p, role, byCode)
        && (role in old(t).roles ==> old(t).roles[role] == Role(tenant, p.roleName, true))
        && (role in old(t).roles <==> HasNamed(old(t), tenant, p))
        && added == Gained(old(t).rolePermissions, t.rolePermissions)
        && removed == Gained(t.rolePermissions, old(t).rolePermissions)
    {
      added, removed := 0, 0;
      ghost var was := t;
      failure, role := FindOrCreateRole(tenant, p);
      if failure.None? {
        CatalogKept(was, t, byCode);
        RequiredAreLinks(t, role, byCode, p.codes);
        added, removed := ReplaceLinks(role, Required(byCode, role, p.codes), was.rolePermissions);
      }
    }

    /** The permissions the contract needs: found, or added when the core catalogue knows them. */
    method EnsureCatalog(required: set<string>, core: set<string>) returns (byCode: Option<map<string, int>>)
      requires Valid()
      modifies `t, `nextPermission
      ensures Valid() && nextPermission >= old(nextPermission) && t == old(t).(permissions := t.permissions)
      ensures byCode.None? <==> !(required - CodesIn(old(t)) <= core)
      ensures byCode.None? || required <= CodesIn(old(t)) ==> t == old(t)
      ensures byCode.Some? ==>
        IsCatalog(t, byCode.value) && byCode.value.Keys == required && CodesIn(t) == CodesIn(old(t)) + required
    {
      var found := FindPermissions(required);
      var missing := required - found.Keys;
      assert missing == required - CodesIn(t);
      byCode := None;
      if missing <= core {
        var all := AddPermissions(missing, found);
        byCode := Some(all);
      }
    }

    /** reconcile_operational_profiles inside its transaction, which an error rolls back. */
    method Reconcile(tenant: int, contract: seq<Profile>, core: set<string>)
      returns (r: Outcome, ghost roles: seq<int>, ghost byCode: map<string, int>)
      requires Valid() && DistinctNames(contract)
      modifies `t, `nextRole, `nextPermission
      ensures Valid()
      ensures r.CatalogIncomplete? <==> !(AllCodes(contract) - CodesIn(old(t)) <= core)
      ensures r.RoleNotActive? <==> !r.CatalogIncomplete? && AnyInactive(old(t), tenant, contract)
      ensures !r.DuplicateRole?
      ensures !r.Reconciled? ==> t == old(t)
      ensures r.Reconciled? ==> Reconciles(old(t), t, tenant, contract, roles, byCode, r)
      ensures r.Reconciled? ==> r.rolesCreated == |t.roles| - |old(t).roles|
      ensures forall id :: id in old(t).roles ==> id in t.roles && t.roles[id] == old(t).roles[id]
      ensures r.Reconciled? && old(IsCurrent(t, tenant, contract)) ==> r == Reconciled(0, 0, 0) && t == old(t)
    {
      var before := t;
      roles, byCode := [], map[];
      var catalog := EnsureCatalog(AllCodes(contract), core);
      if catalog.None? { return CatalogIncomplete, [], map[]; }
      byCode := catalog.value;
      ghost var start := t;
      r, roles := SyncAll(tenant, contract, catalog.value);
      InactiveDependsOnRoles(before, start, tenant, contract);
      if r.Reconciled? { RunIsComplete(before, start, t, tenant, contract, roles, byCode, r); }
      else { t := before; }
    }
  }

  lemma InactiveDependsOnRoles(a: Tables, b: Tables, tenant: int, contract: seq<Profile>)
    requires a.roles == b.roles
    ensures AnyInactive(a, tenant, contract) <==> AnyInactive(b, tenant, contract)
  {
  }

  lemma CodeIsIn(t: Tables, p: int)
    requires p in t.permissions
    ensures t.permissions[p] in CodesIn(t)
  {
  }

  lemma NewPermissionKeeps(t: Tables, nextRole: int, id: int, code: string, byCode: map<string, int>)
    requires SchemaHolds(t) && IdsBelow(t, nextRole, id) && IsCatalog(t, byCode) && code !in CodesIn(t)
    ensures var after := WithPermission(t, id, code);
      && SchemaHolds(after) && IdsBelow(after, nextRole, id + 1) && IsCatalog(after, byCode[code := id])
      && CodesIn(after) == CodesIn(t) + {code}
      && forall p :: p in t.permissions ==> p in after.permissions && after.permissions[p] == t.permissions[p]
  {
    var after := WithPermission(t, id, code);
    forall c ensures c in CodesIn(after) <==> c in CodesIn(t) + {code} {
      if c in CodesIn(t) {
        var p :| p in t.permissions && t.permissions[p] == c;
        assert p in after.permissions && after.permissions[p] == c;
      }
      if c == code { assert id in after.permissions && after.permissions[id] == c; }
    }
  }

  lemma GrowthExtends(
    before: Tables, t: Tables, nextRole: int, id: int, found: map<string, int>, byCode: map<string, int>,
    added: set<string>, code: string)
    requires SchemaHolds(t) && IdsBelow(t, nextRole, id) && CatalogGrown(before, t, found, byCode, added)
    requires code !in added && code !in CodesIn(before)
    ensures var after := WithPermission(t, id, code);
      && SchemaHolds(after) && IdsBelow(after, nextRole, id + 1)
      && CatalogGrown(before, after, found, byCode[code := id], added + {code})
  {
    NewPermissionKeeps(t, nextRole, id, code, byCode);
  }

  lemma CodesOfProfile(contract: seq<Profile>, k: nat)
    requires k < |contract|
    ensures contract[k].codes <= AllCodes(contract)
  {
  }

  /** Roles of profiles not reached yet are as at the start. */
  lemma OthersUnaffected(
    start: Tables, t: Tables, tenant: int, contract: seq<Profile>, k: nat, roles: seq<int>, byCode: map<string, int>)
    requires k < |contract| && DistinctNames(contract) && SyncedUpTo(start, t, tenant, contract[..k], roles, byCode)
    ensures HasInactive(t, tenant, contract[k]) <==> HasInactive(start, tenant, contract[k])
    ensures HasNamed(t, tenant, contract[k]) <==> HasNamed(start, tenant, contract[k])
    ensures forall r :: r in roles ==> r in t.roles && t.roles[r].name != contract[k].roleName
  {
  }

  lemma LinksAfterSync(rows: set<RolePermission>, role: int, required: set<RolePermission>, other: int)
    requires forall l :: l in required ==> l.role == role
    ensures Links(Synced(rows, role, required), other) == if other == role then required else Links(rows, other)
  {
  }

  lemma SyncedExtends(
    before: Tables, t: Tables, tenant: int, contract: seq<Profile>, roles: seq<int>, byCode: map<string, int>,
    p: Profile, role: int)
    requires SyncedUpTo(before, t, tenant, contract, roles, byCode) && role !in roles
    requires role in t.roles ==> t.roles[role] == Role(tenant, p.roleName, true)
    ensures SyncedUpTo(before, SyncedTables(t, tenant, p, role, byCode), tenant, contract + [p], roles + [role], byCode)
  {
    var after, required := SyncedTables(t, tenant, p, role, byCode), Required(byCode, role, p.codes);
    forall r ensures Links(after.rolePermissions, r) == if r == role then required else Links(t.rolePermissions, r) {
      LinksAfterSync(t.rolePermissions, role, required, r);
    }
    var all, ids := contract + [p], roles + [role];
    forall k | 0 <= k < |ids|
      ensures IsProfileRole(after, tenant, all[k], ids[k])
      ensures Links(after.rolePermissions, ids[k]) == Required(byCode, ids[k], all[k].codes)
    {
      if k < |roles| { assert roles[k] in roles; }
    }
    if forall r :: r in ids ==> r in before.roles {
      assert role in ids && forall r :: r in roles ==> r in ids;
      assert t.roles[role := t.roles[role]] == t.roles;
    }
  }

  lemma CatalogKept(a: Tables, b: Tables, byCode: map<string, int>)
    requires a.permissions == b.permissions && IsCatalog(a, byCode)
    ensures IsCatalog(b, byCode)
  {
  }

  /** One turn of the loop, in full. */
  lemma OneMoreProfile(
    start: Tables, was: Tables, now: Tables, tenant: int, contract: seq<Profile>, k: nat, roles: seq<int>,
    byCode: map<string, int>, role: int, r: Outcome)
    requires k < |contract| && DistinctNames(contract) && SyncedUpTo(start, was, tenant, contract[..k], roles, byCode)
    requires role in was.roles ==> was.roles[role] == Role(tenant, contract[k].roleName, true)
    requires now == SyncedTables(was, tenant, contract[k], role, byCode)
    requires Counts(start, was, tenant, contract[..k], r)
    ensures SyncedUpTo(start, now, tenant, contract[..k + 1], roles + [role], byCode)
    ensures Counts(start, now, tenant, contract[..k + 1], Reconciled(
      r.rolesCreated + (if HasNamed(was, tenant, contract[k]) then 0 else 1),
      r.linksAdded + Gained(was.rolePermissions, now.rolePermissions),
      r.linksRemoved + Gained(now.rolePermissions, was.rolePermissions)))
  {
    OthersUnaffected(start, was, tenant, contract, k, roles, byCode);
    assert contract[..k + 1] == contract[..k] + [contract[k]];
    SyncedExtends(start, was, tenant, contract[..k], roles, byCode, contract[k], role);
    assert (contract[..k + 1])[..k] == contract[..k];
    assert Links(was.rolePermissions, role) == Links(start.rolePermissions, role);
    GainsAddUp(start.rolePermissions, was.rolePermissions, role, Required(byCode, role, contract[k].codes));
  }

  /** A role whose links are still the first ones contributes its own differences. */
  lemma GainsAddUp(first: set<RolePermission>, rows: set<RolePermission>, role: int, required: set<RolePermission>)
    requires Links(rows, role) == Links(first, role) && forall l :: l in required ==> l.role == role
    ensures var now := Synced(rows, role, required);
      && Gained(first, now) == Gained(first, rows) + Gained(rows, now)
      && Gained(now, first) == Gained(rows, first) + Gained(now, rows)
  {
    var now := Synced(rows, role, required);
    assert now - first == (rows - first) + (now - rows) by {
      forall l ensures l in now - first <==> l in (rows - first) + (now - rows) {
        assert l in Links(rows, role) <==> l in Links(first, role);
      }
    }
    assert (rows - first) !! (now - rows);
    assert first - now == (first - rows) + (rows - now) by {
      forall l ensures l in first - now <==> l in (first - rows) + (rows - now) {
        assert l in Links(rows, role) <==> l in Links(first, role);
      }
    }
    assert (first - rows) !! (rows - now) by {
      forall l | l in rows - now ensures l in first {
        assert l in Links(rows, role) <==> l in Links(first, role);
      }
    }
  }

  lemma {:induction false} UnnamedDependsOnRoles(a: Tables, b: Tables, tenant: int, contract: seq<Profile>)
    requires a.roles == b.roles
    ensures Unnamed(a, tenant, contract) == Unnamed(b, tenant, contract)
  {
    if contract != [] { UnnamedDependsOnRoles(a, b, tenant, contract[..|contract|-1]); }
  }

  lemma NoneNamed(t: Tables, tenant: int, p: Profile, ids: seq<int>)
    requires |ids| == 0
    requires forall id :: id in ids <==> id in t.roles && t.roles[id].tenant == tenant && t.roles[id].name == p.roleName
    ensures !HasNamed(t, tenant, p) && !HasInactive(t, tenant, p)
  {
  }

  lemma SyncKeepsSchema(
      t: Tables, role: int, required: set<RolePermission>, after: Tables, nextRole: int, nextPermission: int)
    requires SchemaHolds(t) && LinksOf(t, role, required) && IdsBelow(t, nextRole, nextPermission)
    requires after == t.(rolePermissions := Synced(t.rolePermissions, role, required))
    ensures SchemaHolds(after) && IdsBelow(after, nextRole, nextPermission)
  {
  }

  lemma RequiredAreLinks(t: Tables, role: int, byCode: map<string, int>, codes: set<string>)
    requires IsCatalog(t, byCode) && role in t.roles
    ensures LinksOf(t, role, Required(byCode, role, codes))
  {
  }

  lemma NamedAlike(t: Tables, tenant: int, name: string, ids: seq<int>)
    requires SchemaHolds(t)
    requires forall id :: id in ids <==> id in t.roles && t.roles[id].tenant == tenant && t.roles[id].name == name
    ensures |ids| > 1 ==> ids[0] == ids[1]
  {
    assert |ids| > 1 ==> ids[0] in ids && ids[1] in ids;
  }

  lemma AtMostOne(t: Tables, tenant: int, name: string, ids: seq<int>)
    requires SchemaHolds(t)
    requires forall id :: id in ids <==> id in t.roles && t.roles[id].tenant == tenant && t.roles[id].name == name
    requires forall i, j :: 0 <= i < j < |ids| ==> ids[i] != ids[j]
    ensures |ids| <= 1
  {
    NamedAlike(t, tenant, name, ids);
  }

  lemma OneMore(done: set<RolePermission>, l: RolePermission, rows: set<RolePermission>)
    requires l !in done
    ensures |(done + {l}) - rows| == |done - rows| + (if l in rows then 0 else 1)
  {
    assert (done + {l}) - rows == (done - rows) + (if l in rows then {} else {l});
  }

  lemma SyncedByDifferences(rows: set<RolePermission>, role: int, required: set<RolePermission>)
    requires forall l :: l in required ==> l.role == role
    ensures rows + (required - Links(rows, role)) - (Links(rows, role) - required) == Synced(rows, role, required)
    ensures (rows + required) - (Links(rows + required, role) - required) == Synced(rows, role, required)
    ensures required - rows == required - Links(rows, role)
    ensures Links(rows + required, role) - required == Links(rows, role) - required
    ensures Synced(rows, role, required) - rows == required - Links(rows, role)
    ensures rows - Synced(rows, role, required) == Links(rows, role) - required
  {
  }

  lemma StaffCounts(rows: set<RolePermission>, role: int, required: set<RolePermission>)
    requires forall l :: l in required ==> l.role == role
    ensures var synced, stale := Synced(rows, role, required), Links(rows + required, role) - required;
      && rows + required - stale == synced && |required - rows| == Gained(rows, synced)
      && |stale| == Gained(synced, rows)
  {
    SyncedByDifferences(rows, role, required);
  }

  // ---------- the net change is the sum over the profiles ----------

  lemma {:induction false} SumDependsOnLinks(
    a: set<RolePermission>, b: set<RolePermission>, c: set<RolePermission>, roles: seq<int>)
    requires forall r :: r in roles ==> Links(b, r) == Links(c, r)
    ensures SumGained(a, b, roles) == SumGained(a, c, roles) && SumGained(b, a, roles) == SumGained(c, a, roles)
  {
    if roles != [] {
      assert roles[|roles|-1] in roles;
      SumDependsOnLinks(a, b, c, roles[..|roles|-1]);
    }
  }

  /** The last role's share, next to the state in which it is still as in `a`. */
  lemma LastRoleGains(a: set<RolePermission>, b: set<RolePermission>, last: int)
    ensures var middle := Synced(b, last, Links(a, last));
      && Gained(a, b) == Gained(a, middle) + Gained(Links(a, last), Links(b, last))
      && Gained(b, a) == Gained(middle, a) + Gained(Links(b, last), Links(a, last))
  {
    var middle := Synced(b, last, Links(a, last));
    LinksAfterSync(b, last, Links(a, last), last);
    assert Synced(middle, last, Links(b, last)) == b;
    GainsAddUp(a, middle, last, Links(b, last));
    SyncedByDifferences(middle, last, Links(b, last));
  }

  /** When only these roles' links differ, the differences add up role by role. */
  lemma {:induction false} GainIsSum(a: set<RolePermission>, b: set<RolePermission>, roles: seq<int>)
    requires forall i, j :: 0 <= i < j < |roles| ==> roles[i] != roles[j]
    requires forall r :: r !in roles ==> Links(a, r) == Links(b, r)
    ensures Gained(a, b) == SumGained(a, b, roles) && Gained(b, a) == SumGained(b, a, roles)
    decreases |roles|
  {
    if roles == [] {
      forall l ensures l in a <==> l in b { assert l in Links(a, l.role) <==> l in Links(b, l.role); }
      assert a == b;
    } else {
      var n := |roles| - 1;
      var last, fewer := roles[n], roles[..n];
      var middle := Synced(b, last, Links(a, last));
      forall r ensures Links(middle, r) == if r == last then Links(a, r) else Links(b, r) {
        LinksAfterSync(b, last, Links(a, last), r);
      }
      GainIsSum(a, middle, fewer);
      SumDependsOnLinks(a, middle, b, fewer);
      LastRoleGains(a, b, last);
    }
  }

  /** The counters of a successful run are, summed over the profiles, the sizes of the
      differences between the required links and the ones the role had. */
  lemma CountersAreSums(
    before: Tables, t: Tables, tenant: int, contract: seq<Profile>, roles: seq<int>, byCode: map<string, int>,
    r: Outcome)
    requires Reconciles(before, t, tenant, contract, roles, byCode, r) && DistinctNames(contract)
    ensures r.linksAdded == SumGained(before.rolePermissions, t.rolePermissions, roles)
    ensures r.linksRemoved == SumGained(t.rolePermissions, before.rolePermissions, roles)
    ensures forall k :: 0 <= k < |contract| ==>
      Links(t.rolePermissions, roles[k]) == Required(byCode, roles[k], contract[k].codes)
  {
    forall i, j | 0 <= i < j < |roles| ensures roles[i] != roles[j] {
      assert IsProfileRole(t, tenant, contract[i], roles[i]) && IsProfileRole(t, tenant, contract[j], roles[j]);
    }
    GainIsSum(before.rolePermissions, t.rolePermissions, roles);
  }

  // ---------- links and codes say the same ----------

  lemma LinksMeanCodes(t: Tables, byCode: map<string, int>, role: int, codes: set<string>)
    requires SchemaHolds(t) && IsCatalog(t, byCode) && codes <= byCode.Keys
    ensures Links(t.rolePermissions, role) == Required(byCode, role, codes) <==> CodesCarried(t, role) == codes
  {
    forall p | p in t.permissions && t.permissions[p] in byCode ensures byCode[t.permissions[p]] == p {
    }
    if Links(t.rolePermissions, role) == Required(byCode, role, codes) { CodesFromLinks(t, byCode, role, codes); }
    if CodesCarried(t, role) == codes { LinksFromCodes(t, byCode, role, codes); }
  }

  lemma CodesFromLinks(t: Tables, byCode: map<string, int>, role: int, codes: set<string>)
    requires SchemaHolds(t) && IsCatalog(t, byCode) && codes <= byCode.Keys
    requires Links(t.rolePermissions, role) == Required(byCode, role, codes)
    ensures CodesCarried(t, role) == codes
  {
    forall c ensures c in CodesCarried(t, role) <==> c in codes {
      if c in codes {
        assert RolePermission(role, byCode[c]) in Required(byCode, role, codes);
        assert RolePermission(role, byCode[c]) in t.rolePermissions && t.permissions[byCode[c]] == c;
      }
      if c in CodesCarried(t, role) {
        var p :| p in t.permissions && RolePermission(role, p) in t.rolePermissions && t.permissions[p] == c;
        assert RolePermission(role, p) in Links(t.rolePermissions, role);
        var d :| d in codes && d in byCode && RolePermission(role, byCode[d]) == RolePermission(role, p);
      }
    }
  }

  lemma LinksFromCodes(t: Tables, byCode: map<string, int>, role: int, codes: set<string>)
    requires SchemaHolds(t) && IsCatalog(t, byCode) && codes <= byCode.Keys
    requires CodesCarried(t, role) == codes
    ensures Links(t.rolePermissions, role) == Required(byCode, role, codes)
  {
    forall l ensures l in Links(t.rolePermissions, role) <==> l in Required(byCode, role, codes) {
      if l in Links(t.rolePermissions, role) {
        var c := t.permissions[l.permission];
        assert c in CodesCarried(t, role);
        assert t.permissions[byCode[c]] == c;
        assert l == RolePermission(role, byCode[c]);
      }
      if l in Required(byCode, role, codes) {
        var c :| c in codes && c in byCode && l == RolePermission(role, byCode[c]);
        var p :| p in t.permissions && RolePermission(role, p) in t.rolePermissions && t.permissions[p] == c;
        assert t.permissions[byCode[c]] == c;
        assert p == byCode[c];
      }
    }
  }

  lemma SyncedIsCurrent(
    before: Tables, t: Tables, tenant: int, contract: seq<Profile>, roles: seq<int>, byCode: map<string, int>)
    requires SyncedUpTo(before, t, tenant, contract, roles, byCode) && SchemaHolds(t) && IsCatalog(t, byCode)
    requires AllCodes(contract) <= byCode.Keys
    ensures IsCurrent(t, tenant, contract)
  {
    forall k | 0 <= k < |contract| ensures Matches(t, tenant, contract[k]) {
      CodesOfProfile(contract, k);
      LinksMeanCodes(t, byCode, roles[k], contract[k].codes);
      assert IsProfileRole(t, tenant, contract[k], roles[k]);
    }
  }

  lemma CurrentHasCodes(t: Tables, tenant: int, contract: seq<Profile>)
    requires IsCurrent(t, tenant, contract)
    ensures AllCodes(contract) <= CodesIn(t)
  {
  }

  lemma CurrentHasNoInactive(t: Tables, tenant: int, contract: seq<Profile>)
    requires IsCurrent(t, tenant, contract) && SchemaHolds(t)
    ensures forall k :: 0 <= k < |contract| ==> !HasInactive(t, tenant, contract[k]) && HasNamed(t, tenant, contract[k])
  {
  }

  /** The role a current profile already has is the one the loop finds, with the links it needs. */
  lemma CurrentRoleIsFound(
    before: Tables, t: Tables, tenant: int, contract: seq<Profile>, roles: seq<int>, byCode: map<string, int>, k: nat)
    requires SyncedUpTo(before, t, tenant, contract, roles, byCode) && k < |contract|
    requires SchemaHolds(before) && SchemaHolds(t) && IsCatalog(before, byCode) && AllCodes(contract) <= byCode.Keys
    requires Matches(before, tenant, contract[k])
    ensures roles[k] in before.roles
    ensures Links(before.rolePermissions, roles[k]) == Required(byCode, roles[k], contract[k].codes)
  {
    var role :| role in before.roles && IsProfileRole(before, tenant, contract[k], role)
      && CodesCarried(before, role) == contract[k].codes;
    assert IsProfileRole(t, tenant, contract[k], roles[k]) && t.roles[role] == before.roles[role];
    assert role == roles[k];
    CodesOfProfile(contract, k);
    LinksMeanCodes(before, byCode, role, contract[k].codes);
  }

  /** A second run changes nothing and counts nothing. */
  lemma CurrentNeedsNothing(
    before: Tables, t: Tables, tenant: int, contract: seq<Profile>, roles: seq<int>, byCode: map<string, int>,
    r: Outcome)
    requires SyncedUpTo(before, t, tenant, contract, roles, byCode) && Counts(before, t, tenant, contract, r)
    requires SchemaHolds(before) && SchemaHolds(t) && IsCatalog(before, byCode) && AllCodes(contract) <= byCode.Keys
    requires IsCurrent(before, tenant, contract)
    ensures r == Reconciled(0, 0, 0) && t == before
  {
    forall k | 0 <= k < |contract|
      ensures roles[k] in before.roles
      ensures Links(before.rolePermissions, roles[k]) == Required(byCode, roles[k], contract[k].codes)
    {
      assert Matches(before, tenant, contract[k]);
      CurrentRoleIsFound(before, t, tenant, contract, roles, byCode, k);
    }
    CurrentHasNoInactive(before, tenant, contract);
    NothingUnnamed(before, tenant, contract);
    forall l ensures l in t.rolePermissions <==> l in before.rolePermissions {
      if l.role in roles { var k :| 0 <= k < |roles| && roles[k] == l.role; }
      assert Links(t.rolePermissions, l.role) == Links(before.rolePermissions, l.role);
      assert l in Links(t.rolePermissions, l.role) <==> l in Links(before.rolePermissions, l.role);
    }
    assert forall id :: id in roles ==> id in before.roles;
  }

  /** What a finished loop means for the store it started from, before any permission was added. */
  lemma RunIsComplete(
    before: Tables, start: Tables, t: Tables, tenant: int, contract: seq<Profile>, roles: seq<int>,
    byCode: map<string, int>, r: Outcome)
    requires start == before.(permissions := start.permissions)
    requires AllCodes(contract) <= CodesIn(before) ==> start == before
    requires SyncedUpTo(start, t, tenant, contract, roles, byCode) && Counts(start, t, tenant, contract, r)
    requires SchemaHolds(before) && SchemaHolds(t) && IsCatalog(start, byCode) && AllCodes(contract) == byCode.Keys
    requires CodesIn(start) == CodesIn(before) + AllCodes(contract)
    ensures Reconciles(before, t, tenant, contract, roles, byCode, r)
    ensures IsCurrent(before, tenant, contract) ==> r == Reconciled(0, 0, 0) && t == before
  {
    UnnamedDependsOnRoles(before, start, tenant, contract);
    CatalogKept(start, t, byCode);
    SyncedIsCurrent(start, t, tenant, contract, roles, byCode);
    assert before.(permissions := t.permissions) == start;
    if IsCurrent(before, tenant, contract) {
      CurrentHasCodes(before, tenant, contract);
      CurrentNeedsNothing(before, t, tenant, contract, roles, byCode, r);
    }
  }

  /** A current installation is never refused. */
  lemma CurrentIsAccepted(t: Tables, tenant: int, contract: seq<Profile>, core: set<string>)
    requires IsCurrent(t, tenant, contract) && SchemaHolds(t)
    ensures AllCodes(contract) - CodesIn(t) <= core && !AnyInactive(t, tenant, contract)
  {
  }

  lemma {:induction false} NothingUnnamed(t: Tables, tenant: int, contract: seq<Profile>)
    requires forall k :: 0 <= k < |contract| ==> HasNamed(t, tenant, contract[k])
    ensures Unnamed(t, tenant, contract) == 0
  {
    if contract != [] { NothingUnnamed(t, tenant, contract[..|contract|-1]); }
  }
}
