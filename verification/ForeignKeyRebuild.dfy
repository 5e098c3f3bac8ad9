/** Migration 0003: drop whatever foreign keys a legacy installation or an interrupted attempt
    left on the application tables, convert the tables to InnoDB and rebuild the intended set. */
module ForeignKeyRebuild {
  import opened Interruption
  import opened Sql

  datatype Table =
    | Tenants | Users | Permissions | TenantMemberships | Roles | RolePermissions | MembershipRoles
    | AlembicVersion | OtherTable(name: string)

  datatype Column = Id | TenantId | UserId | RoleId | PermissionId | MembershipId | OtherColumn(column: string)

  /** The seven definitions of FOREIGN_KEYS, named after source and target. */
  datatype Definition =
    | MembershipTenant | MembershipUser | RoleTenant | RolePermissionRole | RolePermissionPermission
    | MembershipRoleMembership | MembershipRoleRole

  /** A constraint name: one of the seven canonical ones, or any other. */
  datatype Name = Canonical(definition: Definition) | OtherName(name: string)

  datatype Signature = Signature(table: Table, columns: seq<Column>, target: Table, referred: seq<Column>)

  datatype ForeignKey = ForeignKey(signature: Signature, cascade: bool)

  const APPLICATION_TABLES: seq<Table> :=
    [Tenants, Users, Permissions, TenantMemberships, Roles, RolePermissions, MembershipRoles]

  const FOREIGN_KEYS: seq<Definition> :=
    [MembershipTenant, MembershipUser, RoleTenant, RolePermissionRole, RolePermissionPermission,
     MembershipRoleMembership, MembershipRoleRole]

  function ExpectedSignature(d: Definition): Signature {
    match d
    case MembershipTenant => Signature(TenantMemberships, [TenantId], Tenants, [Id])
    case MembershipUser => Signature(TenantMemberships, [UserId], Users, [Id])
    case RoleTenant => Signature(Roles, [TenantId], Tenants, [Id])
    case RolePermissionRole => Signature(RolePermissions, [RoleId], Roles, [Id])
    case RolePermissionPermission => Signature(RolePermissions, [PermissionId], Permissions, [Id])
    case MembershipRoleMembership =>
      Signature(MembershipRoles, [MembershipId, TenantId], TenantMemberships, [Id, TenantId])
    case MembershipRoleRole => Signature(MembershipRoles, [RoleId, TenantId], Roles, [Id, TenantId])
  }

  predicate IsExpected(s: Signature) {
    exists i :: 0 <= i < |FOREIGN_KEYS| && ExpectedSignature(FOREIGN_KEYS[i]) == s
  }

  predicate IsApplication(t: Table) {
    !t.AlembicVersion? && !t.OtherTable?
  }

  /** What the drop loop removes: on an application table, an expected signature under any
      name or a canonical name with any definition. */
  predicate IsDropped(n: Name, k: ForeignKey) {
    IsApplication(k.signature.table) && (IsExpected(k.signature) || n.Canonical?)
  }

  /** A key the rebuild must leave alone: outside the application tables, or under a name of its
      own with a signature different from all seven. */
  ghost predicate MustStay(n: Name, k: ForeignKey) {
    !IsApplication(k.signature.table) || (n.OtherName? && forall d: Definition :: k.signature != ExpectedSignature(d))
  }

  /** A key the rebuild declares: one of the seven, under its canonical name, with cascade. */
  predicate IsDeclared(n: Name, k: ForeignKey) {
    n.Canonical? && k.signature == ExpectedSignature(n.definition) && k.cascade
  }

  /** InnoDB keeps constraint names unique in the schema, so the catalogue is a map. */
  type Catalogue = map<Name, ForeignKey>

  function Unrelated(keys: Catalogue): Catalogue {
    map n | n in keys && !IsDropped(n, keys[n]) :: keys[n]
  }

  function Rebuilt(d: Definition): ForeignKey {
    ForeignKey(ExpectedSignature(d), true)
  }

  function Created(ds: seq<Definition>): Catalogue {
    map d | d in ds :: Canonical(d) := Rebuilt(d)
  }

  function Intended(keys: Catalogue): Catalogue {
    Unrelated(keys) + Created(FOREIGN_KEYS)
  }

  /** The rebuilt catalogue: the keys that must stay, and the seven, and no other. */
  ghost predicate AreRebuilt(before: Catalogue, keys: Catalogue) {
    && (forall n :: n in keys ==>
          IsDeclared(n, keys[n]) || (n in before && keys[n] == before[n] && MustStay(n, keys[n])))
    && forall d: Definition :: Canonical(d) in keys && IsDeclared(Canonical(d), keys[Canonical(d)])
  }

  /** Checkable before the run: no canonical name is taken by a table outside the application,
      and no row violates one of the seven keys. */
  predicate IsBuildable(keys: Catalogue, orphaned: set<Definition>) {
    forall d: Definition ::
      (Canonical(d) in keys ==> IsApplication(keys[Canonical(d)].signature.table)) && d !in orphaned
  }

  /** A text column, not yet in utf8mb4: CONVERT TO CHARACTER SET would change it. */
  datatype TextColumn = TextColumn(table: Table, column: string)

  /** The key refers from or to the column. */
  predicate Covers(k: ForeignKey, c: TextColumn) {
    || (k.signature.table == c.table && OtherColumn(c.column) in k.signature.columns)
    || (k.signature.target == c.table && OtherColumn(c.column) in k.signature.referred)
  }

  /** InnoDB refuses to change a column that a foreign key uses. */
  predicate IsBlocked(keys: Catalogue, text: set<TextColumn>, t: Table) {
    exists n, c :: n in keys && c in text && c.table == t && Covers(keys[n], c)
  }

  /** Checkable before the run: no key uses a text column still to be converted.  The version
      table comes before the drop loop, the application tables after it. */
  ghost predicate IsConvertible(keys: Catalogue, text: set<TextColumn>) {
    !IsBlocked(keys, text, AlembicVersion) && forall t :: IsApplication(t) ==> !IsBlocked(Unrelated(keys), text, t)
  }

  function WithoutText(text: set<TextColumn>, t: Table): set<TextColumn> {
    set c | c in text && c.table != t
  }

  /** These definitions can be added to the unrelated keys. */
  predicate Addable(keys: Catalogue, orphaned: set<Definition>, ds: seq<Definition>) {
    forall d :: d in ds ==> Canonical(d) !in Unrelated(keys) && d !in orphaned
  }

  class Migration {
    var keys: Catalogue
    var innodb: set<Table>
    var text: set<TextColumn>
    var versionWidth: nat
    var fuel: Fuel

    constructor (keys: Catalogue, innodb: set<Table>, text: set<TextColumn>, versionWidth: nat)
      ensures this.keys == keys && this.innodb == innodb && this.text == text && this.versionWidth == versionWidth
    {
      this.keys, this.innodb, this.text, this.versionWidth, fuel := keys, innodb, text, versionWidth, Unlimited;
    }

    method DropConstraint(n: Name) returns (r: Outcome)
      requires n in keys
      modifies `keys, `fuel
      ensures if Affords(old(fuel), 1) then r.Done? && keys == old(keys) - {n} && fuel == Spent(old(fuel))
              else r.Interrupted? && keys == old(keys) && fuel == old(fuel)
    {
      r := Interrupted;
      if Affords(fuel, 1) { keys, fuel, r := keys - {n}, Spent(fuel), Done; }
    }

    /** ALTER TABLE ... ENGINE=InnoDB, CONVERT TO CHARACTER SET. */
    method ConvertTable(t: Table) returns (r: Outcome)
      modifies `innodb, `text, `fuel
      ensures r == if !Affords(old(fuel), 1) then Interrupted
        else if IsBlocked(keys, old(text), t) then Rejected else Done
      ensures if r.Done?
        then innodb == old(innodb) + {t} && text == WithoutText(old(text), t) && fuel == Spent(old(fuel))
        else innodb == old(innodb) && text == old(text) && fuel == old(fuel)
    {
      if !Affords(fuel, 1) { return Interrupted; }
      if IsBlocked(keys, text, t) { return Rejected; }
      innodb, text, fuel, r := innodb + {t}, WithoutText(text, t), Spent(fuel), Done;
    }

    /** ALTER TABLE ... ADD CONSTRAINT ... ON DELETE CASCADE.  MyISAM accepts the declaration and
        forgets it; InnoDB refuses a taken name, a target it does not store, or orphaned rows. */
    method CreateForeignKey(d: Definition, orphaned: set<Definition>) returns (r: Outcome)
      modifies `keys, `fuel
      ensures !Affords(old(fuel), 1) ==> r.Interrupted?
      ensures Affords(old(fuel), 1) && {ExpectedSignature(d).table, ExpectedSignature(d).target} <= innodb ==>
        r == (if Canonical(d) in old(keys) || d in orphaned then Rejected else Done)
      ensures r.Done? ==>
        && fuel == Spent(old(fuel))
        && keys == if ExpectedSignature(d).table in innodb then old(keys)[Canonical(d) := Rebuilt(d)] else old(keys)
      ensures !r.Done? ==> keys == old(keys) && fuel == old(fuel)
    {
      var s := ExpectedSignature(d);
      if !Affords(fuel, 1) { return Interrupted; }
      if s.table in innodb && (s.target !in innodb || Canonical(d) in keys || d in orphaned) { return Rejected; }
      if s.table in innodb { keys := keys[Canonical(d) := Rebuilt(d)]; }
      fuel, r := Spent(fuel), Done;
    }

    method WidenVersion() returns (r: Outcome)
      modifies `versionWidth, `fuel
      ensures if Affords(old(fuel), 1) then r.Done? && versionWidth == 64 && fuel == Spent(old(fuel))
              else r.Interrupted? && versionWidth == old(versionWidth) && fuel == old(fuel)
    {
      r := Interrupted;
      if Affords(fuel, 1) { versionWidth, fuel, r := 64, Spent(fuel), Done; }
    }

    /** One table's turn of `_drop_existing_expected_foreign_keys`; the inspector lists its keys
        in any order. */
    method DropExpectedOn(t: Table) returns (r: Outcome)
      requires IsApplication(t)
      modifies `keys, `fuel
      ensures Unrelated(keys) == Unrelated(old(keys))
      ensures keys.Keys <= old(keys).Keys && forall n :: n in keys ==> keys[n] == old(keys)[n]
      ensures r.Done? || r.Interrupted?
      ensures r.Done? ==> forall n :: n in keys && keys[n].signature.table == t ==> !IsDropped(n, keys[n])
      ensures old(fuel).Unlimited? ==> r.Done? && fuel.Unlimited?
    {
      r := Done;
      var listed := set n | n in keys && keys[n].signature.table == t;
      while listed != {} && r.Done?
        invariant Unrelated(keys) == Unrelated(old(keys))
        invariant keys.Keys <= old(keys).Keys && forall n :: n in keys ==> keys[n] == old(keys)[n]
        invariant listed <= keys.Keys && (r.Done? || r.Interrupted?)
        invariant r.Done? ==>
          forall n :: n in keys && keys[n].signature.table == t && n !in listed ==> !IsDropped(n, keys[n])
        invariant old(fuel).Unlimited? ==> r.Done? && fuel.Unlimited?
        decreases r.Done?, listed
      {
        var n :| n in listed;
        listed := listed - {n};
        if IsExpected(keys[n].signature) || n.Canonical? { r := DropConstraint(n); }
      }
    }

    method DropExistingExpectedForeignKeys() returns (r: Outcome)
      modifies `keys, `fuel
      ensures Unrelated(keys) == Unrelated(old(keys))
      ensures r.Done? || r.Interrupted?
      ensures r.Done? ==> keys == Unrelated(old(keys))
      ensures r.Done? ==> forall n :: n in keys <==> n in old(keys) && MustStay(n, old(keys)[n])
      ensures forall n :: n in keys ==> n in old(keys) && keys[n] == old(keys)[n]
      ensures old(fuel).Unlimited? ==> r.Done? && fuel.Unlimited?
    {
      r := Done;
      var i := 0;
      while i < |APPLICATION_TABLES| && r.Done?
        invariant 0 <= i <= |APPLICATION_TABLES| && (r.Done? || r.Interrupted?)
        invariant Unrelated(keys) == Unrelated(old(keys))
        invariant forall n :: n in keys ==> n in old(keys) && keys[n] == old(keys)[n]
        invariant r.Done? ==> forall n :: n in keys && keys[n].signature.table in APPLICATION_TABLES[..i] ==>
          !IsDropped(n, keys[n])
        invariant old(fuel).Unlimited? ==> r.Done? && fuel.Unlimited?
        decreases r.Done?, |APPLICATION_TABLES| - i
      {
        TablesCover(APPLICATION_TABLES[i]);
        r := DropExpectedOn(APPLICATION_TABLES[i]);
        i := i + 1;
      }
      if r.Done? {
        forall n | n in keys ensures !IsDropped(n, keys[n]) {
          TablesCover(keys[n].signature.table);
        }
        assert Unrelated(keys) == keys;
        forall n | n in old(keys) ensures MustStay(n, old(keys)[n]) <==> !IsDropped(n, old(keys)[n]) {
          MustStayMeaning(n, old(keys)[n]);
        }
      }
    }

    /** The conversion loop: refused exactly when some application table is blocked, and what it
        has converted when it stops was not. */
    method ConvertTables() returns (r: Outcome)
      modifies `innodb, `text, `fuel
      ensures r.Done? || r.Interrupted? || r.Rejected?
      ensures r.Done? ==> forall t :: IsApplication(t) ==> t in innodb && !IsBlocked(keys, old(text), t)
      ensures r.Rejected? ==> exists t :: IsApplication(t) && IsBlocked(keys, old(text), t)
      ensures text <= old(text) && forall t :: IsBlocked(keys, text, t) <==> IsBlocked(keys, old(text), t)
      ensures old(fuel).Unlimited? ==> !r.Interrupted? && fuel.Unlimited?
    {
      r := Done;
      var i := 0;
      while i < |APPLICATION_TABLES| && r.Done?
        invariant 0 <= i <= |APPLICATION_TABLES| && (r.Done? || r.Interrupted? || r.Rejected?)
        invariant r.Done? ==> forall t :: t in APPLICATION_TABLES[..i] ==> t in innodb && !IsBlocked(keys, old(text), t)
        invariant r.Rejected? ==> exists t :: IsApplication(t) && IsBlocked(keys, old(text), t)
        invariant text <= old(text) && forall t :: IsBlocked(keys, text, t) <==> IsBlocked(keys, old(text), t)
        invariant old(fuel).Unlimited? ==> !r.Interrupted? && fuel.Unlimited?
        decreases r.Done?, |APPLICATION_TABLES| - i
      {
        TablesCover(APPLICATION_TABLES[i]);
        OthersStillBlocked(keys, text, APPLICATION_TABLES[i]);
        r := ConvertTable(APPLICATION_TABLES[i]);
        i := i + 1;
      }
      if r.Done? {
        forall t | IsApplication(t) ensures t in APPLICATION_TABLES[..i] { TablesCover(t); }
      }
    }

    /** The create loop over `ds`, in order. */
    method CreateForeignKeys(ds: seq<Definition>, ghost start: Catalogue, orphaned: set<Definition>)
      returns (r: Outcome)
      requires forall i, j :: 0 <= i < j < |ds| ==> ds[i] != ds[j]
      requires keys == Unrelated(start) && forall t :: IsApplication(t) ==> t in innodb
      modifies `keys, `fuel
      ensures Unrelated(keys) == Unrelated(start)
      ensures !r.Raised?
      ensures r.Done? ==> keys == Unrelated(start) + Created(ds) && Addable(start, orphaned, ds)
      ensures r.Rejected? ==> !IsBuildable(start, orphaned)
      ensures old(fuel).Unlimited? ==> !r.Interrupted?
    {
      r := Done;
      var i := 0;
      while i < |ds| && r.Done?
        invariant 0 <= i <= |ds| && !r.Raised?
        invariant keys == Unrelated(start) + Created(ds[..i]) && Addable(start, orphaned, ds[..i])
        invariant r.Rejected? ==> !IsBuildable(start, orphaned)
        invariant old(fuel).Unlimited? ==> !r.Interrupted? && fuel.Unlimited?
        decreases r.Done?, |ds| - i
      {
        r := CreateNext(start, ds[..i], ds[i], orphaned);
        if r.Done? {
          assert ds[..i + 1] == ds[..i] + [ds[i]];
          i := i + 1;
        }
      }
      AddableWithoutOrphans(start, orphaned, ds[..i]);
      CreatedIsDropped(start, ds[..i]);
      assert r.Done? ==> ds[..i] == ds;
    }

    method CreateNext(ghost start: Catalogue, ghost done: seq<Definition>, d: Definition, orphaned: set<Definition>)
      returns (r: Outcome)
      requires d !in done && forall t :: IsApplication(t) ==> t in innodb
      requires keys == Unrelated(start) + Created(done) && Addable(start, orphaned, done)
      modifies `keys, `fuel
      ensures !r.Raised?
      ensures r.Done? ==> keys == Unrelated(start) + Created(done + [d]) && Addable(start, orphaned, done + [d])
      ensures !r.Done? ==> keys == old(keys)
      ensures r.Rejected? ==> !IsBuildable(start, orphaned)
      ensures old(fuel).Unlimited? ==> !r.Interrupted? && fuel.Unlimited?
    {
      TablesOfDefinition(d);
      CreatedStep(start, orphaned, done, d);
      r := CreateForeignKey(d, orphaned);
    }

    /** `upgrade`, stopping wherever the process dies or a statement is refused. */
    method Upgrade(orphaned: set<Definition>) returns (r: Outcome)
      modifies this
      ensures Unrelated(keys) == Unrelated(old(keys))
      ensures IsConvertible(keys, text) <==> IsConvertible(old(keys), old(text))
      ensures !r.Raised?
      ensures forall n :: n in old(keys) && MustStay(n, old(keys)[n]) ==> n in keys && keys[n] == old(keys)[n]
      ensures r.Done? ==> keys == Intended(old(keys)) && versionWidth == 64
      ensures r.Done? ==> AreRebuilt(old(keys), keys)
      ensures r.Done? ==> IsBuildable(old(keys), orphaned) && IsConvertible(old(keys), old(text))
      ensures r.Rejected? ==> !IsBuildable(old(keys), orphaned) || !IsConvertible(old(keys), old(text))
      ensures old(fuel).Unlimited? ==> !r.Interrupted?
    {
      r := WidenVersion();
      if !r.Done? { return; }
      OthersStillBlocked(Unrelated(keys), text, AlembicVersion);
      r := ConvertTable(AlembicVersion);
      if !r.Done? { return; }
      r := DropExistingExpectedForeignKeys();
      if r.Done? { r := ConvertTables(); }
      if r.Done? {
        DefinitionsDiffer();
        DefinitionsCover(old(keys), orphaned);
        r := CreateForeignKeys(FOREIGN_KEYS, old(keys), orphaned);
      }
      ConvertibleKept(old(keys), old(text), keys, text);
      UnrelatedMustStay(old(keys), keys);
      IntendedAreRebuilt(old(keys));
    }

    /** Any number of interrupted or refused runs, then a full one: it succeeds exactly when
        the first state was buildable and convertible, and reaches the set one clean run reaches. */
    method Converge(orphaned: set<Definition>, runs: seq<nat>) returns (r: Outcome)
      modifies this
      ensures r == if IsBuildable(old(keys), orphaned) && IsConvertible(old(keys), old(text)) then Done else Rejected
      ensures r.Done? ==> keys == Intended(old(keys)) && AreRebuilt(old(keys), keys)
      ensures forall n :: n in old(keys) && MustStay(n, old(keys)[n]) ==> n in keys && keys[n] == old(keys)[n]
      ensures Unrelated(keys) == Unrelated(old(keys))
    {
      for i := 0 to |runs|
        invariant Unrelated(keys) == Unrelated(old(keys))
        invariant IsConvertible(keys, text) <==> IsConvertible(old(keys), old(text))
      {
        fuel := Statements(runs[i]);
        var stopped := Upgrade(orphaned);
      }
      fuel := Unlimited;
      BuildableDependsOnUnrelated(keys, old(keys), orphaned);
      r := Upgrade(orphaned);
      UnrelatedMustStay(old(keys), keys);
      IntendedAreRebuilt(old(keys));
    }
  }

  // ---------- proofs ----------

  lemma TablesCover(t: Table)
    ensures IsApplication(t) <==> t in APPLICATION_TABLES
  {
  }

  /** A table is blocked exactly by a key that has one of its unconverted text columns on its
      own side or on the side it refers to. */
  lemma BlockedMeaning(keys: Catalogue, text: set<TextColumn>, t: Table)
    ensures IsBlocked(keys, text, t) <==>
      exists n, column :: n in keys && TextColumn(t, column) in text && UsesColumn(keys[n].signature, t, column)
  {
    if n, c :| n in keys && c in text && c.table == t && Covers(keys[n], c) {
      assert UsesColumn(keys[n].signature, t, c.column) && TextColumn(t, c.column) in text;
    }
    if n, column :| n in keys && TextColumn(t, column) in text && UsesColumn(keys[n].signature, t, column) {
      assert Covers(keys[n], TextColumn(t, column));
    }
  }

  /** The signature names the column of the table on either side. */
  predicate UsesColumn(s: Signature, t: Table, column: string) {
    || (s.table == t && exists i :: 0 <= i < |s.columns| && s.columns[i] == OtherColumn(column))
    || (s.target == t && exists i :: 0 <= i < |s.referred| && s.referred[i] == OtherColumn(column))
  }

  /** Converting one table matters to no other. */
  lemma OthersStillBlocked(keys: Catalogue, text: set<TextColumn>, t: Table)
    ensures !IsBlocked(keys, WithoutText(text, t), t)
    ensures forall u :: u != t ==> (IsBlocked(keys, WithoutText(text, t), u) <==> IsBlocked(keys, text, u))
  {
    forall u | u != t && IsBlocked(keys, text, u) ensures IsBlocked(keys, WithoutText(text, t), u) {
      var n, c :| n in keys && c in text && c.table == u && Covers(keys[n], c);
      assert c in WithoutText(text, t);
    }
  }

  /** Whatever a run did after converting the version table, the next is as convertible. */
  lemma ConvertibleKept(before: Catalogue, was: set<TextColumn>, keys: Catalogue, text: set<TextColumn>)
    requires !IsBlocked(before, was, AlembicVersion) && forall c :: c in text ==> c.table != AlembicVersion
    requires Unrelated(keys) == Unrelated(before)
    requires forall t :: IsApplication(t) ==>
      (IsBlocked(Unrelated(before), text, t) <==> IsBlocked(Unrelated(before), was, t))
    ensures IsConvertible(keys, text) <==> IsConvertible(before, was)
  {
  }

  lemma DefinitionListed(d: Definition)
    ensures d in FOREIGN_KEYS
  {
  }

  lemma TablesOfDefinition(d: Definition)
    ensures IsApplication(ExpectedSignature(d).table) && IsApplication(ExpectedSignature(d).target)
  {
  }

  lemma MustStayMeaning(n: Name, k: ForeignKey)
    ensures MustStay(n, k) <==> !IsDropped(n, k)
  {
    forall d: Definition ensures d in FOREIGN_KEYS { DefinitionListed(d); }
    if IsExpected(k.signature) {
      var i :| 0 <= i < |FOREIGN_KEYS| && ExpectedSignature(FOREIGN_KEYS[i]) == k.signature;
    }
    if d: Definition :| k.signature == ExpectedSignature(d) {
      DefinitionListed(d);
      var i :| 0 <= i < |FOREIGN_KEYS| && FOREIGN_KEYS[i] == d;
      assert IsExpected(k.signature);
    }
  }

  lemma UnrelatedMustStay(before: Catalogue, keys: Catalogue)
    requires Unrelated(keys) == Unrelated(before)
    ensures forall n :: n in before && MustStay(n, before[n]) ==> n in keys && keys[n] == before[n]
  {
    forall n | n in before && MustStay(n, before[n]) ensures n in keys && keys[n] == before[n] {
      MustStayMeaning(n, before[n]);
      assert n in Unrelated(before) && Unrelated(before)[n] == before[n];
    }
  }

  lemma IntendedAreRebuilt(before: Catalogue)
    ensures AreRebuilt(before, Intended(before))
  {
    forall d: Definition ensures d in FOREIGN_KEYS { DefinitionListed(d); }
    forall n | n in Unrelated(before) ensures MustStay(n, before[n]) { MustStayMeaning(n, before[n]); }
  }

  /** What a column of 0002's application tables refers to, by its name. */
  function Referent(c: Column): Option<Table> {
    match c
    case TenantId => Some(Tenants)
    case UserId => Some(Users)
    case RoleId => Some(Roles)
    case PermissionId => Some(Permissions)
    case MembershipId => Some(TenantMemberships)
    case Id => None
    case OtherColumn(_) => None
  }

  /** The reference columns of 0002's application tables. */
  function References(t: Table): set<Column> {
    match t
    case TenantMemberships => {TenantId, UserId}
    case Roles => {TenantId}
    case RolePermissions => {RoleId, PermissionId}
    case MembershipRoles => {MembershipId, RoleId, TenantId}
    case _ => {}
  }

  /** The seven definitions are what the tables' columns call for: each leads with a reference
      column to the id of the table that column names, and carries the tenant exactly from
      membership_roles; every reference column is covered by one. */
  lemma DefinitionsAreWellTyped(d: Definition)
    ensures var s := ExpectedSignature(d);
      && s.columns != [] && s.columns[0] in References(s.table) && Referent(s.columns[0]) == Some(s.target)
      && s.referred == [Id] + s.columns[1..]
      && s.columns[1..] == if s.table.MembershipRoles? then [TenantId] else []
  {
  }

  lemma ReferencesAreCovered(t: Table, c: Column)
    requires c in References(t)
    ensures exists d :: ExpectedSignature(d).table == t && c in ExpectedSignature(d).columns
  {
    var d := match t
      case TenantMemberships => if c == TenantId then MembershipTenant else MembershipUser
      case Roles => RoleTenant
      case RolePermissions => if c == RoleId then RolePermissionRole else RolePermissionPermission
      case _ => if c == RoleId then MembershipRoleRole else MembershipRoleMembership;
    assert ExpectedSignature(d).table == t && c in ExpectedSignature(d).columns;
  }

  /** Different definitions are different relationships. */
  lemma SignaturesDiffer(d: Definition, e: Definition)
    requires d != e
    ensures ExpectedSignature(d) != ExpectedSignature(e)
  {
  }

  lemma DefinitionsCover(keys: Catalogue, orphaned: set<Definition>)
    ensures Addable(keys, orphaned, FOREIGN_KEYS) <==> IsBuildable(keys, orphaned)
  {
    forall d: Definition ensures d in FOREIGN_KEYS { DefinitionListed(d); }
  }

  lemma DefinitionsDiffer()
    ensures forall i, j :: 0 <= i < j < |FOREIGN_KEYS| ==> FOREIGN_KEYS[i] != FOREIGN_KEYS[j]
  {
  }

  /** What an interrupted create loop leaves, the next run's drop loop removes. */
  lemma CreatedIsDropped(keys: Catalogue, ds: seq<Definition>)
    requires Addable(keys, {}, ds)
    ensures Unrelated(Unrelated(keys) + Created(ds)) == Unrelated(keys)
  {
    forall d | d in ds ensures IsDropped(Canonical(d), Rebuilt(d)) { TablesOfDefinition(d); }
  }

  lemma CreatedAppend(ds: seq<Definition>, d: Definition)
    ensures Created(ds + [d]) == Created(ds)[Canonical(d) := Rebuilt(d)]
  {
  }

  lemma AddLast<K, V>(a: map<K, V>, b: map<K, V>, k: K, v: V)
    ensures (a + b)[k := v] == a + b[k := v]
  {
  }

  lemma NotBuildable(keys: Catalogue, orphaned: set<Definition>, d: Definition)
    requires Canonical(d) in Unrelated(keys) || d in orphaned
    ensures !IsBuildable(keys, orphaned)
  {
  }

  lemma AddableWithoutOrphans(keys: Catalogue, orphaned: set<Definition>, ds: seq<Definition>)
    requires Addable(keys, orphaned, ds)
    ensures Addable(keys, {}, ds)
  {
  }

  /** One step of the create loop, from the state the earlier steps left. */
  lemma CreatedStep(keys: Catalogue, orphaned: set<Definition>, ds: seq<Definition>, d: Definition)
    requires Addable(keys, orphaned, ds) && d !in ds
    ensures var now := Unrelated(keys) + Created(ds);
      if Canonical(d) in now || d in orphaned then !IsBuildable(keys, orphaned)
      else Addable(keys, orphaned, ds + [d]) && now[Canonical(d) := Rebuilt(d)] == Unrelated(keys) + Created(ds + [d])
  {
    if Canonical(d) in Unrelated(keys) + Created(ds) || d in orphaned {
      NotBuildable(keys, orphaned, d);
    } else {
      CreatedAppend(ds, d);
      AddLast(Unrelated(keys), Created(ds), Canonical(d), Rebuilt(d));
    }
  }

  lemma BuildableDependsOnUnrelated(a: Catalogue, b: Catalogue, orphaned: set<Definition>)
    requires Unrelated(a) == Unrelated(b)
    ensures IsBuildable(a, orphaned) <==> IsBuildable(b, orphaned)
  {
    forall d: Definition ensures Canonical(d) in Unrelated(a) <==> Canonical(d) in Unrelated(b) {
    }
  }

  /** Keys that all sit on application tables never clash with a canonical name: only orphaned
      rows can stop the rebuild, whatever partial definitions earlier attempts left. */
  lemma LeftoversNeverClash(keys: Catalogue, orphaned: set<Definition>)
    requires forall n :: n in keys ==> IsApplication(keys[n].signature.table)
    ensures IsBuildable(keys, orphaned) <==> orphaned == {}
  {
  }

  /** Afterwards each of the seven relationships is declared exactly once, under its own name
      and with ON DELETE CASCADE. */
  lemma OneKeyPerRelationship(keys: Catalogue, orphaned: set<Definition>, d: Definition, n: Name)
    requires IsBuildable(keys, orphaned)
    ensures (n in Intended(keys) && Intended(keys)[n].signature == ExpectedSignature(d)) <==> n == Canonical(d)
    ensures Canonical(d) in Intended(keys) && Intended(keys)[Canonical(d)] == Rebuilt(d)
  {
    DefinitionListed(d);
    RebuiltUnderOneName(d, n);
    ExpectedIsRelated(keys, n, d);
  }

  lemma ExpectedIsRelated(keys: Catalogue, n: Name, d: Definition)
    ensures n in Unrelated(keys) ==> keys[n].signature != ExpectedSignature(d)
  {
    TablesOfDefinition(d);
    DefinitionListed(d);
    var i :| 0 <= i < |FOREIGN_KEYS| && FOREIGN_KEYS[i] == d;
    assert IsExpected(ExpectedSignature(d));
  }

  lemma RebuiltUnderOneName(d: Definition, n: Name)
    ensures n in Created(FOREIGN_KEYS) && Created(FOREIGN_KEYS)[n].signature == ExpectedSignature(d) ==>
      n == Canonical(d)
  {
  }
}
