/** Migration 0041: warehouses for every location, a warehouse for every stock movement and
    a warehouse-scoped reversal key.  MySQL commits each DDL statement at once, so the
    migration may stop between any two statements and is rerun from the top. */
module WarehouseMigration {
  import opened Sql
  import opened Interruption
  import opened Movements

  datatype Location = Location(id: int, tenant: int, organization: int)
  datatype Item = Item(id: int, scope: Scope)
  datatype Warehouse = Warehouse(
    id: int, scope: Scope, code: string, name: string, status: string,
    defaultSlot: Option<int>, policy: string, version: int)

  /** Columns of `stock_movements`; only those the migration adds need a name here. */
  datatype Column =
    | WarehouseId | NegativeStockPolicy | NegativeStockWarning | ResultingStockQuantity
    | OtherColumn(column: string)

  /** Column lists of keys and indexes on `stock_movements`:
      (warehouse_id, tenant_id, organization_id, location_id);
      (reversal_of_movement_id, tenant_id, organization_id, location_id, inventory_item_id),
      followed by warehouse_id when scoped; and the columns of the stock index. */
  datatype ColumnList =
    | WarehouseColumns | ReversalColumns(scoped: bool) | StockColumns | OtherColumns(columns: seq<string>)
  {
    predicate PrefixOf(longer: ColumnList) {
      this == longer || (this == ReversalColumns(false) && longer == ReversalColumns(true))
    }
  }

  /** What the catalogue says about `warehouses` and about the columns, constraints and
      indexes of `stock_movements` that 0041 inspects.  A foreign key and the index that
      supports it carry the same name: `warehouseKey` is fk_stock_movements_warehouse_scope
      and `reversalKey` fk_stock_movements_reversal_scope, each with the columns it covers. */
  datatype Schema = Schema(
    warehouses: bool, locationStatusIndex: bool, columns: set<Column>, warehouseNullable: bool)

  datatype Keys = Keys(
    scopeUnique: bool, policyCheck: bool, stockIndex: bool,
    warehouseKey: Option<ColumnList>, warehouseKeyIndex: Option<ColumnList>,
    reversalKey: Option<ColumnList>, reversalKeyIndex: Option<ColumnList>)

  datatype Rows = Rows(
    locations: seq<Location>, items: seq<Item>,
    warehouses: seq<Warehouse>, movements: seq<Movement>, nextWarehouse: int)

  datatype Database = Database(schema: Schema, keys: Keys, rows: Rows)

  const MOVEMENT_COLUMNS: set<Column> :=
    {WarehouseId, NegativeStockPolicy, NegativeStockWarning, ResultingStockQuantity}

  // ---------- the statements, and when MySQL rejects them ----------

  function ScopeOf(l: Location): Scope {
    Scope(l.tenant, l.organization, l.id)
  }

  predicate IsDefaultFor(w: Warehouse, scope: Scope) {
    w.scope == scope && w.defaultSlot == Some(1)
  }

  predicate HasDefault(ws: seq<Warehouse>, scope: Scope) {
    exists k :: 0 <= k < |ws| && IsDefaultFor(ws[k], scope)
  }

  function DefaultWarehouse(id: int, l: Location): Warehouse {
    Warehouse(id, ScopeOf(l), "DEFAULT", "Default Warehouse", "ACTIVE", Some(1), "ALLOW", 1)
  }

  /** Rows of `INSERT INTO warehouses SELECT ... FROM locations WHERE NOT EXISTS (default)`,
      numbered from `next`. */
  function MissingDefaults(ls: seq<Location>, ws: seq<Warehouse>, next: int): seq<Warehouse> {
    if ls == [] then []
    else if HasDefault(ws, ScopeOf(ls[0])) then MissingDefaults(ls[1..], ws, next)
    else [DefaultWarehouse(next, ls[0])] + MissingDefaults(ls[1..], ws, next + 1)
  }

  /** The three UNIQUE constraints of `warehouses` and its primary key; NULL slots never collide. */
  predicate WarehousesUnique(ws: seq<Warehouse>) {
    forall i, j :: 0 <= i < j < |ws| ==>
      && ws[i].id != ws[j].id
      && (ws[i].scope != ws[j].scope || ws[i].code != ws[j].code)
      && (ws[i].scope != ws[j].scope || ws[i].defaultSlot.None? || ws[i].defaultSlot != ws[j].defaultSlot)
  }

  /** Id of the default warehouse joined to a movement by the backfill UPDATE. */
  function JoinedDefault(ws: seq<Warehouse>, scope: Scope): Option<int> {
    if ws == [] then None
    else if IsDefaultFor(ws[0], scope) then Some(ws[0].id)
    else JoinedDefault(ws[1..], scope)
  }

  function Assigned(m: Movement, ws: seq<Warehouse>): Movement {
    if m.warehouse.None? then m.(warehouse := JoinedDefault(ws, m.scope)) else m
  }

  /** A new column holds its server default, or NULL, in every existing row. */
  function WithNewColumn(m: Movement, name: Column): Movement {
    if name == WarehouseId then m.(warehouse := None)
    else if name == NegativeStockPolicy then m.(policy := "ALLOW")
    else if name == NegativeStockWarning then m.(warning := false)
    else m.(resulting := None)
  }

  function AllWithNewColumn(ms: seq<Movement>, name: Column): seq<Movement> {
    seq(|ms|, k requires 0 <= k < |ms| => WithNewColumn(ms[k], name))
  }

  function AllAssigned(ms: seq<Movement>, ws: seq<Warehouse>): seq<Movement> {
    seq(|ms|, k requires 0 <= k < |ms| => Assigned(ms[k], ws))
  }

  /** Simple-match foreign key (section 11.8 of SQL-92): a row with a NULL is not checked. */
  predicate HasWarehouseRow(m: Movement, ws: seq<Warehouse>) {
    m.warehouse.Some? ==>
      exists k :: 0 <= k < |ws| && ws[k].id == m.warehouse.value && ws[k].scope == m.scope
  }

  predicate Reverses(m: Movement, target: Movement) {
    && m.reversalOf == Some(target.id)
    && m.scope == target.scope && m.item == target.item
  }

  /** The reversal foreign key without warehouse_id, or with it when `scoped`. */
  predicate HasReversalTarget(m: Movement, ms: seq<Movement>, scoped: bool) {
    m.reversalOf.Some? && (scoped ==> m.warehouse.Some?) ==>
      exists k :: 0 <= k < |ms| && Reverses(m, ms[k]) && (scoped ==> ms[k].warehouse == m.warehouse)
  }

  predicate WarehouseKeyHolds(ms: seq<Movement>, ws: seq<Warehouse>) {
    forall k {:trigger HasWarehouseRow(ms[k], ws)} :: 0 <= k < |ms| ==> HasWarehouseRow(ms[k], ws)
  }

  predicate ReversalKeyHolds(ms: seq<Movement>, scoped: bool) {
    forall k {:trigger HasReversalTarget(ms[k], ms, scoped)} :: 0 <= k < |ms| ==> HasReversalTarget(ms[k], ms, scoped)
  }

  /** A foreign key brings a supporting index of its own name; MySQL absorbs an index left
      under that name only when its columns are a prefix of the key. */
  predicate Absorbs(index: Option<ColumnList>, columns: ColumnList) {
    index.Some? ==> index.value.PrefixOf(columns)
  }

  predicate DistinctIds(ms: seq<Movement>) {
    forall i, j :: 0 <= i < j < |ms| ==> ms[i].id != ms[j].id
  }

  // Each statement as a function: the database it leaves, or None when MySQL rejects it.

  function CreateWarehouseTable(s: Schema): Option<Schema> {
    if s.warehouses then None
    else Some(s.(warehouses := true, locationStatusIndex := false))
  }

  function CreateLocationStatusIndex(s: Schema): Option<Schema> {
    if !s.warehouses || s.locationStatusIndex then None
    else Some(s.(locationStatusIndex := true))
  }

  function InsertDefaultWarehouses(db: Database): Option<Database> {
    var added := MissingDefaults(db.rows.locations, db.rows.warehouses, db.rows.nextWarehouse);
    if !db.schema.warehouses || !WarehousesUnique(db.rows.warehouses + added) then None
    else Some(db.(rows := db.rows.(warehouses := db.rows.warehouses + added,
                                   nextWarehouse := db.rows.nextWarehouse + |added|)))
  }

  function AddColumn(db: Database, name: Column): Option<Database> {
    if name in db.schema.columns then None
    else Some(db.(
      schema := db.schema.(columns := db.schema.columns + {name},
                 warehouseNullable := name == WarehouseId || db.schema.warehouseNullable),
      rows := db.rows.(movements := AllWithNewColumn(db.rows.movements, name))))
  }

  function AssignWarehouses(db: Database): Option<Database> {
    if !db.schema.warehouses || WarehouseId !in db.schema.columns then None
    else Some(db.(rows := db.rows.(movements := AllAssigned(db.rows.movements, db.rows.warehouses))))
  }

  predicate SomeUnassigned(ms: seq<Movement>) {
    exists k :: 0 <= k < |ms| && ms[k].warehouse.None?
  }

  function RequireWarehouse(s: Schema, rows: Rows): Option<Schema> {
    if SomeUnassigned(rows.movements) then None
    else Some(s.(warehouseNullable := false))
  }

  // DDL that only touches the catalogue, after checking the rows.

  function CreateScopeUnique(s: Keys, rows: Rows): Option<Keys> {
    if s.scopeUnique || !DistinctIds(rows.movements) then None
    else Some(s.(scopeUnique := true))
  }

  function DropWarehouseKeyIndex(s: Keys): Option<Keys> {
    if s.warehouseKeyIndex.None? || s.warehouseKey.Some? then None
    else Some(s.(warehouseKeyIndex := None))
  }

  function CreateWarehouseKey(s: Keys, rows: Rows): Option<Keys> {
    if s.warehouseKey.Some? || !Absorbs(s.warehouseKeyIndex, WarehouseColumns)
       || !WarehouseKeyHolds(rows.movements, rows.warehouses) then None
    else Some(s.(warehouseKey := Some(WarehouseColumns), warehouseKeyIndex := Some(WarehouseColumns)))
  }

  function DropReversalKey(s: Keys): Option<Keys> {
    if s.reversalKey.None? then None else Some(s.(reversalKey := None))
  }

  /** The key needs the UNIQUE on the columns it refers to. */
  function CreateReversalKey(s: Keys, rows: Rows): Option<Keys> {
    var columns := Some(ReversalColumns(true));
    if s.reversalKey.Some? || !s.scopeUnique || !Absorbs(s.reversalKeyIndex, columns.value)
       || !ReversalKeyHolds(rows.movements, true) then None
    else Some(s.(reversalKey := columns, reversalKeyIndex := columns))
  }

  predicate KnownPolicies(ms: seq<Movement>) {
    forall k :: 0 <= k < |ms| ==> ms[k].policy in {"ALLOW", "WARN", "BLOCK"}
  }

  function CreatePolicyCheck(s: Keys, rows: Rows): Option<Keys> {
    if s.policyCheck || !KnownPolicies(rows.movements) then None
    else Some(s.(policyCheck := true))
  }

  function CreateStockIndex(s: Keys): Option<Keys> {
    if s.stockIndex then None else Some(s.(stockIndex := true))
  }

  // ---------- when MySQL rejects a statement, from the catalogue and the rows ----------

  predicate SharesId(ms: seq<Movement>) {
    exists i, j :: 0 <= i < j < |ms| && ms[i].id == ms[j].id
  }

  /** A movement names a warehouse that is none of its own location's. */
  predicate NamesForeignWarehouse(ms: seq<Movement>, ws: seq<Warehouse>) {
    exists i :: (0 <= i < |ms| && ms[i].warehouse.Some?
      && forall k :: 0 <= k < |ws| && ws[k].id == ms[i].warehouse.value ==> ws[k].scope != ms[i].scope)
  }

  /** A reversal names no movement of its own scope, item and warehouse. */
  predicate ReversesElsewhere(ms: seq<Movement>) {
    exists i :: (0 <= i < |ms| && ms[i].reversalOf.Some? && ms[i].warehouse.Some?
      && forall k :: 0 <= k < |ms| && ms[k].id == ms[i].reversalOf.value ==>
           ms[k].scope != ms[i].scope || ms[k].item != ms[i].item || ms[k].warehouse != ms[i].warehouse)
  }

  /** Two warehouses share an id, or a code or default slot of one location. */
  predicate RepeatsWarehouse(ws: seq<Warehouse>) {
    exists i, j :: 0 <= i < j < |ws| && (ws[i].id == ws[j].id || (ws[i].scope == ws[j].scope
      && (ws[i].code == ws[j].code || (ws[i].defaultSlot.Some? && ws[i].defaultSlot == ws[j].defaultSlot))))
  }

  predicate HasUnknownPolicy(ms: seq<Movement>) {
    exists i :: 0 <= i < |ms| && ms[i].policy != "ALLOW" && ms[i].policy != "WARN" && ms[i].policy != "BLOCK"
  }

  /** What each key statement needs: nothing of its name there, and rows that satisfy it. */
  lemma KeyStatementsAreRejectedExactly(s: Keys, rows: Rows)
    ensures CreateScopeUnique(s, rows).None? <==> s.scopeUnique || SharesId(rows.movements)
    ensures CreateWarehouseKey(s, rows).None? <==>
      s.warehouseKey.Some? || (s.warehouseKeyIndex.Some? && s.warehouseKeyIndex != Some(WarehouseColumns))
      || NamesForeignWarehouse(rows.movements, rows.warehouses)
    ensures CreateReversalKey(s, rows).None? <==>
      s.reversalKey.Some? || !s.scopeUnique
      || (s.reversalKeyIndex.Some? && !s.reversalKeyIndex.value.ReversalColumns?)
      || ReversesElsewhere(rows.movements)
    ensures CreatePolicyCheck(s, rows).None? <==> s.policyCheck || HasUnknownPolicy(rows.movements)
    ensures CreateStockIndex(s).None? <==> s.stockIndex
    ensures DropReversalKey(s).None? <==> s.reversalKey.None?
    ensures DropWarehouseKeyIndex(s).None? <==> s.warehouseKeyIndex.None? || s.warehouseKey.Some?
  {
    WarehouseKeyFails(rows.movements, rows.warehouses);
    ReversalKeyFails(rows.movements);
  }

  lemma WarehouseKeyFails(ms: seq<Movement>, ws: seq<Warehouse>)
    ensures !WarehouseKeyHolds(ms, ws) <==> NamesForeignWarehouse(ms, ws)
  {
    if i :| (0 <= i < |ms| && ms[i].warehouse.Some?
      && forall k :: 0 <= k < |ws| && ws[k].id == ms[i].warehouse.value ==> ws[k].scope != ms[i].scope)
    {
      assert !HasWarehouseRow(ms[i], ws);
    }
  }

  lemma ReversalKeyFails(ms: seq<Movement>)
    ensures !ReversalKeyHolds(ms, true) <==> ReversesElsewhere(ms)
  {
    if i :| (0 <= i < |ms| && ms[i].reversalOf.Some? && ms[i].warehouse.Some?
      && forall k :: 0 <= k < |ms| && ms[k].id == ms[i].reversalOf.value ==>
           ms[k].scope != ms[i].scope || ms[k].item != ms[i].item || ms[k].warehouse != ms[i].warehouse)
    {
      assert !HasReversalTarget(ms[i], ms, true);
    }
    if !ReversalKeyHolds(ms, true) {
      var i :| 0 <= i < |ms| && !HasReversalTarget(ms[i], ms, true);
      forall k | 0 <= k < |ms| && ms[k].id == ms[i].reversalOf.value
        ensures ms[k].scope != ms[i].scope || ms[k].item != ms[i].item || ms[k].warehouse != ms[i].warehouse
      {
        assert !(Reverses(ms[i], ms[k]) && ms[k].warehouse == ms[i].warehouse);
      }
    }
  }

  /** What each statement on tables, columns and rows needs. */
  lemma RowStatementsAreRejectedExactly(db: Database, name: Column)
    ensures CreateWarehouseTable(db.schema).None? <==> db.schema.warehouses
    ensures CreateLocationStatusIndex(db.schema).None? <==> !db.schema.warehouses || db.schema.locationStatusIndex
    ensures InsertDefaultWarehouses(db).None? <==> !db.schema.warehouses || RepeatsWarehouse(
      db.rows.warehouses + MissingDefaults(db.rows.locations, db.rows.warehouses, db.rows.nextWarehouse))
    ensures AddColumn(db, name).None? <==> name in db.schema.columns
    ensures AssignWarehouses(db).None? <==> !db.schema.warehouses || WarehouseId !in db.schema.columns
    ensures RequireWarehouse(db.schema, db.rows).None? <==>
      exists k :: 0 <= k < |db.rows.movements| && db.rows.movements[k].warehouse.None?
  {
  }

  // ---------- balances ----------

  datatype BalanceKey = BalanceKey(tenant: int, location: int, item: int)

  function KeyOf(m: Movement): BalanceKey {
    BalanceKey(m.scope.tenant, m.scope.location, m.item)
  }

  /** SUM(quantity) grouped by (tenant, location, item), optionally over rows with a warehouse. */
  function Balances(ms: seq<Movement>, warehouseScoped: bool): map<BalanceKey, real> {
    if ms == [] then map[]
    else
      var rest := Balances(ms[..|ms|-1], warehouseScoped);
      var m := ms[|ms|-1];
      if warehouseScoped && m.warehouse.None? then rest
      else
        var key := KeyOf(m);
        rest[key := (if key in rest then rest[key] else 0.0) + m.quantity]
  }

  /** A movement the grouped query counts under the key. */
  predicate CountsFor(m: Movement, key: BalanceKey, warehouseScoped: bool) {
    && m.scope.tenant == key.tenant && m.scope.location == key.location && m.item == key.item
    && (warehouseScoped ==> m.warehouse.Some?)
  }

  /** The sum of the quantities counted under one key. */
  function StockOf(ms: seq<Movement>, key: BalanceKey, warehouseScoped: bool): real {
    if ms == [] then 0.0
    else
      var m := ms[|ms|-1];
      StockOf(ms[..|ms|-1], key, warehouseScoped) + (if CountsFor(m, key, warehouseScoped) then m.quantity else 0.0)
  }

  /** The grouped query has one group for each key that some counted movement has, and its sum
      is the sum of their quantities. */
  lemma {:induction false} BalanceIsStock(ms: seq<Movement>, key: BalanceKey, warehouseScoped: bool)
    ensures key in Balances(ms, warehouseScoped) <==>
      exists k :: 0 <= k < |ms| && CountsFor(ms[k], key, warehouseScoped)
    ensures key in Balances(ms, warehouseScoped) ==>
      Balances(ms, warehouseScoped)[key] == StockOf(ms, key, warehouseScoped)
    ensures key !in Balances(ms, warehouseScoped) ==> StockOf(ms, key, warehouseScoped) == 0.0
  {
    if ms != [] {
      var fewer, m := ms[..|ms|-1], ms[|ms|-1];
      BalanceIsStock(fewer, key, warehouseScoped);
      assert CountsFor(m, key, warehouseScoped) <==> KeyOf(m) == key && (warehouseScoped ==> m.warehouse.Some?);
      if k :| 0 <= k < |fewer| && CountsFor(fewer[k], key, warehouseScoped) {
        assert CountsFor(ms[k], key, warehouseScoped);
      }
      if CountsFor(m, key, warehouseScoped) { assert CountsFor(ms[|ms|-1], key, warehouseScoped); }
    }
  }

  // ---------- what stays, and what a rerun may find ----------

  /** A movement without the four columns 0041 adds. */
  function Original(m: Movement): Movement {
    m.(warehouse := None, policy := "", warning := false, resulting := None)
  }

  ghost predicate SameOriginals(a: seq<Movement>, b: seq<Movement>) {
    |a| == |b| && forall k :: 0 <= k < |a| ==> Original(a[k]) == Original(b[k])
  }

  /** A database at revision 0040: foreign keys hold and nothing of 0041 exists.  An index
      named like the warehouse key may be left over from an earlier downgrade. */
  ghost predicate Before(db: Database) {
    && var s := db.schema;
    && !s.warehouses && !s.locationStatusIndex && db.rows.warehouses == [] && s.warehouseNullable
    && s.columns !! MOVEMENT_COLUMNS
    && !db.keys.scopeUnique && !db.keys.policyCheck && !db.keys.stockIndex && db.keys.warehouseKey.None?
    && db.keys.reversalKey == Some(ReversalColumns(false))
    && Absorbs(db.keys.reversalKeyIndex, ReversalColumns(false))
    && DistinctIds(db.rows.movements)
    && (forall i, j :: 0 <= i < j < |db.rows.locations| ==> db.rows.locations[i].id != db.rows.locations[j].id)
    && (forall k :: 0 <= k < |db.rows.movements| ==> ItemKeyHolds(db.rows.movements[k], db.rows.items))
    && (forall k :: 0 <= k < |db.rows.items| ==> LocationKeyHolds(db.rows.items[k], db.rows.locations))
    && ReversalKeyHolds(db.rows.movements, false)
  }

  /** fk_stock_movements_item_scope and fk_inventory_items_location_scope. */
  ghost predicate ItemKeyHolds(m: Movement, items: seq<Item>) {
    exists k :: 0 <= k < |items| && items[k] == Item(m.item, m.scope)
  }

  ghost predicate LocationKeyHolds(item: Item, ls: seq<Location>) {
    exists k :: 0 <= k < |ls| && ScopeOf(ls[k]) == item.scope
  }

  /** Default rows only, one per location, under ids below `next`. */
  ghost predicate OnlyDefaults(ws: seq<Warehouse>, ls: seq<Location>, next: int) {
    && ScopesAndIdsDiffer(ws)
    && forall k :: 0 <= k < |ws| ==> ws[k].id < next && IsDefaultRow(ws[k], ls)
  }

  ghost predicate ScopesAndIdsDiffer(ws: seq<Warehouse>) {
    forall i, j :: 0 <= i < j < |ws| ==> ws[i].id != ws[j].id && ws[i].scope != ws[j].scope
  }

  ghost predicate IsDefaultRow(w: Warehouse, ls: seq<Location>) {
    exists l :: l in ls && w == DefaultWarehouse(w.id, l)
  }

  ghost predicate CurrentColumns(m: Movement, s: Schema, ws: seq<Warehouse>) {
    && (WarehouseId in s.columns ==> m.warehouse.Some? ==> OwnDefault(m, ws))
    && (NegativeStockPolicy in s.columns ==> m.policy == "ALLOW")
    && (NegativeStockWarning in s.columns ==> !m.warning)
    && (ResultingStockQuantity in s.columns ==> m.resulting.None?)
  }

  /** The movement's warehouse is the default warehouse of the movement's own location. */
  ghost predicate OwnDefault(m: Movement, ws: seq<Warehouse>) {
    m.warehouse.Some? && exists k :: 0 <= k < |ws| && ws[k].id == m.warehouse.value && IsDefaultFor(ws[k], m.scope)
  }

  /** Everything an interrupted run can leave behind. */
  ghost predicate Progress(start: Database, db: Database) {
    RowsProgress(start, db) && KeysProgress(db.keys)
  }

  ghost predicate RowsProgress(start: Database, db: Database) {
    && var s := db.schema;
    && db.rows.locations == start.rows.locations && db.rows.items == start.rows.items
    && SameOriginals(start.rows.movements, db.rows.movements)
    && (!s.warehouses ==> db.rows.warehouses == [] && !s.locationStatusIndex)
    && OnlyDefaults(db.rows.warehouses, db.rows.locations, db.rows.nextWarehouse)
    && start.schema.columns <= s.columns <= start.schema.columns + MOVEMENT_COLUMNS
    && (forall k :: 0 <= k < |db.rows.movements| ==> CurrentColumns(db.rows.movements[k], s, db.rows.warehouses))
    && (!s.warehouseNullable ==> WarehouseId in s.columns)
  }

  ghost predicate KeysProgress(s: Keys) {
    && (s.warehouseKey.Some? ==> s.warehouseKey.value.WarehouseColumns? && OnWarehouse(s.warehouseKeyIndex))
    && (s.reversalKey.Some? ==> s.reversalKey.value.ReversalColumns?)
    && (IsRescoped(s.reversalKey) ==> IsRescoped(s.reversalKeyIndex))
    && Absorbs(s.reversalKeyIndex, ReversalColumns(true))
  }

  predicate OnWarehouse(key: Option<ColumnList>) {
    key.Some? && key.value.WarehouseColumns?
  }

  predicate IsRescoped(key: Option<ColumnList>) {
    key.Some? && key.value.ReversalColumns? && key.value.scoped
  }

  /** The migrated catalogue, but for the index `ix_warehouses_location_status`. */
  function MigratedSchema(s0: Schema, locationStatusIndex: bool): Schema {
    Schema(true, locationStatusIndex, s0.columns + MOVEMENT_COLUMNS, false)
  }

  const MIGRATED_KEYS := Keys(true, true, true, Some(WarehouseColumns), Some(WarehouseColumns),
                              Some(ReversalColumns(true)), Some(ReversalColumns(true)))

  /** The migrated database: every row and constraint 0041 promises. */
  ghost predicate Migrated(start: Database, db: Database) {
    && Progress(start, db)
    && db.schema == MigratedSchema(start.schema, db.schema.locationStatusIndex) && db.keys == MIGRATED_KEYS
    && (forall l :: l in db.rows.locations ==> HasDefault(db.rows.warehouses, ScopeOf(l)))
    && (forall k :: 0 <= k < |db.rows.movements| ==> OwnDefault(db.rows.movements[k], db.rows.warehouses))
    && WarehouseKeyHolds(db.rows.movements, db.rows.warehouses) && ReversalKeyHolds(db.rows.movements, true)
  }

  predicate SameExceptKeys(a: Keys, b: Keys) {
    a.scopeUnique == b.scopeUnique && a.policyCheck == b.policyCheck && a.stockIndex == b.stockIndex
  }

  predicate AllConstraintsPresent(s: Keys) {
    && s.scopeUnique && s.policyCheck && s.stockIndex
    && OnWarehouse(s.warehouseKey) && IsRescoped(s.reversalKey)
  }

  /** `warehouses` and its catalogue entries are untouched. */
  predicate SameWarehouses(a: Database, b: Database) {
    && a.rows.warehouses == b.rows.warehouses && a.rows.locations == b.rows.locations
    && a.rows.nextWarehouse == b.rows.nextWarehouse
    && a.schema.warehouses == b.schema.warehouses
    && a.schema.locationStatusIndex == b.schema.locationStatusIndex
  }

  ghost predicate ReadyToBackfill(start: Database, db: Database) {
    && db.schema.warehouses && db.schema.columns == start.schema.columns + MOVEMENT_COLUMNS
    && forall l :: l in db.rows.locations ==> HasDefault(db.rows.warehouses, ScopeOf(l))
  }

  ghost predicate Backfilled(db: Database) {
    && !db.schema.warehouseNullable
    && forall k :: 0 <= k < |db.rows.movements| ==> OwnDefault(db.rows.movements[k], db.rows.warehouses)
  }

  // ---------- lemmas the statements need ----------

  ghost predicate InsertedFor(w: Warehouse, ls: seq<Location>, ws: seq<Warehouse>, from: int, below: int) {
    && from <= w.id < below && !HasDefault(ws, w.scope)
    && exists l :: l in ls && w == DefaultWarehouse(w.id, l)
  }

  /** Own default rows for exactly the locations that had none, under fresh ids. */
  ghost predicate CoversMissing(added: seq<Warehouse>, ls: seq<Location>, ws: seq<Warehouse>, next: int) {
    && ScopesAndIdsDiffer(added)
    && (forall k :: 0 <= k < |added| ==> InsertedFor(added[k], ls, ws, next, next + |added|))
    && (forall l :: l in ls ==> HasDefault(ws, ScopeOf(l)) || HasDefault(added, ScopeOf(l)))
  }

  /** The rows inserted for the locations `ls`. */
  lemma {:induction false} MissingDefaultsCoverLocations(ls: seq<Location>, ws: seq<Warehouse>, next: int)
    requires forall i, j :: 0 <= i < j < |ls| ==> ls[i].id != ls[j].id
    ensures CoversMissing(MissingDefaults(ls, ws, next), ls, ws, next)
  {
    if ls != [] {
      var l0, tail := ls[0], ls[1..];
      assert ls == [l0] + tail;
      if HasDefault(ws, ScopeOf(l0)) {
        MissingDefaultsCoverLocations(tail, ws, next);
        SkipLocation(l0, tail, ws, next, MissingDefaults(tail, ws, next));
      } else {
        MissingDefaultsCoverLocations(tail, ws, next + 1);
        PrependDefault(l0, tail, ws, next, MissingDefaults(tail, ws, next + 1));
      }
    }
  }

  lemma SkipLocation(l0: Location, tail: seq<Location>, ws: seq<Warehouse>, next: int, rest: seq<Warehouse>)
    requires HasDefault(ws, ScopeOf(l0)) && CoversMissing(rest, tail, ws, next)
    ensures CoversMissing(rest, [l0] + tail, ws, next)
  {
    InsertedForMoreLocations(rest, l0, tail, ws, next, next);
  }

  lemma InsertedForMoreLocations(
      rest: seq<Warehouse>, l0: Location, tail: seq<Location>, ws: seq<Warehouse>, from: int, base: int)
    requires from <= base
    requires forall k :: 0 <= k < |rest| ==> InsertedFor(rest[k], tail, ws, base, base + |rest|)
    ensures forall k :: 0 <= k < |rest| ==> InsertedFor(rest[k], [l0] + tail, ws, from, base + |rest|)
  {
  }

  lemma PrependDefault(l0: Location, tail: seq<Location>, ws: seq<Warehouse>, next: int, rest: seq<Warehouse>)
    requires !HasDefault(ws, ScopeOf(l0)) && CoversMissing(rest, tail, ws, next + 1)
    requires forall l :: l in tail ==> l.id != l0.id
    ensures CoversMissing([DefaultWarehouse(next, l0)] + rest, [l0] + tail, ws, next)
  {
    var added := [DefaultWarehouse(next, l0)] + rest;
    assert l0 in [l0] + tail;
    PrependedDiffer(l0, tail, ws, next, rest);
    assert IsDefaultFor(added[0], ScopeOf(l0));
    DefaultsSurviveAppend([added[0]], rest);
    InsertedForMoreLocations(rest, l0, tail, ws, next, next + 1);
  }

  lemma PrependedDiffer(l0: Location, tail: seq<Location>, ws: seq<Warehouse>, next: int, rest: seq<Warehouse>)
    requires CoversMissing(rest, tail, ws, next + 1) && forall l :: l in tail ==> l.id != l0.id
    ensures ScopesAndIdsDiffer([DefaultWarehouse(next, l0)] + rest)
  {
    forall k | 0 <= k < |rest| ensures rest[k].scope != ScopeOf(l0) && rest[k].id > next {
      assert InsertedFor(rest[k], tail, ws, next + 1, next + 1 + |rest|);
    }
  }

  lemma DefaultsSurviveAppend(a: seq<Warehouse>, b: seq<Warehouse>)
    ensures forall scope :: HasDefault(a, scope) || HasDefault(b, scope) ==> HasDefault(a + b, scope)
  {
    forall scope | HasDefault(a, scope) || HasDefault(b, scope) ensures HasDefault(a + b, scope) {
      if HasDefault(a, scope) {
        var k :| 0 <= k < |a| && IsDefaultFor(a[k], scope);
        assert IsDefaultFor((a + b)[k], scope);
      } else {
        var k :| 0 <= k < |b| && IsDefaultFor(b[k], scope);
        assert IsDefaultFor((a + b)[|a| + k], scope);
      }
    }
  }

  lemma AppendStaysDistinct(a: seq<Warehouse>, b: seq<Warehouse>)
    requires ScopesAndIdsDiffer(a) && ScopesAndIdsDiffer(b)
    requires forall i, j :: 0 <= i < |a| && 0 <= j < |b| ==> a[i].id != b[j].id && a[i].scope != b[j].scope
    ensures ScopesAndIdsDiffer(a + b) && WarehousesUnique(a + b)
  {
  }

  lemma InsertKeepsOnlyDefaults(ls: seq<Location>, ws: seq<Warehouse>, next: int)
    requires OnlyDefaults(ws, ls, next)
    requires forall i, j :: 0 <= i < j < |ls| ==> ls[i].id != ls[j].id
    ensures var added := MissingDefaults(ls, ws, next);
      && OnlyDefaults(ws + added, ls, next + |added|)
      && (forall l :: l in ls ==> HasDefault(ws + added, ScopeOf(l)))
      && WarehousesUnique(ws + added)
  {
    var added := MissingDefaults(ls, ws, next);
    MissingDefaultsCoverLocations(ls, ws, next);
    DefaultsSurviveAppend(ws, added);
    forall i, j | 0 <= i < |ws| && 0 <= j < |added| ensures ws[i].id != added[j].id && ws[i].scope != added[j].scope {
      assert IsDefaultFor(ws[i], ws[i].scope);
      assert InsertedFor(added[j], ls, ws, next, next + |added|);
    }
    AppendStaysDistinct(ws, added);
    forall k | 0 <= k < |ws + added|
      ensures (ws + added)[k].id < next + |added| && IsDefaultRow((ws + added)[k], ls)
    {
      if k >= |ws| { assert InsertedFor(added[k - |ws|], ls, ws, next, next + |added|); }
    }
  }

  lemma {:induction false} JoinFindsDefault(ws: seq<Warehouse>, scope: Scope)
    ensures JoinedDefault(ws, scope).Some? <==> HasDefault(ws, scope)
    ensures JoinedDefault(ws, scope).Some? ==>
      exists k :: 0 <= k < |ws| && ws[k].id == JoinedDefault(ws, scope).value && IsDefaultFor(ws[k], scope)
  {
    if ws != [] && !IsDefaultFor(ws[0], scope) {
      JoinFindsDefault(ws[1..], scope);
      if HasDefault(ws, scope) {
        var k :| 0 <= k < |ws| && IsDefaultFor(ws[k], scope);
        assert ws[k] == ws[1..][k-1];
      }
    }
  }

  /** Both RuntimeErrors of the backfill rest on this: rewriting the added columns of every
      row leaves each grouped sum alone, and the scoped sum counts every assigned row. */
  lemma {:induction false} BalancesIgnoreAddedColumns(a: seq<Movement>, b: seq<Movement>, scoped: bool)
    requires SameOriginals(a, b)
    requires scoped ==> forall k :: 0 <= k < |b| ==> b[k].warehouse.Some?
    ensures Balances(a, false) == Balances(b, scoped)
  {
    if a != [] {
      var n := |a| - 1;
      assert Original(a[n]) == Original(b[n]);
      BalancesIgnoreAddedColumns(a[..n], b[..n], scoped);
    }
  }

  /** Two default rows of one scope are one row. */
  lemma OneDefaultPerScope(ws: seq<Warehouse>, a: Movement, b: Movement)
    requires ScopesAndIdsDiffer(ws) && OwnDefault(a, ws) && OwnDefault(b, ws) && a.scope == b.scope
    ensures a.warehouse == b.warehouse
  {
  }

  /** Every existing reversal pair satisfies the warehouse-scoped key once both rows carry
      their own location's default warehouse. */
  lemma ReversalPairsStayValid(start: Database, db: Database)
    requires Before(start) && Progress(start, db)
    requires forall k :: 0 <= k < |db.rows.movements| ==> OwnDefault(db.rows.movements[k], db.rows.warehouses)
    ensures ReversalKeyHolds(db.rows.movements, true)
  {
    forall k | 0 <= k < |db.rows.movements| ensures HasReversalTarget(db.rows.movements[k], db.rows.movements, true) {
      var m, m0 := db.rows.movements[k], start.rows.movements[k];
      assert Original(m0) == Original(m);
      if m.reversalOf.Some? {
        assert HasReversalTarget(m0, start.rows.movements, false);
        var j :| 0 <= j < |start.rows.movements| && Reverses(m0, start.rows.movements[j]);
        var t := db.rows.movements[j];
        assert Original(start.rows.movements[j]) == Original(t);
        OneDefaultPerScope(db.rows.warehouses, m, t);
        assert Reverses(m, t);
      }
    }
  }

  /** Chaining the item key and the location key: every movement sits at a stored location. */
  lemma MovementsHaveLocations(start: Database, db: Database, k: nat)
    requires Before(start) && Progress(start, db) && k < |db.rows.movements|
    ensures exists l :: l in db.rows.locations && ScopeOf(l) == db.rows.movements[k].scope
  {
    var m := start.rows.movements[k];
    assert Original(m) == Original(db.rows.movements[k]);
    assert ItemKeyHolds(m, start.rows.items);
    var i :| 0 <= i < |start.rows.items| && start.rows.items[i] == Item(m.item, m.scope);
    assert LocationKeyHolds(start.rows.items[i], start.rows.locations);
    var j :| 0 <= j < |start.rows.locations| && ScopeOf(start.rows.locations[j]) == m.scope;
    assert start.rows.locations[j] in db.rows.locations;
  }

  lemma RowsProgressSurvives(start: Database, a: Database, b: Database)
    requires RowsProgress(start, a) && a.rows == b.rows && a.schema == b.schema
    ensures RowsProgress(start, b)
  {
  }

  lemma NewColumnKeepsProgress(start: Database, db: Database, name: Column)
    requires Progress(start, db) && name in MOVEMENT_COLUMNS && name !in db.schema.columns
    ensures Progress(start, AddColumn(db, name).value)
  {
    var after := AddColumn(db, name).value;
    forall k | 0 <= k < |after.rows.movements|
      ensures CurrentColumns(after.rows.movements[k], after.schema, after.rows.warehouses)
      ensures Original(after.rows.movements[k]) == Original(start.rows.movements[k])
    {
      assert CurrentColumns(db.rows.movements[k], db.schema, db.rows.warehouses);
      assert after.rows.movements[k] == WithNewColumn(db.rows.movements[k], name);
    }
  }

  lemma AssignmentReachesEveryRow(start: Database, db: Database)
    requires Before(start) && Progress(start, db) && ReadyToBackfill(start, db)
    ensures var after := AssignWarehouses(db).value;
      && Progress(start, after) && SameOriginals(db.rows.movements, after.rows.movements)
      && (forall k :: 0 <= k < |after.rows.movements| ==> OwnDefault(after.rows.movements[k], after.rows.warehouses))
      && Balances(db.rows.movements, false) == Balances(after.rows.movements, true)
  {
    var after := AssignWarehouses(db).value;
    forall k | 0 <= k < |after.rows.movements|
      ensures OwnDefault(after.rows.movements[k], after.rows.warehouses)
      ensures CurrentColumns(after.rows.movements[k], after.schema, after.rows.warehouses)
      ensures Original(after.rows.movements[k]) == Original(db.rows.movements[k]) == Original(start.rows.movements[k])
    {
      var m := db.rows.movements[k];
      assert CurrentColumns(m, db.schema, db.rows.warehouses);
      MovementsHaveLocations(start, db, k);
      JoinFindsDefault(db.rows.warehouses, m.scope);
      assert after.rows.movements[k] == Assigned(m, db.rows.warehouses);
    }
    BalancesIgnoreAddedColumns(db.rows.movements, after.rows.movements, true);
  }

  lemma BackfilledKeysHold(start: Database, db: Database)
    requires Before(start) && Progress(start, db) && Backfilled(db) && ReadyToBackfill(start, db)
    ensures WarehouseKeyHolds(db.rows.movements, db.rows.warehouses)
    ensures ReversalKeyHolds(db.rows.movements, true)
    ensures DistinctIds(db.rows.movements)
    ensures KnownPolicies(db.rows.movements)
  {
    ReversalPairsStayValid(start, db);
    forall i, j | 0 <= i < j < |db.rows.movements| ensures db.rows.movements[i].id != db.rows.movements[j].id {
      assert Original(db.rows.movements[i]) == Original(start.rows.movements[i]);
      assert Original(db.rows.movements[j]) == Original(start.rows.movements[j]);
    }
    forall k | 0 <= k < |db.rows.movements| ensures db.rows.movements[k].policy == "ALLOW" {
      assert CurrentColumns(db.rows.movements[k], db.schema, db.rows.warehouses);
    }
    forall k | 0 <= k < |db.rows.movements| ensures HasWarehouseRow(db.rows.movements[k], db.rows.warehouses) {
      assert OwnDefault(db.rows.movements[k], db.rows.warehouses);
    }
  }

  lemma OwnDefaultsSurvive(a: Database, b: Database)
    requires a.rows.warehouses <= b.rows.warehouses && a.rows.movements == b.rows.movements && a.schema == b.schema
    requires forall k :: 0 <= k < |a.rows.movements| ==>
      CurrentColumns(a.rows.movements[k], a.schema, a.rows.warehouses)
    ensures forall k :: 0 <= k < |b.rows.movements| ==> CurrentColumns(b.rows.movements[k], b.schema, b.rows.warehouses)
  {
  }

  lemma BurnedIdsKeepProgress(start: Database, db: Database, burned: nat)
    requires Progress(start, db)
    ensures Progress(start, db.(rows := db.rows.(nextWarehouse := db.rows.nextWarehouse + burned)))
  {
  }

  // ---------- the migration itself ----------

  /** An interrupted run: how many statements it completed, and how many auto-increment ids
      its rolled-back work consumed. */
  datatype Run = Run(completed: nat, burned: nat)

  /** `_create_warehouses` returns early once the table exists, so the index is lost exactly
      when the first run to complete a statement stops right after the CREATE TABLE. */
  predicate LosesIndex(runs: seq<Run>) {
    exists k :: 0 <= k < |runs| && runs[k].completed == 1 && forall j :: 0 <= j < k ==> runs[j].completed == 0
  }

  lemma LosesIndexStep(runs: seq<Run>, i: nat)
    requires i < |runs|
    ensures (exists k :: 0 <= k < i && runs[k].completed > 0) ==> (LosesIndex(runs[..i+1]) <==> LosesIndex(runs[..i]))
    ensures !(exists k :: 0 <= k < i && runs[k].completed > 0) ==> (LosesIndex(runs[..i+1]) <==> runs[i].completed == 1)
  {
    var now, was := runs[..i+1], runs[..i];
    if LosesIndex(was) {
      var k :| 0 <= k < |was| && was[k].completed == 1 && forall j :: 0 <= j < k ==> was[j].completed == 0;
      assert now[k].completed == 1 && forall j :: 0 <= j < k ==> now[j] == was[j];
    }
    if LosesIndex(now) {
      var k :| 0 <= k < |now| && now[k].completed == 1 && forall j :: 0 <= j < k ==> now[j].completed == 0;
      if k < i { assert was[k].completed == 1 && forall j :: 0 <= j < k ==> was[j] == now[j]; }
      else { assert forall j :: 0 <= j < i ==> runs[j] == now[j]; }
    }
    if runs[i].completed == 1 && !(exists k :: 0 <= k < i && runs[k].completed > 0) {
      assert now[i].completed == 1 && forall j :: 0 <= j < i ==> now[j].completed == 0;
    }
  }

  class Migration {
    var schema: Schema
    var keys: Keys
    var rows: Rows
    var fuel: Fuel

    function Db(): Database
      reads this
    {
      Database(schema, keys, rows)
    }

    constructor (db: Database)
      ensures Db() == db && fuel == Unlimited
    {
      schema, keys, rows, fuel := db.schema, db.keys, db.rows, Unlimited;
    }

    /** A rerun after an interruption.  A rolled-back INSERT has still burned its ids. */
    method Restart(fuel: Fuel, burned: nat)
      modifies `rows, `fuel
      ensures this.fuel == fuel && rows == old(rows).(nextWarehouse := old(rows.nextWarehouse) + burned)
    {
      this.fuel, rows := fuel, rows.(nextWarehouse := rows.nextWarehouse + burned);
    }

    /** One statement that rewrites rows; `after` is the database it leaves. */
    method Execute(after: Option<Database>) returns (r: Outcome)
      modifies this
      ensures r.Interrupted? <==> !Affords(old(fuel), 1)
      ensures r.Done? <==> Affords(old(fuel), 1) && after.Some?
      ensures r.Done? ==> Db() == after.value && fuel == Spent(old(fuel))
      ensures !r.Done? ==> schema == old(schema) && keys == old(keys) && rows == old(rows) && fuel == old(fuel)
      ensures !r.Raised?
    {
      if !Affords(fuel, 1) { return Interrupted; }
      if after.None? { return Rejected; }
      schema, keys, rows, fuel := after.value.schema, after.value.keys, after.value.rows, Spent(fuel);
      r := Done;
    }

    /** One DDL statement; `after` is the catalogue it leaves. */
    method Alter(after: Option<Schema>) returns (r: Outcome)
      modifies `schema, `fuel
      ensures r.Interrupted? <==> !Affords(old(fuel), 1)
      ensures r.Done? <==> Affords(old(fuel), 1) && after.Some?
      ensures r.Done? ==> schema == after.value && fuel == Spent(old(fuel))
      ensures !r.Done? ==> schema == old(schema) && fuel == old(fuel)
      ensures !r.Raised?
    {
      if !Affords(fuel, 1) { return Interrupted; }
      if after.None? { return Rejected; }
      schema, fuel := after.value, Spent(fuel);
      r := Done;
    }

    /** One DDL statement on a constraint of `stock_movements`. */
    method AlterKeys(after: Option<Keys>) returns (r: Outcome)
      modifies `keys, `fuel
      ensures r.Interrupted? <==> !Affords(old(fuel), 1)
      ensures r.Done? <==> Affords(old(fuel), 1) && after.Some?
      ensures r.Done? ==> keys == after.value && fuel == Spent(old(fuel))
      ensures !r.Done? ==> keys == old(keys) && fuel == old(fuel)
      ensures !r.Raised?
    {
      if !Affords(fuel, 1) { return Interrupted; }
      if after.None? { return Rejected; }
      keys, fuel := after.value, Spent(fuel);
      r := Done;
    }

    method CreateWarehouses(ghost start: Database) returns (r: Outcome)
      requires Before(start) && Progress(start, Db())
      modifies `schema, `fuel
      ensures Progress(start, Db())
      ensures r.Done? <==> old(schema.warehouses) || Affords(old(fuel), 2)
      ensures !r.Done? ==> r.Interrupted?
      ensures schema.warehouses == (old(schema.warehouses) || Affords(old(fuel), 1))
      ensures schema.locationStatusIndex ==
        (if old(schema.warehouses) then old(schema.locationStatusIndex) else Affords(old(fuel), 2))
      ensures old(fuel).Unlimited? ==> fuel.Unlimited?
    {
      if schema.warehouses { return Done; }
      r := Alter(CreateWarehouseTable(schema));
      if r.Done? {
        r := Alter(CreateLocationStatusIndex(schema));
      }
    }

    method CreateDefaultWarehouses(ghost start: Database) returns (r: Outcome)
      requires Before(start) && Progress(start, Db()) && schema.warehouses
      modifies this
      ensures Progress(start, Db()) && schema == old(schema) && keys == old(keys)
      ensures r.Done? || (r.Interrupted? && !old(fuel).Unlimited?)
      ensures r.Done? ==> forall l :: l in rows.locations ==> HasDefault(rows.warehouses, ScopeOf(l))
      ensures old(fuel).Unlimited? ==> fuel.Unlimited?
    {
      InsertKeepsOnlyDefaults(rows.locations, rows.warehouses, rows.nextWarehouse);
      ghost var was := Db();
      r := Execute(InsertDefaultWarehouses(Db()));
      if r.Done? { OwnDefaultsSurvive(was, Db()); }
    }

    method AddMovementColumn(name: Column, ghost start: Database) returns (r: Outcome)
      requires Before(start) && Progress(start, Db()) && name in MOVEMENT_COLUMNS
      modifies this
      ensures Progress(start, Db()) && SameWarehouses(old(Db()), Db())
      ensures r.Done? || (r.Interrupted? && !old(fuel).Unlimited?)
      ensures r.Done? ==> schema.columns == old(schema.columns) + {name}
      ensures old(fuel).Unlimited? ==> fuel.Unlimited?
    {
      if name in schema.columns { return Done; }
      NewColumnKeepsProgress(start, Db(), name);
      r := Execute(AddColumn(Db(), name));
    }

    method AddMovementColumns(ghost start: Database) returns (r: Outcome)
      requires Before(start) && Progress(start, Db())
      modifies this
      ensures Progress(start, Db()) && SameWarehouses(old(Db()), Db())
      ensures r.Done? || (r.Interrupted? && !old(fuel).Unlimited?)
      ensures r.Done? ==> schema.columns == start.schema.columns + MOVEMENT_COLUMNS
      ensures old(fuel).Unlimited? ==> fuel.Unlimited?
    {
      r := AddMovementColumn(WarehouseId, start);
      if r.Done? { r := AddMovementColumn(NegativeStockPolicy, start); }
      if r.Done? { r := AddMovementColumn(NegativeStockWarning, start); }
      if r.Done? { r := AddMovementColumn(ResultingStockQuantity, start); }
    }

    method BackfillMovements(ghost start: Database) returns (r: Outcome)
      requires Before(start) && Progress(start, Db()) && ReadyToBackfill(start, Db())
      modifies this
      ensures Progress(start, Db()) && SameWarehouses(old(Db()), Db()) && ReadyToBackfill(start, Db())
      ensures r.Done? || (r.Interrupted? && !old(fuel).Unlimited?)
      ensures r.Done? ==> Backfilled(Db())
      ensures old(fuel).Unlimited? ==> fuel.Unlimited?
    {
      var before := Balances(rows.movements, false);
      AssignmentReachesEveryRow(start, Db());
      r := Execute(AssignWarehouses(Db()));
      if r.Done? {
        if SomeUnassigned(rows.movements) {
          return Raised("Warehouse backfill left stock movements without authority");
        }
        var after := Balances(rows.movements, true);
        if before != after {
          return Raised("Warehouse backfill changed an inventory balance");
        }
        r := RequireWarehouses(start);
      }
    }

    /** MODIFY warehouse_id NOT NULL, unless an earlier run has done it. */
    method RequireWarehouses(ghost start: Database) returns (r: Outcome)
      requires Progress(start, Db()) && ReadyToBackfill(start, Db())
      requires forall k :: 0 <= k < |rows.movements| ==> OwnDefault(rows.movements[k], rows.warehouses)
      modifies `schema, `fuel
      ensures Progress(start, Db()) && SameWarehouses(old(Db()), Db()) && ReadyToBackfill(start, Db())
      ensures r.Done? || (r.Interrupted? && !old(fuel).Unlimited?)
      ensures r.Done? ==> Backfilled(Db())
      ensures old(fuel).Unlimited? ==> fuel.Unlimited?
    {
      r := Done;
      if schema.warehouseNullable {
        r := Alter(RequireWarehouse(schema, rows));
      }
    }

    method CreateWarehouseKeyIfMissing() returns (r: Outcome)
      requires KeysProgress(keys) && WarehouseKeyHolds(rows.movements, rows.warehouses)
      modifies `keys, `fuel
      ensures KeysProgress(keys) && SameExceptKeys(old(keys), keys)
      ensures r.Done? || (r.Interrupted? && !old(fuel).Unlimited?)
      ensures r.Done? ==> keys.warehouseKey.Some?
      ensures old(fuel).Unlimited? ==> fuel.Unlimited?
    {
      r := Done;
      if keys.warehouseKey.None? {
        if keys.warehouseKeyIndex.Some? {
          r := AlterKeys(DropWarehouseKeyIndex(keys));
        }
        if r.Done? {
          r := AlterKeys(CreateWarehouseKey(keys, rows));
        }
      }
    }

    method RescopeReversalKey() returns (r: Outcome)
      requires KeysProgress(keys) && keys.scopeUnique && ReversalKeyHolds(rows.movements, true)
      modifies `keys, `fuel
      ensures KeysProgress(keys) && SameExceptKeys(old(keys), keys)
      ensures keys.warehouseKey == old(keys.warehouseKey)
      ensures r.Done? || (r.Interrupted? && !old(fuel).Unlimited?)
      ensures r.Done? ==> IsRescoped(keys.reversalKey)
      ensures old(fuel).Unlimited? ==> fuel.Unlimited?
    {
      r := Done;
      if keys.reversalKey.Some? && !IsRescoped(keys.reversalKey) {
        r := AlterKeys(DropReversalKey(keys));
      }
      if r.Done? && keys.reversalKey.None? {
        r := AlterKeys(CreateReversalKey(keys, rows));
      }
    }

    method CreateConstraints() returns (r: Outcome)
      requires KeysProgress(keys)
      requires WarehouseKeyHolds(rows.movements, rows.warehouses) && ReversalKeyHolds(rows.movements, true)
      requires DistinctIds(rows.movements) && KnownPolicies(rows.movements)
      modifies `keys, `fuel
      ensures KeysProgress(keys)
      ensures r.Done? || (r.Interrupted? && !old(fuel).Unlimited?)
      ensures r.Done? ==> AllConstraintsPresent(keys)
      ensures old(fuel).Unlimited? ==> fuel.Unlimited?
    {
      r := Done;
      if !keys.scopeUnique {
        r := AlterKeys(CreateScopeUnique(keys, rows));
      }
      if r.Done? { r := CreateWarehouseKeyIfMissing(); }
      if r.Done? { r := RescopeReversalKey(); }
      if r.Done? && !keys.policyCheck {
        r := AlterKeys(CreatePolicyCheck(keys, rows));
      }
      if r.Done? && !keys.stockIndex {
        r := AlterKeys(CreateStockIndex(keys));
      }
    }

    method AddMovementConstraints(ghost start: Database) returns (r: Outcome)
      requires Before(start) && Progress(start, Db()) && ReadyToBackfill(start, Db()) && Backfilled(Db())
      modifies `keys, `fuel
      ensures Progress(start, Db()) && SameWarehouses(old(Db()), Db())
      ensures r.Done? || (r.Interrupted? && !old(fuel).Unlimited?)
      ensures r.Done? ==> Migrated(start, Db())
      ensures old(fuel).Unlimited? ==> fuel.Unlimited?
    {
      BackfilledKeysHold(start, Db());
      r := CreateConstraints();
      RowsProgressSurvives(start, old(Db()), Db());
    }

    /** The whole migration.  It ends Done or Interrupted: no statement is rejected and no
        RuntimeError is raised, whatever an earlier interrupted run left. */
    method Upgrade(ghost start: Database) returns (r: Outcome)
      requires Before(start) && Progress(start, Db())
      modifies this
      ensures Progress(start, Db())
      ensures r.Done? || (r.Interrupted? && !old(fuel).Unlimited?)
      ensures r.Done? ==> Migrated(start, Db())
      ensures schema.warehouses == (old(schema.warehouses) || Affords(old(fuel), 1))
      ensures schema.locationStatusIndex ==
        (if old(schema.warehouses) then old(schema.locationStatusIndex) else Affords(old(fuel), 2))
    {
      r := CreateWarehouses(start);
      if r.Done? { r := CreateDefaultWarehouses(start); }
      if r.Done? {
        r := AddMovementColumns(start);
        if r.Done? { r := BackfillMovements(start); }
        if r.Done? { r := AddMovementConstraints(start); }
      }
    }

    /** Any number of interrupted runs followed by a full one. */
    method Converge(ghost start: Database, runs: seq<Run>, last: nat) returns (r: Outcome)
      requires Before(start) && Db() == start
      modifies this
      ensures r.Done? && Migrated(start, Db())
      ensures schema.locationStatusIndex <==> !LosesIndex(runs)
    {
      for i := 0 to |runs|
        invariant Progress(start, Db())
        invariant schema.warehouses <==> exists k :: 0 <= k < i && runs[k].completed > 0
        invariant schema.warehouses ==> (schema.locationStatusIndex <==> !LosesIndex(runs[..i]))
      {
        ghost var before := Db();
        Restart(Statements(runs[i].completed), runs[i].burned);
        BurnedIdsKeepProgress(start, before, runs[i].burned);
        r := Upgrade(start);
        LosesIndexStep(runs, i);
      }
      assert runs[..|runs|] == runs;
      ghost var before := Db();
      Restart(Unlimited, last);
      BurnedIdsKeepProgress(start, before, last);
      r := Upgrade(start);
      if !before.schema.warehouses { assert !LosesIndex(runs); }
    }
  }

  // ---------- what a migrated database is ----------

  /** Equal but for the numbers given to warehouses: each movement points at the same
      warehouse row once its id is disregarded. */
  ghost predicate SameUpToWarehouseIds(a: Database, b: Database) {
    && a.rows.locations == b.rows.locations && a.rows.items == b.rows.items && a.keys == b.keys
    && a.schema.(locationStatusIndex := true) == b.schema.(locationStatusIndex := true)
    && (forall w :: w in a.rows.warehouses ==> exists v :: v in b.rows.warehouses && Unnumbered(w) == Unnumbered(v))
    && (forall v :: v in b.rows.warehouses ==> exists w :: w in a.rows.warehouses && Unnumbered(w) == Unnumbered(v))
    && |a.rows.movements| == |b.rows.movements|
    && forall k :: 0 <= k < |a.rows.movements| ==>
         SameMovement(a.rows.movements[k], a.rows.warehouses, b.rows.movements[k], b.rows.warehouses)
  }

  function Unnumbered(w: Warehouse): Warehouse {
    w.(id := 0)
  }

  ghost predicate SameMovement(m: Movement, ws: seq<Warehouse>, n: Movement, vs: seq<Warehouse>) {
    && m.(warehouse := None) == n.(warehouse := None)
    && exists w, v :: w in ws && v in vs && SameWarehouse(m, w, n, v)
  }

  predicate SameWarehouse(m: Movement, w: Warehouse, n: Movement, v: Warehouse) {
    m.warehouse == Some(w.id) && n.warehouse == Some(v.id) && Unnumbered(w) == Unnumbered(v)
  }

  /** Convergence: however often it was interrupted, the migration ends in one database. */
  lemma MigratedIsUnique(start: Database, a: Database, b: Database)
    requires Before(start) && Migrated(start, a) && Migrated(start, b)
    ensures SameUpToWarehouseIds(a, b)
  {
    SameDefaults(start, a, b);
    SameDefaults(start, b, a);
    forall k | 0 <= k < |a.rows.movements|
      ensures SameMovement(a.rows.movements[k], a.rows.warehouses, b.rows.movements[k], b.rows.warehouses)
    {
      SameMovements(start, a, b, k);
    }
  }

  lemma SameMovements(start: Database, a: Database, b: Database, k: nat)
    requires Before(start) && Migrated(start, a) && Migrated(start, b) && k < |start.rows.movements|
    ensures SameMovement(a.rows.movements[k], a.rows.warehouses, b.rows.movements[k], b.rows.warehouses)
  {
    var m, n := a.rows.movements[k], b.rows.movements[k];
    assert m.(warehouse := None) == n.(warehouse := None) by {
      assert Original(m) == Original(start.rows.movements[k]) == Original(n);
      assert CurrentColumns(m, a.schema, a.rows.warehouses) && CurrentColumns(n, b.schema, b.rows.warehouses);
    }
    SameDefaultRow(m, a.rows.warehouses, n, b.rows.warehouses, a.rows.locations);
  }

  lemma SameDefaultRow(m: Movement, ws: seq<Warehouse>, n: Movement, vs: seq<Warehouse>, ls: seq<Location>)
    requires m.(warehouse := None) == n.(warehouse := None) && OwnDefault(m, ws) && OwnDefault(n, vs)
    requires forall w :: w in ws ==> IsDefaultRow(w, ls)
    requires forall v :: v in vs ==> IsDefaultRow(v, ls)
    ensures SameMovement(m, ws, n, vs)
  {
    var i :| 0 <= i < |ws| && ws[i].id == m.warehouse.value && IsDefaultFor(ws[i], m.scope);
    var j :| 0 <= j < |vs| && vs[j].id == n.warehouse.value && IsDefaultFor(vs[j], n.scope);
    DefaultRowsOfOneScope(ws[i], vs[j], ls);
    assert SameWarehouse(m, ws[i], n, vs[j]);
  }

  lemma DefaultRowsOfOneScope(w: Warehouse, v: Warehouse, ls: seq<Location>)
    requires IsDefaultRow(w, ls) && IsDefaultRow(v, ls) && w.scope == v.scope
    ensures Unnumbered(w) == Unnumbered(v)
  {
  }

  lemma SameDefaults(start: Database, a: Database, b: Database)
    requires Before(start) && Migrated(start, a) && Migrated(start, b)
    ensures forall w :: w in a.rows.warehouses ==> exists v :: v in b.rows.warehouses && Unnumbered(w) == Unnumbered(v)
  {
    forall w | w in a.rows.warehouses ensures exists v :: v in b.rows.warehouses && Unnumbered(w) == Unnumbered(v) {
      var l :| l in a.rows.locations && w == DefaultWarehouse(w.id, l);
      assert HasDefault(b.rows.warehouses, ScopeOf(l));
      var j :| 0 <= j < |b.rows.warehouses| && IsDefaultFor(b.rows.warehouses[j], ScopeOf(l));
      DefaultRowsOfOneScope(w, b.rows.warehouses[j], a.rows.locations);
    }
  }

  /** No (tenant, location, item) balance moves, and no movement leaves the scoped ledger. */
  lemma MigrationKeepsBalances(start: Database, db: Database)
    requires Before(start) && Migrated(start, db)
    ensures Balances(db.rows.movements, true) == Balances(db.rows.movements, false)
    ensures Balances(db.rows.movements, false) == Balances(start.rows.movements, false)
  {
    forall k | 0 <= k < |db.rows.movements| ensures db.rows.movements[k].warehouse.Some? {
      assert OwnDefault(db.rows.movements[k], db.rows.warehouses);
    }
    BalancesIgnoreAddedColumns(start.rows.movements, db.rows.movements, true);
    BalancesIgnoreAddedColumns(start.rows.movements, db.rows.movements, false);
  }

  /** A movement after 0041 against the same movement before, column by column. */
  ghost predicate IsMigratedRow(a: Movement, b: Movement, ws: seq<Warehouse>) {
    && b.id == a.id && b.scope == a.scope && b.item == a.item && b.kind == a.kind && b.quantity == a.quantity
    && b.reversalOf == a.reversalOf && b.openingSlot == a.openingSlot && b.consumption == a.consumption
    && b.evidence == a.evidence && b.provenance == a.provenance
    && b.policy == "ALLOW" && !b.warning && b.resulting.None?
    && b.warehouse.Some? && exists k :: 0 <= k < |ws| && ws[k].id == b.warehouse.value && ws[k].scope == a.scope
  }

  /** The default warehouse of one location, column by column. */
  predicate IsDefaultOf(w: Warehouse, l: Location) {
    && w.scope.tenant == l.tenant && w.scope.organization == l.organization && w.scope.location == l.id
    && w.code == "DEFAULT" && w.name == "Default Warehouse" && w.status == "ACTIVE"
    && w.defaultSlot == Some(1) && w.policy == "ALLOW" && w.version == 1
  }

  /** What the rows of a migrated database hold. */
  lemma MigratedContents(start: Database, db: Database)
    requires Before(start) && Migrated(start, db)
    ensures |db.rows.movements| == |start.rows.movements|
    ensures forall k :: 0 <= k < |db.rows.movements| ==>
      IsMigratedRow(start.rows.movements[k], db.rows.movements[k], db.rows.warehouses)
    ensures forall k :: 0 <= k < |db.rows.warehouses| ==>
      exists l :: l in start.rows.locations && IsDefaultOf(db.rows.warehouses[k], l)
    ensures forall l :: l in start.rows.locations ==>
      exists k :: 0 <= k < |db.rows.warehouses| && IsDefaultOf(db.rows.warehouses[k], l)
  {
    forall k | 0 <= k < |db.rows.warehouses|
      ensures exists l :: l in start.rows.locations && IsDefaultOf(db.rows.warehouses[k], l)
    {
      assert IsDefaultRow(db.rows.warehouses[k], db.rows.locations);
    }
    forall l | l in start.rows.locations
      ensures exists k :: 0 <= k < |db.rows.warehouses| && IsDefaultOf(db.rows.warehouses[k], l)
    {
      var k :| 0 <= k < |db.rows.warehouses| && IsDefaultFor(db.rows.warehouses[k], ScopeOf(l));
      assert IsDefaultRow(db.rows.warehouses[k], db.rows.locations);
      assert IsDefaultOf(db.rows.warehouses[k], l);
    }
    forall k | 0 <= k < |db.rows.movements|
      ensures IsMigratedRow(start.rows.movements[k], db.rows.movements[k], db.rows.warehouses)
    {
      assert Original(start.rows.movements[k]) == Original(db.rows.movements[k]);
      assert OwnDefault(db.rows.movements[k], db.rows.warehouses);
      assert CurrentColumns(db.rows.movements[k], db.schema, db.rows.warehouses);
    }
  }

  /** A location ends with one default warehouse, and its movements with that one. */
  lemma OneDefaultPerLocation(start: Database, db: Database, l: Location, k: nat)
    requires Before(start) && Migrated(start, db) && l in db.rows.locations
    requires k < |db.rows.movements| && db.rows.movements[k].scope == ScopeOf(l)
    ensures exists i :: (0 <= i < |db.rows.warehouses| && IsDefaultFor(db.rows.warehouses[i], ScopeOf(l))
      && db.rows.movements[k].warehouse == Some(db.rows.warehouses[i].id)
      && forall j :: 0 <= j < |db.rows.warehouses| && IsDefaultFor(db.rows.warehouses[j], ScopeOf(l)) ==> j == i)
  {
  }
}
