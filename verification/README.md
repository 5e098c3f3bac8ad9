# Verified model of the operational core

A Dafny project about one restaurant platform's relational core: the restartable migrations of its
stock ledger and foreign keys, staff and diner sessions, location-scoped authority, headquarters
and minimal provisioning. `dafny verify dfyconfig.toml` checks all of it.

The database is modelled by its rows and constraints: CHECKs in three-valued logic that fail only
on FALSE, UNIQUE keys that ignore NULLs, simple-match foreign keys (sections 8.9, 8.12, 11.7, 11.8
and 11.9 of SQL-92, ISO/IEC 9075:1992). Migrations, transactions and loops that change things step
by step are classes and methods; their contracts say what the new state is, and lemmas prove what
it means.

| file | what it models |
|---|---|
| `Sql.dfy`, `Interruption.dfy`, `Text.dfy`, `Movements.dfy`, `Rbac.dfy` | three-valued logic; how a run can end; decimal numerals; stock movements; the role tables |
| `WarehouseMigration.dfy` | migration 0041, interrupted and rerun |
| `MovementRevisions.dfy`, `Ledger.dfy`, `EvidenceBackfill.dfy` | movement CHECKs of 0035, 0044, 0045, 0049 and their downgrades; reversal chains; migration 0042 |
| `ForeignKeyRebuild.dfy` | migration 0003, interrupted and rerun |
| `Usernames.dfy` | migration 0063 |
| `StaffSessions.dfy`, `DinerSessions.dfy` | migrations 0065 and 0015, the transactions on their tables, the resolvers' rules |
| `Authority.dfy`, `LocationRoles.dfy`, `AccessProvisioning.dfy` | the resolver's loops; migration 0064, location creation and bootstrap; delegation and staff accounts |
| `Headquarters.dfy`, `LockOrder.dfy` | headquarters, activation and history; its row locks under any number of callers |
| `Manifest.dfy`, `Provisioning.dfy`, `ProvisioningProtocol.dfy` | the manifest's canonical text; one provisioning transaction; any interleaving of many |
| `Profiles.dfy` | the operational profile reconciler |

An interruption is modelled by a number of statements after which the process dies; each DDL or
data statement takes effect whole or not at all. Auto-increment ids may be consumed by work that
is rolled back. Query results that a method iterates over are parameters constrained by what the
query returns, or are computed from the tables in an arbitrary order.

## Where the code does less than it seems to

- 0035: a REVERSAL may name its own id, since a foreign key is checked on the table the statement
  leaves. Chains then have no start; they do exactly when no such row is stored
  (`Ledger.AllChainsHaveRoots`), and the movement service never stores one.
- 0041: `_create_warehouses` returns early when the table exists, so an interruption right after the
  CREATE TABLE loses the index `ix_warehouses_location_status` for good
  (`WarehouseMigration.Migration.Converge`).
- 0042: quantity and unit cost have thirteen digits before the point, the evidence column for
  their product nineteen, so strict mode refuses the UPDATE exactly when one product is too wide
  (`EvidenceBackfill.EvidenceMigration.Converge`).
- 0045: the downgrade guard counts WASTE rows only. The loss CHECK also admits a loss on the
  REVERSAL of any movement, and passes on UNKNOWN when a linked row has no role; such a link is dropped silently
  (`MovementRevisions.MovementTable.Downgrade0045` says exactly when,
  `Ledger.Downgrade0045CanForgetALoss` shows a table).
- 0063: a suffixed name can equal an earlier base, and then the UNIQUE constraint fails
  (`Usernames.DistinctExactlyWithoutCollision` says exactly when).
- 0065 and 0015: the lifecycle CHECKs pass on UNKNOWN when the slot is NULL, so status alone does
  not make sessions unique (`StaffSessions.StatusIsNotEnough`, `DinerSessions.StatusIsNotEnough`);
  the slot conditions of the resolvers do.
- 0069: organizations that were ACTIVE with no or several ACTIVE locations stay ACTIVE without a
  headquarters until one is assigned (`Headquarters.Registry.Backfill`).
- Access provisioning gives an existing member the role tenant-wide but at the requested locations
  only, so location roles can stop being the join 0064 built
  (`AccessProvisioning.AccessKeepsJoinExactly` says exactly when).

## Model

| member | source | states |
|---|---|---|
| WarehouseMigration.Migration.Upgrade | apps/api/alembic/versions/0041_inventory_warehouse_ledger_compatibility.py:284-289 | One run from anything an interrupted run can leave: it completes or is interrupted, never rejected by the database and never raising either RuntimeError; when it completes the database is fully migrated; the location/status index exists exactly as the early return on an existing table allows |
| WarehouseMigration.Migration.Converge | apps/api/alembic/versions/0041_inventory_warehouse_ledger_compatibility.py:66-289 | Any number of runs interrupted after any number of statements, then a full one, end migrated; `ix_warehouses_location_status` is missing exactly when the first run to complete a statement completed only the CREATE TABLE |
| WarehouseMigration.MigratedIsUnique | apps/api/alembic/versions/0041_inventory_warehouse_ledger_compatibility.py:66-289 | Any two migrated databases of one starting point are equal up to the numbers given to warehouses (and that one index), so reruns reach what a clean run reaches |
| WarehouseMigration.MigratedContents | apps/api/alembic/versions/0041_inventory_warehouse_ledger_compatibility.py:146-208 | Every migrated movement against the one before, column by column, and every warehouse: exactly one DEFAULT row for each location with the literal values of the INSERT |
| WarehouseMigration.MigrationKeepsBalances | apps/api/alembic/versions/0041_inventory_warehouse_ledger_compatibility.py:187-216 | Every (tenant, location, item) balance is unchanged, and the warehouse-scoped balances equal the unscoped ones |
| WarehouseMigration.OneDefaultPerLocation | apps/api/alembic/versions/0041_inventory_warehouse_ledger_compatibility.py:146-156 | A location has exactly one default warehouse and all its movements carry that one |
| WarehouseMigration.ReversalPairsStayValid | apps/api/alembic/versions/0041_inventory_warehouse_ledger_compatibility.py:249-268 | Every existing reversal pair satisfies the warehouse-scoped reversal key once the backfill is done |
| WarehouseMigration.MovementsHaveLocations | apps/api/alembic/versions/0041_inventory_warehouse_ledger_compatibility.py:203-213 | From foreign-key-valid rows every movement has a location row, which is why the missing-authority error cannot be raised |
| WarehouseMigration.MissingDefaultsCoverLocations | apps/api/alembic/versions/0041_inventory_warehouse_ledger_compatibility.py:147-156 | The INSERT ... SELECT gives each location lacking a default exactly one, with fresh ids and distinct scopes |
| WarehouseMigration.InsertKeepsOnlyDefaults | apps/api/alembic/versions/0041_inventory_warehouse_ledger_compatibility.py:146-156 | The INSERT keeps the table to one default row per location, and no UNIQUE constraint of the table refuses it |
| WarehouseMigration.AssignmentReachesEveryRow | apps/api/alembic/versions/0041_inventory_warehouse_ledger_compatibility.py:203-208 | The UPDATE join leaves no movement without its own location's default warehouse |
| WarehouseMigration.BalancesIgnoreAddedColumns | apps/api/alembic/versions/0041_inventory_warehouse_ledger_compatibility.py:187-198 | Balances depend only on the columns that existed before, as long as the scoped query skips no row |
| WarehouseMigration.BalanceIsStock | apps/api/alembic/versions/0041_inventory_warehouse_ledger_compatibility.py:187-198 | The grouped query has a group exactly for the keys some counted movement has, and its sum is the sum of their quantities |
| WarehouseMigration.KeyStatementsAreRejectedExactly | apps/api/alembic/versions/0041_inventory_warehouse_ledger_compatibility.py:228-281 | When each key, CHECK and index statement is rejected, from the catalogue and the rows: repeated ids, a warehouse of another location, a reversal across scope, item or warehouse, an unknown policy |
| WarehouseMigration.RowStatementsAreRejectedExactly | apps/api/alembic/versions/0041_inventory_warehouse_ledger_compatibility.py:66-225 | When each statement on tables, columns and rows is rejected |
| WarehouseMigration.BackfilledKeysHold | apps/api/alembic/versions/0041_inventory_warehouse_ledger_compatibility.py:237-268 | After the backfill the rows satisfy both new foreign keys, the scope UNIQUE and the policy CHECK, so no constraint statement is rejected |
| WarehouseMigration.NewColumnKeepsProgress | apps/api/alembic/versions/0041_inventory_warehouse_ledger_compatibility.py:159-184 | Adding one missing column with its server default keeps every earlier column and row |
| WarehouseMigration.OneDefaultPerScope | apps/api/alembic/versions/0041_inventory_warehouse_ledger_compatibility.py:203-208 | Two movements of one scope that carry their own default warehouse carry the same one |
| WarehouseMigration.Migration.CreateWarehouses | apps/api/alembic/versions/0041_inventory_warehouse_ledger_compatibility.py:66-143 | Skips everything once the table exists, otherwise creates table then index; an interruption between the two leaves the table without the index |
| WarehouseMigration.Migration.CreateDefaultWarehouses | apps/api/alembic/versions/0041_inventory_warehouse_ledger_compatibility.py:146-156 | Afterwards every location has its default warehouse |
| WarehouseMigration.Migration.AddMovementColumns | apps/api/alembic/versions/0041_inventory_warehouse_ledger_compatibility.py:159-184 | Adds exactly the missing columns |
| WarehouseMigration.Migration.BackfillMovements | apps/api/alembic/versions/0041_inventory_warehouse_ledger_compatibility.py:201-225 | Neither RuntimeError is reachable; afterwards every movement has its own default warehouse and the column is NOT NULL |
| WarehouseMigration.Migration.CreateWarehouseKeyIfMissing | apps/api/alembic/versions/0041_inventory_warehouse_ledger_compatibility.py:237-248 | Drops a leftover index of the key's name before creating the key, and is never rejected |
| WarehouseMigration.Migration.RescopeReversalKey | apps/api/alembic/versions/0041_inventory_warehouse_ledger_compatibility.py:249-268 | Once the UNIQUE on the columns it refers to exists, the warehouse-scoped reversal key is there afterwards, whatever key was found |
| WarehouseMigration.Migration.AddMovementConstraints | apps/api/alembic/versions/0041_inventory_warehouse_ledger_compatibility.py:228-281 | Completes the migrated constraints from any partial set |
| WarehouseMigration.LosesIndexStep | apps/api/alembic/versions/0041_inventory_warehouse_ledger_compatibility.py:66-143 | Which interrupted run decides whether the index is lost |
| MovementRevisions.NewerChecksAccept | apps/api/alembic/versions/0044_supplier_direct_receiving.py:234-251 | A row stored under the previous revision, its new columns NULL, passes every CHECK of the next (0044, 0045, 0049) |
| MovementRevisions.OlderChecksAccept | apps/api/alembic/versions/0045_dedicated_inventory_loss.py:275-276 | The re-created older type and sign CHECKs accept exactly the stored rows of no newer movement type |
| MovementRevisions.DroppedColumnsAreEmpty | apps/api/alembic/versions/0045_dedicated_inventory_loss.py:240-243 | Which provenance columns a downgrade empties: none that holds anything, except a loss recorded on a reversal |
| MovementRevisions.PreparationMovementHasBatch | apps/api/alembic/versions/0049_prepared_components_yield.py:93-97 | Movement to batch line to batch through the foreign keys: a stored preparation movement names a stored batch |
| MovementRevisions.AdmittedMovements | apps/api/alembic/versions/0049_prepared_components_yield.py:86-97 | Exactly which rows the five CHECKs of 0049 admit, kind by kind, including those that pass on UNKNOWN |
| MovementRevisions.EarlierAdmits | apps/api/alembic/versions/0045_dedicated_inventory_loss.py:214-232 | Each earlier revision admits exactly the rows of the next that are of no newer kind and empty in its new columns |
| MovementRevisions.LossKeyMeaning | apps/api/alembic/versions/0045_dedicated_inventory_loss.py:223-238 | The key and the UNIQUE of 0045 fail exactly on a loss not stored for the row's scope, warehouse and item, or a repeated loss and role |
| MovementRevisions.MovementTable.Upgrade | apps/api/alembic/versions/0049_prepared_components_yield.py:86-97 | Each upgrade succeeds on every valid table and changes no row |
| MovementRevisions.MovementTable.Downgrade0044 | apps/api/alembic/versions/0044_supplier_direct_receiving.py:266-290 | Raises exactly when a GOODS_RECEIPT is stored; otherwise every row passes the older CHECKs and keeps its contents |
| MovementRevisions.MovementTable.Downgrade0045 | apps/api/alembic/versions/0045_dedicated_inventory_loss.py:258-279 | Raises exactly when a WASTE is stored; otherwise every row passes the older CHECKs; rows are unchanged exactly when no reversal carries a loss |
| MovementRevisions.MovementTable.Downgrade0049 | apps/api/alembic/versions/0049_prepared_components_yield.py:105-122 | Raises exactly when a batch or recipe version exists; otherwise every row passes the older CHECKs and keeps its contents |
| MovementRevisions.MovementTable.ReplaceTypeAndSign | apps/api/alembic/versions/0044_supplier_direct_receiving.py:239-243 | Re-creating both CHECKs succeeds exactly when all rows pass them |
| Ledger.StockLedger.Insert | apps/api/alembic/versions/0035_inventory_recipe_stock_foundation.py:317-365 | An insert is accepted exactly when the reversal CHECK, the reversal key on the table it leaves, the direct-reversal UNIQUE and the primary key admit it; chains all keep a root exactly unless the row names itself |
| Ledger.ChainsStayInScope | apps/api/alembic/versions/0035_inventory_recipe_stock_foundation.py:317-365 | From any movement that does not reverse itself the links end at a non-REVERSAL movement of the same tenant, organization, location and item, and since 0041 warehouse |
| Ledger.ChainsAreDisjointPaths | apps/api/alembic/versions/0035_inventory_recipe_stock_foundation.py:317-365 | Chains with a root never branch or meet: root and depth identify a movement, so each is reversed at most once |
| Ledger.ChainsHaveNoGaps | apps/api/alembic/versions/0035_inventory_recipe_stock_foundation.py:317-365 | Every depth between a movement and its root is occupied |
| Ledger.StoredRowsNeverCollide | apps/api/alembic/versions/0035_inventory_recipe_stock_foundation.py:317-342 | No two stored rows share an id or a direct reversal target |
| Ledger.MigrationKeepsLedgerValid | apps/api/alembic/versions/0041_inventory_warehouse_ledger_compatibility.py:249-268 | A valid ledger is a valid warehouse-scoped ledger after 0041, so the chain results carry over |
| Ledger.AllChainsHaveRoots | apps/api/alembic/versions/0035_inventory_recipe_stock_foundation.py:317-365 | Every chain of a ledger has a root exactly when no stored row reverses itself |
| Ledger.RootedUnlessSelfReversing | apps/api/alembic/versions/0035_inventory_recipe_stock_foundation.py:317-365 | Row by row: a chain has a root exactly when the row on it does not reverse itself |
| Ledger.SelfReversalIsAdmitted | apps/api/alembic/versions/0035_inventory_recipe_stock_foundation.py:317-365 | A REVERSAL that names its own id meets every constraint, even in an empty ledger |
| Ledger.SelfReversalStandsAlone | apps/api/alembic/versions/0035_inventory_recipe_stock_foundation.py:317-342 | No other row reverses a row that reverses itself |
| Ledger.StoredKeyHolds | apps/api/alembic/versions/0035_inventory_recipe_stock_foundation.py:329-342 | However its rows were inserted, the ledger satisfies the reversal key as a whole |
| Ledger.StockLedger.Reverse | apps/api/app/restaurant/inventory/service.py:1127-1216 | The service's reversal: not found, a reversal or already reversed exactly when the rows say so; otherwise one row is stored that cancels the original: its stock sum falls by the original's quantity and every other stays |
| Ledger.ReversalCancels | apps/api/app/restaurant/inventory/service.py:1127-1148 | A movement and its reversal sum to zero, and only the sum of its tenant, location and item changes, by its quantity |
| Ledger.ReversalMeetsChecks | apps/api/app/restaurant/inventory/service.py:1216-1262 | The stored reversal passes every CHECK on type, sign, reversal and provenance |
| Ledger.MovementThenReversal | apps/api/app/restaurant/inventory/service.py:1127-1148 | A movement stored and reversed leaves the stock as it was before it |
| Ledger.AdmittedReversals | apps/api/alembic/versions/0035_inventory_recipe_stock_foundation.py:361-365 | The CHECK admits exactly rows where being a REVERSAL and naming a reversed movement go together |
| Ledger.Downgrade0045CanForgetALoss | apps/api/alembic/versions/0045_dedicated_inventory_loss.py:258-279 | A whole valid table at 0045, any movement with its reversal linked to a stored loss, that the WASTE-only guard lets pass and whose rows the downgrade changes |
| EvidenceBackfill.BackfillSatisfiesChecks | apps/api/alembic/versions/0042_inventory_operational_uom_cost_evidence.py:141-175 | For every row valid under 0035 and 0036 the backfilled row passes all four evidence CHECKs in three-valued logic; nothing but evidence changes, and both new keys hold whatever their targets |
| EvidenceBackfill.EvidenceIsTheSnapshot | apps/api/alembic/versions/0042_inventory_operational_uom_cost_evidence.py:141-150 | Each evidence column of a migrated consumption against the snapshot column it comes from, the extended cost being quantity times unit cost; all other rows have no evidence |
| EvidenceBackfill.AdmittedEvidence | apps/api/alembic/versions/0042_inventory_operational_uom_cost_evidence.py:166-175 | Exactly which evidence the four CHECKs admit, status by status |
| EvidenceBackfill.AdmittedConsumptions | apps/api/alembic/versions/0036_restaurant_order_consumption.py:137-161 | Exactly which snapshots 0036 admits |
| EvidenceBackfill.BackfillIsIdempotent | apps/api/alembic/versions/0042_inventory_operational_uom_cost_evidence.py:141-150 | A second UPDATE changes nothing, and no quantity ever changes |
| EvidenceBackfill.SnapshotNeedsQuantity | apps/api/alembic/versions/0042_inventory_operational_uom_cost_evidence.py:167-175 | The status alone does not satisfy the quantity CHECK: the copied columns are needed |
| EvidenceBackfill.EvidenceMigration.AddEvidence | apps/api/alembic/versions/0042_inventory_operational_uom_cost_evidence.py:135-175 | One run from anything earlier runs can leave: done only when every consumption's cost can be stored, refused only when one cannot, else interrupted; when done all columns, both keys and all four CHECKs are there and every row is migrated |
| EvidenceBackfill.EvidenceMigration.AddColumns | apps/api/alembic/versions/0042_inventory_operational_uom_cost_evidence.py:135-140 | Adds the missing columns; existing rows hold the server defaults |
| EvidenceBackfill.EvidenceMigration.Backfill | apps/api/alembic/versions/0042_inventory_operational_uom_cost_evidence.py:141-150 | The UPDATE turns every row into its migrated form, first run or rerun; it is refused exactly when some |quantity * unit cost| needs more than the nineteen digits of Numeric(31, 12) |
| EvidenceBackfill.EvidenceMigration.AddChecks | apps/api/alembic/versions/0042_inventory_operational_uom_cost_evidence.py:166-175 | Adds each missing CHECK; refused only when some row fails one, and when done every row satisfies all four |
| EvidenceBackfill.EvidenceMigration.Converge | apps/api/alembic/versions/0042_inventory_operational_uom_cost_evidence.py:135-175 | Any number of interrupted or refused runs, then a full one: migrated exactly when every consumption's cost can be stored, otherwise only the columns were added |
| EvidenceBackfill.EvidenceMigration.AddKeys | apps/api/alembic/versions/0042_inventory_operational_uom_cost_evidence.py:151-165 | Adds each missing foreign key; refused only when some row fails one, and when done every row satisfies both |
| EvidenceBackfill.BackfillReaches | apps/api/alembic/versions/0042_inventory_operational_uom_cost_evidence.py:141-150 | What the UPDATE meets on a first run or a rerun: the same rows in the end, and an overflow exactly when some cost does not fit |
| EvidenceBackfill.StoredCostCanOverflow | apps/api/alembic/versions/0042_inventory_operational_uom_cost_evidence.py:141-150 | Any stored consumption with quantity -10^12 and unit cost 10^12 is a stored row whose cost does not fit |
| EvidenceBackfill.StorableMeaning | apps/api/alembic/versions/0042_inventory_operational_uom_cost_evidence.py:131-146 | A cost can be stored exactly when quantity times unit cost is below 10^19 in size |
| EvidenceBackfill.MigratedRowsHold | apps/api/alembic/versions/0042_inventory_operational_uom_cost_evidence.py:151-175 | The migrated rows satisfy every key, whatever is stored on the other side, and every CHECK |
| EvidenceBackfill.KeyMeaning | apps/api/alembic/versions/0042_inventory_operational_uom_cost_evidence.py:151-165 | Each key fails exactly on a row that names a row not stored for its own scope and item |
| ForeignKeyRebuild.Migration.Upgrade | apps/api/alembic/versions/0003_database_portability_remediation.py:120-157 | One run over any uniquely named key set: every key outside the application tables, and every other key under its own name with none of the seven signatures, survives any outcome; on success nothing else is left but the seven definitions with cascade; refused only if a canonical name is taken outside the application tables, rows are orphaned, or a key uses a text column still to be converted |
| ForeignKeyRebuild.Migration.Converge | apps/api/alembic/versions/0003_database_portability_remediation.py:87-157 | After any number of interrupted or refused runs a full one succeeds exactly when the first state was buildable and convertible, and reaches the set one clean run reaches: the keys that must stay and the seven with cascade |
| ForeignKeyRebuild.LeftoversNeverClash | apps/api/alembic/versions/0003_database_portability_remediation.py:109-117 | When all keys sit on application tables only orphaned rows can stop the rebuild, whatever partial definitions canonical names carry |
| ForeignKeyRebuild.OneKeyPerRelationship | apps/api/alembic/versions/0003_database_portability_remediation.py:42-84 | Afterwards each of the seven relationships is declared exactly once, under its canonical name, with ON DELETE CASCADE |
| ForeignKeyRebuild.MustStayMeaning | apps/api/alembic/versions/0003_database_portability_remediation.py:100-117 | The drop condition spares exactly the keys that must stay |
| ForeignKeyRebuild.DefinitionsAreWellTyped | apps/api/alembic/versions/0003_database_portability_remediation.py:42-84 | Each definition leads from a reference column to the id of the table the column names, and carries the tenant exactly from membership_roles |
| ForeignKeyRebuild.ReferencesAreCovered | apps/api/alembic/versions/0003_database_portability_remediation.py:42-84 | Every reference column of the application tables is covered by a definition |
| ForeignKeyRebuild.SignaturesDiffer | apps/api/alembic/versions/0003_database_portability_remediation.py:42-84 | The seven definitions are seven relationships |
| ForeignKeyRebuild.CreatedIsDropped | apps/api/alembic/versions/0003_database_portability_remediation.py:109-157 | What an interrupted create loop leaves, the next run drops |
| ForeignKeyRebuild.Migration.DropExpectedOn | apps/api/alembic/versions/0003_database_portability_remediation.py:100-117 | One table's turn of the nested drop loop, in any listing order |
| ForeignKeyRebuild.Migration.DropExistingExpectedForeignKeys | apps/api/alembic/versions/0003_database_portability_remediation.py:96-117 | Completed, it leaves exactly the keys outside the application tables and those of another name and signature |
| ForeignKeyRebuild.Migration.CreateForeignKey | apps/api/alembic/versions/0003_database_portability_remediation.py:149-157 | MyISAM forgets the key; InnoDB rejects it exactly for a taken name or orphaned rows once both tables are converted |
| ForeignKeyRebuild.Migration.CreateForeignKeys | apps/api/alembic/versions/0003_database_portability_remediation.py:149-157 | The create loop adds the definitions in order and is rejected only when the set is not buildable |
| ForeignKeyRebuild.Migration.ConvertTables | apps/api/alembic/versions/0003_database_portability_remediation.py:141-147 | The conversion loop is refused exactly at an application table with a text column some key uses, and what it converted changes nobody's being blocked |
| ForeignKeyRebuild.ConvertibleKept | apps/api/alembic/versions/0003_database_portability_remediation.py:130-147 | Whatever a run did after converting the version table, the next run is refused or not as the first was |
| ForeignKeyRebuild.BlockedMeaning | apps/api/alembic/versions/0003_database_portability_remediation.py:141-147 | A table is blocked exactly by a key that uses one of its unconverted text columns on either side |
| ForeignKeyRebuild.BuildableDependsOnUnrelated | apps/api/alembic/versions/0003_database_portability_remediation.py:87-157 | Whether the rebuild can succeed depends only on the unrelated keys and the rows, so interrupted runs do not change it |
| Usernames.DistinctExactlyWithoutCollision | apps/api/alembic/versions/0063_staff_username_login.py:39-53 | The assigned names are pairwise distinct exactly when no repeated row's suffixed name is the base of an earlier row |
| Usernames.UsersTable.Upgrade | apps/api/alembic/versions/0063_staff_username_login.py:27-53 | Every staff row gets its name, nobody else does, and the UNIQUE constraint is created exactly without such a collision |
| Usernames.NamesMeaning | apps/api/alembic/versions/0063_staff_username_login.py:39-46 | The loop over `used` gives a suffix exactly to rows whose base is an earlier base or an earlier suffixed name |
| Usernames.SuffixedNamesDiffer | apps/api/alembic/versions/0063_staff_username_login.py:43-45 | Suffixed names differ from one another: the digits after the last `-` recover the id |
| Usernames.NoLaterIdSuffices | apps/api/alembic/versions/0063_staff_username_login.py:19-46 | It suffices that no email-derived base ends in `-` and a later row's id |
| Usernames.AddressesCanCollide | apps/api/alembic/versions/0063_staff_username_login.py:27-53 | A family of addresses, such as bob-3@x, bob@x, bob@y for users 1, 2, 3, for which the migration fails |
| Usernames.NamesAreWellFormed | apps/api/alembic/versions/0063_staff_username_login.py:19-46 | Every name uses only [a-z0-9._-], starts and ends alphanumeric and has 1 to 64 characters |
| Usernames.RunBecomesOneDash | apps/api/alembic/versions/0063_staff_username_login.py:21 | Each maximal run of other characters becomes a single `-` |
| Usernames.PlainTextIsKept | apps/api/alembic/versions/0063_staff_username_login.py:21 | Text of allowed characters is not changed |
| Usernames.StripRight | apps/api/alembic/versions/0063_staff_username_login.py:21-24 | Removes punctuation from the end, and no more |
| Usernames.StripLeft | apps/api/alembic/versions/0063_staff_username_login.py:21 | Removes punctuation from the start, and no more |
| Usernames.BeforeAt | apps/api/alembic/versions/0063_staff_username_login.py:20 | The part before the first `@`, the whole text without one |
| Usernames.PlainName | apps/api/alembic/versions/0063_staff_username_login.py:19-24 | A local part that is already a valid name is the base |
| Usernames.BaseOfAddress | apps/api/alembic/versions/0063_staff_username_login.py:19-24 | The base of any address: the middle of its substituted local part, cut to 64 characters, exactly when that has at least three; otherwise the name made from the id |
| Usernames.EveryTextSplits | apps/api/alembic/versions/0063_staff_username_login.py:21 | Every local part has such a middle, so no address is left out |
| Usernames.SuffixedIsCut | apps/api/alembic/versions/0063_staff_username_login.py:43-45 | A suffixed name is the dash and id after as much of the base as fits into 64 characters, without punctuation at its end |
| Usernames.FallbackEndsInOwnId | apps/api/alembic/versions/0063_staff_username_login.py:22-23 | A name made from the id alone never ends in another row's id |
| Usernames.NameFor | apps/api/alembic/versions/0063_staff_username_login.py:40-45 | One turn of the loop: a suffix only when the base is used |
| Usernames.UsersTable.Allocate | apps/api/alembic/versions/0063_staff_username_login.py:38-50 | The loop writes exactly the specified names |
| Text.LastNumeralIsDetermined | apps/api/alembic/versions/0063_staff_username_login.py:43-45 | Two texts that end in `-` and a number end in the same number when they are equal |
| StaffSessions.OneSessionPerUser | apps/api/alembic/versions/0065_staff_auth_session_foundation.py:65-80 | After any run of constraint-checked statements, all tokens accepted for one user are the same token |
| StaffSessions.StatusIsNotEnough | apps/api/alembic/versions/0065_staff_auth_session_foundation.py:72-80 | The CHECKs admit two ACTIVE rows for one user: the result needs the slot, not the status |
| StaffSessions.AdmittedShapes | apps/api/alembic/versions/0065_staff_auth_session_foundation.py:68-80 | Exactly which rows the two CHECKs admit, including the one that passes on UNKNOWN |
| StaffSessions.RunKeepsConstraints | apps/api/alembic/versions/0065_staff_auth_session_foundation.py:54-80 | Every run keeps the constraints |
| StaffSessions.LoginIsAppliedExactly | apps/api/alembic/versions/0065_staff_auth_session_foundation.py:54-80 | A login row is stored, and its token accepted, exactly when the membership exists, the public id is unused and the user has no live session; otherwise nothing changes |
| StaffSessions.OtherStatementsApply | apps/api/alembic/versions/0065_staff_auth_session_foundation.py:54-80 | Deletions and membership changes are never refused and change nothing else |
| StaffSessions.LiveIsUnique | apps/api/app/api/deps.py:120-131 | At most one row per user satisfies the resolver's status and slot conditions |
| StaffSessions.SessionService.Create | apps/api/app/identity/auth_sessions.py:17-63 | Each refusal exactly when its condition holds; the unique slot never refuses the insert that passed the query |
| StaffSessions.SessionService.Close | apps/api/app/identity/auth_sessions.py:66-84 | Closes exactly that session's live row, with status and time, and changes no other; afterwards a token is accepted exactly if it was and names another session |
| StaffSessions.SessionService.Revoke | apps/api/app/identity/credential_administration.py:141-157 | Replaces exactly the user's live rows, with status and time, and changes no other; afterwards a token is accepted exactly if it was and belongs to another user |
| StaffSessions.SlotHolderIsLive | apps/api/alembic/versions/0065_staff_auth_session_foundation.py:68-80 | A row that holds the slot is ACTIVE |
| DinerSessions.OneServicePerTable | apps/api/alembic/versions/0015_restaurant_service_diner_access_foundation.py:82-131 | After any run, diners accepted at one table share one service session and scope; two with one email in it are one diner |
| DinerSessions.StatusIsNotEnough | apps/api/alembic/versions/0015_restaurant_service_diner_access_foundation.py:82-95 | The CHECKs admit two OPEN services at one table |
| DinerSessions.ClosedExactlyWhenEnded | apps/api/app/api/diner_deps.py:68-93 | Each answer exactly when its condition holds: 401 for ids that do not belong together, SESSION_CLOSED when the diner or the service is not live, else accepted with the token's ids; the tenant comparison never decides |
| DinerSessions.AdmittedServices | apps/api/alembic/versions/0015_restaurant_service_diner_access_foundation.py:78-86 | Exactly which service rows the CHECKs admit |
| DinerSessions.AdmittedDiners | apps/api/alembic/versions/0015_restaurant_service_diner_access_foundation.py:121-124 | Exactly which diner rows the CHECKs admit |
| DinerSessions.RunKeepsConstraints | apps/api/alembic/versions/0015_restaurant_service_diner_access_foundation.py:57-135 | Every run keeps the constraints of both tables |
| DinerSessions.DinerIsAppliedExactly | apps/api/alembic/versions/0015_restaurant_service_diner_access_foundation.py:99-131 | A new diner row is stored exactly when its columns, scope and email allow it; otherwise nothing changes |
| DinerSessions.ServiceIsAppliedExactly | apps/api/alembic/versions/0015_restaurant_service_diner_access_foundation.py:57-95 | A new service row is stored exactly when its columns allow it and its table is free; otherwise nothing changes |
| DinerSessions.DeletionIsAppliedExactly | apps/api/alembic/versions/0015_restaurant_service_diner_access_foundation.py:125-126 | A service row with diners cannot be deleted, any other row can |
| DinerSessions.ServiceSessions.Join | apps/api/app/restaurant/service_sessions/service.py:294-424 | Each refusal exactly when its condition holds; a wrong code is counted, a right one resets the counter, nothing is compared while the lock-out lasts; the unique email never refuses the commit; no service exceeds its party size |
| DinerSessions.ServiceSessions.UpdatePartySize | apps/api/app/restaurant/service_sessions/service.py:244-275 | Accepted exactly for an OPEN service and a size in range that the active diners do not exceed |
| DinerSessions.ServiceSessions.EndDiner | apps/api/app/restaurant/service_sessions/service.py:553-594 | Each outcome exactly when its condition holds; ends exactly that diner's row, so exactly its tokens' answers change, to SESSION_CLOSED |
| DinerSessions.ServiceSessions.CloseService | apps/api/app/restaurant/service_sessions/service.py:623-678 | Each outcome exactly when its condition holds; closes exactly that service's row and ends exactly its active diners' rows; changes exactly the answers of its tokens |
| DinerSessions.FailureRate | apps/api/app/restaurant/service_sessions/service.py:278-292 | However wrong codes are spread in time, at most five are compared for each started five minutes since the first of them |
| DinerSessions.FifthFailureLocks | apps/api/app/restaurant/service_sessions/service.py:284-292 | Within five minutes of the first wrong code four never lock and the fifth locks, for five minutes and no longer |
| DinerSessions.WindowRestarts | apps/api/app/restaurant/service_sessions/service.py:284-292 | A wrong code five minutes or more after the first starts the count again |
| DinerSessions.FailureKeepsBound | apps/api/app/restaurant/service_sessions/service.py:284-292 | One more compared failure keeps the counter within five per window, and a window with five locked past its end |
| Authority.LoopsEqualJoin | apps/api/app/api/deps.py:140-176 | The loop-built authorities equal the relational join: strictly increasing locations, exactly where the member has an ACTIVE role, each with exactly the permissions those roles carry |
| Authority.RolesEqualJoin | apps/api/app/api/deps.py:162-176 | The role names of an entry are exactly those of the ACTIVE roles assigned there |
| Authority.PermissionsByRole | apps/api/app/api/deps.py:159-161 | The dictionary of sets holds exactly the query's pairs |
| Authority.GroupByLocation | apps/api/app/api/deps.py:162-168 | One pass fills both dictionaries; their keys are the locations in order of first appearance |
| Authority.LocationAuthorities | apps/api/app/api/deps.py:159-176 | The tuple described in terms of the two query results |
| Authority.BroughtExactlyWhenPermitted | apps/api/app/api/deps.py:140-168 | A permission brought by some assignment at the location is one the tables permit there |
| Authority.KeysExactlyWhereRoles | apps/api/app/api/deps.py:162-176 | A location is a key exactly when the member has an ACTIVE role there |
| Authority.GetAuthenticatedContext | apps/api/app/api/deps.py:87-220 | 401, each 403 and success exactly when their conditions hold; the context carries the user's and tenant's fields, and its role names, permissions, locations and authorities are what the role tables mean |
| Authority.AuthorityForLocation | apps/api/app/api/deps.py:50-54 | An entry for the location, or None exactly when there is none |
| Authority.EntryIsUnique | apps/api/app/api/deps.py:50-54 | The entry found is the only one for its location |
| Authority.CheckMatchesTables | apps/api/app/api/deps.py:234-254 | A request at a location passes exactly when the tables permit it there, and is answered 404 exactly without an ACTIVE role |
| LocationRoles.JoinPreservesAuthority | apps/api/alembic/versions/0064_location_scoped_staff_rbac.py:60-68 | After the backfill a granted location has exactly the tenant-wide permissions, an ungranted one none |
| LocationRoles.ContextAfterBackfill | apps/api/app/api/deps.py:140-202 | The same for the resolver's context: every entry is granted and carries `context.permissions`; every grant of a member with an ACTIVE role has an entry |
| LocationRoles.JoinHasNoDuplicate | apps/api/alembic/versions/0064_location_scoped_staff_rbac.py:54-57 | The INSERT ... SELECT never violates the UNIQUE on membership, location and role |
| LocationRoles.RoleStore.Backfill | apps/api/alembic/versions/0064_location_scoped_staff_rbac.py:60-68 | The table becomes the join of grants and tenant roles, and the foreign keys hold |
| LocationRoles.CreatorAuthority | apps/api/app/api/routes/locations.py:297-317 | A member who creates a location has there exactly the tenant-wide permissions; nobody's authority elsewhere changes |
| LocationRoles.RoleStore.GrantCreator | apps/api/app/minimal_provisioning.py:235-248 | Writes the grant and one role row per tenant-wide role, and keeps the tables the join of 0064 if they were |
| LocationRoles.RoleStore.GetOrCreate | apps/api/app/bootstrap_pilot_minimum.py:213-244 | Get-or-create adds exactly what is missing and reports it |
| LocationRoles.BootstrapAgrees | apps/api/app/bootstrap_pilot_minimum.py:213-244 | For a member with one role the bootstrap writes what location creation writes; on backfilled tables with the grant it writes nothing |
| LocationRoles.CreatorCanDelegate | apps/api/app/identity/access_provisioning.py:342-354 | Right after creating the location the actor holds there everything delegation requires, so two of its errors cannot occur |
| LocationRoles.CreatorKeepsJoin | apps/api/alembic/versions/0064_location_scoped_staff_rbac.py:60-68 | Creating a location keeps location roles equal to the backfill join |
| LocationRoles.RoleStore.SelectAssignments | apps/api/app/api/deps.py:140-151 | The query returns the member's ACTIVE roles per location |
| LocationRoles.RoleStore.SelectPermissions | apps/api/app/api/deps.py:153-158 | The query returns the codes of the selected roles |
| AccessProvisioning.AccessService.ProvisionAccess | apps/api/app/identity/access_provisioning.py:273-441 | For a member or a new one and any list of locations: provides exactly when all parties, the role and every location allow it, each refusal justified by the tables, and writes exactly what is missing |
| AccessProvisioning.AccessService.Decide | apps/api/app/identity/access_provisioning.py:279-363 | The decision alone, built from the resolver-like dictionaries, equals the condition on the tables |
| AccessProvisioning.AccessService.FirstObjection | apps/api/app/identity/access_provisioning.py:331-354 | The loop refuses exactly when some location meets an objection, and reports that of the smallest such location |
| AccessProvisioning.AccessService.PermissionsByLocation | apps/api/app/identity/access_provisioning.py:187-223 | The actor's dictionary holds exactly the locations and permissions the tables give |
| AccessProvisioning.AccessService.IndexCandidates | apps/api/app/identity/access_provisioning.py:235-251 | Refuses exactly an empty, non-positive or duplicate request, otherwise sorts it |
| AccessProvisioning.AccessService.WriteAccess | apps/api/app/identity/access_provisioning.py:398-430 | The loop leaves the specified tables and reports CREATE exactly for what was missing |
| AccessProvisioning.ProvisionStaffAccount | apps/api/app/identity/access_provisioning.py:90-131 | A free account becomes one ACTIVE user with its fields, one membership and the access; no UNIQUE refuses it after the queries; each refusal exactly when its condition holds |
| AccessProvisioning.AccessAuthority | apps/api/app/identity/access_provisioning.py:398-430 | The member gains exactly the role's permissions, tenant-wide and at those locations; nobody else's authority changes anywhere |
| AccessProvisioning.NeverMoreThanActor | apps/api/app/identity/access_provisioning.py:134-142 | What a member gains at a location the actor has there |
| AccessProvisioning.AccessKeepsJoinExactly | apps/api/app/identity/access_provisioning.py:398-430 | Location roles stay the join of 0064 exactly when the member already had the role or gets it at every granted location, and has no other role or no location is new |
| AccessProvisioning.SecondRoleBreaksJoin | apps/api/app/identity/access_provisioning.py:398-430 | A member's second role, given at another location, leaves the join |
| AccessProvisioning.NewMemberKeepsJoin | apps/api/app/identity/access_provisioning.py:398-430 | A new member's access keeps it |
| AccessProvisioning.RepeatIsIdle | apps/api/app/identity/access_provisioning.py:356-441 | The same request again is accepted, changes nothing and reports UNCHANGED throughout |
| Headquarters.Registry.Run | apps/api/app/organization_location.py:24-110 | Every run of requests after 0069 keeps: a set headquarters belongs to its own organization and tenant; every ACTIVE organization has an ACTIVE headquarters unless it was ACTIVE without one at 0069; replaying the history from the headquarters 0069 set gives the current ones |
| Headquarters.PosableExactly | apps/api/app/organization_location.py:24-110 | Which requests a run poses: every update, and every creation or bootstrap whose ids are new and whose found rows are the tenant's |
| Headquarters.Registry.AssignHeadquarters | apps/api/app/organization_location.py:24-87 | Each conflict exactly when its condition holds; a move field by field: the new headquarters, the previous location deactivated exactly when asked, one history row, nothing else; a repeated assignment changes and appends nothing |
| Headquarters.MoveLeavesOthers | apps/api/app/organization_location.py:71-73 | Deactivating the previous headquarters breaks no other organization |
| Headquarters.HeadquartersIsOwn | apps/api/alembic/versions/0069_organization_headquarters_provisioning.py:38-44 | A location is headquarters of no organization but its own |
| Headquarters.HistoryLinks | apps/api/app/organization_location.py:70-81 | An organization's first row starts at the headquarters 0069 set, or at none for a later organization, each later one where the one before ended, the last ends at the current headquarters |
| Headquarters.HistoryGrows | apps/api/app/organization_location.py:70-81 | No request ever changes or removes a history row |
| Headquarters.LocationStatusHistory | apps/api/app/organization_location.py:70-81 | Over any run a location's status differs from its first only if a request of the run set it: one that names the location, or a move away from it that asks to deactivate it |
| Headquarters.StatusNeedsRequest | apps/api/app/api/routes/locations.py:370-422 | One request: rows keep their tenant and organization, and no organization or location changes status unasked |
| Headquarters.MoveKeepsLog | apps/api/app/organization_location.py:70-81 | A move extends the faithful history: previous is the current headquarters and differs from the new one |
| Headquarters.Registry.Backfill | apps/api/alembic/versions/0069_organization_headquarters_provisioning.py:26-37 | Sets a headquarters exactly where one ACTIVE location exists; the organizations left ACTIVE without one are exactly the exceptions later runs allow |
| Headquarters.BackfillEstablishes | apps/api/alembic/versions/0069_organization_headquarters_provisioning.py:26-44 | The invariant holds right after the migration, so the new foreign key is accepted |
| Headquarters.OnlyActiveMeaning | apps/api/alembic/versions/0069_organization_headquarters_provisioning.py:26-37 | The grouped subquery picks a location exactly when it is the one ACTIVE row of the organization and tenant |
| Headquarters.Registry.UpdateOrganization | apps/api/app/api/routes/organizations.py:186-216 | Activation is refused exactly without an ACTIVE headquarters |
| Headquarters.Registry.UpdateHeadquarters | apps/api/app/api/routes/organizations.py:234-301 | 404, 403 and 409 exactly when their conditions hold; when accepted either nothing changes or exactly one move, field by field; no other organization changes or loses its headquarters |
| Headquarters.Registry.CreateLocation | apps/api/app/api/routes/locations.py:269-334 | The first ACTIVE location of an organization without headquarters becomes its headquarters, any other does not; a creator without a role is refused |
| Headquarters.Registry.UpdateLocation | apps/api/app/api/routes/locations.py:370-422 | Deactivation is refused exactly for the headquarters of an ACTIVE organization |
| Headquarters.Registry.ProvisionCore | apps/api/app/minimal_provisioning.py:198-250 | Creates organization, location, headquarters and history row and activates, or nothing when the operation id is taken |
| Headquarters.Registry.BootstrapPilot | apps/api/app/bootstrap_pilot_minimum.py:379-443 | Finds or creates both and activates, or refuses and changes nothing |
| Headquarters.Registry.SettleHeadquarters | apps/api/app/bootstrap_pilot_minimum.py:430-443 | Assigns a missing headquarters, refuses a different one exactly when there is one, and activates |
| LockOrder.NeverDeadlocked | apps/api/app/organization_location.py:33-47 | After any schedule of any number of callers nobody waits in a circle, no row is locked twice, and everyone can still finish |
| LockOrder.CommitsHoldEverything | apps/api/app/organization_location.py:33-71 | After any schedule a caller commits only while it holds its organization row and every location row the query returns in that very state, and the commit moves exactly its own headquarters to its target |
| LockOrder.HeldSince | apps/api/app/organization_location.py:33-71 | Between taking its organization row and committing a caller sees its headquarters unchanged, whatever the others do |
| LockOrder.HeldHeadquartersStays | apps/api/app/api/routes/organizations.py:241-248 | While a caller holds an organization row no other caller's step moves that headquarters |
| LockOrder.OnlyCommitMoves | apps/api/app/organization_location.py:70-73 | A headquarters moves only in the commit of a caller that asked for it |
| LockOrder.WaitsForIsAcyclic | apps/api/app/organization_location.py:33-47 | No path of the waits-for graph returns to its start |
| LockOrder.SomeoneCanStep | apps/api/app/organization_location.py:33-47 | While a caller is unfinished some caller can step |
| LockOrder.LockIds | apps/api/app/organization_location.py:34-47 | The locking query takes the scoped rows among previous and target in ascending id order |
| LockOrder.StepKeeps | apps/api/app/organization_location.py:39-47 | Two callers never hold one row |
| LockOrder.StepDecreases | apps/api/app/organization_location.py:39-47 | Every step brings the callers closer to done, so no schedule goes on forever |
| Manifest.ObjectTextInjective | apps/api/app/minimal_provisioning.py:90-96 | The canonical text determines the values, over all Unicode scalar strings |
| Manifest.StringRoundTrip | apps/api/app/minimal_provisioning.py:91-96 | A quoted string, with its quote, backslash, control and surrogate-pair escapes (section 7 of RFC 8259), is read back as it was |
| Manifest.MembersRoundTrip | apps/api/app/minimal_provisioning.py:91-96 | The whole object is read back value by value |
| Manifest.CharRoundTrip | apps/api/app/minimal_provisioning.py:91-96 | Every character is read back from its escape |
| Manifest.ShortText | apps/api/app/minimal_provisioning.py:91-96 | The two-character escapes and printable ASCII, character by character |
| Manifest.UnitText | apps/api/app/minimal_provisioning.py:91-96 | Other characters up to U+FFFF are a backslash, u and four lower-case hex digits of their code |
| Manifest.PairText | apps/api/app/minimal_provisioning.py:91-96 | Characters above U+FFFF are the surrogate pair of their code |
| Manifest.FingerprintIdentifies | apps/api/app/minimal_provisioning.py:90-97 | Two manifests have one fingerprint exactly when they are identical |
| Manifest.FieldsStandUnderTheirNames | apps/api/app/minimal_provisioning.py:90-93 | Each value of the canonical text stands under its own field's name |
| Manifest.KeysAreSorted | apps/api/app/minimal_provisioning.py:90-94 | The field names are in strictly ascending code-point order, as sort_keys leaves them |
| Manifest.HeadquartersOperationIdentifies | apps/api/app/minimal_provisioning.py:229-233 | The derived headquarters operation ids of distinct (tenant, operation) pairs are distinct |
| Text.NumeralRoundTrip | apps/api/app/minimal_provisioning.py:229-233 | A decimal numeral is read back as its number |
| Text.FirstNumeralIsDetermined | apps/api/app/minimal_provisioning.py:229-233 | The tenant before the first `:` and the operation after it are determined by the joined text |
| ProvisioningProtocol.OperationsAreExactlyOnce | apps/api/app/minimal_provisioning.py:147-294 | For any number of interleaved calls: one run row per (tenant, operation); at most one call is told it created anything; all that succeed are told the same ids and sent the identical manifest |
| ProvisioningProtocol.ConflictsAreRejected | apps/api/app/minimal_provisioning.py:165-186 | Once a run exists a call with other content never succeeds, and one that succeeds is told its ids |
| ProvisioningProtocol.RepeatsAreReplayed | apps/api/app/minimal_provisioning.py:165-186 | After any run, a call that has the lock and finds a run of its operation is told that run's ids exactly when the content is the same, and refused otherwise |
| ProvisioningProtocol.CallAlone | apps/api/app/minimal_provisioning.py:147-294 | In any state a run reaches, a call left alone once its locks are free ends Created, Replayed or Refused exactly as the committed rows say, with the ids and the run row they call for |
| ProvisioningProtocol.LockedStep | apps/api/app/minimal_provisioning.py:165-186 | The run lookup: replay, refusal or going on, each exactly when the rows say so |
| ProvisioningProtocol.WaitingStep | apps/api/app/minimal_provisioning.py:155-163 | Waits exactly while another call of the tenant holds the lock, and is refused exactly for a tenant that is not ACTIVE |
| ProvisioningProtocol.CheckedStep | apps/api/app/minimal_provisioning.py:187-197 | Goes on exactly for an authorised actor and a free organization code |
| ProvisioningProtocol.AuthorisedStep | apps/api/app/minimal_provisioning.py:198-250 | The core inserts use two ids and are refused exactly for a code taken meanwhile |
| ProvisioningProtocol.WrittenStep | apps/api/app/identity/access_provisioning.py:113-131 | The staff insert is refused for a committed username, waits for an uncommitted one, and otherwise uses the next id |
| ProvisioningProtocol.RecordedStep | apps/api/app/minimal_provisioning.py:265-287 | The commit, field by field: the run row, the code and the username |
| ProvisioningProtocol.OtherSteps | apps/api/app/minimal_provisioning.py:288-294 | A rollback changes nothing committed; unrelated transactions touch no run |
| ProvisioningProtocol.UncreatedChangesNothing | apps/api/app/minimal_provisioning.py:179-294 | No statement of a call that ends refused or replaying changed a committed run, code or username |
| ProvisioningProtocol.OnlyCreationChangesRows | apps/api/app/minimal_provisioning.py:265-287 | Committed rows change only in the commit of the call that is then Created, by exactly its run row, code and username |
| ProvisioningProtocol.RunRowIsNeverRefused | apps/api/app/minimal_provisioning.py:265-277 | Under the tenant lock the unique key never refuses the run row |
| ProvisioningProtocol.AdvanceKeeps | apps/api/app/minimal_provisioning.py:155-287 | Every statement keeps the invariant whatever the other calls did in between |
| ProvisioningProtocol.CommitKeeps | apps/api/app/minimal_provisioning.py:265-287 | So does the commit |
| ProvisioningProtocol.RunKeeps | apps/api/app/minimal_provisioning.py:147-294 | The invariant holds after any interleaving with other calls and unrelated transactions |
| Provisioning.Provisioner.Provision | apps/api/app/minimal_provisioning.py:147-294 | One call, each outcome exactly as the tables say: refusals, a replay of the ids of the stored run for the same content and a conflict for other content, and creation exactly when tenant, actor, permissions, code, operation id, account and role allow it, which leaves exactly the specified tables with all invariants; everything else leaves the store as it was |
| Provisioning.ProvisionedAuthority | apps/api/app/minimal_provisioning.py:235-265 | The actor has exactly the tenant-wide permissions at the new location, the staff member exactly the role's and never more than the actor, everybody else what they had |
| Provisioning.RepeatIsReplayed | apps/api/app/minimal_provisioning.py:165-186 | After a call that created, the same manifest finds exactly its run, so a repeat is answered with its ids |
| Provisioning.Provisioner.AuthorizeActor | apps/api/app/minimal_provisioning.py:108-143 | The two refusals exactly when the actor is no ACTIVE member or its ACTIVE tenant-wide roles lack one of the four permissions; otherwise the actor's role ids |
| Provisioning.Provisioner.FindRun | apps/api/app/minimal_provisioning.py:165-173 | Finds a run of the operation exactly when there is one |
| Provisioning.Provisioner.WriteCore | apps/api/app/minimal_provisioning.py:198-250 | Organization, location, headquarters, grant and roles, or nothing committed when the operation id is taken |
| Provisioning.Provisioner.WriteStaff | apps/api/app/minimal_provisioning.py:252-264 | Succeeds exactly when the account is free, the actor's user ACTIVE and the role ACTIVE and within the actor's permissions |
| Provisioning.DelegationDecides | apps/api/app/identity/access_provisioning.py:90-354 | Of all access provisioning asks for, only account, actor's user and target role decide; the rest holds because the call created it |
| Provisioning.LocationDecides | apps/api/app/identity/access_provisioning.py:331-354 | At the location just created only the target role's permissions can be objected to |
| Provisioning.OperationTextsDiffer | apps/api/app/minimal_provisioning.py:229-233 | Two provisioning operations never share a headquarters operation id |
| Profiles.Reconciler.Reconcile | apps/api/app/reconcile_operational_profiles.py:50-129 | On success every profile's role is ACTIVE and carries exactly its codes, other roles are untouched and the counters are the net change; each error exactly when its condition holds, leaving the store as it was; on a current installation nothing changes and every counter is zero |
| Profiles.CountersAreSums | apps/api/app/reconcile_operational_profiles.py:106-120 | The counters are the sums over the profiles of the sizes of the differences between required and existing links |
| Profiles.CurrentNeedsNothing | apps/api/app/reconcile_operational_profiles.py:50-129 | A second run changes nothing and counts nothing |
| Profiles.SyncedIsCurrent | apps/api/app/reconcile_operational_profiles.py:103-120 | Required links mean exactly the contract's codes |
| Profiles.CurrentIsAccepted | apps/api/app/reconcile_operational_profiles.py:62-94 | A current installation is never refused |
| Profiles.LinksMeanCodes | apps/api/app/reconcile_operational_profiles.py:103-120 | A role has the required links exactly when it carries the profile's codes |
| Profiles.Reconciler.SyncLinks | apps/api/app/reconcile_operational_profiles.py:106-120 | The two loops give the role exactly the required links and count both differences |
| Profiles.Reconciler.ReplaceLinks | apps/api/app/reconcile_operational_profiles.py:106-120 | Both loops keep the constraints of the tables |
| Profiles.Reconciler.StaffLinks | apps/api/app/bootstrap_pilot_minimum.py:300-322 | The link-by-link algorithm of `_staff` ends with the same links and reports one entry per difference |
| Profiles.Reconciler.SyncAll | apps/api/app/reconcile_operational_profiles.py:77-120 | The profile loop, or a refusal exactly when some role of the contract is not ACTIVE |
| Profiles.Reconciler.FindOrCreateRole | apps/api/app/reconcile_operational_profiles.py:79-102 | Finds the role or creates it, or refuses exactly for one that is not ACTIVE; duplicates cannot occur under the UNIQUE on tenant and name |
| Profiles.Reconciler.EnsureCatalog | apps/api/app/reconcile_operational_profiles.py:56-75 | Adds the missing core permissions, or refuses exactly when one is unknown |
| Profiles.Reconciler.ResolveTenant | apps/api/app/reconcile_operational_profiles.py:33-47 | The one tenant with operational roles, or which of the two errors |
| Profiles.GainIsSum | apps/api/app/reconcile_operational_profiles.py:106-120 | When only these roles differ, the differences of the link tables add up role by role |

## Left out

- FIFO allocation, transfers, payments, checks, promotions, rounding and POS fencing: separate subsystems.
- 0041's downgrade, and what it does to a second upgrade beyond a leftover index of the warehouse key's name.
- MySQL's rule for absorbing the supporting index of a foreign key is taken to be: an index of that name is absorbed when its columns are a prefix of the key's.
- The other tables of 0042, 0044, 0045 and 0049 (conversions, costs, suppliers, receipts, losses, recipes): only the columns movements refer to are kept; permission seeding and plain index creation are not modelled.
- EvidenceBackfill.EvidenceMigration.AddEvidence: strict SQL mode is assumed for the out-of-range product; non-strict mode would clip it.
- ForeignKeyRebuild.Migration.Converge: text that does not fit a wider character set (row or index length limits) is not modelled.
- Usernames: Python's `strip().casefold()` is an arbitrary function of the local part, so results hold for any Unicode data; the migration's downgrade is not modelled.
- Timestamps, character sets and collations; the username comparison is exact, as `ascii_bin` makes it.
- Token decoding, password hashing and access-code verification: a decoded token, a hash comparison and a verified code are inputs.
- The ordering of role names inside an authority entry is the query's; the model keeps the query's order without saying which it is.
- DinerSessions.ServiceSessions.Join: display name, email normalisation, the customer match and the conversation rows are not modelled; whether a check holds the table is an input; times are whole seconds, as the columns keep them, and a wrong code's clock never runs back in `FailureRate`.
- DinerSessions.ServiceSessions.EndDiner: what the check service answers is an input; drafts and conversations closed beside the diner are not modelled.
- DinerSessions.ServiceSessions.CloseService: what the check service answers is an input; drafts, conversations and table groups are not modelled.
- Ledger.StockLedger.Reverse: idempotency replay, locking and the computed policy, stock and evidence columns are not modelled.
- Headquarters.Registry.BootstrapPilot: whether name, timezone and country match what is configured is one input; its grant is `LocationRoles.RoleStore.GetOrCreate`.
- LocationRoles.RoleStore.SelectAssignments: the ORDER BY of role names follows the collation and is not stated; only the order of names inside an entry depends on it.
- AccessProvisioning.AccessService.ProvisionAccess: the role is given as the row found by its name; row locks and conflicts with concurrent writers are not modelled.
- AccessProvisioning.ProvisionStaffAccount: username, email and display name normalisation and password hashing happen before; their result is an input.
- Provisioning.Provisioner.Provision: pydantic's normalisation of codes, time zones and emails happens before; the role is given as the row found by its name.
- ProvisioningProtocol.OperationsAreExactlyOnce: a connection lost during the commit itself, where the caller cannot know the outcome, is not modelled; unrelated transactions may change tenants, actors, codes and usernames, those of earlier runs included, but not run rows, which only this protocol writes.
- SHA-256 is taken to be injective, and UTF-8 to encode distinct texts differently.
- LockOrder.NeverDeadlocked: only the organization and location rows are modelled; InnoDB gap locks and the locks of other routines are not.
- The rest of the pilot bootstrap (menu, products, prices), HTTP wiring and observability: repetitive or plumbing.
