/** Migration 0042: operational evidence columns on `stock_movements`, backfilled from the
    order-consumption snapshots of 0036, and the four CHECKs the backfill must satisfy. */
module EvidenceBackfill {
  import opened Sql
  import opened Interruption
  import opened Movements
  import opened MovementRevisions

  function Positive(value: Option<real>): Truth {
    if value.None? then Unknown else Of(value.value > 0.0)
  }

  function NonNegative(value: Option<real>): Truth {
    if value.None? then Unknown else Of(value.value >= 0.0)
  }

  // ---------- the CHECKs the rows satisfy before (0036) ----------

  /** ck_stock_movements_consumption_evidence */
  function ConsumptionCheck(m: Movement): Truth {
    var c := m.consumption;
    Of(m.kind.ConsumptionOut?)
      .And(NotNull(c.consumptionId)).And(NotNull(c.orderId)).And(NotNull(c.orderItemId))
      .And(NotNull(c.productId)).And(NotNull(c.definitionId)).And(NotNull(c.definitionVersion))
      .And(NotNull(c.itemName)).And(NotNull(c.baseUom)).And(NotNull(c.unitCost))
      .And(NotNull(c.currency)).And(NotNull(c.extendedCost)).And(NotNull(c.sourceKey))
      .Or(Of(!m.kind.ConsumptionOut?)
        .And(IsNull(c.consumptionId)).And(IsNull(c.orderId)).And(IsNull(c.orderItemId))
        .And(IsNull(c.componentId)).And(IsNull(c.productId)).And(IsNull(c.definitionId))
        .And(IsNull(c.definitionVersion)).And(IsNull(c.itemName)).And(IsNull(c.baseUom))
        .And(IsNull(c.unitCost)).And(IsNull(c.currency)).And(IsNull(c.extendedCost))
        .And(IsNull(c.sourceKey)))
  }

  /** ck_stock_movements_consumption_cost */
  function ConsumptionCostCheck(m: Movement): Truth {
    var c := m.consumption;
    IsNull(c.unitCost).Or(NonNegative(c.unitCost)).And(IsNull(c.extendedCost).Or(NonNegative(c.extendedCost)))
  }

  predicate StoredAt0036(m: Movement) {
    && Passes(TypeCheck(R0035, m)) && Passes(SignCheck(R0035, m))
    && Passes(ConsumptionCheck(m)) && Passes(ConsumptionCostCheck(m))
  }

  // ---------- the CHECKs 0042 adds ----------

  datatype EvidenceCheck = StatusCheck | ValuesCheck | QuantityCheck | StandardCostCheck

  const EVIDENCE_CHECKS: seq<EvidenceCheck> := [StatusCheck, ValuesCheck, QuantityCheck, StandardCostCheck]

  function Condition(check: EvidenceCheck, m: Movement): Truth {
    var e := m.evidence;
    match check
    case StatusCheck => Of(!e.status.OtherStatus?)
    case ValuesCheck =>
      IsNull(e.conversionFactor).Or(Positive(e.conversionFactor))
        .And(IsNull(e.unitCost).Or(NonNegative(e.unitCost)))
    case QuantityCheck =>
      Of(e.status.Resolved? || e.status.CostNonDerivable? || e.status.LegacySnapshot?)
        .And(NotNull(e.sourceQuantity)).And(NotNull(e.sourceUom))
        .And(NotNull(e.conversionFactor)).And(NotNull(e.baseUom))
        .Or(Of(e.status.LegacyUnavailable?))
    case StandardCostCheck =>
      Of(e.status.Resolved?).And(NotNull(e.costRevision)).And(NotNull(e.unitCost))
        .And(NotNull(e.currency)).And(NotNull(e.extendedCost))
        .Or(Of(e.status.CostNonDerivable?).And(IsNull(e.costRevision)).And(IsNull(e.unitCost))
              .And(IsNull(e.currency)).And(IsNull(e.extendedCost)))
        .Or(Of(e.status.LegacyUnavailable? || e.status.LegacySnapshot?))
  }

  /** The evidence columns each status goes with. */
  predicate IsEvidenceShape(e: Evidence) {
    var quantity := e.sourceQuantity.Some? && e.sourceUom.Some? && e.conversionFactor.Some? && e.baseUom.Some?;
    && (e.conversionFactor.Some? ==> e.conversionFactor.value > 0.0) && (e.unitCost.Some? ==> e.unitCost.value >= 0.0)
    && match e.status
       case LegacyUnavailable => true
       case LegacySnapshot => quantity
       case Resolved =>
         quantity && e.costRevision.Some? && e.unitCost.Some? && e.currency.Some? && e.extendedCost.Some?
       case CostNonDerivable =>
         quantity && e.costRevision.None? && e.unitCost.None? && e.currency.None? && e.extendedCost.None?
       case OtherStatus(_) => false
  }

  /** Exactly the evidence the four CHECKs admit. */
  lemma AdmittedEvidence(m: Movement)
    ensures (forall check :: Passes(Condition(check, m))) <==> IsEvidenceShape(m.evidence)
  {
    assert forall check :: Passes(Condition(check, m)) ==> Condition(check, m) != False;
    if forall check :: Passes(Condition(check, m)) {
      assert Passes(Condition(StatusCheck, m)) && Passes(Condition(ValuesCheck, m));
      assert Passes(Condition(QuantityCheck, m)) && Passes(Condition(StandardCostCheck, m));
    }
  }

  predicate IsConsumptionShape(c: Consumption) {
    && c.consumptionId.Some? && c.orderId.Some? && c.orderItemId.Some? && c.productId.Some?
    && c.definitionId.Some? && c.definitionVersion.Some? && c.itemName.Some? && c.baseUom.Some?
    && c.unitCost.Some? && c.unitCost.value >= 0.0 && c.currency.Some?
    && c.extendedCost.Some? && c.extendedCost.value >= 0.0 && c.sourceKey.Some?
  }

  /** Exactly the snapshots 0036 admits: all columns but the component on a consumption, none
      on any other row. */
  lemma AdmittedConsumptions(m: Movement)
    ensures Passes(ConsumptionCheck(m)) && Passes(ConsumptionCostCheck(m)) <==>
      if m.kind.ConsumptionOut? then IsConsumptionShape(m.consumption)
      else m.consumption == Consumption(None, None, None, None, None, None, None, None, None, None, None, None, None)
  {
  }

  // ---------- the foreign keys 0042 adds ----------

  datatype EvidenceKey = ConversionKey | CostRevisionKey

  const EVIDENCE_KEYS: seq<EvidenceKey> := [ConversionKey, CostRevisionKey]

  /** The columns of `item_uom_conversions` and `inventory_cost_revisions` the keys refer to. */
  datatype EvidenceTarget = EvidenceTarget(id: int, scope: Scope, item: int)

  /** The stored rows each key refers to. */
  datatype Targets = Targets(conversions: set<EvidenceTarget>, costRevisions: set<EvidenceTarget>) {
    function For(key: EvidenceKey): set<EvidenceTarget> {
      if key.ConversionKey? then conversions else costRevisions
    }
  }

  function KeyColumn(key: EvidenceKey, m: Movement): Option<int> {
    match key
    case ConversionKey => m.evidence.conversionRevision
    case CostRevisionKey => m.evidence.costRevision
  }

  /** Simple match: NULL refers to nothing. */
  predicate KeyHolds(key: EvidenceKey, m: Movement, targets: set<EvidenceTarget>) {
    KeyColumn(key, m).Some? ==> EvidenceTarget(KeyColumn(key, m).value, m.scope, m.item) in targets
  }

  /** A key fails exactly on a row that names a conversion or cost revision which is not stored
      for the row's own scope and item. */
  lemma KeyMeaning(m: Movement, targets: set<EvidenceTarget>)
    ensures var named := m.evidence.conversionRevision;
      !KeyHolds(ConversionKey, m, targets) <==>
        named.Some? && EvidenceTarget(named.value, m.scope, m.item) !in targets
    ensures var named := m.evidence.costRevision;
      !KeyHolds(CostRevisionKey, m, targets) <==>
        named.Some? && EvidenceTarget(named.value, m.scope, m.item) !in targets
  {
  }

  // ---------- columns and backfill ----------

  datatype EvidenceColumn =
    | SourceQuantity | SourceUom | ConversionRevisionId | ConversionFactor | BaseUomEvidence
    | StandardCostRevisionId | StandardUnitCostEvidence | CostCurrencyEvidence | ExtendedStandardCost
    | StatusColumn

  const MOVEMENT_COLUMNS: seq<EvidenceColumn> :=
    [SourceQuantity, SourceUom, ConversionRevisionId, ConversionFactor, BaseUomEvidence,
     StandardCostRevisionId, StandardUnitCostEvidence, CostCurrencyEvidence, ExtendedStandardCost, StatusColumn]

  const NO_EVIDENCE := Evidence(None, None, None, None, None, None, None, None, None, LegacyUnavailable)

  /** `e` with the column set as in `source`. */
  function WithColumn(e: Evidence, column: EvidenceColumn, source: Evidence): Evidence {
    match column
    case SourceQuantity => e.(sourceQuantity := source.sourceQuantity)
    case SourceUom => e.(sourceUom := source.sourceUom)
    case ConversionRevisionId => e.(conversionRevision := source.conversionRevision)
    case ConversionFactor => e.(conversionFactor := source.conversionFactor)
    case BaseUomEvidence => e.(baseUom := source.baseUom)
    case StandardCostRevisionId => e.(costRevision := source.costRevision)
    case StandardUnitCostEvidence => e.(unitCost := source.unitCost)
    case CostCurrencyEvidence => e.(currency := source.currency)
    case ExtendedStandardCost => e.(extendedCost := source.extendedCost)
    case StatusColumn => e.(status := source.status)
  }

  /** A row after ALTER TABLE ADD COLUMN with the column's server default. */
  function WithDefault(m: Movement, column: EvidenceColumn): Movement {
    m.(evidence := WithColumn(m.evidence, column, NO_EVIDENCE))
  }

  function WithDefaults(rows: seq<Movement>, column: EvidenceColumn): seq<Movement> {
    Mapped(rows, m => WithDefault(m, column))
  }

  function Times(a: real, b: Option<real>): Option<real> {
    if b.None? then None else Some(a * b.value)
  }

  /** Numeric(31, 12) has nineteen digits before the point.  The factors are Numeric(19, 6), so
      their product needs no rounding, but up to twenty-six digits. */
  predicate FitsExtendedCost(value: Option<real>) {
    value.Some? ==> -10000000000000000000.0 < value.value < 10000000000000000000.0
  }

  /** The WHERE clause of the backfill UPDATE. */
  predicate IsTouched(m: Movement) {
    m.kind.ConsumptionOut? && m.evidence.status.LegacyUnavailable?
  }

  /** The consumption's cost can be stored as evidence. */
  predicate Storable(m: Movement) {
    m.kind.ConsumptionOut? ==> FitsExtendedCost(Times(m.quantity, m.consumption.unitCost))
  }

  /** The UPDATE has a row to write whose cost does not fit. */
  predicate Overflows(rows: seq<Movement>) {
    exists k :: 0 <= k < |rows| && IsTouched(rows[k]) && !Storable(rows[k])
  }

  /** A cost can be stored exactly when it is below 10^19 in size. */
  lemma StorableMeaning(m: Movement)
    requires m.consumption.unitCost.Some?
    ensures Storable(m) <==> m.kind.ConsumptionOut? ==>
      -10000000000000000000.0 < m.quantity * m.consumption.unitCost.value < 10000000000000000000.0
  {
    assert Times(m.quantity, m.consumption.unitCost).value == m.quantity * m.consumption.unitCost.value;
  }

  predicate AllStorable(rows: seq<Movement>) {
    forall k :: 0 <= k < |rows| ==> Storable(rows[k])
  }

  /** The backfill UPDATE on one row. */
  function Backfilled(m: Movement): Movement {
    if !IsTouched(m) then m
    else
      var c := m.consumption;
      m.(evidence := m.evidence.(
        sourceQuantity := Some(m.quantity), sourceUom := c.baseUom, conversionFactor := Some(1.0),
        baseUom := c.baseUom, unitCost := c.unitCost, currency := c.currency,
        extendedCost := Times(m.quantity, c.unitCost), status := LegacySnapshot))
  }

  /** A row of the migrated table, as a function of the row before. */
  function Migrated(m: Movement): Movement {
    Backfilled(m.(evidence := NO_EVIDENCE))
  }

  /** The heart of 0042: three-valued logic accepts every migrated row. */
  lemma BackfillSatisfiesChecks(m: Movement, check: EvidenceCheck, key: EvidenceKey, targets: set<EvidenceTarget>)
    requires StoredAt0036(m)
    ensures Passes(Condition(check, Migrated(m)))
    ensures StoredAt0036(Migrated(m)) && OnlyEvidenceDiffers(m, Migrated(m))
    ensures KeyColumn(key, Migrated(m)).None? && KeyHolds(key, Migrated(m), targets)
  {
  }

  /** Each evidence column of a migrated row against the column it comes from.  A consumption's
      evidence is its own snapshot in its own unit; every other row has none. */
  lemma EvidenceIsTheSnapshot(m: Movement)
    requires StoredAt0036(m)
    ensures var e, c := Migrated(m).evidence, m.consumption;
      if m.kind.ConsumptionOut? then
        && e.status == LegacySnapshot
        && e.sourceQuantity == Some(m.quantity) && e.sourceUom == c.baseUom && e.baseUom == c.baseUom
        && e.conversionFactor == Some(1.0) && e.unitCost == c.unitCost && e.currency == c.currency
        && c.unitCost.Some? && e.extendedCost.Some? && e.extendedCost.value == m.quantity * c.unitCost.value
        && e.conversionRevision.None? && e.costRevision.None?
      else
        && e.status == LegacyUnavailable
        && e.sourceQuantity.None? && e.sourceUom.None? && e.baseUom.None? && e.conversionFactor.None?
        && e.unitCost.None? && e.currency.None? && e.extendedCost.None?
        && e.conversionRevision.None? && e.costRevision.None?
  {
  }

  lemma BackfillIsIdempotent(m: Movement)
    ensures Backfilled(Backfilled(m)) == Backfilled(m) && Backfilled(m).quantity == m.quantity
    ensures Backfilled(m).(evidence := NO_EVIDENCE) == m.(evidence := NO_EVIDENCE)
  {
  }

  /** The backfill is needed: an un-backfilled consumption cannot take the new status. */
  lemma SnapshotNeedsQuantity(m: Movement)
    requires m.evidence == NO_EVIDENCE.(status := LegacySnapshot)
    ensures !Passes(Condition(QuantityCheck, m))
  {
  }

  /** The columns' widths admit a consumption whose cost the evidence column cannot hold: from
      any stored one, with other values of two columns. */
  lemma StoredCostCanOverflow(m: Movement)
    requires StoredAt0036(m) && m.kind.ConsumptionOut?
    ensures var wide := m.(
        quantity := -1000000000000.0, consumption := m.consumption.(unitCost := Some(1000000000000.0)));
      StoredAt0036(wide) && !Storable(wide)
  {
  }

  predicate OnlyEvidenceDiffers(a: Movement, b: Movement) {
    a.(evidence := NO_EVIDENCE) == b.(evidence := NO_EVIDENCE)
  }

  /** Every existing evidence column still holds its default. */
  ghost predicate HoldsDefaults(m: Movement, columns: set<EvidenceColumn>) {
    forall c :: c in columns ==> WithColumn(m.evidence, c, NO_EVIDENCE) == m.evidence
  }

  ghost predicate AllHoldDefaults(rows: seq<Movement>, columns: set<EvidenceColumn>) {
    forall k :: 0 <= k < |rows| ==> HoldsDefaults(rows[k], columns)
  }

  predicate KeyHoldsOn(rows: seq<Movement>, key: EvidenceKey, targets: set<EvidenceTarget>) {
    forall k :: 0 <= k < |rows| ==> KeyHolds(key, rows[k], targets)
  }

  predicate CheckHoldsOn(rows: seq<Movement>, check: EvidenceCheck) {
    forall k :: 0 <= k < |rows| ==> Passes(Condition(check, rows[k]))
  }

  ghost predicate AllKeysHold(rows: seq<Movement>, targets: Targets) {
    forall key: EvidenceKey :: KeyHoldsOn(rows, key, targets.For(key))
  }

  ghost predicate AllChecksHold(rows: seq<Movement>) {
    forall check: EvidenceCheck :: CheckHoldsOn(rows, check)
  }

  /** The migrated rows satisfy every key and CHECK the step creates. */
  lemma MigratedRowsHold(start: seq<Movement>, rows: seq<Movement>, targets: Targets)
    requires AllStored0036(start) && |rows| == |start| && forall k :: 0 <= k < |rows| ==> rows[k] == Migrated(start[k])
    ensures AllKeysHold(rows, targets) && AllChecksHold(rows)
  {
    forall key: EvidenceKey, k | 0 <= k < |rows| ensures KeyHolds(key, rows[k], targets.For(key)) {
      BackfillSatisfiesChecks(start[k], StatusCheck, key, targets.For(key));
    }
    forall check, k | 0 <= k < |rows| ensures Passes(Condition(check, rows[k])) {
      BackfillSatisfiesChecks(start[k], check, ConversionKey, {});
    }
  }

  predicate AllStored0036(rows: seq<Movement>) {
    forall k :: 0 <= k < |rows| ==> StoredAt0036(rows[k])
  }

  class EvidenceMigration {
    var rows: seq<Movement>
    var columns: set<EvidenceColumn>
    var keys: set<EvidenceKey>
    var checks: set<EvidenceCheck>
    const targets: Targets
    var fuel: Fuel

    constructor (rows: seq<Movement>, targets: Targets)
      requires AllStored0036(rows)
      ensures this.rows == rows && columns == {} && keys == {} && checks == {} && fuel == Unlimited
      ensures Progress(rows)
    {
      this.rows, columns, keys, checks, this.targets, fuel := rows, {}, {}, {}, targets, Unlimited;
    }

    /** What earlier, possibly interrupted or refused, runs over the table `start` have left. */
    ghost predicate Progress(start: seq<Movement>)
      reads this
    {
      && |rows| == |start| && AllStored0036(start)
      && (forall k :: 0 <= k < |rows| ==> OnlyEvidenceDiffers(start[k], rows[k]))
      && (AllHoldDefaults(rows, columns) || IsBackfilled(start))
      && (keys != {} || checks != {} ==> IsBackfilled(start))
    }

    /** The UPDATE has been applied, so no cost overflowed. */
    ghost predicate IsBackfilled(start: seq<Movement>)
      requires |rows| == |start|
      reads this
    {
      && AllStorable(start) && (forall c :: c in MOVEMENT_COLUMNS ==> c in columns)
      && forall k :: 0 <= k < |rows| ==> rows[k] == Migrated(start[k])
    }

    /** Only the columns were added: every row holds their defaults. */
    ghost predicate IsUntouched(start: seq<Movement>)
      reads this
    {
      |rows| == |start| && forall k :: 0 <= k < |rows| ==> rows[k] == start[k].(evidence := NO_EVIDENCE)
    }

    ghost predicate IsMigrated(start: seq<Movement>)
      requires |rows| == |start|
      reads this
    {
      && IsBackfilled(start)
      && AllKeysHold(rows, targets) && AllChecksHold(rows)
      && (forall key :: key in EVIDENCE_KEYS ==> key in keys)
      && (forall check :: check in EVIDENCE_CHECKS ==> check in checks)
    }

    method AddColumns(ghost start: seq<Movement>) returns (r: Outcome)
      requires Progress(start)
      modifies `rows, `columns, `fuel
      ensures Progress(start)
      ensures r.Done? || (r.Interrupted? && !old(fuel).Unlimited?)
      ensures r.Done? ==> forall c :: c in MOVEMENT_COLUMNS ==> c in columns
      ensures old(fuel).Unlimited? ==> fuel.Unlimited?
    {
      for i := 0 to |MOVEMENT_COLUMNS|
        invariant Progress(start)
        invariant forall j :: 0 <= j < i ==> MOVEMENT_COLUMNS[j] in columns
        invariant old(fuel).Unlimited? ==> fuel.Unlimited?
      {
        var column := MOVEMENT_COLUMNS[i];
        if column !in columns {
          if !Affords(fuel, 1) { return Interrupted; }
          assert !IsBackfilled(start);
          DefaultsExtendAll(start, rows, columns, column);
          rows := WithDefaults(rows, column);
          columns, fuel := columns + {column}, Spent(fuel);
        }
      }
      r := Done;
    }

    /** The UPDATE; strict mode refuses it as a whole when one cost is out of range. */
    method Backfill(ghost start: seq<Movement>) returns (r: Outcome)
      requires Progress(start) && forall c :: c in MOVEMENT_COLUMNS ==> c in columns
      modifies `rows, `fuel
      ensures Progress(start)
      ensures r.Done? || r.Rejected? || r.Interrupted?
      ensures r.Interrupted? <==> !Affords(old(fuel), 1)
      ensures r.Done? <==> Affords(old(fuel), 1) && AllStorable(start)
      ensures r.Done? ==> IsBackfilled(start) && fuel == Spent(old(fuel))
      ensures !r.Done? ==> rows == old(rows)
      ensures r.Rejected? ==> IsUntouched(start) && keys == {} && checks == {}
    {
      if !Affords(fuel, 1) { return Interrupted; }
      BackfillReaches(start, rows, columns);
      if Overflows(rows) { return Rejected; }
      rows, fuel := Mapped(rows, Backfilled), Spent(fuel);
      r := Done;
    }

    /** Each missing foreign key in turn: MySQL refuses one that some row fails. */
    method AddKeys() returns (r: Outcome)
      requires forall key :: key in keys ==> KeyHoldsOn(rows, key, targets.For(key))
      modifies `keys, `fuel
      ensures r.Done? || r.Rejected? || (r.Interrupted? && !old(fuel).Unlimited?)
      ensures r.Done? ==> AllKeysHold(rows, targets) && forall key :: key in EVIDENCE_KEYS ==> key in keys
      ensures r.Rejected? ==> !AllKeysHold(rows, targets)
      ensures old(fuel).Unlimited? ==> fuel.Unlimited?
    {
      for i := 0 to |EVIDENCE_KEYS|
        invariant forall key :: key in keys ==> KeyHoldsOn(rows, key, targets.For(key))
        invariant forall j :: 0 <= j < i ==> EVIDENCE_KEYS[j] in keys
        invariant old(fuel).Unlimited? ==> fuel.Unlimited?
      {
        var key := EVIDENCE_KEYS[i];
        if key !in keys {
          if !Affords(fuel, 1) { return Interrupted; }
          if !KeyHoldsOn(rows, key, targets.For(key)) { return Rejected; }
          keys, fuel := keys + {key}, Spent(fuel);
        }
      }
      forall key: EvidenceKey ensures key in keys { KeyIsListed(key); }
      r := Done;
    }

    /** Each missing CHECK in turn: MySQL refuses one that some row fails. */
    method AddChecks() returns (r: Outcome)
      requires forall check :: check in checks ==> CheckHoldsOn(rows, check)
      modifies `checks, `fuel
      ensures r.Done? || r.Rejected? || (r.Interrupted? && !old(fuel).Unlimited?)
      ensures r.Done? ==> AllChecksHold(rows) && forall c :: c in EVIDENCE_CHECKS ==> c in checks
      ensures r.Rejected? ==> !AllChecksHold(rows)
      ensures old(fuel).Unlimited? ==> fuel.Unlimited?
    {
      for i := 0 to |EVIDENCE_CHECKS|
        invariant forall check :: check in checks ==> CheckHoldsOn(rows, check)
        invariant forall j :: 0 <= j < i ==> EVIDENCE_CHECKS[j] in checks
        invariant old(fuel).Unlimited? ==> fuel.Unlimited?
      {
        var check := EVIDENCE_CHECKS[i];
        if check !in checks {
          if !Affords(fuel, 1) { return Interrupted; }
          if !CheckHoldsOn(rows, check) { return Rejected; }
          checks, fuel := checks + {check}, Spent(fuel);
        }
      }
      forall check: EvidenceCheck ensures check in checks { CheckIsListed(check); }
      r := Done;
    }

    /** `_add_evidence` from whatever earlier runs have left: done only when every cost can be
        stored, refused only when one cannot, otherwise interrupted. */
    method AddEvidence(ghost start: seq<Movement>) returns (r: Outcome)
      requires Progress(start)
      modifies `rows, `columns, `keys, `checks, `fuel
      ensures Progress(start)
      ensures r.Done? || r.Rejected? || (r.Interrupted? && !old(fuel).Unlimited?)
      ensures r.Done? ==> IsMigrated(start)
      ensures r.Rejected? ==> !AllStorable(start) && keys == {} && checks == {} && IsUntouched(start)
    {
      r := AddColumns(start);
      if r.Done? { r := Backfill(start); }
      if r.Done? {
        MigratedRowsHold(start, rows, targets);
        r := AddKeys();
      }
      if r.Done? { r := AddChecks(); }
    }

    /** Runs cut off after `fuels` statements, then a full one: migrated exactly when every
        consumption's cost can be stored; otherwise only columns were added. */
    method Converge(ghost start: seq<Movement>, fuels: seq<nat>) returns (r: Outcome)
      requires Progress(start)
      modifies `rows, `columns, `keys, `checks, `fuel
      ensures r.Done? <==> AllStorable(start)
      ensures r.Done? ==> |rows| == |start| && IsMigrated(start)
      ensures !r.Done? ==> keys == {} && checks == {} && IsUntouched(start)
    {
      for i := 0 to |fuels|
        invariant Progress(start)
      {
        fuel := Statements(fuels[i]);
        r := AddEvidence(start);
      }
      fuel := Unlimited;
      r := AddEvidence(start);
    }
  }

  lemma DefaultsExtendAll(
      start: seq<Movement>, rows: seq<Movement>, columns: set<EvidenceColumn>, column: EvidenceColumn)
    requires |rows| == |start| && forall k :: 0 <= k < |rows| ==> OnlyEvidenceDiffers(start[k], rows[k])
    requires AllHoldDefaults(rows, columns)
    ensures var after := WithDefaults(rows, column);
      && |after| == |start| && AllHoldDefaults(after, columns + {column})
      && forall k :: 0 <= k < |after| ==> OnlyEvidenceDiffers(start[k], after[k])
  {
    forall k | 0 <= k < |rows| ensures HoldsDefaults(WithDefaults(rows, column)[k], columns + {column}) {
      DefaultsExtend(rows[k], columns, column);
    }
  }

  /** What the UPDATE does from a first run's rows or from an earlier run's. */
  lemma BackfillReaches(start: seq<Movement>, rows: seq<Movement>, columns: set<EvidenceColumn>)
    requires |rows| == |start| && forall c :: c in MOVEMENT_COLUMNS ==> c in columns
    requires forall k :: 0 <= k < |rows| ==> OnlyEvidenceDiffers(start[k], rows[k])
    requires AllHoldDefaults(rows, columns)
      || (AllStorable(start) && forall k :: 0 <= k < |rows| ==> rows[k] == Migrated(start[k]))
    ensures forall k :: 0 <= k < |rows| ==> Mapped(rows, Backfilled)[k] == Migrated(start[k])
    ensures AllStorable(start) <==> !Overflows(rows)
    ensures !AllStorable(start) ==> forall k :: 0 <= k < |rows| ==> rows[k] == start[k].(evidence := NO_EVIDENCE)
  {
    forall k | 0 <= k < |rows|
      ensures Backfilled(rows[k]) == Migrated(start[k]) && Storable(start[k]) == Storable(rows[k])
      ensures AllHoldDefaults(rows, columns) ==> rows[k] == start[k].(evidence := NO_EVIDENCE)
    {
      AllDefaultsMeansNoEvidence(rows[k], columns);
      BackfillIsIdempotent(start[k].(evidence := NO_EVIDENCE));
    }
  }

  lemma CheckIsListed(check: EvidenceCheck)
    ensures check in EVIDENCE_CHECKS
  {
    assert EVIDENCE_CHECKS[0] == StatusCheck && EVIDENCE_CHECKS[1] == ValuesCheck
      && EVIDENCE_CHECKS[2] == QuantityCheck && EVIDENCE_CHECKS[3] == StandardCostCheck;
  }

  lemma KeyIsListed(key: EvidenceKey)
    ensures key in EVIDENCE_KEYS
  {
    assert EVIDENCE_KEYS[0] == ConversionKey && EVIDENCE_KEYS[1] == CostRevisionKey;
  }

  lemma ClearingCommutes(e: Evidence, c: EvidenceColumn, d: EvidenceColumn)
    ensures WithColumn(WithColumn(e, c, NO_EVIDENCE), d, NO_EVIDENCE)
      == WithColumn(WithColumn(e, d, NO_EVIDENCE), c, NO_EVIDENCE)
  {
  }

  lemma ClearingTwice(e: Evidence, c: EvidenceColumn)
    ensures WithColumn(WithColumn(e, c, NO_EVIDENCE), c, NO_EVIDENCE) == WithColumn(e, c, NO_EVIDENCE)
  {
  }

  lemma DefaultsExtend(m: Movement, columns: set<EvidenceColumn>, column: EvidenceColumn)
    requires HoldsDefaults(m, columns)
    ensures HoldsDefaults(WithDefault(m, column), columns + {column})
  {
    forall c | c in columns + {column}
      ensures var e := WithColumn(m.evidence, column, NO_EVIDENCE); WithColumn(e, c, NO_EVIDENCE) == e
    {
      ClearingCommutes(m.evidence, c, column);
      if c !in columns { ClearingTwice(m.evidence, column); }
    }
  }

  lemma AllDefaultsMeansNoEvidence(m: Movement, columns: set<EvidenceColumn>)
    requires forall c :: c in MOVEMENT_COLUMNS ==> c in columns
    ensures HoldsDefaults(m, columns) ==> m.evidence == NO_EVIDENCE
  {
    assert forall i :: 0 <= i < |MOVEMENT_COLUMNS| ==> MOVEMENT_COLUMNS[i] in columns;
    assert MOVEMENT_COLUMNS[0] == SourceQuantity && MOVEMENT_COLUMNS[1] == SourceUom
      && MOVEMENT_COLUMNS[2] == ConversionRevisionId && MOVEMENT_COLUMNS[3] == ConversionFactor
      && MOVEMENT_COLUMNS[4] == BaseUomEvidence && MOVEMENT_COLUMNS[5] == StandardCostRevisionId
      && MOVEMENT_COLUMNS[6] == StandardUnitCostEvidence && MOVEMENT_COLUMNS[7] == CostCurrencyEvidence
      && MOVEMENT_COLUMNS[8] == ExtendedStandardCost && MOVEMENT_COLUMNS[9] == StatusColumn;
  }
}
