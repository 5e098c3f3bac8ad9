/** One row of `stock_movements`, with the columns added by migrations 0035, 0036, 0041,
    0042, 0044, 0045 and 0049. */
module Movements {
  import opened Sql

  /** (tenant_id, organization_id, location_id), the prefix of every scoped foreign key. */
  datatype Scope = Scope(tenant: int, organization: int, location: int)

  /** movement_type. */
  datatype Kind =
    | OpeningBalance | ManualIn | ManualOut | Adjustment | Reversal | ConsumptionOut
    | GoodsReceipt | Waste | PreparationInput | PreparationOutput
    | OtherKind(name: string)

  /** Order-consumption snapshot columns (0036). */
  datatype Consumption = Consumption(
    consumptionId: Option<int>, orderId: Option<int>, orderItemId: Option<int>,
    componentId: Option<int>, productId: Option<int>, definitionId: Option<int>,
    definitionVersion: Option<int>, itemName: Option<string>, baseUom: Option<string>,
    unitCost: Option<real>, currency: Option<string>, extendedCost: Option<real>,
    sourceKey: Option<string>)

  /** Operational unit and standard-cost evidence columns (0042). */
  datatype Evidence = Evidence(
    sourceQuantity: Option<real>, sourceUom: Option<string>, conversionRevision: Option<int>,
    conversionFactor: Option<real>, baseUom: Option<string>, costRevision: Option<int>,
    unitCost: Option<real>, currency: Option<string>, extendedCost: Option<real>,
    status: EvidenceStatus)

  datatype EvidenceStatus =
    LegacyUnavailable | LegacySnapshot | Resolved | CostNonDerivable | OtherStatus(name: string)

  datatype LossRole = OriginalLoss | ReversalOfLoss | OtherRole(name: string)

  /** Provenance columns of goods receipts (0044), losses (0045) and preparation (0049). */
  datatype Provenance = Provenance(
    receiptId: Option<int>, receiptLineId: Option<int>,
    lossId: Option<int>, lossRole: Option<LossRole>,
    batchId: Option<int>, batchInputId: Option<int>, batchOutputId: Option<int>)

  datatype Movement = Movement(
    id: int, scope: Scope, item: int, kind: Kind, quantity: real,
    reversalOf: Option<int>, openingSlot: Option<int>,
    consumption: Consumption,
    warehouse: Option<int>, policy: string, warning: bool, resulting: Option<real>,
    evidence: Evidence, provenance: Provenance)
}
