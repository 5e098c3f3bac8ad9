/** The type, sign and provenance CHECKs of `stock_movements` as migrations 0035, 0044, 0045
    and 0049 leave them, and the guarded downgrades that put the older ones back. */
module MovementRevisions {
  import opened Sql
  import opened Interruption
  import opened Movements

  /** The migration whose type and sign CHECKs are in force. */
  datatype Revision = R0035 | R0044 | R0045 | R0049 {
    predicate Includes(other: Revision) {
      match this
      case R0035 => other.R0035?
      case R0044 => other.R0035? || other.R0044?
      case R0045 => !other.R0049?
      case R0049 => true
    }
  }

  predicate Inbound(r: Revision, k: Kind) {
    || k.OpeningBalance? || k.ManualIn?
    || (k.GoodsReceipt? && r.Includes(R0044)) || (k.PreparationOutput? && r.Includes(R0049))
  }

  predicate Outbound(r: Revision, k: Kind) {
    || k.ManualOut? || k.ConsumptionOut?
    || (k.Waste? && r.Includes(R0045)) || (k.PreparationInput? && r.Includes(R0049))
  }

  predicate Signless(k: Kind) {
    k.Adjustment? || k.Reversal?
  }

  /** ck_stock_movements_type */
  function TypeCheck(r: Revision, m: Movement): Truth {
    Of(Inbound(r, m.kind) || Outbound(r, m.kind) || Signless(m.kind))
  }

  /** ck_stock_movements_sign */
  function SignCheck(r: Revision, m: Movement): Truth {
    Of(Inbound(r, m.kind)).And(Of(m.quantity > 0.0))
      .Or(Of(Outbound(r, m.kind)).And(Of(m.quantity < 0.0)))
      .Or(Of(Signless(m.kind)).And(Of(m.quantity != 0.0)))
  }

  /** ck_stock_movements_receipt_evidence (0044) */
  function ReceiptCheck(m: Movement): Truth {
    var p := m.provenance;
    Of(m.kind.GoodsReceipt?).And(NotNull(p.receiptId)).And(NotNull(p.receiptLineId))
      .Or(Of(!m.kind.GoodsReceipt?).And(IsNull(p.receiptId)).And(IsNull(p.receiptLineId)))
  }

  /** ck_stock_movements_loss_evidence (0045) */
  function LossCheck(m: Movement): Truth {
    var p := m.provenance;
    var unlinked := IsNull(p.lossId).And(IsNull(p.lossRole));
    Of(m.kind.Waste?).And(NotNull(p.lossId)).And(Eq(p.lossRole, OriginalLoss))
      .Or(Of(m.kind.Reversal?).And(unlinked.Or(NotNull(p.lossId).And(Eq(p.lossRole, ReversalOfLoss)))))
      .Or(Of(!m.kind.Waste? && !m.kind.Reversal?).And(unlinked))
  }

  /** ck_stock_movements_preparation_evidence (0049) */
  function PreparationCheck(m: Movement): Truth {
    var p := m.provenance;
    Of(m.kind.PreparationInput?).And(NotNull(p.batchId)).And(NotNull(p.batchInputId)).And(IsNull(p.batchOutputId))
      .Or(Of(m.kind.PreparationOutput?)
            .And(NotNull(p.batchId)).And(NotNull(p.batchOutputId)).And(IsNull(p.batchInputId)))
      .Or(Of(!m.kind.PreparationInput? && !m.kind.PreparationOutput?)
            .And(IsNull(p.batchId)).And(IsNull(p.batchInputId)).And(IsNull(p.batchOutputId)))
  }

  /** A row of `preparation_batch_inputs` or `preparation_batch_outputs`. */
  datatype BatchLine = BatchLine(id: int, batch: int, item: int)

  /** The preparation tables of 0049 that its downgrade counts or its keys reach. */
  datatype Preparation = Preparation(
    recipeVersions: set<int>, batches: set<int>, inputs: set<BatchLine>, outputs: set<BatchLine>)

  /** fk_preparation_batch_inputs_batch_scope and its twin for outputs. */
  predicate LinesHaveBatches(p: Preparation) {
    forall line :: line in p.inputs + p.outputs ==> line.batch in p.batches
  }

  /** fk_stock_movements_preparation_input_scope and its twin, simple match. */
  predicate PreparationKeysHold(m: Movement, p: Preparation) {
    && (m.provenance.batchInputId.Some? && m.provenance.batchId.Some? ==>
          BatchLine(m.provenance.batchInputId.value, m.provenance.batchId.value, m.item) in p.inputs)
    && (m.provenance.batchOutputId.Some? && m.provenance.batchId.Some? ==>
          BatchLine(m.provenance.batchOutputId.value, m.provenance.batchId.value, m.item) in p.outputs)
  }

  /** A row of `inventory_losses`, by the columns the key of 0045 refers to. */
  datatype Loss = Loss(id: int, scope: Scope, warehouse: int, item: int)

  /** fk_stock_movements_loss_scope, simple match, and uq_stock_movements_loss_role. */
  predicate LossKeysHold(rows: seq<Movement>, losses: set<Loss>) {
    && (forall k :: 0 <= k < |rows| ==> NamesStoredLoss(rows[k], losses))
    && (forall i, k :: 0 <= i < k < |rows| ==> !SameLossRole(rows[i], rows[k]))
  }

  predicate NamesStoredLoss(m: Movement, losses: set<Loss>) {
    m.provenance.lossId.Some? && m.warehouse.Some? ==>
      Loss(m.provenance.lossId.value, m.scope, m.warehouse.value, m.item) in losses
  }

  predicate SameLossRole(a: Movement, b: Movement) {
    && a.provenance.lossId.Some? && a.provenance.lossRole.Some?
    && a.provenance.lossId == b.provenance.lossId && a.provenance.lossRole == b.provenance.lossRole
  }

  /** The keys of 0045 fail exactly on a row whose loss is not stored for its own scope,
      warehouse and item, or on two rows with one loss and role. */
  lemma LossKeyMeaning(rows: seq<Movement>, losses: set<Loss>)
    ensures !LossKeysHold(rows, losses) <==>
      || (exists k :: 0 <= k < |rows| && NamesForeignLoss(rows[k], losses))
      || exists i, k :: 0 <= i < k < |rows| && RepeatsLoss(rows[i].provenance, rows[k].provenance)
  {
    if k :| 0 <= k < |rows| && NamesForeignLoss(rows[k], losses) {
      assert !NamesStoredLoss(rows[k], losses);
    }
    if i, k :| 0 <= i < k < |rows| && RepeatsLoss(rows[i].provenance, rows[k].provenance) {
      assert SameLossRole(rows[i], rows[k]);
    }
    if !LossKeysHold(rows, losses) {
      if k :| 0 <= k < |rows| && !NamesStoredLoss(rows[k], losses) {
        assert NamesForeignLoss(rows[k], losses);
      } else {
        var i, k :| 0 <= i < k < |rows| && SameLossRole(rows[i], rows[k]);
        assert RepeatsLoss(rows[i].provenance, rows[k].provenance);
      }
    }
  }

  predicate NamesForeignLoss(m: Movement, losses: set<Loss>) {
    && m.provenance.lossId.Some? && m.warehouse.Some?
    && forall loss :: loss in losses && loss.id == m.provenance.lossId.value ==>
         loss.scope != m.scope || loss.warehouse != m.warehouse.value || loss.item != m.item
  }

  predicate RepeatsLoss(a: Provenance, b: Provenance) {
    a.lossId.Some? && a.lossRole.Some? && b.lossId == a.lossId && b.lossRole == a.lossRole
  }

  /** A row as stored at revision `r`: it passes the CHECKs in force, and columns that do not
      exist yet hold nothing. */
  predicate StoredAt(r: Revision, m: Movement) {
    && Passes(TypeCheck(r, m)) && Passes(SignCheck(r, m))
    && (if r.Includes(R0044) then Passes(ReceiptCheck(m)) else NoReceipt(m) == m)
    && (if r.Includes(R0045) then Passes(LossCheck(m)) else NoLoss(m) == m)
    && (if r.Includes(R0049) then Passes(PreparationCheck(m)) else NoPreparation(m) == m)
  }

  predicate AllStored(r: Revision, rows: seq<Movement>) {
    forall k :: 0 <= k < |rows| ==> StoredAt(r, rows[k])
  }

  predicate AllPass(r: Revision, rows: seq<Movement>) {
    forall k :: 0 <= k < |rows| ==> Passes(TypeCheck(r, rows[k])) && Passes(SignCheck(r, rows[k]))
  }

  predicate HasReceipt(rows: seq<Movement>) {
    exists k :: 0 <= k < |rows| && rows[k].kind.GoodsReceipt?
  }

  predicate HasWaste(rows: seq<Movement>) {
    exists k :: 0 <= k < |rows| && rows[k].kind.Waste?
  }

  /** Some reversal is linked to a loss. */
  predicate HasReversedLoss(rows: seq<Movement>) {
    exists k :: 0 <= k < |rows| && rows[k].kind.Reversal? && rows[k].provenance.lossId.Some?
  }

  /** Every row passes the CHECKs, the keys to losses and preparation hold, and tables that do
      not exist yet hold nothing. */
  predicate ContentsFit(r: Revision, rows: seq<Movement>, losses: set<Loss>, p: Preparation) {
    && AllStored(r, rows)
    && (if r.Includes(R0045) then LossKeysHold(rows, losses) else losses == {})
    && (if r.R0049? then PreparationRowsValid(rows, p) else p == NO_PREPARATION)
  }

  predicate PreparationRowsValid(rows: seq<Movement>, p: Preparation) {
    LinesHaveBatches(p) && forall k :: 0 <= k < |rows| ==> PreparationKeysHold(rows[k], p)
  }

  const NO_PREPARATION := Preparation({}, {}, {}, {})

  function NoReceipt(m: Movement): Movement {
    m.(provenance := m.provenance.(receiptId := None, receiptLineId := None))
  }

  function NoLoss(m: Movement): Movement {
    m.(provenance := m.provenance.(lossId := None, lossRole := None))
  }

  function NoPreparation(m: Movement): Movement {
    m.(provenance := m.provenance.(batchId := None, batchInputId := None, batchOutputId := None))
  }

  function Mapped(rows: seq<Movement>, f: Movement -> Movement): seq<Movement> {
    seq(|rows|, k requires 0 <= k < |rows| => f(rows[k]))
  }

  function Prior(r: Revision): Revision
    requires !r.R0035?
  {
    if r.R0049? then R0045 else if r.R0045? then R0044 else R0035
  }

  /** movement_type values a revision introduces. */
  predicate IntroducedBy(r: Revision, k: Kind) {
    match r
    case R0035 => false
    case R0044 => k.GoodsReceipt?
    case R0045 => k.Waste?
    case R0049 => k.PreparationInput? || k.PreparationOutput?
  }

  /** The older CHECKs accept exactly the stored rows of no newer kind. */
  lemma OlderChecksAccept(r: Revision, m: Movement)
    requires !r.R0035? && Passes(TypeCheck(r, m)) && Passes(SignCheck(r, m))
    ensures (Passes(TypeCheck(Prior(r), m)) && Passes(SignCheck(Prior(r), m))) <==> !IntroducedBy(r, m.kind)
  {
  }

  /** A row whose new columns are NULL passes every CHECK of the next revision. */
  lemma NewerChecksAccept(r: Revision, m: Movement)
    requires !r.R0035? && StoredAt(Prior(r), m)
    ensures StoredAt(r, m)
  {
  }

  predicate HasNoProvenance(p: Provenance) {
    && HasNoReceipt(p) && p.lossId.None? && p.lossRole.None? && HasNoBatch(p)
  }

  predicate HasNoReceipt(p: Provenance) {
    p.receiptId.None? && p.receiptLineId.None?
  }

  predicate HasNoBatch(p: Provenance) {
    p.batchId.None? && p.batchInputId.None? && p.batchOutputId.None?
  }

  /** A row's sign and provenance columns, kind by kind.  A loss without its role passes: the
      CHECK is UNKNOWN. */
  predicate IsShape(m: Movement) {
    var p := m.provenance;
    match m.kind
    case OpeningBalance => m.quantity > 0.0 && HasNoProvenance(p)
    case ManualIn => m.quantity > 0.0 && HasNoProvenance(p)
    case ManualOut => m.quantity < 0.0 && HasNoProvenance(p)
    case ConsumptionOut => m.quantity < 0.0 && HasNoProvenance(p)
    case Adjustment => m.quantity != 0.0 && HasNoProvenance(p)
    case Reversal =>
      m.quantity != 0.0 && HasNoReceipt(p) && HasNoBatch(p)
      && (if p.lossId.None? then p.lossRole.None? else p.lossRole.None? || p.lossRole == Some(ReversalOfLoss))
    case GoodsReceipt =>
      m.quantity > 0.0 && p.receiptId.Some? && p.receiptLineId.Some?
      && p.lossId.None? && p.lossRole.None? && HasNoBatch(p)
    case Waste =>
      m.quantity < 0.0 && HasNoReceipt(p) && HasNoBatch(p)
      && p.lossId.Some? && (p.lossRole.None? || p.lossRole == Some(OriginalLoss))
    case PreparationInput =>
      m.quantity < 0.0 && HasNoReceipt(p) && p.lossId.None? && p.lossRole.None?
      && p.batchId.Some? && p.batchInputId.Some? && p.batchOutputId.None?
    case PreparationOutput =>
      m.quantity > 0.0 && HasNoReceipt(p) && p.lossId.None? && p.lossRole.None?
      && p.batchId.Some? && p.batchOutputId.Some? && p.batchInputId.None?
    case OtherKind(_) => false
  }

  /** Exactly the rows the five CHECKs of 0049 admit. */
  lemma AdmittedMovements(m: Movement)
    ensures StoredAt(R0049, m) <==> IsShape(m)
  {
  }

  /** Each earlier revision admits exactly those rows of the next that are of no newer kind and
      hold nothing in its new columns. */
  lemma EarlierAdmits(r: Revision, m: Movement)
    requires !r.R0035?
    ensures StoredAt(Prior(r), m) <==>
      StoredAt(r, m) && !IntroducedBy(r, m.kind) && (r.R0045? ==> m.provenance.lossId.None?)
  {
    if StoredAt(Prior(r), m) { NewerChecksAccept(r, m); }
    if Passes(TypeCheck(r, m)) && Passes(SignCheck(r, m)) { OlderChecksAccept(r, m); }
    if StoredAt(r, m) && !IntroducedBy(r, m.kind) { DroppedColumnsAreEmpty(r, m); }
  }

  /** What the provenance CHECK of a stored row says about the columns its downgrade drops:
      nothing is lost, except a loss recorded on a reversal. */
  lemma DroppedColumnsAreEmpty(r: Revision, m: Movement)
    requires StoredAt(r, m) && !IntroducedBy(r, m.kind)
    ensures r.R0044? ==> NoReceipt(m) == m
    ensures r.R0045? ==> (NoLoss(m) == m <==> !(m.kind.Reversal? && m.provenance.lossId.Some?))
    ensures r.R0049? ==> NoPreparation(m) == m
  {
  }

  /** Through movement, batch line and batch: a preparation movement names a stored batch. */
  lemma PreparationMovementHasBatch(m: Movement, p: Preparation)
    requires StoredAt(R0049, m) && PreparationKeysHold(m, p) && LinesHaveBatches(p)
    requires IntroducedBy(R0049, m.kind)
    ensures m.provenance.batchId.Some? && m.provenance.batchId.value in p.batches
  {
  }

  lemma WithoutReceipts(rows: seq<Movement>, losses: set<Loss>, p: Preparation)
    requires ContentsFit(R0044, rows, losses, p) && !HasReceipt(rows)
    ensures AllPass(R0035, rows) && ContentsFit(R0035, rows, losses, p)
    ensures Mapped(rows, NoReceipt) == rows
  {
    forall k | 0 <= k < |rows| ensures StoredAt(R0035, rows[k]) && NoReceipt(rows[k]) == rows[k] {
      OlderChecksAccept(R0044, rows[k]);
      DroppedColumnsAreEmpty(R0044, rows[k]);
    }
  }

  lemma WithoutWaste(rows: seq<Movement>)
    requires AllStored(R0045, rows) && !HasWaste(rows)
    ensures AllPass(R0044, rows) && ContentsFit(R0044, Mapped(rows, NoLoss), {}, NO_PREPARATION)
    ensures Mapped(rows, NoLoss) == rows <==> !HasReversedLoss(rows)
  {
    forall k | 0 <= k < |rows|
      ensures StoredAt(R0044, NoLoss(rows[k]))
      ensures Mapped(rows, NoLoss)[k] == rows[k] <==> !(rows[k].kind.Reversal? && rows[k].provenance.lossId.Some?)
    {
      OlderChecksAccept(R0045, rows[k]);
      DroppedColumnsAreEmpty(R0045, rows[k]);
    }
  }

  lemma WithoutBatches(rows: seq<Movement>, losses: set<Loss>, p: Preparation)
    requires ContentsFit(R0049, rows, losses, p) && p.batches == {}
    ensures AllPass(R0045, rows) && ContentsFit(R0045, rows, losses, NO_PREPARATION)
    ensures Mapped(rows, NoPreparation) == rows
  {
    forall k | 0 <= k < |rows| ensures StoredAt(R0045, rows[k]) && NoPreparation(rows[k]) == rows[k] {
      if IntroducedBy(R0049, rows[k].kind) { PreparationMovementHasBatch(rows[k], p); }
      OlderChecksAccept(R0049, rows[k]);
      DroppedColumnsAreEmpty(R0049, rows[k]);
    }
  }

  /** `stock_movements` with the CHECKs in force; a dropped CHECK is None. */
  class MovementTable {
    var rows: seq<Movement>
    var typeCheck: Option<Revision>
    var signCheck: Option<Revision>
    var receiptCheck: bool
    var lossCheck: bool
    var preparationCheck: bool
    var losses: set<Loss>
    var preparation: Preparation

    predicate At(r: Revision)
      reads this
    {
      && typeCheck == Some(r) && signCheck == Some(r)
      && receiptCheck == r.Includes(R0044) && lossCheck == r.Includes(R0045) && preparationCheck == r.Includes(R0049)
      && ContentsFit(r, rows, losses, preparation)
    }

    constructor (rows: seq<Movement>)
      requires AllStored(R0035, rows)
      ensures At(R0035) && this.rows == rows
    {
      this.rows := rows;
      typeCheck, signCheck := Some(R0035), Some(R0035);
      receiptCheck, lossCheck, preparationCheck, losses := false, false, false, {};
      preparation := NO_PREPARATION;
    }

    /** Drops both CHECKs and creates those of `r`; MySQL rejects a CHECK some row fails. */
    method ReplaceTypeAndSign(r: Revision) returns (o: Outcome)
      modifies `typeCheck, `signCheck
      ensures o.Done? <==> AllPass(r, rows)
      ensures o.Done? ==> typeCheck == Some(r) && signCheck == Some(r)
      ensures o.Done? || o.Rejected?
      ensures o.Rejected? ==> signCheck.None? && (typeCheck.None? || typeCheck == Some(r))
    {
      typeCheck, signCheck := None, None;
      if exists k :: 0 <= k < |rows| && !Passes(TypeCheck(r, rows[k])) { return Rejected; }
      typeCheck := Some(r);
      if exists k :: 0 <= k < |rows| && !Passes(SignCheck(r, rows[k])) { return Rejected; }
      signCheck := Some(r);
      o := Done;
    }

    /** `_extend_movements` of 0044, 0045 and 0049. */
    method Upgrade(r: Revision) returns (o: Outcome)
      requires !r.R0035? && At(Prior(r))
      modifies this
      ensures o.Done? && At(r) && rows == old(rows)
    {
      forall k | 0 <= k < |rows| ensures StoredAt(r, rows[k]) { NewerChecksAccept(r, rows[k]); }
      o := ReplaceTypeAndSign(r);
      if r.R0044? { receiptCheck := true; }
      if r.R0045? { lossCheck := true; }
      if r.R0049? { preparationCheck := true; }
    }

    method Downgrade0044() returns (o: Outcome)
      requires At(R0044)
      modifies this
      ensures o.Raised? <==> HasReceipt(old(rows))
      ensures if o.Raised? then At(R0044) else o.Done? && At(R0035)
      ensures rows == old(rows)
    {
      if exists k :: 0 <= k < |rows| && rows[k].kind.GoodsReceipt? {
        return Raised("Cannot downgrade 0044: accepted GoodsReceipt stock history exists");
      }
      DropReceipts();
      o := Done;
    }

    /** The statements of 0044's downgrade; none is rejected without a GOODS_RECEIPT. */
    method DropReceipts()
      requires At(R0044) && !HasReceipt(rows)
      modifies this
      ensures At(R0035) && rows == old(rows)
    {
      WithoutReceipts(rows, losses, preparation);
      receiptCheck := false;
      var o := ReplaceTypeAndSign(R0035);
      rows := Mapped(rows, NoReceipt);
    }

    method Downgrade0045() returns (o: Outcome)
      requires At(R0045)
      modifies this
      ensures o.Raised? <==> HasWaste(old(rows))
      ensures if o.Raised? then At(R0045) && rows == old(rows)
        else o.Done? && At(R0044) && rows == Mapped(old(rows), NoLoss)
      ensures o.Done? ==> (rows == old(rows) <==> !HasReversedLoss(old(rows)))
    {
      if exists k :: 0 <= k < |rows| && rows[k].kind.Waste? {
        return Raised("Cannot downgrade 0045: posted InventoryLoss history exists");
      }
      WithoutWaste(rows);
      DropLosses();
      o := Done;
    }

    /** The statements of 0045's downgrade; none is rejected without a WASTE. */
    method DropLosses()
      requires At(R0045) && !HasWaste(rows)
      modifies this
      ensures At(R0044) && rows == Mapped(old(rows), NoLoss)
    {
      WithoutWaste(rows);
      lossCheck := false;
      var o := ReplaceTypeAndSign(R0044);
      rows, losses := Mapped(rows, NoLoss), {};
    }

    method Downgrade0049() returns (o: Outcome)
      requires At(R0049)
      modifies this
      ensures o.Raised? <==> old(preparation.batches) != {} || old(preparation.recipeVersions) != {}
      ensures if o.Raised? then At(R0049) else o.Done? && At(R0045)
      ensures rows == old(rows)
    {
      if preparation.batches != {} || preparation.recipeVersions != {} {
        return Raised("Cannot downgrade 0049: preparation authority evidence exists");
      }
      WithoutBatches(rows, losses, preparation);
      preparationCheck := false;
      o := ReplaceTypeAndSign(R0045);
      if o.Done? {
        rows := Mapped(rows, NoPreparation);
        preparation := NO_PREPARATION;
      }
    }
  }
}
