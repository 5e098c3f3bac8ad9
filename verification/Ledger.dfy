/** The append-only movement ledger of 0035 and its reversal links: the reversal foreign key,
    the one-reversal-per-movement UNIQUE and the reversal CHECK put every link on a chain, and
    every chain has a start unless a row reverses itself. */
module Ledger {
  import opened Sql
  import opened Movements
  import opened WarehouseMigration
  import opened MovementRevisions

  /** ck_stock_movements_reversal */
  function ReversalCheck(m: Movement): Truth {
    Of(m.kind.Reversal?).And(NotNull(m.reversalOf))
      .Or(Of(!m.kind.Reversal?).And(IsNull(m.reversalOf)))
  }

  /** REVERSAL rows, and only they, name what they reverse. */
  lemma AdmittedReversals(m: Movement)
    ensures Passes(ReversalCheck(m)) <==> (m.kind.Reversal? <==> m.reversalOf.Some?)
  {
  }

  /** A row the reversal key of `m` may name; since 0041 (`scoped`) also of its warehouse. */
  predicate Targets(m: Movement, target: Movement, scoped: bool) {
    Reverses(m, target) && (scoped ==> target.warehouse == m.warehouse)
  }

  /** uq_stock_movements_direct_reversal and the primary key: NULLs never collide. */
  predicate Collides(m: Movement, other: Movement) {
    m.id == other.id || (m.reversalOf.Some? && m.reversalOf == other.reversalOf)
  }

  /** A foreign key is checked on the table the statement leaves (section 11.8 of SQL-92), so
      a row may refer to itself. */
  predicate Admits(rows: seq<Movement>, m: Movement, scoped: bool) {
    && Passes(ReversalCheck(m))
    && (scoped ==> m.warehouse.Some?)   // NOT NULL since 0041
    && HasReversalTarget(m, rows + [m], scoped)
    && forall i :: 0 <= i < |rows| ==> !Collides(m, rows[i])
  }

  predicate ReversesItself(m: Movement) {
    m.reversalOf == Some(m.id)
  }

  /** Rows in insertion order, each admitted on top of the rows stored before it. */
  ghost predicate Valid(rows: seq<Movement>, scoped: bool) {
    forall i :: 0 <= i < |rows| ==> Admits(rows[..i], rows[i], scoped)
  }

  /** No stored row reverses itself. */
  predicate AllRooted(rows: seq<Movement>) {
    forall i :: 0 <= i < |rows| ==> !ReversesItself(rows[i])
  }

  predicate IsReversed(rows: seq<Movement>, id: int) {
    exists i :: 0 <= i < |rows| && rows[i].reversalOf == Some(id)
  }

  const NO_CONSUMPTION :=
    Consumption(None, None, None, None, None, None, None, None, None, None, None, None, None)

  const NO_PROVENANCE := Provenance(None, None, None, None, None, None, None)

  /** The reversal row the service derives from the original; `computed` supplies the policy,
      resulting quantity and evidence columns. */
  function ReversalOf(original: Movement, id: int, computed: Movement): Movement {
    computed.(id := id, scope := original.scope, item := original.item, warehouse := original.warehouse,
      kind := Reversal, quantity := -original.quantity, reversalOf := Some(original.id), openingSlot := None,
      consumption := NO_CONSUMPTION, provenance := NO_PROVENANCE)
  }

  /** `b` is `a` with one more row, of the scope, item and warehouse of a stored row that no row
      has reversed, and cancels it: every stock sum but that row's stays, and that one falls by
      its quantity. */
  ghost predicate Cancels(a: seq<Movement>, b: seq<Movement>, k: nat)
    requires k < |a|
  {
    && |b| == |a| + 1 && a <= b && b[|a|].kind.Reversal? && b[|a|].reversalOf == Some(a[k].id)
    && b[|a|].quantity + a[k].quantity == 0.0
    && b[|a|].scope == a[k].scope && b[|a|].item == a[k].item && b[|a|].warehouse == a[k].warehouse
    && b[|a|].openingSlot.None? && b[|a|].consumption == NO_CONSUMPTION && b[|a|].provenance == NO_PROVENANCE
    && Lowered(Balances(a, false), Balances(b, false), KeyOf(a[k]), a[k].quantity)
    && (a[k].warehouse.Some? ==> Lowered(Balances(a, true), Balances(b, true), KeyOf(a[k]), a[k].quantity))
  }

  ghost predicate Lowered(a: map<BalanceKey, real>, b: map<BalanceKey, real>, key: BalanceKey, quantity: real) {
    && a.Keys == b.Keys && key in a && b[key] == a[key] - quantity
    && forall other :: other in a && other != key ==> b[other] == a[other]
  }

  datatype Reversed = OriginalNotFound | OriginalIsReversal | AlreadyReversed | Stored

  class StockLedger {
    var rows: seq<Movement>
    const scoped: bool

    constructor (scoped: bool)
      ensures rows == [] && this.scoped == scoped && Valid(rows, scoped) && AllRooted(rows)
    {
      this.rows, this.scoped := [], scoped;
    }

    method Insert(m: Movement) returns (ok: bool)
      requires Valid(rows, scoped)
      modifies this
      ensures Valid(rows, scoped)
      ensures ok <==> Admits(old(rows), m, scoped)
      ensures rows == if ok then old(rows) + [m] else old(rows)
      ensures old(AllRooted(rows)) ==> (AllRooted(rows) <==> !(ok && ReversesItself(m)))
    {
      ok := Admits(rows, m, scoped);
      if ok {
        ValidExtends(rows, m, scoped);
        rows := rows + [m];
        assert rows[|rows|-1] == m;
      }
    }

    /** The REVERSAL branch of the movement service: it reads the original first, refuses one
        that is itself a reversal or already reversed, and stores the negated row.  The
        constraints always admit that row, and it never reverses itself. */
    method Reverse(tenant: int, item: int, warehouse: Option<int>, original: int, id: int, computed: Movement)
      returns (r: Reversed)
      requires Valid(rows, scoped) && (scoped ==> warehouse.Some?)
      requires forall i :: 0 <= i < |rows| ==> rows[i].id != id
      modifies this
      ensures Valid(rows, scoped) && (old(AllRooted(rows)) ==> AllRooted(rows))
      ensures r.OriginalNotFound? <==>
        forall i :: 0 <= i < |old(rows)| ==> !IsOriginal(old(rows)[i], tenant, item, warehouse, original)
      ensures r.OriginalIsReversal? ==>
        exists i :: (0 <= i < |rows| && IsOriginal(rows[i], tenant, item, warehouse, original)
        && rows[i].kind.Reversal?)
      ensures r.AlreadyReversed? ==> IsReversed(old(rows), original)
      ensures r.Stored? ==> exists i :: (0 <= i < |old(rows)|
        && IsOriginal(old(rows)[i], tenant, item, warehouse, original) && !old(rows)[i].kind.Reversal?
        && rows == old(rows) + [ReversalOf(old(rows)[i], id, computed)] && Cancels(old(rows), rows, i))
      ensures r.Stored? ==> !IsReversed(old(rows), original)
      ensures !r.Stored? ==> rows == old(rows)
    {
      var k := 0;
      while k < |rows| && !(rows[k].id == original && rows[k].scope.tenant == tenant
        && rows[k].item == item && rows[k].warehouse == warehouse)
        invariant 0 <= k <= |rows|
        invariant forall i :: 0 <= i < k ==> !IsOriginal(rows[i], tenant, item, warehouse, original)
      {
        k := k + 1;
      }
      if k == |rows| { return OriginalNotFound; }
      if rows[k].kind.Reversal? { return OriginalIsReversal; }
      if exists i :: 0 <= i < |rows| && rows[i].reversalOf == Some(original) { return AlreadyReversed; }
      var m := ReversalOf(rows[k], id, computed);
      assert Admits(rows[..k], rows[k], scoped);
      ReversalIsAdmitted(rows, k, id, computed, scoped);
      ReversalCancels(rows, k, id, computed);
      var ok := Insert(m);
      r := Stored;
    }
  }

  /** What the service's query for the original demands. */
  predicate IsOriginal(m: Movement, tenant: int, item: int, warehouse: Option<int>, id: int) {
    m.id == id && m.scope.tenant == tenant && m.item == item && m.warehouse == warehouse
  }

  lemma ReversalIsAdmitted(rows: seq<Movement>, k: nat, id: int, computed: Movement, scoped: bool)
    requires k < |rows| && !IsReversed(rows, rows[k].id) && (scoped ==> rows[k].warehouse.Some?)
    requires forall i :: 0 <= i < |rows| ==> rows[i].id != id
    ensures Admits(rows, ReversalOf(rows[k], id, computed), scoped)
    ensures !ReversesItself(ReversalOf(rows[k], id, computed))
  {
    var m := ReversalOf(rows[k], id, computed);
    assert (rows + [m])[k] == rows[k] && Reverses(m, rows[k]);
  }

  /** A movement and its reversal leave every stock sum as it was before the movement. */
  lemma ReversalCancels(rows: seq<Movement>, k: nat, id: int, computed: Movement)
    requires k < |rows|
    ensures Cancels(rows, rows + [ReversalOf(rows[k], id, computed)], k)
  {
    var m := ReversalOf(rows[k], id, computed);
    var all := rows + [m];
    assert all[..|all|-1] == rows && all[|all|-1] == m && KeyOf(m) == KeyOf(rows[k]);
    RowHasBalance(rows, k, false);
    if rows[k].warehouse.Some? { RowHasBalance(rows, k, true); }
  }

  lemma {:induction false} RowHasBalance(rows: seq<Movement>, k: nat, scoped: bool)
    requires k < |rows| && (scoped ==> rows[k].warehouse.Some?)
    ensures KeyOf(rows[k]) in Balances(rows, scoped)
  {
    if k < |rows| - 1 { RowHasBalance(rows[..|rows|-1], k, scoped); }
  }

  /** The reversal of a movement passes every CHECK on type, sign, reversal and provenance. */
  lemma ReversalMeetsChecks(original: Movement, id: int, computed: Movement)
    requires original.quantity != 0.0
    ensures StoredAt(R0049, ReversalOf(original, id, computed))
    ensures Passes(ReversalCheck(ReversalOf(original, id, computed)))
  {
    AdmittedMovements(ReversalOf(original, id, computed));
  }

  /** A movement stored and reversed at once: the two sum to zero, and no stock changes. */
  lemma MovementThenReversal(rows: seq<Movement>, m: Movement, id: int, computed: Movement, key: BalanceKey)
    requires key in Balances(rows + [m], false)
    ensures var after := Balances(rows + [m] + [ReversalOf(m, id, computed)], false);
      key in after && after[key] == if key in Balances(rows, false) then Balances(rows, false)[key] else 0.0
  {
    var with := rows + [m];
    assert with[..|with|-1] == rows && with[|with|-1] == m;
    ReversalCancels(with, |rows|, id, computed);
  }

  lemma ValidExtends(rows: seq<Movement>, m: Movement, scoped: bool)
    requires Valid(rows, scoped) && Admits(rows, m, scoped)
    ensures Valid(rows + [m], scoped)
  {
    forall i | 0 <= i < |rows + [m]| ensures Admits((rows + [m])[..i], (rows + [m])[i], scoped) {
      if i < |rows| {
        assert (rows + [m])[..i] == rows[..i] && (rows + [m])[i] == rows[i];
      } else {
        assert (rows + [m])[..i] == rows;
      }
    }
  }

  /** Stored rows satisfy the key as a whole, however they were inserted. */
  lemma StoredKeyHolds(rows: seq<Movement>, scoped: bool)
    requires Valid(rows, scoped)
    ensures ReversalKeyHolds(rows, scoped)
  {
    forall i | 0 <= i < |rows| ensures HasReversalTarget(rows[i], rows, scoped) {
      if rows[i].reversalOf.Some? { var j := Target(rows, i, scoped); }
    }
  }

  /** The row a reversal reverses: one stored earlier, or itself. */
  ghost function Target(rows: seq<Movement>, i: nat, scoped: bool): (j: nat)
    requires Valid(rows, scoped) && i < |rows| && rows[i].reversalOf.Some?
    ensures j <= i && Targets(rows[i], rows[j], scoped) && (j == i <==> ReversesItself(rows[i]))
  {
    assert Admits(rows[..i], rows[i], scoped);
    var all := rows[..i] + [rows[i]];
    assert forall k :: 0 <= k <= i ==> all[k] == rows[k];
    var j :| 0 <= j < |all| && Targets(rows[i], all[j], scoped);
    assert j < i ==> !Collides(rows[i], rows[..i][j]);
    j
  }

  /** Where the chain of reversals through row `i` starts, if it does. */
  ghost function Root(rows: seq<Movement>, i: nat, scoped: bool): (root: Option<nat>)
    requires Valid(rows, scoped) && i < |rows|
    ensures root.Some? ==> root.value <= i
  {
    if rows[i].reversalOf.None? then Some(i)
    else if ReversesItself(rows[i]) then None
    else Root(rows, Target(rows, i, scoped), scoped)
  }

  ghost predicate HasRoot(rows: seq<Movement>, i: nat, scoped: bool)
    requires Valid(rows, scoped) && i < |rows|
  {
    Root(rows, i, scoped).Some?
  }

  /** How many links the row is down its chain. */
  ghost function Depth(rows: seq<Movement>, i: nat, scoped: bool): nat
    requires Valid(rows, scoped) && i < |rows|
  {
    if rows[i].reversalOf.None? || ReversesItself(rows[i]) then 0 else 1 + Depth(rows, Target(rows, i, scoped), scoped)
  }

  lemma StoredRowsNeverCollide(rows: seq<Movement>, i: nat, k: nat, scoped: bool)
    requires Valid(rows, scoped) && i < k < |rows|
    ensures !Collides(rows[k], rows[i])
  {
    assert Admits(rows[..k], rows[k], scoped);
    assert !Collides(rows[k], rows[..k][i]);
  }

  /** A row that reverses itself is reversed by no other row. */
  lemma SelfReversalStandsAlone(rows: seq<Movement>, i: nat, k: nat, scoped: bool)
    requires Valid(rows, scoped) && i < |rows| && k < |rows| && i != k && ReversesItself(rows[i])
    ensures rows[k].reversalOf != Some(rows[i].id)
  {
    if i < k { StoredRowsNeverCollide(rows, i, k, scoped); } else { StoredRowsNeverCollide(rows, k, i, scoped); }
  }

  /** A chain has a start exactly when the row on it does not reverse itself; so all chains do
      exactly when no stored row does. */
  lemma {:induction false} RootedUnlessSelfReversing(rows: seq<Movement>, i: nat, scoped: bool)
    requires Valid(rows, scoped) && i < |rows|
    ensures HasRoot(rows, i, scoped) <==> !ReversesItself(rows[i])
  {
    if rows[i].reversalOf.Some? && !ReversesItself(rows[i]) {
      var j := Target(rows, i, scoped);
      if ReversesItself(rows[j]) { SelfReversalStandsAlone(rows, j, i, scoped); }
      RootedUnlessSelfReversing(rows, j, scoped);
    }
  }

  lemma AllChainsHaveRoots(rows: seq<Movement>, scoped: bool)
    requires Valid(rows, scoped)
    ensures (forall i :: 0 <= i < |rows| ==> HasRoot(rows, i, scoped)) <==> AllRooted(rows)
  {
    forall i | 0 <= i < |rows| ensures HasRoot(rows, i, scoped) <==> !ReversesItself(rows[i]) {
      RootedUnlessSelfReversing(rows, i, scoped);
    }
  }

  /** The constraints admit a row that reverses itself, even into an empty ledger. */
  lemma SelfReversalIsAdmitted(rows: seq<Movement>, m: Movement, scoped: bool)
    requires m.kind.Reversal? && ReversesItself(m) && (scoped ==> m.warehouse.Some?)
    requires forall i :: 0 <= i < |rows| ==> rows[i].id != m.id && rows[i].reversalOf != Some(m.id)
    ensures Admits(rows, m, scoped)
  {
    assert Reverses(m, (rows + [m])[|rows|]);
    assert HasReversalTarget(m, rows + [m], scoped);
  }

  /** A chain with a start begins at a movement that is no REVERSAL and keeps to one tenant,
      location and item, and to one warehouse once the key is warehouse-scoped. */
  lemma {:induction false} ChainsStayInScope(rows: seq<Movement>, i: nat, scoped: bool)
    requires Valid(rows, scoped) && i < |rows| && !ReversesItself(rows[i])
    ensures Root(rows, i, scoped).Some? && var root := rows[Root(rows, i, scoped).value];
      && !root.kind.Reversal? && root.reversalOf.None?
      && root.scope == rows[i].scope && root.item == rows[i].item
      && (scoped ==> root.warehouse == rows[i].warehouse)
    ensures Depth(rows, i, scoped) == 0 <==> !rows[i].kind.Reversal?
  {
    assert Admits(rows[..i], rows[i], scoped);
    RootedUnlessSelfReversing(rows, i, scoped);
    if rows[i].reversalOf.Some? {
      var j := Target(rows, i, scoped);
      if ReversesItself(rows[j]) { SelfReversalStandsAlone(rows, j, i, scoped); }
      ChainsStayInScope(rows, j, scoped);
    }
  }

  /** Chains never meet or branch: a row is the only one at its depth below its root. */
  lemma {:induction false} ChainsAreDisjointPaths(rows: seq<Movement>, i: nat, k: nat, scoped: bool)
    requires Valid(rows, scoped) && i < |rows| && k < |rows| && Root(rows, i, scoped).Some?
    requires Root(rows, i, scoped) == Root(rows, k, scoped) && Depth(rows, i, scoped) == Depth(rows, k, scoped)
    ensures i == k
  {
    if rows[i].reversalOf.Some? {
      var a, b := Target(rows, i, scoped), Target(rows, k, scoped);
      ChainsAreDisjointPaths(rows, a, b, scoped);
      if i < k { StoredRowsNeverCollide(rows, i, k, scoped); }
      if k < i { StoredRowsNeverCollide(rows, k, i, scoped); }
    }
  }

  /** Each link on a chain is filled: below the root at depth d stands a row for every d' <= d. */
  lemma {:induction false} ChainsHaveNoGaps(rows: seq<Movement>, i: nat, d: nat, scoped: bool)
    requires Valid(rows, scoped) && i < |rows| && d <= Depth(rows, i, scoped)
    ensures exists k: nat :: k <= i && Root(rows, k, scoped) == Root(rows, i, scoped) && Depth(rows, k, scoped) == d
  {
    if d < Depth(rows, i, scoped) {
      ChainsHaveNoGaps(rows, Target(rows, i, scoped), d, scoped);
    }
  }

  /** 0041 turns a valid ledger into a valid warehouse-scoped one, so chains survive it. */
  lemma MigrationKeepsLedgerValid(before: seq<Movement>, after: seq<Movement>, ws: seq<Warehouse>)
    requires Valid(before, false) && SameOriginals(before, after) && ScopesAndIdsDiffer(ws)
    requires forall i :: 0 <= i < |after| ==> OwnDefault(after[i], ws)
    ensures Valid(after, true)
  {
    forall i | 0 <= i < |after| ensures Admits(after[..i], after[i], true) {
      assert Admits(before[..i], before[i], false) && Original(before[i]) == Original(after[i]);
      forall j | 0 <= j < i ensures !Collides(after[i], after[..i][j]) {
        assert Original(before[j]) == Original(after[j]);
        assert !Collides(before[i], before[..i][j]);
      }
      if after[i].reversalOf.Some? {
        var j := Target(before, i, false);
        assert Original(before[j]) == Original(after[j]);
        OneDefaultPerScope(ws, after[i], after[j]);
        assert (after[..i] + [after[i]])[j] == after[j] && Targets(after[i], after[j], true);
      }
    }
  }

  /** A whole table at 0045 that its guard lets pass and its downgrade changes: any stored
      movement, no WASTE, and its reversal linked to a stored loss of the same scope. */
  lemma Downgrade0045CanForgetALoss(original: Movement, id: int, loss: int, computed: Movement)
    requires StoredAt(R0044, original) && Passes(ReversalCheck(original)) && !original.kind.Reversal?
    requires original.id != id && original.warehouse.Some?
    ensures var link := NO_PROVENANCE.(lossId := Some(loss), lossRole := Some(ReversalOfLoss));
      var rows := [original, ReversalOf(original, id, computed).(provenance := link)];
      var losses := {Loss(loss, original.scope, original.warehouse.value, original.item)};
      && (forall k :: 0 <= k < |rows| ==> StoredAt(R0045, rows[k]) && !rows[k].kind.Waste?)
      && Valid(rows, true) && LossKeysHold(rows, losses)
      && Mapped(rows, NoLoss) != rows
  {
    var link := NO_PROVENANCE.(lossId := Some(loss), lossRole := Some(ReversalOfLoss));
    var m := ReversalOf(original, id, computed).(provenance := link);
    var rows := [original, m];
    NewerChecksAccept(R0045, original);
    ValidExtends([], original, true);
    assert [original] + [m] == rows && [] + [original] == [original];
    assert Reverses(m, rows[0]);
    ValidExtends([original], m, true);
    assert Mapped(rows, NoLoss)[1] == NoLoss(m);
  }
}
