/** Any number of concurrent provision_minimal_core calls: each takes its steps between those of
    the others and of unrelated transactions, and only the tenant row lock orders them. */
module ProvisioningProtocol {
  import opened Manifest

  /** The ids one successful call reports. */
  datatype Ids = Ids(organization: nat, location: nat, staff: nat)

  /** A row of `minimal_provisioning_runs`, committed together with the rows it names. */
  datatype RunRow = RunRow(tenant: nat, operation: string, fingerprint: Digest, ids: Ids)

  /** What calls share with unrelated transactions: ACTIVE tenants, authorised actors per tenant,
      organization codes per tenant, usernames.  Codes and usernames of earlier runs are among
      them and may be renamed or freed like any other. */
  datatype Surroundings = Surroundings(
    tenants: set<nat>, actors: set<(nat, nat)>, codes: set<(nat, string)>, usernames: set<string>)

  /** The committed store and the next auto-increment value of each table. */
  datatype Store = Store(runs: seq<RunRow>, other: Surroundings, next: Ids)

  datatype Result = Created(ids: Ids) | Replayed(replay: Ids) | Refused

  /** Where a call is; from Locked to Recorded it holds its tenant's row lock, and from Written
      on it has uncommitted rows. */
  datatype Phase =
    | Waiting
    | Locked                      // tenant locked and ACTIVE
    | Checked                     // no earlier run of the operation
    | Authorised                  // actor and organization code accepted
    | Written(core: Ids)          // organization and location flushed; `staff` not yet assigned
    | Staffed(staffed: Ids)       // staff account flushed
    | Recorded(recorded: Ids)     // run row flushed
    | Ended(result: Result)

  datatype Call = Call(manifest: ProvisioningManifest, username: string, phase: Phase)

  datatype State = State(store: Store, calls: seq<Call>)

  predicate HoldsLock(c: Call) {
    !c.phase.Waiting? && !c.phase.Ended?
  }

  predicate IsRunOf(r: RunRow, m: ProvisioningManifest) {
    r.tenant == m.tenant && r.operation == m.operation
  }

  predicate HasRun(store: Store, m: ProvisioningManifest) {
    exists k :: 0 <= k < |store.runs| && IsRunOf(store.runs[k], m)
  }

  predicate CodeTaken(store: Store, tenant: nat, code: string) {
    (tenant, code) in store.other.codes
  }

  /** SELECT ... FOR UPDATE on the tenant row waits while another call of the tenant holds it. */
  predicate LockIsFree(s: State, i: nat)
    requires i < |s.calls|
  {
    forall j :: 0 <= j < |s.calls| && j != i && HoldsLock(s.calls[j]) ==>
      s.calls[j].manifest.tenant != s.calls[i].manifest.tenant
  }

  /** An uncommitted username makes another insert of it wait. */
  predicate NameIsFree(s: State, i: nat)
    requires i < |s.calls|
  {
    forall j :: 0 <= j < |s.calls| && j != i && (s.calls[j].phase.Staffed? || s.calls[j].phase.Recorded?) ==>
      s.calls[j].username != s.calls[i].username
  }

  datatype Action =
    | Advance(call: nat)             // the call's next statement
    | Abort(aborted: nat)            // any other error: the call rolls back
    | Elsewhere(other: Surroundings) // an unrelated transaction commits

  function InPhase(s: State, i: nat, phase: Phase): State
    requires i < |s.calls|
  {
    s.(calls := s.calls[i := s.calls[i].(phase := phase)])
  }

  function RowOf(c: Call): RunRow
    requires c.phase.Recorded?
  {
    RunRow(c.manifest.tenant, c.manifest.operation, Fingerprint(c.manifest), c.phase.recorded)
  }

  /** What a commit makes visible: the run row, the organization code and the username. */
  function Committed(store: Store, c: Call): Store
    requires c.phase.Recorded?
  {
    store.(
      runs := store.runs + [RowOf(c)],
      other := store.other.(
        codes := store.other.codes + {(c.manifest.tenant, c.manifest.organizationCode)},
        usernames := store.other.usernames + {c.username}))
  }

  /** The next statement of call i; a statement that must wait leaves the state as it is. */
  function Advanced(s: State, i: nat): State
    requires i < |s.calls|
  {
    var c := s.calls[i];
    var m := c.manifest;
    match c.phase
    case Waiting =>
      if !LockIsFree(s, i) then s
      else InPhase(s, i, if m.tenant in s.store.other.tenants then Locked else Ended(Refused))
    case Locked =>
      InPhase(s, i, if HasRun(s.store, m) then Ended(Answer(s.store, m)) else Checked)
    case Checked =>
      InPhase(s, i, if (m.tenant, m.actor) !in s.store.other.actors || CodeTaken(s.store, m.tenant, m.organizationCode)
               then Ended(Refused) else Authorised)
    case Authorised =>
      var next := s.store.next;
      var burned := s.(store := s.store.(
        next := next.(organization := next.organization + 1, location := next.location + 1)));
      InPhase(burned, i, if CodeTaken(s.store, m.tenant, m.organizationCode) then Ended(Refused) else Written(next))
    case Written(core) =>
      var next := s.store.next;
      if c.username in s.store.other.usernames then InPhase(s, i, Ended(Refused))
      else if !NameIsFree(s, i) then s
      else
        var burned := s.(store := s.store.(next := next.(staff := next.staff + 1)));
        InPhase(burned, i, Staffed(core.(staff := next.staff)))
    case Staffed(ids) =>
      InPhase(s, i, if HasRun(s.store, m) then Ended(Refused) else Recorded(ids))
    case Recorded(ids) =>
      InPhase(s.(store := Committed(s.store, c)), i, Ended(Created(ids)))
    case Ended(_) => s
  }

  /** What the first committed run of the operation answers: a replay, or a conflict when it
      was made from other content. */
  function Answer(store: Store, m: ProvisioningManifest): Result
    requires HasRun(store, m)
  {
    var row := FirstRun(store.runs, m);
    if row.fingerprint != Fingerprint(m) then Refused else Replayed(row.ids)
  }

  function FirstRun(runs: seq<RunRow>, m: ProvisioningManifest): (row: RunRow)
    requires exists k :: 0 <= k < |runs| && IsRunOf(runs[k], m)
    ensures row in runs && IsRunOf(row, m)
  {
    if IsRunOf(runs[0], m) then runs[0] else FirstRun(runs[1..], m)
  }

  function Step(s: State, a: Action): State {
    match a
    case Advance(i) => if i < |s.calls| then Advanced(s, i) else s
    case Abort(i) => if i < |s.calls| && !s.calls[i].phase.Ended? then InPhase(s, i, Ended(Refused)) else s
    case Elsewhere(other) => s.(store := s.store.(other := other))
  }

  function Run(s: State, actions: seq<Action>): State {
    if actions == [] then s else Step(Run(s, actions[..|actions|-1]), actions[|actions|-1])
  }

  /** Calls about to begin, on any store earlier calls may have left. */
  predicate IsStart(s: State) {
    StoreIsSound(s.store) && forall i :: 0 <= i < |s.calls| ==> s.calls[i].phase.Waiting?
  }

  // ---------- what every interleaving keeps ----------

  /** Two rows never share a tenant's operation. */
  predicate RowsDiffer(a: RunRow, b: RunRow) {
    !(a.tenant == b.tenant && a.operation == b.operation)
  }

  predicate StoreIsSound(store: Store) {
    forall j, k :: 0 <= j < k < |store.runs| ==> RowsDiffer(store.runs[j], store.runs[k])
  }

  /** A row exists for what a call reported, made from the same content. */
  predicate Backs(store: Store, m: ProvisioningManifest, ids: Ids) {
    exists k :: 0 <= k < |store.runs| && IsRunOf(store.runs[k], m)
      && store.runs[k].fingerprint == Fingerprint(m) && store.runs[k].ids == ids
  }

  predicate HasStaff(c: Call) {
    c.phase.Staffed? || c.phase.Recorded?
  }

  /** While a call goes on, the tenant lock keeps what it has found true: no run of its operation. */
  predicate FindingsHold(c: Call, row: RunRow) {
    HoldsLock(c) && !c.phase.Locked? ==> !IsRunOf(row, c.manifest)
  }

  /** A successful call is backed by a row. */
  predicate ResultIsBacked(store: Store, c: Call) {
    && (c.phase.Ended? && c.phase.result.Created? ==> Backs(store, c.manifest, c.phase.result.ids))
    && (c.phase.Ended? && c.phase.result.Replayed? ==> Backs(store, c.manifest, c.phase.result.replay))
  }

  predicate SameOperation(a: ProvisioningManifest, b: ProvisioningManifest) {
    a.tenant == b.tenant && a.operation == b.operation
  }

  predicate IsCreated(c: Call) {
    c.phase.Ended? && c.phase.result.Created?
  }

  /** Of two calls: one tenant's lock is held once, one username is uncommitted once, one
      operation is created once. */
  predicate Apart(a: Call, b: Call) {
    && (HoldsLock(a) && HoldsLock(b) ==> a.manifest.tenant != b.manifest.tenant)
    && (HasStaff(a) && HasStaff(b) ==> a.username != b.username)
    && (IsCreated(a) && IsCreated(b) ==> !SameOperation(a.manifest, b.manifest))
  }

  predicate CallsApart(s: State) {
    forall i, j :: 0 <= i < |s.calls| && 0 <= j < |s.calls| && i != j ==> Apart(s.calls[i], s.calls[j])
  }

  predicate AllFindingsHold(s: State) {
    forall i, k :: 0 <= i < |s.calls| && 0 <= k < |s.store.runs| ==> FindingsHold(s.calls[i], s.store.runs[k])
  }

  predicate AllBacked(s: State) {
    forall i :: 0 <= i < |s.calls| ==> ResultIsBacked(s.store, s.calls[i])
  }

  predicate Inv(s: State) {
    StoreIsSound(s.store) && CallsApart(s) && AllFindingsHold(s) && AllBacked(s)
  }

  // ---------- one step ----------

  lemma BackedLater(store: Store, after: Store, row: RunRow, m: ProvisioningManifest, ids: Ids)
    requires Backs(store, m, ids) && after.runs == store.runs + [row]
    ensures Backs(after, m, ids)
  {
    var k :| 0 <= k < |store.runs| && IsRunOf(store.runs[k], m)
      && store.runs[k].fingerprint == Fingerprint(m) && store.runs[k].ids == ids;
    assert (store.runs + [row])[k] == store.runs[k];
  }

  lemma CreatedMeansFound(s: State, i: nat, j: nat)
    requires Inv(s) && i < |s.calls| && j < |s.calls| && s.calls[i].phase.Recorded? && IsCreated(s.calls[j])
    ensures !SameOperation(s.calls[j].manifest, s.calls[i].manifest)
  {
  }

  /** The commit: the run row of call i appears, and everybody's findings survive it. */
  lemma CommitKeeps(s: State, i: nat)
    requires Inv(s) && i < |s.calls| && s.calls[i].phase.Recorded?
    ensures Inv(Advanced(s, i))
  {
    var c, row := s.calls[i], RowOf(s.calls[i]);
    var after := Advanced(s, i);
    var n := |s.store.runs|;
    assert after.store.runs == s.store.runs + [row];
    forall k | 0 <= k < n ensures RowsDiffer(s.store.runs[k], row) {
      assert FindingsHold(c, s.store.runs[k]);
    }
    forall j | 0 <= j < |s.calls| && j != i
      ensures FindingsHold(s.calls[j], row) && ResultIsBacked(after.store, s.calls[j])
    {
      assert Apart(s.calls[i], s.calls[j]);
      assert ResultIsBacked(s.store, s.calls[j]);
      if IsCreated(s.calls[j]) {
        BackedLater(s.store, after.store, row, s.calls[j].manifest, s.calls[j].phase.result.ids);
      }
      else if s.calls[j].phase.Ended? && s.calls[j].phase.result.Replayed? {
        BackedLater(s.store, after.store, row, s.calls[j].manifest, s.calls[j].phase.result.replay);
      }
    }
    forall j | 0 <= j < |s.calls| && j != i
      ensures Apart(after.calls[i], s.calls[j]) && Apart(s.calls[j], after.calls[i])
    {
      if IsCreated(s.calls[j]) { CreatedMeansFound(s, i, j); }
    }
    assert after.store.runs[n] == row;
    assert Backs(after.store, c.manifest, c.phase.recorded);
  }

  /** Any other change of one call's phase that finds only what is there. */
  lemma PhaseKeeps(s: State, i: nat, phase: Phase, next: Ids)
    requires Inv(s) && i < |s.calls|
    requires var c := s.calls[i].(phase := phase);
      && ResultIsBacked(s.store, c) && !IsCreated(c)
      && (forall k :: 0 <= k < |s.store.runs| ==> FindingsHold(c, s.store.runs[k]))
      && (HoldsLock(c) ==> HoldsLock(s.calls[i]) || LockIsFree(s, i))
      && (HasStaff(c) ==> HasStaff(s.calls[i]) || NameIsFree(s, i))
    ensures Inv(InPhase(s.(store := s.store.(next := next)), i, phase))
  {
    var after := InPhase(s.(store := s.store.(next := next)), i, phase);
    forall j | 0 <= j < |s.calls| && j != i
      ensures Apart(after.calls[i], s.calls[j]) && Apart(s.calls[j], after.calls[i])
    {
      assert Apart(s.calls[i], s.calls[j]) && Apart(s.calls[j], s.calls[i]);
    }
    forall j | 0 <= j < |s.calls| ensures ResultIsBacked(after.store, after.calls[j]) {
      assert ResultIsBacked(s.store, s.calls[j]);
      SameRunsBack(s.store, after.store, after.calls[j]);
    }
  }

  lemma SameRunsBack(a: Store, b: Store, c: Call)
    requires a.runs == b.runs
    ensures ResultIsBacked(a, c) <==> ResultIsBacked(b, c)
  {
  }

  lemma AnswerIsBacked(store: Store, c: Call)
    requires HasRun(store, c.manifest)
    ensures ResultIsBacked(store, c.(phase := Ended(Answer(store, c.manifest))))
  {
  }

  lemma ReadingKeeps(s: State, i: nat)
    requires Inv(s) && i < |s.calls|
    requires s.calls[i].phase.Waiting? || s.calls[i].phase.Locked? || s.calls[i].phase.Checked?
    ensures Inv(Advanced(s, i))
  {
    var c, m, next := s.calls[i], s.calls[i].manifest, s.store.next;
    assert s.store.(next := next) == s.store;
    assert forall k :: 0 <= k < |s.store.runs| ==> FindingsHold(c, s.store.runs[k]);
    match c.phase
    case Waiting =>
      if LockIsFree(s, i) {
        PhaseKeeps(s, i, if m.tenant in s.store.other.tenants then Locked else Ended(Refused), next);
      }
    case Locked =>
      if HasRun(s.store, m) { AnswerIsBacked(s.store, c); PhaseKeeps(s, i, Ended(Answer(s.store, m)), next); }
      else { PhaseKeeps(s, i, Checked, next); }
    case Checked =>
      var refused := (m.tenant, m.actor) !in s.store.other.actors || CodeTaken(s.store, m.tenant, m.organizationCode);
      PhaseKeeps(s, i, if refused then Ended(Refused) else Authorised, next);
  }

  lemma WritingKeeps(s: State, i: nat)
    requires Inv(s) && i < |s.calls|
    requires s.calls[i].phase.Authorised? || s.calls[i].phase.Written? || s.calls[i].phase.Staffed?
    ensures Inv(Advanced(s, i))
  {
    var c, m, next := s.calls[i], s.calls[i].manifest, s.store.next;
    assert s.store.(next := next) == s.store;
    assert forall k :: 0 <= k < |s.store.runs| ==> FindingsHold(c, s.store.runs[k]);
    match c.phase
    case Authorised =>
      PhaseKeeps(s, i, if CodeTaken(s.store, m.tenant, m.organizationCode) then Ended(Refused) else Written(next),
                 next.(organization := next.organization + 1, location := next.location + 1));
    case Written(core) =>
      if c.username in s.store.other.usernames { PhaseKeeps(s, i, Ended(Refused), next); }
      else if NameIsFree(s, i) {
        PhaseKeeps(s, i, Staffed(core.(staff := next.staff)), next.(staff := next.staff + 1));
      }
    case Staffed(ids) =>
      PhaseKeeps(s, i, if HasRun(s.store, m) then Ended(Refused) else Recorded(ids), next);
  }

  /** Each statement of a call keeps the invariant, whatever the others have done in between. */
  lemma AdvanceKeeps(s: State, i: nat)
    requires Inv(s) && i < |s.calls|
    ensures Inv(Advanced(s, i))
  {
    match s.calls[i].phase
    case Waiting => ReadingKeeps(s, i);
    case Locked => ReadingKeeps(s, i);
    case Checked => ReadingKeeps(s, i);
    case Authorised => WritingKeeps(s, i);
    case Written(_) => WritingKeeps(s, i);
    case Staffed(_) => WritingKeeps(s, i);
    case Recorded(_) => CommitKeeps(s, i);
    case Ended(_) =>
  }

  lemma StepKeeps(s: State, a: Action)
    requires Inv(s)
    ensures Inv(Step(s, a)) && |Step(s, a).calls| == |s.calls|
  {
    match a
    case Advance(i) => if i < |s.calls| { AdvanceKeeps(s, i); }
    case Abort(i) =>
      if i < |s.calls| && !s.calls[i].phase.Ended? {
        assert s.store.(next := s.store.next) == s.store;
        PhaseKeeps(s, i, Ended(Refused), s.store.next);
      }
    case Elsewhere(other) =>
      forall i | 0 <= i < |s.calls| ensures ResultIsBacked(s.store.(other := other), s.calls[i]) {
        assert ResultIsBacked(s.store, s.calls[i]);
        SameRunsBack(s.store, s.store.(other := other), s.calls[i]);
      }
  }

  lemma {:induction false} RunKeeps(s: State, actions: seq<Action>)
    requires IsStart(s)
    ensures Inv(Run(s, actions)) && |Run(s, actions).calls| == |s.calls|
  {
    if actions != [] {
      RunKeeps(s, actions[..|actions|-1]);
      StepKeeps(Run(s, actions[..|actions|-1]), actions[|actions|-1]);
    }
  }

  // ---------- what callers can rely on ----------

  predicate Succeeded(c: Call) {
    c.phase.Ended? && !c.phase.result.Refused?
  }

  function IdsOf(c: Call): Ids
    requires Succeeded(c)
  {
    if c.phase.result.Created? then c.phase.result.ids else c.phase.result.replay
  }

  /** For any number of interleaved calls and any interleaving: an operation has at most one
      run row; at most one of its calls is told it created anything; all that succeed are told
      the same ids and sent the identical manifest. */
  lemma OperationsAreExactlyOnce(s: State, actions: seq<Action>, i: nat, j: nat)
    requires IsStart(s) && i < j < |s.calls|
    ensures var now := Run(s, actions);
      && StoreIsSound(now.store) && |now.calls| == |s.calls|
      && (SameOperation(now.calls[i].manifest, now.calls[j].manifest) ==>
            && !(IsCreated(now.calls[i]) && IsCreated(now.calls[j]))
            && (Succeeded(now.calls[i]) && Succeeded(now.calls[j]) ==>
                  IdsOf(now.calls[i]) == IdsOf(now.calls[j]) && now.calls[i].manifest == now.calls[j].manifest))
  {
    RunKeeps(s, actions);
    var now := Run(s, actions);
    var a, b := now.calls[i], now.calls[j];
    assert Apart(a, b);
    if SameOperation(a.manifest, b.manifest) && Succeeded(a) && Succeeded(b) {
      BothBacked(now.store, a, b);
    }
  }

  lemma BothBacked(store: Store, a: Call, b: Call)
    requires StoreIsSound(store) && ResultIsBacked(store, a) && ResultIsBacked(store, b)
    requires Succeeded(a) && Succeeded(b) && SameOperation(a.manifest, b.manifest)
    ensures IdsOf(a) == IdsOf(b) && a.manifest == b.manifest
  {
    var k :| 0 <= k < |store.runs| && IsRunOf(store.runs[k], a.manifest)
      && store.runs[k].fingerprint == Fingerprint(a.manifest) && store.runs[k].ids == IdsOf(a);
    BackedByTheRow(store, b.manifest, IdsOf(b), k);
    FingerprintIdentifies(a.manifest, b.manifest);
  }

  lemma BackedByTheRow(store: Store, m: ProvisioningManifest, ids: Ids, k: nat)
    requires StoreIsSound(store) && Backs(store, m, ids) && k < |store.runs| && IsRunOf(store.runs[k], m)
    ensures store.runs[k].fingerprint == Fingerprint(m) && store.runs[k].ids == ids
  {
  }

  /** Once a run row exists, a call of its operation with any other content never succeeds, and
      one with the same content that ends without an error replays its ids. */
  lemma ConflictsAreRejected(s: State, actions: seq<Action>, i: nat, k: nat)
    requires IsStart(s) && i < |s.calls|
    requires var now := Run(s, actions);
      k < |now.store.runs| && |now.calls| == |s.calls| && IsRunOf(now.store.runs[k], now.calls[i].manifest)
    ensures var now := Run(s, actions);
      && |now.calls| == |s.calls|
      && (now.store.runs[k].fingerprint != Fingerprint(now.calls[i].manifest) ==> !Succeeded(now.calls[i]))
      && (Succeeded(now.calls[i]) ==> IdsOf(now.calls[i]) == now.store.runs[k].ids)
  {
    RunKeeps(s, actions);
    var now := Run(s, actions);
    assert ResultIsBacked(now.store, now.calls[i]);
    if Succeeded(now.calls[i]) { BackedByTheRow(now.store, now.calls[i].manifest, IdsOf(now.calls[i]), k); }
  }

  /** The only step of a call that changes committed rows is the one that makes it Created; a
      call that fails or replays has changed none, from first statement to last. */
  lemma OnlyCreationChangesRows(s: State, a: Action)
    requires !a.Elsewhere? && (Step(s, a).store.runs != s.store.runs || Step(s, a).store.other != s.store.other)
    ensures a.Advance? && a.call < |s.calls| && IsCreated(Step(s, a).calls[a.call])
    ensures s.calls[a.call].phase.Recorded? && Step(s, a).store == Committed(s.store, s.calls[a.call])
  {
  }

  lemma StepLeavesEnded(s: State, a: Action, i: nat)
    requires i < |s.calls| && s.calls[i].phase.Ended?
    ensures i < |Step(s, a).calls| && Step(s, a).calls[i] == s.calls[i]
  {
  }

  lemma {:induction false} EndedStays(s: State, actions: seq<Action>, n: nat, i: nat)
    requires n <= |actions| && i < |Run(s, actions[..n]).calls| && Run(s, actions[..n]).calls[i].phase.Ended?
    ensures i < |Run(s, actions).calls| && Run(s, actions).calls[i] == Run(s, actions[..n]).calls[i]
  {
    if n == |actions| {
      assert actions[..n] == actions;
    } else {
      assert actions[..|actions|-1][..n] == actions[..n];
      EndedStays(s, actions[..|actions|-1], n, i);
      StepLeavesEnded(Run(s, actions[..|actions|-1]), actions[|actions|-1], i);
    }
  }

  /** Over a whole run: no statement of a call that ends up refused, or replaying, changed a
      committed row. */
  lemma UncreatedChangesNothing(s: State, actions: seq<Action>, n: nat, i: nat)
    requires n < |actions| && actions[n] in {Advance(i), Abort(i)}
    requires i < |Run(s, actions).calls| && !IsCreated(Run(s, actions).calls[i])
    ensures Run(s, actions[..n + 1]).store.runs == Run(s, actions[..n]).store.runs
    ensures Run(s, actions[..n + 1]).store.other == Run(s, actions[..n]).store.other
  {
    RunOneMore(s, actions, n);
    ChangesMeanCreated(Run(s, actions[..n]), actions[n], i);
    CreatedStays(s, actions, n + 1, i);
  }

  lemma ChangesMeanCreated(s: State, a: Action, i: nat)
    requires a == Advance(i) || a == Abort(i)
    ensures Step(s, a).store.runs != s.store.runs || Step(s, a).store.other != s.store.other ==>
      i < |Step(s, a).calls| && IsCreated(Step(s, a).calls[i])
  {
  }

  lemma CreatedStays(s: State, actions: seq<Action>, n: nat, i: nat)
    requires n <= |actions|
    ensures i < |Run(s, actions[..n]).calls| && IsCreated(Run(s, actions[..n]).calls[i]) ==>
      i < |Run(s, actions).calls| && IsCreated(Run(s, actions).calls[i])
  {
    if i < |Run(s, actions[..n]).calls| && IsCreated(Run(s, actions[..n]).calls[i]) { EndedStays(s, actions, n, i); }
  }

  lemma RunOneMore(s: State, actions: seq<Action>, n: nat)
    requires n < |actions|
    ensures Run(s, actions[..n + 1]) == Step(Run(s, actions[..n]), actions[n])
  {
    assert actions[..n + 1][..n] == actions[..n];
  }

  /** The unique key on (tenant_id, operation_id) never refuses a run row: under the tenant
      lock the earlier query has already settled it. */
  lemma RunRowIsNeverRefused(s: State, actions: seq<Action>, i: nat)
    requires IsStart(s) && i < |s.calls|
    requires |Run(s, actions).calls| == |s.calls| && Run(s, actions).calls[i].phase.Staffed?
    ensures Advanced(Run(s, actions), i).calls[i].phase.Recorded?
  {
    RunKeeps(s, actions);
    var now := Run(s, actions);
    assert forall k :: 0 <= k < |now.store.runs| ==> FindingsHold(now.calls[i], now.store.runs[k]);
  }

  // ---------- what each statement of a call finds ----------

  /** A committed run of the call's operation. */
  predicate IsRunAt(store: Store, m: ProvisioningManifest, k: int) {
    0 <= k < |store.runs| && store.runs[k].tenant == m.tenant && store.runs[k].operation == m.operation
  }

  predicate OnlyPhaseChanged(a: State, b: State, i: nat) {
    && i < |a.calls| == |b.calls| && (forall j :: 0 <= j < |a.calls| && j != i ==> b.calls[j] == a.calls[j])
    && b.calls[i].manifest == a.calls[i].manifest && b.calls[i].username == a.calls[i].username
  }

  /** Another call of the tenant holds its row lock. */
  predicate TenantIsLocked(s: State, i: nat)
    requires i < |s.calls|
  {
    exists j :: 0 <= j < |s.calls| && j != i && HoldsLock(s.calls[j])
      && s.calls[j].manifest.tenant == s.calls[i].manifest.tenant
  }

  /** Another call has inserted the call's username and not yet committed. */
  predicate NameIsPending(s: State, i: nat)
    requires i < |s.calls|
  {
    exists j :: 0 <= j < |s.calls| && j != i && HasStaff(s.calls[j]) && s.calls[j].username == s.calls[i].username
  }

  lemma WaitingStep(s: State, i: nat)
    requires i < |s.calls| && s.calls[i].phase.Waiting?
    ensures var m, after := s.calls[i].manifest, Step(s, Advance(i));
      && OnlyPhaseChanged(s, after, i) && after.store == s.store
      && after.calls[i].phase ==
           if TenantIsLocked(s, i) then Waiting
           else if m.tenant in s.store.other.tenants then Locked else Ended(Refused)
  {
  }

  lemma LookupFinds(store: Store, m: ProvisioningManifest)
    requires StoreIsSound(store)
    ensures HasRun(store, m) ==> exists k :: IsRunAt(store, m, k)
    ensures forall k :: IsRunAt(store, m, k) ==> HasRun(store, m) && FirstRun(store.runs, m) == store.runs[k]
  {
    if HasRun(store, m) {
      var k :| 0 <= k < |store.runs| && IsRunOf(store.runs[k], m);
      assert IsRunAt(store, m, k);
    }
    forall k | IsRunAt(store, m, k) ensures HasRun(store, m) && FirstRun(store.runs, m) == store.runs[k] {
      assert IsRunOf(store.runs[k], m);
      var j :| 0 <= j < |store.runs| && store.runs[j] == FirstRun(store.runs, m);
      assert j < k ==> RowsDiffer(store.runs[j], store.runs[k]);
      assert k < j ==> RowsDiffer(store.runs[k], store.runs[j]);
    }
  }

  /** The run lookup: a replay of the row's ids for the same content, a refusal for any other,
      and only without a row the call goes on. */
  lemma LockedStep(s: State, i: nat)
    requires StoreIsSound(s.store) && i < |s.calls| && s.calls[i].phase.Locked?
    ensures var m, after := s.calls[i].manifest, Step(s, Advance(i));
      && OnlyPhaseChanged(s, after, i) && after.store == s.store
      && (after.calls[i].phase == Checked <==> forall k :: !IsRunAt(s.store, m, k))
      && (after.calls[i].phase == Ended(Refused) <==>
            exists k :: IsRunAt(s.store, m, k) && s.store.runs[k].fingerprint != Fingerprint(m))
      && (forall ids :: after.calls[i].phase == Ended(Replayed(ids)) <==>
            exists k :: (IsRunAt(s.store, m, k)
              && s.store.runs[k].fingerprint == Fingerprint(m) && s.store.runs[k].ids == ids))
  {
    LookupFinds(s.store, s.calls[i].manifest);
  }

  lemma CheckedStep(s: State, i: nat)
    requires i < |s.calls| && s.calls[i].phase.Checked?
    ensures var m, after := s.calls[i].manifest, Step(s, Advance(i));
      && OnlyPhaseChanged(s, after, i) && after.store == s.store
      && after.calls[i].phase ==
           if (m.tenant, m.actor) in s.store.other.actors && (m.tenant, m.organizationCode) !in s.store.other.codes
           then Authorised else Ended(Refused)
  {
  }

  /** The core inserts, which use two ids whether or not the code is still free. */
  lemma AuthorisedStep(s: State, i: nat)
    requires i < |s.calls| && s.calls[i].phase.Authorised?
    ensures var m, next, after := s.calls[i].manifest, s.store.next, Step(s, Advance(i));
      && OnlyPhaseChanged(s, after, i)
      && after.store == s.store.(next := Ids(next.organization + 1, next.location + 1, next.staff))
      && after.calls[i].phase ==
           if (m.tenant, m.organizationCode) in s.store.other.codes then Ended(Refused) else Written(next)
  {
  }

  lemma WrittenStep(s: State, i: nat)
    requires i < |s.calls| && s.calls[i].phase.Written?
    ensures var c, next, after := s.calls[i], s.store.next, Step(s, Advance(i));
      && OnlyPhaseChanged(s, after, i)
      && after.calls[i].phase == (
           if c.username in s.store.other.usernames then Ended(Refused)
           else if NameIsPending(s, i) then c.phase
           else Staffed(Ids(c.phase.core.organization, c.phase.core.location, next.staff)))
      && after.store == s.store.(next := if after.calls[i].phase.Staffed? then next.(staff := next.staff + 1) else next)
  {
  }

  lemma StaffedStep(s: State, i: nat)
    requires Inv(s) && i < |s.calls| && s.calls[i].phase.Staffed?
    ensures var after := Step(s, Advance(i));
      && OnlyPhaseChanged(s, after, i) && after.store == s.store
      && after.calls[i].phase == Recorded(s.calls[i].phase.staffed)
  {
    assert forall k :: 0 <= k < |s.store.runs| ==> FindingsHold(s.calls[i], s.store.runs[k]);
  }

  /** A rollback ends the call refused and touches nothing that is committed; unrelated
      transactions touch no run and no call. */
  lemma OtherSteps(s: State, i: nat, other: Surroundings)
    requires i < |s.calls| && !s.calls[i].phase.Ended?
    ensures var after := Step(s, Abort(i));
      OnlyPhaseChanged(s, after, i) && after.calls[i].phase == Ended(Refused) && after.store == s.store
    ensures var after := Step(s, Elsewhere(other));
      && after.calls == s.calls && after.store.runs == s.store.runs && after.store.next == s.store.next
      && after.store.other == other
  {
  }

  /** The commit, field by field. */
  lemma RecordedStep(s: State, i: nat)
    requires i < |s.calls| && s.calls[i].phase.Recorded?
    ensures var c, after := s.calls[i], Step(s, Advance(i)); var m, ids := c.manifest, c.phase.recorded;
      && OnlyPhaseChanged(s, after, i) && after.calls[i].phase == Ended(Created(ids))
      && after.store.runs == s.store.runs + [RunRow(m.tenant, m.operation, Fingerprint(m), ids)]
      && after.store.other.codes == s.store.other.codes + {(m.tenant, m.organizationCode)}
      && after.store.other.usernames == s.store.other.usernames + {c.username}
      && after.store.other.tenants == s.store.other.tenants && after.store.other.actors == s.store.other.actors
      && after.store.next == s.store.next
  {
  }

  /** After any run: a call that has the lock answers its lookup as the committed rows say. */
  lemma RepeatsAreReplayed(s: State, actions: seq<Action>, i: nat, k: nat)
    requires IsStart(s) && i < |Run(s, actions).calls| && Run(s, actions).calls[i].phase.Locked?
    requires IsRunAt(Run(s, actions).store, Run(s, actions).calls[i].manifest, k)
    ensures var now := Run(s, actions); var m, row := now.calls[i].manifest, now.store.runs[k];
      Step(now, Advance(i)).calls[i].phase ==
        Ended(if row.fingerprint == Fingerprint(m) then Replayed(row.ids) else Refused)
  {
    RunKeeps(s, actions);
    LockedStep(Run(s, actions), i);
  }

  // ---------- a call that nothing interrupts ----------

  /** What the tables must say for a call to create. */
  predicate MayCreate(store: Store, m: ProvisioningManifest, username: string) {
    && m.tenant in store.other.tenants && (forall k :: 0 <= k < |store.runs| ==> !IsRunAt(store, m, k))
    && (m.tenant, m.actor) in store.other.actors && (m.tenant, m.organizationCode) !in store.other.codes
    && username !in store.other.usernames
  }

  /** An earlier run of the same operation and content, which reported `ids`. */
  predicate MayReplay(store: Store, m: ProvisioningManifest, ids: Ids) {
    && m.tenant in store.other.tenants
    && exists k :: (0 <= k < |store.runs| && IsRunAt(store, m, k)
         && store.runs[k].fingerprint == Fingerprint(m) && store.runs[k].ids == ids)
  }

  /** The call's next n statements, with nothing in between. */
  function Alone(s: State, i: nat, n: nat): State
    decreases n
  {
    if n == 0 then s else Alone(Step(s, Advance(i)), i, n - 1)
  }

  lemma {:induction false} AloneIsARun(s: State, i: nat, n: nat)
    ensures Alone(s, i, n) == Run(s, seq(n, _ => Advance(i)))
    decreases n
  {
    if n > 0 {
      AloneIsARun(Step(s, Advance(i)), i, n - 1);
      RunFromFirst(s, Advance(i), seq(n - 1, _ => Advance(i)));
      assert seq(n, _ => Advance(i)) == [Advance(i)] + seq(n - 1, _ => Advance(i));
    }
  }

  lemma {:induction false} RunFromFirst(s: State, a: Action, rest: seq<Action>)
    ensures Run(s, [a] + rest) == Run(Step(s, a), rest)
  {
    var all := [a] + rest;
    if rest == [] {
      assert all[..0] == [];
    } else {
      RunFromFirst(s, a, rest[..|rest|-1]);
      assert all[..|all|-1] == [a] + rest[..|rest|-1];
    }
  }

  /** How a call left alone ends, given the store it began with. */
  ghost predicate EndsAsTablesSay(store: Store, c: Call, end: Store, result: Result) {
    && (forall ids :: result == Created(ids) <==> MayCreate(store, c.manifest, c.username) && ids == store.next)
    && (forall ids :: result == Replayed(ids) <==> MayReplay(store, c.manifest, ids))
    && (result.Created? ==>
          end.runs == store.runs
            + [RunRow(c.manifest.tenant, c.manifest.operation, Fingerprint(c.manifest), store.next)])
    && (!result.Created? ==> end.runs == store.runs)
  }

  lemma {:induction false} EndedAlone(s: State, i: nat, n: nat)
    requires i < |s.calls| && s.calls[i].phase.Ended?
    ensures Alone(s, i, n) == s
    decreases n
  {
    if n > 0 { EndedAlone(Step(s, Advance(i)), i, n - 1); }
  }

  lemma StaffedAlone(s: State, i: nat)
    requires Inv(s) && i < |s.calls| && s.calls[i].phase.Staffed?
    ensures var c, end := s.calls[i], Alone(s, i, 2);
      && i < |end.calls| && end.calls[i].phase == Ended(Created(c.phase.staffed))
      && end.store.runs == s.store.runs
           + [RunRow(c.manifest.tenant, c.manifest.operation, Fingerprint(c.manifest), c.phase.staffed)]
  {
    StaffedStep(s, i);
    RecordedStep(Step(s, Advance(i)), i);
    assert Alone(s, i, 2) == Alone(Step(s, Advance(i)), i, 1);
  }

  lemma AuthorisedAlone(s: State, i: nat)
    requires Inv(s) && i < |s.calls| && s.calls[i].phase.Authorised? && !NameIsPending(s, i)
    requires (s.calls[i].manifest.tenant, s.calls[i].manifest.organizationCode) !in s.store.other.codes
    ensures var c, end := s.calls[i], Alone(s, i, 4);
      && i < |end.calls| && end.calls[i].phase.Ended?
      && end.calls[i].phase.result ==
           (if c.username in s.store.other.usernames then Refused else Created(s.store.next))
      && end.store.runs == s.store.runs + (if c.username in s.store.other.usernames then []
           else [RunRow(c.manifest.tenant, c.manifest.operation, Fingerprint(c.manifest), s.store.next)])
  {
    var s1 := Step(s, Advance(i));
    AuthorisedStep(s, i);
    StepKeeps(s, Advance(i));
    var s2 := Step(s1, Advance(i));
    WrittenStep(s1, i);
    StepKeeps(s1, Advance(i));
    assert Alone(s, i, 4) == Alone(s1, i, 3) == Alone(s2, i, 2);
    if s2.calls[i].phase.Staffed? { StaffedAlone(s2, i); } else { EndedAlone(s2, i, 2); }
  }

  lemma CheckedAlone(s: State, i: nat)
    requires Inv(s) && i < |s.calls| && s.calls[i].phase.Checked? && !NameIsPending(s, i)
    requires s.calls[i].manifest.tenant in s.store.other.tenants
    requires forall k :: !IsRunAt(s.store, s.calls[i].manifest, k)
    ensures var end := Alone(s, i, 5);
      && i < |end.calls| && end.calls[i].phase.Ended?
      && EndsAsTablesSay(s.store, s.calls[i], end.store, end.calls[i].phase.result)
  {
    var s1 := Step(s, Advance(i));
    CheckedStep(s, i);
    StepKeeps(s, Advance(i));
    assert Alone(s, i, 5) == Alone(s1, i, 4);
    if s1.calls[i].phase.Authorised? { AuthorisedAlone(s1, i); } else { EndedAlone(s1, i, 4); }
  }

  lemma LockedAlone(s: State, i: nat)
    requires Inv(s) && i < |s.calls| && s.calls[i].phase.Locked? && !NameIsPending(s, i)
    requires s.calls[i].manifest.tenant in s.store.other.tenants
    ensures var end := Alone(s, i, 6);
      && i < |end.calls| && end.calls[i].phase.Ended?
      && EndsAsTablesSay(s.store, s.calls[i], end.store, end.calls[i].phase.result)
  {
    var s1 := Step(s, Advance(i));
    LockedStep(s, i);
    StepKeeps(s, Advance(i));
    assert Alone(s, i, 6) == Alone(s1, i, 5);
    if s1.calls[i].phase.Checked? { CheckedAlone(s1, i); } else { EndedAlone(s1, i, 5); }
  }

  /** In any state a run reaches, once its locks are free, a call left alone ends as the tables
      say: Created, with the next ids, exactly when they let it create; Replayed exactly with
      the ids of a run of the same content; else Refused. */
  lemma CallAlone(s: State, i: nat)
    requires Inv(s) && i < |s.calls| && s.calls[i].phase.Waiting?
    requires !TenantIsLocked(s, i) && !NameIsPending(s, i)
    ensures var end := Alone(s, i, 7);
      && i < |end.calls| && end.calls[i].phase.Ended?
      && EndsAsTablesSay(s.store, s.calls[i], end.store, end.calls[i].phase.result)
  {
    var s1 := Step(s, Advance(i));
    WaitingStep(s, i);
    StepKeeps(s, Advance(i));
    if s1.calls[i].phase.Locked? { LockedAlone(s1, i); } else { EndedAlone(s1, i, 6); }
  }
}
