/** Row locks of the routines that change headquarters and location status: the organization
    row first, then location rows in ascending id order, all held until the transaction ends.
    Any number of callers take steps in any order. */
module LockOrder {

  datatype Row = OrganizationRow(id: int) | LocationRow(id: int)

  /** Organization rows come before location rows, each kind by id. */
  predicate Before(a: Row, b: Row) {
    match a
    case OrganizationRow(i) => b.LocationRow? || i < b.id
    case LocationRow(i) => b.LocationRow? && i < b.id
  }

  /** assign_headquarters_in_transaction, or a PATCH of one location. */
  datatype Job = Assign(target: int) | Patch(location: int)

  datatype Phase =
    | Starting                            // wants the organization row
    | Locking(ids: seq<int>, got: nat)    // holds the organization row and ids[..got]
    | Finished                            // committed or rolled back: holds nothing

  datatype Caller = Caller(organization: int, job: Job, phase: Phase)

  /** `headquarters` by organization; `owner` tells which organization a location belongs to. */
  datatype State = State(callers: seq<Caller>, headquarters: map<int, int>, owner: map<int, int>)

  /** The rows the locking query returns, `Location.id IN (previous, target) ... ORDER BY id`. */
  function LockIds(s: State, organization: int, job: Job): (ids: seq<int>)
    ensures |ids| <= 2 && forall i, j :: 0 <= i < j < |ids| ==> ids[i] < ids[j]
    ensures forall l :: l in ids <==>
      l in s.owner && s.owner[l] == organization &&
      (l == (if job.Assign? then job.target else job.location)
       || (job.Assign? && organization in s.headquarters && l == s.headquarters[organization]))
  {
    OwnedBy(s, organization, Requested(s, organization, job))
  }

  /** sorted({previous, target}), or the one location of a PATCH. */
  function Requested(s: State, organization: int, job: Job): (ids: seq<int>)
    ensures 1 <= |ids| <= 2 && forall i, j :: 0 <= i < j < |ids| ==> ids[i] < ids[j]
  {
    var wanted := if job.Assign? then job.target else job.location;
    if job.Assign? && organization in s.headquarters && s.headquarters[organization] != wanted then
      var previous := s.headquarters[organization];
      if previous < wanted then [previous, wanted] else [wanted, previous]
    else [wanted]
  }

  function OwnedBy(s: State, organization: int, ids: seq<int>): (owned: seq<int>)
    requires forall i, j :: 0 <= i < j < |ids| ==> ids[i] < ids[j]
    ensures |owned| <= |ids| && forall i, j :: 0 <= i < j < |owned| ==> owned[i] < owned[j]
    ensures forall l :: l in owned <==> l in ids && l in s.owner && s.owner[l] == organization
  {
    if ids == [] then []
    else
      var rest := OwnedBy(s, organization, ids[1..]);
      assert forall k :: 0 <= k < |rest| ==> rest[k] in ids[1..];
      if ids[0] in s.owner && s.owner[ids[0]] == organization then [ids[0]] + rest else rest
  }

  predicate Holds(c: Caller, r: Row) {
    c.phase.Locking? &&
    (r == OrganizationRow(c.organization) ||
     (r.LocationRow? && exists k :: 0 <= k < c.phase.got && k < |c.phase.ids| && c.phase.ids[k] == r.id))
  }

  predicate IsWaiting(c: Caller) {
    c.phase.Starting? || (c.phase.Locking? && c.phase.got < |c.phase.ids|)
  }

  function Wanted(c: Caller): Row
    requires IsWaiting(c)
  {
    if c.phase.Starting? then OrganizationRow(c.organization) else LocationRow(c.phase.ids[c.phase.got])
  }

  predicate IsFree(s: State, i: nat, r: Row) {
    forall j :: 0 <= j < |s.callers| && j != i ==> !Holds(s.callers[j], r)
  }

  predicate CanStep(s: State, i: nat) {
    i < |s.callers| && !s.callers[i].phase.Finished? && (IsWaiting(s.callers[i]) ==> IsFree(s, i, Wanted(s.callers[i])))
  }

  /** A caller's next step: take the next lock when it is free, and at the end commit (moving
      the headquarters when `moves`) or roll back. */
  function Step(s: State, i: nat, moves: bool): State
    requires CanStep(s, i)
  {
    var c := s.callers[i];
    var phase :=
      if c.phase.Starting? then Locking(LockIds(s, c.organization, c.job), 0)
      else if IsWaiting(c) then c.phase.(got := c.phase.got + 1)
      else Finished;
    s.(callers := s.callers[i := c.(phase := phase)],
       headquarters := if phase.Finished? && moves && c.job.Assign?
        then s.headquarters[c.organization := c.job.target] else s.headquarters)
  }

  /** A schedule: which caller steps, and whether a commit moves the headquarters.  Turns of
      callers that cannot step are skipped. */
  function Run(s: State, schedule: seq<(nat, bool)>): State {
    if schedule == [] then s
    else
      var before := Run(s, schedule[..|schedule|-1]);
      var turn := schedule[|schedule|-1];
      if CanStep(before, turn.0) then Step(before, turn.0, turn.1) else before
  }

  // ---------- what every schedule keeps ----------

  predicate Sound(c: Caller) {
    c.phase.Locking? ==>
      && c.phase.got <= |c.phase.ids|
      && forall i, j :: 0 <= i < j < |c.phase.ids| ==> c.phase.ids[i] < c.phase.ids[j]
  }

  ghost predicate Inv(s: State) {
    && (forall i :: 0 <= i < |s.callers| ==> Sound(s.callers[i]))
    && (forall i, j, r :: 0 <= i < |s.callers| && 0 <= j < |s.callers| && i != j ==>
          !(Holds(s.callers[i], r) && Holds(s.callers[j], r)))
  }

  /** A caller about to begin. */
  predicate AllStarting(s: State) {
    forall i :: 0 <= i < |s.callers| ==> s.callers[i].phase.Starting?
  }

  lemma HeldAfterStep(s: State, i: nat, moves: bool, r: Row)
    requires Inv(s) && CanStep(s, i) && Holds(Step(s, i, moves).callers[i], r)
    ensures IsFree(s, i, r)
  {
  }

  /** No row is ever locked by two callers. */
  lemma StepKeeps(s: State, i: nat, moves: bool)
    requires Inv(s) && CanStep(s, i)
    ensures Inv(Step(s, i, moves))
  {
    var after := Step(s, i, moves);
    forall a, b, r | 0 <= a < |after.callers| && 0 <= b < |after.callers| && a != b
      ensures !(Holds(after.callers[a], r) && Holds(after.callers[b], r))
    {
      if a == i && Holds(after.callers[i], r) { HeldAfterStep(s, i, moves, r); }
      if b == i && Holds(after.callers[i], r) { HeldAfterStep(s, i, moves, r); }
      if a != i && b != i { assert !(Holds(s.callers[a], r) && Holds(s.callers[b], r)); }
    }
  }

  lemma {:induction false} RunKeeps(s: State, schedule: seq<(nat, bool)>)
    requires Inv(s)
    ensures Inv(Run(s, schedule)) && |Run(s, schedule).callers| == |s.callers|
  {
    if schedule != [] {
      RunKeeps(s, schedule[..|schedule|-1]);
      var before, turn := Run(s, schedule[..|schedule|-1]), schedule[|schedule|-1];
      if CanStep(before, turn.0) { StepKeeps(before, turn.0, turn.1); }
    }
  }

  // ---------- no deadlock ----------

  /** Caller i waits for a row that caller j holds. */
  predicate WaitsFor(s: State, i: nat, j: nat) {
    && i < |s.callers| && j < |s.callers| && i != j
    && IsWaiting(s.callers[i]) && Holds(s.callers[j], Wanted(s.callers[i]))
  }

  /** A caller that holds a row only ever waits for a later one. */
  lemma HeldBeforeWanted(c: Caller, r: Row)
    requires Sound(c) && Holds(c, r) && IsWaiting(c)
    ensures Before(r, Wanted(c))
  {
  }

  lemma BeforeIsTransitive(a: Row, b: Row, c: Row)
    requires Before(a, b) && Before(b, c)
    ensures Before(a, c)
  {
  }

  lemma BeyondMaximal(a: Row, b: Row, c: Row)
    requires Before(a, b) && !Before(a, c)
    ensures !Before(b, c)
  {
  }

  predicate IsWaitPath(s: State, path: seq<nat>) {
    |path| >= 2 && forall k :: 0 <= k < |path| - 1 ==> WaitsFor(s, path[k], path[k + 1])
  }

  lemma {:induction false} PathsAscend(s: State, path: seq<nat>)
    requires Inv(s) && IsWaitPath(s, path)
    ensures path[0] < |s.callers| && IsWaiting(s.callers[path[0]])
    ensures path[|path|-1] < |s.callers| && (IsWaiting(s.callers[path[|path|-1]]) ==>
      Before(Wanted(s.callers[path[0]]), Wanted(s.callers[path[|path|-1]])))
  {
    assert WaitsFor(s, path[0], path[1]);
    var last := path[|path|-1];
    var before := path[|path|-2];
    assert WaitsFor(s, before, last);
    if IsWaiting(s.callers[last]) { HeldBeforeWanted(s.callers[last], Wanted(s.callers[before])); }
    if |path| > 2 {
      var shorter := path[..|path|-1];
      assert IsWaitPath(s, shorter) by {
        forall k | 0 <= k < |shorter| - 1 ensures WaitsFor(s, shorter[k], shorter[k + 1]) {
          assert WaitsFor(s, path[k], path[k + 1]);
        }
      }
      PathsAscend(s, shorter);
      if IsWaiting(s.callers[last]) {
        BeforeIsTransitive(Wanted(s.callers[path[0]]), Wanted(s.callers[before]), Wanted(s.callers[last]));
      }
    }
  }

  /** The waits-for graph has no cycle. */
  lemma WaitsForIsAcyclic(s: State, path: seq<nat>)
    requires Inv(s) && IsWaitPath(s, path)
    ensures path[0] != path[|path|-1]
  {
    PathsAscend(s, path);
    NeverBeforeItself(Wanted(s.callers[path[0]]));
  }

  lemma NeverBeforeItself(r: Row)
    ensures !Before(r, r)
  {
  }

  /** Among the first n callers: one that waits for a row no other of them wants later. */
  lemma {:induction false} LastWaiting(s: State, n: nat) returns (i: nat)
    requires n <= |s.callers| && exists k :: 0 <= k < n && IsWaiting(s.callers[k])
    ensures i < n && IsWaiting(s.callers[i])
    ensures forall k :: 0 <= k < n && IsWaiting(s.callers[k]) ==> !Before(Wanted(s.callers[i]), Wanted(s.callers[k]))
  {
    if exists k :: 0 <= k < n - 1 && IsWaiting(s.callers[k]) {
      i := LastWaiting(s, n - 1);
      if IsWaiting(s.callers[n-1]) && Before(Wanted(s.callers[i]), Wanted(s.callers[n-1])) {
        forall k | 0 <= k < n - 1 && IsWaiting(s.callers[k])
          ensures !Before(Wanted(s.callers[n-1]), Wanted(s.callers[k]))
        {
          BeyondMaximal(Wanted(s.callers[i]), Wanted(s.callers[n-1]), Wanted(s.callers[k]));
        }
        NeverBeforeItself(Wanted(s.callers[n-1]));
        i := n - 1;
      }
    } else {
      i := n - 1;
      NeverBeforeItself(Wanted(s.callers[i]));
    }
  }

  /** While any caller is unfinished, some caller can take a step. */
  lemma SomeoneCanStep(s: State) returns (i: nat)
    requires Inv(s) && exists k :: 0 <= k < |s.callers| && !s.callers[k].phase.Finished?
    ensures CanStep(s, i)
  {
    if k :| 0 <= k < |s.callers| && !s.callers[k].phase.Finished? && !IsWaiting(s.callers[k]) {
      i := k;
    } else {
      i := LastWaiting(s, |s.callers|);
      var wanted := Wanted(s.callers[i]);
      forall j | 0 <= j < |s.callers| && j != i ensures !Holds(s.callers[j], wanted) {
        if Holds(s.callers[j], wanted) && IsWaiting(s.callers[j]) { HeldBeforeWanted(s.callers[j], wanted); }
      }
    }
  }

  /** From wherever any schedule has led, the callers can be run until all of them finish. */
  lemma {:induction false} CanFinish(s: State) returns (schedule: seq<(nat, bool)>)
    requires Inv(s)
    ensures |Run(s, schedule).callers| == |s.callers|
    ensures forall k :: 0 <= k < |s.callers| ==> Run(s, schedule).callers[k].phase.Finished?
    decreases Remaining(s.callers)
  {
    schedule := [];
    if exists k :: 0 <= k < |s.callers| && !s.callers[k].phase.Finished? {
      var i := SomeoneCanStep(s);
      StepKeeps(s, i, false);
      StepDecreases(s, i, false);
      var rest := CanFinish(Step(s, i, false));
      schedule := [(i, false)] + rest;
      RunFrom(s, i, false, rest);
    }
  }

  /** Callers that all begin together: after any schedule nobody waits in a circle, no row is
      locked twice, and everyone can still finish. */
  lemma NeverDeadlocked(s: State, schedule: seq<(nat, bool)>) returns (rest: seq<(nat, bool)>)
    requires AllStarting(s)
    ensures var now := Run(s, schedule);
      && Inv(now) && (forall path :: IsWaitPath(now, path) ==> path[0] != path[|path|-1])
      && |Run(now, rest).callers| == |s.callers|
      && forall k :: 0 <= k < |s.callers| ==> Run(now, rest).callers[k].phase.Finished?
  {
    RunKeeps(s, schedule);
    var now := Run(s, schedule);
    forall path | IsWaitPath(now, path) ensures path[0] != path[|path|-1] { WaitsForIsAcyclic(now, path); }
    rest := CanFinish(now);
  }

  lemma {:induction false} RunFrom(s: State, i: nat, moves: bool, rest: seq<(nat, bool)>)
    requires CanStep(s, i)
    ensures Run(s, [(i, moves)] + rest) == Run(Step(s, i, moves), rest)
  {
    var all := [(i, moves)] + rest;
    if rest == [] {
      assert all[..0] == [];
    } else {
      RunFrom(s, i, moves, rest[..|rest|-1]);
      assert all[..|all|-1] == [(i, moves)] + rest[..|rest|-1];
    }
  }

  /** Lock requests and commits still to come: a caller that has not started needs its
      organization row, at most two location rows and the commit. */
  function Left(c: Caller): nat
    requires Sound(c)
  {
    match c.phase
    case Starting => 4
    case Locking(ids, got) => |ids| - got + 1
    case Finished => 0
  }

  function Remaining(callers: seq<Caller>): nat
    requires forall i :: 0 <= i < |callers| ==> Sound(callers[i])
  {
    if callers == [] then 0 else Left(callers[0]) + Remaining(callers[1..])
  }

  lemma {:induction false} RemainingAfter(callers: seq<Caller>, i: nat, c: Caller)
    requires i < |callers| && (forall k :: 0 <= k < |callers| ==> Sound(callers[k])) && Sound(c)
    requires Left(c) < Left(callers[i])
    ensures Remaining(callers[i := c]) < Remaining(callers)
  {
    if i == 0 {
      assert callers[i := c][1..] == callers[1..];
    } else {
      RemainingAfter(callers[1..], i - 1, c);
      assert callers[i := c][1..] == callers[1..][i - 1 := c];
    }
  }

  lemma StepDecreases(s: State, i: nat, moves: bool)
    requires Inv(s) && CanStep(s, i)
    ensures Inv(Step(s, i, moves)) && Remaining(Step(s, i, moves).callers) < Remaining(s.callers)
  {
    StepKeeps(s, i, moves);
    RemainingAfter(s.callers, i, Step(s, i, moves).callers[i]);
  }

  // ---------- what the locks are for ----------

  /** A caller that has its organization row has read the ids it locks from the headquarters
      there still is. */
  predicate ReadsAreCurrent(s: State) {
    forall i :: 0 <= i < |s.callers| && s.callers[i].phase.Locking? ==>
      s.callers[i].phase.ids == LockIds(s, s.callers[i].organization, s.callers[i].job)
  }

  /** Every row the caller's routine must lock, as the tables stand. */
  ghost predicate HoldsItsRows(s: State, i: nat)
    requires i < |s.callers|
  {
    var c := s.callers[i];
    && Holds(c, OrganizationRow(c.organization))
    && forall l :: l in LockIds(s, c.organization, c.job) ==> Holds(c, LocationRow(l))
  }

  /** The headquarters recorded for an organization, if there is one. */
  predicate SameHeadquarters(a: State, b: State, organization: int) {
    && (organization in a.headquarters <==> organization in b.headquarters)
    && (organization in a.headquarters ==> a.headquarters[organization] == b.headquarters[organization])
  }

  /** While a caller holds an organization row, only its own commit can move that headquarters. */
  lemma HeldHeadquartersStays(s: State, i: nat, j: nat, moves: bool)
    requires Inv(s) && i < |s.callers| && Holds(s.callers[i], OrganizationRow(s.callers[i].organization))
    requires i != j && CanStep(s, j)
    ensures SameHeadquarters(s, Step(s, j, moves), s.callers[i].organization)
  {
    var o := s.callers[j].organization;
    assert !(Holds(s.callers[i], OrganizationRow(o)) && Holds(s.callers[j], OrganizationRow(o)));
  }

  /** A headquarters moves only in the commit of a caller that asked for it, to the location
      it asked for. */
  lemma OnlyCommitMoves(s: State, i: nat, moves: bool, organization: int)
    requires CanStep(s, i) && !SameHeadquarters(s, Step(s, i, moves), organization)
    ensures var c := s.callers[i];
      && organization == c.organization && c.job.Assign? && moves && Step(s, i, moves).callers[i].phase.Finished?
      && organization in Step(s, i, moves).headquarters
      && Step(s, i, moves).headquarters[organization] == c.job.target
  {
  }

  lemma StepReadsCurrent(s: State, i: nat, moves: bool)
    requires Inv(s) && ReadsAreCurrent(s) && CanStep(s, i)
    ensures ReadsAreCurrent(Step(s, i, moves))
  {
    var after := Step(s, i, moves);
    forall k | 0 <= k < |after.callers| && after.callers[k].phase.Locking?
      ensures after.callers[k].phase.ids == LockIds(after, after.callers[k].organization, after.callers[k].job)
    {
      var c := after.callers[k];
      if k != i { HeldHeadquartersStays(s, k, i, moves); }
      SameLockIds(s, after, c.organization, c.job);
    }
  }

  lemma SameLockIds(a: State, b: State, organization: int, job: Job)
    requires a.owner == b.owner && SameHeadquarters(a, b, organization)
    ensures LockIds(a, organization, job) == LockIds(b, organization, job)
  {
    SameOwned(a, b, organization, Requested(a, organization, job));
  }

  lemma {:induction false} SameOwned(a: State, b: State, organization: int, ids: seq<int>)
    requires a.owner == b.owner && forall i, j :: 0 <= i < j < |ids| ==> ids[i] < ids[j]
    ensures OwnedBy(a, organization, ids) == OwnedBy(b, organization, ids)
  {
    if ids != [] { SameOwned(a, b, organization, ids[1..]); }
  }

  lemma {:induction false} RunReadsCurrent(s: State, schedule: seq<(nat, bool)>)
    requires AllStarting(s)
    ensures Inv(Run(s, schedule)) && ReadsAreCurrent(Run(s, schedule))
  {
    RunKeeps(s, schedule);
    if schedule != [] {
      var before, turn := Run(s, schedule[..|schedule|-1]), schedule[|schedule|-1];
      RunReadsCurrent(s, schedule[..|schedule|-1]);
      if CanStep(before, turn.0) { StepReadsCurrent(before, turn.0, turn.1); }
    }
  }

  /** After any schedule, a caller commits only while it holds its organization row and every
      location row the query returns in that very state; and no other caller's step, before
      that, moves the headquarters it has read. */
  lemma CommitsHoldEverything(s: State, schedule: seq<(nat, bool)>, i: nat, moves: bool)
    requires AllStarting(s) && CanStep(Run(s, schedule), i)
    requires Step(Run(s, schedule), i, moves).callers[i].phase.Finished?
    ensures HoldsItsRows(Run(s, schedule), i)
    ensures var now := Run(s, schedule); var c := now.callers[i];
      if moves && c.job.Assign?
      then c.organization in Step(now, i, moves).headquarters
        && Step(now, i, moves).headquarters[c.organization] == c.job.target
      else Step(now, i, moves).headquarters == now.headquarters
  {
    RunReadsCurrent(s, schedule);
    var c := Run(s, schedule).callers[i];
    forall l | l in c.phase.ids ensures Holds(c, LocationRow(l)) {
      var k :| 0 <= k < |c.phase.ids| && c.phase.ids[k] == l;
    }
  }

  /** The locks serialise: between taking its organization row and committing, a caller sees no
      headquarters but its own change. */
  lemma {:induction false} HeldSince(s: State, schedule: seq<(nat, bool)>, n: nat, i: nat)
    requires AllStarting(s) && n <= |schedule| && i < |s.callers|
    requires forall k :: n <= k <= |schedule| ==> IsLockingAfter(s, schedule, k, i)
    ensures i < |Run(s, schedule).callers| == |Run(s, schedule[..n]).callers|
      && Run(s, schedule).callers[i].organization == Run(s, schedule[..n]).callers[i].organization
      && SameHeadquarters(Run(s, schedule[..n]), Run(s, schedule), Run(s, schedule).callers[i].organization)
  {
    RunKeeps(s, schedule);
    if n == |schedule| {
      assert schedule[..n] == schedule;
    } else {
      var fewer := schedule[..|schedule|-1];
      forall k | n <= k <= |fewer| ensures IsLockingAfter(s, fewer, k, i) {
        assert fewer[..k] == schedule[..k];
        assert IsLockingAfter(s, schedule, k, i);
      }
      HeldSince(s, fewer, n, i);
      assert fewer[..n] == schedule[..n];
      RunKeeps(s, fewer);
      var before, turn := Run(s, fewer), schedule[|schedule|-1];
      assert IsLockingAfter(s, schedule, |fewer|, i) && IsLockingAfter(s, schedule, |schedule|, i);
      assert schedule[..|schedule|] == schedule;
      if CanStep(before, turn.0) && turn.0 != i { HeldHeadquartersStays(before, i, turn.0, turn.1); }
    }
  }

  predicate IsLockingAfter(s: State, schedule: seq<(nat, bool)>, n: nat, i: nat)
    requires n <= |schedule|
  {
    i < |Run(s, schedule[..n]).callers| && Run(s, schedule[..n]).callers[i].phase.Locking?
  }
}
