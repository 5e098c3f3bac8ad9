/** Table service sessions and the diners who join them: the constraints of migration 0015, the
    resolver's rule for accepting a diner, and the transactions that join and end sessions. */
module DinerSessions {
  import opened Sql

  /** The composite scope every foreign key of these tables carries. */
  datatype Scope = Scope(tenant: int, organization: int, location: int, resource: int)

  datatype ServiceStatus = Open | Closed | OtherServiceStatus(text: string)

  /** failed_join_attempts, failed_window_started_at, join_locked_until; times in seconds. */
  datatype Guard = Guard(attempts: int, windowStart: Option<int>, lockedUntil: Option<int>)

  datatype Service = Service(
    scope: Scope, partySize: int, status: ServiceStatus, slot: Option<int>,
    digest: Option<string>, guard: Guard, closedAt: Option<int>, closedBy: Option<int>)

  datatype DinerStatus = Active | Ended | OtherDinerStatus(text: string)

  datatype Diner = Diner(
    scope: Scope, service: int, email: Option<string>,
    status: DinerStatus, slot: Option<int>, endedAt: Option<int>)

  datatype Tables = Tables(services: map<int, Service>, diners: map<int, Diner>)

  // ---------- the constraints ----------

  function SlotCheck(slot: Option<int>): Truth {
    IsNull(slot).Or(Eq(slot, 1))
  }

  /** ck_restaurant_service_sessions_lifecycle */
  function ServiceLifecycle(s: Service): Truth {
    Of(s.status.Open?).And(Eq(s.slot, 1)).And(NotNull(s.digest)).And(IsNull(s.closedAt)).And(IsNull(s.closedBy))
      .Or(Of(s.status.Closed?).And(IsNull(s.slot)).And(IsNull(s.digest))
            .And(NotNull(s.closedAt)).And(NotNull(s.closedBy)))
  }

  predicate ServiceAccepted(s: Service) {
    && Passes(Of(s.status.Open? || s.status.Closed?)) && Passes(Of(1 <= s.partySize <= 999))
    && Passes(SlotCheck(s.slot)) && Passes(ServiceLifecycle(s)) && Passes(Of(s.guard.attempts >= 0))
  }

  /** ck_diner_sessions_lifecycle */
  function DinerLifecycle(d: Diner): Truth {
    Of(d.status.Active?).And(Eq(d.slot, 1)).And(IsNull(d.endedAt))
      .Or(Of(d.status.Ended?).And(IsNull(d.slot)).And(NotNull(d.endedAt)))
  }

  predicate DinerAccepted(d: Diner) {
    && Passes(Of(d.status.Active? || d.status.Ended?))
    && Passes(SlotCheck(d.slot)) && Passes(DinerLifecycle(d))
  }

  /** uq_restaurant_service_sessions_resource_open; NULL slots never collide. */
  predicate ServicesCompatible(a: Service, b: Service) {
    !(a.scope.resource == b.scope.resource && a.slot.Some? && a.slot == b.slot)
  }

  /** uq_diner_sessions_active_email */
  predicate DinersCompatible(a: Diner, b: Diner) {
    !(a.service == b.service && a.email.Some? && a.email == b.email && a.slot.Some? && a.slot == b.slot)
  }

  predicate ServicesValid(services: map<int, Service>) {
    && (forall i :: i in services ==> ServiceAccepted(services[i]))
    && (forall i, j :: i in services && j in services && i != j ==> ServicesCompatible(services[i], services[j]))
  }

  predicate DinersValid(diners: map<int, Diner>) {
    && (forall i :: i in diners ==> DinerAccepted(diners[i]))
    && (forall i, j :: i in diners && j in diners && i != j ==> DinersCompatible(diners[i], diners[j]))
  }

  /** fk_diner_sessions_service_scope */
  predicate ScopesMatch(t: Tables) {
    forall i :: i in t.diners ==>
      t.diners[i].service in t.services && t.services[t.diners[i].service].scope == t.diners[i].scope
  }

  predicate Valid(t: Tables) {
    ServicesValid(t.services) && DinersValid(t.diners) && ScopesMatch(t)
  }

  predicate LiveService(s: Service) {
    s.status.Open? && s.slot == Some(1)
  }

  predicate LiveDiner(d: Diner) {
    d.status.Active? && d.slot == Some(1)
  }

  /** The slot of an OPEN service may be NULL: the lifecycle condition is then UNKNOWN. */
  predicate OpenShape(s: Service) {
    s.status.Open? && (s.slot == Some(1) || s.slot.None?) && s.digest.Some? && s.closedAt.None? && s.closedBy.None?
  }

  predicate ClosedShape(s: Service) {
    s.status.Closed? && s.slot.None? && s.digest.None? && s.closedAt.Some? && s.closedBy.Some?
  }

  lemma AdmittedServices(s: Service)
    ensures ServiceAccepted(s) <==>
      1 <= s.partySize <= 999 && s.guard.attempts >= 0 && (OpenShape(s) || ClosedShape(s))
  {
  }

  lemma AdmittedDiners(d: Diner)
    ensures DinerAccepted(d) <==>
      || (d.status.Active? && (d.slot == Some(1) || d.slot.None?) && d.endedAt.None?)
      || (d.status.Ended? && d.slot.None? && d.endedAt.Some?)
  {
  }

  // ---------- the resolver ----------

  datatype Token = Token(diner: int, tenant: int, service: int)

  datatype Answer =
    | Unauthorized
    | SessionClosed
    | Accepted(scope: Scope, service: int, diner: int)

  /** get_diner_authenticated_context, branch by branch. */
  function Resolve(t: Tables, token: Token): Answer {
    if !(token.diner in t.diners && token.service in t.services) then Unauthorized
    else
      var diner, service := t.diners[token.diner], t.services[token.service];
      if diner.scope.tenant != token.tenant || diner.service != token.service then Unauthorized
      else if !diner.status.Active? || diner.slot != Some(1) then SessionClosed
      else if !service.status.Open? || service.slot != Some(1) || service.scope.tenant != token.tenant
        then SessionClosed
      else Accepted(diner.scope, diner.service, token.diner)
  }

  /** The token's ids belong together. */
  predicate Names(t: Tables, token: Token) {
    && token.diner in t.diners && t.diners[token.diner].service == token.service
    && t.diners[token.diner].scope.tenant == token.tenant && token.service in t.services
  }

  /** The resolver's tenant comparison never decides: under the foreign key it only answers
      SESSION_CLOSED when the diner or the service has really ended. */
  lemma ClosedExactlyWhenEnded(t: Tables, token: Token)
    requires Valid(t)
    ensures Resolve(t, token).SessionClosed? <==>
      Names(t, token) && !(LiveDiner(t.diners[token.diner]) && LiveService(t.services[token.service]))
    ensures Resolve(t, token).Accepted? ==> t.services[token.service].scope == Resolve(t, token).scope
    ensures Resolve(t, token) == Unauthorized <==> !Names(t, token)
    ensures Resolve(t, token).Accepted? ==>
      && Resolve(t, token).service == token.service && Resolve(t, token).diner == token.diner
      && LiveDiner(t.diners[token.diner]) && LiveService(t.services[token.service])
  {
  }

  // ---------- every run of constraint-checked statements ----------

  datatype Statement =
    | PutService(serviceId: int, service: Service)
    | PutDiner(dinerId: int, diner: Diner)
    | DeleteService(deletedService: int)
    | DeleteDiner(deletedDiner: int)

  function Effect(t: Tables, s: Statement): Tables {
    match s
    case PutService(i, row) => t.(services := t.services[i := row])
    case PutDiner(i, row) => t.(diners := t.diners[i := row])
    case DeleteService(i) => t.(services := t.services - {i})
    case DeleteDiner(i) => t.(diners := t.diners - {i})
  }

  function Run(t: Tables, statements: seq<Statement>): Tables
    decreases |statements|
  {
    if statements == [] then t
    else Run(if Valid(Effect(t, statements[0])) then Effect(t, statements[0]) else t, statements[1..])
  }

  lemma {:induction false} RunKeepsConstraints(t: Tables, statements: seq<Statement>)
    requires Valid(t)
    ensures Valid(Run(t, statements))
    decreases |statements|
  {
    if statements != [] {
      RunKeepsConstraints(if Valid(Effect(t, statements[0])) then Effect(t, statements[0]) else t, statements[1..]);
    }
  }

  /** A statement is applied exactly when the tables it leaves meet the constraints; whether they
      do for a new diner, from the rows. */
  lemma DinerIsAppliedExactly(t: Tables, id: int, d: Diner)
    requires Valid(t) && id !in t.diners
    ensures var after := Run(t, [PutDiner(id, d)]);
      if DinerAccepted(d) && d.service in t.services && t.services[d.service].scope == d.scope
         && !(d.slot.Some? && d.email.Some? && exists i :: (i in t.diners && t.diners[i].service == d.service
                && t.diners[i].email == d.email && t.diners[i].slot == d.slot))
      then after.diners == t.diners[id := d] && after.services == t.services else after == t
  {
    var after := Effect(t, PutDiner(id, d));
    RunOne(t, PutDiner(id, d));
    assert after.diners[id] == d;
    if i :| (i in t.diners && t.diners[i].service == d.service
      && t.diners[i].email == d.email && t.diners[i].slot == d.slot)
    {
      assert d.slot.Some? && d.email.Some? ==> !DinersCompatible(after.diners[i], after.diners[id]);
    }
  }

  lemma ServiceIsAppliedExactly(t: Tables, id: int, s: Service)
    requires Valid(t) && id !in t.services
    ensures var after := Run(t, [PutService(id, s)]);
      if ServiceAccepted(s) && !(s.slot.Some? && exists i :: (i in t.services
           && t.services[i].scope.resource == s.scope.resource && t.services[i].slot == s.slot))
      then after.services == t.services[id := s] && after.diners == t.diners else after == t
  {
    var after := Effect(t, PutService(id, s));
    RunOne(t, PutService(id, s));
    assert after.services[id] == s;
    if i :| i in t.services && t.services[i].scope.resource == s.scope.resource && t.services[i].slot == s.slot {
      assert s.slot.Some? ==> !ServicesCompatible(after.services[i], after.services[id]);
    }
  }

  /** A diner row can always go; a service row exactly when no diner names it. */
  lemma DeletionIsAppliedExactly(t: Tables, id: int)
    requires Valid(t)
    ensures Run(t, [DeleteDiner(id)]).services == t.services
    ensures forall i :: i in Run(t, [DeleteDiner(id)]).diners <==> i in t.diners && i != id
    ensures forall i :: i in Run(t, [DeleteDiner(id)]).diners ==> Run(t, [DeleteDiner(id)]).diners[i] == t.diners[i]
    ensures Run(t, [DeleteService(id)]).diners == t.diners
    ensures (exists i :: i in t.diners && t.diners[i].service == id) ==> Run(t, [DeleteService(id)]) == t
    ensures (forall i :: i in t.diners ==> t.diners[i].service != id) ==>
      forall i :: i in Run(t, [DeleteService(id)]).services <==> i in t.services && i != id
    ensures forall i :: i in Run(t, [DeleteService(id)]).services ==>
      Run(t, [DeleteService(id)]).services[i] == t.services[i]
  {
    RunOne(t, DeleteDiner(id));
    RunOne(t, DeleteService(id));
    assert Valid(Effect(t, DeleteDiner(id)));
    if i :| i in t.diners && t.diners[i].service == id {
      assert !ScopesMatch(Effect(t, DeleteService(id)));
    } else {
      assert Valid(Effect(t, DeleteService(id)));
    }
  }

  lemma RunOne(t: Tables, s: Statement)
    ensures Run(t, [s]) == if Valid(Effect(t, s)) then Effect(t, s) else t
  {
    assert [s][1..] == [];
  }

  /** After any run, all diners accepted at one table share one service session and scope; two
      that gave the same email in it are the same diner. */
  lemma OneServicePerTable(statements: seq<Statement>, a: Token, b: Token)
    requires var t := Run(Tables(map[], map[]), statements);
      Resolve(t, a).Accepted? && Resolve(t, b).Accepted? && Resolve(t, a).scope.resource == Resolve(t, b).scope.resource
    ensures var t := Run(Tables(map[], map[]), statements);
      && Resolve(t, a).scope == Resolve(t, b).scope && Resolve(t, a).service == Resolve(t, b).service
      && (t.diners[a.diner].email.Some? && t.diners[a.diner].email == t.diners[b.diner].email ==> a == b)
  {
    var t := Run(Tables(map[], map[]), statements);
    RunKeepsConstraints(Tables(map[], map[]), statements);
    assert a.service != b.service ==> ServicesCompatible(t.services[a.service], t.services[b.service]);
    assert a.diner != b.diner ==> DinersCompatible(t.diners[a.diner], t.diners[b.diner]);
  }

  predicate TwoOpen(t: Tables, i: int, j: int, resource: int) {
    && i in t.services && t.services[i].status.Open? && t.services[i].scope.resource == resource
    && j in t.services && t.services[j].status.Open? && t.services[j].scope.resource == resource && i != j
  }

  /** Status alone does not give this: the constraints admit two OPEN services at one table. */
  lemma StatusIsNotEnough(scope: Scope)
    ensures exists t: Tables, i, j :: Valid(t) && TwoOpen(t, i, j, scope.resource)
  {
    var a := Service(scope, 2, Open, Some(1), Some("digest"), FRESH, None, None);
    var b := a.(slot := None);
    assert ServiceAccepted(a) && ServiceAccepted(b) && ServicesCompatible(a, b) && ServicesCompatible(b, a);
    var t := Tables(map[1 := a, 2 := b], map[]);
    assert Valid(t) && TwoOpen(t, 1, 2, scope.resource);
  }

  // ---------- the lock-out ----------

  const WINDOW := 300
  const LOCKOUT := 300

  /** _reset_failures */
  const FRESH := Guard(0, None, None)

  predicate IsLocked(g: Guard, now: int) {
    g.lockedUntil.Some? && g.lockedUntil.value > now
  }

  /** _record_failure */
  function Failed(g: Guard, now: int): Guard {
    var counted := if g.windowStart.None? || now - g.windowStart.value >= WINDOW
      then g.(windowStart := Some(now), attempts := 1) else g.(attempts := g.attempts + 1);
    if counted.attempts >= 5 then counted.(lockedUntil := Some(now + LOCKOUT)) else counted
  }

  /** Wrong codes given at these times, each compared because no lock was in force. */
  predicate AllCompared(g: Guard, times: seq<int>) {
    times == [] ||
      (AllCompared(g, times[..|times|-1]) && !IsLocked(AfterFailures(g, times[..|times|-1]), times[|times|-1]))
  }

  function AfterFailures(g: Guard, times: seq<int>): Guard {
    if times == [] then g else Failed(AfterFailures(g, times[..|times|-1]), times[|times|-1])
  }

  predicate Ascending(times: seq<int>) {
    forall i, j :: 0 <= i < j < |times| ==> times[i] <= times[j]
  }

  /** How the guard bounds the failures so far: five for each window before the current one,
      and a window with five is locked past its end. */
  predicate Bounded(g: Guard, count: nat, first: int, last: int) {
    && g.windowStart.Some? && first <= g.windowStart.value <= last && 1 <= g.attempts <= 5
    && count <= 5 * ((g.windowStart.value - first) / WINDOW) + g.attempts
    && (g.attempts == 5 ==> g.lockedUntil.Some? && g.lockedUntil.value >= g.windowStart.value + WINDOW)
  }

  lemma FailureKeepsBound(g: Guard, count: nat, first: int, last: int, now: int)
    requires Bounded(g, count, first, last) && last <= now && !IsLocked(g, now)
    ensures Bounded(Failed(g, now), count + 1, first, now)
  {
  }

  lemma {:induction false} FailuresAreBounded(times: seq<int>)
    requires times != [] && Ascending(times) && AllCompared(FRESH, times)
    ensures Bounded(AfterFailures(FRESH, times), |times|, times[0], times[|times|-1])
  {
    var before, now := times[..|times|-1], times[|times|-1];
    if before != [] {
      FailuresAreBounded(before);
      FailureKeepsBound(AfterFailures(FRESH, before), |before|, times[0], before[|before|-1], now);
    }
  }

  /** Within five minutes from the first wrong code, four never lock and the fifth does, for
      five minutes from itself and no longer. */
  lemma FifthFailureLocks(times: seq<int>, now: int)
    requires |times| == 5 && Ascending(times) && times[4] - times[0] < WINDOW
    ensures forall n :: 0 <= n <= 4 ==> !IsLocked(AfterFailures(FRESH, times[..n]), now)
    ensures IsLocked(AfterFailures(FRESH, times), now) <==> now < times[4] + LOCKOUT
  {
    CountsInWindow(times[..4]);
    assert times[..5] == times && times[..4][..4] == times[..4];
    forall n | 0 <= n <= 4 ensures !IsLocked(AfterFailures(FRESH, times[..n]), now) {
      if n > 0 {
        assert times[..n][0] == times[0] && times[..n][|times[..n]|-1] == times[n-1] <= times[4];
        CountsInWindow(times[..n]);
      }
    }
  }

  /** Up to four wrong codes in one window are only counted. */
  lemma {:induction false} CountsInWindow(times: seq<int>)
    requires 1 <= |times| <= 4 && Ascending(times) && times[|times|-1] - times[0] < WINDOW
    ensures AfterFailures(FRESH, times) == Guard(|times|, Some(times[0]), None)
  {
    if |times| > 1 { CountsInWindow(times[..|times|-1]); }
  }

  /** A wrong code five minutes or more after the window began starts the count again. */
  lemma WindowRestarts(g: Guard, now: int)
    requires g.windowStart.Some? && now >= g.windowStart.value + WINDOW
    ensures Failed(g, now).attempts == 1 && Failed(g, now).windowStart == Some(now)
    ensures Failed(g, now).lockedUntil == g.lockedUntil
  {
  }

  /** However wrong codes are spread, at most five are compared for each started five minutes
      since the first of them. */
  lemma FailureRate(times: seq<int>)
    requires times != [] && Ascending(times) && AllCompared(FRESH, times)
    ensures |times| <= 5 * ((times[|times|-1] - times[0]) / WINDOW + 1)
  {
    FailuresAreBounded(times);
  }

  // ---------- the transactions ----------

  function ActiveDiners(diners: map<int, Diner>, service: int): set<int> {
    set i | i in diners && diners[i].service == service && diners[i].slot == Some(1)
  }

  /** No service session holds more active diners than its party size. */
  predicate WithinCapacity(t: Tables) {
    forall s :: s in t.services ==> |ActiveDiners(t.diners, s)| <= t.services[s].partySize
  }

  datatype Joined =
    DinerJoined | InvalidJoin | JoinLocked(retryAfter: int) | Unavailable | CapacityConflict | DuplicateIdentity

  datatype Resizing = PartyResized | InvalidSize | ServiceNotFound | ServiceIsClosed | SizeBelowDiners
  datatype Finished = Finished | NotAuthorized | NotFound | AlreadyClosed | ChecksForbid

  /** An accepted token of an ended diner or service is answered SESSION_CLOSED from then on. */
  function AnswerAfter(before: Tables, token: Token, ended: bool): Answer {
    if ended && Resolve(before, token).Accepted? then SessionClosed else Resolve(before, token)
  }

  predicate OfTenant(t: Tables, tenant: int, service: int) {
    service in t.services && t.services[service].scope.tenant == tenant
  }

  predicate IsOpen(t: Tables, service: int) {
    service in t.services && t.services[service].status.Open?
  }

  /** The code given is compared with the digest. */
  predicate Compares(t: Tables, service: int, now: int) {
    IsOpen(t, service) && !IsLocked(t.services[service].guard, now)
  }

  predicate Admits(t: Tables, service: int, digest: string, now: int) {
    Compares(t, service, now) && t.services[service].digest == Some(digest)
  }

  /** A wrong code that does not bring the lock-out. */
  predicate IsWrongCode(t: Tables, service: int, digest: string, now: int) {
    && Compares(t, service, now) && !Admits(t, service, digest, now)
    && !IsLocked(Failed(t.services[service].guard, now), now)
  }

  predicate IsFull(t: Tables, service: int)
    requires service in t.services
  {
    |ActiveDiners(t.diners, service)| == t.services[service].partySize
  }

  predicate HasEmail(diners: map<int, Diner>, service: int, email: Option<string>) {
    exists i :: i in diners && i in ActiveDiners(diners, service) && diners[i].email == email
  }

  predicate MayEnd(t: Tables, tenant: int, service: int, diner: int) {
    && OfTenant(t, tenant, service) && IsOpen(t, service)
    && diner in t.diners && t.diners[diner].service == service
    && t.diners[diner].scope.tenant == tenant && t.diners[diner].status.Active?
  }

  /** The Retry-After header: the first whole second at which the lock is surely over, and one
      more, but never more than the lock-out. */
  function RetryAfter(g: Guard, now: int): (seconds: int)
    requires IsLocked(g, now)
    ensures 1 <= seconds <= 300 && (IsLocked(g, now + 299) ==> seconds == 300)
    ensures !IsLocked(g, now + 299) ==> !IsLocked(g, now + seconds - 1) && IsLocked(g, now + seconds - 2)
  {
    if g.lockedUntil.value - now + 1 > 300 then 300 else g.lockedUntil.value - now + 1
  }

  function WithGuard(services: map<int, Service>, service: int, g: Guard): map<int, Service>
    requires service in services
  {
    services[service := services[service].(guard := g)]
  }

  function Resized(t: Tables, service: int, size: int): Tables
    requires service in t.services
  {
    t.(services := t.services[service := t.services[service].(partySize := size)])
  }

  function EndedDiner(d: Diner, now: int): Diner {
    d.(status := Ended, slot := None, endedAt := Some(now))
  }

  /** One service's failure counters are set, and nothing else. */
  ghost predicate OnlyGuardSet(a: map<int, Service>, b: map<int, Service>, service: int, g: Guard) {
    && (forall i :: i in a <==> i in b) && (forall i :: i in a && i != service ==> b[i] == a[i])
    && service in a && b[service].guard == g && b[service].scope == a[service].scope
    && b[service].partySize == a[service].partySize && b[service].status == a[service].status
    && b[service].slot == a[service].slot && b[service].digest == a[service].digest
    && b[service].closedAt == a[service].closedAt && b[service].closedBy == a[service].closedBy
  }

  /** One service's party size is set, and nothing else. */
  ghost predicate OnlySizeSet(a: map<int, Service>, b: map<int, Service>, service: int, size: int) {
    && (forall i :: i in a <==> i in b) && (forall i :: i in a && i != service ==> b[i] == a[i])
    && service in a && b[service].partySize == size && b[service].scope == a[service].scope
    && b[service].status == a[service].status && b[service].slot == a[service].slot
    && b[service].digest == a[service].digest && b[service].guard == a[service].guard
    && b[service].closedAt == a[service].closedAt && b[service].closedBy == a[service].closedBy
  }

  /** These diners have ended now, and no other row has changed. */
  ghost predicate OnlyEnded(a: map<int, Diner>, b: map<int, Diner>, ended: set<int>, now: int) {
    && (forall i :: i in a <==> i in b)
    && forall i :: i in a ==>
         if i in ended then
           && b[i].scope == a[i].scope && b[i].service == a[i].service && b[i].email == a[i].email
           && b[i].status.Ended? && b[i].slot.None? && b[i].endedAt == Some(now)
         else b[i] == a[i]
  }

  /** This service is closed now by the member, and no other row has changed. */
  ghost predicate IsClosing(a: map<int, Service>, b: map<int, Service>, service: int, member: int, now: int) {
    && (forall i :: i in a <==> i in b) && (forall i :: i in a && i != service ==> b[i] == a[i])
    && service in a
    && b[service].scope == a[service].scope && b[service].partySize == a[service].partySize
    && b[service].status.Closed? && b[service].slot.None? && b[service].digest.None? && b[service].guard == FRESH
    && b[service].closedAt == Some(now) && b[service].closedBy == Some(member)
  }

  predicate EndedVersion(a: Diner, b: Diner) {
    b == a || (b.slot.None? && DinerAccepted(b) && b.service == a.service && b.scope == a.scope)
  }

  class ServiceSessions {
    var tables: Tables

    constructor ()
      ensures tables == Tables(map[], map[]) && Valid(tables) && WithinCapacity(tables)
    {
      tables := Tables(map[], map[]);
    }

    /** join_diner: `digest` is what the given access code hashes to, `tableLocked` whether a
        check holds the table.  A wrong code is counted, a right one resets the counter.  The
        commit always succeeds: the duplicate query has already ruled out the unique email. */
    method Join(service: int, id: int, email: Option<string>, digest: string, tableLocked: bool, now: int)
      returns (r: Joined)
      requires Valid(tables) && WithinCapacity(tables) && id !in tables.diners
      modifies this
      ensures Valid(tables) && WithinCapacity(tables)
      ensures r.InvalidJoin? <==> !IsOpen(old(tables), service) || IsWrongCode(old(tables), service, digest, now)
      ensures r.JoinLocked? <==>
        IsOpen(old(tables), service) && !Admits(old(tables), service, digest, now) && !r.InvalidJoin?
      ensures r.JoinLocked? ==> 1 <= r.retryAfter <= 300
      ensures r.JoinLocked? && Compares(old(tables), service, now) ==> r.retryAfter == 300
      ensures r.JoinLocked? && !Compares(old(tables), service, now) ==>
        r.retryAfter == RetryAfter(old(tables).services[service].guard, now)
      ensures r.Unavailable? <==> Admits(old(tables), service, digest, now) && tableLocked
      ensures r.CapacityConflict? <==>
        Admits(old(tables), service, digest, now) && !tableLocked && IsFull(old(tables), service)
      ensures r.DuplicateIdentity? ==> email.Some? && HasEmail(old(tables).diners, service, email)
      ensures r.DinerJoined? ==> email.None? || !HasEmail(old(tables).diners, service, email)
      ensures tables.diners == if r.DinerJoined?
        then old(tables).diners[id := Diner(old(tables).services[service].scope, service, email, Active, Some(1), None)]
        else old(tables).diners
      ensures if Compares(old(tables), service, now) && !r.Unavailable?
        then OnlyGuardSet(old(tables).services, tables.services, service,
          if Admits(old(tables), service, digest, now) then FRESH else Failed(old(tables).services[service].guard, now))
        else tables.services == old(tables).services
    {
      if service !in tables.services || tables.services[service].status != Open { return InvalidJoin; }
      var g := tables.services[service].guard;
      if g.lockedUntil.Some? && g.lockedUntil.value > now { return JoinLocked(RetryAfter(g, now)); }
      if tables.services[service].digest != Some(digest) {
        GuardChangeKeepsConstraints(tables, service, Failed(g, now));
        tables := tables.(services := WithGuard(tables.services, service, Failed(g, now)));
        var failed := Failed(g, now);
        return if failed.lockedUntil.Some? && failed.lockedUntil.value > now then JoinLocked(300) else InvalidJoin;
      }
      if tableLocked { return Unavailable; }
      GuardChangeKeepsConstraints(tables, service, FRESH);
      tables := tables.(services := WithGuard(tables.services, service, FRESH));
      if |ActiveDiners(tables.diners, service)| >= tables.services[service].partySize { return CapacityConflict; }
      if email.Some? && exists i :: (i in tables.diners && tables.diners[i].service == service
        && tables.diners[i].email == email && tables.diners[i].slot == Some(1))
      {
        return DuplicateIdentity;
      }
      var row := Diner(tables.services[service].scope, service, email, Active, Some(1), None);
      JoinKeepsConstraints(tables, id, row);
      tables := tables.(diners := tables.diners[id := row]);
      r := DinerJoined;
    }

    /** update_party_size */
    method UpdatePartySize(tenant: int, service: int, size: int) returns (r: Resizing)
      requires Valid(tables) && WithinCapacity(tables)
      modifies this
      ensures Valid(tables) && WithinCapacity(tables)
      ensures r.PartyResized? <==>
        && 1 <= size <= 999 && service in old(tables).services && old(tables).services[service].scope.tenant == tenant
        && old(tables).services[service].status.Open? && |ActiveDiners(old(tables).diners, service)| <= size
      ensures tables.diners == old(tables).diners
      ensures if r.PartyResized? then OnlySizeSet(old(tables).services, tables.services, service, size)
        else tables.services == old(tables).services
    {
      if !(1 <= size <= 999) { return InvalidSize; }
      if service !in tables.services || tables.services[service].scope.tenant != tenant { return ServiceNotFound; }
      if !tables.services[service].status.Open? { return ServiceIsClosed; }
      if size < |ActiveDiners(tables.diners, service)| { return SizeBelowDiners; }
      var before := tables;
      tables := Resized(tables, service, size);
      ServiceChangeKeepsConstraints(before, service, tables.services[service]);
      r := PartyResized;
    }

    /** end_diner_session; `checksForbid` is what the check service answers for the diner. */
    method EndDiner(tenant: int, service: int, diner: int, checksForbid: bool, now: int) returns (r: Finished)
      requires Valid(tables) && WithinCapacity(tables)
      modifies this
      ensures Valid(tables) && WithinCapacity(tables)
      ensures r.NotAuthorized? <==> !MayEnd(old(tables), tenant, service, diner)
      ensures r.ChecksForbid? <==> MayEnd(old(tables), tenant, service, diner) && checksForbid
      ensures r.Finished? <==> MayEnd(old(tables), tenant, service, diner) && !checksForbid
      ensures forall token: Token ::
        Resolve(tables, token) == AnswerAfter(old(tables), token, r.Finished? && token.diner == diner)
      ensures old(Resolve(tables, Token(diner, tenant, service)).Accepted?) ==> r.Finished? || r.ChecksForbid?
      ensures tables.services == old(tables).services
      ensures r.Finished? ==> OnlyEnded(old(tables).diners, tables.diners, {diner}, now)
      ensures !r.Finished? ==> tables == old(tables)
    {
      if service !in tables.services { return NotAuthorized; }
      if tables.services[service].scope.tenant != tenant || tables.services[service].status != Open {
        return NotAuthorized;
      }
      if diner !in tables.diners || tables.diners[diner].service != service { return NotAuthorized; }
      if tables.diners[diner].scope.tenant != tenant || tables.diners[diner].status != Active { return NotAuthorized; }
      if checksForbid { return ChecksForbid; }
      var diners := tables.diners[diner := EndedDiner(tables.diners[diner], now)];
      EndingKeepsConstraints(tables, diners);
      tables := tables.(diners := diners);
      r := Finished;
    }

    method EndAll(active: seq<int>, now: int)
      requires forall i :: i in active ==> i in tables.diners
      modifies this
      ensures tables.services == old(tables).services && tables.diners.Keys == old(tables).diners.Keys
      ensures forall i :: i in tables.diners ==>
        tables.diners[i] == if i in active then EndedDiner(old(tables).diners[i], now) else old(tables).diners[i]
    {
      for k := 0 to |active|
        invariant tables.services == old(tables).services && tables.diners.Keys == old(tables).diners.Keys
        invariant forall i :: i in tables.diners ==>
          tables.diners[i] == if i in active[..k] then EndedDiner(old(tables).diners[i], now) else old(tables).diners[i]
      {
        var i := active[k];
        assert i in active;
        tables := tables.(diners := tables.diners[i := EndedDiner(tables.diners[i], now)]);
        assert active[..k + 1] == active[..k] + [i];
      }
      assert active[..|active|] == active;
    }

    /** close_service_session; `checksForbid` is what the check service answers for the table and
        `active` the locking query, the ids of the service's active diners. */
    method CloseService(tenant: int, service: int, member: int, checksForbid: bool, active: seq<int>, now: int)
      returns (r: Finished)
      requires Valid(tables) && WithinCapacity(tables)
      requires forall i :: i in active <==> i in ActiveDiners(tables.diners, service)
      modifies this
      ensures Valid(tables) && WithinCapacity(tables)
      ensures r.NotFound? <==> !OfTenant(old(tables), tenant, service)
      ensures r.AlreadyClosed? <==> OfTenant(old(tables), tenant, service) && !IsOpen(old(tables), service)
      ensures r.ChecksForbid? <==>
        OfTenant(old(tables), tenant, service) && IsOpen(old(tables), service) && checksForbid
      ensures r.Finished? <==> OfTenant(old(tables), tenant, service) && IsOpen(old(tables), service) && !checksForbid
      ensures forall token: Token ::
        Resolve(tables, token) == AnswerAfter(old(tables), token, r.Finished? && token.service == service)
      ensures r.Finished? ==> ActiveDiners(tables.diners, service) == {}
      ensures r.Finished? ==>
        && OnlyEnded(old(tables).diners, tables.diners, ActiveDiners(old(tables).diners, service), now)
        && IsClosing(old(tables).services, tables.services, service, member, now)
      ensures !r.Finished? ==> tables == old(tables)
    {
      if service !in tables.services || tables.services[service].scope.tenant != tenant { return NotFound; }
      if tables.services[service].status != Open { return AlreadyClosed; }
      if checksForbid { return ChecksForbid; }
      ghost var before := tables;
      EndAll(active, now);
      AllEnded(before.diners, tables.diners, service, active, now);
      EndingKeepsConstraints(before, tables.diners);
      var s := tables.services[service].(
        status := Closed, slot := None, digest := None, guard := FRESH,
        closedAt := Some(now), closedBy := Some(member));
      ServiceChangeKeepsConstraints(tables, service, s);
      tables := tables.(services := tables.services[service := s]);
      r := Finished;
      forall token: Token ensures Resolve(tables, token) == AnswerAfter(before, token, token.service == service) {
        AnswersAfterClosing(before, tables, service, s, token);
      }
    }
  }

  lemma AllEnded(before: map<int, Diner>, after: map<int, Diner>, service: int, active: seq<int>, now: int)
    requires before.Keys == after.Keys && forall i :: i in active <==> i in ActiveDiners(before, service)
    requires forall i :: i in after ==> after[i] == if i in active then EndedDiner(before[i], now) else before[i]
    ensures ActiveDiners(after, service) == {}
  {
    forall i | i in after ensures i !in ActiveDiners(after, service) {
      if i !in active { assert i !in ActiveDiners(before, service); }
    }
  }

  lemma AnswersAfterClosing(before: Tables, after: Tables, service: int, closed: Service, token: Token)
    requires service in before.services && closed.status.Closed? && closed.scope == before.services[service].scope
    requires after.services == before.services[service := closed] && after.diners.Keys == before.diners.Keys
    requires forall i :: i in after.diners ==> EndedVersion(before.diners[i], after.diners[i])
    requires forall i :: i in after.diners && after.diners[i] != before.diners[i] ==>
      before.diners[i].service == service && LiveDiner(before.diners[i])
    requires Valid(before)
    ensures Resolve(after, token) == AnswerAfter(before, token, token.service == service)
  {
  }

  lemma NewDinerCompatible(diners: map<int, Diner>, row: Diner)
    requires DinersValid(diners)
    requires row.email.Some? ==> forall i :: i in ActiveDiners(diners, row.service) ==> diners[i].email != row.email
    ensures forall i :: i in diners ==> DinersCompatible(diners[i], row) && DinersCompatible(row, diners[i])
  {
  }

  lemma JoinKeepsConstraints(t: Tables, id: int, row: Diner)
    requires Valid(t) && WithinCapacity(t) && id !in t.diners && row.service in t.services
    requires row == Diner(t.services[row.service].scope, row.service, row.email, Active, Some(1), None)
    requires |ActiveDiners(t.diners, row.service)| < t.services[row.service].partySize
    requires row.email.Some? ==> forall i :: i in ActiveDiners(t.diners, row.service) ==> t.diners[i].email != row.email
    ensures Valid(t.(diners := t.diners[id := row])) && WithinCapacity(t.(diners := t.diners[id := row]))
  {
    NewDinerCompatible(t.diners, row);
    assert DinerAccepted(row);
    JoinKeepsCapacity(t, id, row);
  }

  lemma JoinKeepsCapacity(t: Tables, id: int, row: Diner)
    requires WithinCapacity(t) && id !in t.diners && row.slot == Some(1) && row.service in t.services
    requires |ActiveDiners(t.diners, row.service)| < t.services[row.service].partySize
    ensures WithinCapacity(t.(diners := t.diners[id := row]))
  {
    var after := t.diners[id := row];
    forall s | s in t.services ensures |ActiveDiners(after, s)| <= t.services[s].partySize {
      assert ActiveDiners(after, s) == ActiveDiners(t.diners, s) + if s == row.service then {id} else {};
    }
  }

  /** Ending diners never breaks a constraint and never raises a count. */
  lemma EndingKeepsConstraints(t: Tables, diners: map<int, Diner>)
    requires Valid(t) && WithinCapacity(t) && diners.Keys == t.diners.Keys
    requires forall i :: i in diners ==> EndedVersion(t.diners[i], diners[i])
    ensures Valid(t.(diners := diners)) && WithinCapacity(t.(diners := diners))
  {
    forall s | s in t.services ensures |ActiveDiners(diners, s)| <= t.services[s].partySize {
      assert forall i :: i in diners && diners[i].slot.Some? ==> diners[i] == t.diners[i];
      SubsetSize(ActiveDiners(diners, s), ActiveDiners(t.diners, s));
    }
    forall i, j | i in diners && j in diners && i != j ensures DinersCompatible(diners[i], diners[j]) {
      assert DinersCompatible(t.diners[i], t.diners[j]);
    }
  }

  lemma {:induction false} SubsetSize(a: set<int>, b: set<int>)
    requires a <= b
    ensures |a| <= |b|
  {
    assert b == a + (b - a);
  }

  lemma ServiceChangeKeepsConstraints(t: Tables, id: int, s: Service)
    requires Valid(t) && WithinCapacity(t) && id in t.services && ServiceAccepted(s) && s.scope == t.services[id].scope
    requires s.slot.Some? ==> s.slot == t.services[id].slot
    requires |ActiveDiners(t.diners, id)| <= s.partySize
    ensures Valid(t.(services := t.services[id := s])) && WithinCapacity(t.(services := t.services[id := s]))
  {
  }

  lemma GuardChangeKeepsConstraints(t: Tables, id: int, g: Guard)
    requires Valid(t) && WithinCapacity(t) && id in t.services && g.attempts >= 0
    ensures Valid(t.(services := WithGuard(t.services, id, g)))
    ensures WithinCapacity(t.(services := WithGuard(t.services, id, g)))
  {
    ServiceChangeKeepsConstraints(t, id, t.services[id].(guard := g));
  }
}
