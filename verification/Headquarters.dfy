/** Organizations, their locations and their headquarters: the shared assignment routine, the
    routes and provisioning steps that call it, and the history it writes. */
module Headquarters {
  import opened Sql

  datatype Organization = Organization(tenant: int, active: bool, headquarters: Option<int>)
  datatype Location = Location(tenant: int, organization: int, active: bool)

  /** A row of `organization_headquarters_changes`. */
  datatype Change = Change(tenant: int, organization: int, previous: Option<int>, next: int, operation: string)

  datatype Store = Store(
    organizations: map<int, Organization>, locations: map<int, Location>, changes: seq<Change>)

  // ---------- the constraints ----------

  /** The location exists and carries the organization's id and tenant. */
  predicate InScope(s: Store, o: int, l: int) {
    && o in s.organizations && l in s.locations
    && s.locations[l].organization == o && s.locations[l].tenant == s.organizations[o].tenant
  }

  /** fk_organizations_headquarters_scope; a location belongs to an organization of its tenant. */
  predicate KeysHold(s: Store) {
    && (forall o :: o in s.organizations && s.organizations[o].headquarters.Some? ==>
          InScope(s, o, s.organizations[o].headquarters.value))
    && (forall l :: l in s.locations ==> InScope(s, s.locations[l].organization, l))
  }

  /** uq_headquarters_changes_operation */
  predicate OperationTaken(s: Store, tenant: int, operation: string) {
    exists k :: 0 <= k < |s.changes| && s.changes[k].tenant == tenant && s.changes[k].operation == operation
  }

  // ---------- what every run keeps ----------

  predicate HasActiveHeadquarters(s: Store, o: int)
    requires o in s.organizations
  {
    && s.organizations[o].headquarters.Some?
    && s.organizations[o].headquarters.value in s.locations && s.locations[s.organizations[o].headquarters.value].active
  }

  /** An ACTIVE organization has an ACTIVE headquarters, unless it has none at all and was
      already ACTIVE without one when the column was introduced. */
  predicate ActiveAreServed(s: Store, legacy: set<int>) {
    forall o :: o in s.organizations && s.organizations[o].active ==>
      HasActiveHeadquarters(s, o) || (o in legacy && s.organizations[o].headquarters.None?)
  }

  /** Replays an organization's rows from its first headquarters. */
  function Replayed(changes: seq<Change>, o: int, first: Option<int>): Option<int> {
    if changes == [] then first
    else if changes[|changes|-1].organization == o then Some(changes[|changes|-1].next)
    else Replayed(changes[..|changes|-1], o, first)
  }

  function FirstOf(first: map<int, Option<int>>, o: int): Option<int> {
    if o in first then first[o] else None
  }

  /** Each row starts where the previous one of its organization ended, and goes elsewhere. */
  predicate Chained(changes: seq<Change>, first: map<int, Option<int>>) {
    forall k :: 0 <= k < |changes| ==>
      && changes[k].previous == Replayed(changes[..k], changes[k].organization, FirstOf(first, changes[k].organization))
      && changes[k].previous != Some(changes[k].next)
  }

  predicate LogIsFaithful(s: Store, first: map<int, Option<int>>) {
    && Chained(s.changes, first)
    && (forall o :: o in s.organizations ==>
          Replayed(s.changes, o, FirstOf(first, o)) == s.organizations[o].headquarters)
    && (forall k :: 0 <= k < |s.changes| ==> s.changes[k].organization in s.organizations)
    && (forall j, k :: 0 <= j < k < |s.changes| ==>
          s.changes[j].tenant != s.changes[k].tenant || s.changes[j].operation != s.changes[k].operation)
  }

  /** What migration 0069 left: each organization's first headquarters, and which ones were
      ACTIVE without one. */
  datatype Origin = Origin(first: map<int, Option<int>>, legacy: set<int>)

  predicate Inv(s: Store, origin: Origin) {
    && KeysHold(s) && ActiveAreServed(s, origin.legacy) && LogIsFaithful(s, origin.first)
    && origin.legacy <= origin.first.Keys <= s.organizations.Keys
  }

  // ---------- migration 0069 ----------

  predicate IsOnlyActive(s: Store, o: int, l: int) {
    && InScope(s, o, l) && s.locations[l].active
    && forall m :: m in s.locations && InScope(s, o, m) && s.locations[m].active ==> m == l
  }

  /** The one ACTIVE row with these tenant and organization ids. */
  predicate IsOnlyRow(locations: map<int, Location>, tenant: int, o: int, l: int) {
    && l in locations && locations[l] == Location(tenant, o, true)
    && forall m :: m in locations && locations[m] == Location(tenant, o, true) ==> m == l
  }

  lemma OnlyActiveMeaning(s: Store, o: int, l: int)
    requires o in s.organizations
    ensures IsOnlyActive(s, o, l) <==> IsOnlyRow(s.locations, s.organizations[o].tenant, o, l)
  {
  }

  /** The grouped subquery: MAX(id) HAVING COUNT(*) = 1. */
  function Candidate(s: Store, o: int): Option<int> {
    if exists l :: l in s.locations && IsOnlyActive(s, o, l)
    then var l :| l in s.locations && IsOnlyActive(s, o, l); Some(l)
    else None
  }

  function Backfilled(s: Store): Store {
    s.(organizations := map o | o in s.organizations :: s.organizations[o].(headquarters := Candidate(s, o)))
  }

  function OriginOf(s: Store): Origin {
    Origin(
      map o | o in s.organizations :: s.organizations[o].headquarters,
      set o | o in s.organizations && s.organizations[o].active && s.organizations[o].headquarters.None?)
  }

  // ---------- one change of headquarters, as a function ----------

  function Reassigned(s: Store, o: int, l: int, operation: string, deactivatePrevious: bool): Store
    requires o in s.organizations
  {
    var org := s.organizations[o];
    Store(
      s.organizations[o := org.(headquarters := Some(l))],
      if deactivatePrevious && org.headquarters.Some? && org.headquarters.value in s.locations
      then s.locations[org.headquarters.value := s.locations[org.headquarters.value].(active := false)]
      else s.locations,
      s.changes + [Change(org.tenant, o, org.headquarters, l, operation)])
  }

  /** What a move leaves, field by field: the headquarters; the previous location's status, and
      nobody else's; one history row. */
  predicate IsMove(a: Store, b: Store, o: int, l: int, operation: string, deactivatePrevious: bool) {
    && o in a.organizations && a.organizations.Keys == b.organizations.Keys && a.locations.Keys == b.locations.Keys
    && b.organizations[o].headquarters == Some(l)
    && b.organizations[o].tenant == a.organizations[o].tenant && b.organizations[o].active == a.organizations[o].active
    && (forall p :: p in a.organizations && p != o ==> b.organizations[p] == a.organizations[p])
    && (forall m :: m in a.locations ==>
          && b.locations[m].tenant == a.locations[m].tenant
          && b.locations[m].organization == a.locations[m].organization
          && (b.locations[m].active <==>
                a.locations[m].active && !(deactivatePrevious && a.organizations[o].headquarters == Some(m))))
    && |b.changes| == |a.changes| + 1 && a.changes <= b.changes
    && var row := b.changes[|a.changes|];
       && row.tenant == a.organizations[o].tenant && row.organization == o
       && row.previous == a.organizations[o].headquarters && row.next == l && row.operation == operation
  }

  datatype Assignment =
    | OutsideScope | TargetInactive | NeedsReplacement | PreviousOutsideScope   // OrganizationLocationConflictError
    | Duplicate                                                                  // IntegrityError on the operation id
    | Unchanged
    | Moved

  datatype Answer = Ok | NotFound | Conflict | Refused

  /** A committed request: ids are those the database hands out, `manageable` the locations
      where the actor holds location.manage, `creatorHasRole` whether the creator of a location
      has any tenant role, `matches` whether the rows the bootstrap finds agree with its contract. */
  datatype Request =
    | CreateOrganization(id: int, tenant: int)
    | UpdateOrganization(tenant: int, organization: int, status: Option<bool>)
    | UpdateHeadquarters(tenant: int, organization: int, location: int, operation: string, deactivatePrevious: bool,
                         manageable: set<int>)
    | CreateLocation(tenant: int, organization: int, newLocation: int, operation: string, creatorHasRole: bool)
    | UpdateLocation(tenant: int, location: int, status: Option<bool>)
    | ProvisionCore(tenant: int, newOrganization: int, newLocation: int, operation: string)
    | BootstrapPilot(tenant: int, foundOrganization: Option<int>, foundLocation: Option<int>,
                     newOrganization: int, newLocation: int, operation: string, matches: bool)

  predicate IsFreshOrganization(s: Store, o: int) {
    o !in s.organizations && forall l :: l in s.locations ==> s.locations[l].organization != o
  }

  /** The organization exists in the tenant. */
  predicate Owns(s: Store, tenant: int, o: int) {
    o in s.organizations && s.organizations[o].tenant == tenant
  }

  predicate HasActiveLocation(s: Store, o: int) {
    exists l :: l in s.locations && InScope(s, o, l) && s.locations[l].active
  }

  /** The actor may move the headquarters: location.manage at the target and at the current one. */
  predicate MayMove(s: Store, o: int, l: int, manageable: set<int>)
    requires o in s.organizations
  {
    l in manageable && (s.organizations[o].headquarters.Some? ==> s.organizations[o].headquarters.value in manageable)
  }

  // ---------- what each request does to the store ----------

  function WithOrganization(s: Store, o: int, tenant: int): Store {
    s.(organizations := s.organizations[o := Organization(tenant, false, None)])
  }

  function WithLocation(s: Store, o: int, l: int, tenant: int): Store {
    s.(locations := s.locations[l := Location(tenant, o, true)])
  }

  function WithStatus(s: Store, o: int, active: bool): Store
    requires o in s.organizations
  {
    s.(organizations := s.organizations[o := s.organizations[o].(active := active)])
  }

  function WithLocationStatus(s: Store, l: int, active: bool): Store
    requires l in s.locations
  {
    s.(locations := s.locations[l := s.locations[l].(active := active)])
  }

  /** The headquarters of `o` moves to `l`, unless it is there already. */
  function MovedTo(s: Store, o: int, l: int, operation: string, deactivatePrevious: bool): Store
    requires o in s.organizations
  {
    if s.organizations[o].headquarters == Some(l) then s else Reassigned(s, o, l, operation, deactivatePrevious)
  }

  /** Once the target is in scope, ACTIVE and allowed: only a repeat that asks to deactivate, or
      a move under a used operation id, is refused. */
  predicate CanMove(s: Store, o: int, l: int, operation: string, deactivatePrevious: bool)
    requires InScope(s, o, l)
  {
    s.locations[l].active &&
    if s.organizations[o].headquarters == Some(l) then !deactivatePrevious
    else !OperationTaken(s, s.organizations[o].tenant, operation)
  }

  /** A new location would become the headquarters, under an operation id already used. */
  predicate NeedsTakenOperation(s: Store, tenant: int, o: int, operation: string)
    requires o in s.organizations
  {
    s.organizations[o].headquarters.None? && !HasActiveLocation(s, o) && OperationTaken(s, tenant, operation)
  }

  function AfterNewLocation(s: Store, tenant: int, o: int, l: int, operation: string): Store
    requires o in s.organizations
  {
    var added := WithLocation(s, o, l, tenant);
    if s.organizations[o].headquarters.Some? || HasActiveLocation(s, o) then added
    else if OperationTaken(s, tenant, operation) then s
    else Reassigned(added, o, l, operation, false)
  }

  function AfterProvisioning(s: Store, tenant: int, o: int, l: int, operation: string): Store {
    Store(
      s.organizations[o := Organization(tenant, true, Some(l))],
      s.locations[l := Location(tenant, o, true)],
      s.changes + [Change(tenant, o, None, l, operation)])
  }

  function Ready(s: Store, tenant: int, organizationFound: bool, locationFound: bool, o: int, l: int): Store {
    var withOrganization := if organizationFound then s else WithOrganization(s, o, tenant);
    if locationFound then withOrganization else WithLocation(withOrganization, o, l, tenant)
  }

  function Pick(found: Option<int>, created: int): int {
    if found.Some? then found.value else created
  }

  /** The bootstrap with its organization and location found, found only the first, or neither. */
  function AfterBootstrap(s: Store, tenant: int, foundOrganization: Option<int>, foundLocation: Option<int>,
                          newOrganization: int, newLocation: int, operation: string): Store {
    var o := Pick(foundOrganization, newOrganization);
    var l := Pick(foundLocation, newLocation);
    if foundOrganization.Some? && !(o in s.organizations && s.organizations[o].active) then s
    else if foundLocation.Some? && !(l in s.locations && s.locations[l].active) then s
    else Settled(s, Ready(s, tenant, foundOrganization.Some?, foundLocation.Some?, o, l), o, l, operation)
  }

  /** `ready` with its headquarters settled and the organization ACTIVE, or `s` when that fails. */
  function Settled(s: Store, ready: Store, o: int, l: int, operation: string): Store {
    if o !in ready.organizations then s
    else
      var headquarters := ready.organizations[o].headquarters;
      if headquarters.Some? && headquarters != Some(l) then s
      else if headquarters.None? && OperationTaken(ready, ready.organizations[o].tenant, operation) then s
      else WithStatus(MovedTo(ready, o, l, operation, false), o, true)
  }

  /** The committed store after a request; a refused request leaves it as it was. */
  function Applied(s: Store, q: Request): Store {
    match q
    case CreateOrganization(id, tenant) => WithOrganization(s, id, tenant)
    case UpdateOrganization(tenant, o, status) =>
      if Owns(s, tenant, o) && status.Some? && (status.value ==> HasActiveHeadquarters(s, o))
        then WithStatus(s, o, status.value) else s
    case UpdateHeadquarters(tenant, o, l, operation, deactivatePrevious, manageable) =>
      if Owns(s, tenant, o) && InScope(s, o, l) && MayMove(s, o, l, manageable)
        && CanMove(s, o, l, operation, deactivatePrevious)
      then MovedTo(s, o, l, operation, deactivatePrevious)
      else s
    case CreateLocation(tenant, o, l, operation, creatorHasRole) =>
      if Owns(s, tenant, o) && creatorHasRole then AfterNewLocation(s, tenant, o, l, operation) else s
    case UpdateLocation(tenant, l, status) =>
      if l in s.locations && s.locations[l].tenant == tenant && status.Some?
        && (status.value || !IsServing(s, l))
      then WithLocationStatus(s, l, status.value)
      else s
    case ProvisionCore(tenant, o, l, operation) =>
      if OperationTaken(s, tenant, operation) then s else AfterProvisioning(s, tenant, o, l, operation)
    case BootstrapPilot(tenant, fo, fl, o, l, operation, matches) =>
      if matches then AfterBootstrap(s, tenant, fo, fl, o, l, operation) else s
  }

  /** The location is the headquarters of an ACTIVE organization, its own. */
  predicate IsServing(s: Store, l: int)
    requires l in s.locations
  {
    var o := s.locations[l].organization;
    o in s.organizations && s.organizations[o].active && s.organizations[o].headquarters == Some(l)
  }

  /** Ids the database hands out are fresh, and rows found by code are in scope. */
  predicate IsPosable(s: Store, q: Request) {
    match q
    case CreateOrganization(id, _) => IsFreshOrganization(s, id)
    case CreateLocation(_, _, l, _, _) => l !in s.locations
    case ProvisionCore(_, o, l, _) => IsFreshOrganization(s, o) && l !in s.locations
    case BootstrapPilot(t, fo, fl, o, l, _, _) =>
      && IsFreshOrganization(s, o) && l !in s.locations
      && (fo.Some? ==> Owns(s, t, fo.value)) && (fl.Some? ==> fo.Some? && InScope(s, fo.value, fl.value))
    case _ => true
  }

  /** A run poses every update, every creation whose ids are new, and every bootstrap whose ids
      are new and whose found rows are the tenant's. */
  lemma PosableExactly(s: Store, q: Request)
    ensures q.UpdateOrganization? || q.UpdateHeadquarters? || q.UpdateLocation? ==> IsPosable(s, q)
    ensures q.CreateOrganization? ==> (IsPosable(s, q) <==> IsFreshOrganization(s, q.id))
    ensures q.CreateLocation? ==> (IsPosable(s, q) <==> q.newLocation !in s.locations)
    ensures q.ProvisionCore? ==>
      (IsPosable(s, q) <==> IsFreshOrganization(s, q.newOrganization) && q.newLocation !in s.locations)
    ensures q.BootstrapPilot? ==> (IsPosable(s, q) <==>
      IsFreshOrganization(s, q.newOrganization) && q.newLocation !in s.locations && FindsOwnRows(s, q))
  {
  }

  predicate FindsOwnRows(s: Store, q: Request)
    requires q.BootstrapPilot?
  {
    match q.foundOrganization
    case None => q.foundLocation.None?
    case Some(o) =>
      && o in s.organizations && s.organizations[o].tenant == q.tenant
      && (q.foundLocation.Some? ==>
            && q.foundLocation.value in s.locations && s.locations[q.foundLocation.value].tenant == q.tenant
            && s.locations[q.foundLocation.value].organization == o)
  }

  /** The store after a run of requests; those that cannot be posed are dropped. */
  function AppliedAll(s: Store, requests: seq<Request>): Store {
    if requests == [] then s
    else
      var before, q := AppliedAll(s, requests[..|requests|-1]), requests[|requests|-1];
      if IsPosable(before, q) then Applied(before, q) else before
  }

  class Registry {
    var s: Store

    constructor (s: Store)
      ensures this.s == s
    {
      this.s := s;
    }

    /** The UPDATE of migration 0069 on a table whose new column is NULL everywhere. */
    method Backfill() returns (ghost origin: Origin)
      requires forall o :: o in s.organizations ==> s.organizations[o].headquarters.None?
      requires KeysHold(s) && s.changes == []
      modifies this
      ensures Inv(s, origin) && s == Backfilled(old(s)) && origin == OriginOf(s)
      ensures s.changes == [] && origin.first.Keys == s.organizations.Keys
      ensures forall o, l :: o in s.organizations ==> (origin.first[o] == Some(l) <==> IsOnlyActive(old(s), o, l))
      ensures forall o, l :: o in s.organizations && s.organizations[o].headquarters == Some(l) ==>
        IsOnlyRow(old(s).locations, old(s).organizations[o].tenant, o, l)
      ensures forall o, l ::
        o in s.organizations && IsOnlyRow(old(s).locations, old(s).organizations[o].tenant, o, l) ==>
        s.organizations[o].headquarters == Some(l)
      ensures forall o :: o in s.organizations ==>
        s.organizations[o] == old(s).organizations[o].(headquarters := origin.first[o])
      ensures forall o :: o in origin.legacy <==>
        o in s.organizations && s.organizations[o].active && !exists l :: l in s.locations && IsOnlyActive(old(s), o, l)
    {
      ghost var before := s;
      s := Backfilled(s);
      origin := OriginOf(s);
      BackfillEstablishes(before);
      forall o, l | o in before.organizations
        ensures IsOnlyActive(before, o, l) <==> IsOnlyRow(before.locations, before.organizations[o].tenant, o, l)
      {
        OnlyActiveMeaning(before, o, l);
      }
    }

    /** assign_headquarters_in_transaction, after the caller locked the organization. */
    method AssignHeadquarters(o: int, l: int, operation: string, deactivatePrevious: bool) returns (r: Assignment)
      requires o in s.organizations
      modifies this
      ensures r.OutsideScope? <==> !InScope(old(s), o, l)
      ensures r.TargetInactive? <==> InScope(old(s), o, l) && !old(s).locations[l].active
      ensures InScope(old(s), o, l) && old(s).locations[l].active ==>
        var previous := old(s).organizations[o].headquarters;
        && (r.Unchanged? || r.NeedsReplacement? <==> previous == Some(l))
        && (r.NeedsReplacement? <==> previous == Some(l) && deactivatePrevious)
        && (r.PreviousOutsideScope? <==> previous.Some? && previous.value != l && !InScope(old(s), o, previous.value))
        && (r.Moved? ==> !OperationTaken(old(s), old(s).organizations[o].tenant, operation))
        && (r.Duplicate? ==> OperationTaken(old(s), old(s).organizations[o].tenant, operation))
      ensures s == if r.Moved? then Reassigned(old(s), o, l, operation, deactivatePrevious) else old(s)
      ensures r.Moved? ==> IsMove(old(s), s, o, l, operation, deactivatePrevious)
    {
      var org := s.organizations[o];
      var ids := if org.headquarters.Some? then {org.headquarters.value, l} else {l};
      var byId := map i | i in ids && i in s.locations
        && s.locations[i].tenant == org.tenant && s.locations[i].organization == o :: s.locations[i];
      if l !in byId { return OutsideScope; }
      if !byId[l].active { return TargetInactive; }
      if org.headquarters == Some(l) {
        if deactivatePrevious { return NeedsReplacement; }
        return Unchanged;
      }
      if org.headquarters.Some? && org.headquarters.value !in byId { return PreviousOutsideScope; }
      if exists k :: (0 <= k < |s.changes| && s.changes[k].tenant == org.tenant
        && s.changes[k].operation == operation)
      {
        return Duplicate;
      }
      s := Reassigned(s, o, l, operation, deactivatePrevious);
      r := Moved;
    }

    method CreateOrganization(id: int, tenant: int, ghost origin: Origin)
      requires Inv(s, origin) && IsFreshOrganization(s, id)
      modifies this
      ensures Inv(s, origin) && s == WithOrganization(old(s), id, tenant)
    {
      NewOrganizationKeeps(s, origin, id, tenant);
      s := s.(organizations := s.organizations[id := Organization(tenant, false, None)]);
    }

    /** PATCH /organizations/{id}: activation is validated, everything else is not. */
    method UpdateOrganization(tenant: int, o: int, status: Option<bool>, ghost origin: Origin) returns (r: Answer)
      requires Inv(s, origin)
      modifies this
      ensures Inv(s, origin)
      ensures r.NotFound? <==> !Owns(old(s), tenant, o)
      ensures r.Conflict? <==> !r.NotFound? && status == Some(true) && !HasActiveHeadquarters(old(s), o)
      ensures !r.Refused?
      ensures s == if r.Ok? && status.Some? then WithStatus(old(s), o, status.value) else old(s)
    {
      if o !in s.organizations || s.organizations[o].tenant != tenant { return NotFound; }
      if status == Some(true) {
        var headquarters := s.organizations[o].headquarters;
        if headquarters.None? || headquarters.value !in s.locations { return Conflict; }
        var current := s.locations[headquarters.value];
        if current.tenant != tenant || current.organization != o || !current.active { return Conflict; }
      }
      if status.Some? {
        StatusKeeps(s, origin, o, status.value);
        s := s.(organizations := s.organizations[o := s.organizations[o].(active := status.value)]);
      }
      r := Ok;
    }

    /** PUT /organizations/{id}/headquarters */
    method UpdateHeadquarters(
        tenant: int, o: int, l: int, operation: string, deactivatePrevious: bool, manageable: set<int>,
        ghost origin: Origin)
      returns (r: Answer)
      requires Inv(s, origin)
      modifies this
      ensures Inv(s, origin)
      ensures r.NotFound? <==> !(Owns(old(s), tenant, o) && InScope(old(s), o, l))
      ensures r.Refused? <==> !r.NotFound? && !MayMove(old(s), o, l, manageable)
      ensures r.Conflict? <==> !r.NotFound? && !r.Refused? && !CanMove(old(s), o, l, operation, deactivatePrevious)
      ensures forall p :: p in s.organizations && p != o ==>
        p in old(s).organizations && s.organizations[p] == old(s).organizations[p]
        && (HasActiveHeadquarters(s, p) <==> HasActiveHeadquarters(old(s), p))
      ensures s == if r.Ok? then MovedTo(old(s), o, l, operation, deactivatePrevious) else old(s)
      ensures r.Ok? ==>
        if old(s).organizations[o].headquarters == Some(l) then s == old(s)
        else IsMove(old(s), s, o, l, operation, deactivatePrevious)
      ensures r.Ok? ==> l in manageable
      ensures r.Ok? && old(s).organizations[o].headquarters.Some? ==>
        old(s).organizations[o].headquarters.value in manageable
      ensures r.Refused? && l in manageable ==>
        old(s).organizations[o].headquarters.Some? && old(s).organizations[o].headquarters.value !in manageable
    {
      if o !in s.organizations || s.organizations[o].tenant != tenant { return NotFound; }
      if l !in s.locations || s.locations[l].tenant != tenant || s.locations[l].organization != o { return NotFound; }
      var current := s.organizations[o].headquarters;
      if l !in manageable || (current.Some? && current.value !in manageable) { return Refused; }
      ghost var before := s;
      var moved := AssignHeadquarters(o, l, operation, deactivatePrevious);
      if moved.Moved? {
        MoveKeeps(before, origin, o, l, operation, deactivatePrevious);
        MoveLeavesOthers(before, o, l, operation, deactivatePrevious);
      }
      r := if moved.Moved? || moved.Unchanged? then Ok else Conflict;
    }

    /** POST /locations: the first ACTIVE location of an organization without headquarters
        becomes its headquarters. */
    method CreateLocation(tenant: int, o: int, id: int, operation: string, creatorHasRole: bool, ghost origin: Origin)
      returns (r: Answer)
      requires Inv(s, origin) && id !in s.locations
      modifies this
      ensures Inv(s, origin)
      ensures r.NotFound? <==> !Owns(old(s), tenant, o)
      ensures r.Refused? <==> !r.NotFound? && !creatorHasRole
      ensures r.Conflict? <==> !r.NotFound? && !r.Refused? && NeedsTakenOperation(old(s), tenant, o, operation)
      ensures s == if r.Ok? then AfterNewLocation(old(s), tenant, o, id, operation) else old(s)
    {
      if o !in s.organizations || s.organizations[o].tenant != tenant { return NotFound; }
      var before := s;
      var anotherActive := exists m :: (m in s.locations && s.locations[m].active
        && s.locations[m].tenant == tenant && s.locations[m].organization == o);
      NewLocationKeeps(s, origin, o, id);
      s := s.(locations := s.locations[id := Location(tenant, o, true)]);
      if !creatorHasRole { s := before; return Refused; }
      r := Ok;
      if s.organizations[o].headquarters.None? && !anotherActive {
        ghost var middle := s;
        var moved := AssignHeadquarters(o, id, operation, false);
        if moved.Moved? { MoveKeeps(middle, origin, o, id, operation, false); }
        else { s, r := before, Conflict; }
      }
    }

    /** PATCH /locations/{id} */
    method UpdateLocation(tenant: int, l: int, status: Option<bool>, ghost origin: Origin) returns (r: Answer)
      requires Inv(s, origin)
      modifies this
      ensures Inv(s, origin)
      ensures r.NotFound? <==> l !in old(s).locations || old(s).locations[l].tenant != tenant
      ensures r.Conflict? <==> !r.NotFound? && status == Some(false) && IsServing(old(s), l)
      ensures !r.Refused?
      ensures s == if r.Ok? && status.Some? then WithLocationStatus(old(s), l, status.value) else old(s)
    {
      if l !in s.locations || s.locations[l].tenant != tenant { return NotFound; }
      assert InScope(s, s.locations[l].organization, l);
      var org := s.organizations[s.locations[l].organization];
      if status == Some(false) && org.active && org.headquarters == Some(l) { return Conflict; }
      if status.Some? {
        LocationStatusKeeps(s, origin, l, status.value);
        s := s.(locations := s.locations[l := s.locations[l].(active := status.value)]);
      }
      r := Ok;
    }

    /** Organization, location, headquarters and activation of provision_minimal_core. */
    method ProvisionCore(tenant: int, o: int, l: int, operation: string, ghost origin: Origin) returns (r: Answer)
      requires Inv(s, origin) && IsFreshOrganization(s, o) && l !in s.locations
      modifies this
      ensures Inv(s, origin)
      ensures r.Ok? <==> !OperationTaken(old(s), tenant, operation)
      ensures s == if r.Ok? then AfterProvisioning(old(s), tenant, o, l, operation) else old(s)
    {
      var before := s;
      ProvisioningSteps(s, tenant, o, l, operation);
      var ok := FindOrCreate(tenant, false, false, o, l, origin);
      r := SettleHeadquarters(o, l, operation, origin);
      if !r.Ok? { s := before; }
    }

    /** The headquarters part of bootstrap_pilot_minimum: an organization and a location found
        by their codes must match and be ACTIVE, and a different headquarters is an error. */
    method BootstrapPilot(
        tenant: int, foundOrganization: Option<int>, foundLocation: Option<int>, newOrganization: int, newLocation: int,
        operation: string, matches: bool, ghost origin: Origin)
      returns (r: Answer)
      requires Inv(s, origin) && IsFreshOrganization(s, newOrganization) && newLocation !in s.locations
      requires foundOrganization.Some? ==> Owns(s, tenant, foundOrganization.value)
      requires foundLocation.Some? ==>
        foundOrganization.Some? && InScope(s, foundOrganization.value, foundLocation.value)
      modifies this
      ensures Inv(s, origin)
      ensures s == if matches
        then AfterBootstrap(old(s), tenant, foundOrganization, foundLocation, newOrganization, newLocation, operation)
        else old(s)
      ensures r.Ok? ==>
        var o := Pick(foundOrganization, newOrganization);
        var l := Pick(foundLocation, newLocation);
        && o in s.organizations && s.organizations[o] == Organization(tenant, true, Some(l))
        && l in s.locations && s.locations[l] == Location(tenant, o, true)
    {
      r := Refused;
      if !matches { return; }
      var before := s;
      var o := Pick(foundOrganization, newOrganization);
      var l := Pick(foundLocation, newLocation);
      var ok := FindOrCreate(tenant, foundOrganization.Some?, foundLocation.Some?, o, l, origin);
      if ok { r := SettleHeadquarters(o, l, operation, origin); }
      if !r.Ok? { s := before; }
    }

    /** Both rows found ACTIVE or created; otherwise the bootstrap fails and is rolled back. */
    method FindOrCreate(
        tenant: int, organizationFound: bool, locationFound: bool, o: int, l: int, ghost origin: Origin)
      returns (ok: bool)
      requires Inv(s, origin)
      requires if organizationFound then Owns(s, tenant, o) else IsFreshOrganization(s, o)
      requires if locationFound then organizationFound && InScope(s, o, l) else l !in s.locations
      modifies this
      ensures Inv(s, origin)
      ensures ok <==>
        (organizationFound ==> old(s).organizations[o].active) && (locationFound ==> old(s).locations[l].active)
      ensures ok ==> InScope(s, o, l) && s.locations[l].active && s.organizations[o].tenant == tenant
      ensures ok ==> s == Ready(old(s), tenant, organizationFound, locationFound, o, l)
    {
      if !organizationFound { CreateOrganization(o, tenant, origin); }
      else if !s.organizations[o].active { return false; }
      if !locationFound {
        NewLocationKeeps(s, origin, o, l);
        s := s.(locations := s.locations[l := Location(tenant, o, true)]);
      } else if !s.locations[l].active { return false; }
      ok := true;
    }

    /** The last part of the bootstrap: assign a missing headquarters, refuse a different one,
        activate. */
    method SettleHeadquarters(o: int, l: int, operation: string, ghost origin: Origin) returns (r: Answer)
      requires Inv(s, origin) && InScope(s, o, l) && s.locations[l].active
      modifies this
      ensures Inv(s, origin) && !r.NotFound?
      ensures r.Refused? <==>
        old(s).organizations[o].headquarters.Some? && old(s).organizations[o].headquarters != Some(l)
      ensures r.Conflict? <==>
        old(s).organizations[o].headquarters.None? && OperationTaken(old(s), old(s).organizations[o].tenant, operation)
      ensures s == if r.Ok? then WithStatus(MovedTo(old(s), o, l, operation, false), o, true) else old(s)
      ensures r.Ok? ==>
        && o in s.organizations && s.organizations[o] == Organization(old(s).organizations[o].tenant, true, Some(l))
        && l in s.locations && s.locations[l] == old(s).locations[l]
    {
      if s.organizations[o].headquarters.None? {
        ghost var middle := s;
        var moved := AssignHeadquarters(o, l, operation, false);
        if !moved.Moved? { return Conflict; }
        MoveKeeps(middle, origin, o, l, operation, false);
      } else if s.organizations[o].headquarters != Some(l) {
        return Refused;
      }
      StatusKeeps(s, origin, o, true);
      s := s.(organizations := s.organizations[o := s.organizations[o].(active := true)]);
      r := Ok;
    }

    method Handle(q: Request, ghost origin: Origin)
      requires Inv(s, origin) && IsPosable(s, q)
      modifies this
      ensures Inv(s, origin) && s == Applied(old(s), q)
    {
      var r: Answer;
      match q
      case CreateOrganization(id, t) => CreateOrganization(id, t, origin);
      case UpdateOrganization(t, o, status) => r := UpdateOrganization(t, o, status, origin);
      case UpdateHeadquarters(t, o, l, op, d, ls) => r := UpdateHeadquarters(t, o, l, op, d, ls, origin);
      case CreateLocation(t, o, l, op, hasRole) => r := CreateLocation(t, o, l, op, hasRole, origin);
      case UpdateLocation(t, l, status) => r := UpdateLocation(t, l, status, origin);
      case ProvisionCore(t, o, l, op) => r := ProvisionCore(t, o, l, op, origin);
      case BootstrapPilot(t, fo, fl, o, l, op, matches) => r := BootstrapPilot(t, fo, fl, o, l, op, matches, origin);
    }

    /** Any run of requests after migration 0069: it keeps the invariant against the
        headquarters 0069 set, and does to the store what the requests say, one after another. */
    method Run(requests: seq<Request>) returns (ghost origin: Origin)
      requires forall o :: o in s.organizations ==> s.organizations[o].headquarters.None?
      requires KeysHold(s) && s.changes == []
      modifies this
      ensures Inv(s, origin) && s == AppliedAll(Backfilled(old(s)), requests)
      ensures origin == OriginOf(Backfilled(old(s))) && origin.first.Keys == old(s).organizations.Keys
      ensures forall o, l :: o in old(s).organizations ==> (origin.first[o] == Some(l) <==> IsOnlyActive(old(s), o, l))
      ensures forall o :: o in origin.legacy <==>
        o in old(s).organizations && old(s).organizations[o].active
        && !exists l :: l in old(s).locations && IsOnlyActive(old(s), o, l)
    {
      ghost var before := s;
      origin := Backfill();
      for k := 0 to |requests|
        invariant Inv(s, origin) && s == AppliedAll(Backfilled(before), requests[..k])
      {
        assert requests[..k + 1][..k] == requests[..k];
        if IsPosable(s, requests[k]) { Handle(requests[k], origin); }
      }
      assert requests[..|requests|] == requests;
    }
  }

  // ---------- proofs ----------

  lemma BackfillEstablishes(s: Store)
    requires forall o :: o in s.organizations ==> s.organizations[o].headquarters.None?
    requires KeysHold(s) && s.changes == []
    ensures Inv(Backfilled(s), OriginOf(Backfilled(s)))
    ensures forall o, l :: o in s.organizations ==>
      (Backfilled(s).organizations[o].headquarters == Some(l) <==> IsOnlyActive(s, o, l))
  {
    var after := Backfilled(s);
    forall l | l in after.locations ensures InScope(after, after.locations[l].organization, l) {
      assert InScope(s, s.locations[l].organization, l);
    }
  }

  /** Creating both rows, assigning and activating is what provisioning leaves. */
  lemma ProvisioningSteps(s: Store, tenant: int, o: int, l: int, operation: string)
    requires IsFreshOrganization(s, o) && l !in s.locations
    ensures var ready := Ready(s, tenant, false, false, o, l);
      && ready.organizations[o] == Organization(tenant, false, None)
      && (OperationTaken(ready, tenant, operation) <==> OperationTaken(s, tenant, operation))
      && WithStatus(MovedTo(ready, o, l, operation, false), o, true) == AfterProvisioning(s, tenant, o, l, operation)
  {
  }

  lemma NewOrganizationKeeps(s: Store, origin: Origin, id: int, tenant: int)
    requires Inv(s, origin) && IsFreshOrganization(s, id)
    ensures Inv(s.(organizations := s.organizations[id := Organization(tenant, false, None)]), origin)
  {
    var after := s.(organizations := s.organizations[id := Organization(tenant, false, None)]);
    forall o, l | InScope(s, o, l) ensures InScope(after, o, l) {
    }
    NothingToReplay(s.changes, id, None);
  }

  lemma {:induction false} NothingToReplay(changes: seq<Change>, o: int, first: Option<int>)
    requires forall k :: 0 <= k < |changes| ==> changes[k].organization != o
    ensures Replayed(changes, o, first) == first
  {
    if changes != [] { NothingToReplay(changes[..|changes|-1], o, first); }
  }

  lemma {:induction false} ReplayedIsLast(changes: seq<Change>, o: int, first: Option<int>, j: nat)
    requires j < |changes| && changes[j].organization == o
    requires forall i :: j < i < |changes| ==> changes[i].organization != o
    ensures Replayed(changes, o, first) == Some(changes[j].next)
  {
    if j < |changes| - 1 { ReplayedIsLast(changes[..|changes|-1], o, first, j); }
  }

  /** The history is only ever appended to. */
  lemma {:induction false} HistoryGrows(s: Store, requests: seq<Request>, k: nat)
    requires k <= |requests|
    ensures AppliedAll(s, requests[..k]).changes <= AppliedAll(s, requests).changes
  {
    if k == |requests| {
      assert requests[..k] == requests;
    } else {
      var fewer := requests[..|requests|-1];
      assert fewer[..k] == requests[..k];
      HistoryGrows(s, fewer, k);
    }
  }

  /** The history read row by row, for any store a run reaches from `start`: an organization's
      first row starts at the headquarters 0069 set, or at none for one created later; every
      later row starts where the row before it ended; the last one ends at the current
      headquarters. */
  lemma HistoryLinks(start: Store, s: Store, k: nat)
    requires Inv(s, OriginOf(Backfilled(start))) && k < |s.changes|
    ensures var o := s.changes[k].organization;
      && ((forall j :: 0 <= j < k ==> s.changes[j].organization != o) ==>
            s.changes[k].previous == if o in start.organizations then Candidate(start, o) else None)
      && (forall j ::
            0 <= j < k && s.changes[j].organization == o
            && (forall i :: j < i < k ==> s.changes[i].organization != o) ==>
            s.changes[k].previous == Some(s.changes[j].next))
      && ((forall i :: k < i < |s.changes| ==> s.changes[i].organization != o) ==>
            o in s.organizations && s.organizations[o].headquarters == Some(s.changes[k].next))
  {
    var origin := OriginOf(Backfilled(start));
    var o, earlier := s.changes[k].organization, s.changes[..k];
    var first := FirstOf(origin.first, o);
    if forall j :: 0 <= j < k ==> s.changes[j].organization != o { NothingToReplay(earlier, o, first); }
    forall j | 0 <= j < k && s.changes[j].organization == o
      && (forall i :: j < i < k ==> s.changes[i].organization != o)
      ensures s.changes[k].previous == Some(s.changes[j].next)
    {
      ReplayedIsLast(earlier, o, first, j);
    }
    if forall i :: k < i < |s.changes| ==> s.changes[i].organization != o { ReplayedIsLast(s.changes, o, first, k); }
  }

  /** The requests that can set a stored location's status: the one that names it, or a move away
      from it that asks to deactivate it. */
  predicate SetsLocation(s: Store, q: Request, l: int, active: bool) {
    match q
    case UpdateLocation(tenant, location, status) => location == l && status == Some(active)
    case UpdateHeadquarters(tenant, o, target, operation, deactivatePrevious, manageable) =>
      deactivatePrevious && !active && target != l
      && o in s.organizations && s.organizations[o].headquarters == Some(l)
    case _ => false
  }

  /** The requests that can set a stored organization's status. */
  predicate SetsOrganization(q: Request, o: int, active: bool) {
    match q
    case UpdateOrganization(tenant, organization, status) => organization == o && status == Some(active)
    case BootstrapPilot(tenant, found, fl, no, nl, operation, matches) => found == Some(o) && active
    case _ => false
  }

  /** One request: rows stay, with their tenant and organization, and no status changes unasked. */
  predicate LocationFollows(s: Store, q: Request, after: Store, l: int)
    requires l in s.locations
  {
    && l in after.locations && after.locations[l].tenant == s.locations[l].tenant
    && after.locations[l].organization == s.locations[l].organization
    && (after.locations[l].active == s.locations[l].active || SetsLocation(s, q, l, after.locations[l].active))
  }

  predicate OrganizationFollows(s: Store, q: Request, after: Store, o: int)
    requires o in s.organizations
  {
    && o in after.organizations && after.organizations[o].tenant == s.organizations[o].tenant
    && (after.organizations[o].active == s.organizations[o].active
        || SetsOrganization(q, o, after.organizations[o].active))
  }

  lemma StatusNeedsRequest(s: Store, q: Request)
    requires IsPosable(s, q)
    ensures forall l :: l in s.locations ==> LocationFollows(s, q, Applied(s, q), l)
    ensures forall o :: o in s.organizations ==> OrganizationFollows(s, q, Applied(s, q), o)
  {
  }

  /** Request k of a run is posed and sets the location to this status. */
  predicate SetAt(start: Store, requests: seq<Request>, k: nat, l: int, active: bool)
    requires k < |requests|
  {
    SetsLocation(AppliedAll(start, requests[..k]), requests[k], l, active)
  }

  /** Over a whole run: a location that ends with another status than it began with was set to
      it by some request of the run. */
  lemma {:induction false} LocationStatusHistory(start: Store, requests: seq<Request>, l: int)
    requires l in start.locations
    ensures var s := AppliedAll(start, requests);
      && l in s.locations && s.locations[l].tenant == start.locations[l].tenant
      && s.locations[l].organization == start.locations[l].organization
      && (s.locations[l].active == start.locations[l].active
          || exists k :: 0 <= k < |requests| && SetAt(start, requests, k, l, s.locations[l].active))
  {
    if requests != [] {
      var fewer, q := requests[..|requests|-1], requests[|requests|-1];
      var before := AppliedAll(start, fewer);
      LocationStatusHistory(start, fewer, l);
      forall k | 0 <= k < |fewer| && SetAt(start, fewer, k, l, before.locations[l].active)
        ensures SetAt(start, requests, k, l, before.locations[l].active)
      {
        assert fewer[..k] == requests[..k];
      }
      if IsPosable(before, q) {
        StatusNeedsRequest(before, q);
        assert LocationFollows(before, q, Applied(before, q), l);
        if Applied(before, q).locations[l].active != before.locations[l].active {
          assert SetAt(start, requests, |fewer|, l, Applied(before, q).locations[l].active);
        }
      }
    }
  }

  lemma NewLocationKeeps(s: Store, origin: Origin, o: int, id: int)
    requires Inv(s, origin) && o in s.organizations && id !in s.locations
    ensures Inv(s.(locations := s.locations[id := Location(s.organizations[o].tenant, o, true)]), origin)
  {
  }

  lemma StatusKeeps(s: Store, origin: Origin, o: int, active: bool)
    requires Inv(s, origin) && o in s.organizations
    requires active ==> HasActiveHeadquarters(s, o)
    ensures Inv(s.(organizations := s.organizations[o := s.organizations[o].(active := active)]), origin)
  {
    var after := s.(organizations := s.organizations[o := s.organizations[o].(active := active)]);
    forall p, l | InScope(s, p, l) ensures InScope(after, p, l) {
    }
  }

  lemma LocationStatusKeeps(s: Store, origin: Origin, l: int, active: bool)
    requires Inv(s, origin) && l in s.locations
    requires active || !s.organizations[s.locations[l].organization].active
      || s.organizations[s.locations[l].organization].headquarters != Some(l)
    ensures Inv(s.(locations := s.locations[l := s.locations[l].(active := active)]), origin)
  {
    var after := s.(locations := s.locations[l := s.locations[l].(active := active)]);
    forall p, m | InScope(s, p, m) ensures InScope(after, p, m) {
    }
  }

  /** A location is the headquarters of no organization but its own. */
  lemma HeadquartersIsOwn(s: Store, o: int, p: int)
    requires KeysHold(s) && o in s.organizations && p in s.organizations
    requires s.organizations[o].headquarters.Some? && s.organizations[o].headquarters == s.organizations[p].headquarters
    ensures o == p
  {
  }

  /** A move, with or without deactivating the previous headquarters, breaks no other organization. */
  lemma MoveLeavesOthers(s: Store, o: int, l: int, operation: string, deactivatePrevious: bool)
    requires KeysHold(s) && InScope(s, o, l)
    ensures var after := Reassigned(s, o, l, operation, deactivatePrevious);
      forall p :: p in after.organizations && p != o ==>
        p in s.organizations && after.organizations[p] == s.organizations[p]
        && (HasActiveHeadquarters(after, p) <==> HasActiveHeadquarters(s, p))
  {
  }

  lemma MoveKeeps(s: Store, origin: Origin, o: int, l: int, operation: string, deactivatePrevious: bool)
    requires Inv(s, origin) && InScope(s, o, l) && s.locations[l].active && s.organizations[o].headquarters != Some(l)
    requires !OperationTaken(s, s.organizations[o].tenant, operation)
    ensures Inv(Reassigned(s, o, l, operation, deactivatePrevious), origin)
  {
    var after := Reassigned(s, o, l, operation, deactivatePrevious);
    forall p, m | InScope(s, p, m) ensures InScope(after, p, m) {
    }
    MoveLeavesOthers(s, o, l, operation, deactivatePrevious);
    MoveKeepsLog(s, origin.first, o, l, operation, deactivatePrevious);
  }

  lemma MoveKeepsLog(
      s: Store, first: map<int, Option<int>>, o: int, l: int, operation: string, deactivatePrevious: bool)
    requires LogIsFaithful(s, first) && o in s.organizations && s.organizations[o].headquarters != Some(l)
    requires !OperationTaken(s, s.organizations[o].tenant, operation)
    ensures LogIsFaithful(Reassigned(s, o, l, operation, deactivatePrevious), first)
  {
    var after := Reassigned(s, o, l, operation, deactivatePrevious);
    var row := Change(s.organizations[o].tenant, o, s.organizations[o].headquarters, l, operation);
    ChainExtends(s.changes, first, row);
    forall p | p in after.organizations
      ensures Replayed(after.changes, p, FirstOf(first, p)) == after.organizations[p].headquarters
    {
      ReplayOneMore(s.changes, row, p, FirstOf(first, p));
    }
  }

  lemma ReplayOneMore(changes: seq<Change>, row: Change, o: int, first: Option<int>)
    ensures Replayed(changes + [row], o, first)
      == if row.organization == o then Some(row.next) else Replayed(changes, o, first)
  {
  }

  lemma ChainExtends(changes: seq<Change>, first: map<int, Option<int>>, row: Change)
    requires Chained(changes, first) && row.previous != Some(row.next)
    requires row.previous == Replayed(changes, row.organization, FirstOf(first, row.organization))
    ensures Chained(changes + [row], first)
  {
    var all := changes + [row];
    assert all[..|changes|] == changes;
    forall k | 0 <= k < |changes| ensures all[..k] == changes[..k] && all[k] == changes[k] {
    }
  }
}
