/** Staff sessions: the constraints of migration 0065, the transactions that open and close a
    session, and the resolver's rule for accepting one. */
module StaffSessions {
  import opened Sql

  datatype Status = Active | Replaced | Closed | OtherStatus(text: string)

  datatype Membership = Membership(id: int, tenant: int, user: int)

  datatype Session = Session(
    publicId: string, membership: Membership, status: Status, slot: Option<int>, closedAt: Option<int>)

  /** `staff_auth_sessions` by id, and the memberships its foreign key refers to. */
  datatype Tables = Tables(memberships: set<Membership>, sessions: map<int, Session>)

  // ---------- the constraints ----------

  /** ck_staff_auth_sessions_active_slot */
  function SlotCheck(s: Session): Truth {
    IsNull(s.slot).Or(Eq(s.slot, 1))
  }

  /** ck_staff_auth_sessions_lifecycle */
  function LifecycleCheck(s: Session): Truth {
    Of(s.status.Active?).And(Eq(s.slot, 1)).And(IsNull(s.closedAt))
      .Or(Of(s.status.Replaced? || s.status.Closed?).And(IsNull(s.slot)).And(NotNull(s.closedAt)))
  }

  predicate RowAccepted(s: Session) {
    Passes(SlotCheck(s)) && Passes(LifecycleCheck(s))
  }

  /** uq_staff_auth_sessions_public_id and uq_staff_auth_sessions_user_active; the second
      ignores rows whose slot is NULL. */
  predicate NoConflict(a: Session, b: Session) {
    a.publicId != b.publicId && !(a.membership.user == b.membership.user && a.slot.Some? && a.slot == b.slot)
  }

  predicate Valid(t: Tables) {
    && (forall i :: i in t.sessions ==> RowAccepted(t.sessions[i]) && t.sessions[i].membership in t.memberships)
    && (forall i, j :: i in t.sessions && j in t.sessions && i != j ==> NoConflict(t.sessions[i], t.sessions[j]))
  }

  /** What the resolver's query demands of the row itself. */
  predicate IsLive(s: Session) {
    s.status.Active? && s.slot == Some(1)
  }

  /** The identity a token carries. */
  datatype Token = Token(user: int, tenant: int, membership: int, session: string)

  predicate Finds(t: Tables, token: Token, i: int) {
    && i in t.sessions && IsLive(t.sessions[i])
    && t.sessions[i].publicId == token.session
    && t.sessions[i].membership == Membership(token.membership, token.tenant, token.user)
  }

  predicate IsAccepted(t: Tables, token: Token) {
    exists i :: i in t.sessions && Finds(t, token, i)
  }

  /** The rows the CHECKs admit.  The middle shape passes because its condition is UNKNOWN. */
  lemma AdmittedShapes(s: Session)
    ensures RowAccepted(s) <==>
      || (s.status.Active? && s.slot == Some(1) && s.closedAt.None?)
      || (s.status.Active? && s.slot.None? && s.closedAt.None?)
      || ((s.status.Replaced? || s.status.Closed?) && s.slot.None? && s.closedAt.Some?)
  {
  }

  // ---------- every run of constraint-checked statements ----------

  datatype Statement =
    | Put(id: int, row: Session)            // INSERT or UPDATE of one row
    | Delete(id: int)
    | AddMembership(added: Membership)
    | RemoveMembership(removed: Membership) // cascades to its sessions

  function Effect(t: Tables, s: Statement): Tables {
    match s
    case Put(id, row) => t.(sessions := t.sessions[id := row])
    case Delete(id) => t.(sessions := t.sessions - {id})
    case AddMembership(m) => t.(memberships := t.memberships + {m})
    case RemoveMembership(m) =>
      Tables(t.memberships - {m}, map i | i in t.sessions && t.sessions[i].membership != m :: t.sessions[i])
  }

  /** The database refuses a statement whose result would break a constraint. */
  function Apply(t: Tables, s: Statement): Tables {
    if Valid(Effect(t, s)) then Effect(t, s) else t
  }

  function Run(t: Tables, statements: seq<Statement>): Tables
    decreases |statements|
  {
    if statements == [] then t else Run(Apply(t, statements[0]), statements[1..])
  }

  lemma {:induction false} RunKeepsConstraints(t: Tables, statements: seq<Statement>)
    requires Valid(t)
    ensures Valid(Run(t, statements))
    decreases |statements|
  {
    if statements != [] { RunKeepsConstraints(Apply(t, statements[0]), statements[1..]); }
  }

  lemma LiveIsUnique(t: Tables, i: int, j: int)
    requires Valid(t) && i in t.sessions && j in t.sessions && IsLive(t.sessions[i]) && IsLive(t.sessions[j])
    requires t.sessions[i].membership.user == t.sessions[j].membership.user
    ensures i == j
  {
  }

  /** After any run from the empty table, all tokens the resolver accepts for one user carry
      the same session, membership and tenant. */
  lemma OneSessionPerUser(statements: seq<Statement>, a: Token, b: Token)
    requires a.user == b.user
    requires var t := Run(Tables({}, map[]), statements); IsAccepted(t, a) && IsAccepted(t, b)
    ensures a == b
  {
    var t := Run(Tables({}, map[]), statements);
    RunKeepsConstraints(Tables({}, map[]), statements);
    var i :| i in t.sessions && Finds(t, a, i);
    var j :| j in t.sessions && Finds(t, b, j);
    LiveIsUnique(t, i, j);
  }

  /** A login's row, and the token that names it. */
  function LoginRow(m: Membership, publicId: string): Session {
    Session(publicId, m, Active, Some(1), None)
  }

  function TokenOf(m: Membership, publicId: string): Token {
    Token(m.user, m.tenant, m.id, publicId)
  }

  predicate HasLiveRow(t: Tables, user: int) {
    exists i :: i in t.sessions && t.sessions[i].membership.user == user && t.sessions[i].slot.Some?
  }

  /** The constraints let a login in exactly when its membership is stored, its public id unused
      and the user has no live session; a refused statement leaves the tables as they were. */
  lemma LoginIsAppliedExactly(t: Tables, id: int, m: Membership, publicId: string)
    requires Valid(t) && id !in t.sessions
    ensures var after := Run(t, [Put(id, LoginRow(m, publicId))]);
      if m in t.memberships && !HasPublicId(t, publicId) && !HasLiveRow(t, m.user)
      then after.sessions == t.sessions[id := LoginRow(m, publicId)] && after.memberships == t.memberships
        && IsAccepted(after, TokenOf(m, publicId))
      else after == t
  {
    var row := LoginRow(m, publicId);
    var after := Effect(t, Put(id, row));
    assert Run(t, [Put(id, row)]) == Apply(t, Put(id, row));
    assert after.sessions[id] == row;
    if m in t.memberships && !HasPublicId(t, publicId) && !HasLiveRow(t, m.user) {
      assert Valid(after);
      assert Finds(after, TokenOf(m, publicId), id);
    } else if HasLiveRow(t, m.user) {
      var i :| i in t.sessions && t.sessions[i].membership.user == m.user && t.sessions[i].slot.Some?;
      assert !NoConflict(after.sessions[i], after.sessions[id]);
    } else if HasPublicId(t, publicId) {
      var i :| i in t.sessions && t.sessions[i].publicId == publicId;
      assert !NoConflict(after.sessions[i], after.sessions[id]);
    }
  }

  /** Deleting a row, adding a membership and removing one are never refused, and do just that. */
  lemma OtherStatementsApply(t: Tables, id: int, m: Membership)
    requires Valid(t)
    ensures Run(t, [Delete(id)]).memberships == t.memberships
    ensures forall i :: i in Run(t, [Delete(id)]).sessions <==> i in t.sessions && i != id
    ensures forall i :: i in Run(t, [Delete(id)]).sessions ==> Run(t, [Delete(id)]).sessions[i] == t.sessions[i]
    ensures Run(t, [AddMembership(m)]).memberships == t.memberships + {m}
    ensures Run(t, [AddMembership(m)]).sessions == t.sessions
    ensures Run(t, [RemoveMembership(m)]).memberships == t.memberships - {m}
    ensures forall i :: i in Run(t, [RemoveMembership(m)]).sessions <==>
      i in t.sessions && t.sessions[i].membership != m
    ensures forall i :: i in Run(t, [RemoveMembership(m)]).sessions ==>
      Run(t, [RemoveMembership(m)]).sessions[i] == t.sessions[i]
  {
    assert forall s :: Run(t, [s]) == Apply(t, s);
    assert Valid(Effect(t, Delete(id)));
    assert Valid(Effect(t, AddMembership(m)));
    assert Valid(Effect(t, RemoveMembership(m)));
  }

  predicate TwoActive(t: Tables, i: int, j: int, user: int) {
    && i in t.sessions && t.sessions[i].status.Active? && t.sessions[i].membership.user == user
    && j in t.sessions && t.sessions[j].status.Active? && t.sessions[j].membership.user == user && i != j
  }

  /** Status alone does not give this: the constraints admit two ACTIVE rows for one user. */
  lemma StatusIsNotEnough(m: Membership)
    ensures exists t: Tables, i, j :: Valid(t) && TwoActive(t, i, j, m.user)
  {
    var a, b := Session("a", m, Active, Some(1), None), Session("b", m, Active, None, None);
    var t := Tables({m}, map[1 := a, 2 := b]);
    assert RowAccepted(a) && RowAccepted(b);
    assert a.publicId[0] != b.publicId[0];
    assert NoConflict(a, b) && NoConflict(b, a);
    assert Valid(t) && TwoActive(t, 1, 2, m.user);
  }

  // ---------- the transactions ----------

  datatype User = User(active: bool, passwordHash: string)

  predicate HasPublicId(t: Tables, publicId: string) {
    exists i :: i in t.sessions && t.sessions[i].publicId == publicId
  }

  datatype Opened = Created | NotActive | CredentialsChanged | SessionConflict | IntegrityError

  /** The rows of `a` that `b` names, closed; every other row as it was. */
  ghost predicate OnlyEnded(a: Tables, b: Tables, ended: Session -> bool, status: Status, now: int) {
    && b.memberships == a.memberships && b.sessions.Keys == a.sessions.Keys
    && forall i :: i in a.sessions ==>
         var was, row := a.sessions[i], b.sessions[i];
         if ended(was) && was.status.Active? && was.slot == Some(1) then
           && row.publicId == was.publicId && row.membership == was.membership
           && row.status == status && row.slot.None? && row.closedAt == Some(now)
         else row == was
  }

  function Ended(s: Session, status: Status, now: int): Session {
    if IsLive(s) then s.(status := status, slot := None, closedAt := Some(now)) else s
  }

  predicate EndedVersion(a: Session, b: Session) {
    || b == a
    || (b.publicId == a.publicId && b.membership == a.membership && b.slot.None? && RowAccepted(b))
  }

  class SessionService {
    var users: map<int, User>
    var tables: Tables

    constructor (users: map<int, User>, memberships: set<Membership>)
      ensures this.users == users && tables == Tables(memberships, map[]) && Valid(tables)
    {
      this.users, tables := users, Tables(memberships, map[]);
    }

    predicate HasLive(user: int)
      reads this
    {
      exists i :: i in tables.sessions && tables.sessions[i].membership.user == user && IsLive(tables.sessions[i])
    }

    /** create_staff_auth_session, under the user's row lock.  The unique slot is never what
        refuses the insert: a row that holds it is ACTIVE, so the earlier query finds it. */
    method Create(id: int, publicId: string, m: Membership, expectedHash: string) returns (r: Opened)
      requires Valid(tables) && id !in tables.sessions
      modifies `tables
      ensures Valid(tables)
      ensures r.NotActive? <==> m.user !in users || !users[m.user].active
      ensures r.CredentialsChanged? <==>
        m.user in users && users[m.user].active && users[m.user].passwordHash != expectedHash
      ensures m.user in users && users[m.user] == User(true, expectedHash) ==>
        && (r.SessionConflict? <==> old(HasLive(m.user)))
        && (r.Created? <==> !old(HasLive(m.user)) && m in tables.memberships && !HasPublicId(old(tables), publicId))
      ensures tables == if r.Created?
        then old(tables).(sessions := old(tables).sessions[id := Session(publicId, m, Active, Some(1), None)])
        else old(tables)
    {
      if m.user !in users || !users[m.user].active { return NotActive; }
      if users[m.user].passwordHash != expectedHash { return CredentialsChanged; }
      if exists i :: (i in tables.sessions && tables.sessions[i].membership.user == m.user
        && tables.sessions[i].status.Active? && tables.sessions[i].slot == Some(1))
      {
        return SessionConflict;
      }
      var row := Session(publicId, m, Active, Some(1), None);
      var after := Effect(tables, Put(id, row));
      SlotHolderIsLive(tables, m.user);
      if Valid(after) {
        tables, r := after, Created;
        assert tables.sessions[id] == row;
        assert forall i :: i in old(tables).sessions ==> NoConflict(tables.sessions[i], row);
      } else if exists i :: (i in tables.sessions && tables.sessions[i].membership.user == m.user
        && tables.sessions[i].slot == Some(1))
      {
        r := SessionConflict;
      } else {
        r := IntegrityError;
        InsertRefused(tables, id, row);
      }
    }

    /** close_staff_auth_session: one UPDATE guarded by status and slot. */
    method Close(publicId: string, now: int)
      requires Valid(tables)
      modifies `tables
      ensures Valid(tables) && OnlyEnded(old(tables), tables, (s: Session) => s.publicId == publicId, Closed, now)
      ensures forall token: Token ::
        IsAccepted(tables, token) <==> old(IsAccepted(tables, token)) && token.session != publicId
    {
      var sessions := map i | i in tables.sessions ::
        if tables.sessions[i].publicId == publicId then Ended(tables.sessions[i], Closed, now) else tables.sessions[i];
      EndingKeepsConstraints(tables, sessions);
      ghost var before := tables;
      tables := tables.(sessions := sessions);
      forall token: Token
        ensures IsAccepted(tables, token) <==> IsAccepted(before, token) && token.session != publicId
      {
        forall i | i in before.sessions
          ensures Finds(tables, token, i) <==> Finds(before, token, i) && token.session != publicId
        {
        }
      }
    }

    /** The revocation loop of a credential change; `selected` is what its locking query
        returned, the ids of the user's live sessions in ascending order. */
    method Revoke(user: int, selected: seq<int>, now: int)
      requires Valid(tables)
      requires forall k, l :: 0 <= k < l < |selected| ==> selected[k] < selected[l]
      requires forall i :: i in selected <==>
        i in tables.sessions && tables.sessions[i].membership.user == user && IsLive(tables.sessions[i])
      modifies `tables
      ensures Valid(tables) && OnlyEnded(old(tables), tables, (s: Session) => s.membership.user == user, Replaced, now)
      ensures forall token: Token :: IsAccepted(tables, token) <==> old(IsAccepted(tables, token)) && token.user != user
    {
      ghost var before := tables;
      for k := 0 to |selected|
        invariant Valid(tables) && tables.memberships == before.memberships
        invariant tables.sessions.Keys == before.sessions.Keys
        invariant forall i :: i in before.sessions ==>
          tables.sessions[i] ==
            if i in selected[..k] then Ended(before.sessions[i], Replaced, now) else before.sessions[i]
      {
        ghost var was := tables;
        var i := selected[k];
        tables := tables.(sessions := tables.sessions[i := Ended(tables.sessions[i], Replaced, now)]);
        EndingKeepsConstraints(was, tables.sessions);
        assert selected[..k + 1] == selected[..k] + [i];
      }
      assert selected[..|selected|] == selected;
      forall token: Token
        ensures IsAccepted(tables, token) <==> IsAccepted(before, token) && token.user != user
      {
        forall i | i in before.sessions
          ensures Finds(tables, token, i) <==> Finds(before, token, i) && token.user != user
        {
        }
      }
    }
  }

  lemma SlotHolderIsLive(t: Tables, user: int)
    requires Valid(t)
    ensures forall i :: i in t.sessions && t.sessions[i].membership.user == user && t.sessions[i].slot.Some? ==>
      IsLive(t.sessions[i])
  {
  }

  lemma InsertRefused(t: Tables, id: int, row: Session)
    requires Valid(t) && id !in t.sessions && RowAccepted(row) && !Valid(Effect(t, Put(id, row)))
    requires forall i :: i in t.sessions && t.sessions[i].membership.user == row.membership.user ==>
      t.sessions[i].slot.None?
    ensures row.membership !in t.memberships || HasPublicId(t, row.publicId)
  {
  }

  lemma EndingKeepsConstraints(t: Tables, sessions: map<int, Session>)
    requires Valid(t) && sessions.Keys == t.sessions.Keys
    requires forall i :: i in t.sessions ==> EndedVersion(t.sessions[i], sessions[i])
    ensures Valid(t.(sessions := sessions))
  {
  }
}
