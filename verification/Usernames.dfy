/** Migration 0063: a login name for every staff user, derived from the email address and made
    unique by appending the user id. */
module Usernames {
  import opened Interruption
  import opened Sql
  import opened Text

  /** A staff row of the migration's query.  Python's strip().casefold(), applied to the part
      of the email before its first '@', is the parameter `fold` throughout. */
  datatype Row = Row(id: int, email: Option<string>)

  const LIMIT := 64

  predicate IsAlphanumeric(c: char) {
    'a' <= c <= 'z' || IsDigit(c)
  }

  predicate IsPunctuation(c: char) {
    c == '.' || c == '_' || c == '-'
  }

  predicate IsAllowed(c: char) {
    IsAlphanumeric(c) || IsPunctuation(c)
  }

  // ---------- _base_username ----------

  /** partition('@')[0] */
  function BeforeAt(s: string): (r: string)
    ensures r <= s && '@' !in r && (|r| < |s| ==> s[|r|] == '@')
  {
    if s == [] || s[0] == '@' then [] else [s[0]] + BeforeAt(s[1..])
  }

  /** Every maximal run of characters outside [a-z0-9._-] becomes one '-'. */
  function Substituted(s: string, inRun: bool := false): (r: string)
    ensures forall i :: 0 <= i < |r| ==> IsAllowed(r[i])
  {
    if s == [] then []
    else if IsAllowed(s[0]) then [s[0]] + Substituted(s[1..], false)
    else (if inRun then [] else ['-']) + Substituted(s[1..], true)
  }

  /** Where the text ends once the punctuation before position n is dropped. */
  function TrimmedEnd(s: string, n: nat): (e: nat)
    requires n <= |s|
    ensures e <= n && (forall i :: e <= i < n ==> IsPunctuation(s[i])) && (e > 0 ==> !IsPunctuation(s[e-1]))
  {
    if n > 0 && IsPunctuation(s[n-1]) then TrimmedEnd(s, n - 1) else n
  }

  /** Where the text begins once the punctuation from position n on is dropped. */
  function TrimmedStart(s: string, n: nat): (b: nat)
    requires n <= |s|
    ensures n <= b <= |s| && (forall i :: n <= i < b ==> IsPunctuation(s[i])) && (b < |s| ==> !IsPunctuation(s[b]))
    decreases |s| - n
  {
    if n < |s| && IsPunctuation(s[n]) then TrimmedStart(s, n + 1) else n
  }

  /** rstrip('._-'): only punctuation goes, and only as much as it takes. */
  function StripRight(s: string): (r: string)
    ensures r <= s && (forall i :: |r| <= i < |s| ==> IsPunctuation(s[i]))
    ensures r != [] ==> !IsPunctuation(r[|r|-1])
  {
    s[..TrimmedEnd(s, |s|)]
  }

  function StripLeft(s: string): (r: string)
    ensures |r| <= |s| && r == s[|s|-|r|..] && (forall i :: 0 <= i < |s| - |r| ==> IsPunctuation(s[i]))
    ensures r != [] ==> !IsPunctuation(r[0])
  {
    s[TrimmedStart(s, 0)..]
  }

  function Take(s: string, n: nat): string {
    if n < |s| then s[..n] else s
  }

  function Slug(row: Row, fold: string -> string): string {
    var source := fold(BeforeAt(if row.email.Some? then row.email.value else ""));
    StripLeft(StripRight(Substituted(source)))
  }

  /** The name comes from the email only when at least three characters of it remain. */
  predicate FromEmail(row: Row, fold: string -> string) {
    |Slug(row, fold)| >= 3
  }

  predicate IsId(id: int) {
    0 < id < 0x8000_0000_0000_0000
  }

  function Base(row: Row, fold: string -> string): string
    requires IsId(row.id)
  {
    StripRight(Take(if FromEmail(row, fold) then Slug(row, fold) else "staff-" + Numeral(row.id), LIMIT))
  }

  // ---------- the allocation loop ----------

  function Suffix(id: int): (s: string)
    requires IsId(id)
    ensures 2 <= |s| <= 20
  {
    IdsAreShort(id);
    "-" + Numeral(id)
  }

  /** The two names the loop chooses between for one row. */
  datatype Candidate = Candidate(base: string, suffixed: string)

  function CandidateOf(row: Row, fold: string -> string): Candidate
    requires IsId(row.id)
  {
    var base := Base(row, fold);
    Candidate(base, StripRight(Take(base, LIMIT - |Suffix(row.id)|)) + Suffix(row.id))
  }

  /** The query's rows: ORDER BY id over distinct users. */
  predicate Ordered(rows: seq<Row>) {
    && (forall i :: 0 <= i < |rows| ==> IsId(rows[i].id))
    && (forall i, j :: 0 <= i < j < |rows| ==> rows[i].id < rows[j].id)
  }

  function Candidates(rows: seq<Row>, fold: string -> string): seq<Candidate>
    requires Ordered(rows)
  {
    seq(|rows|, i requires 0 <= i < |rows| => CandidateOf(rows[i], fold))
  }

  function Chosen(c: Candidate, earlier: seq<string>): string {
    if c.base in earlier then c.suffixed else c.base
  }

  function Names(cs: seq<Candidate>): (names: seq<string>)
    ensures |names| == |cs|
  {
    if cs == [] then []
    else
      var earlier := Names(cs[..|cs|-1]);
      earlier + [Chosen(cs[|cs|-1], earlier)]
  }

  /** What decides a suffix, in terms of the candidates alone: an earlier row has the same
      base, or an earlier row's suffixed name is this row's base. */
  predicate Repeated(cs: seq<Candidate>, i: nat)
    requires i < |cs|
  {
    exists j :: 0 <= j < i &&
      (cs[j].base == cs[i].base || (Repeated(cs, j) && cs[j].suffixed == cs[i].base))
  }

  function NameOf(cs: seq<Candidate>, i: nat): string
    requires i < |cs|
  {
    if Repeated(cs, i) then cs[i].suffixed else cs[i].base
  }

  predicate Distinct(names: seq<string>) {
    forall i, j :: 0 <= i < j < |names| ==> names[i] != names[j]
  }

  /** Row i's suffixed name is already the base of an earlier row. */
  predicate Collides(cs: seq<Candidate>, i: nat, j: nat)
    requires j < i < |cs|
  {
    Repeated(cs, i) && cs[i].suffixed == cs[j].base
  }

  predicate NoCollision(cs: seq<Candidate>) {
    forall i, j :: 0 <= j < i < |cs| ==> !Collides(cs, i, j)
  }

  /** One turn of the loop: a suffix only when the base is already used. */
  method NameFor(row: Row, fold: string -> string, used: set<string>, ghost earlier: seq<string>)
    returns (candidate: string)
    requires IsId(row.id) && forall n :: n in used <==> n in earlier
    ensures candidate == Chosen(CandidateOf(row, fold), earlier)
  {
    var base := Base(row, fold);
    candidate := base;
    if candidate in used {
      var suffix := Suffix(row.id);
      candidate := StripRight(Take(base, LIMIT - |suffix|)) + suffix;
    }
  }

  /** One of the first `k` rows. */
  predicate Listed(rows: seq<Row>, k: nat, id: int)
    requires k <= |rows|
  {
    exists i :: 0 <= i < k && rows[i].id == id
  }

  /** The first |names| rows carry these names, and no other user has one. */
  predicate Named(usernames: map<int, Option<string>>, rows: seq<Row>, names: seq<string>)
    requires |names| <= |rows|
  {
    && (forall i :: 0 <= i < |names| ==> rows[i].id in usernames && usernames[rows[i].id] == Some(names[i]))
    && (forall id :: id in usernames && usernames[id].Some? ==> Listed(rows, |names|, id))
  }

  lemma NamedExtends(usernames: map<int, Option<string>>, rows: seq<Row>, k: nat, names: seq<string>, name: string)
    requires Ordered(rows) && k < |rows| && |names| == k && Named(usernames, rows, names)
    ensures Named(usernames[rows[k].id := Some(name)], rows, names + [name])
  {
  }

  lemma NothingNamedYet(usernames: map<int, Option<string>>, rows: seq<Row>, fold: string -> string)
    requires Ordered(rows) && forall id :: id in usernames ==> usernames[id].None?
    ensures Names(Candidates(rows, fold)[..0]) == [] && Named(usernames, rows, [])
  {
  }

  lemma EveryRowNamed(usernames: map<int, Option<string>>, rows: seq<Row>, names: seq<string>, fold: string -> string)
    requires Ordered(rows) && |names| == |rows|
    ensures names == Names(Candidates(rows, fold)[..|rows|]) && Named(usernames, rows, names) ==>
      Named(usernames, rows, Names(Candidates(rows, fold)))
  {
    assert Candidates(rows, fold)[..|rows|] == Candidates(rows, fold);
  }

  lemma NamesStep(cs: seq<Candidate>, k: nat)
    requires k < |cs|
    ensures Names(cs[..k + 1]) == Names(cs[..k]) + [Chosen(cs[k], Names(cs[..k]))]
  {
    assert cs[..k + 1][..k] == cs[..k];
  }

  lemma OneMoreName(
      usernames: map<int, Option<string>>, rows: seq<Row>, k: nat, names: seq<string>, fold: string -> string)
    requires Ordered(rows) && k < |rows|
    ensures names == Names(Candidates(rows, fold)[..k]) && Named(usernames, rows, names) ==>
      var name := Chosen(CandidateOf(rows[k], fold), names);
      && names + [name] == Names(Candidates(rows, fold)[..k + 1])
      && Named(usernames[rows[k].id := Some(name)], rows, names + [name])
  {
    if names == Names(Candidates(rows, fold)[..k]) && Named(usernames, rows, names) {
      NamesStep(Candidates(rows, fold), k);
      NamedExtends(usernames, rows, k, names, Chosen(CandidateOf(rows[k], fold), names));
    }
  }

  predicate AllAllowed(s: string) {
    forall i :: 0 <= i < |s| ==> IsAllowed(s[i])
  }

  predicate StartsAndEndsAlphanumeric(s: string) {
    s != [] && IsAlphanumeric(s[0]) && IsAlphanumeric(s[|s|-1])
  }

  predicate WellFormed(s: string) {
    1 <= |s| <= LIMIT && StartsAndEndsAlphanumeric(s) && AllAllowed(s)
  }

  predicate SuffixedDistinct(cs: seq<Candidate>) {
    forall i, j :: 0 <= j < i < |cs| ==> cs[i].suffixed != cs[j].suffixed
  }

  predicate EndsInLaterId(rows: seq<Row>, j: nat, i: nat, fold: string -> string)
    requires Ordered(rows) && j < i < |rows|
  {
    var base, suffix := Base(rows[j], fold), Suffix(rows[i].id);
    |suffix| <= |base| && base[|base|-|suffix|..] == suffix
  }

  function PlainRow(id: int, name: string, domain: string): Row {
    Row(id, Some(name + ['@'] + domain))
  }

  class UsersTable {
    var usernames: map<int, Option<string>>
    var usernameUnique: bool

    constructor (users: set<int>)
      ensures usernames == (map id | id in users :: None) && !usernameUnique
    {
      usernames := map id | id in users :: None;
      usernameUnique := false;
    }

    predicate NamesUnique()
      reads this
    {
      forall a, b :: a in usernames && b in usernames && a != b && usernames[a].Some? ==> usernames[a] != usernames[b]
    }

    /** One turn of the loop; `names` are those given before. */
    method NameRow(row: Row, fold: string -> string, used: set<string>, ghost names: seq<string>)
      returns (after: set<string>)
      requires IsId(row.id) && forall n :: n in used <==> n in names
      modifies `usernames
      ensures usernames == old(usernames)[row.id := Some(Chosen(CandidateOf(row, fold), names))]
      ensures usernames.Keys == old(usernames.Keys) + {row.id}
      ensures forall n :: n in after <==> n in names + [Chosen(CandidateOf(row, fold), names)]
    {
      var candidate := NameFor(row, fold, used, names);
      usernames := usernames[row.id := Some(candidate)];
      after := used + {candidate};
    }

    /** The loop over the query's rows. */
    method Allocate(rows: seq<Row>, fold: string -> string)
      requires Ordered(rows)
      requires forall id :: id in usernames ==> usernames[id].None?
      requires forall i :: 0 <= i < |rows| ==> rows[i].id in usernames
      modifies `usernames
      ensures usernames.Keys == old(usernames.Keys)
      ensures Named(usernames, rows, Names(Candidates(rows, fold)))
    {
      ghost var names: seq<string> := [];
      var used: set<string> := {};
      NothingNamedYet(usernames, rows, fold);
      for k := 0 to |rows|
        invariant usernames.Keys == old(usernames.Keys)
        invariant names == Names(Candidates(rows, fold)[..k]) && Named(usernames, rows, names)
        invariant forall n :: n in used <==> n in names
      {
        OneMoreName(usernames, rows, k, names, fold);
        used := NameRow(rows[k], fold, used, names);
        names := names + [Chosen(CandidateOf(rows[k], fold), names)];
      }
      EveryRowNamed(usernames, rows, names, fold);
    }

    /** The whole upgrade: MySQL refuses the UNIQUE constraint exactly when two rows collide. */
    method Upgrade(rows: seq<Row>, fold: string -> string) returns (r: Outcome)
      requires Ordered(rows) && !usernameUnique
      requires forall id :: id in usernames ==> usernames[id].None?
      requires forall i :: 0 <= i < |rows| ==> rows[i].id in usernames
      modifies this
      ensures usernames.Keys == old(usernames.Keys)
      ensures Named(usernames, rows, Names(Candidates(rows, fold)))
      ensures if NoCollision(Candidates(rows, fold)) then r.Done? && usernameUnique && NamesUnique()
              else r.Rejected? && !usernameUnique
    {
      Allocate(rows, fold);
      ghost var cs := Candidates(rows, fold);
      SuffixedNamesDiffer(rows, fold);
      DistinctExactlyWithoutCollision(cs);
      UniqueExactlyWhenDistinct(rows, Names(cs));
      r := Rejected;
      if NamesUnique() {
        usernameUnique, r := true, Done;
      }
    }

    lemma UniqueExactlyWhenDistinct(rows: seq<Row>, names: seq<string>)
      requires Ordered(rows) && |names| == |rows| && Named(usernames, rows, names)
      ensures NamesUnique() <==> Distinct(names)
    {
    }
  }

  // ---------- every name is well formed ----------

  lemma IdsAreShort(id: int)
    requires IsId(id)
    ensures |Numeral(id)| <= 19
  {
    assert Power10(4) == 10_000;
    assert Power10(8) == 100_000_000;
    assert Power10(12) == 1_000_000_000_000;
    assert Power10(16) == 10_000_000_000_000_000;
    assert Power10(19) == 10_000_000_000_000_000_000;
    NumeralLength(id, 19);
  }

  /** A prefix of a name, cut at any positive length, still starts and ends alphanumeric once stripped. */
  lemma CutKeepsShape(s: string, n: nat)
    requires s != [] && n > 0 && IsAlphanumeric(s[0]) && AllAllowed(s)
    ensures var r := StripRight(Take(s, n));
      1 <= |r| <= n && r <= s && StartsAndEndsAlphanumeric(r) && AllAllowed(r)
  {
    var t := Take(s, n);
    assert t[0] == s[0];
    assert StripRight(t) != [];
  }

  lemma {:induction false} StrippedShape(s: string)
    requires AllAllowed(s)
    ensures var r := StripLeft(StripRight(s)); AllAllowed(r) && (r != [] ==> StartsAndEndsAlphanumeric(r))
  {
  }

  lemma {:induction false} SourceShape(row: Row, fold: string -> string)
    requires IsId(row.id)
    ensures var s := if FromEmail(row, fold) then Slug(row, fold) else "staff-" + Numeral(row.id);
      StartsAndEndsAlphanumeric(s) && AllAllowed(s)
  {
    if FromEmail(row, fold) {
      StrippedShape(Substituted(fold(BeforeAt(if row.email.Some? then row.email.value else ""))));
    } else {
      var s := "staff-" + Numeral(row.id);
      assert s[0] == 's' && s[|s|-1] == Numeral(row.id)[|Numeral(row.id)|-1];
    }
  }

  lemma BaseIsWellFormed(row: Row, fold: string -> string)
    requires IsId(row.id)
    ensures WellFormed(Base(row, fold))
  {
    SourceShape(row, fold);
    CutKeepsShape(if FromEmail(row, fold) then Slug(row, fold) else "staff-" + Numeral(row.id), LIMIT);
  }

  lemma JoinIsWellFormed(x: string, id: int)
    requires IsId(id) && StartsAndEndsAlphanumeric(x) && AllAllowed(x) && |x| + |Suffix(id)| <= LIMIT
    ensures WellFormed(x + Suffix(id))
  {
  }

  lemma CandidateIsWellFormed(row: Row, fold: string -> string)
    requires IsId(row.id)
    ensures WellFormed(CandidateOf(row, fold).base) && WellFormed(CandidateOf(row, fold).suffixed)
  {
    BaseIsWellFormed(row, fold);
    CutKeepsShape(Base(row, fold), LIMIT - |Suffix(row.id)|);
    JoinIsWellFormed(StripRight(Take(Base(row, fold), LIMIT - |Suffix(row.id)|)), row.id);
  }

  /** Every name the migration writes uses only [a-z0-9._-], starts and ends alphanumeric and
      has between 1 and 64 characters. */
  lemma NamesAreWellFormed(rows: seq<Row>, fold: string -> string)
    requires Ordered(rows)
    ensures forall i :: 0 <= i < |rows| ==> WellFormed(Names(Candidates(rows, fold))[i])
  {
    var cs := Candidates(rows, fold);
    forall i | 0 <= i < |rows| ensures WellFormed(cs[i].base) && WellFormed(cs[i].suffixed) {
      CandidateIsWellFormed(rows[i], fold);
    }
    NamesMeaning(cs);
  }

  // ---------- when names are distinct ----------

  lemma {:induction false} RepeatedInPrefix(cs: seq<Candidate>, n: nat, i: nat)
    requires i < n <= |cs|
    ensures Repeated(cs[..n], i) == Repeated(cs, i)
  {
    forall j | 0 <= j < i ensures Repeated(cs[..n], j) == Repeated(cs, j) {
      RepeatedInPrefix(cs, n, j);
    }
  }

  /** A base is among the earlier names exactly when it is repeated. */
  lemma {:induction false} TakenExactlyWhenRepeated(cs: seq<Candidate>, i: nat)
    requires i < |cs|
    ensures Repeated(cs, i) <==> exists j :: 0 <= j < i && NameOf(cs, j) == cs[i].base
    decreases i
  {
    forall j | 0 <= j < i && cs[j].base == cs[i].base && Repeated(cs, j)
      ensures exists k :: 0 <= k < i && NameOf(cs, k) == cs[i].base
    {
      TakenExactlyWhenRepeated(cs, j);
      var k :| 0 <= k < j && NameOf(cs, k) == cs[j].base;
      assert k < i && NameOf(cs, k) == cs[i].base;
    }
    forall j | 0 <= j < i && (cs[j].base == cs[i].base || (Repeated(cs, j) && cs[j].suffixed == cs[i].base))
      ensures exists k :: 0 <= k < i && NameOf(cs, k) == cs[i].base
    {
      if !Repeated(cs, j) || cs[j].base != cs[i].base { assert NameOf(cs, j) == cs[i].base; }
    }
  }

  /** The loop's names, row by row: a suffix exactly for the repeated rows. */
  lemma {:induction false} NamesMeaning(cs: seq<Candidate>)
    ensures forall i :: 0 <= i < |cs| ==> Names(cs)[i] == NameOf(cs, i)
  {
    if cs != [] {
      var n := |cs| - 1;
      NamesMeaning(cs[..n]);
      forall i | 0 <= i < n ensures Names(cs)[i] == NameOf(cs, i) {
        RepeatedInPrefix(cs, n, i);
      }
      TakenExactlyWhenRepeated(cs, n);
      assert Names(cs)[n] == Chosen(cs[n], Names(cs[..n]));
      assert forall i :: 0 <= i < n ==> Names(cs[..n])[i] == NameOf(cs, i);
    }
  }

  lemma JoinedIdsDiffer(x: string, m: int, y: string, n: int)
    requires IsId(m) && IsId(n) && m != n
    ensures x + Suffix(m) != y + Suffix(n)
  {
    assert x + Suffix(m) == x + ['-'] + Numeral(m);
    assert y + Suffix(n) == y + ['-'] + Numeral(n);
    if x + ['-'] + Numeral(m) == y + ['-'] + Numeral(n) {
      LastNumeralIsDetermined(x, m, y, n, '-');
      assert false;
    }
  }

  /** The digits after the last '-' recover the id, so no two suffixed names coincide. */
  lemma SuffixedNamesDiffer(rows: seq<Row>, fold: string -> string)
    requires Ordered(rows)
    ensures SuffixedDistinct(Candidates(rows, fold))
  {
    var cs := Candidates(rows, fold);
    forall i, j | 0 <= j < i < |cs| ensures cs[i].suffixed != cs[j].suffixed {
      JoinedIdsDiffer(
        StripRight(Take(Base(rows[i], fold), LIMIT - |Suffix(rows[i].id)|)), rows[i].id,
        StripRight(Take(Base(rows[j], fold), LIMIT - |Suffix(rows[j].id)|)), rows[j].id);
    }
  }

  lemma CollisionRepeatsAName(cs: seq<Candidate>, i: nat, j: nat) returns (k: nat)
    requires j < i < |cs| && Collides(cs, i, j)
    ensures k < i && NameOf(cs, k) == NameOf(cs, i)
  {
    k := j;
    if Repeated(cs, j) {
      TakenExactlyWhenRepeated(cs, j);
      k :| 0 <= k < j && NameOf(cs, k) == cs[j].base;
    }
  }

  /** The migration's names are pairwise distinct exactly when no repeated row's suffixed name
      is the base of an earlier row. */
  lemma DistinctExactlyWithoutCollision(cs: seq<Candidate>)
    requires SuffixedDistinct(cs)
    ensures Distinct(Names(cs)) <==> NoCollision(cs)
  {
    NamesMeaning(cs);
    var names := Names(cs);
    if NoCollision(cs) {
      forall j, i | 0 <= j < i < |names| ensures names[j] != names[i] {
        TakenExactlyWhenRepeated(cs, i);
        assert !Collides(cs, i, j);
      }
    } else {
      var i, j :| 0 <= j < i < |cs| && Collides(cs, i, j);
      var k := CollisionRepeatsAName(cs, i, j);
      assert names[k] == names[i];
    }
  }

  lemma {:induction false} WellFormedIsKept(name: string, n: nat)
    requires StartsAndEndsAlphanumeric(name) && |name| <= n
    ensures StripLeft(StripRight(name)) == name && StripRight(Take(name, n)) == name
  {
  }

  /** A name made from the id alone never ends in another row's id. */
  lemma {:induction false} FallbackEndsInOwnId(row: Row, fold: string -> string, x: string, id: int)
    requires IsId(row.id) && !FromEmail(row, fold) && IsId(id) && id != row.id
    ensures Base(row, fold) != x + Suffix(id)
  {
    FallbackIsWhole(row, fold);
    JoinedIdsDiffer("staff", row.id, x, id);
  }

  lemma {:induction false} FallbackIsWhole(row: Row, fold: string -> string)
    requires IsId(row.id) && !FromEmail(row, fold)
    ensures Base(row, fold) == "staff" + Suffix(row.id)
  {
    var s := "staff-" + Numeral(row.id);
    assert s == "staff" + Suffix(row.id);
    assert s[0] == 's' && s[|s|-1] == Numeral(row.id)[|Numeral(row.id)|-1];
    WellFormedIsKept(s, LIMIT);
  }

  lemma SuffixIsCut(base: string, x: string, suffix: string)
    ensures base == x + suffix ==> |suffix| <= |base| && base[|base|-|suffix|..] == suffix
  {
  }

  lemma CollisionEndsInLaterId(rows: seq<Row>, i: nat, j: nat, fold: string -> string)
    requires Ordered(rows) && j < i < |rows|
    ensures Candidates(rows, fold)[i].suffixed == Candidates(rows, fold)[j].base ==>
      FromEmail(rows[j], fold) && EndsInLaterId(rows, j, i, fold)
  {
    var x, suffix := StripRight(Take(Base(rows[i], fold), LIMIT - |Suffix(rows[i].id)|)), Suffix(rows[i].id);
    SuffixIsCut(Base(rows[j], fold), x, suffix);
    if !FromEmail(rows[j], fold) { FallbackEndsInOwnId(rows[j], fold, x, rows[i].id); }
  }

  /** A simple condition on the addresses that suffices: no name taken from an email ends in
      '-' and the id of a later row. */
  lemma NoLaterIdSuffices(rows: seq<Row>, fold: string -> string)
    requires Ordered(rows)
    requires forall i, j :: 0 <= j < i < |rows| && FromEmail(rows[j], fold) ==> !EndsInLaterId(rows, j, i, fold)
    ensures Distinct(Names(Candidates(rows, fold)))
  {
    var cs := Candidates(rows, fold);
    forall i, j | 0 <= j < i < |cs| ensures !Collides(cs, i, j) {
      CollisionEndsInLaterId(rows, i, j, fold);
    }
    SuffixedNamesDiffer(rows, fold);
    DistinctExactlyWithoutCollision(cs);
  }

  lemma PlainTextIsKept(s: string, inRun: bool)
    requires AllAllowed(s)
    ensures Substituted(s, inRun) == s
  {
  }

  /** Text up to a run of other characters, and the text after it, are substituted on their own. */
  lemma {:induction false} SubstitutedSplits(a: string, rest: string, inRun: bool)
    requires a != [] && IsAllowed(a[|a|-1])
    ensures Substituted(a + rest, inRun) == Substituted(a, inRun) + Substituted(rest, false)
  {
    var next := !IsAllowed(a[0]);
    assert (a + rest)[0] == a[0] && (a + rest)[1..] == a[1..] + rest;
    if |a| > 1 {
      SubstitutedSplits(a[1..], rest, next);
    } else {
      assert a[1..] == [] && [] + rest == rest;
    }
  }

  lemma {:induction false} RunIsDropped(run: string, b: string)
    requires (forall i :: 0 <= i < |run| ==> !IsAllowed(run[i])) && (b != [] ==> IsAllowed(b[0]))
    ensures Substituted(run + b, true) == Substituted(b, false)
  {
    if run == [] {
      assert run + b == b;
    } else {
      assert (run + b)[0] == run[0] && (run + b)[1..] == run[1..] + b;
      RunIsDropped(run[1..], b);
    }
  }

  /** re.sub: each maximal run of disallowed characters, wherever it stands, becomes one '-'.
      With PlainTextIsKept this determines the substitution of every text. */
  lemma {:induction false} RunBecomesOneDash(a: string, run: string, b: string)
    requires run != [] && forall i :: 0 <= i < |run| ==> !IsAllowed(run[i])
    requires (a != [] ==> IsAllowed(a[|a|-1])) && (b != [] ==> IsAllowed(b[0]))
    ensures Substituted(a + (run + b)) == Substituted(a) + ['-'] + Substituted(b)
  {
    RunStartsWithDash(run, b);
    if a == [] {
      assert a + (run + b) == run + b;
    } else {
      SubstitutedSplits(a, run + b, false);
    }
  }

  lemma {:induction false} RunStartsWithDash(run: string, b: string)
    requires run != [] && forall i :: 0 <= i < |run| ==> !IsAllowed(run[i])
    requires b != [] ==> IsAllowed(b[0])
    ensures Substituted(run + b, false) == ['-'] + Substituted(b, false)
  {
    assert (run + b)[0] == run[0] && (run + b)[1..] == run[1..] + b;
    RunIsDropped(run[1..], b);
  }

  lemma LocalPart(s: string, domain: string)
    requires '@' !in s
    ensures BeforeAt(s + ['@'] + domain) == s
  {
    if s != [] {
      LocalPart(s[1..], domain);
      assert (s + ['@'] + domain)[1..] == s[1..] + ['@'] + domain;
    }
  }

  predicate AllPunctuation(s: string) {
    forall i :: 0 <= i < |s| ==> IsPunctuation(s[i])
  }

  /** `r` is what is left of the first n characters of `s` without the punctuation at their end. */
  predicate IsCutOf(r: string, s: string, n: nat) {
    && r <= s && |r| <= n && (r != [] ==> !IsPunctuation(r[|r|-1]))
    && forall i :: |r| <= i < n && i < |s| ==> IsPunctuation(s[i])
  }

  lemma {:induction false} StrippedOf(p: string, slug: string, q: string)
    requires AllPunctuation(p) && AllPunctuation(q) && (slug != [] ==> StartsAndEndsAlphanumeric(slug))
    ensures StripLeft(StripRight(p + slug + q)) == slug
  {
    var s := p + slug + q;
    var r := StripRight(s);
    if slug != [] {
      assert s[|p| + |slug| - 1] == slug[|slug|-1] && s[|p|] == slug[0];
      assert r == p + slug;
      var l := StripLeft(r);
      assert l == slug;
    } else {
      assert AllPunctuation(s);
    }
  }

  lemma CutIsCutOf(s: string, n: nat)
    ensures IsCutOf(StripRight(Take(s, n)), s, n)
  {
  }

  /** The base of any address, from how its substituted local part is made of punctuation, a
      middle that begins and ends alphanumeric, and punctuation: the middle, cut to 64
      characters, when it has at least three; otherwise the name made from the id. */
  lemma {:induction false} BaseOfAddress(row: Row, fold: string -> string, p: string, slug: string, q: string)
    requires IsId(row.id) && AllPunctuation(p) && AllPunctuation(q) && (slug != [] ==> StartsAndEndsAlphanumeric(slug))
    requires Substituted(fold(BeforeAt(if row.email.Some? then row.email.value else ""))) == p + slug + q
    ensures FromEmail(row, fold) <==> |slug| >= 3
    ensures |slug| < 3 ==> Base(row, fold) == "staff-" + Numeral(row.id)
    ensures |slug| >= 3 ==> Base(row, fold) != [] && IsCutOf(Base(row, fold), slug, 64)
  {
    StrippedOf(p, slug, q);
    BaseOfSlug(row, fold);
  }

  lemma {:induction false} BaseOfSlug(row: Row, fold: string -> string)
    requires IsId(row.id)
    ensures |Slug(row, fold)| < 3 ==> Base(row, fold) == "staff-" + Numeral(row.id)
    ensures |Slug(row, fold)| >= 3 ==> Base(row, fold) != [] && IsCutOf(Base(row, fold), Slug(row, fold), 64)
  {
    if FromEmail(row, fold) {
      CutIsCutOf(Slug(row, fold), LIMIT);
      BaseIsWellFormed(row, fold);
    } else {
      FallbackIsWhole(row, fold);
      FallbackText(row.id);
    }
  }

  lemma FallbackText(id: int)
    requires IsId(id)
    ensures "staff" + Suffix(id) == "staff-" + Numeral(id)
  {
  }

  /** Every local part has such a form, so BaseOfAddress covers every address. */
  lemma {:induction false} EveryTextSplits(s: string) returns (p: string, slug: string, q: string)
    requires AllAllowed(s)
    ensures s == p + slug + q && AllPunctuation(p) && AllPunctuation(q)
    ensures slug != [] ==> StartsAndEndsAlphanumeric(slug)
  {
    var r := StripRight(s);
    slug := StripLeft(r);
    StrippedShape(s);
    p, q := r[..|r|-|slug|], s[|r|..];
    SplitsInThree(s, r, slug);
  }

  lemma SplitsInThree(s: string, r: string, slug: string)
    requires r <= s && |slug| <= |r| && slug == r[|r|-|slug|..]
    ensures s == r[..|r|-|slug|] + slug + s[|r|..]
  {
    assert r == r[..|r|-|slug|] + slug;
    assert s == r + s[|r|..];
  }

  /** What a suffix leaves of the base: as much as fits into 64 characters, without punctuation
      at its end. */
  lemma SuffixedIsCut(row: Row, fold: string -> string)
    requires IsId(row.id)
    ensures var c, suffix := CandidateOf(row, fold), "-" + Numeral(row.id);
      && c.base == Base(row, fold) && |suffix| <= 20 && |c.suffixed| <= 64 && |suffix| <= |c.suffixed|
      && c.suffixed[|c.suffixed|-|suffix|..] == suffix
      && IsCutOf(c.suffixed[..|c.suffixed|-|suffix|], c.base, 64 - |suffix|)
  {
    var suffix := Suffix(row.id);
    var kept := StripRight(Take(Base(row, fold), LIMIT - |suffix|));
    CutIsCutOf(Base(row, fold), LIMIT - |suffix|);
    assert CandidateOf(row, fold).suffixed == kept + suffix;
    assert (kept + suffix)[..|kept|] == kept && (kept + suffix)[|kept|..] == suffix;
  }

  /** A local part that is already a valid name becomes the base as it is. */
  lemma {:induction false} PlainName(row: Row, fold: string -> string, name: string)
    requires IsId(row.id) && row.email.Some? && fold(BeforeAt(row.email.value)) == name
    requires WellFormed(name) && |name| >= 3
    ensures Base(row, fold) == name
  {
    PlainTextIsKept(name, false);
    WellFormedIsKept(name, LIMIT);
    assert Slug(row, fold) == name;
  }

  lemma {:induction false} PlainRowName(id: int, name: string, domain: string, fold: string -> string)
    requires IsId(id) && WellFormed(name) && 3 <= |name| && fold(name) == name
    ensures CandidateOf(PlainRow(id, name, domain), fold).base == name
    ensures |name| <= 44 ==> CandidateOf(PlainRow(id, name, domain), fold).suffixed == name + Suffix(id)
  {
    LocalPart(name, domain);
    PlainName(PlainRow(id, name, domain), fold, name);
    if |name| <= 44 { WellFormedIsKept(name, LIMIT - |Suffix(id)|); }
  }

  lemma ThirdCollides(cs: seq<Candidate>)
    requires |cs| == 3 && cs[1].base == cs[2].base && cs[2].suffixed == cs[0].base
    ensures !NoCollision(cs)
  {
    assert Collides(cs, 2, 0);
  }

  /** Addresses for which the migration fails, such as bob-3@x, bob@x and bob@y for users 1, 2
      and 3: the third user's bob-3 is already the first user's name. */
  lemma {:induction false} AddressesCanCollide(rows: seq<Row>, name: string, domain: string, fold: string -> string)
    requires Ordered(rows) && |rows| == 3 && WellFormed(name) && 3 <= |name| <= 44
    requires var numbered := name + Suffix(rows[2].id); fold(name) == name && fold(numbered) == numbered
    requires rows[0] == PlainRow(rows[0].id, name + Suffix(rows[2].id), domain)
    requires rows[1] == PlainRow(rows[1].id, name, domain) && rows[2] == PlainRow(rows[2].id, name, domain)
    ensures !NoCollision(Candidates(rows, fold))
  {
    JoinIsWellFormed(name, rows[2].id);
    PlainRowName(rows[0].id, name + Suffix(rows[2].id), domain, fold);
    PlainRowName(rows[1].id, name, domain, fold);
    PlainRowName(rows[2].id, name, domain, fold);
    ThirdCollides(Candidates(rows, fold));
  }
}
