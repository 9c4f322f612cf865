/** The username search of internal/handler/auth.go and the users table of internal/db/users.go. */
module Usernames {
  import opened Entities

  datatype User = User(sub: string, email: string, name: string, username: string)

  // ---------- Decimal suffixes ----------

  const DIGITS := "0123456789"

  function Decimal(n: nat): string {
    if n < 10 then [DIGITS[n]] else Decimal(n / 10) + [DIGITS[n % 10]]
  }

  function Value(c: char): int {
    c as int - '0' as int
  }

  function Parse(s: string): int {
    if s == [] then 0 else Parse(s[..|s| - 1]) * 10 + Value(s[|s| - 1])
  }

  lemma {:induction false} ParseInvertsDecimal(n: nat)
    ensures Decimal(n) != [] && Parse(Decimal(n)) == n && (Decimal(n)[0] == '0' ==> Decimal(n) == "0")
  {
    if n < 10 {
      assert [DIGITS[n]][..0] == [];
    } else {
      ParseInvertsDecimal(n / 10);
      assert Decimal(n)[..|Decimal(n)| - 1] == Decimal(n / 10);
    }
  }

  /** fmt.Sprintf("%s-%d", base, i), with the base itself in place of number 1. */
  function Candidate(base: string, i: nat): string {
    if i <= 1 then base else base + "-" + Decimal(i)
  }

  lemma CandidatesDiffer(base: string, i: nat, j: nat)
    requires 1 <= i < j
    ensures Candidate(base, i) != Candidate(base, j)
  {
    ParseInvertsDecimal(i);
    ParseInvertsDecimal(j);
    assert Candidate(base, j)[|base| + 1..] == Decimal(j);
    if i > 1 {
      assert Candidate(base, i)[|base| + 1..] == Decimal(i);
    }
  }

  // ---------- The table ----------

  /** UNIQUE(oidc_sub), UNIQUE(username) */
  predicate Unique(users: seq<User>) {
    forall i, j :: 0 <= i < j < |users| ==> users[i].sub != users[j].sub && users[i].username != users[j].username
  }

  function FindByUsername(users: seq<User>, username: string): (r: Option<User>)
    ensures r.Some? ==> r.value in users && r.value.username == username
    ensures r.None? ==> forall u :: u in users ==> u.username != username
  {
    if users == [] then None
    else if users[|users| - 1].username == username then Some(users[|users| - 1])
    else FindByUsername(users[..|users| - 1], username)
  }

  predicate HasSub(users: seq<User>, sub: string) {
    exists i :: 0 <= i < |users| && users[i].sub == sub
  }

  /** The name belongs to a user with another subject. */
  predicate TakenByOther(users: seq<User>, username: string, sub: string) {
    var found := FindByUsername(users, username); found.Some? && found.value.sub != sub
  }

  lemma TakenExactly(users: seq<User>, username: string, sub: string)
    requires Unique(users)
    ensures TakenByOther(users, username, sub) <==> exists u :: u in users && u.username == username && u.sub != sub
  {
    if u :| u in users && u.username == username && u.sub != sub {
      var i :| 0 <= i < |users| && users[i] == u;
      var j :| 0 <= j < |users| && users[j] == FindByUsername(users, username).value;
    }
  }

  ghost function OtherNames(users: seq<User>, sub: string): set<string> {
    set u | u in users && u.sub != sub :: u.username
  }

  ghost function Tried(base: string, n: nat): set<string> {
    set i | 1 <= i <= n :: Candidate(base, i)
  }

  lemma NotTriedYet(base: string, n: nat)
    requires n > 0
    ensures Candidate(base, n) !in Tried(base, n - 1)
  {
    forall i | 1 <= i <= n - 1 ensures Candidate(base, i) != Candidate(base, n) {
      CandidatesDiffer(base, i, n);
    }
  }

  lemma OneMoreTried(base: string, n: nat)
    requires n > 0
    ensures Tried(base, n) == Tried(base, n - 1) + {Candidate(base, n)}
  {
  }

  lemma {:induction false} TriedSize(base: string, n: nat)
    ensures |Tried(base, n)| == n
  {
    if n > 0 {
      TriedSize(base, n - 1);
      NotTriedYet(base, n);
      OneMoreTried(base, n);
    } else {
      assert Tried(base, 0) == {};
    }
  }

  lemma {:induction false} SubsetSize<T>(a: set<T>, b: set<T>)
    requires a <= b
    ensures |a| <= |b|
  {
    if a != {} {
      var x :| x in a;
      SubsetSize(a - {x}, b - {x});
    }
  }

  function OtherUsers(users: seq<User>, sub: string): nat {
    if users == [] then 0
    else OtherUsers(users[..|users| - 1], sub) + if users[|users| - 1].sub != sub then 1 else 0
  }

  lemma {:induction false} OtherNamesSize(users: seq<User>, sub: string)
    ensures |OtherNames(users, sub)| <= OtherUsers(users, sub)
  {
    if users == [] {
      assert OtherNames(users, sub) == {};
    } else {
      var front, last := users[..|users| - 1], users[|users| - 1];
      OtherNamesSize(front, sub);
      var more := if last.sub != sub then {last.username} else {};
      assert OtherNames(users, sub) == OtherNames(front, sub) + more by {
        assert forall u :: u in users <==> u in front || u == last;
      }
    }
  }

  /** Pigeonhole: n candidates in a row that others hold need n other users. */
  lemma TriesAreBounded(users: seq<User>, base: string, sub: string, n: nat)
    requires forall i :: 1 <= i <= n ==> TakenByOther(users, Candidate(base, i), sub)
    ensures n <= OtherUsers(users, sub)
  {
    TriedSize(base, n);
    SubsetSize(Tried(base, n), OtherNames(users, sub));
    OtherNamesSize(users, sub);
  }

  lemma StaysTaken(users: seq<User>, later: seq<User>, username: string, sub: string)
    requires users <= later && Unique(later) && TakenByOther(users, username, sub)
    ensures TakenByOther(later, username, sub)
  {
    var holder, found := FindByUsername(users, username).value, FindByUsername(later, username);
    var i :| 0 <= i < |users| && users[i] == holder;
    assert later[i] == holder;
    var j :| 0 <= j < |later| && later[j] == found.value;
  }

  lemma {:induction false} OtherUsersGrow(users: seq<User>, later: seq<User>, sub: string)
    requires users <= later
    ensures OtherUsers(users, sub) <= OtherUsers(later, sub)
    decreases |later|
  {
    if |users| < |later| {
      OtherUsersGrow(users, later[..|later| - 1], sub);
    } else {
      assert users == later;
    }
  }

  /** The tables that successive lookups see while other logins add users; last is one that none of them outgrows. */
  ghost predicate Grows(tables: nat -> seq<User>, last: seq<User>) {
    && Unique(last)
    && (forall i: nat :: tables(i) <= last)
    && (forall i: nat, j: nat :: i <= j ==> tables(i) <= tables(j))
  }

  /** The first n candidates were taken by others when they were looked up. */
  ghost predicate AllTaken(tables: nat -> seq<User>, base: string, sub: string, n: nat) {
    forall i: nat :: 1 <= i <= n ==> TakenByOther(tables(i), Candidate(base, i), sub)
  }

  lemma OneMoreTaken(tables: nat -> seq<User>, base: string, sub: string, n: nat)
    requires AllTaken(tables, base, sub, n) && TakenByOther(tables(n + 1), Candidate(base, n + 1), sub)
    ensures AllTaken(tables, base, sub, n + 1)
  {
  }

  lemma PrefixIsUnique(users: seq<User>, later: seq<User>)
    requires users <= later && Unique(later)
    ensures Unique(users)
  {
  }

  /**
    * Names that were taken at their lookups are taken still, so the pigeonhole bound holds in the table of the last
    * one.
    */
  lemma TriesAreBoundedWhileGrowing(tables: nat -> seq<User>, last: seq<User>, base: string, sub: string, n: nat)
    requires Grows(tables, last) && AllTaken(tables, base, sub, n)
    ensures n <= OtherUsers(tables(n + 1), sub) <= OtherUsers(last, sub)
  {
    forall i: nat | 1 <= i <= n ensures TakenByOther(tables(n), Candidate(base, i), sub) {
      PrefixIsUnique(tables(n), last);
      StaysTaken(tables(i), tables(n), Candidate(base, i), sub);
    }
    TriesAreBounded(tables(n), base, sub, n);
    OtherUsersGrow(tables(n), tables(n + 1), sub);
    OtherUsersGrow(tables(n + 1), last, sub);
  }

  lemma NextCandidate(base: string, i: nat)
    requires i >= 2
    ensures base + "-" + Decimal(i) == Candidate(base, i) && Candidate(base, 1) == base
  {
  }

  /**
    * One lookup of the loop, internal/handler/auth.go:62-73: the search ends with a name that is free or the subject's.
    */
  method MayTake(users: seq<User>, username: string, sub: string) returns (ok: bool)
    ensures ok <==> !TakenByOther(users, username, sub)
  {
    var existing := FindByUsername(users, username);
    ok := existing.None? || existing.value.sub == sub;
  }

  /**
    * internal/handler/auth.go:60-76. Each lookup is a statement of its own: number i reads tables(i), and other logins
    * may add users in between.
    */
  method ChooseUsername(tables: nat -> seq<User>, base: string, sub: string, ghost last: seq<User>)
    returns (username: string, tries: nat)
    requires Grows(tables, last)
    ensures 1 <= tries <= OtherUsers(tables(tries), sub) + 1
    ensures username == Candidate(base, tries)
    ensures !TakenByOther(tables(tries), username, sub)
    ensures AllTaken(tables, base, sub, tries - 1)
  {
    username := base;
    var i := 2;
    while true
      invariant i >= 2 && username == Candidate(base, i - 1) && AllTaken(tables, base, sub, i - 2)
      decreases OtherUsers(last, sub) + 3 - i
    {
      TriesAreBoundedWhileGrowing(tables, last, base, sub, i - 2);
      var ok := MayTake(tables(i - 1), username, sub);
      if ok {
        return username, i - 1;
      }
      OneMoreTaken(tables, base, sub, i - 2);
      NextCandidate(base, i);
      username := base + "-" + Decimal(i);
      i := i + 1;
    }
  }

  datatype UpsertError = UsernameTaken

  /** INSERT ... ON CONFLICT(oidc_sub) DO NOTHING: only the subject is forgiven. */
  function Upserted(users: seq<User>, u: User): Result<seq<User>, UpsertError> {
    if HasSub(users, u.sub) then Ok(users)
    else if FindByUsername(users, u.username).Some? then Err(UsernameTaken)
    else Ok(users + [u])
  }

  /** A name that no other subject holds never makes the insert fail. */
  lemma FreeNameUpserts(users: seq<User>, u: User)
    requires !TakenByOther(users, u.username, u.sub)
    ensures Upserted(users, u).Ok?
    ensures !HasSub(users, u.sub) ==> Upserted(users, u) == Ok(users + [u])
  {
  }

  class UserTable {
    var users: seq<User>

    constructor ()
      ensures users == []
    {
      users := [];
    }

    /** internal/db/users.go:29-39 */
    method UpsertUser(u: User) returns (r: Result<User, UpsertError>)
      requires Unique(users)
      modifies this
      ensures Upserted(old(users), u) == if r.Ok? then Ok(users) else Err(UsernameTaken)
      ensures Unique(users)
      ensures r.Err? ==> users == old(users)
      ensures r.Ok? ==> r.value in users && r.value.sub == u.sub
    {
      if HasSub(users, u.sub) {
        var i :| 0 <= i < |users| && users[i].sub == u.sub;
        return Ok(users[i]);
      }
      if FindByUsername(users, u.username).Some? {
        return Err(UsernameTaken);
      }
      users := users + [u];
      return Ok(u);
    }

    /**
      * internal/handler/auth.go:60-82: a login never fails on the name; it leaves the table alone when the subject is
      * known and otherwise adds one user under the first candidate nobody else holds.
      */
    method Login(sub: string, email: string, name: string, base: string) returns (user: User)
      requires Unique(users)
      modifies this
      ensures Unique(users) && user in users && user.sub == sub
      ensures HasSub(old(users), sub) ==> users == old(users)
      ensures !HasSub(old(users), sub) ==> users == old(users) + [user]
      ensures !HasSub(old(users), sub) && !TakenByOther(old(users), base, sub) ==> user.username == base
      ensures !HasSub(old(users), sub) ==>
                exists n: nat :: n >= 1 && user == User(sub, email, name, Candidate(base, n))
                                 && forall i :: 1 <= i < n ==> TakenByOther(old(users), Candidate(base, i), sub)
    {
      var table := users;
      var username, tries := ChooseUsername(_ => table, base, sub, users);
      var r := UpsertUser(User(sub, email, name, username));
      FreeNameUpserts(old(users), User(sub, email, name, username));
      user := r.value;
      assert tries > 1 ==> TakenByOther(table, Candidate(base, 1), sub);
    }
  }

  lemma NobodyHasName(users: seq<User>, u: User)
    requires !TakenByOther(users, u.username, u.sub) && !HasSub(users, u.sub)
    ensures forall v :: v in users ==> v.username != u.username
  {
  }

  /**
    * With other logins between the search and the insert: the insert fails exactly when one of them took the name and
    * none of them was of the same subject, and otherwise subjects and names stay unique.
    */
  lemma RacingInsertFailsExactly(searched: seq<User>, added: seq<User>, u: User)
    requires Unique(searched + added) && !TakenByOther(searched, u.username, u.sub) && !HasSub(searched, u.sub)
    ensures var r := Upserted(searched + added, u);
            && (r.Err? <==> !HasSub(added, u.sub) && exists v :: v in added && v.username == u.username)
            && (r.Ok? ==> Unique(r.value) && HasSub(r.value, u.sub))
  {
    var users := searched + added;
    assert HasSub(users, u.sub) <==> HasSub(added, u.sub) by {
      if i :| 0 <= i < |added| && added[i].sub == u.sub {
        assert users[|searched| + i].sub == u.sub;
      }
    }
    NobodyHasName(searched, u);
    assert forall v :: v in users <==> v in searched || v in added;
    if Upserted(users, u) == Ok(users + [u]) {
      assert (users + [u])[|users|].sub == u.sub;
    }
  }
}
