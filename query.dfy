/** The persistence layer of the user feature (features/users/data/query.go),
    as an in-memory store of three tables: users, reset codes and
    verification codes. Each query is a filter over the rows; rows are kept
    in insertion order, which is also primary-key order. */
module UserStore {
  import opened Wrappers
  import opened GoTime
  import opened Users

  /** GORM's error text when `First` finds no row. */
  const RecordNotFound: string := "record not found"
  const DataNotFound: string := "ERROR Data Not Found"
  const IncorrectPassword: string := "ERROR Incorrect Password"
  const NoRowAffected: string := "ERROR Update Profile Error : No Row Affected"
  /** GORM's error for an update chain that names neither a model nor a table (the source
      prefixes it with the unsupported-data-type error of the update's map). */
  const TableNotSet: string := "Table not set, please set it like: db.Model(&user) or db.Table(\"users\")"

  /** How long a freshly inserted one-time code stays valid. */
  const CodeLifetime: int := 10 * Minute

  // ---------------------------------------------------------------------------
  // Queries over rows
  // ---------------------------------------------------------------------------

  /** The row matches `username = ? AND status = true`. */
  predicate ActiveNamed(u: User, username: string) {
    u.username == username && u.status
  }

  /** The position of the first active row with this username (what `First` returns), if any. */
  function FirstActive(users: seq<User>, username: string): (r: Option<nat>)
    ensures r.Some? ==> r.value < |users| && ActiveNamed(users[r.value], username)
    ensures r.Some? ==> forall j :: 0 <= j < r.value ==> !ActiveNamed(users[j], username)
    ensures r.None? <==> forall j :: 0 <= j < |users| ==> !ActiveNamed(users[j], username)
  {
    if users == [] then None
    else if ActiveNamed(users[0], username) then Some(0)
    else match FirstActive(users[1..], username)
      case None => None
      case Some(i) => Some(i + 1)
  }

  /** `SELECT count(*) FROM users WHERE username = ?`, active or not. */
  function CountNamed(users: seq<User>, username: string): (n: nat)
    ensures n <= |users|
    ensures n == 0 <==> forall i :: 0 <= i < |users| ==> users[i].username != username
  {
    if users == [] then 0
    else (if users[0].username == username then 1 else 0) + CountNamed(users[1..], username)
  }

  /** The position of the first code row holding `code`, if any. */
  function FirstWithCode(rows: seq<CodeRecord>, code: string): (r: Option<nat>)
    ensures r.Some? ==> r.value < |rows| && rows[r.value].code == code
    ensures r.Some? ==> forall j :: 0 <= j < r.value ==> rows[j].code != code
    ensures r.None? <==> forall j :: 0 <= j < |rows| ==> rows[j].code != code
  {
    if rows == [] then None
    else if rows[0].code == code then Some(0)
    else match FirstWithCode(rows[1..], code)
      case None => None
      case Some(i) => Some(i + 1)
  }

  /** The record `First` returns for `code = ?`. */
  function LookupCode(rows: seq<CodeRecord>, code: string): (r: Option<CodeRecord>)
    ensures r.Some? ==> r.value in rows && r.value.code == code
    ensures r.None? <==> forall j :: 0 <= j < |rows| ==> rows[j].code != code
  {
    match FirstWithCode(rows, code)
    case None => None
    case Some(i) => Some(rows[i])
  }

  /** `DELETE ... WHERE code = ?`: the rows that survive, in their order. */
  function WithoutCode(rows: seq<CodeRecord>, code: string): (r: seq<CodeRecord>)
    ensures |r| <= |rows|
    ensures forall i :: 0 <= i < |r| ==> r[i].code != code
  {
    if rows == [] then []
    else if rows[0].code == code then WithoutCode(rows[1..], code)
    else [rows[0]] + WithoutCode(rows[1..], code)
  }

  /** Deleting removes every copy of the rows with the code and keeps every copy of the others. */
  lemma {:induction false} WithoutCodeCounts(rows: seq<CodeRecord>, code: string)
    ensures forall x :: multiset(WithoutCode(rows, code))[x] == if x.code == code then 0 else multiset(rows)[x]
    ensures forall x :: x in rows && x.code != code ==> x in WithoutCode(rows, code)
    ensures forall x :: x in WithoutCode(rows, code) ==> x in rows
  {
    if rows != [] {
      WithoutCodeCounts(rows[1..], code);
      assert rows == [rows[0]] + rows[1..];
    }
  }

  /** A delete keeps the first row exactly when its code differs, and treats the rest alike. */
  lemma WithoutCodeFirst(row: CodeRecord, rest: seq<CodeRecord>, code: string)
    ensures WithoutCode([row] + rest, code) == (if row.code == code then [] else [row]) + WithoutCode(rest, code)
  {
    assert ([row] + rest)[0] == row && ([row] + rest)[1..] == rest;
  }

  /** Deleting keeps the surviving rows in table order: it acts on each part of a split table
      separately and puts the survivors back together in the same order. */
  lemma {:induction false} WithoutCodeKeepsOrder(front: seq<CodeRecord>, back: seq<CodeRecord>, code: string)
    ensures WithoutCode(front + back, code) == WithoutCode(front, code) + WithoutCode(back, code)
  {
    if front == [] {
      assert front + back == back;
    } else {
      var row, rest := front[0], front[1..];
      assert front == [row] + rest;
      assert front + back == [row] + (rest + back);
      WithoutCodeKeepsOrder(rest, back, code);
      WithoutCodeFirst(row, rest, code);
      WithoutCodeFirst(row, rest + back, code);
      var kept: seq<CodeRecord> := if row.code == code then [] else [row];
      var restKept, backKept := WithoutCode(rest, code), WithoutCode(back, code);
      assert WithoutCode(front + back, code) == kept + (restKept + backKept);
      assert WithoutCode(front, code) == kept + restKept;
      assert kept + (restKept + backKept) == (kept + restKept) + backKept;
    }
  }

  /** Deleting a code that no row holds leaves the table as it was. */
  lemma {:induction false} WithoutAbsentCode(rows: seq<CodeRecord>, code: string)
    requires forall j :: 0 <= j < |rows| ==> rows[j].code != code
    ensures WithoutCode(rows, code) == rows
  {
    if rows != [] {
      WithoutAbsentCode(rows[1..], code);
      assert [rows[0]] + rows[1..] == rows;
    }
  }

  /** `UPDATE users SET password = ? WHERE username = ?`. */
  function WithPassword(users: seq<User>, username: string, password: string): (r: seq<User>)
    ensures |r| == |users|
    ensures forall i :: 0 <= i < |users| ==>
      r[i] == if users[i].username == username then users[i].(password := password) else users[i]
  {
    seq(|users|, i requires 0 <= i < |users| =>
      if users[i].username == username then users[i].(password := password) else users[i])
  }

  /** `UPDATE users SET status = ? WHERE username = ?`. */
  function WithStatusNamed(users: seq<User>, username: string, status: bool): (r: seq<User>)
    ensures |r| == |users|
    ensures forall i :: 0 <= i < |users| ==>
      r[i] == if users[i].username == username then users[i].(status := status) else users[i]
  {
    seq(|users|, i requires 0 <= i < |users| =>
      if users[i].username == username then users[i].(status := status) else users[i])
  }

  /** `UPDATE users SET status = ? WHERE id = ?`. */
  function WithStatusId(users: seq<User>, id: nat, status: bool): (r: seq<User>)
    ensures |r| == |users|
    ensures forall i :: 0 <= i < |users| ==>
      r[i] == if users[i].id == id then users[i].(status := status) else users[i]
  {
    seq(|users|, i requires 0 <= i < |users| =>
      if users[i].id == id then users[i].(status := status) else users[i])
  }

  /** GORM's `Updates` with a struct writes only the non-zero fields: an empty string leaves the column as it was. */
  function ApplyProfile(u: User, p: UpdateProfile): (r: User)
    ensures r.id == u.id && r.password == u.password && r.isAdmin == u.isAdmin && r.status == u.status
    ensures r.username == (if p.username == "" then u.username else p.username)
    ensures r.email == (if p.email == "" then u.email else p.email)
    ensures r.phoneNumber == (if p.phoneNumber == "" then u.phoneNumber else p.phoneNumber)
  {
    u.(username := if p.username == "" then u.username else p.username,
       email := if p.email == "" then u.email else p.email,
       phoneNumber := if p.phoneNumber == "" then u.phoneNumber else p.phoneNumber)
  }

  /** `UPDATE users SET ... WHERE id = ?` with the profile fields. */
  function WithProfile(users: seq<User>, id: nat, p: UpdateProfile): (r: seq<User>)
    ensures |r| == |users|
    ensures forall i :: 0 <= i < |users| ==>
      r[i] == if users[i].id == id then ApplyProfile(users[i], p) else users[i]
  {
    seq(|users|, i requires 0 <= i < |users| =>
      if users[i].id == id then ApplyProfile(users[i], p) else users[i])
  }

  /** The number of rows `WHERE id = ?` matches (the rows an update affects). */
  function CountId(users: seq<User>, id: nat): (n: nat)
    ensures n == 0 <==> forall i :: 0 <= i < |users| ==> users[i].id != id
  {
    if users == [] then 0
    else (if users[0].id == id then 1 else 0) + CountId(users[1..], id)
  }

  /** What a lookup of a user hands back: every column but the password. */
  function Public(u: User): User {
    u.(password := "")
  }

  // ---------------------------------------------------------------------------
  // Properties of the tables
  // ---------------------------------------------------------------------------

  /** A row that is not active never changes which row a login finds: a freshly
      registered (inactive) account cannot log in, and nobody else's login moves. */
  lemma {:induction false} InactiveRowInvisibleToLogin(users: seq<User>, u: User, username: string)
    requires !u.status
    ensures FirstActive(users + [u], username) == FirstActive(users, username)
  {
    if users != [] {
      InactiveRowInvisibleToLogin(users[1..], u, username);
      assert (users + [u])[1..] == users[1..] + [u];
    }
  }

  /** Once the account's status is set to true, a login by that username finds a row with it. */
  lemma VerifiedAccountFound(users: seq<User>, username: string, k: nat)
    requires k < |users| && users[k].username == username
    ensures FirstActive(WithStatusNamed(users, username, true), username).Some?
    ensures WithStatusNamed(users, username, true)[FirstActive(WithStatusNamed(users, username, true), username).value].username == username
  {
    assert ActiveNamed(WithStatusNamed(users, username, true)[k], username);
  }

  /** Changing passwords never changes which row a login by any username finds. */
  lemma {:induction false} PasswordUpdateKeepsLoginRow(users: seq<User>, username: string, password: string, who: string)
    ensures FirstActive(WithPassword(users, username, password), who) == FirstActive(users, who)
  {
    if users != [] {
      PasswordUpdateKeepsLoginRow(users[1..], username, password, who);
      assert WithPassword(users, username, password)[1..] == WithPassword(users[1..], username, password);
    }
  }

  /** After a delete by code, that code is no longer found. */
  lemma DeletedCodeNotFound(rows: seq<CodeRecord>, code: string)
    ensures LookupCode(WithoutCode(rows, code), code).None?
  {
  }

  /** A lookup stops at the first row when it holds the code and otherwise looks at the rest. */
  lemma LookupFirst(row: CodeRecord, rest: seq<CodeRecord>, code: string)
    ensures LookupCode([row] + rest, code) == if row.code == code then Some(row) else LookupCode(rest, code)
  {
    assert ([row] + rest)[0] == row && ([row] + rest)[1..] == rest;
  }

  /** Deleting one code leaves the lookup of every other code as it was. */
  lemma {:induction false} DeleteKeepsOtherCodes(rows: seq<CodeRecord>, code: string, other: string)
    requires other != code
    ensures LookupCode(WithoutCode(rows, code), other) == LookupCode(rows, other)
  {
    if rows != [] {
      DeleteKeepsOtherCodes(rows[1..], code, other);
      var rest := WithoutCode(rows[1..], code);
      assert rows == [rows[0]] + rows[1..];
      LookupFirst(rows[0], rows[1..], other);
      if rows[0].code != code {
        assert WithoutCode(rows, code) == [rows[0]] + rest;
        LookupFirst(rows[0], rest, other);
      } else {
        assert WithoutCode(rows, code) == rest;
      }
    }
  }

  /** A code that no row holds is found right after it is inserted. */
  lemma {:induction false} FreshCodeFound(rows: seq<CodeRecord>, rec: CodeRecord)
    requires LookupCode(rows, rec.code).None?
    ensures LookupCode(rows + [rec], rec.code) == Some(rec)
  {
    assert (rows + [rec])[|rows|] == rec;
  }

  /** Inserting a code that a row already holds keeps that older row and adds a second one:
      lookups keep returning the older row, with its own username and expiry. */
  lemma {:induction false} ReissuedCodeShadowed(rows: seq<CodeRecord>, rec: CodeRecord)
    requires LookupCode(rows, rec.code).Some?
    ensures LookupCode(rows + [rec], rec.code) == LookupCode(rows, rec.code)
    ensures rec in rows + [rec] && LookupCode(rows, rec.code).value in rows + [rec]
  {
    if rows[0].code != rec.code {
      ReissuedCodeShadowed(rows[1..], rec);
      assert (rows + [rec])[1..] == rows[1..] + [rec];
    }
  }

  /** Primary keys strictly increase along the table. */
  predicate IdsIncreasing(users: seq<User>) {
    forall i, j :: 0 <= i < j < |users| ==> users[i].id < users[j].id
  }

  /** With increasing primary keys an id names at most one row, so an update by id
      (`UpdateProfile`, `Activate`, `Deactivate`) changes at most one account. */
  lemma {:induction false} AtMostOneRowPerId(users: seq<User>, id: nat)
    requires IdsIncreasing(users)
    ensures CountId(users, id) <= 1
  {
    if users != [] {
      AtMostOneRowPerId(users[1..], id);
      if users[0].id == id {
        forall i | 0 <= i < |users[1..]|
          ensures users[1..][i].id != id
        {
          assert users[1..][i] == users[i + 1];
        }
      }
    }
  }

  /** The password update as written changes nothing, while the intended update does change a
      stored password: for this table the two outcomes differ. */
  lemma PasswordResetLostAsWritten()
    ensures var users := [User(1, "alice", "alice@example.com", "0812", "old-hash", false, true)];
            WithPassword(users, "alice", "new-hash") != users
  {
    var users := [User(1, "alice", "alice@example.com", "0812", "old-hash", false, true)];
    assert WithPassword(users, "alice", "new-hash")[0].password == "new-hash";
  }

  /** The activation as written changes nothing, so an account waiting for verification stays
      invisible to login; the intended activation makes it visible. */
  lemma VerificationLostAsWritten()
    ensures var users := [User(1, "alice", "alice@example.com", "0812", "hash", false, false)];
            && FirstActive(users, "alice").None?
            && FirstActive(WithStatusNamed(users, "alice", true), "alice").Some?
  {
    var users := [User(1, "alice", "alice@example.com", "0812", "hash", false, false)];
    VerifiedAccountFound(users, "alice", 0);
  }

  // ---------------------------------------------------------------------------
  // The store
  // ---------------------------------------------------------------------------

  class UserData {
    /** `enkrip.Compare(hashed, input)` returns no error. */
    const compare: (string, string) -> bool

    var users: seq<User>
    var resetPasses: seq<CodeRecord>
    var verifications: seq<CodeRecord>
    /** The next auto-increment primary key of the users table. */
    var nextId: nat

    /** Primary keys are positive, below `nextId` and increase with insertion order. */
    ghost predicate Valid()
      reads this
    {
      && nextId >= 1
      && (forall i :: 0 <= i < |users| ==> 1 <= users[i].id < nextId)
      && IdsIncreasing(users)
    }

    constructor (compare: (string, string) -> bool)
      ensures Valid()
      ensures this.compare == compare
      ensures users == [] && resetPasses == [] && verifications == [] && nextId == 1
    {
      this.compare := compare;
      users, resetPasses, verifications, nextId := [], [], [], 1;
    }

    /** Inserts the user as given (no uniqueness check here) and returns the input unchanged. */
    method Register(newData: User) returns (r: Result<User>)
      requires Valid()
      modifies this
      ensures Valid()
      ensures r == Ok(newData)
      ensures users == old(users) + [newData.(id := old(nextId))]
      ensures nextId == old(nextId) + 1
      ensures resetPasses == old(resetPasses) && verifications == old(verifications)
    {
      users := users + [newData.(id := nextId)];
      nextId := nextId + 1;
      r := Ok(newData);
    }

    /** Only an active account is found; the password is checked against the stored hash. */
    function Login(username: string, password: string): (r: Result<User>)
      reads this
      ensures r.Ok? <==> exists i :: 0 <= i < |users| && ActiveNamed(users[i], username)
                                        && users[i] == users[FirstActive(users, username).value]
                                        && compare(users[i].password, password)
      ensures r.Ok? ==> r.value.username == username && r.value.status && r.value.password == ""
      ensures r.Ok? ==> FirstActive(users, username).Some? && r.value == Public(users[FirstActive(users, username).value])
      ensures r == Err(DataNotFound) <==> forall i :: 0 <= i < |users| ==> !ActiveNamed(users[i], username)
      ensures r.Err? ==> r.msg in {DataNotFound, IncorrectPassword}
      ensures !r.Panic?
    {
      match FirstActive(users, username)
      case None => Err(DataNotFound)
      case Some(i) =>
        if !compare(users[i].password, password) then Err(IncorrectPassword)
        else Ok(Public(users[i]))
    }

    /** The first active account with this username, without its password. */
    function GetByUsername(username: string): (r: Result<User>)
      reads this
      ensures r.Ok? ==> r.value.username == username && r.value.status && r.value.password == ""
      ensures r.Ok? ==> exists i :: 0 <= i < |users| && Public(users[i]) == r.value
      ensures r.Ok? ==> FirstActive(users, username).Some? && r.value == Public(users[FirstActive(users, username).value])
      ensures r.Err? <==> forall i :: 0 <= i < |users| ==> !ActiveNamed(users[i], username)
      ensures r.Err? ==> r.msg == RecordNotFound
      ensures !r.Panic?
    {
      match FirstActive(users, username)
      case None => Err(RecordNotFound)
      case Some(i) => Ok(Public(users[i]))
    }

    /** True means the username is free: no row, active or not, carries it. */
    function CheckUsername(username: string): (free: bool)
      reads this
      ensures free <==> forall i :: 0 <= i < |users| ==> users[i].username != username
    {
      CountNamed(users, username) == 0
    }

    /** Stores a reset code valid for ten minutes. The delete step runs only when the code is
        NOT already stored, so an existing row with the same code is kept and a second row added. */
    method InsertCodeReset(username: string, code: string, now: Instant) returns (r: Result<()>)
      requires Valid()
      modifies this
      ensures Valid()
      ensures r == Ok(())
      ensures resetPasses == old(resetPasses) + [CodeRecord(username, code, now + CodeLifetime)]
      ensures users == old(users) && verifications == old(verifications) && nextId == old(nextId)
    {
      var newData := CodeRecord(username, code, now + CodeLifetime);
      var found := GetByCodeReset(code);
      if found.Err? {
        WithoutAbsentCode(old(resetPasses), code);
        var _ := DeleteCodeReset(code);
      }
      resetPasses := resetPasses + [newData];
      r := Ok(());
    }

    /** Removes every reset row with this code; an absent code is not an error. */
    method DeleteCodeReset(code: string) returns (r: Result<()>)
      requires Valid()
      modifies this
      ensures Valid()
      ensures r == Ok(())
      ensures resetPasses == WithoutCode(old(resetPasses), code)
      ensures users == old(users) && verifications == old(verifications) && nextId == old(nextId)
    {
      resetPasses := WithoutCode(resetPasses, code);
      r := Ok(());
    }

    /** The reset row holding this code; its expiry is not checked here. */
    function GetByCodeReset(code: string): (r: Result<CodeRecord>)
      reads this
      ensures r.Ok? ==> r.value.code == code && r.value in resetPasses
      ensures r.Ok? <==> exists i :: 0 <= i < |resetPasses| && resetPasses[i].code == code
      ensures r.Err? ==> r.msg == RecordNotFound
      ensures !r.Panic?
    {
      match LookupCode(resetPasses, code)
      case None => Err(RecordNotFound)
      case Some(rec) => Ok(rec)
    }

    /** `ResetPassword` exactly as the source has it: its first step, `Where(...).Update(...)`,
        names neither a model nor a table, so GORM cannot tell which table to update, reports
        TableNotSet and touches no row; the method returns that error before the code lookup. */
    method ResetPasswordAsWritten(code: string, username: string, password: string) returns (r: Result<()>)
      ensures r == Err(TableNotSet)
    {
      r := Err(TableNotSet);
    }

    /** `UserVerification` exactly as the source has it: the status update names no table either,
        so the call returns GORM's error, activates nobody and never reaches the lookup. */
    method UserVerificationAsWritten(code: string, username: string) returns (r: Result<()>)
      ensures r == Err(TableNotSet)
    {
      r := Err(TableNotSet);
    }

    /** The intended password reset, with the update aimed at the users table. Sets the
        password of every row with this username first, then looks the code up and
        deletes it. A code that is not found fails the call although the password has changed. */
    method ResetPassword(code: string, username: string, password: string) returns (r: Result<()>)
      requires Valid()
      modifies this
      ensures Valid()
      ensures users == WithPassword(old(users), username, password)
      ensures LookupCode(old(resetPasses), code).None? ==>
                r == Err(RecordNotFound) && resetPasses == old(resetPasses)
      ensures LookupCode(old(resetPasses), code).Some? ==>
                && r == Ok(())
                && resetPasses == if code != "" then WithoutCode(old(resetPasses), code) else old(resetPasses)
      ensures verifications == old(verifications) && nextId == old(nextId)
    {
      users := WithPassword(users, username, password);
      var checkData := GetByCodeReset(code);
      if !checkData.Ok? {
        r := Err(checkData.msg);
        return;
      }
      if checkData.value.code != "" {
        var _ := DeleteCodeReset(code);
      }
      r := Ok(());
    }

    /** Profile self-service: writes the non-empty fields of the row with this id and fails
        when no row has that id. */
    method UpdateProfile(id: nat, newData: Users.UpdateProfile) returns (r: Result<bool>)
      requires Valid()
      modifies this
      ensures Valid()
      ensures users == WithProfile(old(users), id, newData)
      ensures r == if CountId(old(users), id) == 0 then Err(NoRowAffected) else Ok(true)
      ensures resetPasses == old(resetPasses) && verifications == old(verifications) && nextId == old(nextId)
    {
      users := WithProfile(users, id, newData);
      if CountId(users, id) < 1 {
        assert forall i :: 0 <= i < |users| ==> users[i].id == old(users)[i].id;
        r := Err(NoRowAffected);
        return;
      }
      r := Ok(true);
    }

    /** Sets the status of the row with this id to true; succeeds whether or not such a row exists. */
    method Activate(id: nat) returns (r: Result<bool>)
      requires Valid()
      modifies this
      ensures Valid()
      ensures r == Ok(true)
      ensures users == WithStatusId(old(users), id, true)
      ensures resetPasses == old(resetPasses) && verifications == old(verifications) && nextId == old(nextId)
    {
      users := WithStatusId(users, id, true);
      r := Ok(true);
    }

    /** Sets the status of the row with this id to false; succeeds whether or not such a row exists. */
    method Deactivate(id: nat) returns (r: Result<bool>)
      requires Valid()
      modifies this
      ensures Valid()
      ensures r == Ok(true)
      ensures users == WithStatusId(old(users), id, false)
      ensures resetPasses == old(resetPasses) && verifications == old(verifications) && nextId == old(nextId)
    {
      users := WithStatusId(users, id, false);
      r := Ok(true);
    }

    /** Stores a verification code valid for ten minutes, with the same keep-and-add behaviour as reset codes. */
    method InsertCodeVerification(username: string, code: string, now: Instant) returns (r: Result<()>)
      requires Valid()
      modifies this
      ensures Valid()
      ensures r == Ok(())
      ensures verifications == old(verifications) + [CodeRecord(username, code, now + CodeLifetime)]
      ensures users == old(users) && resetPasses == old(resetPasses) && nextId == old(nextId)
    {
      var newData := CodeRecord(username, code, now + CodeLifetime);
      var found := GetByCodeVerification(code);
      if found.Err? {
        WithoutAbsentCode(old(verifications), code);
        var _ := DeleteCodeVerification(code);
      }
      verifications := verifications + [newData];
      r := Ok(());
    }

    /** Removes every verification row with this code; an absent code is not an error. */
    method DeleteCodeVerification(code: string) returns (r: Result<()>)
      requires Valid()
      modifies this
      ensures Valid()
      ensures r == Ok(())
      ensures verifications == WithoutCode(old(verifications), code)
      ensures users == old(users) && resetPasses == old(resetPasses) && nextId == old(nextId)
    {
      verifications := WithoutCode(verifications, code);
      r := Ok(());
    }

    /** The verification row holding this code; its expiry is not checked here. */
    function GetByCodeVerification(code: string): (r: Result<CodeRecord>)
      reads this
      ensures r.Ok? ==> r.value.code == code && r.value in verifications
      ensures r.Ok? <==> exists i :: 0 <= i < |verifications| && verifications[i].code == code
      ensures r.Err? ==> r.msg == RecordNotFound
      ensures !r.Panic?
    {
      match LookupCode(verifications, code)
      case None => Err(RecordNotFound)
      case Some(rec) => Ok(rec)
    }

    /** The intended verification, with the update aimed at the users table. Activates every
        row with this username, then deletes the code. The lookup's result is
        dereferenced without checking its error, so an unknown code panics after the accounts
        were activated. Delete errors are ignored. */
    method UserVerification(code: string, username: string) returns (r: Result<()>)
      requires Valid()
      modifies this
      ensures Valid()
      ensures r == if LookupCode(old(verifications), code).Some? then Ok(()) else Panic(NilDereference)
      ensures users == WithStatusNamed(old(users), username, true)
      ensures verifications == if r.Ok? && code != "" then WithoutCode(old(verifications), code) else old(verifications)
      ensures resetPasses == old(resetPasses) && nextId == old(nextId)
    {
      users := WithStatusNamed(users, username, true);
      var checkData := GetByCodeVerification(code);
      if !checkData.Ok? {
        r := Panic(NilDereference);
        return;
      }
      if checkData.value.code != "" {
        var _ := DeleteCodeVerification(code);
      }
      r := Ok(());
    }
  }
}
