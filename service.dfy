/** The business layer of the user feature (features/users/service/service.go).

    The collaborators are fixed when the service is built: the store, the
    password hasher, the token configuration and the mail transport. Clock
    readings (`now`, and the three readings of a token issuance) and the random
    digit draws of each code are passed in. */
module UserService {
  import opened Wrappers
  import opened GoTime
  import opened GoStrings
  import opened Users
  import opened UserStore
  import opened Jwt
  import opened Email

  const UsernameTaken: string := "ERROR Username already registered"
  const HashingFailed: string := "ERROR Error Hashing Password"
  const RegisterFailed: string := "ERROR Error Register"
  const LoginIncorrectPassword: string := "ERROR Incorrect Password"
  const LoginNotFound: string := "ERROR Not Found"
  const LoginProcessFailed: string := "ERROR Process Failed"
  const GenerateJwtFailed: string := "ERROR Generate JWT"
  const GetByUsernameFailed: string := "ERROR Error Get By Username"
  const InsertCodeResetFailed: string := "ERROR Error Insert Code Reset User"
  const GetByCodeFailed: string := "ERROR Error Get By Code"
  const TokenExpired: string := "ERROR Token Expired"
  const ResetPasswordFailed: string := "ERROR Error Reset Password"
  const InsertCodeVerificationFailed: string := "ERROR Error Insert Code Verification"
  const SendVerificationFailed: string := "ERROR Send Email Verification"
  const UserVerificationFailed: string := "ERROR Error User Verification"

  /** The role written into the access token at login. */
  function RoleFor(isAdmin: bool): string {
    if isAdmin then "admin" else "user"
  }

  /** Login's mapping of store errors, decided by substrings of the error text. */
  function ClassifyLoginError(msg: string): (r: string)
    ensures r in {LoginIncorrectPassword, LoginNotFound, LoginProcessFailed}
  {
    if Contains(msg, "Incorrect Password") then LoginIncorrectPassword
    else if Contains(msg, "Not Found") then LoginNotFound
    else LoginProcessFailed
  }

  /** A text whose characters never start `sub` does not contain it. */
  lemma AbsentFirstChar(s: string, sub: string)
    requires sub != [] && sub[0] !in s
    ensures !Contains(s, sub)
  {
  }

  /** The store's two login errors keep their meaning; any other text, GORM's own
      "record not found" included (lower-case), becomes "Process Failed". */
  lemma LoginErrorMessages(msg: string)
    ensures ClassifyLoginError(DataNotFound) == LoginNotFound
    ensures ClassifyLoginError(IncorrectPassword) == LoginIncorrectPassword
    ensures ClassifyLoginError(RecordNotFound) == LoginProcessFailed
    ensures ClassifyLoginError(msg) == LoginIncorrectPassword <==> Contains(msg, "Incorrect Password")
    ensures ClassifyLoginError(msg) == LoginNotFound <==> !Contains(msg, "Incorrect Password") && Contains(msg, "Not Found")
  {
    AbsentFirstChar(DataNotFound, "Incorrect Password");
    assert DataNotFound[11..] == "Not Found";
    assert OccursAt(DataNotFound, "Not Found", 11);
    assert IncorrectPassword[6..] == "Incorrect Password";
    assert OccursAt(IncorrectPassword, "Incorrect Password", 6);
    AbsentFirstChar(RecordNotFound, "Incorrect Password");
    AbsentFirstChar(RecordNotFound, "Not Found");
  }

  /** A stored code is usable unless its expiry lies strictly before `now`. */
  function CheckExpiry(rec: CodeRecord, now: Instant): (r: Result<CodeRecord>)
    ensures r.Ok? <==> now <= rec.expiredAt
    ensures r.Ok? ==> r.value == rec
    ensures r.Err? ==> r.msg == TokenExpired
    ensures !r.Panic?
  {
    if rec.expiredAt < now then Err(TokenExpired) else Ok(rec)
  }

  /** A code inserted at `issued` is accepted up to and including ten minutes later, and refused after. */
  lemma CodeLifetimeWindow(username: string, code: string, issued: Instant, now: Instant)
    ensures CheckExpiry(CodeRecord(username, code, issued + CodeLifetime), now).Ok? <==> now <= issued + 10 * Minute
    ensures now > issued + CodeLifetime ==>
              CheckExpiry(CodeRecord(username, code, issued + CodeLifetime), now) == Err(TokenExpired)
  {
  }

  /** The row the service hands to the store at registration. */
  function Registered(newData: User, hashed: string): (u: User)
    ensures u.password == hashed && !u.isAdmin && !u.status
    ensures u.username == newData.username && u.email == newData.email && u.phoneNumber == newData.phoneNumber
  {
    newData.(password := hashed, isAdmin := false, status := false)
  }

  /** A token issued at login never passes the admin check: login writes "admin" or "user",
      the check wants "Admin". */
  lemma LoginTokenNeverAdmin(cfg: JwtConfig, header: string, id: nat, username: string, email: string,
                             phoneNumber: string, isAdmin: bool, clock: IssueClock, alg: string, signature: Bytes)
    requires |header| >= BearerPrefixLength && IsHmac(alg)
    requires cfg.signer.parse(header[BearerPrefixLength..], cfg.secret)
             == Some(Parsed(alg, AccessClaims(id, username, email, phoneNumber, RoleFor(isAdmin), clock.iatAt, clock.expAt),
                            signature))
    ensures ExtractToken(cfg, header) == Ok(Extracted(id % Uint64Modulus, username, email, phoneNumber, RoleFor(isAdmin)))
    ensures ValidateRole(cfg, header) == Ok(false)
  {
    ExtractIssuedClaims(id, username, email, phoneNumber, RoleFor(isAdmin), clock.iatAt, clock.expAt);
  }

  /** Activating the accounts named `name` moves no login of any other username. With the
      arguments swapped, verification activates the accounts named like the code, so the account
      that asked for verification stays locked out. */
  lemma {:induction false} ActivationOfOtherName(users: seq<User>, name: string, who: string)
    requires name != who
    ensures FirstActive(WithStatusNamed(users, name, true), who) == FirstActive(users, who)
  {
    if users != [] {
      ActivationOfOtherName(users[1..], name, who);
      assert WithStatusNamed(users, name, true)[1..] == WithStatusNamed(users[1..], name, true);
    }
  }

  class UserService {
    const data: UserData
    /** `HashPassword`; None stands for a returned error. */
    const hash: string -> Option<string>
    const jwt: JwtConfig
    /** `SendEmail(to, subject, body)` returns no error. */
    const send: (string, string, string) -> bool

    constructor (data: UserData, hash: string -> Option<string>, jwt: JwtConfig, send: (string, string, string) -> bool)
      ensures this.data == data && this.hash == hash && this.jwt == jwt && this.send == send
    {
      this.data, this.hash, this.jwt, this.send := data, hash, jwt, send;
    }

    /** Refuses a taken username before hashing anything; otherwise stores the hash of the
        password and forces an inactive, non-admin account. */
    method Register(newData: User) returns (r: Result<User>)
      requires data.Valid()
      modifies data
      ensures data.Valid()
      ensures !old(data.CheckUsername(newData.username)) ==> r == Err(UsernameTaken) && unchanged(data)
      ensures old(data.CheckUsername(newData.username)) && hash(newData.password).None? ==>
                r == Err(HashingFailed) && unchanged(data)
      ensures old(data.CheckUsername(newData.username)) && hash(newData.password).Some? ==>
                var stored := Registered(newData, hash(newData.password).value);
                && r == Ok(stored)
                && data.users == old(data.users) + [stored.(id := old(data.nextId))]
                && data.nextId == old(data.nextId) + 1
                && data.resetPasses == old(data.resetPasses)
                && data.verifications == old(data.verifications)
    {
      var isAlready := data.CheckUsername(newData.username);
      if !isAlready {
        return Err(UsernameTaken);
      }
      var hashPassword := hash(newData.password);
      if hashPassword.None? {
        return Err(HashingFailed);
      }
      var stored := Registered(newData, hashPassword.value);
      var result := data.Register(stored);
      r := if result.Ok? then Ok(result.value) else Err(RegisterFailed);
    }

    /** Finds the active account, checks the password, derives the role from the admin flag and
        issues a token pair; a pair that cannot be issued fails the login. */
    function Login(username: string, password: string, clock: IssueClock): (r: Result<UserCredential>)
      reads data
      ensures r == Err(LoginNotFound) <==> forall i :: 0 <= i < |data.users| ==> !ActiveNamed(data.users[i], username)
      ensures r == Err(LoginIncorrectPassword) <==>
                FirstActive(data.users, username).Some? &&
                !data.compare(data.users[FirstActive(data.users, username).value].password, password)
      ensures r.Ok? || r == Err(GenerateJwtFailed) ==>
                FirstActive(data.users, username).Some? &&
                data.compare(data.users[FirstActive(data.users, username).value].password, password)
      ensures r.Ok? || r == Err(GenerateJwtFailed) ==>
                var u := data.users[FirstActive(data.users, username).value];
                var pair := GenerateJWT(jwt, u.id, u.username, u.email, u.phoneNumber, RoleFor(u.isAdmin), clock);
                r == if pair.Some? then Ok(UserCredential(username, pair.value)) else Err(GenerateJwtFailed)
      ensures r.Err? ==> r.msg in {LoginNotFound, LoginIncorrectPassword, GenerateJwtFailed}
      ensures !r.Panic?
    {
      LoginErrorMessages("");
      var found := data.Login(username, password);
      if !found.Ok? then Err(ClassifyLoginError(found.msg))
      else
        var result := found.value;
        var role := RoleFor(result.isAdmin);
        match GenerateJWT(jwt, result.id, result.username, result.email, result.phoneNumber, role, clock)
        case None => Err(GenerateJwtFailed)
        case Some(tokenData) => Ok(UserCredential(result.username, tokenData))
    }

    /** Looks the active account up, stores a fresh reset code for it, then mails the code.
        A failed lookup stores nothing. The code is stored before the mail goes out; when
        sending fails the error path logs through a nil error and panics, with the code kept. */
    method ForgetPasswordWeb(username: string, now: Instant, draws: seq<nat>) returns (r: Result<()>)
      requires data.Valid()
      requires ValidDraws(draws, CodeLength)
      modifies data
      ensures data.Valid()
      ensures data.users == old(data.users) && data.verifications == old(data.verifications)
      ensures data.nextId == old(data.nextId)
      ensures old(data.GetByUsername(username)).Err? ==>
                r == Err(GetByUsernameFailed) && data.resetPasses == old(data.resetPasses)
      ensures old(data.GetByUsername(username)).Ok? ==>
                var user := old(data.GetByUsername(username)).value;
                var (header, body) := HtmlBodyEmailReset(user.username, CodeOf(draws));
                && data.resetPasses == old(data.resetPasses) + [CodeRecord(user.username, CodeOf(draws), now + CodeLifetime)]
                && r == if send(user.email, header, body) then Ok(()) else Panic(NilDereference)
    {
      var user := data.GetByUsername(username);
      if !user.Ok? {
        return Err(GetByUsernameFailed);
      }
      var email := user.value.email;
      var name := user.value.username;
      var header, htmlBody, code := HTMLBodyReset(name, draws);
      var inserted := data.InsertCodeReset(name, code, now);
      if !inserted.Ok? {
        return Err(InsertCodeResetFailed);
      }
      var sent := send(email, header, htmlBody);
      if !sent {
        return Panic(NilDereference);
      }
      r := Ok(());
    }

    /** The reset code's record, unless it is missing or expired strictly before `now`. */
    function TokenResetVerify(code: string, now: Instant): (r: Result<CodeRecord>)
      reads data
      ensures r == Err(GetByCodeFailed) <==> LookupCode(data.resetPasses, code).None?
      ensures r == Err(TokenExpired) <==>
                LookupCode(data.resetPasses, code).Some? && LookupCode(data.resetPasses, code).value.expiredAt < now
      ensures r.Ok? ==> r == Ok(LookupCode(data.resetPasses, code).value) && now <= r.value.expiredAt
      ensures !r.Panic?
    {
      var result := data.GetByCodeReset(code);
      if !result.Ok? then Err(GetByCodeFailed) else CheckExpiry(result.value, now)
    }

    /** Hashes the new password, then lets the store set it and consume the code. A hashing
        error returns before the store is touched. */
    method ResetPassword(code: string, username: string, password: string) returns (r: Result<()>)
      requires data.Valid()
      modifies data
      ensures data.Valid()
      ensures hash(password).None? ==> r == Err(HashingFailed) && unchanged(data)
      ensures data.nextId == old(data.nextId)
      ensures hash(password).Some? ==>
                && data.users == WithPassword(old(data.users), username, hash(password).value)
                && data.verifications == old(data.verifications)
                && (LookupCode(old(data.resetPasses), code).None? ==>
                      r == Err(ResetPasswordFailed) && data.resetPasses == old(data.resetPasses))
                && (LookupCode(old(data.resetPasses), code).Some? ==>
                      && r == Ok(())
                      && data.resetPasses == if code != "" then WithoutCode(old(data.resetPasses), code)
                                             else old(data.resetPasses))
    {
      var hashPassword := hash(password);
      if hashPassword.None? {
        return Err(HashingFailed);
      }
      var result := data.ResetPassword(code, username, hashPassword.value);
      if !result.Ok? {
        return Err(ResetPasswordFailed);
      }
      r := Ok(());
    }

    /** Stores a fresh verification code for the given username, then mails it to the given
        address. A send failure is reported, with the code kept. */
    method UserVerificationCode(username: string, email: string, now: Instant, draws: seq<nat>) returns (r: Result<()>)
      requires data.Valid()
      requires ValidDraws(draws, CodeLength)
      modifies data
      ensures data.Valid()
      ensures data.users == old(data.users) && data.resetPasses == old(data.resetPasses)
      ensures data.nextId == old(data.nextId)
      ensures data.verifications == old(data.verifications) + [CodeRecord(username, CodeOf(draws), now + CodeLifetime)]
      ensures var (header, body) := HtmlBodyEmailVerification(username, CodeOf(draws));
              r == if send(email, header, body) then Ok(()) else Err(SendVerificationFailed)
    {
      var header, htmlBody, code := HTMLBodyVerification(username, draws);
      var inserted := data.InsertCodeVerification(username, code, now);
      if !inserted.Ok? {
        return Err(InsertCodeVerificationFailed);
      }
      var sent := send(email, header, htmlBody);
      if !sent {
        return Err(SendVerificationFailed);
      }
      r := Ok(());
    }

    /** Passes its arguments to the store in swapped order: the store activates the accounts
        named like `code` and looks up the verification row whose code is `username`. Over the
        corrected store, whose status update reaches the users table, a lookup that finds no
        row (the usual case: the handler passes a real code and username) is dereferenced and
        the call panics. */
    method UserVerification(code: string, username: string) returns (r: Result<()>)
      requires data.Valid()
      modifies data
      ensures data.Valid()
      ensures r == if LookupCode(old(data.verifications), username).Some? then Ok(()) else Panic(NilDereference)
      ensures data.users == WithStatusNamed(old(data.users), code, true)
      ensures data.verifications == if r.Ok? && username != "" then WithoutCode(old(data.verifications), username)
                                    else old(data.verifications)
      ensures data.resetPasses == old(data.resetPasses)
      ensures data.nextId == old(data.nextId)
    {
      var result := data.UserVerification(username, code);
      r := if result.Ok? then Ok(()) else if result.Panic? then result else Err(UserVerificationFailed);
    }

    /** The verification code's record, unless it is missing or expired strictly before `now`. */
    function TokenVerificationResetVerify(code: string, now: Instant): (r: Result<CodeRecord>)
      reads data
      ensures r == Err(GetByCodeFailed) <==> LookupCode(data.verifications, code).None?
      ensures r == Err(TokenExpired) <==>
                LookupCode(data.verifications, code).Some? && LookupCode(data.verifications, code).value.expiredAt < now
      ensures r.Ok? ==> r == Ok(LookupCode(data.verifications, code).value) && now <= r.value.expiredAt
      ensures !r.Panic?
    {
      var res := data.GetByCodeVerification(code);
      if !res.Ok? then Err(GetByCodeFailed) else CheckExpiry(res.value, now)
    }
  }
}
