/** Token issuance, refresh and extraction (helper/jwt/jwt.go).

    Claim sets are maps from claim names to JSON values. HMAC signing and the
    token library's parser are not modelled: a `Signer` supplies them as
    functions keyed by the secret, so every property below holds whatever
    those functions do. Numbers in a parsed claim set are JSON numbers, kept
    here as reals so that the truncations of the source stay visible. */
module Jwt {
  import opened Wrappers
  import opened GoTime
  import opened GoStrings

  datatype ClaimValue = Num(n: real) | Str(s: string) | Other
  type Claims = map<string, ClaimValue>
  type Bytes = seq<bv8>

  /** A token as the parser hands it back once its signature and registered claims check out. */
  datatype Parsed = Parsed(alg: string, claims: Claims, signature: Bytes)

  /** The signing library. `sign(alg, claims, key)` is `SignedString` (None: it returned an error);
      `parse(raw, key)` is parse-and-verify with that key (None: it returned an error). */
  datatype Signer = Signer(
    sign: (string, Claims, Bytes) -> Option<string>,
    parse: (string, Bytes) -> Option<Parsed>)

  /** The access secret and the refresh secret of the program configuration, with the signing library. */
  datatype JwtConfig = JwtConfig(secret: Bytes, refSecret: Bytes, signer: Signer)

  /** The claims `ExtractToken` hands back. */
  datatype Extracted = Extracted(id: nat, username: string, email: string, phoneNumber: string, role: string)

  const HS256: string := "HS256"
  const TokenLifetime: int := 24 * Hour
  const BearerPrefixLength: nat := 7

  const ExpirationError: string := "JWT : Token Expiration Error"
  const NotValidExpired: string := "JWT : Refresh Token Not Valid & Expired"
  const ParseError: string := "JWT : Parse Token Error"
  const SignRefreshError: string := "JWT : Sign Refresh Token Error"
  const IdNotNumber: string := "JWT : ID not found or not a valid number"
  const SliceOutOfRange: string := "slice bounds out of range"

  const Uint64Modulus: int := 0x1_0000_0000_0000_0000

  // ---------------------------------------------------------------------------
  // Issuance
  // ---------------------------------------------------------------------------

  /** The three clock readings of one issuance, in the order the source takes them: the access
      token's issued-at, the access token's expiry base, and the refresh token's expiry base. */
  datatype IssueClock = IssueClock(iatAt: Instant, expAt: Instant, refreshAt: Instant)

  /** The wall clock did not step backwards between the readings. */
  predicate Monotone(clock: IssueClock) {
    clock.iatAt <= clock.expAt <= clock.refreshAt
  }

  /** The claims of an access token whose issued-at is read at `iatAt` and whose expiry is
      24 hours after a second reading `expAt`. */
  function AccessClaims(id: nat, username: string, email: string, phoneNumber: string, role: string,
                        iatAt: Instant, expAt: Instant): Claims {
    map["id" := Num(id as real),
        "username" := Str(username),
        "email" := Str(email),
        "phone_number" := Str(phoneNumber),
        "role" := Str(role),
        "iat" := Num(Unix(iatAt) as real),
        "exp" := Num(Unix(expAt + TokenLifetime) as real)]
  }

  /** The claims of a refresh token whose expiry is 24 hours after `now`: the expiry only. */
  function RefreshClaims(now: Instant): Claims {
    map["exp" := Num(Unix(now + TokenLifetime) as real)]
  }

  /** An access token signed with the access secret, or "" when signing fails. */
  function GenerateToken(cfg: JwtConfig, id: nat, username: string, email: string, phoneNumber: string, role: string,
                         iatAt: Instant, expAt: Instant): (r: string)
    ensures r == "" <==> cfg.signer.sign(HS256, AccessClaims(id, username, email, phoneNumber, role, iatAt, expAt), cfg.secret)
                         in {None, Some("")}
    ensures r != "" ==> Some(r) == cfg.signer.sign(HS256, AccessClaims(id, username, email, phoneNumber, role, iatAt, expAt), cfg.secret)
  {
    match cfg.signer.sign(HS256, AccessClaims(id, username, email, phoneNumber, role, iatAt, expAt), cfg.secret)
    case None => ""
    case Some(t) => t
  }

  /** A refresh token signed with the refresh secret, or "" when signing fails. */
  function GenerateRefreshToken(cfg: JwtConfig, now: Instant): (r: string)
    ensures r == "" <==> cfg.signer.sign(HS256, RefreshClaims(now), cfg.refSecret) in {None, Some("")}
    ensures r != "" ==> Some(r) == cfg.signer.sign(HS256, RefreshClaims(now), cfg.refSecret)
  {
    match cfg.signer.sign(HS256, RefreshClaims(now), cfg.refSecret)
    case None => ""
    case Some(t) => t
  }

  /** The token pair, or nothing (a nil map) when either token came out empty. */
  function GenerateJWT(cfg: JwtConfig, id: nat, username: string, email: string, phoneNumber: string, role: string,
                       clock: IssueClock)
    : (r: Option<map<string, string>>)
    ensures r.Some? <==>
              && cfg.signer.sign(HS256, AccessClaims(id, username, email, phoneNumber, role, clock.iatAt, clock.expAt), cfg.secret)
                 !in {None, Some("")}
              && cfg.signer.sign(HS256, RefreshClaims(clock.refreshAt), cfg.refSecret) !in {None, Some("")}
    ensures r.Some? ==> r.value.Keys == {"access_token", "refresh_token"}
    ensures r.Some? ==> Some(r.value["access_token"])
                        == cfg.signer.sign(HS256, AccessClaims(id, username, email, phoneNumber, role, clock.iatAt, clock.expAt), cfg.secret)
    ensures r.Some? ==> Some(r.value["refresh_token"]) == cfg.signer.sign(HS256, RefreshClaims(clock.refreshAt), cfg.refSecret)
  {
    var accessToken := GenerateToken(cfg, id, username, email, phoneNumber, role, clock.iatAt, clock.expAt);
    var refreshToken := GenerateRefreshToken(cfg, clock.refreshAt);
    if accessToken == "" || refreshToken == "" then None
    else Some(map["access_token" := accessToken, "refresh_token" := refreshToken])
  }

  /** The access token lives at least 24 hours past its issued-at, and the refresh token expires
      no earlier than the access token. When the three readings fall in the same second both
      expiries are exactly 24 hours after the issued-at. */
  lemma IssuedWindow(id: nat, username: string, email: string, phoneNumber: string, role: string, clock: IssueClock)
    requires Monotone(clock)
    ensures var access := AccessClaims(id, username, email, phoneNumber, role, clock.iatAt, clock.expAt);
            access["exp"].n >= access["iat"].n + 86400.0
    ensures RefreshClaims(clock.refreshAt)["exp"].n
            >= AccessClaims(id, username, email, phoneNumber, role, clock.iatAt, clock.expAt)["exp"].n
    ensures Unix(clock.iatAt) == Unix(clock.refreshAt) ==>
            var access := AccessClaims(id, username, email, phoneNumber, role, clock.iatAt, clock.expAt);
            && access["exp"].n == access["iat"].n + 86400.0
            && RefreshClaims(clock.refreshAt)["exp"] == access["exp"]
    ensures RefreshClaims(clock.refreshAt).Keys == {"exp"}
  {
    UnixAddSeconds(clock.expAt, 86400);
    UnixAddSeconds(clock.refreshAt, 86400);
    UnixMonotone(clock.iatAt, clock.expAt);
    UnixMonotone(clock.expAt, clock.refreshAt);
  }

  // ---------------------------------------------------------------------------
  // Refresh
  // ---------------------------------------------------------------------------

  /** `GetExpirationTime` followed by the time it denotes, truncated to whole seconds. */
  function ExpirySeconds(v: ClaimValue): int
    requires v.Num?
  {
    v.n.Floor
  }

  /** What `RefreshJWT` returns, and the refresh token's claims afterwards (the source overwrites
      their `exp` in place once the access token has parsed). `now` is the clock reading the
      expiry is compared with; `renewAt` is the later reading the new expiry is based on. */
  function RefreshOutcome(cfg: JwtConfig, accessToken: string, alg: string, signature: Bytes, valid: bool,
                          claims: Claims, now: Instant, renewAt: Instant): (r: (Result<map<string, string>>, Claims))
    ensures r.1 == claims || r.1 == claims["exp" := Num(Unix(renewAt + TokenLifetime) as real)]
    ensures r.0.Ok? ==> r.1 == claims["exp" := Num(Unix(renewAt + TokenLifetime) as real)]
    ensures r.0.Ok? ==> r.0.value.Keys == {"access_token", "refresh_token"} && r.0.value["access_token"] == accessToken
    ensures r.0.Ok? ==> valid && cfg.signer.parse(accessToken, cfg.secret).Some?
  {
    if "exp" in claims && !claims["exp"].Num? then (Err(ExpirationError), claims)
    else if !valid then (Err(NotValidExpired), claims)
    // An absent `exp`, or one equal to 0, yields a nil expiry, which the comparison dereferences.
    else if "exp" !in claims || claims["exp"] == Num(0.0) then (Panic(NilDereference), claims)
    else if !(ExpirySeconds(claims["exp"]) * Second > now) then (Err(NotValidExpired), claims)
    else match cfg.signer.parse(accessToken, cfg.secret)
      case None => (Err(ParseError), claims)
      case Some(_) =>
        var newRefreshClaims := claims["exp" := Num(Unix(renewAt + TokenLifetime) as real)];
        match cfg.signer.sign(alg, newRefreshClaims, signature)
        case None => (Err(SignRefreshError), newRefreshClaims)
        case Some(t) => (Ok(map["access_token" := accessToken, "refresh_token" := t]), newRefreshClaims)
  }

  /** A token as the refresh handler receives it; its claim map is shared with the caller. */
  class Token {
    const raw: string
    const alg: string
    const signature: Bytes
    const valid: bool
    var claims: Claims

    constructor (raw: string, alg: string, signature: Bytes, valid: bool, claims: Claims)
      ensures this.raw == raw && this.alg == alg && this.signature == signature
      ensures this.valid == valid && this.claims == claims
    {
      this.raw, this.alg, this.signature, this.valid := raw, alg, signature, valid;
      this.claims := claims;
    }
  }

  /** Rotates a token pair. The refresh token must be valid with an expiry strictly after `now`;
      the presented access token must parse under the access secret. The returned access token
      is the presented string itself; the refresh token is re-signed with the old token's
      signature bytes as the key, its expiry 24 hours after the reading `renewAt`. */
  method RefreshJWT(cfg: JwtConfig, accessToken: string, refreshToken: Token, now: Instant, renewAt: Instant)
    returns (r: Result<map<string, string>>)
    modifies refreshToken
    ensures (r, refreshToken.claims) == RefreshOutcome(cfg, accessToken, refreshToken.alg, refreshToken.signature,
                                                       refreshToken.valid, old(refreshToken.claims), now, renewAt)
  {
    var claims := refreshToken.claims;
    if "exp" in claims && !claims["exp"].Num? {
      return Err(ExpirationError);
    }
    if !refreshToken.valid {
      return Err(NotValidExpired);
    }
    if "exp" !in claims || claims["exp"] == Num(0.0) {
      return Panic(NilDereference);
    }
    var expTime := ExpirySeconds(claims["exp"]);
    if expTime * Second > now {
      var newToken := cfg.signer.parse(accessToken, cfg.secret);
      if newToken.None? {
        return Err(ParseError);
      }
      // The access claims get a fresh iat/exp in the parsed copy, which is never signed again.
      var newClaim := newToken.value.claims["iat" := Num(Unix(renewAt) as real)]["exp" := Num(Unix(renewAt + TokenLifetime) as real)];
      refreshToken.claims := refreshToken.claims["exp" := Num(Unix(renewAt + TokenLifetime) as real)];
      var newSignRefToken := cfg.signer.sign(refreshToken.alg, refreshToken.claims, refreshToken.signature);
      if newSignRefToken.None? {
        return Err(SignRefreshError);
      }
      return Ok(map["access_token" := accessToken, "refresh_token" := newSignRefToken.value]);
    }
    return Err(NotValidExpired);
  }

  /** No pair comes back unless the refresh token is valid and carries a non-zero numeric expiry
      that, in whole seconds, is after `now`. A valid token without a usable expiry panics. */
  lemma RefreshNeedsLiveRefreshToken(cfg: JwtConfig, accessToken: string, alg: string, signature: Bytes, valid: bool,
                                     claims: Claims, now: Instant, renewAt: Instant)
    ensures RefreshOutcome(cfg, accessToken, alg, signature, valid, claims, now, renewAt).0.Ok? ==>
              && valid && "exp" in claims && claims["exp"].Num? && claims["exp"].n != 0.0
              && claims["exp"].n.Floor * Second > now
    ensures valid && "exp" in claims && claims["exp"].Num? && claims["exp"].n != 0.0
            && claims["exp"].n.Floor * Second <= now ==>
              RefreshOutcome(cfg, accessToken, alg, signature, valid, claims, now, renewAt).0 == Err(NotValidExpired)
    ensures !valid && ("exp" !in claims || claims["exp"].Num?) ==>
              RefreshOutcome(cfg, accessToken, alg, signature, valid, claims, now, renewAt).0 == Err(NotValidExpired)
    ensures valid && ("exp" !in claims || claims["exp"] == Num(0.0)) ==>
              RefreshOutcome(cfg, accessToken, alg, signature, valid, claims, now, renewAt).0 == Panic(NilDereference)
  {
  }

  /** The other failures of a refresh: an `exp` claim that is not a number, and a live refresh
      token presented with an access token that does not verify under the access secret. Neither
      touches the refresh token's claims. */
  lemma RefreshFailures(cfg: JwtConfig, accessToken: string, alg: string, signature: Bytes, valid: bool,
                        claims: Claims, now: Instant, renewAt: Instant)
    ensures "exp" in claims && !claims["exp"].Num? ==>
              RefreshOutcome(cfg, accessToken, alg, signature, valid, claims, now, renewAt) == (Err(ExpirationError), claims)
    ensures && valid && "exp" in claims && claims["exp"].Num? && claims["exp"].n != 0.0
            && claims["exp"].n.Floor * Second > now
            && cfg.signer.parse(accessToken, cfg.secret).None? ==>
              RefreshOutcome(cfg, accessToken, alg, signature, valid, claims, now, renewAt) == (Err(ParseError), claims)
    ensures RefreshOutcome(cfg, accessToken, alg, signature, valid, claims, now, renewAt).1 != claims ==>
              cfg.signer.parse(accessToken, cfg.secret).Some?
  {
  }

  /** A successful refresh hands the presented access token back unchanged (its iat/exp are not
      renewed), and a refresh token holding the old refresh claims with a new expiry, signed with
      the old signature bytes. Only an access token that parses under the access secret gets that far. */
  lemma RefreshPairShape(cfg: JwtConfig, accessToken: string, alg: string, signature: Bytes, valid: bool,
                         claims: Claims, now: Instant, renewAt: Instant)
    requires RefreshOutcome(cfg, accessToken, alg, signature, valid, claims, now, renewAt).0.Ok?
    ensures var (r, newClaims) := RefreshOutcome(cfg, accessToken, alg, signature, valid, claims, now, renewAt);
      && r.value.Keys == {"access_token", "refresh_token"}
      && r.value["access_token"] == accessToken
      && cfg.signer.parse(accessToken, cfg.secret).Some?
      && newClaims == claims["exp" := Num(Unix(renewAt + TokenLifetime) as real)]
      && cfg.signer.sign(alg, newClaims, signature) == Some(r.value["refresh_token"])
  {
  }

  // ---------------------------------------------------------------------------
  // Validation and extraction
  // ---------------------------------------------------------------------------

  predicate IsHmac(alg: string) {
    alg in {"HS256", "HS384", "HS512"}
  }

  /** Drops the first seven characters of the header ("Bearer "), then parses under the access
      secret, refusing any algorithm outside the HMAC family. */
  function ValidateToken(cfg: JwtConfig, header: string): (r: Result<Parsed>)
    ensures |header| < BearerPrefixLength <==> r.Panic?
    ensures r.Ok? ==> IsHmac(r.value.alg) && cfg.signer.parse(header[BearerPrefixLength..], cfg.secret) == Some(r.value)
    ensures r.Err? <==> (
              && |header| >= BearerPrefixLength
              && match cfg.signer.parse(header[BearerPrefixLength..], cfg.secret)
                 case None => true
                 case Some(p) => !IsHmac(p.alg))
    ensures r.Err? ==> r.msg == ParseError
  {
    if |header| < BearerPrefixLength then Panic(SliceOutOfRange)
    else match cfg.signer.parse(header[BearerPrefixLength..], cfg.secret)
      case None => Err(ParseError)
      case Some(p) => if IsHmac(p.alg) then Ok(p) else Err(ParseError)
  }

  /** `uint(f)` for a float that is a JSON number: truncation toward zero, kept to 64 bits. */
  function UintOf(x: real): (u: nat)
    ensures u < Uint64Modulus
    ensures 0.0 <= x < Uint64Modulus as real ==> u as real <= x < u as real + 1.0
  {
    var t := if x >= 0.0 then x.Floor else -((-x).Floor);
    t % Uint64Modulus
  }

  predicate IsStr(claims: Claims, key: string) {
    key in claims && claims[key].Str?
  }

  /** Reads the identity out of a claim set. The string claims are asserted without a check
      (a missing one panics); the id is read with a checked assertion and reported as an error. */
  function ExtractClaims(claims: Claims): (r: Result<Extracted>)
    ensures r.Panic? <==> !(IsStr(claims, "email") && IsStr(claims, "username") && IsStr(claims, "phone_number") && IsStr(claims, "role"))
    ensures r.Err? <==> !r.Panic? && !("id" in claims && claims["id"].Num?)
    ensures r.Err? ==> r.msg == IdNotNumber
    ensures r.Ok? ==> r.value.id == UintOf(claims["id"].n)
    ensures r.Ok? ==> r.value.username == claims["username"].s && r.value.email == claims["email"].s
    ensures r.Ok? ==> r.value.phoneNumber == claims["phone_number"].s && r.value.role == claims["role"].s
  {
    if !(IsStr(claims, "email") && IsStr(claims, "username") && IsStr(claims, "phone_number") && IsStr(claims, "role")) then
      Panic(BadTypeAssertion)
    else if !("id" in claims && claims["id"].Num?) then Err(IdNotNumber)
    else Ok(Extracted(UintOf(claims["id"].n), claims["username"].s, claims["email"].s,
                      claims["phone_number"].s, claims["role"].s))
  }

  /** The claims of the bearer token in the Authorization header. A token that fails validation is
      not stopped: its nil claims are dereferenced. */
  function ExtractToken(cfg: JwtConfig, header: string): (r: Result<Extracted>)
    ensures r.Ok? || r.Err? ==> ValidateToken(cfg, header).Ok?
    ensures ValidateToken(cfg, header).Err? ==> r == Panic(NilDereference)
    ensures ValidateToken(cfg, header).Panic? ==> r == Panic(ValidateToken(cfg, header).reason)
    ensures ValidateToken(cfg, header).Ok? ==> r == ExtractClaims(ValidateToken(cfg, header).value.claims)
  {
    match ValidateToken(cfg, header)
    case Panic(why) => Panic(why)
    case Err(_) => Panic(NilDereference)
    case Ok(token) => ExtractClaims(token.claims)
  }

  /** True only when extraction succeeds with the role "Admin", capitalised; false on an extraction error. */
  function ValidateRole(cfg: JwtConfig, header: string): (r: Result<bool>)
    ensures r == Ok(true) <==> ExtractToken(cfg, header).Ok? && ExtractToken(cfg, header).value.role == "Admin"
    ensures r.Panic? <==> ExtractToken(cfg, header).Panic?
  {
    match ExtractToken(cfg, header)
    case Panic(why) => Panic(why)
    case Err(_) => Ok(false)
    case Ok(ext) => Ok(ext.role == "Admin")
  }

  /** Extraction reads back exactly what issuance wrote: the access claims round-trip. */
  lemma ExtractIssuedClaims(id: nat, username: string, email: string, phoneNumber: string, role: string,
                            iatAt: Instant, expAt: Instant)
    ensures ExtractClaims(AccessClaims(id, username, email, phoneNumber, role, iatAt, expAt))
            == Ok(Extracted(id % Uint64Modulus, username, email, phoneNumber, role))
  {
    assert (id as real).Floor == id;
  }
}
