# e-ticketing-gin: account lifecycle, tokens, one-time codes and CORS, in Dafny

This project models the core of the e-ticketing-gin back end and proves properties of the model:

- **User store** (`UserStore`, query.go). A `UserData` object holds three tables:
  - the users;
  - the password-reset codes;
  - the account-verification codes.

  Registration, login lookup, username availability, code insertion, lookup and deletion, password reset, profile update, activation and verification change those tables in place.
- **User service** (`UserService`, service.go). The service orchestrates the store, a password hasher, the token issuer and a mailer:
  - registration forces a non-admin, inactive account holding the hashed password;
  - login maps store errors and derives the role;
  - the forgotten-password and verification flows issue, check and consume one-time codes;
  - a code is accepted until its expiry instant, inclusive.
- **Tokens** (`Jwt`, jwt.go). This covers:
  - access and refresh token issuance over claim maps;
  - the refresh decision, including the refresh token's claims being overwritten in place;
  - bearer-header validation and claim extraction;
  - the role check.
- **One-time codes and e-mail bodies** (`Email`, email.go). A loop fills an array with random digits. The reset and verification builders return a fixed header, a body and the code.
- **CORS** (`CorsConfig` for cors_manual.go, `CorsHeaders` for utils_cors.go). This covers:
  - the configuration object and its validation;
  - wildcard origin rules;
  - trimming, lower-casing and de-duplication of header lists;
  - conversion of header lists;
  - the normal and preflight response headers.
- **Supporting modules.** `Wrappers` (Option, Result), `GoTime` (instants in nanoseconds, `Unix`), `GoStrings` (the parts of Go's `strings` and `strconv` packages the core uses) and `Users` (the entities of features/users/entity.go).

Three conventions run through the model:

- **Outcomes.** A Go `(value, error)` pair is a `Result` with `Ok` and `Err`. A run-time panic is `Panic`: a nil dereference, a failed type assertion, a slice out of range, or `panic(...)`.
- **External inputs.** The current time, the random digit draws, the hasher, the password comparison, the mailer and the token signing library are all parameters.
- **Quirks of the source.** The model keeps them as written:
  - a re-issued code is added beside the old row, because the old row is deleted only when the lookup fails;
  - the service passes the verification arguments in swapped order;
  - a refresh returns the original access token string and re-signs the refresh token with the old signature bytes;
  - login issues role "admin" while the role check asks for "Admin";
  - a wildcard origin ending in `*` loses the character before the star;
  - once its status update reaches the users table, a verification with an unknown code dereferences a missing record and panics;
  - a valid refresh token with exp 0 panics, because the token library reports no expiration time.

  Lemmas show what each of these quirks leads to.

## Model

| member | source | states |
|---|---|---|
| UserStore.UserData.constructor | features/users/data/query.go:17-22 | A new store has empty users, reset and verification tables and satisfies the store invariant. |
| UserStore.UserData.Register | features/users/data/query.go:24-38 | Appends exactly one row, the input with the next id, to the users table. Returns the input unchanged and leaves the code tables alone. |
| UserStore.FirstActive | features/users/data/query.go:46 | The row the login query finds is the first row with that username and status true. It is absent exactly when no such row exists. |
| UserStore.UserData.Login | features/users/data/query.go:41-73 | Succeeds iff an active row with that username exists and the password comparison accepts the first such row. Then it returns that row with an empty password. It fails with "Data Not Found" exactly when no active row has that username, and otherwise with "Incorrect Password". |
| UserStore.InactiveRowInvisibleToLogin | features/users/data/query.go:46-52 | Adding an inactive row never changes what login finds. |
| UserStore.PasswordUpdateKeepsLoginRow | features/users/data/query.go:173-177 | A password update never changes which row login finds, for any username. |
| UserStore.UserData.GetByUsername | features/users/data/query.go:87-106 | Returns the public part of the first active row with that username, or "record not found" exactly when no active row has it. |
| UserStore.CountNamed | features/users/data/query.go:108-122 | The number of rows with a username is at most the table size, and zero iff no row has it. |
| UserStore.UserData.CheckUsername | features/users/data/query.go:108-122 | True ("free") exactly when no row, active or not, has the username. |
| UserStore.FirstWithCode | features/users/data/query.go:161 | The row a code lookup finds is the first row with that code. It is absent iff no row has it. |
| UserStore.LookupCode | features/users/data/query.go:157-172 | A found record is in the table and carries the code. None iff no row has the code. Expiry is not checked. |
| UserStore.WithoutCode | features/users/data/query.go:146-155 | No surviving row has the code, and the table does not grow. |
| UserStore.WithoutCodeCounts | features/users/data/query.go:146-155 | Every copy of a row with the code is removed, and every row with another code keeps its number of copies; so the survivors are exactly the table's rows with another code. |
| UserStore.WithoutCodeKeepsOrder | features/users/data/query.go:146-155 | The survivors keep their table order: deleting from a split table is deleting from each part, in the same order. |
| UserStore.WithoutAbsentCode | features/users/data/query.go:146-155 | Deleting an absent code leaves the table unchanged, and the delete succeeds. |
| UserStore.DeletedCodeNotFound | features/users/data/query.go:146-172 | After a delete, a lookup of that code finds nothing. |
| UserStore.DeleteKeepsOtherCodes | features/users/data/query.go:146-172 | A delete does not change the lookup of any other code. |
| UserStore.UserData.InsertCodeReset | features/users/data/query.go:124-144 | Appends (username, code, now + 10 minutes) to the reset table. No existing row is removed, because the delete runs only when the lookup fails. The other tables are unchanged. |
| UserStore.FreshCodeFound | features/users/data/query.go:124-144 | After inserting a code that was absent, the lookup returns the new record. |
| UserStore.ReissuedCodeShadowed | features/users/data/query.go:130-136 | After re-inserting an existing code, both rows are in the table and the lookup still returns the old record. |
| UserStore.UserData.DeleteCodeReset | features/users/data/query.go:146-155 | Removes every reset row with the code and always succeeds. The users and verification tables are unchanged. |
| UserStore.UserData.GetByCodeReset | features/users/data/query.go:157-172 | Returns a reset record carrying the code iff one exists, else "record not found". Expiry is not checked. |
| UserStore.WithPassword | features/users/data/query.go:174 | Every row with the username gets the new password, and no other row or field changes. |
| UserStore.UserData.ResetPassword | features/users/data/query.go:173-194 | With the update aimed at the users table: the password update happens first and always. An unknown code then fails with "record not found" and the password stays changed. A known, non-empty code is deleted. |
| UserStore.ApplyProfile | features/users/data/query.go:197-201 | Non-empty username, email and phone fields replace the old ones, and empty fields keep them. Id, password, role and status never change. |
| UserStore.WithProfile | features/users/data/query.go:197-201 | Only the rows with that id are updated. |
| UserStore.CountId | features/users/data/query.go:208-211 | The affected-row count is zero iff no row has the id. |
| UserStore.UserData.UpdateProfile | features/users/data/query.go:196-214 | Updates the rows with that id. Reports "No Row Affected" exactly when no row has the id. |
| UserStore.WithStatusId | features/users/data/query.go:226-244 | Only the rows with that id get the new status. |
| UserStore.UserData.Activate | features/users/data/query.go:226-234 | Sets status true on the rows with that id and reports success. |
| UserStore.UserData.Deactivate | features/users/data/query.go:236-244 | Sets status false on the rows with that id and reports success. |
| UserStore.UserData.InsertCodeVerification | features/users/data/query.go:281-301 | Appends (username, code, now + 10 minutes) to the verification table and keeps existing rows. |
| UserStore.UserData.DeleteCodeVerification | features/users/data/query.go:303-312 | Removes every verification row with the code and no reset row, and always succeeds. |
| UserStore.UserData.GetByCodeVerification | features/users/data/query.go:313-328 | Returns a verification record carrying the code iff one exists, else "record not found". |
| UserStore.WithStatusNamed | features/users/data/query.go:330 | Only the rows with that username get the new status. |
| UserStore.UserData.UserVerification | features/users/data/query.go:329-344 | With the update aimed at the users table: activates every row with the username. A known code is then deleted if non-empty and the call succeeds. An unknown code panics, because the missing record is dereferenced, and no code is deleted. |
| UserStore.UserData.ResetPasswordAsWritten | features/users/data/query.go:173-177 | The update names no model or table, so the call returns GORM's "Table not set" error before any lookup and changes nothing. |
| UserStore.PasswordResetLostAsWritten | features/users/data/query.go:174 | For a user alice with password "old-hash", the intended update changes the table, so the as-written call, which changes nothing, loses the reset. |
| UserStore.UserData.UserVerificationAsWritten | features/users/data/query.go:329-333 | The status update names no model or table, so the call returns GORM's "Table not set" error and activates nobody. |
| UserStore.VerificationLostAsWritten | features/users/data/query.go:330 | An inactive alice is invisible to login and becomes visible after the intended update, so the as-written call leaves the account locked out. |
| UserStore.AtMostOneRowPerId | features/users/data/query.go:226-244 | Under the store invariant (ids strictly increasing) at most one row has a given id, so activation and profile updates touch at most one row. |
| UserStore.VerifiedAccountFound | features/users/data/query.go:329-334 | After verification, login finds an active row for that username. |
| UserService.UserService.constructor | features/users/service/service.go:21-28 | The service keeps exactly the store, hasher, token issuer and mailer it is given. |
| UserService.Registered | features/users/service/service.go:38-46 | The stored account carries the hash, never the plaintext, and is non-admin and inactive whatever the input says. |
| UserService.UserService.Register | features/users/service/service.go:30-55 | A taken username gives "Username already registered", and a hashing failure gives its error; neither touches the store. Otherwise exactly the registered account is appended with the next id and returned, and the next id moves on by one. |
| UserService.LoginErrorMessages | features/users/service/service.go:59-67 | A message containing "Incorrect Password" maps to Incorrect Password. One containing only "Not Found" maps to Not Found. The store's "record not found" maps to Process Failed. |
| UserService.ClassifyLoginError | features/users/service/service.go:59-67 | The mapped error is always one of the three login messages; LoginErrorMessages says which. |
| UserService.UserService.Login | features/users/service/service.go:56-87 | The three clock readings of token issuance are inputs. Not Found iff no active row has the username. Incorrect Password iff the first active row's password does not compare. Otherwise the result is the token pair for that row with role "admin"/"user", or "Generate JWT" when issuance fails. |
| UserService.LoginTokenNeverAdmin | features/users/service/service.go:69-75 | A token issued at login, even for an admin, extracts to the issued claims, and the role check on it is false. |
| UserService.CodeLifetimeWindow | features/users/service/service.go:115-128 | A freshly issued code is accepted exactly until 10 minutes after issue, inclusive, and is "Token Expired" afterwards. |
| UserService.CheckExpiry | features/users/service/service.go:123-127 | A record is accepted, unchanged, iff its expiry is not before now; otherwise "Token Expired". |
| UserService.UserService.TokenResetVerify | features/users/service/service.go:115-128 | An absent code gives an error, and an expiry strictly before now gives "Token Expired". Otherwise it returns the record, whose expiry is not before now. |
| UserService.UserService.ForgetPasswordWeb | features/users/service/service.go:89-113 | An unknown or inactive user gives an error and no code. Otherwise a record for the user's own username is inserted before the mail is sent. A send failure then panics, because the error logged is the nil lookup error. |
| UserService.UserService.ResetPassword | features/users/service/service.go:130-145 | A hashing failure returns before any store call. Otherwise the store receives the hash of the new password, and an unknown code fails after the update. No id is allocated. |
| UserService.UserService.UserVerificationCode | features/users/service/service.go:200-216 | Inserts the code record first. A send failure returns an error and leaves the code stored. No id is allocated. |
| UserService.UserService.UserVerification | features/users/service/service.go:217-224 | Calls the store with the arguments swapped: it activates the rows named by `code` and deletes the code named by `username`. Over the corrected store, a lookup of `username` as a code that finds nothing panics through. No id is allocated. |
| UserService.ActivationOfOtherName | features/users/service/service.go:217-218 | Activating the wrong name leaves login for the intended username unchanged. |
| UserService.UserService.TokenVerificationResetVerify | features/users/service/service.go:225-237 | The same three outcomes as the reset check, over the verification table. |
| Jwt.GenerateJWT | helper/jwt/jwt.go:39-51 | No map iff either signing fails or gives "". Otherwise the map has exactly the keys access_token and refresh_token, holding the two signed tokens. |
| Jwt.GenerateToken | helper/jwt/jwt.go:53-71 | The token is the access claims signed with the access secret, or "" exactly when signing fails or gives "". |
| Jwt.GenerateRefreshToken | helper/jwt/jwt.go:73-84 | The token is the refresh claims signed with the refresh secret, or "" exactly when signing fails or gives "". |
| Jwt.IssuedWindow | helper/jwt/jwt.go:53-84 | With the three clock readings in order, the access exp is at least iat + 24 h and the refresh exp at least the access exp; when all readings fall in the same second both are equalities. The refresh claims hold only exp. |
| Jwt.RefreshJWT | helper/jwt/jwt.go:86-127 | The result and the refresh token's claims afterwards are the refresh outcome of the old claims, with the new exp taken from a second clock reading. |
| Jwt.RefreshOutcome | helper/jwt/jwt.go:86-127 | The refresh claims afterwards are the old ones or the old ones with the new exp, and the latter on success. A success needs a valid refresh token and a parsing access token, and returns exactly access_token, the presented string, and refresh_token. |
| Jwt.RefreshNeedsLiveRefreshToken | helper/jwt/jwt.go:94-126 | A refresh succeeds only for a valid refresh token whose non-zero exp, in whole seconds, is after now. A valid token with exp 0 or no exp panics, because the library reports no expiration time and it is dereferenced. An expired or invalid token gives "Refresh Token Not Valid & Expired". |
| Jwt.RefreshFailures | helper/jwt/jwt.go:88-103 | A non-numeric exp gives "Token Expiration Error". A live refresh token with an access token that does not verify gives "Parse Token Error". Neither changes the refresh claims. |
| Jwt.RefreshPairShape | helper/jwt/jwt.go:105-121 | On success, access_token is the presented string and the refresh claims are the old ones with a new exp. refresh_token is those claims signed with the old signature bytes. |
| Jwt.ValidateToken | helper/jwt/jwt.go:129-143 | A header shorter than 7 characters panics. Otherwise the rest after 7 characters is parsed, and a parse failure or a non-HMAC algorithm gives "Parse Token Error". |
| Jwt.UintOf | helper/jwt/jwt.go:166 | The id fits in 64 bits, and an id in range becomes its integer part. |
| Jwt.ExtractClaims | helper/jwt/jwt.go:155-172 | A missing or non-string email, username, phone or role panics. A non-numeric id gives "ID not found or not a valid number". Otherwise the id is the claim converted to uint and the username, email, phone and role are the claim strings. |
| Jwt.ExtractToken | helper/jwt/jwt.go:145-173 | A header that validates gives the extraction of its token's claims: the fields, the id error or the type-assertion panic. An invalid token is not stopped: its claims are dereferenced, which panics. A short header panics as validation does. |
| Jwt.ExtractIssuedClaims | helper/jwt/jwt.go:155-172 | The claims of an issued access token extract to exactly the issued id (truncated), username, email, phone and role. |
| Jwt.ValidateRole | helper/jwt/jwt.go:187-195 | True iff extraction succeeds with role exactly "Admin". It panics iff extraction panics. |
| Email.CodeOf | helper/email/email.go:44-51 | The code has one digit per draw. |
| Email.GenerateRandomCode | helper/email/email.go:44-51 | Returns exactly `length` characters. Character i is the digit chosen by draw i, so every character is '0'..'9'. |
| Email.RenderShows | helper/email/email.go:94-183 | Every rendered body contains the username and the code. |
| Email.HtmlBodyEmailReset | helper/email/email.go:68-138 | The reset subject line, and a body showing the username and the code. |
| Email.HtmlBodyEmailVerification | helper/email/email.go:140-210 | The verification subject line, and a body showing the username and the code. |
| Email.HTMLBodyReset | helper/email/email.go:54-59 | Returns a 4-digit code and the fixed reset header. The body contains the code and the username. |
| Email.HTMLBodyVerification | helper/email/email.go:61-66 | Returns a 4-digit code and the fixed verification header. The body contains the code and the username. |
| CorsConfig.ConfigCors.constructor | helper/cors/cors_manual.go:10-23 | The zero configuration: no origins, methods or headers, every flag off, and MaxAge 0. |
| CorsConfig.ConfigCors.AddAllowMethods | helper/cors/cors_manual.go:25-27 | Appends the methods after the existing ones; its frame lets no other setting change. |
| CorsConfig.ConfigCors.AddAllowHeaders | helper/cors/cors_manual.go:29-31 | Appends the headers after the existing ones; its frame lets no other setting change. |
| CorsConfig.ConfigCors.AddExposeHeaders | helper/cors/cors_manual.go:33-35 | Appends the headers after the existing ones; its frame lets no other setting change. |
| CorsConfig.ConfigCors.GetAllowedSchemas | helper/cors/cors_manual.go:37-49 | Starts with the default schemas. A schema is allowed iff it is a default schema or belongs to a list whose flag is set. |
| CorsConfig.ConfigCors.ValidateAllowedSchemas | helper/cors/cors_manual.go:51-59 | True iff some allowed schema is a prefix of the origin. |
| CorsConfig.ConfigCors.Validate | helper/cors/cors_manual.go:61-74 | The first error, in order: all origins together with a function or a list; all origins off, with no function and a non-empty list; some origin with no '*' and no allowed prefix, with the message naming the allowed schemas. Otherwise no error. |
| CorsConfig.Starred | helper/cors/cors_manual.go:83-86 | Exactly the origins containing '*', in order. |
| CorsConfig.WildcardRules | helper/cors/cors_manual.go:76-106 | The walk never returns an error, and gives at most one rule per origin. |
| CorsConfig.WildcardRulesMeaning | helper/cors/cors_manual.go:83-104 | Panics iff some origin has more than one '*', and never returns an error. Otherwise there is one rule per starred origin, in input order. |
| CorsConfig.ConfigCors.ParseWildcardRules | helper/cors/cors_manual.go:76-106 | No rules when wildcards are off. Otherwise the wildcard rules of the configured origins. |
| CorsConfig.RuleFor | helper/cors/cors_manual.go:92-103 | Every rule has two parts. |
| CorsConfig.LeadingStarRule | helper/cors/cors_manual.go:93-96 | A leading '*' gives ["*", rest], and "*" + rest is the origin. |
| CorsConfig.TrailingStarRule | helper/cors/cors_manual.go:98-101 | A trailing '*' gives [o[:i-1], "*"]. The character before the star is not in the rule. |
| CorsConfig.InnerStarRule | helper/cors/cors_manual.go:103 | An inner '*' splits the origin into two star-free parts that rebuild it around the star. |
| CorsConfig.DefaultConfig | helper/cors/cors_manual.go:108-115 | Methods GET, POST, PUT, PATCH, DELETE, HEAD and OPTIONS; headers ["*"]; no credentials; MaxAge 12 h; everything else zero. |
| CorsHeaders.MapNormalized | helper/cors/utils_cors.go:66-68 | One normalised value per input. |
| CorsHeaders.DistinctMeaning | helper/cors/utils_cors.go:64-73 | The de-duplicated list has the same elements as its input, no duplicates, and is no longer. |
| CorsHeaders.DistinctFirstOccurrenceOrder | helper/cors/utils_cors.go:66-72 | The de-duplicated list is in order of first occurrence. |
| CorsHeaders.Normalize | helper/cors/utils_cors.go:59-75 | Returns the trimmed, lower-cased values without duplicates, in order of first occurrence. |
| GoStrings.TrimSpaceMeaning | helper/cors/utils_cors.go:67 | The trimmed value neither starts nor ends with white space, and it is the input with only white space cut off before and after it. |
| GoStrings.TrimSpaceCut | helper/cors/utils_cors.go:67 | The cut is at the end of the leading white space, and only white space follows the kept part. |
| CorsHeaders.CanonicalHeaderKey | helper/cors/utils_cors.go:40 | Canonicalising keeps the length and leaves a name with a non-token character unchanged. |
| CorsHeaders.CanonicalHeaderKeyMeaning | helper/cors/utils_cors.go:40 | Canonicalising changes only letter case and is idempotent. |
| CorsHeaders.Converted | helper/cors/utils_cors.go:77-83 | The converter is applied to each element, keeping length and order. |
| CorsHeaders.Convert | helper/cors/utils_cors.go:77-83 | The converter is applied to each element, keeping length and order. |
| CorsHeaders.ListHeaderValueMeaning | helper/cors/utils_cors.go:35-42 | The joined header value contains every configured entry, normalised and converted. |
| CorsHeaders.ListHeader | helper/cors/utils_cors.go:35-36 | Normalise, then convert, then join with ",". |
| CorsHeaders.GenerateNormalHeaders | helper/cors/utils_cors.go:12-27 | Allow-Credentials is ["true"] iff credentials are allowed. Expose-Headers is present iff the list is non-empty. Allow-Origin ["*"] is present iff all origins are allowed, and otherwise Vary is ["Origin"]. No other key is set. |
| CorsHeaders.GeneratePreflightHeaders | helper/cors/utils_cors.go:29-57 | Allow-Methods holds the upper-cased normalised methods. Allow-Headers holds the canonicalised normalised headers. Max-Age is present iff MaxAge > 0, with the whole seconds in decimal. Without all origins, Vary is Origin, Access-Control-Request-Method and Access-Control-Request-Headers in that order, and there is no Allow-Origin. No other key is set. |
| GoStrings.FormatDecimalRoundTrip | helper/cors/utils_cors.go:45 | The decimal rendering of Max-Age reads back as the same number. |
| GoTime.UnixMonotone | helper/jwt/jwt.go:60-75 | A later clock reading never has an earlier Unix second. |
| GoTime.UnixAddSeconds | helper/jwt/jwt.go:60-61 | Adding whole seconds to an instant adds them to its Unix time, so exp is iat + 86400. |

## Findings

| source | as written | input that shows it | evidently intended | confidence | as-written member | corrected member |
|---|---|---|---|---|---|---|
| features/users/data/query.go:174 | `Where("username = ?", username).Update("password", password)` names no model or table; GORM v2 answers "Table not set" and the reset returns that error without changing any password | any call, e.g. user alice with password "old-hash" (PasswordResetLostAsWritten) | `Model(&User{})` before `Where`, so the users row is updated | not executed; rests on GORM v2's statement parsing, which is not part of this model | UserStore.UserData.ResetPasswordAsWritten | UserStore.UserData.ResetPassword |
| features/users/data/query.go:330 | `Where("username = ?", username).Update("status", true)` names no model or table; the verification returns "Table not set" and activates nobody | an inactive alice, who stays invisible to login (VerificationLostAsWritten) | `Model(&User{})` before `Where`, so the account is activated | not executed; rests on GORM v2's statement parsing, which is not part of this model | UserStore.UserData.UserVerificationAsWritten | UserStore.UserData.UserVerification |

## Left out

- The database layer is an in-memory store that never fails. The GORM error branches are not modelled: connection errors, constraint violations and a failed `Create`. The soft delete of GORM models is treated as removal of the row.
- `GetByID`, `GetAll`, `UserDashboard` and `getTotalUser` (features/users/data/query.go:75-85, 216-279) are not modelled. They are reads over the GORM scope and aggregate counts.
- The service's `UpdateProfile`, `Profile`, `GetAll`, `Activate`, `Deactivate` and `UserDashboard` (features/users/service/service.go:146-199) are not modelled. They pass the store's answer through with an error message.
- The verification table has no primary key. GORM's `First` orders it by its first column, while the model returns the first row in insertion order.
- UserStore.UserData.ResetPassword: modelled with the update at features/users/data/query.go:174 aimed at the users table, as intended; the as-written call fails (see Findings).
- UserStore.UserData.UserVerification: modelled with the update at features/users/data/query.go:330 aimed at the users table, as intended; the as-written call fails (see Findings).
- UserService.UserService.UserVerification: runs over the corrected store; as written the store returns "Table not set", which the service reports as a verification failure, and never reaches the panic.
- UserService.UserService.ResetPassword: runs over the corrected store; as written the store returns "Table not set" and every reset fails without changing a password.
- UserService.CodeLifetimeWindow: expiry instants round-trip exactly through the model's store. The program keeps them in a Postgres `timestamp` column (features/users/data/model.go:22-28), which holds microseconds and no time zone, so sub-microsecond precision and the zone are lost there.
- Jwt.IssuedWindow: assumes the wall clock does not step back between the three readings at helper/jwt/jwt.go:60, 61 and 75.
- UserService.UserService.Register: hashing is an abstract function that may fail. The bcrypt wrapper in helper/enkrip/password.go reports failure as "" with a nil error, and bcrypt's salting is not modelled.
- Password comparison is an abstract predicate held by the store.
- Sending mail (helper/email/email.go:26-42) is an abstract function that returns whether sending succeeded.
- `time.Now` and `math/rand` are parameters: an instant in nanoseconds and the digit draws.
- The e-mail bodies are abbreviated to the text around the username and the code. The header strings are kept exactly.
- HMAC-SHA256 signing and the JWT library's parsing and claim validation are abstract functions keyed by the secret.
- Claim numbers are reals, not float64: the loss of precision for ids above 2^53 is not modelled.
- Jwt.UintOf: the conversion of a negative or out-of-range float to uint is implementation-specific in Go. The model reduces the truncated value modulo 2^64 and promises only the range.
- The re-assigned access claims at helper/jwt/jwt.go:105-107 are not modelled, because they are never signed or returned.
- `GetCurrentToken` (helper/jwt/jwt.go:175-185) is not modelled; it returns the library's token object.
- The schema lists `DefaultSchemas`, `ExtensionSchemas`, `WebSocketSchemas` and `FileSchemas` are parameters, because their definitions are not part of this model.
- `Default`, `New`, `newCors` and `applyCors` (helper/cors/cors_manual.go:117-128) are not modelled; they are the gin middleware.
- `normalize(nil)` returning nil, as distinct from an empty slice, is not modelled: both are the empty sequence.
- Strings are sequences of characters, not bytes. `TrimSpace`, `ToLower`, `ToUpper` and `CanonicalHeaderKey` act on ASCII only.
- CorsConfig.ConfigCors.GetAllowedSchemas: the order of the optional schema lists after the defaults is not stated.
- The HTTP handlers, routes, configuration loading, server start-up and dependency injection are not modelled.
