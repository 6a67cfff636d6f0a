/** The records of the user feature (features/users/entity.go). */
module Users {
  import opened GoTime

  /** A user row. `id` is the auto-incremented primary key; `password` holds a hash once stored through the service. */
  datatype User = User(
    id: nat,
    username: string,
    email: string,
    phoneNumber: string,
    password: string,
    isAdmin: bool,
    status: bool)

  /** A one-time code row. The reset table and the verification table share this shape. */
  datatype CodeRecord = CodeRecord(username: string, code: string, expiredAt: Instant)

  /** The fields a user may change on their own profile. */
  datatype UpdateProfile = UpdateProfile(username: string, phoneNumber: string, email: string)

  /** What a successful login hands back: the username and the token map. */
  datatype UserCredential = UserCredential(username: string, access: map<string, string>)
}
