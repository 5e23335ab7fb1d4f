/**
 * The credential table behind `create_user` and `verify_user`: a map from
 * user name to a record holding the password digest, the creation time and
 * the default preferences. The digest function (SHA-256 in hex) is not
 * modelled; callers pass the digest it produced.
 */
module Credentials {
  import opened Text

  datatype Preferences = Preferences(model: String, temperature: real, theme: String)

  datatype UserRecord = UserRecord(passwordHash: String, createdAt: int, preferences: Preferences)

  type UserTable = map<String, UserRecord>

  /** The preferences every new account starts with. */
  const DefaultPreferences := Preferences("llama-3.3-70b-versatile", 0.7, "light")

  /** `verify_user`: the user exists and its stored digest equals the digest of the password given. */
  function Verify(users: UserTable, username: String, digest: String): bool
  {
    username in users && users[username].passwordHash == digest
  }

  /** `create_user` on the loaded table: refuses a name already present,
      otherwise adds exactly that one key. Returns the flag and the table to save. */
  function Register(users: UserTable, username: String, digest: String, now: int): (r: (bool, UserTable))
    ensures r.0 <==> username !in users
    ensures !r.0 ==> r.1 == users
    ensures r.0 ==> r.1.Keys == users.Keys + {username}
    ensures r.0 ==> r.1[username] == UserRecord(digest, now, DefaultPreferences)
    ensures forall u :: u in users ==> u in r.1 && r.1[u] == users[u]
  {
    if username in users then (false, users)
    else (true, users[username := UserRecord(digest, now, DefaultPreferences)])
  }

  /** An unknown user never verifies, whatever the password. */
  lemma UnknownUserRejected(users: UserTable, username: String, digest: String)
    requires username !in users
    ensures !Verify(users, username, digest)
  {
  }

  /** Straight after a successful registration the same password verifies. */
  lemma RegisterThenVerify(users: UserTable, username: String, digest: String, now: int)
    requires Register(users, username, digest, now).0
    ensures Verify(Register(users, username, digest, now).1, username, digest)
  {
  }

  /** After registration a password whose digest differs does not verify. */
  lemma RegisterThenWrongPassword(users: UserTable, username: String, digest: String, wrong: String, now: int)
    requires Register(users, username, digest, now).0
    requires wrong != digest
    ensures !Verify(Register(users, username, digest, now).1, username, wrong)
  {
  }

  /** Registering a name twice fails the second time and keeps the first credential. */
  lemma RegisterTwice(users: UserTable, username: String, d1: String, d2: String, t1: int, t2: int)
    requires username !in users
    ensures var first := Register(users, username, d1, t1).1;
      && !Register(first, username, d2, t2).0
      && Register(first, username, d2, t2).1 == first
      && Verify(first, username, d1)
  {
  }

  /** Registration never changes whether another user verifies. */
  lemma RegisterKeepsOthers(users: UserTable, username: String, digest: String, now: int, other: String, d: String)
    requires other != username
    ensures Verify(Register(users, username, digest, now).1, other, d) == Verify(users, other, d)
  {
  }
}
