/** Username and password rules, and the password hashing the application
    delegates to a library it does not define. */
module Credentials {

  /** `validate_username`: a missing or empty name fails, and so does one
      shorter than three characters; the emptiness test is subsumed by the
      length test. */
  function ValidateUsername(username: string): (ok: bool)
    ensures ok <==> |username| >= 3
    ensures ok ==> username != []
  {
    !(username == [] || |username| < 3)
  }

  /** `validate_password`: at least six characters. */
  function ValidatePassword(password: string): (ok: bool)
    ensures ok <==> |password| >= 6
  {
    !(|password| < 6)
  }

  /** The random salt a fresh hash draws. */
  type Salt = int

  /** The salted one-way hash and its verifier, known only through `Sound`:
      a hash made from a password verifies against that same password. */
  datatype Hasher = Hasher(hash: (string, Salt) -> string, check: (string, string) -> bool)
  {
    ghost predicate Sound()
    {
      forall password: string, salt: Salt :: check(hash(password, salt), password)
    }
  }
}
