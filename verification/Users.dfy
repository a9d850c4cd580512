/** Users as the identity and tenancy contexts store them, found by their normalised e-mail address. */
module Users {
  import opened Wrappers
  import opened Text

  type UserId = nat

  const MIN_PASSWORD_LENGTH := 8

  datatype User = User(email: string, displayName: string, suspended: bool)

  predicate HasEmail(users: map<UserId, User>, user: UserId, email: string) {
    user in users && users[user].email == email
  }

  ghost function FindUser(users: map<UserId, User>, email: string): (found: Option<UserId>)
    ensures found.Some? ==> HasEmail(users, found.value, email)
    ensures found == None ==> forall u :: !HasEmail(users, u, email)
  {
    if exists u :: HasEmail(users, u, email) then var u :| HasEmail(users, u, email); Some(u) else None
  }

  predicate EmailsDistinct(users: map<UserId, User>) {
    forall u, v :: u in users && v in users && users[u].email == users[v].email ==> u == v
  }

  method SearchByEmail(users: map<UserId, User>, email: string) returns (found: Option<UserId>)
    requires EmailsDistinct(users)
    ensures found == FindUser(users, Normalize(email))
  {
    var normalized := Normalize(email);
    var left := users.Keys;
    while left != {}
      invariant left <= users.Keys
      invariant forall u :: u in users && u !in left ==> !HasEmail(users, u, normalized)
    {
      var u :| u in left;
      if users[u].email == normalized {
        assert HasEmail(users, u, normalized);
        return Some(u);
      }
      left := left - {u};
    }
    found := None;
  }
}
