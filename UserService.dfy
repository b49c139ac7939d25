/**
 * The user workflow: register a user whose email is not taken, log in by
 * exact email and password, and look a user up by id.
 */
module UserService {
  import opened Entities
  import opened Repositories

  /** Some stored user has this email. */
  predicate EmailTaken(users: map<nat, User>, email: string) {
    exists u :: u in users.Values && u.email == email
  }

  /** No two users share an email. */
  ghost predicate EmailsUnique(users: map<nat, User>) {
    forall a, b :: a in users && b in users && users[a].email == users[b].email ==> a == b
  }

  /**
   * login: the stored user with exactly this email and password, or None
   * (an empty result, not an error). When emails are unique there is at
   * most one such user, and it is the one returned.
   */
  function Login(db: Store, email: string, password: string): (r: Option<User>)
    reads db
    requires db.Valid()
    ensures r.Some? <==> exists u :: u in db.users.Values && u.email == email && u.password == password
    ensures r.Some? ==> r.value in db.users.Values && r.value.email == email && r.value.password == password
    ensures EmailsUnique(db.users) ==>
      forall u :: u in db.users.Values && u.email == email && u.password == password ==> r == Some(u)
  {
    db.FindUserByEmailAndPassword(email, password)
  }

  /**
   * registerUser: stores the candidate under a fresh id unless its email is
   * taken. The id the candidate carries is not used.
   */
  method RegisterUser(db: Store, candidate: User) returns (r: Result<User>)
    requires db.Valid()
    modifies db
    ensures db.Valid()
    ensures r.Ok? <==> !EmailTaken(old(db.users), candidate.email)
    ensures r.Err? ==> r.error == EmailExists && db.State() == old(db.State())
    ensures r.Ok? ==>
      && r.value == candidate.(id := old(db.nextUserId))
      && r.value.id !in old(db.users)
      && db.State() == old(db.State()).(users := old(db.users)[r.value.id := r.value],
                                        nextUserId := old(db.nextUserId) + 1)
    ensures EmailsUnique(old(db.users)) ==> EmailsUnique(db.users)
    ensures r.Ok? ==> Login(db, candidate.email, candidate.password) == Some(r.value)
  {
    if db.FindUserByEmail(candidate.email).Some? {
      return Err(EmailExists);
    }
    var saved := db.SaveNewUser(candidate);
    r := Ok(saved);
    assert db.users[saved.id] == saved;
  }
}
