/**
 * Registration and login over the user collection. Passwords are stored
 * only as the output of an abstract salted hash, and login compares with
 * an abstract `compare`; both stand for bcrypt.
 */
module AuthService {
  import opened Options

  type UserId = nat

  datatype User = User(id: UserId, userName: string, email: string, password: string)

  /** The service result: a status, a message and, on success, the user's id. */
  datatype AuthReply = AuthReply(status: int, message: string, userId: Option<UserId>)

  const EmailTaken := "Email is already registered"
  const Created := "User created successfully"
  const BadCredentials := "Invalid email or password"
  const LoggedIn := "Login successful"

  /** `User.findOne({ email })`: the first user with that email. */
  function FindByEmail(users: seq<User>, email: string): (r: Option<nat>)
    ensures r.Some? ==> r.value < |users| && users[r.value].email == email
    ensures r.Some? ==> forall k :: 0 <= k < r.value ==> users[k].email != email
    ensures r.None? <==> forall k :: 0 <= k < |users| ==> users[k].email != email
  {
    if users == [] then None
    else if users[0].email == email then Some(0)
    else
      match FindByEmail(users[1..], email)
      case None => None
      case Some(i) => Some(i + 1)
  }

  /** A user appended under a new email is found by that email, and every other lookup is unchanged. */
  lemma {:induction false} FindAfterAppend(users: seq<User>, u: User, email: string)
    requires FindByEmail(users, u.email).None?
    ensures email == u.email ==> FindByEmail(users + [u], email) == Some(|users|)
    ensures email != u.email ==> FindByEmail(users + [u], email) == FindByEmail(users, email)
  {
    if users != [] {
      assert (users + [u])[1..] == users[1..] + [u];
      FindAfterAppend(users[1..], u, email);
    }
  }

  class UserStore {
    var users: seq<User>
    var nextId: UserId

    /** Emails are unique, and ids are distinct and below `nextId`. */
    ghost predicate Valid()
      reads this
    {
      && (forall i, j :: 0 <= i < j < |users| ==> users[i].email != users[j].email)
      && (forall i :: 0 <= i < |users| ==> users[i].id < nextId)
      && (forall i, j :: 0 <= i < j < |users| ==> users[i].id != users[j].id)
    }

    constructor ()
      ensures Valid() && users == [] && nextId == 0
    {
      users := [];
      nextId := 0;
    }

    /**
     * `createUserService`: a registered email is refused; otherwise the user
     * is saved with `name` as its user name and the salted hash of the
     * password. `confirmPassword` is accepted and ignored.
     */
    method CreateUser(name: string, email: string, password: string, confirmPassword: string,
                      salt: string, hash: (string, string) -> string)
      returns (r: AuthReply)
      requires Valid()
      modifies this
      ensures Valid()
      ensures FindByEmail(old(users), email).Some? ==>
        r == AuthReply(400, EmailTaken, None) && users == old(users) && nextId == old(nextId)
      ensures FindByEmail(old(users), email).None? ==>
        && r == AuthReply(201, Created, Some(old(nextId)))
        && users == old(users) + [User(old(nextId), name, email, hash(password, salt))]
        && nextId == old(nextId) + 1
      ensures r.status == 201 ==> FindByEmail(users, email) == Some(|old(users)|)
    {
      var existing := FindByEmail(users, email);
      if existing.Some? {
        return AuthReply(400, EmailTaken, None);
      }
      var hashed := hash(password, salt);
      var user := User(nextId, name, email, hashed);
      FindAfterAppend(users, user, email);
      users := users + [user];
      r := AuthReply(201, Created, Some(nextId));
      nextId := nextId + 1;
    }

    /**
     * `loginUserService`: an unknown email and a wrong password give the
     * same 400 reply; a match gives 200 with the user's id.
     */
    method Login(email: string, password: string, compare: (string, string) -> bool) returns (r: AuthReply)
      ensures FindByEmail(users, email).None? ==> r == AuthReply(400, BadCredentials, None)
      ensures FindByEmail(users, email).Some? ==>
        var u := users[FindByEmail(users, email).value];
        && (!compare(password, u.password) ==> r == AuthReply(400, BadCredentials, None))
        && (compare(password, u.password) ==> r == AuthReply(200, LoggedIn, Some(u.id)))
      ensures r.status == 200 <==>
        exists i :: 0 <= i < |users| && users[i].email == email && compare(password, users[i].password)
                    && FindByEmail(users, email) == Some(i)
    {
      var found := FindByEmail(users, email);
      if found.None? {
        return AuthReply(400, BadCredentials, None);
      }
      var user := users[found.value];
      if !compare(password, user.password) {
        return AuthReply(400, BadCredentials, None);
      }
      r := AuthReply(200, LoggedIn, Some(user.id));
    }
  }
}
