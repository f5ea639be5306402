/** The administrators' repository (`AdminRepository`): administrators are
    the users of the `user` table whose role is admin. */
module AdminStore {

  import opened Outcome
  import opened Accounts
  import opened UserTable
  import opened Records

  type Users = seq<User>

  const RecordNotFound: string := "Record to update not found."

  /** `toAdmin`: the user as an account, password included. */
  function ToAdmin(u: User): (a: Account)
    ensures a.id == Some(u.id) && a.email == Some(u.email) && a.password == Some(u.password)
    ensures a.role == Some(u.role) && a.isVerified == u.isVerified && a.isBlocked == u.isBlocked
  {
    Blank.(id := Some(u.id), email := Some(u.email), name := u.name, isBlocked := u.isBlocked,
           isVerified := u.isVerified, role := Some(u.role), password := Some(u.password))
  }

  predicate AdminWithEmail(u: User, email: string) { u.email == email && u.role == Admin }
  predicate AdminWithId(u: User, id: string) { u.id == id && u.role == Admin }

  /** `findByEmail` and `findByEmailWithCredentials`: the administrator with
      that e-mail; a user of another role is not found. */
  function FindByEmail(users: Users, email: string): (r: Option<Account>)
    ensures r.None? <==> forall i :: 0 <= i < |users| ==> !AdminWithEmail(users[i], email)
    ensures r.Some? ==> r.value.email == Some(email) && r.value.role == Some(Admin)
  {
    var i := FirstIndex(users, (u: User) => AdminWithEmail(u, email));
    if i < |users| then Some(ToAdmin(users[i])) else None
  }

  /** `findById`: the administrator with that id. */
  function FindById(users: Users, id: string): (r: Option<Account>)
    ensures r.None? <==> forall i :: 0 <= i < |users| ==> !AdminWithId(users[i], id)
    ensures r.Some? ==> r.value.id == Some(id) && r.value.role == Some(Admin)
  {
    var i := FirstIndex(users, (u: User) => AdminWithId(u, id));
    if i < |users| then Some(ToAdmin(users[i])) else None
  }

  /** `create`: a verified administrator with the e-mail and password (an
      absent password stored as ""); an e-mail already in the table is
      refused with `uniqueError`. */
  function Create(users: Users, data: Account, freshId: string, now: int, uniqueError: string): (r: Result<Created<Users>>)
    ensures (exists i :: 0 <= i < |users| && users[i].email == TextOr(data.email, "")) <==> r.Err?
    ensures r.Err? ==> r.error == Plain(uniqueError)
    ensures r.Ok? ==> (r.value.users == users + [User(freshId, TextOr(data.email, ""), TextOr(data.password, ""),
                                                       None, Admin, Some(true), None, now)] &&
                       r.value.account.role == Some(Admin) && r.value.account.isVerified == Some(true))
  {
    var email := TextOr(data.email, "");
    var i := FirstIndex(users, (u: User) => u.email == email);
    if i < |users| then Err(Plain(uniqueError))
    else
      var u := User(freshId, email, TextOr(data.password, ""), None, Admin, Some(true), None, now);
      Ok(Created(users + [u], ToAdmin(u)))
  }

  /** `update`: the user with that id takes the block flag and the password
      the update carries; nothing else is written, and an unknown id is an
      error. */
  function Update(users: Users, id: string, patch: Account): (r: Result<Users>)
    ensures r.Err? <==> forall i :: 0 <= i < |users| ==> users[i].id != id
    ensures r.Ok? ==> |r.value| == |users|
    ensures r.Ok? ==> forall i :: 0 <= i < |users| ==>
              (r.value[i].id == users[i].id && r.value[i].email == users[i].email &&
               r.value[i].role == users[i].role && r.value[i].isVerified == users[i].isVerified)
  {
    var k := FirstIndex(users, (u: User) => u.id == id);
    if k < |users| then
      var u := users[k];
      Ok(users[k := u.(isBlocked := if patch.isBlocked.Some? then patch.isBlocked else u.isBlocked,
                       password := patch.password.GetOr(u.password))])
    else Err(Plain(RecordNotFound))
  }

  function Repo(mint: nat -> string, now: int, uniqueError: string): Repository<Users> {
    Repository(
      (u: Users, e: string) => FindByEmail(u, e),
      (u: Users, e: string) => FindByEmail(u, e),
      (u: Users, id: string) => FindById(u, id),
      (u: Users, id: string, a: Account) => Update(u, id, a),
      (u: Users, a: Account) => Create(u, a, mint(|u|), now, uniqueError),
      None)
  }
}
