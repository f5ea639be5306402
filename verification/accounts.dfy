/** The users the authentication flows work on, as the use cases see them
    (`IAuthUser` with the fields the roles add), and the repository
    interface the flows call (`IBaseRepository<T>`). */
module Accounts {

  import opened Outcome

  /** `UserRole`. */
  datatype Role = Admin | Lawyer | Client

  /** The string value of a role. */
  function RoleName(r: Role): (s: string)
    ensures s == "admin" <==> r == Admin
    ensures s == "lawyer" <==> r == Lawyer
    ensures s == "client" <==> r == Client
  {
    match r
    case Admin => "admin"
    case Lawyer => "lawyer"
    case Client => "client"
  }

  /** A user record as a repository returns it or a use case builds it.
      Every field may be absent, as in the source's optional properties. */
  datatype Account = Account(
    id: Option<string>,
    email: Option<string>,
    password: Option<string>,
    name: Option<string>,
    phone: Option<string>,
    isBlocked: Option<bool>,
    isVerified: Option<bool>,
    role: Option<Role>,
    profile: Option<string>,
    profileImage: Option<string>,
    qualifications: Option<seq<string>>,
    specialization: Option<string>,
    experience: Option<int>)

  /** A record with nothing set. */
  const Blank: Account := Account(None, None, None, None, None, None, None, None, None, None, None, None, None)

  /** A record the store has created, and the store after it. */
  datatype Created<S> = Created(users: S, account: Account)

  /** The repository calls the flows make, over a user store of type `S`.
      A failing `create` (a rejected document, a duplicate key) or `update`
      (a record that does not exist, where the store throws for it) is an
      `Err`. Only some stores have a dedicated password update. */
  datatype Repository<!S> = Repository(
    findByEmail: (S, string) -> Option<Account>,
    findByEmailWithCredentials: (S, string) -> Option<Account>,
    findById: (S, string) -> Option<Account>,
    update: (S, string, Account) -> Result<S>,
    create: (S, Account) -> Result<Created<S>>,
    updatePassword: Option<(S, string, string) -> Result<S>>)

  /** `value || fallback` for an optional text. */
  function TextOr(s: Option<string>, fallback: string): (r: string)
    ensures Truthy(s) ==> r == s.value
    ensures !Truthy(s) ==> r == fallback
  {
    if Truthy(s) then s.value else fallback
  }

  /** `value || false` for an optional flag. */
  function FlagOr(b: Option<bool>): (r: bool)
    ensures r <==> b == Some(true)
  {
    b.Some? && b.value
  }
}
