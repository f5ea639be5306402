/** The relational `user` table that lawyers and administrators are stored
    in (through Prisma). Its schema is not part of this model; the columns
    below are the ones the repositories read and write, and the two flags
    may be null, which the repositories' `|| false` defaults allow for. */
module UserTable {

  import opened Outcome
  import opened Accounts

  datatype User = User(
    id: string,
    email: string,
    password: string,
    name: Option<string>,
    role: Role,
    isVerified: Option<bool>,
    isBlocked: Option<bool>,
    createdAt: int)

  /** The id is the table's primary key: no two rows share one. */
  predicate UniqueIds(users: seq<User>) {
    forall i, j :: 0 <= i < j < |users| ==> users[i].id != users[j].id
  }
}
