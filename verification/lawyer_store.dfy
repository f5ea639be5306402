/** The lawyer table (`LawyerRepository`): a lawyer row joined to its user
    row, and the account the repository hands to the use cases
    (`mapToILawyer`).

    The mapping leaves out the password, the phone, the qualifications and
    the profile image, so none of them ever reaches a use case. */
module LawyerStore {

  import opened Outcome
  import opened Accounts
  import opened UserTable
  import opened Records
  import opened Pagination

  datatype LawyerRow = LawyerRow(
    id: string,
    name: Option<string>,
    specialization: Option<string>,
    experience: Option<int>,
    rating: int,
    user: User)

  type Lawyers = seq<LawyerRow>

  const RecordNotFound: string := "Record to update not found."

  /** `mapToILawyer`: a missing name reads as "", missing flags as false,
      and no password is exposed. */
  function ToLawyer(row: LawyerRow): (a: Account)
    ensures a.id == Some(row.id)
    ensures a.email == Some(row.user.email) && a.role == Some(row.user.role)
    ensures a.name == Some(TextOr(row.name, ""))
    ensures a.isVerified == Some(row.user.isVerified == Some(true))
    ensures a.isBlocked == Some(row.user.isBlocked == Some(true))
    ensures a.password.None? && a.phone.None? && a.qualifications.None? && a.profileImage.None?
  {
    Account(
      Some(row.id), Some(row.user.email), None, Some(TextOr(row.name, "")), None,
      Some(FlagOr(row.user.isBlocked)), Some(FlagOr(row.user.isVerified)), Some(row.user.role),
      None, None, None, row.specialization, row.experience)
  }

  predicate HasEmail(row: LawyerRow, email: string) { row.user.email == email }
  predicate HasId(row: LawyerRow, id: string) { row.id == id }

  /** `findByEmail` and `findByEmailWithCredentials`, which are the same
      query with the same mapping: the first lawyer whose user has that
      e-mail. */
  function FindByEmail(rows: Lawyers, email: string): (r: Option<Account>)
    ensures r.None? <==> forall i :: 0 <= i < |rows| ==> !HasEmail(rows[i], email)
    ensures r.Some? ==> (r.value.email == Some(email) && r.value.password.None? &&
              exists i :: 0 <= i < |rows| && ToLawyer(rows[i]) == r.value)
  {
    var i := FirstIndex(rows, (row: LawyerRow) => HasEmail(row, email));
    if i < |rows| then Some(ToLawyer(rows[i])) else None
  }

  /** `findByEmailWithCredentials` as its callers need it: the same lawyer
      as `FindByEmail`, with the stored password handed out as well. */
  function FindByEmailWithCredentials(rows: Lawyers, email: string): (r: Option<Account>)
    ensures r.None? <==> FindByEmail(rows, email).None?
    ensures r.Some? ==> (r.value.(password := None) == FindByEmail(rows, email).value &&
              exists i :: 0 <= i < |rows| && HasEmail(rows[i], email) && r.value.password == Some(rows[i].user.password))
  {
    var i := FirstIndex(rows, (row: LawyerRow) => HasEmail(row, email));
    if i < |rows| then Some(ToLawyer(rows[i]).(password := Some(rows[i].user.password))) else None
  }

  /** `findById`. */
  function FindById(rows: Lawyers, id: string): (r: Option<Account>)
    ensures r.None? <==> forall i :: 0 <= i < |rows| ==> !HasId(rows[i], id)
    ensures r.Some? ==> (r.value.id == Some(id) &&
              exists i :: 0 <= i < |rows| && ToLawyer(rows[i]) == r.value)
  {
    var i := FirstIndex(rows, (row: LawyerRow) => HasId(row, id));
    if i < |rows| then Some(ToLawyer(rows[i])) else None
  }

  /** `create`: the row stores the name, specialization and experience with
      their defaults, a rating of 0, and a new user with the e-mail,
      password and role (by default lawyer). A second user with the same
      e-mail is refused by the table with `uniqueError`. */
  function Create(rows: Lawyers, data: Account, freshId: string, now: int, uniqueError: string): (r: Result<Created<Lawyers>>)
    ensures FindByEmail(rows, TextOr(data.email, "")).Some? <==> r.Err?
    ensures r.Err? ==> r.error == Plain(uniqueError)
    ensures r.Ok? ==> (|r.value.users| == |rows| + 1 && r.value.users[..|rows|] == rows &&
              r.value.account == ToLawyer(r.value.users[|rows|]))
    ensures r.Ok? ==> (r.value.account.name == Some(TextOr(data.name, "")) &&
              r.value.account.email == Some(TextOr(data.email, "")) &&
              r.value.account.role == Some(data.role.GetOr(Lawyer)) &&
              r.value.users[|rows|].rating == 0 &&
              r.value.users[|rows|].experience == Some(data.experience.GetOr(0)) &&
              r.value.users[|rows|].user.password == TextOr(data.password, ""))
  {
    var email := TextOr(data.email, "");
    if FindByEmail(rows, email).Some? then Err(Plain(uniqueError))
    else
      var user := User(freshId, email, TextOr(data.password, ""), None, data.role.GetOr(Lawyer), None, None, now);
      var row := LawyerRow(freshId, Some(TextOr(data.name, "")), Some(TextOr(data.specialization, "")),
                           Some(data.experience.GetOr(0)), 0, user);
      var s := rows + [row];
      assert s[..|rows|] == rows;
      Ok(Created(s, ToLawyer(row)))
  }

  /** Whether an update reaches the user row: only when it carries a
      non-empty e-mail or password, or a role. */
  predicate TouchesUser(patch: Account) {
    Truthy(patch.email) || Truthy(patch.password) || patch.role.Some?
  }

  /** The user row after an update that reaches it: e-mail, password and
      role as given. */
  function UpdateUser(u: User, patch: Account): User {
    u.(email := patch.email.GetOr(u.email),
       password := patch.password.GetOr(u.password),
       role := patch.role.GetOr(u.role))
  }

  /** The row after `update` as written: name, specialization and experience
      as given, and the user row's e-mail, password and role when the
      update reaches it. The verification and block flags are not among the
      written fields. */
  function UpdateRowAsWritten(row: LawyerRow, patch: Account): (r: LawyerRow)
    ensures r.id == row.id && r.rating == row.rating
    ensures r.user.isVerified == row.user.isVerified && r.user.isBlocked == row.user.isBlocked
    ensures !TouchesUser(patch) ==> r.user == row.user
  {
    row.(name := if patch.name.Some? then patch.name else row.name,
         specialization := if patch.specialization.Some? then patch.specialization else row.specialization,
         experience := if patch.experience.Some? then patch.experience else row.experience,
         user := if TouchesUser(patch) then UpdateUser(row.user, patch) else row.user)
  }

  /** `update` as written: the row with that id is rewritten by
      `UpdateRowAsWritten`; an unknown id is an error. */
  function UpdateAsWritten(rows: Lawyers, id: string, patch: Account): (r: Result<Lawyers>)
    ensures r.Err? <==> FindById(rows, id).None?
    ensures r.Ok? ==> |r.value| == |rows|
    ensures r.Ok? ==> forall i :: 0 <= i < |rows| ==>
              (r.value[i].user.isVerified == rows[i].user.isVerified &&
               r.value[i].user.isBlocked == rows[i].user.isBlocked)
  {
    var k := FirstIndex(rows, (row: LawyerRow) => HasId(row, id));
    if k < |rows| then Ok(rows[k := UpdateRowAsWritten(rows[k], patch)])
    else Err(Plain(RecordNotFound))
  }

  /** The row after `update` as its callers need it: as written, and in
      addition the user row's verification and block flags when the update
      carries them. */
  function UpdateRow(row: LawyerRow, patch: Account): (r: LawyerRow)
    ensures r.id == row.id && r.rating == row.rating
    ensures patch.isVerified.Some? ==> r.user.isVerified == patch.isVerified
    ensures patch.isVerified.None? ==> r.user.isVerified == row.user.isVerified
    ensures patch.isBlocked.Some? ==> r.user.isBlocked == patch.isBlocked
    ensures patch.isBlocked.None? ==> r.user.isBlocked == row.user.isBlocked
  {
    var w := UpdateRowAsWritten(row, patch);
    w.(user := w.user.(isVerified := if patch.isVerified.Some? then patch.isVerified else row.user.isVerified,
                       isBlocked := if patch.isBlocked.Some? then patch.isBlocked else row.user.isBlocked))
  }

  /** `update` with the flags written: the row with that id is rewritten by
      `UpdateRow`; no other row changes; an unknown id is an error. */
  function Update(rows: Lawyers, id: string, patch: Account): (r: Result<Lawyers>)
    ensures r.Err? <==> FindById(rows, id).None?
    ensures r.Ok? ==> |r.value| == |rows|
    ensures r.Ok? ==> forall i :: 0 <= i < |rows| ==>
              r.value[i] == if i == FirstIndex(rows, (row: LawyerRow) => HasId(row, id)) then UpdateRow(rows[i], patch) else rows[i]
  {
    var k := FirstIndex(rows, (row: LawyerRow) => HasId(row, id));
    if k < |rows| then Ok(rows[k := UpdateRow(rows[k], patch)])
    else Err(Plain(RecordNotFound))
  }

  /** The repository as written: the credentials lookup hands out no
      password, and the update drops the flags. */
  function RepoAsWritten(mint: nat -> string, now: int, uniqueError: string): Repository<Lawyers> {
    Repository(
      (r: Lawyers, e: string) => FindByEmail(r, e),
      (r: Lawyers, e: string) => FindByEmail(r, e),
      (r: Lawyers, id: string) => FindById(r, id),
      (r: Lawyers, id: string, a: Account) => UpdateAsWritten(r, id, a),
      (r: Lawyers, a: Account) => Create(r, a, mint(|r|), now, uniqueError),
      None)
  }

  /** The repository the lawyer flows use: the credentials lookup hands out
      the stored password, and the update writes the flags. */
  function Repo(mint: nat -> string, now: int, uniqueError: string): Repository<Lawyers> {
    Repository(
      (r: Lawyers, e: string) => FindByEmail(r, e),
      (r: Lawyers, e: string) => FindByEmailWithCredentials(r, e),
      (r: Lawyers, id: string) => FindById(r, id),
      (r: Lawyers, id: string, a: Account) => Update(r, id, a),
      (r: Lawyers, a: Account) => Create(r, a, mint(|r|), now, uniqueError),
      None)
  }

  /** Rows are stored in creation order with non-decreasing user
      `createdAt`. */
  predicate Chronological(rows: Lawyers) {
    forall i, j :: 0 <= i < j < |rows| ==> rows[i].user.createdAt <= rows[j].user.createdAt
  }

  /** In a store kept in creation order, the reversed rows are newest
      first, which is the order `findMany` sorts by. */
  lemma ReverseIsNewestFirst(rows: Lawyers)
    requires Chronological(rows)
    ensures forall i, j :: 0 <= i < j < |rows| ==> Reverse(rows)[j].user.createdAt <= Reverse(rows)[i].user.createdAt
  {
  }

  /** `findMany`: every lawyer, newest user first, skipping `offset` and
      taking at most `limit`. The verification and block arguments are not
      used, and the total counts every lawyer. */
  function FindMany(rows: Lawyers, offset: nat, limit: nat, isVerified: Option<bool>, isBlocked: Option<bool>): (p: Page<Account>)
    requires limit > 0
    ensures p.totalItems == |rows|
    ensures |p.items| <= limit
    ensures forall i :: 0 <= i < |p.items| ==> offset + i < |rows| && p.items[i] == ToLawyer(rows[|rows| - 1 - offset - i])
    ensures p.hasNextPage <==> p.currentPage < p.totalPages
    ensures p.hasPreviousPage <==> offset >= limit
  {
    var page: Page<LawyerRow> := Paginate(Reverse(rows), offset, limit);
    var items := seq(|page.items|, i requires 0 <= i < |page.items| => ToLawyer(page.items[i]));
    Page(items, page.totalItems, page.currentPage, page.totalPages, page.hasNextPage, page.hasPreviousPage)
  }

  /** Whether a lawyer passes the listing flags: each flag narrows the
      listing only when it is given. */
  predicate PassesFlags(a: Account, isVerified: Option<bool>, isBlocked: Option<bool>) {
    (isVerified.None? || a.isVerified == isVerified) && (isBlocked.None? || a.isBlocked == isBlocked)
  }

  /** `findMany` as its callers need it: the lawyers passing the flags,
      newest user first, skipping `offset` and taking at most `limit`; the
      total counts the lawyers passing the flags. */
  function FindManyFiltered(rows: Lawyers, offset: nat, limit: nat, isVerified: Option<bool>, isBlocked: Option<bool>)
    : (p: Page<Account>)
    requires limit > 0
    ensures p.totalItems == Count(rows, (row: LawyerRow) => PassesFlags(ToLawyer(row), isVerified, isBlocked))
    ensures |p.items| <= limit
    ensures forall i :: 0 <= i < |p.items| ==> PassesFlags(p.items[i], isVerified, isBlocked)
    ensures forall i :: 0 <= i < |p.items| ==> exists k :: 0 <= k < |rows| && p.items[i] == ToLawyer(rows[k])
    ensures p.hasNextPage <==> p.currentPage < p.totalPages
    ensures p.hasPreviousPage <==> offset >= limit
  {
    var passing := Filter(Reverse(rows), (row: LawyerRow) => PassesFlags(ToLawyer(row), isVerified, isBlocked));
    FilterReverseCount(rows, (row: LawyerRow) => PassesFlags(ToLawyer(row), isVerified, isBlocked));
    var page: Page<LawyerRow> := Paginate(passing, offset, limit);
    var items := seq(|page.items|, i requires 0 <= i < |page.items| => ToLawyer(page.items[i]));
    forall i | 0 <= i < |items| ensures exists k :: 0 <= k < |rows| && items[i] == ToLawyer(rows[k]) {
      assert page.items[i] in passing;
      var j :| 0 <= j < |Reverse(rows)| && Reverse(rows)[j] == page.items[i];
      assert rows[|rows| - 1 - j] == page.items[i];
    }
    Page(items, page.totalItems, page.currentPage, page.totalPages, page.hasNextPage, page.hasPreviousPage)
  }

  /** The flags an admin sets are lost by the update as written: verifying,
      blocking or unblocking a lawyer leaves every stored row as it was. */
  lemma FlagUpdatesLost(rows: Lawyers, id: string, flag: bool)
    requires FindById(rows, id).Some?
    ensures UpdateAsWritten(rows, id, Blank.(isVerified := Some(true))) == Ok(rows)
    ensures UpdateAsWritten(rows, id, Blank.(isBlocked := Some(flag))) == Ok(rows)
  {
    var k := FirstIndex(rows, (row: LawyerRow) => HasId(row, id));
    assert rows[k := UpdateRowAsWritten(rows[k], Blank.(isVerified := Some(true)))] == rows;
    assert rows[k := UpdateRowAsWritten(rows[k], Blank.(isBlocked := Some(flag)))] == rows;
  }

  /** With the flags written, what the admin sets is what the next lookup
      reads back. */
  lemma FlagUpdatesKept(rows: Lawyers, id: string, flag: bool)
    requires FindById(rows, id).Some?
    ensures var r := Update(rows, id, Blank.(isVerified := Some(flag)));
            r.Ok? && FindById(r.value, id).Some? && FindById(r.value, id).value.isVerified == Some(flag)
    ensures var r := Update(rows, id, Blank.(isBlocked := Some(flag)));
            r.Ok? && FindById(r.value, id).Some? && FindById(r.value, id).value.isBlocked == Some(flag)
  {
    var k := FirstIndex(rows, (row: LawyerRow) => HasId(row, id));
    var r1 := Update(rows, id, Blank.(isVerified := Some(flag))).value;
    var r2 := Update(rows, id, Blank.(isBlocked := Some(flag))).value;
    assert forall i :: 0 <= i < |rows| ==> r1[i].id == rows[i].id && r2[i].id == rows[i].id;
    assert FirstIndex(r1, (row: LawyerRow) => HasId(row, id)) == k;
    assert FirstIndex(r2, (row: LawyerRow) => HasId(row, id)) == k;
  }
}
