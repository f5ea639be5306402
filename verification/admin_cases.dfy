/** What the admin does to lawyers and clients (`AdminLawyerUseCase`,
    `AdminClientUseCase`): list them, verify, block and unblock. */
module AdminCases {

  import opened Outcome
  import opened Accounts
  import Validators
  import LawyerStore
  import ClientStore
  import Pagination
  import Records

  // ---------------------------------------------------------------------
  // Lawyers.

  /** `LawyersFilter`. */
  datatype LawyerFilter = Blocked | NotVerified | Verified

  /** The filter's text in a query. */
  function FilterText(f: LawyerFilter): string {
    match f
    case Blocked => "blocked"
    case NotVerified => "not-verified"
    case Verified => "verified"
  }

  /** The verification and block flags the listing is asked for. */
  datatype Flags = Flags(isVerified: Option<bool>, isBlocked: Option<bool>)

  /** The `switch` of `getAll`: verified and not verified lawyers are both
      unblocked ones; blocked ones are asked for regardless of verification;
      no filter asks for everyone. */
  function FilterFlags(filter: Option<LawyerFilter>): (f: Flags)
    ensures filter == Some(Verified) ==> f == Flags(Some(true), Some(false))
    ensures filter == Some(NotVerified) ==> f == Flags(Some(false), Some(false))
    ensures filter == Some(Blocked) ==> f == Flags(None, Some(true))
    ensures filter.None? ==> f == Flags(None, None)
  {
    match filter
    case Some(Verified) => Flags(Some(true), Some(false))
    case Some(NotVerified) => Flags(Some(false), Some(false))
    case Some(Blocked) => Flags(None, Some(true))
    case None => Flags(None, None)
  }

  /** The lawyers an admin means by each filter. */
  predicate InCategory(a: Account, filter: LawyerFilter) {
    match filter
    case Verified => a.isVerified == Some(true) && a.isBlocked == Some(false)
    case NotVerified => a.isVerified == Some(false) && a.isBlocked == Some(false)
    case Blocked => a.isBlocked == Some(true)
  }

  /** For a lawyer as the repository maps it (both flags present), passing
      the flags of a filter is being in its category. */
  lemma FlagsSelectCategory(a: Account, filter: LawyerFilter)
    requires a.isVerified.Some? && a.isBlocked.Some?
    ensures LawyerStore.PassesFlags(a, FilterFlags(Some(filter)).isVerified, FilterFlags(Some(filter)).isBlocked)
            <==> InCategory(a, filter)
  {
  }

  /** `getAll` as written: the filter's flags are handed to `findMany`,
      which does not use them. */
  function GetAllLawyersAsWritten(rows: LawyerStore.Lawyers, offset: nat, limit: nat, filter: Option<LawyerFilter>)
    : (p: Pagination.Page<Account>)
    requires limit > 0
    ensures p.totalItems == |rows|
    ensures forall i :: 0 <= i < |p.items| ==> offset + i < |rows| && p.items[i] == LawyerStore.ToLawyer(rows[|rows| - 1 - offset - i])
  {
    var f := FilterFlags(filter);
    LawyerStore.FindMany(rows, offset, limit, f.isVerified, f.isBlocked)
  }

  /** A lawyer who is not blocked is listed under the "blocked" filter. */
  lemma BlockedFilterListsUnblocked(row: LawyerStore.LawyerRow)
    requires row.user.isBlocked != Some(true)
    ensures var p := GetAllLawyersAsWritten([row], 0, 10, Some(Blocked));
            |p.items| == 1 && !InCategory(p.items[0], Blocked)
  {
    var p := GetAllLawyersAsWritten([row], 0, 10, Some(Blocked));
    var page := Pagination.Paginate(Records.Reverse([row]), 0, 10);
    assert |page.items| == 1;
  }

  /** `getAll` with the filter applied by the repository: every lawyer
      listed is in the filter's category, and the total counts exactly
      those. */
  function GetAllLawyers(rows: LawyerStore.Lawyers, offset: nat, limit: nat, filter: Option<LawyerFilter>)
    : (p: Pagination.Page<Account>)
    requires limit > 0
    ensures filter.Some? ==> forall i :: 0 <= i < |p.items| ==> InCategory(p.items[i], filter.value)
    ensures filter.Some? ==> p.totalItems == Records.Count(rows, (row: LawyerStore.LawyerRow) =>
              LawyerStore.PassesFlags(LawyerStore.ToLawyer(row), FilterFlags(filter).isVerified, FilterFlags(filter).isBlocked))
    ensures filter.None? ==> p.totalItems == |rows|
    ensures |p.items| <= limit
  {
    var f := FilterFlags(filter);
    var p := LawyerStore.FindManyFiltered(rows, offset, limit, f.isVerified, f.isBlocked);
    ListedInCategory(rows, p.items, filter);
    Records.FilterAll(rows, (row: LawyerStore.LawyerRow) => LawyerStore.PassesFlags(LawyerStore.ToLawyer(row), None, None));
    p
  }

  /** Lawyers the repository maps that pass a filter's flags are in its
      category. */
  lemma ListedInCategory(rows: LawyerStore.Lawyers, items: seq<Account>, filter: Option<LawyerFilter>)
    requires forall i :: 0 <= i < |items| ==> LawyerStore.PassesFlags(items[i], FilterFlags(filter).isVerified, FilterFlags(filter).isBlocked)
    requires forall i :: 0 <= i < |items| ==> exists k :: 0 <= k < |rows| && items[i] == LawyerStore.ToLawyer(rows[k])
    ensures filter.Some? ==> forall i :: 0 <= i < |items| ==> InCategory(items[i], filter.value)
  {
    forall i | 0 <= i < |items| && filter.Some? ensures InCategory(items[i], filter.value) {
      var k :| 0 <= k < |rows| && items[i] == LawyerStore.ToLawyer(rows[k]);
      FlagsSelectCategory(items[i], filter.value);
    }
  }

  /** Sets one patch on a lawyer through the repository's `updateById`,
      with the flags written. */
  function SetLawyerFlags(rows: LawyerStore.Lawyers, lawyerId: string, patch: Account): (r: Result<LawyerStore.Lawyers>)
    requires patch == Blank.(isVerified := patch.isVerified, isBlocked := patch.isBlocked)
    ensures r.Err? <==> LawyerStore.FindById(rows, lawyerId).None?
    ensures r.Ok? ==> |r.value| == |rows| && LawyerStore.FindById(r.value, lawyerId).Some?
    ensures r.Ok? ==>
              LawyerStore.FindById(r.value, lawyerId).value.isVerified ==
              (if patch.isVerified.Some? then patch.isVerified else LawyerStore.FindById(rows, lawyerId).value.isVerified)
    ensures r.Ok? ==>
              LawyerStore.FindById(r.value, lawyerId).value.isBlocked ==
              (if patch.isBlocked.Some? then patch.isBlocked else LawyerStore.FindById(rows, lawyerId).value.isBlocked)
    ensures r.Ok? ==> forall i :: 0 <= i < |rows| && rows[i].id != lawyerId ==> r.value[i] == rows[i]
  {
    var r := LawyerStore.Update(rows, lawyerId, patch);
    UpdateFindsSameRow(rows, lawyerId, patch);
    r
  }

  /** An update keeps every row's id, so the updated lawyer is found at the
      same place. */
  lemma UpdateFindsSameRow(rows: LawyerStore.Lawyers, lawyerId: string, patch: Account)
    ensures var r := LawyerStore.Update(rows, lawyerId, patch);
            r.Ok? ==> Records.FirstIndex(r.value, (row: LawyerStore.LawyerRow) => LawyerStore.HasId(row, lawyerId)) ==
                      Records.FirstIndex(rows, (row: LawyerStore.LawyerRow) => LawyerStore.HasId(row, lawyerId))
  {
    var r := LawyerStore.Update(rows, lawyerId, patch);
    if r.Ok? {
      var k := Records.FirstIndex(rows, (row: LawyerStore.LawyerRow) => LawyerStore.HasId(row, lawyerId));
      assert forall i :: 0 <= i < |rows| ==> r.value[i].id == rows[i].id;
      Records.FirstIndexIs(r.value, (row: LawyerStore.LawyerRow) => LawyerStore.HasId(row, lawyerId), k);
    }
  }

  /** `verifyLawyer`: the lawyer becomes verified; the block flag and
      every other lawyer stay as they were. */
  function VerifyLawyer(rows: LawyerStore.Lawyers, lawyerId: string): (r: Result<LawyerStore.Lawyers>)
    ensures r.Err? <==> LawyerStore.FindById(rows, lawyerId).None?
    ensures r.Ok? ==>
              (LawyerStore.FindById(r.value, lawyerId).Some? &&
               LawyerStore.FindById(r.value, lawyerId).value.isVerified == Some(true) &&
               LawyerStore.FindById(r.value, lawyerId).value.isBlocked == LawyerStore.FindById(rows, lawyerId).value.isBlocked)
    ensures r.Ok? ==> |r.value| == |rows|
    ensures r.Ok? ==> forall i :: 0 <= i < |rows| && rows[i].id != lawyerId ==> r.value[i] == rows[i]
  {
    SetLawyerFlags(rows, lawyerId, Blank.(isVerified := Some(true)))
  }

  /** `blockLawyer` (`blocked` true) and `unblockLawyer` (false): the
      lawyer's block flag becomes `blocked`; verification and every other
      lawyer stay as they were. */
  function SetLawyerBlocked(rows: LawyerStore.Lawyers, lawyerId: string, blocked: bool): (r: Result<LawyerStore.Lawyers>)
    ensures r.Err? <==> LawyerStore.FindById(rows, lawyerId).None?
    ensures r.Ok? ==>
              (LawyerStore.FindById(r.value, lawyerId).Some? &&
               LawyerStore.FindById(r.value, lawyerId).value.isBlocked == Some(blocked) &&
               LawyerStore.FindById(r.value, lawyerId).value.isVerified == LawyerStore.FindById(rows, lawyerId).value.isVerified)
    ensures r.Ok? ==> |r.value| == |rows|
    ensures r.Ok? ==> forall i :: 0 <= i < |rows| && rows[i].id != lawyerId ==> r.value[i] == rows[i]
  {
    SetLawyerFlags(rows, lawyerId, Blank.(isBlocked := Some(blocked)))
  }

  /** Blocking then unblocking a lawyer gives back the block flag it had
      when it was not blocked. */
  lemma BlockUnblockLawyer(rows: LawyerStore.Lawyers, lawyerId: string)
    requires LawyerStore.FindById(rows, lawyerId).Some?
    ensures var blocked := SetLawyerBlocked(rows, lawyerId, true);
            blocked.Ok? && SetLawyerBlocked(blocked.value, lawyerId, false).Ok? &&
            LawyerStore.FindById(SetLawyerBlocked(blocked.value, lawyerId, false).value, lawyerId).value.isBlocked == Some(false)
  {
  }

  // ---------------------------------------------------------------------
  // Clients.

  /** The demo admin account, which may not change clients. */
  const DemoAdminEmail: string := "admin@gmail.com"
  const DemoAdminMessage: string := "\U{1F60A}This action is Not Allowed to Demo Admin \U{274C}"

  /** `getAll`: the clients page with no verification or block filter. */
  function GetAllClients(clients: ClientStore.Clients, offset: nat, limit: nat): (p: Pagination.Page<ClientStore.ClientDoc>)
    requires limit > 0
    ensures p.totalItems == |clients|
    ensures |p.items| <= limit
    ensures forall i :: 0 <= i < |p.items| ==> p.items[i] in clients
    ensures p.items == Pagination.Window(clients, offset, limit)
  {
    Records.FilterAll(clients, d => ClientStore.MatchesFilter(d, None, None));
    ClientStore.FindMany(clients, offset, limit, None, None)
  }

  /** The checks `blockUnblock` makes before it writes: not the demo admin,
      then a well-formed id (the flag is always a boolean). */
  function BlockUnblockChecks(id: string, adminEmail: string): (c: Check)
    ensures c.Pass? <==> adminEmail != DemoAdminEmail && Validators.IsIdText(id)
    ensures adminEmail == DemoAdminEmail ==> c == Fail(Custom(BadRequest, DemoAdminMessage))
    ensures adminEmail != DemoAdminEmail && !Validators.IsIdText(id) ==> c == Fail(Custom(BadRequest, Validators.IdMessage))
  {
    if adminEmail == DemoAdminEmail then Fail(Custom(BadRequest, DemoAdminMessage))
    else Then(Validators.ValidateIdFormat(id), Validators.ValidateBoolean(true))
  }

  /** The stored block flag after a write of `stored` to the client with
      that id: that client's flag is `stored`, everyone else is unchanged. */
  predicate ClientFlagSet(before: ClientStore.Clients, after: ClientStore.Clients, id: string, stored: bool) {
    && |after| == |before|
    && (ClientStore.FindById(before, id).Some? ==>
          ClientStore.FindById(after, id).Some? && ClientStore.FindById(after, id).value.isBlocked == Some(stored))
    && (ClientStore.FindById(before, id).None? ==> after == before)
    && forall i :: 0 <= i < |before| && !ClientStore.HasId(before[i], id) ==> after[i] == before[i]
  }

  /** Writes the block flag of one client. */
  function WriteClientBlocked(clients: ClientStore.Clients, id: string, stored: bool): (r: ClientStore.Clients)
    ensures ClientFlagSet(clients, r, id, stored)
  {
    var r := ClientStore.Update(clients, id, Blank.(isBlocked := Some(stored)));
    UpdateFindsSameClient(clients, id, Blank.(isBlocked := Some(stored)));
    r
  }

  /** An update keeps every client's id, so the updated client is found at
      the same place. */
  lemma UpdateFindsSameClient(clients: ClientStore.Clients, id: string, patch: Account)
    ensures Records.FirstIndex(ClientStore.Update(clients, id, patch), d => ClientStore.HasId(d, id)) ==
            Records.FirstIndex(clients, d => ClientStore.HasId(d, id))
  {
    var r := ClientStore.Update(clients, id, patch);
    var k := Records.FirstIndex(clients, d => ClientStore.HasId(d, id));
    assert forall i :: 0 <= i < |clients| ==> r[i].account.id == clients[i].account.id;
    Records.FirstIndexIs(r, d => ClientStore.HasId(d, id), k);
  }

  /** `blockUnblock` as written: after the checks, the stored flag is the
      negation of the argument. */
  function BlockUnblockAsWritten(clients: ClientStore.Clients, id: string, isBlocked: bool, adminEmail: string)
    : (r: Result<ClientStore.Clients>)
    ensures r.Ok? <==> BlockUnblockChecks(id, adminEmail).Pass?
    ensures r.Err? ==> r.error == BlockUnblockChecks(id, adminEmail).error
    ensures r.Ok? ==> ClientFlagSet(clients, r.value, id, !isBlocked)
  {
    match BlockUnblockChecks(id, adminEmail)
    case Fail(e) => Err(e)
    case Pass => Ok(WriteClientBlocked(clients, id, !isBlocked))
  }

  /** `blockUnblock` storing the flag it is given. */
  function BlockUnblock(clients: ClientStore.Clients, id: string, isBlocked: bool, adminEmail: string)
    : (r: Result<ClientStore.Clients>)
    ensures r.Ok? <==> BlockUnblockChecks(id, adminEmail).Pass?
    ensures r.Err? ==> r.error == BlockUnblockChecks(id, adminEmail).error
    ensures r.Ok? ==> ClientFlagSet(clients, r.value, id, isBlocked)
  {
    match BlockUnblockChecks(id, adminEmail)
    case Fail(e) => Err(e)
    case Pass => Ok(WriteClientBlocked(clients, id, isBlocked))
  }
}
