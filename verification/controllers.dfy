/** The HTTP controllers' own decisions: how query values are read,
    clamped and whitelisted, which route parameter names the record, which
    status and message answer, and what reaches the use case.

    A query value is the raw text Express hands over (`None` when the
    parameter is absent). A controller's outcome is a `Reply`: the state it
    leaves behind and either the response it writes (`Ok`) or the error it
    passes on to the error middleware (`Err`). */
module Controllers {

  import opened Outcome
  import Numbers
  import Text
  import Validators
  import Appointments
  import GetAppointment
  import CreateAppointment
  import AdminCases
  import ClientStore
  import LawyerStore
  import Pagination
  import Booking
  import Accounts

  /** A written response: its status and its `message`. */
  datatype Response = Response(status: int, message: string)

  /** What a controller leaves behind and what it answers. */
  datatype Reply<S> = Reply(state: S, response: Result<Response>)

  /** Route parameters by name. */
  type Params = map<string, string>

  // ---------------------------------------------------------------------
  // Paging values shared by the appointment and admin lawyer listings.

  const DefaultLimit: nat := 10
  const MaxLimit: nat := 100

  /** `isNaN(v) || v < 0 ? 0 : v`. */
  function ClampOffset(v: Option<int>): (n: nat)
    ensures v.None? || v.value < 0 ==> n == 0
    ensures v.Some? && v.value >= 0 ==> n == v.value
  {
    if v.None? || v.value < 0 then 0 else v.value
  }

  /** `isNaN(v) || v < 0 ? 10 : Math.min(v, 100)`: a limit of 0 stays 0. */
  function ClampLimit(v: Option<int>): (n: nat)
    ensures n <= MaxLimit
    ensures v.None? || v.value < 0 ==> n == DefaultLimit
    ensures v.Some? && 0 <= v.value <= MaxLimit ==> n == v.value
    ensures v.Some? && v.value > MaxLimit ==> n == MaxLimit
  {
    if v.None? || v.value < 0 then DefaultLimit else Pagination.Min(v.value, MaxLimit)
  }

  /** Clamping a clamped value, or the query text printed from it, changes
      nothing: the clamps are idempotent, and every value they let through
      is one a caller could have asked for. */
  lemma ClampsSettle(offset: Option<int>, limit: Option<int>)
    ensures ClampOffset(Some(ClampOffset(offset))) == ClampOffset(offset)
    ensures ClampLimit(Some(ClampLimit(limit))) == ClampLimit(limit)
    ensures ClampOffset(Numbers.ToNumber(Some(Text.DecimalString(ClampOffset(offset))))) == ClampOffset(offset)
    ensures ClampLimit(Numbers.ToNumber(Some(Text.DecimalString(ClampLimit(limit))))) == ClampLimit(limit)
  {
    Numbers.ReadDecimal(ClampOffset(offset));
    Numbers.ReadDecimal(ClampLimit(limit));
  }

  // ---------------------------------------------------------------------
  // AppointmentControllers.

  /** The status query: the text "undefined" means no filter. */
  function StatusFilter(status: Option<string>): (r: Option<string>)
    ensures r.None? <==> status.None? || status.value == "undefined"
    ensures r.Some? ==> r == status
  {
    if status == Some("undefined") then None else status
  }

  /** `getAppointmentsLawyer`: the authenticated lawyer's appointments with
      the clamped paging and the status filter. */
  function GetAppointmentsLawyer(t: Appointments.Table, lawyerId: string, offset: Option<string>, limit: Option<string>,
                                 status: Option<string>): (r: Result<Appointments.Listing<Appointments.Appointment>>)
    ensures r.Ok? <==> Validators.IsIdText(lawyerId) && StatusAccepted(StatusFilter(status))
    ensures r.Ok? ==>
              && r.value.offset == ClampOffset(Numbers.ToNumber(offset))
              && r.value.limit == ClampLimit(Numbers.ToNumber(limit))
              && (r.value.limit > 0 ==> |r.value.items| <= MaxLimit)
              && forall i :: 0 <= i < |r.value.items| ==> Appointments.LawyerListed(r.value.items[i], lawyerId, StatusFilter(status))
  {
    GetAppointment.GetAppointmentsByLawyerId(t, lawyerId, ClampOffset(Numbers.ToNumber(offset)),
                                             ClampLimit(Numbers.ToNumber(limit)), StatusFilter(status))
  }

  /** A status filter the use case accepts: none, or a status's text. */
  predicate StatusAccepted(status: Option<string>) {
    Truthy(status) ==> status.value in Appointments.StatusValues
  }

  /** `getAppointmentsClient`: the authenticated client's appointments with
      the clamped paging and the status filter (the use case passes them
      to the repository unchecked). */
  function GetAppointmentsClient(t: Appointments.Table, clientId: string, offset: Option<string>, limit: Option<string>,
                                 status: Option<string>): (r: Appointments.Listing<Appointments.Appointment>)
    ensures r.offset == ClampOffset(Numbers.ToNumber(offset)) && r.limit == ClampLimit(Numbers.ToNumber(limit))
    ensures r.limit > 0 ==> |r.items| <= MaxLimit
    ensures forall i :: 0 <= i < |r.items| ==> Appointments.ClientListed(r.items[i], clientId, StatusFilter(status))
  {
    Appointments.FindManyByClientId(t, clientId, ClampOffset(Numbers.ToNumber(offset)),
                                    ClampLimit(Numbers.ToNumber(limit)), StatusFilter(status))
  }

  /** A status filter given as "undefined" lists the same as no filter. */
  lemma UndefinedStatusListsAll(t: Appointments.Table, lawyerId: string, clientId: string, offset: Option<string>,
                                limit: Option<string>)
    ensures GetAppointmentsLawyer(t, lawyerId, offset, limit, Some("undefined")) ==
            GetAppointmentsLawyer(t, lawyerId, offset, limit, None)
    ensures GetAppointmentsClient(t, clientId, offset, limit, Some("undefined")) ==
            GetAppointmentsClient(t, clientId, offset, limit, None)
  {
  }

  const WebhookDone: string := "Webhook processed successfully"
  const WebhookErrorPrefix: string := "Webhook Error: "

  /** `handleStripeWebhook`: any error answers 400 with the error's message
      after the prefix; otherwise 200. */
  function StripeWebhook(st: Booking.State, event: Result<CreateAppointment.WebhookEvent>)
    : (r: Reply<Booking.State>)
    ensures r.response.Ok?
    ensures r.state == CreateAppointment.HandleStripeWebhook(st, event).state
    ensures r.response.value.status == OK <==> CreateAppointment.HandleStripeWebhook(st, event).result.Ok?
    ensures r.response.value.status != OK ==>
              (r.response.value.status == BadRequest &&
               r.response.value.message == WebhookErrorPrefix + CreateAppointment.HandleStripeWebhook(st, event).result.error.message)
    ensures r.response.value.status == OK ==> r.response.value.message == WebhookDone
  {
    var step := CreateAppointment.HandleStripeWebhook(st, event);
    match step.result
    case Err(e) => Reply(step.state, Ok(Response(BadRequest, WebhookErrorPrefix + e.message)))
    case Ok(_) => Reply(step.state, Ok(Response(OK, WebhookDone)))
  }

  /** An event that cannot be read changes nothing and answers 400 with its
      message; one that can always answers 200. */
  lemma WebhookAnswers(st: Booking.State, event: Result<CreateAppointment.WebhookEvent>)
    ensures event.Err? ==>
              StripeWebhook(st, event) == Reply(st, Ok(Response(BadRequest, WebhookErrorPrefix + event.error.message)))
    ensures event.Ok? ==> StripeWebhook(st, event).response == Ok(Response(OK, WebhookDone))
  {
  }

  // ---------------------------------------------------------------------
  // AdminLawyerController.

  /** The listing filter as the query gives it: only the three known
      filter names are kept. */
  function ParseFilter(kind: Option<string>): (r: Option<AdminCases.LawyerFilter>)
    ensures r.Some? <==> kind.Some? && kind.value in ["blocked", "verified", "not-verified"]
    ensures r.Some? ==> AdminCases.FilterText(r.value) == kind.value
  {
    if kind == Some("blocked") then Some(AdminCases.Blocked)
    else if kind == Some("verified") then Some(AdminCases.Verified)
    else if kind == Some("not-verified") then Some(AdminCases.NotVerified)
    else None
  }

  /** Every filter's name reads back as that filter. */
  lemma FilterRoundTrip(f: AdminCases.LawyerFilter)
    ensures ParseFilter(Some(AdminCases.FilterText(f))) == Some(f)
  {
  }

  /** `getLawyers`: the clamped page of lawyers in the whitelisted
      category. */
  function GetLawyersAdmin(rows: LawyerStore.Lawyers, offset: Option<string>, limit: Option<string>, kind: Option<string>)
    : (r: Pagination.Page<Accounts.Account>)
    requires ClampLimit(Numbers.ToNumber(limit)) > 0
    ensures |r.items| <= MaxLimit
    ensures ParseFilter(kind).Some? ==> forall i :: 0 <= i < |r.items| ==> AdminCases.InCategory(r.items[i], ParseFilter(kind).value)
    ensures ParseFilter(kind).None? ==> r.totalItems == |rows|
  {
    AdminCases.GetAllLawyers(rows, ClampOffset(Numbers.ToNumber(offset)), ClampLimit(Numbers.ToNumber(limit)), ParseFilter(kind))
  }

  /** The admin's three lawyer actions. */
  datatype LawyerAction = Verify | Block | Unblock

  const LawyerIdRequired: string := "Lawyer ID is Required"

  /** The success message of each action. */
  function ActionMessage(action: LawyerAction): string {
    match action
    case Verify => "Lawyer has been verified"
    case Block => "Lawyer has been blocked"
    case Unblock => "Lawyer has been unblocked"
  }

  /** The use case each action calls. */
  function RunAction(rows: LawyerStore.Lawyers, lawyerId: string, action: LawyerAction): (r: Result<LawyerStore.Lawyers>)
    ensures r.Err? <==> LawyerStore.FindById(rows, lawyerId).None?
  {
    match action
    case Verify => AdminCases.VerifyLawyer(rows, lawyerId)
    case Block => AdminCases.SetLawyerBlocked(rows, lawyerId, true)
    case Unblock => AdminCases.SetLawyerBlocked(rows, lawyerId, false)
  }

  /** The route parameter `name`, when present and non-empty. */
  function Param(params: Params, name: string): (r: Option<string>)
    ensures r.Some? <==> name in params && params[name] != ""
    ensures r.Some? ==> r.value == params[name]
  {
    if name in params && params[name] != "" then Some(params[name]) else None
  }

  /** A lawyer action behind the id guard, the id read from `name`. */
  function LawyerActionBy(rows: LawyerStore.Lawyers, params: Params, action: LawyerAction, name: string)
    : (r: Reply<LawyerStore.Lawyers>)
    ensures Param(params, name).None? ==> r == Reply(rows, Ok(Response(BadRequest, LawyerIdRequired)))
    ensures Param(params, name).Some? ==>
              (r.response.Ok? <==> LawyerStore.FindById(rows, params[name]).Some?)
    ensures r.response.Err? ==> r.state == rows
    ensures Param(params, name).Some? && r.response.Ok? ==>
              r == Reply(RunAction(rows, params[name], action).value, Ok(Response(OK, ActionMessage(action))))
  {
    match Param(params, name)
    case None => Reply(rows, Ok(Response(BadRequest, LawyerIdRequired)))
    case Some(id) =>
      match RunAction(rows, id, action)
      case Err(e) => Reply(rows, Err(e))
      case Ok(updated) => Reply(updated, Ok(Response(OK, ActionMessage(action))))
  }

  /** `verifyLawyer`, `blockLawyer` and `unblockLawyer` as written: the id
      is read from the parameter `id`. */
  function LawyerActionAsWritten(rows: LawyerStore.Lawyers, params: Params, action: LawyerAction): (r: Reply<LawyerStore.Lawyers>)
    ensures Param(params, "id").None? ==> r == Reply(rows, Ok(Response(BadRequest, LawyerIdRequired)))
  {
    LawyerActionBy(rows, params, action, "id")
  }

  /** The parameters of `/lawyer/:lawyerId/verify`, `/block` and
      `/unblock`. */
  function LawyerRouteParams(lawyerId: string): Params {
    map["lawyerId" := lawyerId]
  }

  /** The routes name the parameter `lawyerId`, so as written every
      action answers 400 and changes nothing, whatever the lawyer. */
  lemma LawyerRoutesRefusedAsWritten(rows: LawyerStore.Lawyers, lawyerId: string, action: LawyerAction)
    ensures LawyerActionAsWritten(rows, LawyerRouteParams(lawyerId), action) ==
            Reply(rows, Ok(Response(BadRequest, LawyerIdRequired)))
  {
    assert "id" !in LawyerRouteParams(lawyerId);
  }

  /** The lawyer actions reading the parameter the routes declare. */
  function LawyerAction'(rows: LawyerStore.Lawyers, params: Params, action: LawyerAction): (r: Reply<LawyerStore.Lawyers>)
    ensures Param(params, "lawyerId").None? ==> r == Reply(rows, Ok(Response(BadRequest, LawyerIdRequired)))
    ensures Param(params, "lawyerId").Some? ==> (r.response.Ok? <==> LawyerStore.FindById(rows, params["lawyerId"]).Some?)
  {
    LawyerActionBy(rows, params, action, "lawyerId")
  }

  /** Through its route, each action reaches a stored lawyer: verify sets
      the verified flag, block and unblock set the block flag, and the
      answer is the action's message. */
  lemma LawyerRoutesReachUseCase(rows: LawyerStore.Lawyers, lawyerId: string, action: LawyerAction)
    requires lawyerId != "" && LawyerStore.FindById(rows, lawyerId).Some?
    ensures var r := LawyerAction'(rows, LawyerRouteParams(lawyerId), action);
            && r.response == Ok(Response(OK, ActionMessage(action)))
            && LawyerStore.FindById(r.state, lawyerId).Some?
            && (action == Verify ==> LawyerStore.FindById(r.state, lawyerId).value.isVerified == Some(true))
            && (action == Block ==> LawyerStore.FindById(r.state, lawyerId).value.isBlocked == Some(true))
            && (action == Unblock ==> LawyerStore.FindById(r.state, lawyerId).value.isBlocked == Some(false))
  {
    var params := LawyerRouteParams(lawyerId);
    assert Param(params, "lawyerId") == Some(lawyerId);
  }

  // ---------------------------------------------------------------------
  // AdminClientController.

  /** `+v || d`: NaN and 0 give the default; a negative value passes. */
  function OrDefault(v: Option<int>, default: int): (n: int)
    ensures v.None? || v.value == 0 ==> n == default
    ensures v.Some? && v.value != 0 ==> n == v.value
  {
    if v.None? || v.value == 0 then default else v.value
  }

  /** `getClients`: offset defaults to 0 and limit to 10, with no cap. */
  function GetClients(clients: ClientStore.Clients, offset: Option<string>, limit: Option<string>)
    : (r: Pagination.Page<ClientStore.ClientDoc>)
    requires OrDefault(Numbers.ToNumber(offset), 0) >= 0 && OrDefault(Numbers.ToNumber(limit), DefaultLimit) > 0
    ensures r.totalItems == |clients|
    ensures |r.items| <= OrDefault(Numbers.ToNumber(limit), DefaultLimit)
    ensures Numbers.ToNumber(limit).None? ==> |r.items| <= DefaultLimit
  {
    AdminCases.GetAllClients(clients, OrDefault(Numbers.ToNumber(offset), 0), OrDefault(Numbers.ToNumber(limit), DefaultLimit))
  }

  const BlockSuffix: string := "/block"
  const ClientIdRequired: string := "Client ID is required"

  /** The flag the request asks for: block when the path ends in
      "/block". */
  predicate BlockRequested(path: string) {
    Text.EndsWith(path, BlockSuffix)
  }

  /** The success message for the flag. */
  function ClientMessage(isBlocked: bool): string {
    "Client " + (if isBlocked then "Blocked" else "Unblocked") + " Successfully"
  }

  /** `updateClient` with a given use case: a missing or blank client id
      answers 400; otherwise the use case runs with the flag read from the
      path, and its success answers with that flag's message. */
  function UpdateClientWith(clients: ClientStore.Clients, params: Params, path: string, adminEmail: string, asWritten: bool)
    : (r: Reply<ClientStore.Clients>)
    ensures !("clientId" in params && !Text.IsBlank(params["clientId"])) ==>
              r == Reply(clients, Ok(Response(BadRequest, ClientIdRequired)))
    ensures "clientId" in params && !Text.IsBlank(params["clientId"]) ==>
              (r.response.Ok? <==> AdminCases.BlockUnblockChecks(params["clientId"], adminEmail).Pass?)
    ensures r.response.Err? ==> r.state == clients
    ensures "clientId" in params && !Text.IsBlank(params["clientId"]) && r.response.Ok? ==>
              (r.response.value == Response(OK, ClientMessage(BlockRequested(path))) &&
               AdminCases.ClientFlagSet(clients, r.state, params["clientId"],
                                        if asWritten then !BlockRequested(path) else BlockRequested(path)))
  {
    if !("clientId" in params && !Text.IsBlank(params["clientId"])) then
      Reply(clients, Ok(Response(BadRequest, ClientIdRequired)))
    else
      var id := params["clientId"];
      var isBlocked := BlockRequested(path);
      var outcome := if asWritten then AdminCases.BlockUnblockAsWritten(clients, id, isBlocked, adminEmail)
                     else AdminCases.BlockUnblock(clients, id, isBlocked, adminEmail);
      match outcome
      case Err(e) => Reply(clients, Err(e))
      case Ok(updated) => Reply(updated, Ok(Response(OK, ClientMessage(isBlocked))))
  }

  /** `updateClient` as written, over `blockUnblock` as written. */
  function UpdateClientAsWritten(clients: ClientStore.Clients, params: Params, path: string, adminEmail: string)
    : (r: Reply<ClientStore.Clients>)
    ensures !("clientId" in params && !Text.IsBlank(params["clientId"])) ==>
              r == Reply(clients, Ok(Response(BadRequest, ClientIdRequired)))
  {
    UpdateClientWith(clients, params, path, adminEmail, true)
  }

  /** `updateClient` over `blockUnblock` storing the requested flag. */
  function UpdateClient(clients: ClientStore.Clients, params: Params, path: string, adminEmail: string)
    : (r: Reply<ClientStore.Clients>)
    ensures !("clientId" in params && !Text.IsBlank(params["clientId"])) ==>
              r == Reply(clients, Ok(Response(BadRequest, ClientIdRequired)))
  {
    UpdateClientWith(clients, params, path, adminEmail, false)
  }

  /** The path of `/client/:clientId/block` (`block` true) or
      `/client/:clientId/unblock`. */
  function ClientRoutePath(clientId: string, block: bool): string {
    "/client/" + clientId + (if block then "/block" else "/unblock")
  }

  /** Only the block route asks for the flag. */
  lemma RouteAsksForFlag(clientId: string, block: bool)
    ensures BlockRequested(ClientRoutePath(clientId, block)) <==> block
  {
    var p := ClientRoutePath(clientId, block);
    if !block {
      assert p[|p| - 6] == 'n';
    }
  }

  /** As written, the block route answers "Client Blocked Successfully"
      and stores the client as unblocked, and the unblock route the
      reverse. */
  lemma BlockRequestUnblocks(clients: ClientStore.Clients, clientId: string, adminEmail: string, block: bool)
    requires Validators.IsIdText(clientId) && adminEmail != AdminCases.DemoAdminEmail
    requires ClientStore.FindById(clients, clientId).Some?
    ensures var r := UpdateClientAsWritten(clients, map["clientId" := clientId], ClientRoutePath(clientId, block), adminEmail);
            && r.response == Ok(Response(OK, ClientMessage(block)))
            && ClientStore.FindById(r.state, clientId).Some?
            && ClientStore.FindById(r.state, clientId).value.isBlocked == Some(!block)
  {
    RouteAsksForFlag(clientId, block);
    IdNotBlank(clientId);
  }

  /** With the requested flag stored, the block route blocks and the
      unblock route unblocks, each with its message. */
  lemma BlockRequestBlocks(clients: ClientStore.Clients, clientId: string, adminEmail: string, block: bool)
    requires Validators.IsIdText(clientId) && adminEmail != AdminCases.DemoAdminEmail
    requires ClientStore.FindById(clients, clientId).Some?
    ensures var r := UpdateClient(clients, map["clientId" := clientId], ClientRoutePath(clientId, block), adminEmail);
            && r.response == Ok(Response(OK, ClientMessage(block)))
            && ClientStore.FindById(r.state, clientId).Some?
            && ClientStore.FindById(r.state, clientId).value.isBlocked == Some(block)
  {
    RouteAsksForFlag(clientId, block);
    IdNotBlank(clientId);
  }

  /** An id is not blank. */
  lemma IdNotBlank(id: string)
    requires Validators.IsIdText(id)
    ensures !Text.IsBlank(id)
  {
    assert Validators.IsHex(id[0]);
  }

  // ---------------------------------------------------------------------
  // UnauthenticatedControllers.

  /** The lawyer listing query after reading: absent paging stays absent. */
  datatype LawyersQuery = LawyersQuery(highestRank: bool, limit: Option<int>, offset: Option<int>)

  const LimitRefused: string := "Limit must be a positive number"
  const OffsetRefused: string := "Offset must be a non-negative number"

  /** `parseInt` of a query value that is given and non-empty; `None`
      inside means `NaN`. */
  function ReadPaging(v: Option<string>): (r: Option<Option<int>>)
    ensures r.None? <==> !Truthy(v)
    ensures r.Some? ==> r.value == Numbers.ParseInt(v.value)
  {
    if Truthy(v) then Some(Numbers.ParseInt(v.value)) else None
  }

  /** `getLawyers`' query checks: a limit that is given must read as at
      least 1, then an offset that is given must read as at least 0; the
      refusals answer 400. */
  function ParseLawyersQuery(highestRank: Option<string>, limit: Option<string>, offset: Option<string>): (r: Result<LawyersQuery>)
    ensures var l := ReadPaging(limit);
            var o := ReadPaging(offset);
            && (r.Ok? <==> (l.Some? ==> l.value.Some? && l.value.value >= 1) && (o.Some? ==> o.value.Some? && o.value.value >= 0))
            && (l.Some? && (l.value.None? || l.value.value < 1) ==> r == Err(Custom(BadRequest, LimitRefused)))
            && (r.Err? && r.error != Custom(BadRequest, LimitRefused) ==> r.error == Custom(BadRequest, OffsetRefused))
    ensures r.Ok? ==>
              && (r.value.highestRank <==> highestRank == Some("true"))
              && (r.value.limit.None? <==> !Truthy(limit))
              && (r.value.offset.None? <==> !Truthy(offset))
              && (r.value.limit.Some? ==> r.value.limit.value >= 1 && Some(r.value.limit.value) == Numbers.ParseInt(limit.value))
              && (r.value.offset.Some? ==> r.value.offset.value >= 0 && Some(r.value.offset.value) == Numbers.ParseInt(offset.value))
  {
    var l := ReadPaging(limit);
    var o := ReadPaging(offset);
    if l.Some? && (l.value.None? || l.value.value < 1) then Err(Custom(BadRequest, LimitRefused))
    else if o.Some? && (o.value.None? || o.value.value < 0) then Err(Custom(BadRequest, OffsetRefused))
    else
      Ok(LawyersQuery(highestRank == Some("true"),
                      if l.Some? then Some(l.value.value) else None,
                      if o.Some? then Some(o.value.value) else None))
  }

  /** Paging printed as decimals reads back as the same numbers. */
  lemma LawyersQueryRoundTrip(highestRank: bool, limit: nat, offset: nat)
    requires limit >= 1
    ensures ParseLawyersQuery(if highestRank then Some("true") else None,
                              Some(Text.DecimalString(limit)), Some(Text.DecimalString(offset))) ==
            Ok(LawyersQuery(highestRank, Some(limit), Some(offset)))
  {
    Numbers.ReadDecimal(limit);
    Numbers.ReadDecimal(offset);
  }

  const LawyerIdMissing: string := "Lawyer ID is required"
  const LawyerNotFound: string := "Lawyer not found"

  /** `getLawyerById`: a missing id answers 400, an unknown lawyer 404;
      the lookup is the use case's. */
  function GetLawyerById(id: Option<string>, lookup: string -> Option<Accounts.Account>): (r: Result<Accounts.Account>)
    ensures r.Ok? <==> Truthy(id) && lookup(id.value).Some?
    ensures !Truthy(id) ==> r == Err(Custom(BadRequest, LawyerIdMissing))
    ensures Truthy(id) && lookup(id.value).None? ==> r == Err(Custom(NotFound, LawyerNotFound))
    ensures r.Ok? ==> r.value == lookup(id.value).value
  {
    if !Truthy(id) then Err(Custom(BadRequest, LawyerIdMissing))
    else match lookup(id.value)
      case None => Err(Custom(NotFound, LawyerNotFound))
      case Some(lawyer) => Ok(lawyer)
  }
}
