/** The administrator's authentication use case
    (`AdminAuthenticationUseCase`): password login, code login, a resend
    that sends nothing, and token refresh. */
module AdminAuth {

  import opened Outcome
  import opened Accounts
  import opened OtpStore
  import opened Auth
  import Records
  import UserTable
  import AdminStore

  const AdminNotFound: string := "Admin not found"
  const AlreadyVerified: string := "Email is already verified"
  const TokensMissing: string := "Failed to generate tokens"

  /** `login`: the shared password flow for the admin role. */
  function Login<S>(repo: Repository<S>, svc: Services, st: AuthState<S>, email: string, password: string, env: Env): (r: Step<S>)
    ensures r.state.users == st.users
    ensures repo.findByEmailWithCredentials(st.users, email).None? ==>
              r == Step(st, Err(Custom(Unauthorized, InvalidCredentials)))
    ensures r.result.Ok? ==>
              (repo.findByEmailWithCredentials(st.users, email).Some? &&
               Gate(repo.findByEmailWithCredentials(st.users, email).value, Admin).Pass? &&
               r.result.value.accessToken.None? && r.result.value.email == Some(email))
  {
    HandleAuthFlow(repo, svc, st, email, password, Admin, env)
  }

  /** `validateOtpAndLogin`: the code login as an administrator; errors
      pass on as they are, and an answer without both tokens is 500. */
  function ValidateOtpAndLogin<S>(repo: Repository<S>, svc: Services, st: AuthState<S>, email: string, code: string, now: int): (r: Step<S>)
    ensures r.state == HandleOtpFlow(repo, svc, st, email, code, Admin, now).state
    ensures HandleOtpFlow(repo, svc, st, email, code, Admin, now).result.Err? ==>
              r.result == HandleOtpFlow(repo, svc, st, email, code, Admin, now).result
    ensures r.result.Ok? ==>
              (HandleOtpFlow(repo, svc, st, email, code, Admin, now).result.Ok? &&
               Truthy(r.result.value.accessToken) && Truthy(r.result.value.refreshToken) &&
               r.result.value.message.None? && r.result.value.email.None?)
  {
    var s := HandleOtpFlow(repo, svc, st, email, code, Admin, now);
    match s.result
    case Err(e) => s
    case Ok(response) =>
      if !(Truthy(response.accessToken) && Truthy(response.refreshToken)) then
        Step(s.state, Err(Custom(InternalServerError, TokensMissing)))
      else Step(s.state, Ok(AuthResponse(response.accessToken, response.refreshToken, None, None)))
  }

  /** `resendOtp`: an unknown administrator is 404 and a verified one 400
      when the resend is for verification; otherwise the answer says a code
      was sent, but no code is issued, stored or mailed. */
  function ResendOtp<S>(repo: Repository<S>, st: AuthState<S>, email: string, isForVerification: bool): (r: Step<S>)
    ensures r.state == st
    ensures r.result.Err? <==>
              repo.findByEmail(st.users, email).None? ||
              (isForVerification && repo.findByEmail(st.users, email).value.isVerified == Some(true))
    ensures repo.findByEmail(st.users, email).None? ==> r.result == Err(Custom(NotFound, AdminNotFound))
    ensures repo.findByEmail(st.users, email).Some? && r.result.Err? ==> r.result == Err(Custom(BadRequest, AlreadyVerified))
    ensures r.result.Ok? ==> r.result.value == AuthResponse(None, None, Some(CheckEmail), Some(email))
  {
    match repo.findByEmail(st.users, email)
    case None => Step(st, Err(Custom(NotFound, AdminNotFound)))
    case Some(admin) =>
      if isForVerification && admin.isVerified == Some(true) then Step(st, Err(Custom(BadRequest, AlreadyVerified)))
      else Step(st, Ok(AuthResponse(None, None, Some(CheckEmail), Some(email))))
  }

  /** `refreshAccessToken`: a refresh token whose administrator still exists
      gets new tokens for the admin role; an unknown one is 401, and a token
      the service refuses is refused with the service's error. */
  function RefreshAccessToken<S>(repo: Repository<S>, svc: Services, users: S, token: string): (r: Result<Tokens>)
    ensures svc.verifyRefresh(token).Err? ==> r == Err(svc.verifyRefresh(token).error)
    ensures svc.verifyRefresh(token).Ok? && repo.findById(users, svc.verifyRefresh(token).value.id).None? ==>
              r == Err(Custom(Unauthorized, InvalidCredentials))
    ensures r.Ok? ==>
              (svc.verifyRefresh(token).Ok? && repo.findById(users, svc.verifyRefresh(token).value.id).Some? &&
               r.value.accessToken == svc.accessToken(svc.verifyRefresh(token).value.email, svc.verifyRefresh(token).value.id, Admin))
  {
    match svc.verifyRefresh(token)
    case Err(e) => Err(e)
    case Ok(claims) =>
      if repo.findById(users, claims.id).None? then Err(Custom(Unauthorized, InvalidCredentials))
      else CreateAuthTokens(svc, claims.email, claims.id, Admin)
  }

  /** The administrators' lookups only find users of the admin role, so
      the gate of an administrator login never refuses for the role. */
  lemma AdminGateNeverWrongRole(users: AdminStore.Users, email: string)
    requires AdminStore.FindByEmail(users, email).Some?
    ensures Gate(AdminStore.FindByEmail(users, email).value, Admin) != Fail(Custom(Unauthorized, InvalidRole))
  {
  }

  /** Since the administrators' update writes only the block flag and the
      password, a code login by an unverified administrator, whatever its
      outcome, leaves the table as it was: they stay unverified. */
  lemma UnverifiedAdminStaysUnverified(mint: nat -> string, now: int, uniqueError: string, svc: Services,
                                       st: AuthState<AdminStore.Users>, email: string, code: string, at: int)
    requires UserTable.UniqueIds(st.users)
    requires AdminStore.FindByEmail(st.users, email).Some?
    requires AdminStore.FindByEmail(st.users, email).value.isVerified == Some(false)
    ensures var r := HandleOtpFlow(AdminStore.Repo(mint, now, uniqueError), svc, st, email, code, Admin, at);
            r.state.users == st.users
  {
    var repo := AdminStore.Repo(mint, now, uniqueError);
    var user := AdminStore.FindByEmail(st.users, email).value;
    assert repo.findByEmail(st.users, email) == Some(user);
    var id := user.id.GetOr("");
    var k := Records.FirstIndex(st.users, (u: UserTable.User) => AdminStore.AdminWithEmail(u, email));
    assert user == AdminStore.ToAdmin(st.users[k]);
    var j := Records.FirstIndex(st.users, (u: UserTable.User) => u.id == id);
    assert j == k;
    var patch := user.(isVerified := Some(true));
    assert repo.update(st.users, id, patch) == AdminStore.Update(st.users, id, patch);
    if AdminStore.Update(st.users, id, patch).Ok? {
      var after := AdminStore.Update(st.users, id, patch).value;
      assert after[k] == st.users[k];
      assert after == st.users;
    }
  }
}
