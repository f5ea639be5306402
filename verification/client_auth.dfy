/** The client's authentication use case (`ClientAuthenticationUseCase`):
    registration with an e-mailed code, password login, resending a code,
    login or sign-up confirmation with the code, OAuth sign-in and token
    refresh, over the shared flows of `Auth`. */
module ClientAuth {

  import opened Outcome
  import opened Accounts
  import opened OtpStore
  import opened Auth
  import Validators
  import Email
  import Records
  import ClientStore

  const EmailRegistered: string := "Email already registered"
  const InvalidClientData: string := "Invalid client data"
  const CredentialsRequired: string := "Email and password are required"
  const EmailRequired: string := "Email is required"
  const ClientNotFound: string := "Client not found"
  const NameMissing: string := "Client name is missing"
  const AlreadyVerified: string := "Email is already verified"
  const TokensMissing: string := "Failed to generate tokens"

  /** The demo account that logs in without a password or a code. */
  const DemoUser: string := "demouser@gmail.com"

  /** `DEFAULT_VALIDATION_CONFIG`: the phone is checked when given. */
  const ClientConfig: RegistrationConfig := RegistrationConfig([EmailField, PasswordField, NameField], true, [])

  /** `validateUserSpecificFields`: a given phone must be 4..15 characters. */
  function ValidateUserSpecificFields(data: Account): (c: Check)
    ensures c.Pass? <==> !Truthy(data.phone) || 4 <= |data.phone.value| <= 15
  {
    if Truthy(data.phone) then Validators.ValidatePhoneNumber(data.phone.value) else Pass
  }

  /** The record `register` hands to the store: the given data with the
      hashed password, the client role and not verified. */
  function NewClient(svc: Services, data: Account): (a: Account)
    requires data.password.Some?
    ensures a.password == Some(svc.hash(data.password.value))
    ensures a.role == Some(Client) && a.isVerified == Some(false)
    ensures a.email == data.email && a.name == data.name && a.phone == data.phone
  {
    data.(password := Some(svc.hash(data.password.value)), role := Some(Client), isVerified := Some(false))
  }

  /** `register`: validate the fields, refuse an e-mail already registered
      (409), store the new client, and mail it a code of type "register". */
  function Register<S>(repo: Repository<S>, svc: Services, st: AuthState<S>, data: Account, env: Env): (r: Step<S>)
    ensures ValidateRegistrationFields(data, ClientConfig, ValidateUserSpecificFields, svc.isEmail).Fail? ==>
              r == Step(st, Err(ValidateRegistrationFields(data, ClientConfig, ValidateUserSpecificFields, svc.isEmail).error))
    ensures ValidateRegistrationFields(data, ClientConfig, ValidateUserSpecificFields, svc.isEmail).Pass? &&
            repo.findByEmail(st.users, data.email.value).Some? ==>
              r == Step(st, Err(Custom(Conflict, EmailRegistered)))
    ensures r.result.Ok? ==>
              (ValidateRegistrationFields(data, ClientConfig, ValidateUserSpecificFields, svc.isEmail).Pass? &&
               repo.findByEmail(st.users, data.email.value).None? &&
               repo.create(st.users, NewClient(svc, data)).Ok? &&
               r.state.users == repo.create(st.users, NewClient(svc, data)).value.users &&
               |r.state.otps| == |st.otps| + 1)
    ensures r.result.Ok? && env.mailSent ==>
              |r.state.outbox| == |st.outbox| + 1 && r.state.outbox[|st.outbox|].otpType == "register"
  {
    var v := ValidateRegistrationFields(data, ClientConfig, ValidateUserSpecificFields, svc.isEmail);
    if v.Fail? then Step(st, Err(v.error))
    else if repo.findByEmail(st.users, data.email.value).Some? then Step(st, Err(Custom(Conflict, EmailRegistered)))
    else
      match repo.create(st.users, NewClient(svc, data))
      case Err(e) => Step(st, Err(e))
      case Ok(created) =>
        var after := st.(users := created.users);
        if !Truthy(created.account.email) || !Truthy(created.account.name) then
          Step(after, Err(Custom(InternalServerError, InvalidClientData)))
        else
          IssueOtp(after, created.account.email.value, created.account.name.value,
                   OtpConfig(None, None, Some("register")), env)
  }

  /** `login`: both fields are required; the demo user gets its e-mail back
      with nothing checked or issued; anyone else goes through the password
      flow as a client. */
  function Login<S>(repo: Repository<S>, svc: Services, st: AuthState<S>, email: string, password: string, env: Env): (r: Step<S>)
    ensures email == "" || password == "" ==> r == Step(st, Err(Custom(BadRequest, CredentialsRequired)))
    ensures email == DemoUser && password != "" ==> r == Step(st, Ok(AuthResponse(None, None, None, Some(email))))
    ensures email != "" && password != "" && email != DemoUser ==>
              r == HandleAuthFlow(repo, svc, st, email, password, Client, env)
    ensures r.result.Ok? ==> r.result.value.accessToken.None? && r.result.value.refreshToken.None?
  {
    if email == "" || password == "" then Step(st, Err(Custom(BadRequest, CredentialsRequired)))
    else if email == DemoUser then Step(st, Ok(AuthResponse(None, None, None, Some(email))))
    else HandleAuthFlow(repo, svc, st, email, password, Client, env)
  }

  /** The code type a resend uses: "login" for a verified client,
      "register" otherwise. */
  function ResendType(client: Account): (t: string)
    ensures t == "login" <==> client.isVerified == Some(true)
    ensures t == "register" <==> client.isVerified != Some(true)
  {
    if client.isVerified == Some(true) then "login" else "register"
  }

  /** `resendOtp`: in order, an empty e-mail (400), an unknown client (404),
      a client without a name (400), and a verified client when the resend
      is for verification (400) are refused; otherwise a new code is issued. */
  function ResendOtp<S>(repo: Repository<S>, st: AuthState<S>, email: string, isForVerification: bool, env: Env): (r: Step<S>)
    ensures r.state.users == st.users
    ensures email == "" ==> r == Step(st, Err(Custom(BadRequest, EmailRequired)))
    ensures email != "" && repo.findByEmail(st.users, email).None? ==> r == Step(st, Err(Custom(NotFound, ClientNotFound)))
    ensures email != "" && repo.findByEmail(st.users, email).Some? && !Truthy(repo.findByEmail(st.users, email).value.name) ==>
              r == Step(st, Err(Custom(BadRequest, NameMissing)))
    ensures email != "" && repo.findByEmail(st.users, email).Some? && Truthy(repo.findByEmail(st.users, email).value.name) ==>
              (isForVerification && repo.findByEmail(st.users, email).value.isVerified == Some(true) ==>
                 r == Step(st, Err(Custom(BadRequest, AlreadyVerified))))
    ensures r.result.Ok? ==>
              (repo.findByEmail(st.users, email).Some? &&
               r == IssueOtp(st, email, repo.findByEmail(st.users, email).value.name.value,
                             OtpConfig(None, None, Some(ResendType(repo.findByEmail(st.users, email).value))), env))
  {
    if email == "" then Step(st, Err(Custom(BadRequest, EmailRequired)))
    else
      match repo.findByEmail(st.users, email)
      case None => Step(st, Err(Custom(NotFound, ClientNotFound)))
      case Some(client) =>
        if !Truthy(client.name) then Step(st, Err(Custom(BadRequest, NameMissing)))
        else if isForVerification && client.isVerified == Some(true) then Step(st, Err(Custom(BadRequest, AlreadyVerified)))
        else IssueOtp(st, email, client.name.value, OtpConfig(None, None, Some(ResendType(client))), env)
  }

  /** Whether a response carries both tokens, non-empty. */
  predicate HasTokens(response: AuthResponse) {
    Truthy(response.accessToken) && Truthy(response.refreshToken)
  }

  /** `validateOtpAndLogin`: the code login as a client, refused with 500
      unless both tokens came back. */
  function ValidateOtpAndLogin<S>(repo: Repository<S>, svc: Services, st: AuthState<S>, email: string, code: string, now: int): (r: Step<S>)
    ensures r.state == HandleOtpFlow(repo, svc, st, email, code, Client, now).state
    ensures r.result.Ok? ==> HasTokens(r.result.value) && r.result.value.message.None?
    ensures HandleOtpFlow(repo, svc, st, email, code, Client, now).result.Err? ==>
              r.result == HandleOtpFlow(repo, svc, st, email, code, Client, now).result
  {
    var s := HandleOtpFlow(repo, svc, st, email, code, Client, now);
    match s.result
    case Err(e) => s
    case Ok(response) =>
      if !HasTokens(response) then Step(s.state, Err(Custom(InternalServerError, TokensMissing)))
      else Step(s.state, Ok(AuthResponse(response.accessToken, response.refreshToken, None, None)))
  }

  /** The tokens the code login signs are never empty, so its 500 refusal
      is never reached. */
  lemma OtpLoginTokensPresent<S>(repo: Repository<S>, svc: Services, st: AuthState<S>, email: string, code: string, now: int)
    ensures HandleOtpFlow(repo, svc, st, email, code, Client, now).result.Ok? ==>
              ValidateOtpAndLogin(repo, svc, st, email, code, now).result.Ok?
  {
    var s := HandleOtpFlow(repo, svc, st, email, code, Client, now);
    if s.result.Ok? {
      var user := repo.findByEmail(st.users, email).value;
      var t := CreateAuthTokens(svc, email, user.id.GetOr(""), Client);
      assert t.Ok?;
    }
  }

  /** `validateOtpForSignup`: check the code before anything is written,
      store the client as verified, and delete its codes; no token is
      issued. */
  function ValidateOtpForSignup<S>(repo: Repository<S>, svc: Services, st: AuthState<S>, email: string, code: string, now: int): (r: Step<S>)
    ensures r.state.outbox == st.outbox
    ensures ValidateOtpInput(st.otps, email, code, svc.isEmail, now).Fail? ==>
              r == Step(st, Err(ValidateOtpInput(st.otps, email, code, svc.isEmail, now).error))
    ensures ValidateOtpInput(st.otps, email, code, svc.isEmail, now).Pass? && repo.findByEmail(st.users, email).None? ==>
              r == Step(st, Err(Custom(NotFound, ClientNotFound)))
    ensures r.result.Ok? ==>
              (r.result.value == AuthResponse(None, None, None, None) &&
               repo.findByEmail(st.users, email).Some? &&
               Ok(r.state.users) == repo.update(st.users, repo.findByEmail(st.users, email).value.id.GetOr(""),
                                                repo.findByEmail(st.users, email).value.(isVerified := Some(true))) &&
               r.state.otps == DeleteByEmail(st.otps, email))
  {
    var v := ValidateOtpInput(st.otps, email, code, svc.isEmail, now);
    if v.Fail? then Step(st, Err(v.error))
    else
      match repo.findByEmail(st.users, email)
      case None => Step(st, Err(Custom(NotFound, ClientNotFound)))
      case Some(client) =>
        match repo.update(st.users, client.id.GetOr(""), client.(isVerified := Some(true)))
        case Err(e) => Step(st, Err(e))
        case Ok(users) => Step(AuthState(users, DeleteByEmail(st.otps, email), st.outbox), Ok(AuthResponse(None, None, None, None)))
  }

  /** `oAuthSignin`: the OAuth flow as a client with the profile picture as
      extra data, refused with 500 unless both tokens came back. */
  function OAuthSignin<S>(repo: Repository<S>, svc: Services, st: AuthState<S>, email: string, name: string,
                          profile: Option<string>): (r: Step<S>)
    ensures r.state == HandleOAuthFlow(repo, svc, st, email, name, profile, Client, ValidateUserSpecificFields).state
    ensures r.result.Ok? ==> HasTokens(r.result.value)
    ensures HandleOAuthFlow(repo, svc, st, email, name, profile, Client, ValidateUserSpecificFields).result.Ok? &&
            !HasTokens(HandleOAuthFlow(repo, svc, st, email, name, profile, Client, ValidateUserSpecificFields).result.value) ==>
              r.result == Err(Custom(InternalServerError, TokensMissing))
  {
    var s := HandleOAuthFlow(repo, svc, st, email, name, profile, Client, ValidateUserSpecificFields);
    match s.result
    case Err(e) => s
    case Ok(response) =>
      if !HasTokens(response) then Step(s.state, Err(Custom(InternalServerError, TokensMissing)))
      else Step(s.state, Ok(AuthResponse(response.accessToken, response.refreshToken, None, None)))
  }

  /** Under the client schema, which requires a password, a first OAuth
      sign-in never succeeds: the record the flow creates has no password,
      so the store rejects it and nothing is written. */
  lemma OAuthFirstSignInRejected(mint: nat -> string, now: int, svc: Services, st: AuthState<ClientStore.Clients>,
                                 email: string, name: string, profile: Option<string>)
    requires ClientStore.FindByEmail(st.users, email).None?
    requires ValidateUserSpecificFields(OAuthUser(email, name, profile, Client)).Pass?
    ensures OAuthSignin(ClientStore.Repo(mint, now, None), svc, st, email, name, profile) ==
              Step(st, Err(Plain(ClientStore.ValidationFailed)))
  {
    var repo := ClientStore.Repo(mint, now, None);
    var data := OAuthUser(email, name, profile, Client);
    assert repo.findByEmailWithCredentials(st.users, email).None?;
    assert !Truthy(data.password);
    assert ClientStore.Create(st.users, data, None, mint(|st.users|), now) == Err(Plain(ClientStore.ValidationFailed));
    assert repo.create(st.users, data) == ClientStore.Create(st.users, data, None, mint(|st.users|), now);
    assert HandleOAuthFlow(repo, svc, st, email, name, profile, Client, ValidateUserSpecificFields) ==
             Step(st, Err(Plain(ClientStore.ValidationFailed)));
  }

  /** `refreshAccessToken`: the token's client must still exist (401
      otherwise); new tokens are signed for the client role. */
  function RefreshAccessToken<S>(repo: Repository<S>, svc: Services, users: S, token: string): (r: Result<Tokens>)
    ensures svc.verifyRefresh(token).Err? ==> r == Err(svc.verifyRefresh(token).error)
    ensures svc.verifyRefresh(token).Ok? && repo.findById(users, svc.verifyRefresh(token).value.id).None? ==>
              r == Err(Custom(Unauthorized, InvalidCredentials))
    ensures r.Ok? ==>
              (svc.verifyRefresh(token).Ok? &&
               r.value.accessToken == svc.accessToken(svc.verifyRefresh(token).value.email, svc.verifyRefresh(token).value.id, Client))
  {
    match svc.verifyRefresh(token)
    case Err(e) => Err(e)
    case Ok(claims) =>
      if repo.findById(users, claims.id).None? then Err(Custom(Unauthorized, InvalidCredentials))
      else CreateAuthTokens(svc, claims.email, claims.id, Client)
  }

  const ResetPath: string := "/client/reset-password"

  /** `forgotPassword`: an unknown client is 404; otherwise the reset mail
      goes to the e-mail with the client's reset link. A failure of the mail
      service is passed on as it is. */
  function ForgotPassword<S>(repo: Repository<S>, users: S, email: string, clientUrl: string,
                             mailError: Option<Error>): (r: Result<Email.MailRequest>)
    ensures repo.findByEmail(users, email).None? ==> r == Err(Custom(NotFound, ClientNotFound))
    ensures repo.findByEmail(users, email).Some? && mailError.Some? ==> r == Err(mailError.value)
    ensures r.Ok? <==> repo.findByEmail(users, email).Some? && mailError.None?
    ensures r.Ok? ==> (r.value.email == email && r.value.link == Some(clientUrl + ResetPath) &&
                       r.value.name == repo.findByEmail(users, email).value.name.GetOr("") &&
                       r.value.subject == Email.SubjectFor("reset"))
  {
    match repo.findByEmail(users, email)
    case None => Err(Custom(NotFound, ClientNotFound))
    case Some(client) =>
      if mailError.Some? then Err(mailError.value)
      else Ok(Email.ResetRequest(email, client.name.GetOr(""), clientUrl + ResetPath))
  }

  /** `updatePassword`: the shared password update, errors passed on. */
  function UpdatePassword<S>(repo: Repository<S>, svc: Services, users: S, email: string, newPassword: string): (r: Result<S>)
    ensures repo.findByEmail(users, email).None? ==> r == Err(Custom(NotFound, UserNotFound))
    ensures repo.findByEmail(users, email).Some? && repo.updatePassword.Some? ==>
              r == repo.updatePassword.value(users, email, svc.hash(newPassword))
    ensures repo.findByEmail(users, email).Some? && repo.updatePassword.None? ==>
              var user := repo.findByEmail(users, email).value;
              r == repo.update(users, user.id.GetOr(""), user.(password := Some(svc.hash(newPassword))))
  {
    HandlePasswordUpdate(repo, svc, users, email, newPassword)
  }

  /** With the client store, which has a password update of its own, the
      new hash is what the next lookup of the e-mail reads, and only that
      client's password changes. */
  lemma PasswordUpdateReadBack(mint: nat -> string, now: int, gender: Option<string>, svc: Services,
                               clients: ClientStore.Clients, email: string, newPassword: string)
    requires ClientStore.FindByEmail(clients, email).Some?
    ensures var r := UpdatePassword(ClientStore.Repo(mint, now, gender), svc, clients, email, newPassword);
            r.Ok? && ClientStore.FindByEmail(r.value, email) ==
              Some(ClientStore.FindByEmail(clients, email).value.(password := Some(svc.hash(newPassword))))
    ensures var r := UpdatePassword(ClientStore.Repo(mint, now, gender), svc, clients, email, newPassword);
            var k := Records.FirstIndex(clients, d => ClientStore.HasEmail(d, email));
            r.Ok? && |r.value| == |clients| &&
            forall i :: 0 <= i < |clients| && i != k ==> r.value[i] == clients[i]
  {
    var repo := ClientStore.Repo(mint, now, gender);
    assert repo.findByEmail(clients, email) == ClientStore.FindByEmail(clients, email);
    var hashed := svc.hash(newPassword);
    assert repo.updatePassword.value(clients, email, hashed) == Ok(ClientStore.UpdatePassword(clients, email, hashed));
    var after := ClientStore.UpdatePassword(clients, email, hashed);
    ClientStore.SingleFieldUpdates(clients, email, hashed);
    var k := Records.FirstIndex(clients, d => ClientStore.HasEmail(d, email));
    assert forall i :: 0 <= i < k ==> after[i] == clients[i];
    assert Records.FirstIndex(after, d => ClientStore.HasEmail(d, email)) == k;
  }

  /** A client registered through the client store is stored unverified,
      as a client, with the hashed password, and is found again by its
      e-mail. */
  lemma RegisterStoresUnverifiedClient(mint: nat -> string, now: int, gender: Option<string>, svc: Services,
                                       st: AuthState<ClientStore.Clients>, data: Account, env: Env)
    requires Register(ClientStore.Repo(mint, now, gender), svc, st, data, env).result.Ok?
    requires forall i :: 0 <= i < |st.users| ==> !ClientStore.HasId(st.users[i], mint(|st.users|))
    ensures var users := Register(ClientStore.Repo(mint, now, gender), svc, st, data, env).state.users;
            var found := ClientStore.FindByEmail(users, data.email.value);
            found.Some? && found.value.isVerified == Some(false) && found.value.role == Some(Client) &&
            found.value.password == Some(svc.hash(data.password.value))
    ensures var users := Register(ClientStore.Repo(mint, now, gender), svc, st, data, env).state.users;
            |users| == |st.users| + 1 && users[|st.users|].gender == gender
  {
    var repo := ClientStore.Repo(mint, now, gender);
    var record := NewClient(svc, data);
    ClientStore.CreateThenFind(st.users, record, gender, mint(|st.users|), now);
  }
}
