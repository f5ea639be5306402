/** The authentication flows every role shares (`BaseAuthenticationUseCase`):
    the role gate, password login that mails a one-time code, the code
    check, login with the code, first sign-in through OAuth, and the
    checks a registration passes.

    A flow works on an `AuthState`: the role's user store (of any type `S`,
    reached through a `Repository<S>`), the OTP store, and the OTP mails
    handed to the mail transport. A flow returns the state it leaves behind
    together with its result, so what was written before an error is kept.
    Hashing, token signing, Joi's e-mail grammar, the clock, the random
    number and the outcome of mail delivery and of storing a code are
    parameters. */
module Auth {

  import opened Outcome
  import opened Accounts
  import opened OtpStore
  import Validators
  import Text
  import Email

  const InvalidCredentials: string := "Invalid Credentials"
  const InvalidRole: string := "Invalid role"
  const AccountBlocked: string := "Account is blocked"
  const VerifyFirst: string := "Please verify your email first"
  const UserNotFound: string := "User not found"
  const InvalidOtp: string := "Invalid OTP"
  const OtpExpired: string := "OTP has expired"
  const TokensFailed: string := "Failed to generate auth tokens"
  const BadTokenData: string := "Invalid user data for token generation"
  const CheckEmail: string := "Please check your email for verification code"
  const VerifiedAndLoggedIn: string := "Email verified and login successful"

  /** The code every demo account receives. */
  const DemoCode: string := "777777"
  const MinuteMs: int := 60000
  const DefaultExpiryMinutes: int := 5

  /** What a refresh token carries. */
  datatype Claims = Claims(email: string, id: string)

  /** The services a flow calls: Joi's e-mail grammar, bcrypt's `compare`
      (which throws on a missing hash) and `hash`, and JWT signing and
      verification of refresh tokens. */
  datatype Services = Services(
    isEmail: string -> bool,
    compare: (string, Option<string>) -> Result<bool>,
    hash: string -> string,
    accessToken: (string, string, Role) -> string,
    refreshToken: (string, string) -> string,
    verifyRefresh: string -> Result<Claims>)

  /** `Math.floor(Math.random() * 900000)`: the random part of a code. */
  type Draw = d: nat | d < 900000

  /** What the world outside the model decides during one call: the time in
      milliseconds, the random draw, whether the OTP mail went out, and
      whether storing the code failed. */
  datatype Env = Env(now: int, draw: Draw, mailSent: bool, otpStoreError: Option<Error>)

  /** `IAuthResponse`. */
  datatype AuthResponse = AuthResponse(
    accessToken: Option<string>,
    refreshToken: Option<string>,
    message: Option<string>,
    email: Option<string>)

  datatype Tokens = Tokens(accessToken: string, refreshToken: string)

  /** The stores the flows read and write. */
  datatype AuthState<S> = AuthState(users: S, otps: Store, outbox: seq<Email.OtpMail>)

  /** A flow's outcome: the state it leaves and its result. */
  datatype Step<S> = Step(state: AuthState<S>, result: Result<AuthResponse>)

  /** `IOtpConfig`. */
  datatype OtpConfig = OtpConfig(customName: Option<string>, expiryMinutes: Option<int>, otpType: Option<string>)

  const DefaultOtpConfig: OtpConfig := OtpConfig(None, None, None)

  // ---------------------------------------------------------------------
  // The role gate.

  /** `validateUserWithRole`: the role must match, then the account must not
      be blocked, then it must not be explicitly unverified; an account
      whose verification flag is absent passes. */
  function Gate(user: Account, role: Role): (c: Check)
    ensures c.Pass? <==> user.role == Some(role) && user.isBlocked != Some(true) && user.isVerified != Some(false)
    ensures user.role != Some(role) ==> c == Fail(Custom(Unauthorized, InvalidRole))
    ensures user.role == Some(role) && user.isBlocked == Some(true) ==> c == Fail(Custom(Forbidden, AccountBlocked))
    ensures user.role == Some(role) && user.isBlocked != Some(true) && user.isVerified == Some(false) ==>
              c == Fail(Custom(Unauthorized, VerifyFirst))
  {
    Then(Need(user.role == Some(role), Unauthorized, InvalidRole),
         Then(Need(user.isBlocked != Some(true), Forbidden, AccountBlocked),
              Need(user.isVerified != Some(false), Unauthorized, VerifyFirst)))
  }

  /** The states an account of the right role can be in, as the gate sees
      them. */
  datatype Standing = Active | Unverified | Blocked

  function StandingOf(user: Account): Standing {
    if user.isBlocked == Some(true) then Blocked
    else if user.isVerified == Some(false) then Unverified
    else Active
  }

  /** The gate's verdict for each standing of an account of the right role,
      and the "verify first" refusal happens for exactly the unverified
      standing: a blocked account is refused as blocked whatever its
      verification flag. */
  lemma GateByStanding(user: Account, role: Role)
    requires user.role == Some(role)
    ensures StandingOf(user) == Active <==> Gate(user, role).Pass?
    ensures StandingOf(user) == Blocked <==> Gate(user, role) == Fail(Custom(Forbidden, AccountBlocked))
    ensures StandingOf(user) == Unverified <==> Gate(user, role) == Fail(Custom(Unauthorized, VerifyFirst))
  {
  }

  // ---------------------------------------------------------------------
  // Issuing a code.

  /** A demo account: the e-mail starts with "demo" and ends with "@gmail.com". */
  predicate IsDemo(email: string) {
    Text.StartsWith(email, "demo") && Text.EndsWith(email, "@gmail.com")
  }

  /** `generateOtpCode`: the fixed demo code, or `100000 + draw` written with
      six digits. */
  function GenerateOtpCode(email: string, draw: Draw): (code: string)
    ensures IsDemo(email) ==> code == DemoCode
    ensures !IsDemo(email) ==> |code| == 6 && Text.AllDigits(code) && Text.DigitsValue(code) == 100000 + draw
  {
    if IsDemo(email) then DemoCode
    else
      var s := Text.DecimalString(100000 + draw);
      Text.SixDigitLength(100000 + draw);
      Text.PadStart(s, 6, '0')
  }

  /** Every code the flows issue passes the code validator, and an ordinary
      code lies in 100000..999999. */
  lemma GeneratedCodeIsValid(email: string, draw: Draw)
    ensures Validators.ValidateOtpCode(GenerateOtpCode(email, draw)).Pass?
    ensures !IsDemo(email) ==> 100000 <= Text.DigitsValue(GenerateOtpCode(email, draw)) <= 999999
  {
    var code := GenerateOtpCode(email, draw);
    if IsDemo(email) {
      assert Text.IsDigit(code[0]) && Text.IsDigit(code[5]);
    }
  }

  /** `config.expiryMinutes || 5`: an absent or zero setting means 5. */
  function ExpiryMinutes(config: OtpConfig): (m: int)
    ensures config.expiryMinutes.Some? && config.expiryMinutes.value != 0 ==> m == config.expiryMinutes.value
    ensures config.expiryMinutes.None? || config.expiryMinutes.value == 0 ==> m == DefaultExpiryMinutes
  {
    if config.expiryMinutes.Some? && config.expiryMinutes.value != 0 then config.expiryMinutes.value
    else DefaultExpiryMinutes
  }

  /** The mail `handleOtpGeneration` hands to the e-mail service. */
  function OtpMailFor(email: string, name: string, config: OtpConfig, env: Env): Email.OtpMail {
    Email.OtpMail(GenerateOtpCode(email, env.draw), env.now + ExpiryMinutes(config) * MinuteMs, email,
                  TextOr(config.customName, name), TextOr(config.otpType, "login"))
  }

  /** `handleOtpGeneration`: mail a new code, then store it. A mail that
      fails is ignored; a store that fails makes the call fail (the mail has
      gone out by then). The answer carries no token. */
  function IssueOtp<S>(st: AuthState<S>, email: string, name: string, config: OtpConfig, env: Env): (r: Step<S>)
    ensures r.state.users == st.users
    ensures r.state.outbox == st.outbox + (if env.mailSent then [OtpMailFor(email, name, config, env)] else [])
    ensures env.otpStoreError.Some? ==> r.result == Err(env.otpStoreError.value) && r.state.otps == st.otps
    ensures env.otpStoreError.None? ==>
              (r.result == Ok(AuthResponse(None, None, Some(CheckEmail), Some(email))) &&
               r.state.otps == st.otps + [Otp(email, GenerateOtpCode(email, env.draw),
                                              env.now + ExpiryMinutes(config) * MinuteMs, env.now)])
  {
    var mail := OtpMailFor(email, name, config, env);
    var outbox := if env.mailSent then st.outbox + [mail] else st.outbox;
    if env.otpStoreError.Some? then
      Step(st.(outbox := outbox), Err(env.otpStoreError.value))
    else
      var otps := Create(st.otps, Otp(email, mail.code, mail.expiry, env.now));
      Step(AuthState(st.users, otps, outbox), Ok(AuthResponse(None, None, Some(CheckEmail), Some(email))))
  }

  // ---------------------------------------------------------------------
  // Checking a code.

  /** `validateOtpInput`: the e-mail and the code must be well formed, the
      newest stored code for the e-mail must equal the one given, and it
      must not have expired; it expires only once its expiry is strictly
      before now. */
  function ValidateOtpInput(otps: Store, email: string, code: string, isEmail: string -> bool, now: int): (c: Check)
    ensures c.Pass? <==>
              email != "" && isEmail(email) && |code| == 6 && Text.AllDigits(code) &&
              FindByEmail(otps, email).Some? && FindByEmail(otps, email).value.code == code &&
              now <= FindByEmail(otps, email).value.expiry
    ensures !(email != "" && isEmail(email)) ==> c == Fail(Custom(BadRequest, Validators.EmailMessage))
    ensures email != "" && isEmail(email) && |code| == 6 && Text.AllDigits(code) ==>
              (FindByEmail(otps, email).None? || FindByEmail(otps, email).value.code != code ==>
                 c == Fail(Custom(Unauthorized, InvalidOtp)))
  {
    var format := Then(Validators.ValidateEmailFormat(email, isEmail), Validators.ValidateOtpCode(code));
    if format.Fail? then format
    else
      match FindByEmail(otps, email)
      case None => Fail(Custom(Unauthorized, InvalidOtp))
      case Some(otp) =>
        if otp.code != code then Fail(Custom(Unauthorized, InvalidOtp))
        else Need(!(otp.expiry < now), Unauthorized, OtpExpired)
  }

  /** A code issued at time `t` with the default settings is accepted up to
      and including its expiry `t` + 5 minutes and refused as expired after
      it, as long as no newer code has been issued for the e-mail. */
  lemma IssueThenCheck<S>(st: AuthState<S>, email: string, name: string, env: Env, isEmail: string -> bool, later: int)
    requires env.otpStoreError.None?
    requires email != "" && isEmail(email)
    ensures var r := IssueOtp(st, email, name, DefaultOtpConfig, env);
            var code := GenerateOtpCode(email, env.draw);
            (later <= env.now + 5 * MinuteMs <==> ValidateOtpInput(r.state.otps, email, code, isEmail, later).Pass?) &&
            (later > env.now + 5 * MinuteMs ==>
               ValidateOtpInput(r.state.otps, email, code, isEmail, later) == Fail(Custom(Unauthorized, OtpExpired)))
  {
    var r := IssueOtp(st, email, name, DefaultOtpConfig, env);
    var code := GenerateOtpCode(email, env.draw);
    var otp := Otp(email, code, env.now + 5 * MinuteMs, env.now);
    CreateThenFind(st.otps, otp, email);
    GeneratedCodeIsValid(email, env.draw);
    assert FindByEmail(r.state.otps, email) == Some(otp);
  }

  // ---------------------------------------------------------------------
  // Tokens.

  /** `createAuthTokens`: both tokens must come out non-empty. */
  function CreateAuthTokens(svc: Services, email: string, id: string, role: Role): (r: Result<Tokens>)
    ensures r.Ok? <==> svc.accessToken(email, id, role) != "" && svc.refreshToken(email, id) != ""
    ensures r.Ok? ==> r.value == Tokens(svc.accessToken(email, id, role), svc.refreshToken(email, id))
    ensures r.Err? ==> r.error == Custom(InternalServerError, TokensFailed)
  {
    var access := svc.accessToken(email, id, role);
    var refresh := svc.refreshToken(email, id);
    if access == "" || refresh == "" then Err(Custom(InternalServerError, TokensFailed))
    else Ok(Tokens(access, refresh))
  }

  /** `generateTokens`: the user must have an id, an e-mail and a role; the
      tokens themselves are not checked. */
  function GenerateTokens(svc: Services, user: Account): (r: Result<AuthResponse>)
    ensures r.Ok? <==> Truthy(user.id) && Truthy(user.email) && user.role.Some?
    ensures r.Err? ==> r.error == Custom(InternalServerError, BadTokenData)
    ensures r.Ok? ==>
              r.value == AuthResponse(Some(svc.accessToken(user.email.value, user.id.value, user.role.value)),
                                      Some(svc.refreshToken(user.email.value, user.id.value)), None, None)
  {
    if !Truthy(user.id) || !Truthy(user.email) || user.role.None? then
      Err(Custom(InternalServerError, BadTokenData))
    else
      Ok(AuthResponse(Some(svc.accessToken(user.email.value, user.id.value, user.role.value)),
                      Some(svc.refreshToken(user.email.value, user.id.value)), None, None))
  }

  // ---------------------------------------------------------------------
  // Password login.

  /** `validateCredentials`: e-mail format, password strength, then the
      password must match the stored hash. */
  function ValidateCredentials(svc: Services, email: string, password: string, stored: Option<string>): (c: Check)
    ensures c.Pass? <==>
              email != "" && svc.isEmail(email) && Validators.IsStrongPassword(password) &&
              svc.compare(password, stored) == Ok(true)
    ensures email != "" && svc.isEmail(email) && Validators.IsStrongPassword(password) &&
            svc.compare(password, stored) == Ok(false) ==>
              c == Fail(Custom(Unauthorized, InvalidCredentials))
  {
    var format := Then(Validators.ValidateEmailFormat(email, svc.isEmail), Validators.ValidatePassword(password));
    if format.Fail? then format
    else
      match svc.compare(password, stored)
      case Err(e) => Fail(e)
      case Ok(same) => Need(same, Unauthorized, InvalidCredentials)
  }

  /** `handleAuthFlow`: look the user up with credentials, run the gate,
      check the password, then issue a code with the default settings. The
      user store is never written, and a successful answer carries only a
      message and the e-mail. */
  function HandleAuthFlow<S>(repo: Repository<S>, svc: Services, st: AuthState<S>, email: string, password: string,
                             role: Role, env: Env): (r: Step<S>)
    ensures r.state.users == st.users
    ensures repo.findByEmailWithCredentials(st.users, email).None? ==>
              r == Step(st, Err(Custom(Unauthorized, InvalidCredentials)))
    ensures repo.findByEmailWithCredentials(st.users, email).Some? &&
            Gate(repo.findByEmailWithCredentials(st.users, email).value, role).Fail? ==>
              r == Step(st, Err(Gate(repo.findByEmailWithCredentials(st.users, email).value, role).error))
    ensures r.result.Ok? ==>
              (r.result.value == AuthResponse(None, None, Some(CheckEmail), Some(email)) &&
               repo.findByEmailWithCredentials(st.users, email).Some? &&
               Gate(repo.findByEmailWithCredentials(st.users, email).value, role).Pass? &&
               svc.compare(password, repo.findByEmailWithCredentials(st.users, email).value.password) == Ok(true))
    ensures r.result.Ok? ==> |r.state.otps| == |st.otps| + 1 && r.state.otps[|st.otps|].email == email
  {
    match repo.findByEmailWithCredentials(st.users, email)
    case None => Step(st, Err(Custom(Unauthorized, InvalidCredentials)))
    case Some(user) =>
      var checks := Then(Gate(user, role), ValidateCredentials(svc, email, password, user.password));
      if checks.Fail? then Step(st, Err(checks.error))
      else IssueOtp(st, email, TextOr(user.name, ""), DefaultOtpConfig, env)
  }

  /** `handlePasswordUpdate`: the user with that e-mail gets the hash of the
      new password, through the store's own password update when it has one
      and otherwise through a whole-record update of the user found. */
  function HandlePasswordUpdate<S>(repo: Repository<S>, svc: Services, users: S, email: string, newPassword: string): (r: Result<S>)
    ensures repo.findByEmail(users, email).None? ==> r == Err(Custom(NotFound, UserNotFound))
    ensures repo.findByEmail(users, email).Some? && repo.updatePassword.Some? ==>
              r == repo.updatePassword.value(users, email, svc.hash(newPassword))
    ensures repo.findByEmail(users, email).Some? && repo.updatePassword.None? ==>
              var user := repo.findByEmail(users, email).value;
              r == repo.update(users, user.id.GetOr(""), user.(password := Some(svc.hash(newPassword))))
  {
    match repo.findByEmail(users, email)
    case None => Err(Custom(NotFound, UserNotFound))
    case Some(user) =>
      var hashed := svc.hash(newPassword);
      match repo.updatePassword
      case Some(write) => write(users, email, hashed)
      case None => repo.update(users, user.id.GetOr(""), user.(password := Some(hashed)))
  }

  // ---------------------------------------------------------------------
  // Login with a code.

  /** Whether the gate's refusal is the one the code login recovers from:
      the account is explicitly unverified and nothing else is wrong. */
  predicate RecoverableRefusal(g: Check, user: Account) {
    g.Fail? && g.error.Custom? && g.error.message == VerifyFirst && user.isVerified == Some(false)
  }

  /** The users after the gate step of a code login: an unverified account
      is stored as verified; other accounts are left alone. */
  function VerifyOnLogin<S>(repo: Repository<S>, users: S, user: Account, role: Role): (r: Result<S>)
    ensures Gate(user, role).Pass? ==> r == Ok(users)
    ensures RecoverableRefusal(Gate(user, role), user) ==>
              r == repo.update(users, user.id.GetOr(""), user.(isVerified := Some(true)))
    ensures Gate(user, role).Fail? && !RecoverableRefusal(Gate(user, role), user) ==> r == Err(Gate(user, role).error)
  {
    var g := Gate(user, role);
    if g.Pass? then Ok(users)
    else if RecoverableRefusal(g, user) then repo.update(users, user.id.GetOr(""), user.(isVerified := Some(true)))
    else Err(g.error)
  }

  /** `handleOtpFlow`: check the code, find the user, run the gate (storing
      an unverified account as verified instead of refusing it), sign both
      tokens, and delete every code stored for the e-mail. */
  function HandleOtpFlow<S>(repo: Repository<S>, svc: Services, st: AuthState<S>, email: string, code: string,
                            role: Role, now: int): (r: Step<S>)
    ensures r.state.outbox == st.outbox
    ensures ValidateOtpInput(st.otps, email, code, svc.isEmail, now).Fail? ==>
              r == Step(st, Err(ValidateOtpInput(st.otps, email, code, svc.isEmail, now).error))
    ensures ValidateOtpInput(st.otps, email, code, svc.isEmail, now).Pass? && repo.findByEmail(st.users, email).None? ==>
              r == Step(st, Err(Custom(NotFound, UserNotFound)))
    ensures r.result.Err? ==> r.state.otps == st.otps
    ensures r.result.Ok? ==>
              (ValidateOtpInput(st.otps, email, code, svc.isEmail, now).Pass? &&
               repo.findByEmail(st.users, email).Some? &&
               r.state.otps == DeleteByEmail(st.otps, email) &&
               r.result.value.accessToken.Some? && r.result.value.refreshToken.Some? &&
               r.result.value.message == Some(VerifiedAndLoggedIn))
  {
    var v := ValidateOtpInput(st.otps, email, code, svc.isEmail, now);
    if v.Fail? then Step(st, Err(v.error))
    else
      match repo.findByEmail(st.users, email)
      case None => Step(st, Err(Custom(NotFound, UserNotFound)))
      case Some(user) =>
        match VerifyOnLogin(repo, st.users, user, role)
        case Err(e) => Step(st, Err(e))
        case Ok(users) =>
          match CreateAuthTokens(svc, email, user.id.GetOr(""), role)
          case Err(e) => Step(st.(users := users), Err(e))
          case Ok(t) =>
            Step(AuthState(users, DeleteByEmail(st.otps, email), st.outbox),
                 Ok(AuthResponse(Some(t.accessToken), Some(t.refreshToken), Some(VerifiedAndLoggedIn), None)))
  }

  /** A code login by an explicitly unverified account of the right role
      stores the account as verified and logs it in, and afterwards no code
      for the e-mail is left. */
  lemma OtpLoginVerifies<S>(repo: Repository<S>, svc: Services, st: AuthState<S>, email: string, code: string,
                            role: Role, now: int)
    requires ValidateOtpInput(st.otps, email, code, svc.isEmail, now).Pass?
    requires repo.findByEmail(st.users, email).Some?
    requires var user := repo.findByEmail(st.users, email).value;
             user.role == Some(role) && user.isBlocked != Some(true) && user.isVerified == Some(false)
    requires var user := repo.findByEmail(st.users, email).value;
             repo.update(st.users, user.id.GetOr(""), user.(isVerified := Some(true))).Ok?
    requires var user := repo.findByEmail(st.users, email).value;
             svc.accessToken(email, user.id.GetOr(""), role) != "" && svc.refreshToken(email, user.id.GetOr("")) != ""
    ensures var r := HandleOtpFlow(repo, svc, st, email, code, role, now);
            var user := repo.findByEmail(st.users, email).value;
            r.result.Ok? &&
            r.state.users == repo.update(st.users, user.id.GetOr(""), user.(isVerified := Some(true))).value &&
            FindByEmail(r.state.otps, email).None?
  {
    var user := repo.findByEmail(st.users, email).value;
    assert RecoverableRefusal(Gate(user, role), user);
    DeleteThenFind(st.otps, email, email);
  }

  /** A blocked account is refused by the code login even when it is also
      unverified: it is not stored as verified, no code is deleted and no
      token is issued. */
  lemma BlockedUnverifiedRefused<S>(repo: Repository<S>, svc: Services, st: AuthState<S>, email: string, code: string,
                                    role: Role, now: int)
    requires ValidateOtpInput(st.otps, email, code, svc.isEmail, now).Pass?
    requires repo.findByEmail(st.users, email).Some?
    requires var user := repo.findByEmail(st.users, email).value;
             user.role == Some(role) && user.isBlocked == Some(true)
    ensures HandleOtpFlow(repo, svc, st, email, code, role, now) == Step(st, Err(Custom(Forbidden, AccountBlocked)))
  {
  }

  // ---------------------------------------------------------------------
  // OAuth sign-in.

  /** The record `handleOAuthFlow` creates for an unknown e-mail: verified,
      with the requested role, and the extra data the caller adds (the
      client's profile picture). */
  function OAuthUser(email: string, name: string, profile: Option<string>, role: Role): (a: Account)
    ensures a.email == Some(email) && a.name == Some(name) && a.isVerified == Some(true) && a.role == Some(role)
    ensures a.password.None? && a.id.None?
  {
    Blank.(email := Some(email), name := Some(name), isVerified := Some(true), role := Some(role), profile := profile)
  }

  /** `handleOAuthFlow`: an unknown e-mail is registered as a verified user
      of the role (after the role's own field checks) and gets tokens; a
      known one must pass the gate first. */
  function HandleOAuthFlow<S>(repo: Repository<S>, svc: Services, st: AuthState<S>, email: string, name: string,
                              profile: Option<string>, role: Role, specific: Account -> Check): (r: Step<S>)
    ensures r.state.otps == st.otps && r.state.outbox == st.outbox
    ensures repo.findByEmailWithCredentials(st.users, email).Some? ==> r.state.users == st.users
    ensures repo.findByEmailWithCredentials(st.users, email).Some? ==>
              (r.result.Ok? <==> Gate(repo.findByEmailWithCredentials(st.users, email).value, role).Pass? &&
                                 GenerateTokens(svc, repo.findByEmailWithCredentials(st.users, email).value).Ok?)
    ensures repo.findByEmailWithCredentials(st.users, email).None? && r.result.Ok? ==>
              (specific(OAuthUser(email, name, profile, role)).Pass? &&
               repo.create(st.users, OAuthUser(email, name, profile, role)).Ok? &&
               r.state.users == repo.create(st.users, OAuthUser(email, name, profile, role)).value.users)
  {
    match repo.findByEmailWithCredentials(st.users, email)
    case None =>
      var data := OAuthUser(email, name, profile, role);
      var c := specific(data);
      if c.Fail? then Step(st, Err(c.error))
      else
        (match repo.create(st.users, data)
         case Err(e) => Step(st, Err(e))
         case Ok(created) => Step(st.(users := created.users), GenerateTokens(svc, created.account)))
    case Some(user) =>
      var g := Gate(user, role);
      if g.Fail? then Step(st, Err(g.error))
      else Step(st, GenerateTokens(svc, user))
  }

  // ---------------------------------------------------------------------
  // Registration checks.

  /** A field named in `requiredFields`. */
  datatype Field = EmailField | PasswordField | NameField | QualificationsField

  /** Whether the field is not `undefined` in the record. */
  predicate Defined(a: Account, f: Field) {
    match f
    case EmailField => a.email.Some?
    case PasswordField => a.password.Some?
    case NameField => a.name.Some?
    case QualificationsField => a.qualifications.Some?
  }

  /** `IValidationConfig`. */
  datatype RegistrationConfig = RegistrationConfig(
    requiredFields: seq<Field>,
    phoneRequired: bool,
    customValidations: seq<Account -> Check>)

  /** Every field that must be present: password, name and e-mail, then
      the configured ones. */
  function RequiredDefined(data: Account, config: RegistrationConfig): (d: seq<bool>)
    ensures |d| == 3 + |config.requiredFields|
    ensures forall k :: 0 <= k < |config.requiredFields| ==> d[3 + k] == Defined(data, config.requiredFields[k])
  {
    [data.password.Some?, data.name.Some?, data.email.Some?] +
      seq(|config.requiredFields|, k requires 0 <= k < |config.requiredFields| => Defined(data, config.requiredFields[k]))
  }

  /** The configured custom validations applied to the record, in order. */
  function CustomChecks(data: Account, config: RegistrationConfig): (cs: seq<Check>)
    ensures |cs| == |config.customValidations|
    ensures forall i :: 0 <= i < |cs| ==> cs[i] == config.customValidations[i](data)
  {
    seq(|config.customValidations|, i requires 0 <= i < |config.customValidations| => config.customValidations[i](data))
  }

  /** `validateRegistrationFields`: required fields, e-mail format, password
      strength, a name of 3..20 characters, the phone (only when the
      configuration asks for it and one is given), the custom validations in
      order, and last the role's own field checks. */
  function ValidateRegistrationFields(data: Account, config: RegistrationConfig, specific: Account -> Check,
                                      isEmail: string -> bool): (c: Check)
    ensures !(data.password.Some? && data.name.Some? && data.email.Some?) ==>
              c == Fail(Custom(BadRequest, Validators.RequiredMessage))
    ensures c.Pass? <==>
              (forall k :: 0 <= k < |config.requiredFields| ==> Defined(data, config.requiredFields[k])) &&
              data.password.Some? && data.name.Some? && data.email.Some? &&
              data.email.value != "" && isEmail(data.email.value) &&
              Validators.IsStrongPassword(data.password.value) &&
              data.name.value != "" && 3 <= |data.name.value| <= 20 &&
              (config.phoneRequired && Truthy(data.phone) ==> 4 <= |data.phone.value| <= 15) &&
              (forall i :: 0 <= i < |config.customValidations| ==> config.customValidations[i](data).Pass?) &&
              specific(data).Pass?
  {
    var defined := RequiredDefined(data, config);
    var required := Validators.ValidateRequiredFields(defined);
    if required.Fail? then required
    else
      assert defined[0] && defined[1] && defined[2];
      var standard :=
        Then(Validators.ValidateEmailFormat(data.email.value, isEmail),
             Then(Validators.ValidatePassword(data.password.value),
                  Validators.ValidateLength(data.name.value, 3, Some(20))));
      var phone := if config.phoneRequired && Truthy(data.phone) then Validators.ValidatePhoneNumber(data.phone.value) else Pass;
      Then(standard, Then(phone, Then(InOrder(CustomChecks(data, config)), specific(data))))
  }
}
