/** The lawyer's authentication use case (`LawyerAuthenticationUseCase`):
    password login, code login, resending a code, registration, the
    profile image and token refresh. */
module LawyerAuth {

  import opened Outcome
  import opened Accounts
  import opened Auth
  import Validators
  import Email
  import Records
  import Text
  import LawyerStore

  const LawyerNotFound: string := "Lawyer not found"
  const AlreadyVerified: string := "Email is already verified"
  const OtpValidationFailed: string := "OTP validation failed"
  const TokensMissing: string := "Failed to generate tokens"
  const SendOtpFailed: string := "Failed to send OTP"
  const EmailExists: string := "Email already exists"
  const DuplicateKey: string := "duplicate key"
  const CreatedPrefix: string := "Lawyer created successfully with ID "
  const QualificationRequired: string := "At least one qualification is required"
  const ImageUpdateFailed: string := "Failed to update profile image"
  const RefreshFailed: string := "Failed to refresh token"

  /** What separates the storage host from the object key in an image URL. */
  const KeySeparator: string := "amazonaws.com/"

  /** `DEFAULT_VALIDATION_CONFIG`: qualifications are required as well. */
  const LawyerConfig: RegistrationConfig :=
    RegistrationConfig([EmailField, PasswordField, NameField, QualificationsField], true, [])

  /** The checks on each qualification, in order. */
  function QualificationChecks(qs: seq<string>): (cs: seq<Check>)
    ensures |cs| == |qs|
    ensures forall i :: 0 <= i < |qs| ==> cs[i] == Validators.ValidateLength(qs[i], 2, Some(100))
  {
    seq(|qs|, i requires 0 <= i < |qs| => Validators.ValidateLength(qs[i], 2, Some(100)))
  }

  /** `validateUserSpecificFields`: a given phone must be 4..15 characters;
      each given qualification must be 2..100 characters, and a given list
      must not be empty. An absent list is not checked. */
  function ValidateUserSpecificFields(data: Account): (c: Check)
    ensures c.Pass? <==>
              (!Truthy(data.phone) || 4 <= |data.phone.value| <= 15) &&
              (data.qualifications.Some? ==>
                 |data.qualifications.value| > 0 &&
                 forall i :: 0 <= i < |data.qualifications.value| ==>
                   (data.qualifications.value[i] != "" && 2 <= |data.qualifications.value[i]| <= 100))
    ensures Truthy(data.phone) ==> 4 <= |data.phone.value| <= 15 ==> (data.qualifications == Some([]) ==>
              c == Fail(Custom(BadRequest, QualificationRequired)))
  {
    var phone := if Truthy(data.phone) then Validators.ValidatePhoneNumber(data.phone.value) else Pass;
    var qualifications :=
      match data.qualifications
      case None => Pass
      case Some(qs) => Then(InOrder(QualificationChecks(qs)), Need(|qs| != 0, BadRequest, QualificationRequired));
    Then(phone, qualifications)
  }

  /** `login`: the shared password flow for the lawyer role. The validation
      settings the source passes along are not used by that flow. */
  function Login<S>(repo: Repository<S>, svc: Services, st: AuthState<S>, email: string, password: string, env: Env): (r: Step<S>)
    ensures r == HandleAuthFlow(repo, svc, st, email, password, Lawyer, env)
    ensures r.result.Ok? ==> r.result.value.accessToken.None?
  {
    HandleAuthFlow(repo, svc, st, email, password, Lawyer, env)
  }

  /** Whether a response carries both tokens, non-empty. */
  predicate HasTokens(response: AuthResponse) {
    Truthy(response.accessToken) && Truthy(response.refreshToken)
  }

  /** The catch of `validateOtpAndLogin`: a `CustomError` is passed on as
      it is, anything else becomes 401 "OTP validation failed". */
  function AsCustom(e: Error): (f: Error)
    ensures f.Custom?
    ensures e.Custom? ==> f == e
    ensures e.Plain? ==> f == Custom(Unauthorized, OtpValidationFailed)
  {
    if e.Custom? then e else Custom(Unauthorized, OtpValidationFailed)
  }

  /** `validateOtpAndLogin`: the code login as a lawyer; every failure it
      reports is a `CustomError`. */
  function ValidateOtpAndLogin<S>(repo: Repository<S>, svc: Services, st: AuthState<S>, email: string, code: string, now: int): (r: Step<S>)
    ensures r.state == HandleOtpFlow(repo, svc, st, email, code, Lawyer, now).state
    ensures r.result.Err? ==> r.result.error.Custom?
    ensures HandleOtpFlow(repo, svc, st, email, code, Lawyer, now).result.Err? ==>
              r.result == Err(AsCustom(HandleOtpFlow(repo, svc, st, email, code, Lawyer, now).result.error))
    ensures r.result.Ok? ==> HasTokens(r.result.value)
  {
    var s := HandleOtpFlow(repo, svc, st, email, code, Lawyer, now);
    match s.result
    case Err(e) => Step(s.state, Err(AsCustom(e)))
    case Ok(response) =>
      if !HasTokens(response) then Step(s.state, Err(Custom(InternalServerError, TokensMissing)))
      else Step(s.state, Ok(AuthResponse(response.accessToken, response.refreshToken, None, None)))
  }

  /** The code settings of a lawyer's resend. */
  const ResendConfig: OtpConfig := OtpConfig(None, Some(10), Some("verification"))

  /** `resendOtp`: an unknown lawyer is 404, a verified one 400 when the
      resend is for verification; otherwise a code of type "verification"
      valid for 10 minutes is issued, and a failure to issue it is 500. */
  function ResendOtp<S>(repo: Repository<S>, st: AuthState<S>, email: string, isForVerification: bool, env: Env): (r: Step<S>)
    ensures r.state.users == st.users
    ensures repo.findByEmail(st.users, email).None? ==> r == Step(st, Err(Custom(NotFound, LawyerNotFound)))
    ensures repo.findByEmail(st.users, email).Some? && isForVerification &&
            repo.findByEmail(st.users, email).value.isVerified == Some(true) ==>
              r == Step(st, Err(Custom(BadRequest, AlreadyVerified)))
    ensures r.result.Err? && repo.findByEmail(st.users, email).Some? &&
            !(isForVerification && repo.findByEmail(st.users, email).value.isVerified == Some(true)) ==>
              r.result.error == Custom(InternalServerError, SendOtpFailed)
    ensures r.result.Ok? ==>
              |r.state.otps| == |st.otps| + 1 &&
              r.state.otps[|st.otps|].expiry == env.now + 10 * MinuteMs
  {
    match repo.findByEmail(st.users, email)
    case None => Step(st, Err(Custom(NotFound, LawyerNotFound)))
    case Some(lawyer) =>
      if isForVerification && lawyer.isVerified == Some(true) then Step(st, Err(Custom(BadRequest, AlreadyVerified)))
      else
        var s := IssueOtp(st, email, TextOr(lawyer.name, ""), ResendConfig, env);
        if s.result.Err? then Step(s.state, Err(Custom(InternalServerError, SendOtpFailed))) else s
  }

  /** The message `register` answers with; an absent id prints as
      "undefined". */
  function CreatedMessage(id: Option<string>): (m: string)
    ensures Text.StartsWith(m, CreatedPrefix)
  {
    var m := CreatedPrefix + (match id case Some(i) => i case None => "undefined");
    assert m[..|CreatedPrefix|] == CreatedPrefix;
    m
  }

  /** The catch of `register`: an error whose message mentions a duplicate
      key becomes 409 "Email already exists"; others pass on. */
  function DuplicateAsConflict(e: Error): (f: Error)
    ensures Text.Contains(e.message, DuplicateKey) ==> f == Custom(Conflict, EmailExists)
    ensures !Text.Contains(e.message, DuplicateKey) ==> f == e
  {
    if Text.Contains(e.message, DuplicateKey) then Custom(Conflict, EmailExists) else e
  }

  /** `register`: validate the fields (qualifications included), then
      store the lawyer with the password hashed. */
  function Register<S>(repo: Repository<S>, svc: Services, users: S, data: Account): (r: Result<Created<S>>)
    ensures ValidateRegistrationFields(data, LawyerConfig, ValidateUserSpecificFields, svc.isEmail).Fail? ==>
              r == Err(ValidateRegistrationFields(data, LawyerConfig, ValidateUserSpecificFields, svc.isEmail).error)
    ensures ValidateRegistrationFields(data, LawyerConfig, ValidateUserSpecificFields, svc.isEmail).Pass? ==>
              (match repo.create(users, data.(password := Some(svc.hash(data.password.value))))
               case Ok(c) => r == Ok(c)
               case Err(e) => r == Err(DuplicateAsConflict(e)))
  {
    var v := ValidateRegistrationFields(data, LawyerConfig, ValidateUserSpecificFields, svc.isEmail);
    if v.Fail? then Err(v.error)
    else
      match repo.create(users, data.(password := Some(svc.hash(data.password.value))))
      case Err(e) => Err(DuplicateAsConflict(e))
      case Ok(c) => Ok(c)
  }

  /** Registration validation refuses an empty qualification list, and
      accepts a missing one (which the required-field check then refuses
      as missing). */
  lemma QualificationsRequired(data: Account, svc: Services)
    requires data.qualifications == Some([])
    ensures ValidateRegistrationFields(data, LawyerConfig, ValidateUserSpecificFields, svc.isEmail).Fail?
    ensures data.qualifications.Some? ==> ValidateUserSpecificFields(data).Fail?
  {
  }

  // ---------------------------------------------------------------------
  // The profile image.

  /** The storage location of the images. */
  datatype Bucket = Bucket(name: string, region: string)

  /** The public URL of an uploaded object. */
  function ImageUrl(bucket: Bucket, key: string): (url: string)
    ensures Text.EndsWith(url, KeySeparator + key)
  {
    var url := "https://" + bucket.name + ".s3." + bucket.region + "." + KeySeparator + key;
    assert url[|url| - |KeySeparator + key|..] == KeySeparator + key;
    url
  }

  /** `split("amazonaws.com/").pop()`: the key of a stored image URL. */
  function OldKey(url: string): string {
    Text.AfterLast(url, KeySeparator)
  }

  /** The outcome of `updateProfileImage`: the users after it, the object
      key it asked the storage to delete (if any), and its result. */
  datatype ImageStep<S> = ImageStep(users: S, deleted: Option<string>, result: Result<string>)

  /** `updateProfileImage`: validate the id, find the lawyer (404), delete
      the old image if there is one, and store the new URL. A storage or
      store failure is 500. */
  function UpdateProfileImage<S>(repo: Repository<S>, users: S, id: string, key: string, bucket: Bucket,
                                 deleteFile: string -> Result<()>): (r: ImageStep<S>)
    ensures !Validators.IsIdText(id) ==> r == ImageStep(users, None, Err(Custom(BadRequest, Validators.IdMessage)))
    ensures Validators.IsIdText(id) && repo.findById(users, id).None? ==>
              r == ImageStep(users, None, Err(Custom(NotFound, LawyerNotFound)))
    ensures r.deleted.Some? ==>
              (repo.findById(users, id).Some? && Truthy(repo.findById(users, id).value.profileImage) &&
               r.deleted.value == OldKey(repo.findById(users, id).value.profileImage.value))
    ensures r.result.Ok? ==>
              (r.result.value == ImageUrl(bucket, key) && repo.findById(users, id).Some? &&
               Ok(r.users) == repo.update(users, id, repo.findById(users, id).value.(profileImage := Some(ImageUrl(bucket, key)))))
    ensures r.result.Err? ==> r.users == users
  {
    if Validators.ValidateIdFormat(id).Fail? then ImageStep(users, None, Err(Validators.ValidateIdFormat(id).error))
    else
      match repo.findById(users, id)
      case None => ImageStep(users, None, Err(Custom(NotFound, LawyerNotFound)))
      case Some(lawyer) =>
        var deleted := if Truthy(lawyer.profileImage) then Some(OldKey(lawyer.profileImage.value)) else None;
        var cleared := if deleted.Some? then deleteFile(deleted.value) else Ok(());
        if cleared.Err? then ImageStep(users, deleted, Err(Custom(InternalServerError, ImageUpdateFailed)))
        else
          var url := ImageUrl(bucket, key);
          match repo.update(users, id, lawyer.(profileImage := Some(url)))
          case Err(_) => ImageStep(users, deleted, Err(Custom(InternalServerError, ImageUpdateFailed)))
          case Ok(after) => ImageStep(after, deleted, Ok(url))
  }

  /** "amazonaws.com/" cannot overlap a shifted copy of itself. */
  lemma SeparatorDoesNotOverlap()
    ensures Text.NoSelfOverlap(KeySeparator)
  {
    forall d | 0 < d < |KeySeparator|
      ensures KeySeparator[d..] != KeySeparator[..|KeySeparator| - d]
    {
      assert KeySeparator[d..][|KeySeparator| - d - 1] == '/';
      assert KeySeparator[..|KeySeparator| - d][|KeySeparator| - d - 1] != '/';
    }
  }

  /** The key a later update deletes is the key this update stored: the
      URL round-trips to its key whenever the key holds no
      "amazonaws.com/". */
  lemma OldKeyOfImageUrl(bucket: Bucket, key: string)
    requires !Text.Contains(key, KeySeparator)
    ensures OldKey(ImageUrl(bucket, key)) == key
  {
    SeparatorDoesNotOverlap();
    var prefix := "https://" + bucket.name + ".s3." + bucket.region + ".";
    assert ImageUrl(bucket, key) == prefix + KeySeparator + key;
    Text.AfterLastOfSuffix(prefix, KeySeparator, key);
  }

  /** With the lawyer repository, which does not hand out the stored image,
      the old image is never deleted. */
  lemma StoredImageNeverDeleted(rows: LawyerStore.Lawyers, mint: nat -> string, now: int, uniqueError: string,
                                id: string, key: string, bucket: Bucket, deleteFile: string -> Result<()>)
    ensures UpdateProfileImage(LawyerStore.Repo(mint, now, uniqueError), rows, id, key, bucket, deleteFile).deleted.None?
  {
    var repo := LawyerStore.Repo(mint, now, uniqueError);
    assert repo.findById(rows, id) == LawyerStore.FindById(rows, id);
  }

  /** `refreshToken`: every failure, an unknown lawyer included, is 401
      "Failed to refresh token"; new tokens are signed for the lawyer role. */
  function RefreshToken<S>(repo: Repository<S>, svc: Services, users: S, token: string): (r: Result<Tokens>)
    ensures r.Err? ==> r.error == Custom(Unauthorized, RefreshFailed)
    ensures r.Ok? <==>
              (svc.verifyRefresh(token).Ok? && repo.findById(users, svc.verifyRefresh(token).value.id).Some? &&
               CreateAuthTokens(svc, svc.verifyRefresh(token).value.email, svc.verifyRefresh(token).value.id, Lawyer).Ok?)
    ensures r.Ok? ==>
              r.value.accessToken == svc.accessToken(svc.verifyRefresh(token).value.email, svc.verifyRefresh(token).value.id, Lawyer)
  {
    match svc.verifyRefresh(token)
    case Err(_) => Err(Custom(Unauthorized, RefreshFailed))
    case Ok(claims) =>
      if repo.findById(users, claims.id).None? then Err(Custom(Unauthorized, RefreshFailed))
      else
        match CreateAuthTokens(svc, claims.email, claims.id, Lawyer)
        case Err(_) => Err(Custom(Unauthorized, RefreshFailed))
        case Ok(t) => Ok(t)
  }

  const ResetMailFailed: string := "Failed to send password reset email"
  const PasswordUpdateFailed: string := "Failed to update password"
  const ResetPath: string := "/lawyer/reset-password"

  /** `forgotPassword`: an unknown lawyer is 404; otherwise the reset mail
      goes to the e-mail with the lawyer's reset link, and a failure to send
      it is 500. */
  function ForgotPassword<S>(repo: Repository<S>, users: S, email: string, clientUrl: string, mailSent: bool): (r: Result<Email.MailRequest>)
    ensures repo.findByEmail(users, email).None? <==> r == Err(Custom(NotFound, LawyerNotFound))
    ensures repo.findByEmail(users, email).Some? && !mailSent ==> r == Err(Custom(InternalServerError, ResetMailFailed))
    ensures r.Ok? <==> repo.findByEmail(users, email).Some? && mailSent
    ensures r.Ok? ==> (r.value.email == email && r.value.link == Some(clientUrl + ResetPath) &&
                       r.value.name == repo.findByEmail(users, email).value.name.GetOr("") &&
                       r.value.subject == Email.SubjectFor("reset"))
  {
    match repo.findByEmail(users, email)
    case None => Err(Custom(NotFound, LawyerNotFound))
    case Some(lawyer) =>
      if mailSent then Ok(Email.ResetRequest(email, lawyer.name.GetOr(""), clientUrl + ResetPath))
      else Err(Custom(InternalServerError, ResetMailFailed))
  }

  /** `updatePassword`: the shared password update; any failure, an unknown
      e-mail included, is 500 "Failed to update password". */
  function UpdatePassword<S>(repo: Repository<S>, svc: Services, users: S, email: string, newPassword: string): (r: Result<S>)
    ensures r.Err? <==> HandlePasswordUpdate(repo, svc, users, email, newPassword).Err?
    ensures r.Err? ==> r.error == Custom(InternalServerError, PasswordUpdateFailed)
    ensures r.Ok? ==> r == HandlePasswordUpdate(repo, svc, users, email, newPassword)
  {
    match HandlePasswordUpdate(repo, svc, users, email, newPassword)
    case Err(_) => Err(Custom(InternalServerError, PasswordUpdateFailed))
    case Ok(after) => Ok(after)
  }

  /** A lawyer's new password is what the next password login compares
      against: the lawyer store has no password update of its own, and the
      whole-record update writes the hash into the user row. */
  lemma PasswordUpdateReadBack(rows: LawyerStore.Lawyers, mint: nat -> string, now: int, uniqueError: string,
                               svc: Services, email: string, newPassword: string)
    requires LawyerStore.FindByEmail(rows, email).Some?
    requires svc.hash(newPassword) != ""
    ensures var repo := LawyerStore.Repo(mint, now, uniqueError);
            var r := UpdatePassword(repo, svc, rows, email, newPassword);
            r.Ok? && LawyerStore.FindByEmailWithCredentials(r.value, email).Some? &&
            LawyerStore.FindByEmailWithCredentials(r.value, email).value.password == Some(svc.hash(newPassword))
  {
    var repo := LawyerStore.Repo(mint, now, uniqueError);
    var user := LawyerStore.FindByEmail(rows, email).value;
    assert repo.findByEmail(rows, email) == LawyerStore.FindByEmail(rows, email);
    var k := Records.FirstIndex(rows, (row: LawyerStore.LawyerRow) => LawyerStore.HasEmail(row, email));
    assert user == LawyerStore.ToLawyer(rows[k]);
    var patch := user.(password := Some(svc.hash(newPassword)));
    var id := user.id.GetOr("");
    assert id == rows[k].id;
    var j := Records.FirstIndex(rows, (row: LawyerStore.LawyerRow) => LawyerStore.HasId(row, id));
    assert j <= k;
    assert repo.update(rows, id, patch) == LawyerStore.Update(rows, id, patch);
    var after := LawyerStore.Update(rows, id, patch).value;
    assert LawyerStore.TouchesUser(patch);
    assert after[j].user.email == email && after[j].user.password == svc.hash(newPassword);
    assert forall i :: 0 <= i < j ==> after[i] == rows[i];
    assert Records.FirstIndex(after, (row: LawyerStore.LawyerRow) => LawyerStore.HasEmail(row, email)) == j;
  }

  // ---------------------------------------------------------------------
  // The password check of the login.

  /** As written, the lookup a password login makes hands out no stored
      password, so the password service is asked to compare against
      nothing; a service that refuses that (as hashing libraries do)
      refuses every lawyer's password login. */
  lemma PasswordLoginRefusedAsWritten(mint: nat -> string, now: int, uniqueError: string, svc: Services,
                                      st: AuthState<LawyerStore.Lawyers>, email: string, password: string, env: Env)
    requires svc.compare(password, None) != Ok(true)
    ensures Login(LawyerStore.RepoAsWritten(mint, now, uniqueError), svc, st, email, password, env).result.Err?
  {
    var repo := LawyerStore.RepoAsWritten(mint, now, uniqueError);
    assert repo.findByEmailWithCredentials(st.users, email) == LawyerStore.FindByEmail(st.users, email);
  }

  /** With the stored password handed out, a verified, unblocked lawyer
      whose password matches is sent a login code. */
  lemma PasswordLoginAccepted(mint: nat -> string, now: int, uniqueError: string, svc: Services,
                              st: AuthState<LawyerStore.Lawyers>, email: string, password: string, env: Env)
    requires LawyerStore.FindByEmailWithCredentials(st.users, email).Some?
    requires var lawyer := LawyerStore.FindByEmailWithCredentials(st.users, email).value;
             lawyer.role == Some(Lawyer) && lawyer.isBlocked == Some(false) && lawyer.isVerified == Some(true) &&
             ValidateCredentials(svc, email, password, lawyer.password).Pass?
    requires env.otpStoreError.None?
    ensures var r := Login(LawyerStore.Repo(mint, now, uniqueError), svc, st, email, password, env);
            r.result == Ok(AuthResponse(None, None, Some(CheckEmail), Some(email))) &&
            |r.state.otps| == |st.otps| + 1
  {
    var repo := LawyerStore.Repo(mint, now, uniqueError);
    assert repo.findByEmailWithCredentials(st.users, email) == LawyerStore.FindByEmailWithCredentials(st.users, email);
  }

  /** With the repository's update as written, a lawyer who logs in with a
      code while unverified is let in, but stays unverified in the store. */
  lemma OtpLoginDoesNotPersistVerification(rows: LawyerStore.Lawyers, id: string)
    requires LawyerStore.FindById(rows, id).Some?
    ensures LawyerStore.UpdateAsWritten(rows, id, LawyerStore.FindById(rows, id).value.(isVerified := Some(true))) ==
              LawyerStore.UpdateAsWritten(rows, id, LawyerStore.FindById(rows, id).value)
  {
  }
}
