/** The e-mail service (`EmailService`): which template and subject an OTP
    mail gets, and what is handed to the mail transport.

    Joining paths (`path.join`) is a parameter; the transport itself, the
    template files and the clock are outside the model, and the current
    year is passed in. */
module Email {

  import opened Outcome
  import opened Text
  import opened Numbers

  const DefaultTemplate: string := "otpEmailTemplate.html"
  const LoginTemplate: string := "login-verification.html"
  const ResetTemplate: string := "resetPasswordTemplate.html"
  const SubjectPrefix: string := "No Reply Mail: "

  /** What an OTP mail is about (`OtpMailProps`). */
  datatype OtpMail = OtpMail(code: string, expiry: int, email: string, name: string, otpType: string)

  /** A mail request (`SendMailProps`); `pathOfTemplate` may be empty. */
  datatype MailRequest = MailRequest(
    email: string,
    name: string,
    subject: string,
    pathOfTemplate: string,
    link: Option<string>,
    otp: Option<Option<int>>,
    year: Option<int>)

  /** What reaches the mail transport: the request with the template path
      resolved against the template directory. */
  datatype Delivery = Delivery(
    email: string,
    name: string,
    subject: string,
    templateFile: string,
    link: Option<string>,
    otp: Option<Option<int>>,
    year: Option<int>)

  /** The template an OTP mail of this type uses. */
  function TemplateFor(otpType: string): (t: string)
    ensures t == LoginTemplate <==> otpType == "login"
    ensures t == ResetTemplate <==> otpType == "reset"
    ensures t == DefaultTemplate <==> otpType != "login" && otpType != "reset"
  {
    if otpType == "login" then LoginTemplate
    else if otpType == "reset" then ResetTemplate
    else if otpType == "register" then DefaultTemplate
    else DefaultTemplate
  }

  /** The subject an OTP mail of this type gets. */
  function SubjectFor(otpType: string): (s: string)
    ensures StartsWith(s, SubjectPrefix)
    ensures s == SubjectPrefix + "Password Reset" <==> otpType == "reset"
    ensures s == SubjectPrefix + "Email Verification" <==> otpType == "register"
    ensures s == SubjectPrefix + "OTP Verification" <==> otpType != "reset" && otpType != "register"
  {
    var tail := if otpType == "reset" then "Password Reset"
                else if otpType == "register" then "Email Verification"
                else "OTP Verification";
    assert (SubjectPrefix + tail)[..|SubjectPrefix|] == SubjectPrefix;
    assert SubjectPrefix + "Password Reset" != SubjectPrefix + "Email Verification" by {
      assert (SubjectPrefix + "Password Reset")[|SubjectPrefix|] == 'P';
    }
    assert SubjectPrefix + "Password Reset" != SubjectPrefix + "OTP Verification" by {
      assert (SubjectPrefix + "Password Reset")[|SubjectPrefix|] == 'P';
      assert (SubjectPrefix + "OTP Verification")[|SubjectPrefix|] == 'O';
    }
    assert SubjectPrefix + "Email Verification" != SubjectPrefix + "OTP Verification" by {
      assert (SubjectPrefix + "Email Verification")[|SubjectPrefix|] == 'E';
    }
    SubjectPrefix + tail
  }

  /** The relative template path the password-reset mails name. */
  const ResetTemplatePath: string := "../../../public/resetPasswordTemplate.html"

  /** The request of a password-reset mail: the reset template, the reset
      subject and the link to the reset page; no code and no year. */
  function ResetRequest(email: string, name: string, link: string): (r: MailRequest)
    ensures r.email == email && r.name == name && r.link == Some(link)
    ensures r.subject == SubjectFor("reset") && EndsWith(r.pathOfTemplate, ResetTemplate)
    ensures r.otp.None? && r.year.None?
  {
    assert ResetTemplatePath == "../../../public/" + ResetTemplate;
    assert ResetTemplatePath[|ResetTemplatePath| - |ResetTemplate|..] == ResetTemplate;
    MailRequest(email, name, SubjectPrefix + "Password Reset", ResetTemplatePath, Some(link), None, None)
  }

  /** `sendMail`: an empty template path falls back to the default template;
      the path is resolved in the template directory. */
  function SendMail(request: MailRequest, templateDir: string, join: (string, string) -> string): (d: Delivery)
    ensures request.pathOfTemplate == "" ==> d.templateFile == join(templateDir, DefaultTemplate)
    ensures request.pathOfTemplate != "" ==> d.templateFile == join(templateDir, request.pathOfTemplate)
    ensures d.email == request.email && d.name == request.name && d.subject == request.subject
    ensures d.link == request.link && d.otp == request.otp && d.year == request.year
  {
    var fullPath := if request.pathOfTemplate != "" then join(templateDir, request.pathOfTemplate)
                    else join(templateDir, DefaultTemplate);
    Delivery(request.email, request.name, request.subject, fullPath,
             request.link, request.otp, request.year)
  }

  /** The request `sendOtp` builds for an OTP mail. */
  function OtpRequest(mail: OtpMail, currentYear: int): (r: MailRequest)
    ensures r.email == mail.email && r.name == mail.name
    ensures r.pathOfTemplate == TemplateFor(mail.otpType)
    ensures r.subject == SubjectFor(mail.otpType)
    ensures r.otp == Some(ParseInt(mail.code)) && r.year == Some(currentYear)
    ensures r.link.None?
  {
    MailRequest(mail.email, mail.name, SubjectFor(mail.otpType), TemplateFor(mail.otpType),
                None, Some(ParseInt(mail.code)), Some(currentYear))
  }

  /** `sendOtp`: the delivery for an OTP mail. */
  function SendOtp(mail: OtpMail, currentYear: int, templateDir: string, join: (string, string) -> string): (d: Delivery)
    ensures d.templateFile == join(templateDir, TemplateFor(mail.otpType))
    ensures d.subject == SubjectFor(mail.otpType)
    ensures d.email == mail.email && d.name == mail.name
    ensures d.otp == Some(ParseInt(mail.code)) && d.year == Some(currentYear)
  {
    SendMail(OtpRequest(mail, currentYear), templateDir, join)
  }

  /** The four OTP types the use cases issue, and what each one gets:
      registration and the lawyer's verification share the default template
      but not the subject. */
  lemma OtpTypesTable()
    ensures TemplateFor("login") == LoginTemplate && SubjectFor("login") == SubjectPrefix + "OTP Verification"
    ensures TemplateFor("register") == DefaultTemplate && SubjectFor("register") == SubjectPrefix + "Email Verification"
    ensures TemplateFor("reset") == ResetTemplate && SubjectFor("reset") == SubjectPrefix + "Password Reset"
    ensures TemplateFor("verification") == DefaultTemplate && SubjectFor("verification") == SubjectPrefix + "OTP Verification"
  {
  }

  /** An OTP mail always names a template, so the default path of
      `sendMail` is only reached through the type's own choice. */
  lemma OtpMailNamesTemplate(mail: OtpMail)
    ensures OtpRequest(mail, 0).pathOfTemplate != ""
  {
  }

  /** The mailed number prints back as the code for every code the
      backend issues: six digits without a leading zero. */
  lemma {:induction false} MailedCodeReadsBack(n: nat, mail: OtpMail, currentYear: int, templateDir: string, join: (string, string) -> string)
    requires 100000 <= n <= 999999 && mail.code == DecimalString(n)
    ensures SendOtp(mail, currentYear, templateDir, join).otp == Some(Some(n))
    ensures DecimalString(SendOtp(mail, currentYear, templateDir, join).otp.value.value) == mail.code
  {
    ReadDecimal(n);
  }
}
