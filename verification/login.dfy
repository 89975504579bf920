/**
  The login page: a two-step one-time-password exchange. Step one takes a
  10-digit mobile number and asks the server to send an OTP; step two takes
  the 6-digit OTP and, when the server answers with a token, stores the session.
 */
module Login {
  import opened Wrappers
  import opened Text
  import opened Remote
  import opened Session

  const MobileLength: nat := 10
  const OtpLength: nat := 6

  const DashboardRoute: string := "/dashboard"

  /** The page's state; `otpSent` selects which step is shown. */
  datatype LoginForm = LoginForm(mobile: string, otp: string, otpSent: bool, loading: bool)

  const InitialForm: LoginForm := LoginForm("", "", false, false)

  /** The reply body of the generate call: an optional `message`. */
  datatype GenerateBody = GenerateBody(message: Option<string>)

  /** The reply body of the validate call. */
  datatype ValidateBody = ValidateBody(token: Option<string>, userId: Option<string>, message: Option<string>)

  datatype ValidateRequest = ValidateRequest(mobileNumber: string, otp: string)

  /** `request` is the `mobile_number` sent, when a request is made. */
  datatype GenerateStep = GenerateStep(form: LoginForm, request: Option<string>, notice: Notice)

  datatype ValidateStep = ValidateStep(
    form: LoginForm,
    storage: Storage,
    request: Option<ValidateRequest>,
    notice: Notice,
    navigateTo: Option<string>)

  const InvalidMobile: Notice := Notice("Invalid mobile number", "Please enter a valid 10-digit mobile number", true)
  const SendThrew: Notice := Notice("Error", "Failed to send OTP. Please try again.", true)
  const OtpSentNotice: Notice := Notice("OTP Sent", "Please check your mobile for the OTP", false)
  const InvalidOtp: Notice := Notice("Invalid OTP", "Please enter a valid 6-digit OTP", true)
  const ValidateThrew: Notice := Notice("Error", "Failed to validate OTP. Please try again.", true)
  const Welcome: Notice := Notice("Login Successful", "Welcome to Document Management System", false)

  /** The mobile input's `onChange`: digits only, at most ten. */
  function EditMobile(f: LoginForm, raw: string): (r: LoginForm)
    ensures AllDigits(r.mobile) && |r.mobile| <= MobileLength
    ensures r.mobile == KeepDigits(raw, MobileLength)
    ensures AllDigits(raw) && |raw| <= MobileLength ==> r.mobile == raw
    ensures r.(mobile := f.mobile) == f
  {
    f.(mobile := KeepDigits(raw, MobileLength))
  }

  /** The OTP input's `onChange`: digits only, at most six. */
  function EditOtp(f: LoginForm, raw: string): (r: LoginForm)
    ensures AllDigits(r.otp) && |r.otp| <= OtpLength
    ensures r.otp == KeepDigits(raw, OtpLength)
    ensures AllDigits(raw) && |raw| <= OtpLength ==> r.otp == raw
    ensures r.(otp := f.otp) == f
  {
    f.(otp := KeepDigits(raw, OtpLength))
  }

  /** `handleGenerateOTP`, used both by "Send OTP" and by "Resend OTP". A
      number that is not ten characters long is refused before any request;
      otherwise only an ok reply moves the page to the OTP step. */
  function GenerateOtp(f: LoginForm, reply: Reply<GenerateBody>): (r: GenerateStep)
    ensures r.request.Some? <==> |f.mobile| == MobileLength
    ensures r.request.Some? ==> r.request.value == f.mobile
    ensures |f.mobile| != MobileLength ==> r.form == f && r.notice == InvalidMobile
    ensures |f.mobile| == MobileLength ==> !r.form.loading
    ensures r.form.otpSent <==> f.otpSent || (r.request.Some? && reply.Answered? && reply.ok)
    ensures r.form.mobile == f.mobile && r.form.otp == f.otp
    ensures r.request.Some? && reply.Threw? ==> r.notice == SendThrew
    ensures r.request.Some? && reply.Answered? && reply.ok ==> r.notice == OtpSentNotice
    ensures r.request.Some? && reply.Answered? && !reply.ok ==>
              r.notice == Notice("Error", OrElse(reply.body.message, "Failed to send OTP"), true)
  {
    if f.mobile == "" || |f.mobile| != MobileLength then
      GenerateStep(f, None, InvalidMobile)
    else
      match reply
      case Threw =>
        GenerateStep(f.(loading := false), Some(f.mobile),
                     SendThrew)
      case Answered(ok, body) =>
        if ok then
          GenerateStep(f.(otpSent := true, loading := false), Some(f.mobile),
                       OtpSentNotice)
        else
          GenerateStep(f.(loading := false), Some(f.mobile),
                       Notice("Error", OrElse(body.message, "Failed to send OTP"), true))
  }

  /** The server accepted the OTP: an ok reply that carries a non-empty token. */
  predicate Accepted(reply: Reply<ValidateBody>)
  {
    reply.Answered? && reply.ok && reply.body.token.Some? && reply.body.token.value != ""
  }

  /** `handleValidateOTP`. An OTP that is not six characters long is refused
      before any request. The session is written — token and user id
      together, the id falling back to the mobile number — only when the
      server accepts; any other outcome leaves storage and step untouched. */
  function ValidateOtp(f: LoginForm, st: Storage, reply: Reply<ValidateBody>): (r: ValidateStep)
    ensures r.request.Some? <==> |f.otp| == OtpLength
    ensures r.request.Some? ==> r.request.value == ValidateRequest(f.mobile, f.otp)
    ensures |f.otp| != OtpLength ==> r.form == f && r.storage == st && r.notice == InvalidOtp
    ensures |f.otp| == OtpLength ==> r.form == f.(loading := false)
    ensures r.request.Some? && Accepted(reply) ==>
              && r.storage == SignIn(st, reply.body.token.value, OrElse(reply.body.userId, f.mobile))
              && r.navigateTo == Some(DashboardRoute)
              && r.notice == Welcome
    ensures !(r.request.Some? && Accepted(reply)) ==>
              r.storage == st && r.navigateTo.None? && r.notice.destructive
    ensures r.request.Some? && reply.Threw? ==> r.notice == ValidateThrew
    ensures r.request.Some? && reply.Answered? && !Accepted(reply) ==>
              r.notice == Notice("Error", OrElse(reply.body.message, "Invalid OTP"), true)
    ensures NoPartialSession(st) ==> NoPartialSession(r.storage)
  {
    if f.otp == "" || |f.otp| != OtpLength then
      ValidateStep(f, st, None, InvalidOtp, None)
    else
      var request := Some(ValidateRequest(f.mobile, f.otp));
      match reply
      case Threw =>
        ValidateStep(f.(loading := false), st, request,
                     ValidateThrew, None)
      case Answered(ok, body) =>
        if ok && body.token.Some? && body.token.value != "" then
          ValidateStep(f.(loading := false),
                       SignIn(st, body.token.value, OrElse(body.userId, f.mobile)), request,
                       Welcome,
                       Some(DashboardRoute))
        else
          ValidateStep(f.(loading := false), st, request,
                       Notice("Error", OrElse(body.message, "Invalid OTP"), true), None)
  }

  /** "Change Number": back to the mobile step with the OTP cleared; the
      number itself is kept. */
  function ChangeNumber(f: LoginForm): (r: LoginForm)
    ensures !r.otpSent && r.otp == ""
    ensures r.mobile == f.mobile && r.loading == f.loading
  {
    f.(otpSent := false, otp := "")
  }

  /** What a user can do; which controls exist depends on the step shown. */
  datatype LoginEvent =
    | MobileEdited(raw: string)
    | SendPressed(generateReply: Reply<GenerateBody>)
    | OtpEdited(raw: string)
    | VerifyPressed(validateReply: Reply<ValidateBody>)
    | ChangeNumberPressed
    | ResendPressed(resendReply: Reply<GenerateBody>)

  /** Whether the control behind `ev` is on screen. */
  predicate Shown(f: LoginForm, ev: LoginEvent)
  {
    if ev.MobileEdited? || ev.SendPressed? then !f.otpSent else f.otpSent
  }

  datatype LoginPage = LoginPage(form: LoginForm, storage: Storage)

  /** The page's standing invariant. Both inputs hold normalised text, the
      OTP step is only reached with a full number, the mobile step holds no
      OTP, nothing is left loading, and the session is never half-written. */
  predicate PageInvariant(p: LoginPage)
  {
    && AllDigits(p.form.mobile) && |p.form.mobile| <= MobileLength
    && AllDigits(p.form.otp) && |p.form.otp| <= OtpLength
    && (p.form.otpSent ==> |p.form.mobile| == MobileLength)
    && (!p.form.otpSent ==> p.form.otp == "")
    && !p.form.loading
    && NoPartialSession(p.storage)
  }

  /** One event. A control that is not on screen cannot be used, so its event
      changes nothing. */
  function Step(p: LoginPage, ev: LoginEvent): (r: LoginPage)
    ensures PageInvariant(p) ==> PageInvariant(r)
  {
    if !Shown(p.form, ev) then p
    else
      match ev
      case MobileEdited(raw) => p.(form := EditMobile(p.form, raw))
      case SendPressed(reply) => p.(form := GenerateOtp(p.form, reply).form)
      case OtpEdited(raw) => p.(form := EditOtp(p.form, raw))
      case VerifyPressed(reply) =>
        var v := ValidateOtp(p.form, p.storage, reply);
        LoginPage(v.form, v.storage)
      case ChangeNumberPressed => p.(form := ChangeNumber(p.form))
      case ResendPressed(reply) => p.(form := GenerateOtp(p.form, reply).form)
  }

  function Run(p: LoginPage, evs: seq<LoginEvent>): LoginPage
    decreases |evs|
  {
    if evs == [] then p else Run(Step(p, evs[0]), evs[1..])
  }

  /** Along any sequence of events the invariant holds throughout. */
  lemma {:induction false} RunKeepsInvariant(p: LoginPage, evs: seq<LoginEvent>)
    requires PageInvariant(p)
    ensures PageInvariant(Run(p, evs))
    decreases |evs|
  {
    if evs != [] {
      RunKeepsInvariant(Step(p, evs[0]), evs[1..]);
    }
  }
  /** The page opens on the mobile step with empty inputs. Given a store that
      holds no half-written session, the invariant holds on every state the
      page can reach. */
  lemma {:induction false} StartKeepsInvariant(st: Storage, evs: seq<LoginEvent>)
    requires NoPartialSession(st)
    ensures PageInvariant(Run(LoginPage(InitialForm, st), evs))
  {
    RunKeepsInvariant(LoginPage(InitialForm, st), evs);
  }


  /** "Resend OTP" on a reachable OTP step is never refused and never leaves
      the step, whatever the server answers. */
  lemma ResendStaysInOtpStep(p: LoginPage, reply: Reply<GenerateBody>)
    requires PageInvariant(p) && p.form.otpSent
    ensures GenerateOtp(p.form, reply).request == Some(p.form.mobile)
    ensures GenerateOtp(p.form, reply).form.otpSent
  {
  }

  /** Verifying from the OTP step with a rejected code stays on that step
      with nothing stored. */
  lemma RejectedOtpStaysInOtpStep(p: LoginPage, reply: Reply<ValidateBody>)
    requires PageInvariant(p) && p.form.otpSent && !Accepted(reply)
    ensures Step(p, VerifyPressed(reply)).form.otpSent
    ensures Step(p, VerifyPressed(reply)).storage == p.storage
  {
  }
}
