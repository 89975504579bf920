/**
  The registration page: a username and a mobile number, sent to the server
  so that the number may later receive OTPs. The form is never reset and
  keeps no loading flag.
 */
module Signup {
  import opened Wrappers
  import opened Text
  import opened Remote

  datatype SignupForm = SignupForm(username: string, mobile: string)

  /** The JSON body of a registration request. */
  datatype RegisterRequest = RegisterRequest(username: string, mobileNumber: string)

  /** The reply body: the truthiness of `status`, and an optional `data` message. */
  datatype RegisterBody = RegisterBody(status: bool, data: Option<string>)

  datatype RegisterStep = RegisterStep(request: Option<RegisterRequest>, notice: Notice)

  const Registered: string := "Registered \U{2705}"
  const RegistrationFailed: string := "Registration Failed"
  const RegisterFallback: string := "Unable to register number."
  const ServerErrorText: string := "Number not registered \U{2014} contact Allsoft Support to enable OTP."

  /** The mobile input's `onChange`: digits only, at most ten. */
  function EditMobile(f: SignupForm, raw: string): (r: SignupForm)
    ensures AllDigits(r.mobile) && |r.mobile| <= 10
    ensures r.mobile == KeepDigits(raw, 10)
    ensures AllDigits(raw) && |raw| <= 10 ==> r.mobile == raw
    ensures r.username == f.username
  {
    f.(mobile := KeepDigits(raw, 10))
  }

  predicate Acceptable(f: SignupForm)
  {
    f.username != "" && |f.mobile| == 10
  }

  /** `handleRegister`. Invalid details are refused before any request; the
      request carries both fields verbatim; registration succeeds exactly
      when the reply is ok and its `status` is truthy. */
  function Register(f: SignupForm, reply: Reply<RegisterBody>): (r: RegisterStep)
    ensures r.request.Some? <==> Acceptable(f)
    ensures r.request.Some? ==> r.request.value == RegisterRequest(f.username, f.mobile)
    ensures r.notice.title == Registered <==>
              Acceptable(f) && reply.Answered? && reply.ok && reply.body.status
    ensures r.notice.title != Registered ==> r.notice.destructive
    ensures Acceptable(f) && reply.Answered? && !(reply.ok && reply.body.status) ==>
              r.notice == Notice(RegistrationFailed, OrElse(reply.body.data, RegisterFallback), true)
    ensures Acceptable(f) && reply.Threw? ==> r.notice.description == ServerErrorText
  {
    if f.username == "" || |f.mobile| != 10 then
      RegisterStep(None, Notice("Invalid Details", "Enter a username and valid 10-digit mobile number.", true))
    else
      var request := Some(RegisterRequest(f.username, f.mobile));
      match reply
      case Threw =>
        RegisterStep(request, Notice("Server Error", ServerErrorText, true))
      case Answered(ok, body) =>
        if ok && body.status then
          RegisterStep(request, Notice(Registered, "Mobile number added. Now try sending OTP on Login.", false))
        else
          RegisterStep(request, Notice(RegistrationFailed, OrElse(body.data, RegisterFallback), true))
  }

  /** A number typed through the input is always sendable once it has ten
      digits: the normaliser and the length check agree. */
  lemma NormalisedNumberAccepted(f: SignupForm, raw: string)
    requires f.username != "" && |DigitsOnly(raw)| >= 10
    ensures Acceptable(EditMobile(f, raw))
  {
  }
}
