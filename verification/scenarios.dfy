/**
  Journeys across pages: what a login leaves in storage is what the search
  and upload requests carry afterwards.
 */
module Scenarios {
  import opened Remote
  import opened Session
  import opened Login
  import Search
  import Upload

  /** After an accepted OTP, the next search sends the new token and the
      server's user id, or the mobile number when the server gave none. */
  lemma AcceptedLoginAuthorisesSearch(p: LoginPage, reply: Reply<ValidateBody>,
                                      f: Search.SearchForm, searchReply: Reply<Search.SearchBody>)
    requires PageInvariant(p) && p.form.otpSent && |p.form.otp| == OtpLength && Accepted(reply)
    ensures var after := Step(p, VerifyPressed(reply)).storage;
            var request := Search.HandleSearch(f, after, searchReply).request;
            && request.token == reply.body.token.value
            && request.query.userId == OrElse(reply.body.userId, p.form.mobile)
  {
    var token := reply.body.token.value;
    var id := OrElse(reply.body.userId, p.form.mobile);
    assert |p.form.mobile| == MobileLength;
    assert Step(p, VerifyPressed(reply)).storage == SignIn(p.storage, token, id);
    SignedInRequestsCarrySession(p.storage, token, id);
  }

  /** The same holds for an upload sent after the login. */
  lemma AcceptedLoginAuthorisesUpload(p: LoginPage, reply: Reply<ValidateBody>,
                                      f: Upload.UploadForm, uploadReply: Reply<Upload.UploadBody>)
    requires PageInvariant(p) && p.form.otpSent && |p.form.otp| == OtpLength && Accepted(reply)
    requires Upload.Ready(f)
    ensures var after := Step(p, VerifyPressed(reply)).storage;
            var request := Upload.Submit(f, after, uploadReply).request.value;
            && request.token == reply.body.token.value
            && request.data.userId == OrElse(reply.body.userId, p.form.mobile)
  {
    var token := reply.body.token.value;
    var id := OrElse(reply.body.userId, p.form.mobile);
    assert |p.form.mobile| == MobileLength;
    assert Step(p, VerifyPressed(reply)).storage == SignIn(p.storage, token, id);
    SignedInRequestsCarrySession(p.storage, token, id);
  }

  /** A full walk through the login page: a ten-digit number is accepted,
      the OTP is sent, and an OTP the server rejects leaves the user on the
      OTP step with the number kept and nothing stored. */
  lemma RejectedOtpJourney(st: Storage, mobile: string, otp: string,
                           sent: GenerateBody, rejected: Reply<ValidateBody>)
    requires Text.AllDigits(mobile) && |mobile| == MobileLength
    requires Text.AllDigits(otp) && |otp| == OtpLength
    requires !Accepted(rejected)
    ensures var last := Run(LoginPage(InitialForm, st),
                            [MobileEdited(mobile), SendPressed(Answered(true, sent)),
                             OtpEdited(otp), VerifyPressed(rejected)]);
            && last.form == LoginForm(mobile, otp, true, false)
            && last.storage == st
  {
    var e0 := MobileEdited(mobile);
    var e1 := SendPressed(Answered(true, sent));
    var e2 := OtpEdited(otp);
    var e3 := VerifyPressed(rejected);
    var p0 := LoginPage(InitialForm, st);
    var p1 := Step(p0, e0);
    assert p1.form == LoginForm(mobile, "", false, false) && p1.storage == st;
    var p2 := Step(p1, e1);
    assert p2.form == LoginForm(mobile, "", true, false) && p2.storage == st;
    var p3 := Step(p2, e2);
    assert p3.form == LoginForm(mobile, otp, true, false) && p3.storage == st;
    var p4 := Step(p3, e3);
    assert p4.form == p3.form && p4.storage == st;
    assert [e0, e1, e2, e3][1..] == [e1, e2, e3];
    assert [e1, e2, e3][1..] == [e2, e3];
    assert [e2, e3][1..] == [e3];
    assert [e3][1..] == [];
    assert Run(p3, [e3]) == p4;
    assert Run(p2, [e2, e3]) == p4;
    assert Run(p1, [e1, e2, e3]) == p4;
    assert Run(p0, [e0, e1, e2, e3]) == p4;
  }
}
