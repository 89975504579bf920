/**
  The admin page: a create-user form checked entirely on the client (no
  request is made), and the logout button shared by every signed-in page.
 */
module Admin {
  import opened Remote
  import opened Session

  datatype AdminForm = AdminForm(username: string, password: string, confirmPassword: string)

  const EmptyAdminForm: AdminForm := AdminForm("", "", "")

  datatype CreateStep = CreateStep(form: AdminForm, notice: Notice)

  predicate AllFilled(f: AdminForm)
  {
    f.username != "" && f.password != "" && f.confirmPassword != ""
  }

  /** `handleCreateUser`. Missing fields are reported first, a password
      mismatch only once all three are filled; either refusal keeps the form.
      Success empties all three fields. */
  function CreateUser(f: AdminForm): (r: CreateStep)
    ensures !r.notice.destructive <==> AllFilled(f) && f.password == f.confirmPassword
    ensures !AllFilled(f) ==> r.notice.title == "Missing fields"
    ensures AllFilled(f) && f.password != f.confirmPassword ==> r.notice.title == "Password mismatch"
    ensures r.notice.destructive ==> r.form == f
    ensures !r.notice.destructive ==> r.form == EmptyAdminForm
  {
    if f.username == "" || f.password == "" || f.confirmPassword == "" then
      CreateStep(f, Notice("Missing fields", "Please fill in all fields", true))
    else if f.password != f.confirmPassword then
      CreateStep(f, Notice("Password mismatch", "Passwords do not match", true))
    else
      CreateStep(EmptyAdminForm,
                 Notice("User Created", "User \"" + f.username + "\" has been created successfully", false))
  }

  /** Pressing "Create" again right after a success finds an empty form. */
  lemma CreateTwiceReportsMissing(f: AdminForm)
    requires !CreateUser(f).notice.destructive
    ensures CreateUser(CreateUser(f).form).notice.title == "Missing fields"
    ensures CreateUser(CreateUser(f).form).form == EmptyAdminForm
  {
  }

  datatype LogoutStep = LogoutStep(storage: Storage, navigateTo: string)

  /** `handleLogout`: drop exactly the session's two entries and go to the
      login route. */
  function HandleLogout(st: Storage): (r: LogoutStep)
    ensures AuthTokenKey !in r.storage && UserIdKey !in r.storage
    ensures r.storage.Keys == st.Keys - {AuthTokenKey, UserIdKey}
    ensures forall k :: k in r.storage ==> r.storage[k] == st[k]
    ensures r.navigateTo == "/"
  {
    LogoutStep(SignOut(st), "/")
  }

  /** After logging out, requests go out with an empty token and the
      anonymous actor id. */
  lemma LoggedOutRequestsAreAnonymous(st: Storage)
    ensures TokenHeader(HandleLogout(st).storage) == ""
    ensures ActorId(HandleLogout(st).storage) == AnonymousUserId
  {
  }
}
