/** The submit logic of `src/pages/Register.tsx`: password checks, the data
    sent to the session context, and the redirect once signed in. */
module RegisterPage {
  import opened Wrappers
  import Session

  /** The page's `Role` enum; its values are upper case. */
  datatype Role = USER | ADMIN

  function RoleValue(r: Role): (s: string)
    ensures s == "USER" <==> r == USER
    ensures s == "ADMIN" <==> r == ADMIN
  {
    match r
    case USER => "USER"
    case ADMIN => "ADMIN"
  }

  /** The payload of `register`. */
  datatype RegisterDto = RegisterDto(name: string, email: string, password: string, role: Role)

  datatype RegisterForm = RegisterForm(
    name: string,
    email: string,
    password: string,
    confirmPassword: string,
    role: Role,
    passwordError: string,
    isSubmitting: bool)

  const MIN_PASSWORD_LENGTH := 8
  const MISMATCH := "Passwords do not match"
  const TOO_SHORT := "Password must be at least 8 characters long"

  /** The form as first shown: empty fields and the USER role. */
  const BLANK := RegisterForm("", "", "", "", USER, "", false)

  /** The outcome of one submission: the form afterwards, the session
      afterwards and what, if anything, was sent. */
  datatype Submitted = Submitted(form: RegisterForm, world: Session.World, sent: Option<RegisterDto>)

  /** `handleSubmit`. `reply` is the outcome the backend would give. The
      mismatch check comes first, then the length check; only a form passing
      both is sent, and `isSubmitting` is back to false afterwards. */
  function HandleSubmit(f: RegisterForm, w: Session.World, reply: Session.Reply<Session.Credentials>)
    : (r: Submitted)
    ensures r.sent.Some? <==> f.password == f.confirmPassword && |f.password| >= MIN_PASSWORD_LENGTH
    ensures f.password != f.confirmPassword ==> r.form == f.(passwordError := MISMATCH) && r.world == w
    ensures f.password == f.confirmPassword && |f.password| < MIN_PASSWORD_LENGTH ==>
      r.form == f.(passwordError := TOO_SHORT) && r.world == w
    ensures r.sent.Some? ==>
      && r.sent.value == RegisterDto(f.name, f.email, f.password, f.role)
      && r.form == f.(passwordError := "", isSubmitting := false)
      && r.world == Session.Register(w, reply)
  {
    if f.password != f.confirmPassword then Submitted(f.(passwordError := MISMATCH), w, None)
    else if |f.password| < MIN_PASSWORD_LENGTH then Submitted(f.(passwordError := TOO_SHORT), w, None)
    else
      Submitted(f.(passwordError := "", isSubmitting := false),
                Session.Register(w, reply),
                Some(RegisterDto(f.name, f.email, f.password, f.role)))
  }

  /** The page redirects to the dashboard exactly when signed in. */
  function RedirectTarget(s: Session.AuthState): (r: Option<string>)
    ensures r.Some? <==> s.isAuthenticated
    ensures r.Some? ==> r.value == "/dashboard"
  {
    if s.isAuthenticated then Some("/dashboard") else None
  }

  /** A valid form the backend accepts signs the user in, so the page leaves
      for the dashboard; a rejected one keeps the page and shows an error. */
  lemma AcceptedRegistrationRedirects(f: RegisterForm, w: Session.World, reply: Session.Reply<Session.Credentials>)
    requires f.password == f.confirmPassword && |f.password| >= MIN_PASSWORD_LENGTH
    ensures reply.Ok? ==> RedirectTarget(HandleSubmit(f, w, reply).world.state) == Some("/dashboard")
    ensures reply.Failed? ==>
      RedirectTarget(HandleSubmit(f, w, reply).world.state) == RedirectTarget(w.state)
      && HandleSubmit(f, w, reply).world.state.error.Some?
  {
  }

  /** The role a new account is registered with unless the user changes it. */
  lemma DefaultRoleIsUser(password: string, w: Session.World, reply: Session.Reply<Session.Credentials>)
    requires |password| >= MIN_PASSWORD_LENGTH
    ensures var f := BLANK.(password := password, confirmPassword := password);
      HandleSubmit(f, w, reply).sent == Some(RegisterDto("", "", password, USER))
  {
  }
}
