/** The sign-in form: the validation schema (email shape, password of at
    least six characters, role among the three roles) and the submit
    handler, which either records an error or logs in and navigates to the
    dashboard. */
module LoginForm {
  import opened Wrappers
  import opened Domain
  import Text
  import Auth

  /** The form's local state. */
  datatype Form = Form(email: string, password: string, role: string, error: Option<string>)

  /** The form as first rendered; the role select starts on ADMIN. */
  const InitialForm: Form := Form("", "", "ADMIN", None)

  const ErrorMessage: string := "Please enter a valid email, password (6+ chars), and role."

  /** The schema's minimum password length, in UTF-16 code units. */
  const MinPasswordLength: nat := 6

  /** What the schema returns on success; only the role is used from it. */
  datatype Parsed = Parsed(email: string, password: string, role: Role)

  /** `schema.safeParse({ email, password, role })`. The email check is the
      validation library's own pattern and is taken as a parameter. */
  function Validate(email: string, password: string, role: string, isEmail: string -> bool): (r: Result<Parsed, string>)
    ensures r.Ok? <==> isEmail(email) && Text.Utf16Length(password) >= MinPasswordLength && role in RoleNames
    ensures r.Ok? ==> r.value.email == email && r.value.password == password && RoleName(r.value.role) == role
    ensures r.Err? ==> r.error == ErrorMessage
  {
    match ParseRole(role)
    case Some(rl) =>
      if isEmail(email) && Text.Utf16Length(password) >= MinPasswordLength then Ok(Parsed(email, password, rl))
      else Err(ErrorMessage)
    case None => Err(ErrorMessage)
  }

  /** What the submit handler leaves behind. */
  datatype Submitted = Submitted(form: Form, session: Auth.Session, navigateTo: Option<string>)

  /** `onSubmit`: on a validation failure only the error is set (no login,
      no navigation); on success `login` receives the typed email and
      password with the parsed role and the page navigates to /dashboard,
      leaving any earlier error message in place. */
  function Submit(f: Form, s: Auth.Session, isEmail: string -> bool): (r: Submitted)
    ensures Validate(f.email, f.password, f.role, isEmail).Err? ==>
      r.form == f.(error := Some(ErrorMessage)) && r.session == s && r.navigateTo.None?
    ensures Validate(f.email, f.password, f.role, isEmail).Ok? ==>
      && r.form == f
      && r.navigateTo == Some("/dashboard")
      && r.session.auth.isAuthenticated
      && r.session.auth.userEmail == Some(f.email)
      && r.session.auth.role.Some? && RoleName(r.session.auth.role.value) == f.role
  {
    match Validate(f.email, f.password, f.role, isEmail)
    case Err(msg) => Submitted(f.(error := Some(msg)), s, None)
    case Ok(p) => Submitted(f, Auth.Login(s, f.email, f.password, p.role), Some("/dashboard"))
  }

  /** A password shorter than six code units, or a role outside the three
      roles, is refused whatever the email, and the session is left alone. */
  lemma WeakInputRejected(f: Form, s: Auth.Session, isEmail: string -> bool)
    requires Text.Utf16Length(f.password) < MinPasswordLength || f.role !in RoleNames
    ensures Submit(f, s, isEmail).session == s
    ensures Submit(f, s, isEmail).form.error == Some(ErrorMessage)
    ensures Submit(f, s, isEmail).navigateTo.None?
  {
  }

  /** The default role passes the role check and logs in as ADMIN. */
  lemma DefaultRoleIsAdmin(email: string, password: string, s: Auth.Session, isEmail: string -> bool)
    requires isEmail(email) && Text.Utf16Length(password) >= MinPasswordLength
    ensures Submit(InitialForm.(email := email, password := password), s, isEmail).session.auth.role == Some(Admin)
  {
  }

  /** Signing in with "bad-email" and password "123" fails before any
      session change, whatever the email check says. */
  lemma BadCredentialsScenario(s: Auth.Session, isEmail: string -> bool)
    ensures Submit(Form("bad-email", "123", "ADMIN", None), s, isEmail).session == s
    ensures Submit(Form("bad-email", "123", "ADMIN", None), s, isEmail).navigateTo.None?
  {
    assert Text.Utf16Length("123") == 3;
  }
}
