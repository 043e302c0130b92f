/** The authentication context: a small state record with `login` and
    `logout` transitions. Login trusts its caller; the password is not
    looked at. Each transition also writes the browser's session storage,
    modelled as a string map. */
module Auth {
  import opened Wrappers
  import opened Domain
  import JsonString

  datatype AuthState = AuthState(isAuthenticated: bool, role: Option<Role>, userEmail: Option<string>)

  /** The context state together with the session storage it writes. */
  datatype Session = Session(auth: AuthState, storage: map<string, string>)

  /** The state the provider starts in: signed out, no role, no email. */
  const SignedOut: AuthState := AuthState(false, None, None)

  /** The session storage key the provider writes. */
  const StorageKey: string := "auth"

  /** The provider on mount: signed out, whatever session storage holds
      (a stored record is never read back). */
  function Start(storage: map<string, string>): (s: Session)
    ensures !s.auth.isAuthenticated && s.auth.role.None? && s.auth.userEmail.None?
  {
    Session(SignedOut, storage)
  }

  /** `isAuthenticated` holds exactly when a role is set. */
  predicate Consistent(a: AuthState) {
    a.isAuthenticated <==> a.role.Some?
  }

  /** `JSON.stringify({ email, role })`: an object that opens with the
      email key, whose email literal reads back as the email and is followed
      by the role member, and that closes with a brace. */
  function SessionRecord(email: string, role: Role): (r: string)
    ensures |EmailKey| < |r| && r[..|EmailKey|] == EmailKey && r[|r| - 1] == '}'
    ensures JsonString.ReadLiteral(r[|EmailKey|..]) == Some((email, RoleMember(role)))
  {
    var tail := JsonString.Quote(email) + RoleMember(role);
    JsonString.QuoteRoundTrip(email, RoleMember(role));
    var r := EmailKey + tail;
    assert r[|EmailKey|..] == tail;
    r
  }

  const EmailKey: string := "{\"email\":"

  function RoleMember(role: Role): string {
    ",\"role\":" + JsonString.Quote(RoleName(role)) + "}"
  }

  /** `login(email, _password, role)`: replaces the whole state with a
      signed-in state for that email and role, and stores the session record. */
  function Login(s: Session, email: string, password: string, role: Role): (r: Session)
    ensures r.auth.isAuthenticated && r.auth.role == Some(role) && r.auth.userEmail == Some(email)
    ensures StorageKey in r.storage && r.storage[StorageKey] == SessionRecord(email, role)
    ensures forall k :: k in s.storage && k != StorageKey ==> k in r.storage && r.storage[k] == s.storage[k]
  {
    Session(AuthState(true, Some(role), Some(email)), s.storage[StorageKey := SessionRecord(email, role)])
  }

  /** `logout()`: back to the signed-out state from any state, and the
      session record is removed. */
  function Logout(s: Session): (r: Session)
    ensures r.auth == SignedOut
    ensures StorageKey !in r.storage
    ensures forall k :: k in s.storage && k != StorageKey ==> k in r.storage && r.storage[k] == s.storage[k]
  {
    Session(SignedOut, s.storage - {StorageKey})
  }

  /** The outcome of a login depends only on its email and role: not on the
      password and not on any earlier session. */
  lemma LoginForgetsEverythingElse(s1: Session, s2: Session, email: string, p1: string, p2: string, role: Role)
    ensures Login(s1, email, p1, role).auth == Login(s2, email, p2, role).auth
    ensures s1.storage == s2.storage ==> Login(s1, email, p1, role) == Login(s2, email, p2, role)
  {
  }

  /** Logging out twice is logging out once. */
  lemma LogoutIdempotent(s: Session)
    ensures Logout(Logout(s)) == Logout(s)
  {
  }

  /** Login followed by logout returns to the start state, with the session
      record gone from storage. */
  lemma LoginLogoutRestoresStart(storage: map<string, string>, email: string, password: string, role: Role)
    ensures Logout(Login(Start(storage), email, password, role)) == Start(storage - {StorageKey})
  {
    OverwriteThenRemove(storage, SessionRecord(email, role));
  }

  lemma OverwriteThenRemove(storage: map<string, string>, v: string)
    ensures storage[StorageKey := v] - {StorageKey} == storage - {StorageKey}
  {
  }

  /** Both transitions keep `isAuthenticated` and `role` in step, and the
      start state has them in step. */
  lemma TransitionsKeepConsistency(s: Session, email: string, password: string, role: Role)
    ensures Consistent(Start(s.storage).auth)
    ensures Consistent(Login(s, email, password, role).auth)
    ensures Consistent(Logout(s).auth)
  {
  }

  /** Different emails give different stored records. */
  lemma SessionRecordInjective(e1: string, e2: string, role: Role)
    requires SessionRecord(e1, role) == SessionRecord(e2, role)
    ensures e1 == e2
  {
    var n := |EmailKey|;
    assert SessionRecord(e1, role)[n..] == SessionRecord(e2, role)[n..];
  }
}
