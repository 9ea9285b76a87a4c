/**
 * The session record and the two route guards of app.py, the password
 * credential, and logout.
 */
module Auth {
  import opened Optional
  import opened Records

  /** `generate_password_hash`, without its random salt. */
  function HashPassword(password: string): PasswordHash {
    Digest(password)
  }

  /** `check_password_hash`. */
  predicate CheckPassword(h: PasswordHash, password: string) {
    h == HashPassword(password)
  }

  /** The hash check accepts exactly the password that was hashed. */
  lemma CheckPasswordExact(p: string, q: string)
    ensures CheckPassword(HashPassword(p), q) <==> p == q
  {
  }

  /** The keys of the Flask session; a missing `is_superuser` reads as false. */
  datatype Session = Session(userId: Option<Id>, username: Option<string>, isSuperuser: bool)

  /** A session after `session.clear()` or before any login. */
  const Anonymous := Session(None, None, false)

  /** `login_required`: the session holds a `user_id`. */
  predicate LoginRequired(s: Session) {
    s.userId.Some?
  }

  /** `superuser_required`: the session's `is_superuser` is true. */
  predicate SuperuserRequired(s: Session) {
    s.isSuperuser
  }

  /** What a successful login writes into the session for `u`. */
  function SessionFor(u: User): (s: Session)
    ensures LoginRequired(s) && s.userId == Some(u.id) && s.username == Some(u.username)
    ensures SuperuserRequired(s) <==> u.isSuperuser
  {
    Session(Some(u.id), Some(u.username), u.isSuperuser)
  }

  /**
   * The guards stacked on a route: `login_required` runs first and redirects
   * to the login page; on superuser-only routes `superuser_required` then
   * redirects to the dashboard. `None` lets the handler body run.
   */
  function Denial(s: Session, superuserOnly: bool): (d: Option<Outcome>)
    ensures d.None? <==> LoginRequired(s) && (superuserOnly ==> SuperuserRequired(s))
    ensures d == Some(NotLoggedIn) <==> !LoginRequired(s)
    ensures d == Some(NotSuperuser) <==> LoginRequired(s) && superuserOnly && !SuperuserRequired(s)
  {
    if !LoginRequired(s) then Some(NotLoggedIn)
    else if superuserOnly && !SuperuserRequired(s) then Some(NotSuperuser)
    else None
  }

  /** `logout`: a logged-in session is cleared; without a login the guard redirects and nothing changes. */
  function Logout(s: Session): (r: Session)
    ensures !LoginRequired(r)
    ensures !LoginRequired(s) ==> r == s
    ensures LoginRequired(s) ==> !SuperuserRequired(r) && r.username.None?
  {
    if LoginRequired(s) then Anonymous else s
  }
}
