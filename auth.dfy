/**
 * routes/auth.py: the `login_required` and `admin_required` decorators, as
 * decisions on the session and the user table, and what a decorated
 * handler then does.
 */
module Auth {
  import opened Wrappers
  import opened Tables

  /** The session cookie's entries. */
  type Session = map<string, string>

  /** A redirect carries the message flashed with it. */
  datatype Decision = ToLogin(flash: string) | ToDashboard(flash: string) | Proceed

  /** A decorated handler either redirects or answers as the undecorated handler would. */
  datatype Guarded<R> = Redirected(decision: Decision) | Ran(answer: R)

  const PleaseLogIn := "请先登录。"
  const NotAdmin := "您没有管理员权限。"

  /** `login_required`: proceed exactly when the session names a user. */
  function LoginRequired(session: Session): (d: Decision)
    ensures d.Proceed? <==> "username" in session
    ensures !d.Proceed? ==> d == ToLogin(PleaseLogIn)
  {
    if "username" !in session then ToLogin(PleaseLogIn) else Proceed
  }

  /**
   * `admin_required`: to the login page without a session user, to the
   * dashboard when that user is missing from the table or is not an admin.
   */
  function AdminRequired(session: Session, users: seq<User>): (d: Decision)
    ensures "username" !in session ==> d == ToLogin(PleaseLogIn)
    ensures "username" in session && (FindUser(users, session["username"]).None? || FindUser(users, session["username"]).value.role != "admin") ==>
      d == ToDashboard(NotAdmin)
    ensures d.Proceed? <==> "username" in session && FindUser(users, session["username"]).Some? &&
                            FindUser(users, session["username"]).value.role == "admin"
  {
    if "username" !in session then ToLogin(PleaseLogIn)
    else match FindUser(users, session["username"])
      case None => ToDashboard(NotAdmin)
      case Some(u) => if u.role != "admin" then ToDashboard(NotAdmin) else Proceed
  }

  /** `decorated_function(*args, **kwargs)`: the handler runs on the arguments it was given, or not at all. */
  function Guard<A, R>(d: Decision, handler: A -> R, args: A): Guarded<R> {
    if d.Proceed? then Ran(handler(args)) else Redirected(d)
  }

  /** Behind `login_required`, a request without a session user gets the login redirect and the handler is not run. */
  lemma LoginGuard<A, R>(session: Session, handler: A -> R, args: A)
    ensures "username" in session ==> Guard(LoginRequired(session), handler, args) == Ran(handler(args))
    ensures "username" !in session ==> Guard(LoginRequired(session), handler, args) == Redirected(ToLogin(PleaseLogIn))
  {
  }

  /** Behind `admin_required`, only a stored admin reaches the handler, with its arguments unchanged. */
  lemma AdminGuard<A, R>(session: Session, users: seq<User>, handler: A -> R, args: A)
    ensures Guard(AdminRequired(session, users), handler, args).Ran? <==>
      "username" in session && FindUser(users, session["username"]).Some? && FindUser(users, session["username"]).value.role == "admin"
    ensures Guard(AdminRequired(session, users), handler, args).Ran? ==> Guard(AdminRequired(session, users), handler, args).answer == handler(args)
    ensures "username" !in session ==> Guard(AdminRequired(session, users), handler, args) == Redirected(ToLogin(PleaseLogIn))
  {
  }

  /** Every request `admin_required` lets through, `login_required` lets through as well. */
  lemma AdminImpliesLogin(session: Session, users: seq<User>)
    ensures AdminRequired(session, users).Proceed? ==> LoginRequired(session).Proceed?
    ensures !LoginRequired(session).Proceed? ==> AdminRequired(session, users) == LoginRequired(session)
  {
  }
}
