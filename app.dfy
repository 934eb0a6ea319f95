/**
 * app.py: the page routes that decide something — the building-permission
 * filter of `query`, `login`, `logout` and the file name cleaning of
 * `download_file`.  The session is a value the handler receives and
 * returns; the report generator, `safe_join` and the file-system test are
 * parameters.
 */
module App {
  import opened Wrappers
  import opened Strings
  import opened Tables
  import opened Db
  import opened Auth

  const NoBuildingPermission := "没有可操作的楼栋权限"
  const BadCredentials := "用户名或密码错误"
  const BadCredentialsFlash := "用户名或密码错误。"
  const LoggedOutFlash := "已退出登录。"
  const ResultDir := "result-files/"

  // ------------------------------------------------------------------ query

  /** `[b for b in requested if b in allowed]`. */
  function FilterBuildings(requested: seq<string>, allowed: seq<string>): (r: seq<string>)
    ensures forall b :: b in r <==> b in requested && b in allowed
    ensures |r| <= |requested|
  {
    if requested == [] then []
    else (if requested[0] in allowed then [requested[0]] else []) + FilterBuildings(requested[1..], allowed)
  }

  /** The filter keeps the requested order: filtering a concatenation concatenates the filtered parts. */
  lemma {:induction false} FilterBuildingsAppend(xs: seq<string>, ys: seq<string>, allowed: seq<string>)
    ensures FilterBuildings(xs + ys, allowed) == FilterBuildings(xs, allowed) + FilterBuildings(ys, allowed)
  {
    if xs != [] {
      assert (xs + ys)[0] == xs[0];
      assert (xs + ys)[1..] == xs[1..] + ys;
      FilterBuildingsAppend(xs[1..], ys, allowed);
    } else {
      assert xs + ys == ys;
    }
  }

  /** Requested buildings that are all allowed pass unchanged, in order. */
  lemma {:induction false} FilterBuildingsAllAllowed(requested: seq<string>, allowed: seq<string>)
    requires forall b :: b in requested ==> b in allowed
    ensures FilterBuildings(requested, allowed) == requested
  {
    if requested != [] {
      assert requested[0] in requested;
      FilterBuildingsAllAllowed(requested[1..], allowed);
      assert requested == [requested[0]] + requested[1..];
    }
  }

  /** The JSON body of a query: its `buildings` list, if any, and the other entries, passed on untouched. */
  datatype QueryData = QueryData(buildings: Option<seq<string>>, others: map<string, string>)

  /**
   * The body handed on to the report generator, or the refusal: an empty
   * allowed list means every building; otherwise the requested buildings
   * are narrowed to the allowed ones and none left is refused.
   */
  function PermittedQuery(data: QueryData, allowed: seq<string>): (r: Result<QueryData, string>)
    ensures allowed == [] ==> r == Ok(data)
    ensures allowed != [] ==> (r.Ok? <==> exists b :: b in data.buildings.GetOr([]) && b in allowed)
    ensures r.Err? ==> r.error == NoBuildingPermission
    ensures allowed != [] && r.Ok? ==> r.value == data.(buildings := Some(FilterBuildings(data.buildings.GetOr([]), allowed)))
  {
    if allowed == [] then Ok(data)
    else
      var kept := FilterBuildings(data.buildings.GetOr([]), allowed);
      if kept == [] then Err(NoBuildingPermission)
      else
        assert kept[0] in kept;
        Ok(data.(buildings := Some(kept)))
  }

  /** The detail logged for a query: `查询楼栋: ` and the buildings joined by commas. */
  function QueryDetail(buildings: seq<string>): string {
    "查询楼栋: " + Join(buildings, ",")
  }

  datatype QueryAnswer<R> = Refused(message: string) | Answered(result: R)

  /** `query`: filter by the session user's allowed buildings, log the query, then generate. */
  method Query<R>(db: Database, session: Session, data: QueryData, process: QueryData -> R, ip: Option<string>)
    returns (answer: QueryAnswer<R>)
    requires db.Valid()
    modifies db
    ensures db.Valid()
    ensures var user := if "username" in session then session["username"] else "";
      match PermittedQuery(data, UserBuildings(old(db.users), user))
        case Err(msg) => (answer == Refused(msg) && db.operations == old(db.operations))
        case Ok(sent) =>
          (answer == Answered(process(sent)) &&
           db.operations == old(db.operations) + [OperationLog(user, "query", Some(QueryDetail(sent.buildings.GetOr([]))), ip)])
    ensures unchanged(db`users, db`config, db`tasks, db`logs, db`permissions)
  {
    var user := if "username" in session then session["username"] else "";
    var allowed := UserBuildings(db.users, user);
    var permitted := PermittedQuery(data, allowed);
    if permitted.Err? {
      return Refused(permitted.error);
    }
    var sent := permitted.value;
    db.CreateOperationLog(user, "query", Some(QueryDetail(sent.buildings.GetOr([]))), ip);
    answer := Answered(process(sent));
  }

  // ---------------------------------------------------------- login, logout

  datatype Page = LoginPage | DashboardPage

  datatype Redirect = Redirect(page: Page, flash: Option<string>)

  /**
   * `login` (POST): a user that does not verify leaves the session as it
   * was, is logged as `login_failed` and sent back to the login page; one
   * that does gets its name and role in the session and the dashboard.
   */
  method Login(db: Database, session: Session, username: string, password: string, ip: Option<string>)
    returns (next: Session, redirect: Redirect)
    requires db.Valid()
    modifies db
    ensures db.Valid()
    ensures VerifyUser(db.users, username, password).None? ==>
      (next == session && redirect == Redirect(LoginPage, Some(BadCredentialsFlash)) &&
       db.operations == old(db.operations) + [OperationLog(username, "login_failed", Some(BadCredentials), ip)])
    ensures VerifyUser(db.users, username, password).Some? ==>
      (next == session["username" := username]["role" := VerifyUser(db.users, username, password).value.role] &&
       redirect == Redirect(DashboardPage, None) &&
       db.operations == old(db.operations) + [OperationLog(username, "login", Some("登录成功"), ip)])
    ensures unchanged(db`users, db`config, db`tasks, db`logs, db`permissions)
  {
    var user := VerifyUser(db.users, username, password);
    if user.None? {
      db.CreateOperationLog(username, "login_failed", Some(BadCredentials), ip);
      return session, Redirect(LoginPage, Some(BadCredentialsFlash));
    }
    next := session["username" := username]["role" := user.value.role];
    db.CreateOperationLog(username, "login", Some("登录成功"), ip);
    redirect := Redirect(DashboardPage, None);
  }

  /** After a login attempt, the session names a user exactly when that user verified, and only that user. */
  lemma LoginSessionNamesVerifiedUser(users: seq<User>, session: Session, username: string, password: string)
    requires "username" !in session
    ensures var next := if VerifyUser(users, username, password).Some?
                        then session["username" := username]["role" := VerifyUser(users, username, password).value.role]
                        else session;
      ("username" in next <==> VerifyUser(users, username, password).Some?) &&
      ("username" in next ==> next["username"] == username && FindUser(users, username).value.enabled != 0 &&
                              FindUser(users, username).value.password == password)
  {
  }

  /** `logout`: logs the logout of a named session user, then drops the name and role. */
  method Logout(db: Database, session: Session, ip: Option<string>) returns (next: Session, redirect: Redirect)
    requires db.Valid()
    modifies db
    ensures db.Valid()
    ensures next == session - {"username", "role"}
    ensures "username" !in next && "role" !in next
    ensures redirect == Redirect(LoginPage, Some(LoggedOutFlash))
    ensures "username" in session && session["username"] != [] ==>
      db.operations == old(db.operations) + [OperationLog(session["username"], "logout", Some("退出登录"), ip)]
    ensures !("username" in session && session["username"] != []) ==> db.operations == old(db.operations)
    ensures unchanged(db`users, db`config, db`tasks, db`logs, db`permissions)
  {
    if "username" in session && session["username"] != [] {
      db.CreateOperationLog(session["username"], "logout", Some("退出登录"), ip);
    }
    next := session - {"username", "role"};
    redirect := Redirect(LoginPage, Some(LoggedOutFlash));
  }

  // --------------------------------------------------------------- download

  /** `filename.replace('result-files/', '').lstrip('/')`. */
  function CleanFilename(filename: string): (r: string)
    ensures r == [] || r[0] != '/'
    ensures |r| <= |filename|
  {
    LStripChar(RemoveAll(filename, ResultDir), '/')
  }

  /** One leading `result-files/` is dropped from a name that holds no other. */
  lemma CleanFilenameOfPrefixed(name: string)
    requires forall i: nat :: !OccursAt(name, ResultDir, i)
    requires name == [] || name[0] != '/'
    ensures CleanFilename(ResultDir + name) == name
  {
    var s := ResultDir + name;
    assert s[..|ResultDir|] == ResultDir;
    assert s[|ResultDir|..] == name;
    RemoveAllWithoutOccurrence(name, ResultDir);
  }

  /**
   * The replacement is a single pass: removing one occurrence can join the
   * text around it into a new one, which stays.
   */
  lemma CleanFilenameSinglePass(rest: string)
    requires forall i: nat :: !OccursAt(rest, ResultDir, i)
    requires rest == [] || rest[0] != '/'
    ensures CleanFilename("result-" + ResultDir + "files/" + rest) == ResultDir + rest
  {
    var pat := ResultDir;
    var tail := "files/" + rest;
    var u := pat + tail;
    var pre := "result-";
    assert "result-" + ResultDir + "files/" + rest == pre + u;
    forall k | 0 <= k < |pre| ensures !OccursAt(pre[k..] + u, pat, 0) {
      if k == 0 {
        assert (pre[k..] + u)[7] == 'r';
      } else {
        assert (pre[k..] + u)[0] == pre[k];
      }
    }
    RemoveAllKeepsPrefix(pre, u, pat);
    RemoveAllDropsFront(pat, tail);
    TailHasNoOccurrence(rest);
    RemoveAllWithoutOccurrence(tail, pat);
    assert pre + tail == pat + rest;
  }

  /** `files/` followed by text without the directory name has no occurrence of it. */
  lemma TailHasNoOccurrence(rest: string)
    requires forall i: nat :: !OccursAt(rest, ResultDir, i)
    ensures forall i: nat :: !OccursAt("files/" + rest, ResultDir, i)
  {
    var tail := "files/" + rest;
    forall i: nat | i + |ResultDir| <= |tail| ensures !OccursAt(tail, ResultDir, i) {
      if i >= 6 {
        assert tail[i..i + |ResultDir|] == rest[i - 6..i - 6 + |ResultDir|];
        assert !OccursAt(rest, ResultDir, i - 6);
      } else {
        assert tail[i..i + |ResultDir|][0] == tail[i] != 'r';
      }
    }
  }

  /** The answer of `download_file`. */
  datatype Download = SendFile(path: string) | NotFound | InvalidRequest

  /**
   * `download_file`: clean the name, join it under the download folder,
   * 404 when there is no such path, otherwise log the download and send it.
   * `safe_join` answers None for a name that leaves the folder; testing that
   * for existence raises, which the handler answers with 400.  `send_file`
   * raises too for a path that exists but is not a regular file (a user's
   * folder, say), and that is also answered with 400, after the log.
   */
  method DownloadFile(db: Database, session: Session, filename: string, safeJoin: string -> Option<string>,
                      exists_: string -> bool, isFile: string -> bool, ip: Option<string>) returns (answer: Download)
    requires db.Valid()
    modifies db
    ensures db.Valid()
    ensures safeJoin(CleanFilename(filename)).None? ==> answer == InvalidRequest && db.operations == old(db.operations)
    ensures safeJoin(CleanFilename(filename)).Some? && !exists_(safeJoin(CleanFilename(filename)).value) ==>
      answer == NotFound && db.operations == old(db.operations)
    ensures safeJoin(CleanFilename(filename)).Some? && exists_(safeJoin(CleanFilename(filename)).value) ==>
      (answer == (if isFile(safeJoin(CleanFilename(filename)).value) then SendFile(safeJoin(CleanFilename(filename)).value)
                  else InvalidRequest) &&
       db.operations == old(db.operations) +
         [OperationLog(if "username" in session then session["username"] else "", "download",
                       Some("下载文件: " + CleanFilename(filename)), ip)])
    ensures unchanged(db`users, db`config, db`tasks, db`logs, db`permissions)
  {
    var clean := CleanFilename(filename);
    var path := safeJoin(clean);
    if path.None? {
      return InvalidRequest;
    }
    if !exists_(path.value) {
      return NotFound;
    }
    var user := if "username" in session then session["username"] else "";
    db.CreateOperationLog(user, "download", Some("下载文件: " + clean), ip);
    if !isFile(path.value) {
      return InvalidRequest;
    }
    answer := SendFile(path.value);
  }
}
