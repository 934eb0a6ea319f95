/**
 * routes/admin.py: the JSON handlers of the admin blueprint.  Each handler
 * is shown as it runs once `admin_required` (module Auth) has let the
 * request through: it validates and coerces the request body, updates the
 * store and answers with a status code, a success flag and a message.
 *
 * A request body is a record of the keys a handler reads, each possibly
 * absent; `enabled` keeps its JSON value because only its truthiness
 * matters.
 */
module Admin {
  import opened Wrappers
  import opened Strings
  import opened Dates
  import opened Tables
  import opened Db
  import opened TaskManagement
  import opened Scheduling

  /** The JSON values whose truthiness `1 if v else 0` tests. */
  datatype JsonValue = JNull | JBool(b: bool) | JInt(i: int) | JStr(s: string) | JList(items: seq<JsonValue>)

  /** Python truthiness: null, false, 0, "" and [] are false. */
  predicate Truthy(v: JsonValue) {
    match v
      case JNull => false
      case JBool(b) => b
      case JInt(i) => i != 0
      case JStr(s) => s != []
      case JList(items) => items != []
  }

  /** `1 if v else 0`. */
  function AsFlag(v: JsonValue): (f: int)
    ensures f == 1 <==> Truthy(v)
    ensures f == 0 || f == 1
  {
    if Truthy(v) then 1 else 0
  }

  /** The status code, `success` and optional `msg` of a JSON answer. */
  datatype Reply = Reply(code: int, success: bool, msg: Option<string>)

  const Ok200 := Reply(200, true, None)
  const EmptyCredentials := "用户名和密码不能为空"
  const NameTaken := "用户名已存在"
  const CannotDeleteSelf := "不能删除当前登录用户"
  const NoSuchTask := "任务不存在"
  const TaskTriggered := "任务已触发执行"
  const SchedulerReloaded := "调度器已重新加载"
  const NoScheduler := "调度器未初始化"

  // ------------------------------------------------------------------ users

  /** A `users` row as the JSON object `get_all_users` yields, before the password is popped. */
  datatype Cell = Text(text: string) | Number(n: int) | Buildings(stored: StoredBuildings)

  function UserDict(u: User): map<string, Cell> {
    map["id" := Number(u.id), "username" := Text(u.username), "password" := Text(u.password),
        "role" := Text(u.role), "enabled" := Number(u.enabled), "allowed_buildings" := Buildings(u.allowedBuildings)]
  }

  /** GET users: every user in table order, each without its `password` entry. */
  method GetUsers(db: Database) returns (out: seq<map<string, Cell>>)
    ensures |out| == |db.users|
    ensures forall i :: 0 <= i < |out| ==> out[i] == UserDict(db.users[i]) - {"password"}
    ensures forall i :: 0 <= i < |out| ==> out[i].Keys == {"id", "username", "role", "enabled", "allowed_buildings"}
    ensures forall i :: 0 <= i < |out| ==>
      out[i]["id"] == Number(db.users[i].id) && out[i]["username"] == Text(db.users[i].username) &&
      out[i]["role"] == Text(db.users[i].role) && out[i]["enabled"] == Number(db.users[i].enabled) &&
      out[i]["allowed_buildings"] == Buildings(db.users[i].allowedBuildings)
  {
    out := seq(|db.users|, i requires 0 <= i < |db.users| reads db => UserDict(db.users[i]));
    var k := 0;
    while k < |out|
      invariant 0 <= k <= |out| == |db.users|
      invariant forall i :: 0 <= i < k ==> out[i] == UserDict(db.users[i]) - {"password"}
      invariant forall i :: k <= i < |out| ==> out[i] == UserDict(db.users[i])
    {
      out := out[k := out[k] - {"password"}];
      k := k + 1;
    }
    forall i | 0 <= i < |out| ensures out[i].Keys == {"id", "username", "role", "enabled", "allowed_buildings"} {
      assert UserDict(db.users[i]).Keys == {"id", "username", "password", "role", "enabled", "allowed_buildings"};
    }
  }

  datatype NewUserBody = NewUserBody(username: Option<string>, password: Option<string>, role: Option<string>)

  /** The name, password and role POST users stores, or None when either is blank after stripping. */
  function NewUserFields(body: NewUserBody): (r: Option<(string, string, string)>)
    ensures r.None? <==> Strip(body.username.GetOr("")) == [] || Strip(body.password.GetOr("")) == []
    ensures r.Some? ==> r.value == (Strip(body.username.GetOr("")), Strip(body.password.GetOr("")), body.role.GetOr("user"))
  {
    var name := Strip(body.username.GetOr(""));
    var password := Strip(body.password.GetOr(""));
    if name == [] || password == [] then None else Some((name, password, body.role.GetOr("user")))
  }

  /** Stored names and passwords neither start nor end with whitespace and are not empty. */
  lemma NewUserFieldsStripped(body: NewUserBody)
    requires NewUserFields(body).Some?
    ensures var (name, password, _) := NewUserFields(body).value;
      name != [] && !IsSpace(name[0]) && !IsSpace(name[|name| - 1]) &&
      password != [] && !IsSpace(password[0]) && !IsSpace(password[|password| - 1])
  {
  }

  /** POST users: 400 without a name or password, 400 for a taken name, otherwise the user is created. */
  method CreateUser(db: Database, body: NewUserBody) returns (reply: Reply)
    requires db.Valid()
    modifies db
    ensures db.Valid()
    ensures NewUserFields(body).None? ==> reply == Reply(400, false, Some(EmptyCredentials)) && db.users == old(db.users)
    ensures NewUserFields(body).Some? && FindUser(old(db.users), NewUserFields(body).value.0).Some? ==>
      (reply == Reply(400, false, Some(NameTaken)) && db.users == old(db.users))
    ensures NewUserFields(body).Some? && FindUser(old(db.users), NewUserFields(body).value.0).None? ==>
      (reply == Ok200 &&
       db.users == old(db.users) + [User(old(db.nextUserId), NewUserFields(body).value.0, NewUserFields(body).value.1,
                                         NewUserFields(body).value.2, 1, Blank)])
    ensures unchanged(db`config, db`tasks, db`logs, db`permissions, db`operations)
  {
    match NewUserFields(body) {
      case None =>
        reply := Reply(400, false, Some(EmptyCredentials));
      case Some((name, password, role)) =>
        var ok := db.CreateUser(name, password, role);
        reply := if ok then Ok200 else Reply(400, false, Some(NameTaken));
    }
  }

  datatype UserEditBody = UserEditBody(password: Option<string>, role: Option<string>, enabled: Option<JsonValue>)

  /**
   * The fields PUT users forwards: the password only when it is not blank,
   * stripped; the role as given; `enabled` as 1 or 0 by truthiness.
   */
  function UserChangesOf(body: UserEditBody): (c: UserChanges)
    ensures c.password.Some? <==> body.password.Some? && Strip(body.password.value) != []
    ensures c.password.Some? ==> c.password.value == Strip(body.password.value)
    ensures c.role == body.role
    ensures c.enabled.Some? <==> body.enabled.Some?
    ensures body.enabled.Some? ==> (c.enabled.value == 1 <==> Truthy(body.enabled.value)) && (c.enabled.value == 0 || c.enabled.value == 1)
    ensures c.allowedBuildings.None?
  {
    UserChanges(
      if body.password.Some? && Strip(body.password.value) != [] then Some(Strip(body.password.value)) else None,
      body.role,
      if body.enabled.Some? then Some(AsFlag(body.enabled.value)) else None,
      None)
  }

  /** PUT users: always answers success; the store changes only when a field was forwarded. */
  method UpdateUser(db: Database, username: string, body: UserEditBody) returns (reply: Reply)
    requires db.Valid()
    modifies db
    ensures db.Valid() && reply == Ok200
    ensures db.users == (if HasUserChanges(UserChangesOf(body)) then UpdateUsers(old(db.users), username, UserChangesOf(body)) else old(db.users))
    ensures unchanged(db`config, db`tasks, db`logs, db`permissions, db`operations)
  {
    var _ := db.UpdateUser(username, UserChangesOf(body));
    reply := Ok200;
  }

  /** DELETE users: refuses the session's own user, otherwise removes the user and its permissions. */
  method DeleteUser(db: Database, sessionUser: Option<string>, username: string) returns (reply: Reply)
    requires db.Valid()
    modifies db
    ensures db.Valid()
    ensures sessionUser == Some(username) ==>
      (reply == Reply(400, false, Some(CannotDeleteSelf)) && db.users == old(db.users) && db.permissions == old(db.permissions))
    ensures sessionUser != Some(username) ==>
      (reply == Ok200 && db.users == WithoutUser(old(db.users), username) &&
       db.permissions == WithoutPermissionsOf(old(db.permissions), username))
    ensures unchanged(db`config, db`tasks, db`logs, db`operations)
  {
    if sessionUser == Some(username) {
      return Reply(400, false, Some(CannotDeleteSelf));
    }
    var _ := db.DeleteUser(username);
    reply := Ok200;
  }

  // ------------------------------------------------------------ permissions

  /** PUT permissions: the user's permissions become the given list (none when the key is absent). */
  method SetUserPerms(db: Database, username: string, permissions: Option<seq<string>>) returns (reply: Reply)
    requires db.Valid()
    modifies db
    ensures db.Valid() && reply == Ok200
    ensures PermissionsOf(db.permissions, username) == permissions.GetOr([])
    ensures forall p :: db.Allowed(username, p) <==> p in permissions.GetOr([])
    ensures unchanged(db`users, db`config, db`tasks, db`logs, db`operations)
  {
    var _ := db.SetUserPermissions(username, permissions.GetOr([]));
    reply := Ok200;
  }

  // ------------------------------------------------------------ email tasks

  datatype TaskBody = TaskBody(taskName: Option<string>, username: Option<string>, buildings: Option<seq<string>>,
                               recipients: Option<seq<string>>, subjectPrefix: Option<string>, startTime: Option<string>,
                               endTime: Option<string>, cronExpression: Option<string>, enabled: Option<JsonValue>)

  /** A new task's columns, with the defaults of POST email-tasks for absent keys (id left 0). */
  function NewTaskOf(body: TaskBody): (t: EmailTask)
    ensures t.id == 0
    ensures t.taskName == (if body.taskName.Some? then body.taskName.value else "")
    ensures t.username == (if body.username.Some? then body.username.value else "")
    ensures t.buildings == (if body.buildings.Some? then body.buildings.value else [])
    ensures t.recipients == (if body.recipients.Some? then body.recipients.value else [])
    ensures t.subjectPrefix == (if body.subjectPrefix.Some? then body.subjectPrefix.value else "")
    ensures t.startTime == (if body.startTime.Some? then body.startTime.value else "23:20:00")
    ensures t.endTime == (if body.endTime.Some? then body.endTime.value else "05:30:00")
    ensures t.cronExpression == (if body.cronExpression.Some? then body.cronExpression.value else DefaultCronExpression)
    ensures body.enabled.None? ==> t.enabled == 1
    ensures body.enabled.Some? ==> (t.enabled == 1 <==> Truthy(body.enabled.value)) && (t.enabled == 0 || t.enabled == 1)
  {
    EmailTask(0, body.taskName.GetOr(""), body.username.GetOr(""), body.buildings.GetOr([]), body.recipients.GetOr([]),
              body.subjectPrefix.GetOr(""), body.startTime.GetOr("23:20:00"), body.endTime.GetOr("05:30:00"),
              body.cronExpression.GetOr(DefaultCronExpression), AsFlag(body.enabled.GetOr(JBool(true))))
  }

  /** POST email-tasks: the task is stored under the next id, which is answered. */
  method CreateEmailTask(db: Database, body: TaskBody) returns (reply: Reply, id: nat)
    requires db.Valid()
    modifies db
    ensures db.Valid() && reply == Ok200
    ensures id == old(db.nextTaskId)
    ensures db.tasks == old(db.tasks) + [NewTaskOf(body).(id := id)]
    ensures unchanged(db`users, db`config, db`logs, db`permissions, db`operations)
  {
    var t := NewTaskOf(body);
    id := db.CreateEmailTask(t.taskName, t.username, t.buildings, t.recipients, t.subjectPrefix, t.startTime,
                             t.endTime, t.cronExpression, t.enabled);
    reply := Ok200;
  }

  /** The fields PUT email-tasks forwards: those present, with `enabled` as 1 or 0. */
  function TaskChangesOf(body: TaskBody): (c: TaskChanges)
    ensures c.taskName == body.taskName && c.username == body.username && c.buildings == body.buildings
    ensures c.recipients == body.recipients && c.subjectPrefix == body.subjectPrefix
    ensures c.startTime == body.startTime && c.endTime == body.endTime && c.cronExpression == body.cronExpression
    ensures c.enabled.Some? <==> body.enabled.Some?
    ensures body.enabled.Some? ==> (c.enabled.value == 1 <==> Truthy(body.enabled.value)) && (c.enabled.value == 0 || c.enabled.value == 1)
    ensures HasTaskChanges(c) <==>
      (body.taskName.Some? || body.username.Some? || body.buildings.Some? || body.recipients.Some? ||
       body.subjectPrefix.Some? || body.startTime.Some? || body.endTime.Some? || body.cronExpression.Some? || body.enabled.Some?)
  {
    TaskChanges(body.taskName, body.username, body.buildings, body.recipients, body.subjectPrefix, body.startTime,
                body.endTime, body.cronExpression, if body.enabled.Some? then Some(AsFlag(body.enabled.value)) else None)
  }

  /** PUT email-tasks: always answers success. */
  method UpdateEmailTask(db: Database, id: nat, body: TaskBody) returns (reply: Reply)
    requires db.Valid()
    modifies db
    ensures db.Valid() && reply == Ok200
    ensures db.tasks == (if HasTaskChanges(TaskChangesOf(body)) then UpdateTasks(old(db.tasks), id, TaskChangesOf(body)) else old(db.tasks))
    ensures HasTaskChanges(TaskChangesOf(body)) ==>
      FindTask(db.tasks, id) == (match FindTask(old(db.tasks), id) case None => None case Some(t) => Some(ApplyTaskChanges(t, TaskChangesOf(body))))
    ensures forall other :: other != id ==> FindTask(db.tasks, other) == FindTask(old(db.tasks), other)
    ensures unchanged(db`users, db`config, db`logs, db`permissions, db`operations)
  {
    var _ := db.UpdateEmailTask(id, TaskChangesOf(body));
    reply := Ok200;
  }

  /** DELETE email-tasks: always answers success. */
  method DeleteEmailTask(db: Database, id: nat) returns (reply: Reply)
    requires db.Valid()
    modifies db
    ensures db.Valid() && reply == Ok200
    ensures db.tasks == WithoutTask(old(db.tasks), id)
    ensures unchanged(db`users, db`config, db`logs, db`permissions, db`operations)
  {
    var _ := db.DeleteEmailTask(id);
    reply := Ok200;
  }

  /**
   * POST trigger-task: 404 and no run for an unknown id; otherwise the task
   * runs once and the answer is success, unless the generator exits: that
   * SystemExit passes the handler's `except Exception` and no answer is
   * given (None).
   */
  method TriggerTask(tm: TaskManager, id: nat, process: Process, send: Sender, now: DateTime) returns (reply: Option<Reply>)
    requires tm.db.Valid() && ValidDateTime(now)
    modifies tm.db
    ensures tm.db.Valid()
    ensures FindTask(old(tm.db.tasks), id).None? ==> reply == Some(Reply(404, false, Some(NoSuchTask))) && tm.db.logs == old(tm.db.logs)
    ensures FindTask(old(tm.db.tasks), id).Some? ==>
      (reply == (if Exits(process, FindTask(old(tm.db.tasks), id).value) then None else Some(Reply(200, true, Some(TaskTriggered)))) &&
       tm.db.logs == old(tm.db.logs) + [LogOf(old(tm.db.nextLogId), FindTask(old(tm.db.tasks), id).value,
                                              Outcome(FindTask(old(tm.db.tasks), id).value, process, send, now).0)])
    ensures unchanged(tm.db`users, tm.db`config, tm.db`tasks, tm.db`permissions, tm.db`operations)
  {
    var task := tm.db.GetEmailTask(id);
    if task.None? {
      return Some(Reply(404, false, Some(NoSuchTask)));
    }
    var _, exited := tm.ExecuteSingleTask(task.value, process, send, now);
    if exited {
      return None;
    }
    reply := Some(Reply(200, true, Some(TaskTriggered)));
  }

  // ----------------------------------------------------------------- config

  datatype ConfigItem = ConfigItem(key: string, value: string, description: Option<string>)

  /** The configuration after `set_config` for each item in turn. */
  function UpsertAll(config: map<string, ConfigEntry>, items: seq<ConfigItem>): map<string, ConfigEntry> {
    if items == [] then config
    else var last := items[|items| - 1];
      Upsert(UpsertAll(config, items[..|items| - 1]), last.key, last.value, last.description)
  }

  /** PUT config: every item is upserted, in order. */
  method UpdateConfig(db: Database, items: seq<ConfigItem>) returns (reply: Reply)
    requires db.Valid()
    modifies db
    ensures db.Valid() && reply == Ok200
    ensures db.config == UpsertAll(old(db.config), items)
    ensures unchanged(db`users, db`tasks, db`logs, db`permissions, db`operations)
  {
    var i := 0;
    while i < |items|
      invariant 0 <= i <= |items|
      invariant db.Valid()
      invariant db.config == UpsertAll(old(db.config), items[..i])
      invariant unchanged(db`users, db`tasks, db`logs, db`permissions, db`operations)
    {
      assert items[..i + 1][..i] == items[..i];
      var _ := db.SetConfig(items[i].key, items[i].value, items[i].description);
      i := i + 1;
    }
    assert items[..i] == items;
    reply := Ok200;
  }

  /** After PUT config, a key no item names reads as before. */
  lemma {:induction false} UpsertAllOtherKeys(config: map<string, ConfigEntry>, items: seq<ConfigItem>, key: string, default: string)
    requires forall i :: 0 <= i < |items| ==> items[i].key != key
    ensures ConfigValue(UpsertAll(config, items), key, default) == ConfigValue(config, key, default)
  {
    if items != [] {
      var pre := items[..|items| - 1];
      var last := items[|items| - 1];
      assert forall i :: 0 <= i < |pre| ==> pre[i] == items[i];
      UpsertAllOtherKeys(config, pre, key, default);
      UpsertReadBack(UpsertAll(config, pre), last.key, last.value, last.description, key, default);
    }
  }

  /** After PUT config, a key reads as the value of the last item that names it. */
  lemma {:induction false} UpsertAllLastWins(config: map<string, ConfigEntry>, items: seq<ConfigItem>, i: nat, default: string)
    requires i < |items|
    requires forall j :: i < j < |items| ==> items[j].key != items[i].key
    ensures ConfigValue(UpsertAll(config, items), items[i].key, default) == items[i].value
  {
    var pre := items[..|items| - 1];
    var last := items[|items| - 1];
    var key := items[i].key;
    if i < |pre| {
      assert pre[i] == items[i];
      assert forall j :: i < j < |pre| ==> pre[j] == items[j];
      UpsertAllLastWins(config, pre, i, default);
    }
    UpsertReadBack(UpsertAll(config, pre), last.key, last.value, last.description, key, default);
  }

  // -------------------------------------------------------------- scheduler

  /**
   * GET scheduler/status: not running and no jobs without a manager;
   * otherwise whether its scheduler runs and the jobs `get_jobs` lists.  When
   * `get_jobs` raises, nothing catches it and Flask answers 500.
   */
  function SchedulerStatus(sm: Option<SchedulerManager>, nextRun: Job -> nat): (r: Result<(bool, seq<JobInfo>), int>)
    reads if sm.Some? then {sm.value} else {}
    ensures sm.None? ==> r == Ok((false, []))
    ensures sm.Some? && sm.value.GetJobs(nextRun).Err? ==> r == Err(500)
    ensures sm.Some? && sm.value.GetJobs(nextRun).Ok? ==>
      r.Ok? && r.value.1 == sm.value.GetJobs(nextRun).value &&
      (r.value.0 <==> sm.value.scheduler.Some? && sm.value.scheduler.value.running)
  {
    match sm
      case None => Ok((false, []))
      case Some(m) =>
        match m.GetJobs(nextRun)
          case Err(_) => Err(500)
          case Ok(jobs) => Ok((m.scheduler.Some? && m.scheduler.value.running, jobs))
  }

  /** POST scheduler/reload: 500 without a manager; otherwise the manager reloads and the answer is success. */
  method SchedulerReload(sm: Option<SchedulerManager>, valid: CronFields -> bool, validTz: string -> bool) returns (reply: Reply)
    requires sm.Some? ==> sm.value.db.Valid() && sm.value.Valid()
    modifies if sm.Some? then {sm.value} else {}
    ensures sm.None? ==> reply == Reply(500, false, Some(NoScheduler))
    ensures sm.Some? ==>
      (reply == Reply(200, true, Some(SchedulerReloaded)) &&
       sm.value.scheduler == StartOutcome(StopOutcome(old(sm.value.scheduler)), sm.value.db.config, sm.value.db.tasks, valid, validTz))
  {
    if sm.None? {
      return Reply(500, false, Some(NoScheduler));
    }
    sm.value.Reload(valid, validTz);
    reply := Reply(200, true, Some(SchedulerReloaded));
  }
}
