/**
 * The rows of the tables of database/db.py and what its queries compute from
 * them: users, system configuration, e-mail tasks, task logs, permissions and
 * operation logs.  Each table is a sequence in id (insertion) order; the
 * `Database` class (database.dfy) holds them and updates them with these
 * functions.
 *
 * JSON columns are held decoded; `allowed_buildings` keeps the three shapes
 * its text can have (empty, a JSON list, anything else).
 */
module Tables {
  import opened Wrappers

  /** The `allowed_buildings` text of a user. */
  datatype StoredBuildings = Blank | Encoded(list: seq<string>) | Malformed(text: string)

  datatype User = User(id: nat, username: string, password: string, role: string, enabled: int,
                       allowedBuildings: StoredBuildings)

  datatype ConfigEntry = ConfigEntry(value: string, description: Option<string>)

  datatype EmailTask = EmailTask(id: nat, taskName: string, username: string, buildings: seq<string>,
                                 recipients: seq<string>, subjectPrefix: string, startTime: string,
                                 endTime: string, cronExpression: string, enabled: int)

  datatype TaskLog = TaskLog(id: nat, emailTaskId: nat, username: string, status: string,
                             filePath: Option<string>, errorMessage: Option<string>)

  /** A `permissions` row; rows are inserted with `enabled = 1` and never disabled. */
  datatype Permission = Permission(username: string, permission: string)

  datatype OperationLog = OperationLog(username: string, action: string, detail: Option<string>, ipAddress: Option<string>)

  // ------------------------------------------------------------------- users

  /** `SELECT * FROM users WHERE username = ?`. */
  function FindUser(users: seq<User>, name: string): (r: Option<User>)
    ensures r.Some? ==> r.value in users && r.value.username == name
    ensures r.None? <==> forall i :: 0 <= i < |users| ==> users[i].username != name
  {
    if users == [] then None
    else if users[0].username == name then Some(users[0])
    else FindUser(users[1..], name)
  }

  /** The `UNIQUE` constraint on `username`. */
  predicate UniqueNames(users: seq<User>) {
    forall i, j :: 0 <= i < j < |users| ==> users[i].username != users[j].username
  }

  /** With unique names, a stored user is the one found by its name. */
  lemma {:induction false} FindUserOfMember(users: seq<User>, i: nat)
    requires UniqueNames(users) && i < |users|
    ensures FindUser(users, users[i].username) == Some(users[i])
  {
    if i > 0 {
      assert users[0].username != users[i].username;
      assert UniqueNames(users[1..]) by {
        forall a, b | 0 <= a < b < |users| - 1 ensures users[1..][a].username != users[1..][b].username {
          assert users[1..][a] == users[a + 1] && users[1..][b] == users[b + 1];
        }
      }
      FindUserOfMember(users[1..], i - 1);
    }
  }

  /** `verify_user`: the user, if it exists, is enabled and has exactly this password. */
  function VerifyUser(users: seq<User>, name: string, password: string): (r: Option<User>)
    ensures r.Some? <==> FindUser(users, name).Some? && FindUser(users, name).value.enabled != 0 &&
                         FindUser(users, name).value.password == password
    ensures r.Some? ==> r == FindUser(users, name)
  {
    match FindUser(users, name)
      case None => None
      case Some(u) => if u.enabled != 0 && u.password == password then Some(u) else None
  }

  /** The keyword arguments of `update_user` that it keeps: password, role, enabled, allowed_buildings. */
  datatype UserChanges = UserChanges(password: Option<string>, role: Option<string>, enabled: Option<int>,
                                     allowedBuildings: Option<StoredBuildings>)

  predicate HasUserChanges(c: UserChanges) {
    c.password.Some? || c.role.Some? || c.enabled.Some? || c.allowedBuildings.Some?
  }

  function ApplyUserChanges(u: User, c: UserChanges): User {
    User(u.id, u.username, c.password.GetOr(u.password), c.role.GetOr(u.role), c.enabled.GetOr(u.enabled),
         c.allowedBuildings.GetOr(u.allowedBuildings))
  }

  /** `UPDATE users SET ... WHERE username = ?`. */
  function UpdateUsers(users: seq<User>, name: string, c: UserChanges): (r: seq<User>)
    ensures |r| == |users|
  {
    seq(|users|, i requires 0 <= i < |users| => if users[i].username == name then ApplyUserChanges(users[i], c) else users[i])
  }

  /** An update changes only the named user, only in the given fields, and keeps names unique. */
  lemma UpdateUsersEffect(users: seq<User>, name: string, c: UserChanges)
    requires UniqueNames(users)
    ensures UniqueNames(UpdateUsers(users, name, c))
    ensures forall other :: other != name ==> FindUser(UpdateUsers(users, name, c), other) == FindUser(users, other)
    ensures FindUser(UpdateUsers(users, name, c), name) ==
      (match FindUser(users, name) case None => None case Some(u) => Some(ApplyUserChanges(u, c)))
  {
    var r := UpdateUsers(users, name, c);
    forall other ensures FindUser(r, other) == (if other == name then
      (match FindUser(users, name) case None => None case Some(u) => Some(ApplyUserChanges(u, c)))
      else FindUser(users, other))
    {
      if FindUser(users, other).Some? {
        var i :| 0 <= i < |users| && users[i] == FindUser(users, other).value;
        FindUserOfMember(users, i);
        FindUserOfMember(r, i);
      }
    }
  }

  /** `json.loads` of the stored text; empty text and text that is not JSON both mean "every building". */
  function DecodeBuildings(s: StoredBuildings): seq<string> {
    match s
      case Blank => []
      case Encoded(list) => list
      case Malformed(_) => []
  }

  /** `json.dumps(buildings) if buildings else ''`. */
  function EncodeBuildings(buildings: seq<string>): StoredBuildings {
    if buildings == [] then Blank else Encoded(buildings)
  }

  lemma DecodeEncodeBuildings(buildings: seq<string>)
    ensures DecodeBuildings(EncodeBuildings(buildings)) == buildings
  {
  }

  /** `get_user_buildings`: [] (every building) for a missing user, an empty value or a value that is not JSON. */
  function UserBuildings(users: seq<User>, name: string): (r: seq<string>)
    ensures FindUser(users, name).None? ==> r == []
    ensures FindUser(users, name).Some? ==> r == DecodeBuildings(FindUser(users, name).value.allowedBuildings)
  {
    match FindUser(users, name)
      case None => []
      case Some(u) => DecodeBuildings(u.allowedBuildings)
  }

  /** `DELETE FROM users WHERE username = ?`. */
  function WithoutUser(users: seq<User>, name: string): (r: seq<User>)
    ensures forall u :: u in r <==> u in users && u.username != name
    ensures |r| <= |users|
  {
    if users == [] then []
    else if users[|users| - 1].username == name then WithoutUser(users[..|users| - 1], name)
    else WithoutUser(users[..|users| - 1], name) + [users[|users| - 1]]
  }

  /** Deleting a user keeps the remaining names unique, and the name is gone. */
  lemma {:induction false} WithoutUserUnique(users: seq<User>, name: string)
    requires UniqueNames(users)
    ensures UniqueNames(WithoutUser(users, name))
    ensures FindUser(WithoutUser(users, name), name).None?
  {
    if users != [] {
      var pre := users[..|users| - 1];
      var last := users[|users| - 1];
      assert UniqueNames(pre) by {
        forall i, j | 0 <= i < j < |pre| ensures pre[i].username != pre[j].username {
          assert pre[i] == users[i] && pre[j] == users[j];
        }
      }
      WithoutUserUnique(pre, name);
      var w := WithoutUser(pre, name);
      if last.username != name {
        forall i | 0 <= i < |w| ensures w[i].username != last.username {
          assert w[i] in w;
          var k :| 0 <= k < |pre| && pre[k] == w[i];
          assert users[k] == w[i];
        }
      }
    }
  }

  // ------------------------------------------------------------------ config

  /** `set_config`: an existing key gets the new value and keeps its description; a new key is inserted with its description. */
  function Upsert(config: map<string, ConfigEntry>, key: string, value: string, description: Option<string>): (r: map<string, ConfigEntry>)
    ensures key in r && r[key].value == value
    ensures key in config ==> r[key].description == config[key].description
    ensures key !in config ==> r[key].description == description
    ensures forall k :: k != key ==> (k in r <==> k in config) && (k in config ==> r[k] == config[k])
  {
    if key in config then config[key := config[key].(value := value)]
    else config[key := ConfigEntry(value, description)]
  }

  /** `get_config_dict`. */
  function ConfigDict(config: map<string, ConfigEntry>): (d: map<string, string>)
    ensures d.Keys == config.Keys
    ensures forall k :: k in d ==> d[k] == config[k].value
  {
    map k | k in config :: config[k].value
  }

  /** `get_config(key, default)`. */
  function ConfigValue(config: map<string, ConfigEntry>, key: string, default: string): string {
    if key in config then config[key].value else default
  }

  /** After `set_config(key, value)` the key reads back as the value and every other key as before. */
  lemma UpsertReadBack(config: map<string, ConfigEntry>, key: string, value: string, description: Option<string>, other: string, default: string)
    ensures ConfigValue(Upsert(config, key, value, description), key, default) == value
    ensures other != key ==> ConfigValue(Upsert(config, key, value, description), other, default) == ConfigValue(config, other, default)
  {
  }

  // ------------------------------------------------------------- email tasks

  /** Ids in strictly increasing order, as `ORDER BY id` returns them. */
  predicate IdsIncreasing(tasks: seq<EmailTask>) {
    forall i, j :: 0 <= i < j < |tasks| ==> tasks[i].id < tasks[j].id
  }

  /** `SELECT * FROM email_tasks WHERE id = ?`. */
  function FindTask(tasks: seq<EmailTask>, id: nat): (r: Option<EmailTask>)
    ensures r.Some? ==> r.value in tasks && r.value.id == id
    ensures r.None? <==> forall i :: 0 <= i < |tasks| ==> tasks[i].id != id
  {
    if tasks == [] then None
    else if tasks[0].id == id then Some(tasks[0])
    else FindTask(tasks[1..], id)
  }

  /** `get_enabled_email_tasks`: the tasks with `enabled = 1`, in table order. */
  function EnabledTasks(tasks: seq<EmailTask>): (r: seq<EmailTask>)
    ensures forall t :: t in r <==> t in tasks && t.enabled == 1
    ensures |r| <= |tasks|
  {
    if tasks == [] then []
    else if tasks[|tasks| - 1].enabled == 1 then EnabledTasks(tasks[..|tasks| - 1]) + [tasks[|tasks| - 1]]
    else EnabledTasks(tasks[..|tasks| - 1])
  }

  /** The enabled tasks come out ordered by id, as the query asks. */
  lemma {:induction false} EnabledTasksOrdered(tasks: seq<EmailTask>)
    requires IdsIncreasing(tasks)
    ensures IdsIncreasing(EnabledTasks(tasks))
  {
    if tasks != [] {
      var pre := tasks[..|tasks| - 1];
      var last := tasks[|tasks| - 1];
      assert IdsIncreasing(pre) by {
        forall i, j | 0 <= i < j < |pre| ensures pre[i].id < pre[j].id {
          assert pre[i] == tasks[i] && pre[j] == tasks[j];
        }
      }
      EnabledTasksOrdered(pre);
      var r := EnabledTasks(pre);
      forall t | t in r ensures t.id < last.id {
        var i :| 0 <= i < |pre| && pre[i] == t;
        assert tasks[i] == t;
      }
    }
  }

  /** The keyword arguments of `update_email_task` that it keeps. */
  datatype TaskChanges = TaskChanges(taskName: Option<string>, username: Option<string>, buildings: Option<seq<string>>,
                                     recipients: Option<seq<string>>, subjectPrefix: Option<string>,
                                     startTime: Option<string>, endTime: Option<string>,
                                     cronExpression: Option<string>, enabled: Option<int>)

  predicate HasTaskChanges(c: TaskChanges) {
    c.taskName.Some? || c.username.Some? || c.buildings.Some? || c.recipients.Some? || c.subjectPrefix.Some? ||
    c.startTime.Some? || c.endTime.Some? || c.cronExpression.Some? || c.enabled.Some?
  }

  function ApplyTaskChanges(t: EmailTask, c: TaskChanges): EmailTask {
    EmailTask(t.id, c.taskName.GetOr(t.taskName), c.username.GetOr(t.username), c.buildings.GetOr(t.buildings),
              c.recipients.GetOr(t.recipients), c.subjectPrefix.GetOr(t.subjectPrefix), c.startTime.GetOr(t.startTime),
              c.endTime.GetOr(t.endTime), c.cronExpression.GetOr(t.cronExpression), c.enabled.GetOr(t.enabled))
  }

  /** `UPDATE email_tasks SET ... WHERE id = ?`. */
  function UpdateTasks(tasks: seq<EmailTask>, id: nat, c: TaskChanges): (r: seq<EmailTask>)
    ensures |r| == |tasks|
    ensures forall i :: 0 <= i < |tasks| ==> r[i].id == tasks[i].id
  {
    seq(|tasks|, i requires 0 <= i < |tasks| => if tasks[i].id == id then ApplyTaskChanges(tasks[i], c) else tasks[i])
  }

  /** Looking up any id after the update: the updated id finds its task with the changes applied, any other id what it found before. */
  lemma {:induction false} UpdateTasksFind(tasks: seq<EmailTask>, id: nat, c: TaskChanges, x: nat)
    ensures FindTask(UpdateTasks(tasks, id, c), x) ==
      if x == id then (match FindTask(tasks, id) case None => None case Some(t) => Some(ApplyTaskChanges(t, c)))
      else FindTask(tasks, x)
  {
    if tasks != [] {
      assert UpdateTasks(tasks, id, c)[1..] == UpdateTasks(tasks[1..], id, c);
      UpdateTasksFind(tasks[1..], id, c, x);
    }
  }

  /**
   * `update_email_task`: the task with that id gets the changes, every other
   * task reads back as before, and the table stays ordered by id.
   */
  lemma UpdateTasksEffect(tasks: seq<EmailTask>, id: nat, c: TaskChanges)
    requires IdsIncreasing(tasks)
    ensures IdsIncreasing(UpdateTasks(tasks, id, c))
    ensures FindTask(UpdateTasks(tasks, id, c), id) ==
      (match FindTask(tasks, id) case None => None case Some(t) => Some(ApplyTaskChanges(t, c)))
    ensures forall other :: other != id ==> FindTask(UpdateTasks(tasks, id, c), other) == FindTask(tasks, other)
  {
    UpdateTasksFind(tasks, id, c, id);
    forall other | other != id ensures FindTask(UpdateTasks(tasks, id, c), other) == FindTask(tasks, other) {
      UpdateTasksFind(tasks, id, c, other);
    }
  }


  /** `DELETE FROM email_tasks WHERE id = ?`. */
  function WithoutTask(tasks: seq<EmailTask>, id: nat): (r: seq<EmailTask>)
    ensures forall t :: t in r <==> t in tasks && t.id != id
    ensures forall i :: 0 <= i < |r| ==> exists j :: 0 <= j < |tasks| && r[i] == tasks[j]
  {
    if tasks == [] then []
    else if tasks[|tasks| - 1].id == id then WithoutTask(tasks[..|tasks| - 1], id)
    else WithoutTask(tasks[..|tasks| - 1], id) + [tasks[|tasks| - 1]]
  }

  /** Deleting keeps the remaining tasks in id order. */
  lemma {:induction false} WithoutTaskOrdered(tasks: seq<EmailTask>, id: nat)
    requires IdsIncreasing(tasks)
    ensures IdsIncreasing(WithoutTask(tasks, id))
  {
    if tasks != [] {
      var pre := tasks[..|tasks| - 1];
      assert IdsIncreasing(pre) by {
        forall i, j | 0 <= i < j < |pre| ensures pre[i].id < pre[j].id {
          assert pre[i] == tasks[i] && pre[j] == tasks[j];
        }
      }
      WithoutTaskOrdered(pre, id);
      var kept := WithoutTask(pre, id);
      var last := tasks[|tasks| - 1];
      forall t | t in kept ensures t.id < last.id {
        var i :| 0 <= i < |pre| && pre[i] == t;
        assert tasks[i] == t;
      }
      if last.id != id {
        forall i, j | 0 <= i < j < |kept + [last]| ensures (kept + [last])[i].id < (kept + [last])[j].id {
          if j == |kept| {
            assert (kept + [last])[i] == kept[i] && kept[i] in kept;
          } else {
            assert (kept + [last])[i] == kept[i] && (kept + [last])[j] == kept[j];
          }
        }
      }
    }
  }

  // --------------------------------------------------------------- task logs

  /** `UPDATE task_logs SET status, file_path, error_message WHERE id = ?`: the two texts are overwritten, absent ones with NULL. */
  function UpdateLogs(logs: seq<TaskLog>, id: nat, status: string, filePath: Option<string>, errorMessage: Option<string>): (r: seq<TaskLog>)
    ensures |r| == |logs|
    ensures forall i :: 0 <= i < |logs| ==> r[i].id == logs[i].id && r[i].emailTaskId == logs[i].emailTaskId && r[i].username == logs[i].username
    ensures forall i :: 0 <= i < |logs| && logs[i].id == id ==> r[i].status == status && r[i].filePath == filePath && r[i].errorMessage == errorMessage
    ensures forall i :: 0 <= i < |logs| && logs[i].id != id ==> r[i] == logs[i]
  {
    seq(|logs|, i requires 0 <= i < |logs| =>
      if logs[i].id == id then logs[i].(status := status, filePath := filePath, errorMessage := errorMessage) else logs[i])
  }

  /** Updating the row just appended (its id above every earlier one) rewrites that row alone. */
  lemma UpdateNewestLog(logs: seq<TaskLog>, row: TaskLog, status: string, filePath: Option<string>, errorMessage: Option<string>)
    requires forall i :: 0 <= i < |logs| ==> logs[i].id < row.id
    ensures UpdateLogs(logs + [row], row.id, status, filePath, errorMessage) ==
            logs + [row.(status := status, filePath := filePath, errorMessage := errorMessage)]
  {
  }

  // ------------------------------------------------------------- permissions

  /** `get_user_permissions`: the user's permissions in table order. */
  function PermissionsOf(rows: seq<Permission>, name: string): seq<string> {
    if rows == [] then []
    else if rows[|rows| - 1].username == name then PermissionsOf(rows[..|rows| - 1], name) + [rows[|rows| - 1].permission]
    else PermissionsOf(rows[..|rows| - 1], name)
  }

  /** The listed permissions are exactly those with a row for the user. */
  lemma {:induction false} PermissionsOfMembers(rows: seq<Permission>, name: string, p: string)
    ensures p in PermissionsOf(rows, name) <==> HasPermission(rows, name, p)
  {
    if rows != [] {
      var pre := rows[..|rows| - 1];
      PermissionsOfMembers(pre, name, p);
      assert rows == pre + [rows[|rows| - 1]];
    }
  }

  /** `has_permission`. */
  predicate HasPermission(rows: seq<Permission>, name: string, p: string) {
    Permission(name, p) in rows
  }

  /** `DELETE FROM permissions WHERE username = ?`. */
  function WithoutPermissionsOf(rows: seq<Permission>, name: string): (r: seq<Permission>)
    ensures forall x :: x in r <==> x in rows && x.username != name
  {
    if rows == [] then []
    else if rows[|rows| - 1].username == name then WithoutPermissionsOf(rows[..|rows| - 1], name)
    else WithoutPermissionsOf(rows[..|rows| - 1], name) + [rows[|rows| - 1]]
  }

  /** The rows `set_user_permissions` inserts, one per listed permission, in list order. */
  function Grants(name: string, perms: seq<string>): (r: seq<Permission>)
    ensures |r| == |perms|
    ensures forall i :: 0 <= i < |perms| ==> r[i] == Permission(name, perms[i])
  {
    seq(|perms|, i requires 0 <= i < |perms| => Permission(name, perms[i]))
  }

  /** No permission of a user survives the deletion of its rows. */
  lemma {:induction false} PermissionsOfWithout(rows: seq<Permission>, name: string)
    ensures PermissionsOf(WithoutPermissionsOf(rows, name), name) == []
  {
    if rows != [] {
      var pre := rows[..|rows| - 1];
      PermissionsOfWithout(pre, name);
      var w := WithoutPermissionsOf(pre, name);
      var last := rows[|rows| - 1];
      if last.username != name {
        assert (w + [last])[..|w + [last]| - 1] == w;
      }
    }
  }

  /** The permissions read back from freshly inserted rows are the listed ones, in order. */
  lemma {:induction false} PermissionsOfAppend(rows: seq<Permission>, name: string, perms: seq<string>)
    ensures PermissionsOf(rows + Grants(name, perms), name) == PermissionsOf(rows, name) + perms
    decreases |perms|
  {
    if perms == [] {
      assert rows + Grants(name, perms) == rows;
    } else {
      var pre := perms[..|perms| - 1];
      var all := rows + Grants(name, perms);
      assert Grants(name, perms)[..|pre|] == Grants(name, pre);
      assert all[..|all| - 1] == rows + Grants(name, pre);
      assert all[|all| - 1] == Permission(name, perms[|perms| - 1]);
      assert PermissionsOf(all, name) == PermissionsOf(rows + Grants(name, pre), name) + [perms[|perms| - 1]];
      PermissionsOfAppend(rows, name, pre);
      assert pre + [perms[|perms| - 1]] == perms;
    }
  }

  /**
   * `set_user_permissions(name, perms)` replaces the user's set: afterwards
   * the user's permissions are exactly the list, and `has_permission(name, p)`
   * holds iff p is listed.
   */
  lemma ReplacePermissions(rows: seq<Permission>, name: string, perms: seq<string>, p: string)
    ensures PermissionsOf(WithoutPermissionsOf(rows, name) + Grants(name, perms), name) == perms
    ensures HasPermission(WithoutPermissionsOf(rows, name) + Grants(name, perms), name, p) <==> p in perms
  {
    var r := WithoutPermissionsOf(rows, name) + Grants(name, perms);
    PermissionsOfAppend(WithoutPermissionsOf(rows, name), name, perms);
    PermissionsOfWithout(rows, name);
    PermissionsOfMembers(r, name, p);
  }

  /** Replacing one user's permissions leaves every other user's as they were. */
  lemma ReplaceKeepsOthers(rows: seq<Permission>, name: string, perms: seq<string>, other: string, p: string)
    requires other != name
    ensures HasPermission(WithoutPermissionsOf(rows, name) + Grants(name, perms), other, p) <==> HasPermission(rows, other, p)
  {
    assert Permission(other, p) !in Grants(name, perms);
  }
}
