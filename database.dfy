/**
 * The `Database` class of database/db.py as in-memory tables.  Every
 * method that writes reassigns the table it touches with the table function
 * of module Tables and states the whole new state; `Valid` is the table
 * constraints the methods keep (unique user names, task ids in insertion
 * order below the id counter).
 *
 * Rows inserted by `create_user` take the column defaults enabled = 1 and an
 * empty `allowed_buildings`; ids are handed out by a counter.
 */
module Db {
  import opened Wrappers
  import opened Tables

  class Database {
    var users: seq<User>
    var nextUserId: nat
    var config: map<string, ConfigEntry>
    var tasks: seq<EmailTask>
    var nextTaskId: nat
    var logs: seq<TaskLog>
    var nextLogId: nat
    var permissions: seq<Permission>
    var operations: seq<OperationLog>

    ghost predicate Valid()
      reads this
    {
      UniqueNames(users) &&
      IdsIncreasing(tasks) &&
      (forall i :: 0 <= i < |tasks| ==> tasks[i].id < nextTaskId) &&
      (forall i :: 0 <= i < |logs| ==> logs[i].id < nextLogId)
    }

    /** A freshly initialised store: every table empty, ids starting at 1. */
    constructor ()
      ensures Valid()
      ensures users == [] && config == map[] && tasks == [] && logs == [] && permissions == [] && operations == []
      ensures nextUserId == 1 && nextTaskId == 1 && nextLogId == 1
    {
      users := [];
      nextUserId := 1;
      config := map[];
      tasks := [];
      nextTaskId := 1;
      logs := [];
      nextLogId := 1;
      permissions := [];
      operations := [];
    }

    // ----------------------------------------------------------------- reads

    /** `get_user`. */
    function GetUser(name: string): Option<User>
      reads this
    {
      FindUser(users, name)
    }

    /** `get_config(key, default)`. */
    function GetConfig(key: string, default: string): string
      reads this
    {
      ConfigValue(config, key, default)
    }

    /** `get_email_task`. */
    function GetEmailTask(id: nat): Option<EmailTask>
      reads this
    {
      FindTask(tasks, id)
    }

    /** `get_enabled_email_tasks`. */
    function GetEnabledEmailTasks(): seq<EmailTask>
      reads this
    {
      EnabledTasks(tasks)
    }

    /** `has_permission`. */
    predicate Allowed(name: string, p: string)
      reads this
    {
      HasPermission(permissions, name, p)
    }

    // ----------------------------------------------------------------- users

    /** `update_user`: False and no change without a recognised field; otherwise True, whether or not the user exists. */
    method UpdateUser(name: string, c: UserChanges) returns (ok: bool)
      requires Valid()
      modifies this
      ensures Valid()
      ensures ok == HasUserChanges(c)
      ensures users == (if ok then UpdateUsers(old(users), name, c) else old(users))
      ensures forall other :: other != name ==> FindUser(users, other) == FindUser(old(users), other)
      ensures ok && FindUser(old(users), name).Some? ==> FindUser(users, name) == Some(ApplyUserChanges(FindUser(old(users), name).value, c))
      ensures FindUser(old(users), name).None? ==> FindUser(users, name).None?
      ensures unchanged(this`config, this`tasks, this`logs, this`permissions, this`operations)
      ensures nextUserId == old(nextUserId) && nextTaskId == old(nextTaskId) && nextLogId == old(nextLogId)
    {
      ok := HasUserChanges(c);
      if ok {
        UpdateUsersEffect(users, name, c);
        users := UpdateUsers(users, name, c);
      }
    }

    /** `set_user_buildings`: an empty list is stored as the empty text, and the list reads back for an existing user. */
    method SetUserBuildings(name: string, buildings: seq<string>) returns (ok: bool)
      requires Valid()
      modifies this
      ensures Valid() && ok
      ensures users == UpdateUsers(old(users), name, UserChanges(None, None, None, Some(EncodeBuildings(buildings))))
      ensures buildings == [] && FindUser(users, name).Some? ==> FindUser(users, name).value.allowedBuildings == Blank
      ensures FindUser(old(users), name).Some? ==> UserBuildings(users, name) == buildings
      ensures unchanged(this`config, this`tasks, this`logs, this`permissions, this`operations)
      ensures nextUserId == old(nextUserId) && nextTaskId == old(nextTaskId) && nextLogId == old(nextLogId)
    {
      DecodeEncodeBuildings(buildings);
      ok := UpdateUser(name, UserChanges(None, None, None, Some(EncodeBuildings(buildings))));
    }

    /** `create_user`: refused (IntegrityError) for a taken name, otherwise a new enabled user. */
    method CreateUser(name: string, password: string, role: string) returns (ok: bool)
      requires Valid()
      modifies this
      ensures Valid()
      ensures ok <==> FindUser(old(users), name).None?
      ensures !ok ==> users == old(users) && nextUserId == old(nextUserId)
      ensures ok ==> users == old(users) + [User(old(nextUserId), name, password, role, 1, Blank)] && nextUserId == old(nextUserId) + 1
      ensures ok ==> FindUser(users, name) == Some(User(old(nextUserId), name, password, role, 1, Blank))
      ensures ok ==> VerifyUser(users, name, password).Some?
      ensures unchanged(this`config, this`tasks, this`logs, this`permissions, this`operations)
      ensures nextTaskId == old(nextTaskId) && nextLogId == old(nextLogId)
    {
      if FindUser(users, name).Some? {
        return false;
      }
      var u := User(nextUserId, name, password, role, 1, Blank);
      users := users + [u];
      nextUserId := nextUserId + 1;
      FindUserOfMember(users, |users| - 1);
      ok := true;
    }

    /** `delete_user`: removes the user and every permission row of that name. */
    method DeleteUser(name: string) returns (ok: bool)
      requires Valid()
      modifies this
      ensures Valid() && ok
      ensures users == WithoutUser(old(users), name)
      ensures permissions == WithoutPermissionsOf(old(permissions), name)
      ensures FindUser(users, name).None? && PermissionsOf(permissions, name) == []
      ensures forall u :: u in users <==> u in old(users) && u.username != name
      ensures unchanged(this`config, this`tasks, this`logs, this`operations)
      ensures nextUserId == old(nextUserId) && nextTaskId == old(nextTaskId) && nextLogId == old(nextLogId)
    {
      WithoutUserUnique(users, name);
      PermissionsOfWithout(permissions, name);
      users := WithoutUser(users, name);
      permissions := WithoutPermissionsOf(permissions, name);
      ok := true;
    }

    // ---------------------------------------------------------------- config

    /** `set_config`: an upsert that always answers True. */
    method SetConfig(key: string, value: string, description: Option<string>) returns (ok: bool)
      requires Valid()
      modifies this
      ensures Valid() && ok
      ensures config == Upsert(old(config), key, value, description)
      ensures GetConfig(key, "") == value
      ensures unchanged(this`users, this`tasks, this`logs, this`permissions, this`operations)
      ensures nextUserId == old(nextUserId) && nextTaskId == old(nextTaskId) && nextLogId == old(nextLogId)
    {
      config := Upsert(config, key, value, description);
      ok := true;
    }

    // ----------------------------------------------------------- email tasks

    /** `create_email_task`: a new row under the next id, which is returned. */
    method CreateEmailTask(taskName: string, username: string, buildings: seq<string>, recipients: seq<string>,
                           subjectPrefix: string, startTime: string, endTime: string, cronExpression: string,
                           enabled: int) returns (id: nat)
      requires Valid()
      modifies this
      ensures Valid()
      ensures id == old(nextTaskId) && nextTaskId == id + 1
      ensures tasks == old(tasks) + [EmailTask(id, taskName, username, buildings, recipients, subjectPrefix,
                                               startTime, endTime, cronExpression, enabled)]
      ensures FindTask(tasks, id) == Some(tasks[|tasks| - 1])
      ensures unchanged(this`users, this`config, this`logs, this`permissions, this`operations)
      ensures nextUserId == old(nextUserId) && nextLogId == old(nextLogId)
    {
      id := nextTaskId;
      tasks := tasks + [EmailTask(id, taskName, username, buildings, recipients, subjectPrefix,
                                  startTime, endTime, cronExpression, enabled)];
      nextTaskId := nextTaskId + 1;
    }

    /** `update_email_task`: False and no change without a recognised field; otherwise True. */
    method UpdateEmailTask(id: nat, c: TaskChanges) returns (ok: bool)
      requires Valid()
      modifies this
      ensures Valid()
      ensures ok == HasTaskChanges(c)
      ensures tasks == (if ok then UpdateTasks(old(tasks), id, c) else old(tasks))
      ensures ok ==> FindTask(tasks, id) == (match FindTask(old(tasks), id) case None => None case Some(t) => Some(ApplyTaskChanges(t, c)))
      ensures forall other :: other != id ==> FindTask(tasks, other) == FindTask(old(tasks), other)
      ensures unchanged(this`users, this`config, this`logs, this`permissions, this`operations)
      ensures nextUserId == old(nextUserId) && nextTaskId == old(nextTaskId) && nextLogId == old(nextLogId)
    {
      ok := HasTaskChanges(c);
      if ok {
        UpdateTasksEffect(tasks, id, c);
        tasks := UpdateTasks(tasks, id, c);
      }
    }

    /** `delete_email_task`: always True. */
    method DeleteEmailTask(id: nat) returns (ok: bool)
      requires Valid()
      modifies this
      ensures Valid() && ok
      ensures tasks == WithoutTask(old(tasks), id)
      ensures FindTask(tasks, id).None?
      ensures unchanged(this`users, this`config, this`logs, this`permissions, this`operations)
      ensures nextUserId == old(nextUserId) && nextTaskId == old(nextTaskId) && nextLogId == old(nextLogId)
    {
      WithoutTaskOrdered(tasks, id);
      var r := WithoutTask(tasks, id);
      forall i | 0 <= i < |r| ensures r[i].id < nextTaskId && r[i].id != id {
        assert r[i] in r;
      }
      tasks := r;
      ok := true;
    }

    // ------------------------------------------------------------- task logs

    /** `create_task_log`: a new row under the next id, with no file and no error. */
    method CreateTaskLog(taskId: nat, username: string, status: string) returns (id: nat)
      requires Valid()
      modifies this
      ensures Valid()
      ensures id == old(nextLogId) && nextLogId == id + 1
      ensures logs == old(logs) + [TaskLog(id, taskId, username, status, None, None)]
      ensures unchanged(this`users, this`config, this`tasks, this`permissions, this`operations)
      ensures nextUserId == old(nextUserId) && nextTaskId == old(nextTaskId)
    {
      id := nextLogId;
      logs := logs + [TaskLog(id, taskId, username, status, None, None)];
      nextLogId := nextLogId + 1;
    }

    /** `update_task_log`: the status, file path and error message of that row are overwritten. */
    method UpdateTaskLog(id: nat, status: string, filePath: Option<string>, errorMessage: Option<string>)
      requires Valid()
      modifies this
      ensures Valid()
      ensures logs == UpdateLogs(old(logs), id, status, filePath, errorMessage)
      ensures unchanged(this`users, this`config, this`tasks, this`permissions, this`operations)
      ensures nextUserId == old(nextUserId) && nextTaskId == old(nextTaskId) && nextLogId == old(nextLogId)
    {
      logs := UpdateLogs(logs, id, status, filePath, errorMessage);
    }

    // ----------------------------------------------------------- permissions

    /** `set_user_permissions`: delete the user's rows, then insert one row per listed permission. */
    method SetUserPermissions(name: string, perms: seq<string>) returns (ok: bool)
      requires Valid()
      modifies this
      ensures Valid() && ok
      ensures permissions == WithoutPermissionsOf(old(permissions), name) + Grants(name, perms)
      ensures PermissionsOf(permissions, name) == perms
      ensures forall p :: Allowed(name, p) <==> p in perms
      ensures forall other, p :: other != name ==> (Allowed(other, p) <==> old(HasPermission(permissions, other, p)))
      ensures unchanged(this`users, this`config, this`tasks, this`logs, this`operations)
      ensures nextUserId == old(nextUserId) && nextTaskId == old(nextTaskId) && nextLogId == old(nextLogId)
    {
      var before := permissions;
      permissions := WithoutPermissionsOf(permissions, name);
      var i := 0;
      while i < |perms|
        invariant 0 <= i <= |perms|
        invariant permissions == WithoutPermissionsOf(before, name) + Grants(name, perms[..i])
        invariant unchanged(this`users, this`config, this`tasks, this`logs, this`operations)
        invariant nextUserId == old(nextUserId) && nextTaskId == old(nextTaskId) && nextLogId == old(nextLogId)
      {
        assert Grants(name, perms[..i + 1]) == Grants(name, perms[..i]) + [Permission(name, perms[i])];
        permissions := permissions + [Permission(name, perms[i])];
        i := i + 1;
      }
      assert perms[..i] == perms;
      forall p ensures Allowed(name, p) <==> p in perms {
        ReplacePermissions(before, name, perms, p);
      }
      forall other, p | other != name ensures Allowed(other, p) <==> HasPermission(before, other, p) {
        ReplaceKeepsOthers(before, name, perms, other, p);
      }
      ReplacePermissions(before, name, perms, "");
      ok := true;
    }

    // -------------------------------------------------------- operation logs

    /** `create_operation_log`: one more row. */
    method CreateOperationLog(username: string, action: string, detail: Option<string>, ipAddress: Option<string>)
      requires Valid()
      modifies this
      ensures Valid()
      ensures operations == old(operations) + [OperationLog(username, action, detail, ipAddress)]
      ensures unchanged(this`users, this`config, this`tasks, this`logs, this`permissions)
      ensures nextUserId == old(nextUserId) && nextTaskId == old(nextTaskId) && nextLogId == old(nextLogId)
    {
      operations := operations + [OperationLog(username, action, detail, ipAddress)];
    }
  }
}
