/**
 * scheduler/task_manager.py: running one e-mail task (generate the report,
 * mail it, record the outcome in the task log) and running every enabled
 * task in turn.
 *
 * The report generator (`process` of main.py) and the mail sender are
 * parameters: `process` answers a request with its result dictionary, an
 * exception text, or by calling `exit()` (a SystemExit, which no
 * `except Exception` catches); `send` answers a mail with
 * `(success, message)` or an exception text.  The clock is a parameter too.
 */
module TaskManagement {
  import opened Wrappers
  import opened Strings
  import opened Dates
  import opened Tables
  import opened Db

  /** The request dictionary handed to `process`. */
  datatype Request = Request(buildings: seq<string>, username: string, startTime: string, endTime: string)

  /**
   * What `process` returns: its `status`, `file_name` and `msg` keys, each
   * possibly missing.  `file_name` may also be present and None (the
   * generator's answer for an empty building selection): `Some(None)`.
   */
  datatype ProcessResult = ProcessResult(status: Option<string>, fileName: Option<Option<string>>, msg: Option<string>)

  /** How a call of `process` ends: with a result, with an exception, or with `exit()`. */
  datatype ProcessAnswer = Returned(result: ProcessResult) | Raised(error: string) | Exited

  /** A mail; an attachment is a path, or None when `file_name` was None. */
  datatype Mail = Mail(recipients: seq<string>, subject: string, body: string, attachments: seq<Option<string>>)

  /** The `(success, message)` pair of `send_email`. */
  datatype Sent = Sent(success: bool, message: string)

  /** The final status, file path and error message written to the task log. */
  datatype RunEnd = RunEnd(status: string, filePath: Option<string>, errorMessage: Option<string>)

  type Process = Request -> ProcessAnswer
  type Sender = Mail -> Result<Sent, string>

  const Running := "running"
  const Success := "success"
  const EmailFailed := "email_failed"
  const Failed := "failed"
  /** The message logged when a failed result carries no `msg`. */
  const QueryFailed := "数据查询失败"
  /** `str(KeyError('file_name'))`. */
  const MissingFileName := "'file_name'"
  const SubjectSuffix := " 公寓学生晚归名单"

  function RequestOf(task: EmailTask): Request {
    Request(task.buildings, task.username, task.startTime, task.endTime)
  }

  /** The generator calls `exit()` on this task's request. */
  predicate Exits(process: Process, task: EmailTask) {
    process(RequestOf(task)).Exited?
  }

  function Subject(task: EmailTask, now: DateTime): string
    requires ValidDateTime(now)
  {
    task.subjectPrefix + FormatDate(now.date) + SubjectSuffix
  }

  function Body(task: EmailTask, now: DateTime): string
    requires ValidDateTime(now)
  {
    "您好：\n\n附件是 " + FormatDate(now.date) + " 的公寓学生晚归名单。\n\n查询楼栋：" + Join(task.buildings, ", ") +
    "\n生成时间：" + FormatDateTime(now) + "\n\n此邮件由系统自动发送，请勿回复。"
  }

  function MailOf(task: EmailTask, file: Option<string>, now: DateTime): Mail
    requires ValidDateTime(now)
  {
    Mail(task.recipients, Subject(task, now), Body(task, now), [file])
  }

  /**
   * The outcome of `execute_single_task`: how the task log ends, and the
   * mail that was attempted, if any.  When `process` exits, the log keeps
   * the `running` row it was created with.
   */
  function Outcome(task: EmailTask, process: Process, send: Sender, now: DateTime): (RunEnd, Option<Mail>)
    requires ValidDateTime(now)
  {
    match process(RequestOf(task))
      case Exited => (RunEnd(Running, None, None), None)
      case Raised(e) => (RunEnd(Failed, None, Some(e)), None)
      case Returned(res) =>
        if res.status == Some(Success) then
          match res.fileName
            case None => (RunEnd(Failed, None, Some(MissingFileName)), None)
            case Some(file) =>
              var mail := MailOf(task, file, now);
              match send(mail)
                case Err(e) => (RunEnd(Failed, None, Some(e)), Some(mail))
                case Ok(sent) =>
                  if sent.success then (RunEnd(Success, file, None), Some(mail))
                  else (RunEnd(EmailFailed, file, Some(sent.message)), Some(mail))
        else (RunEnd(Failed, None, Some(res.msg.GetOr(QueryFailed))), None)
  }

  /** The row a run leaves in the task log. */
  function LogOf(id: nat, task: EmailTask, end: RunEnd): TaskLog {
    TaskLog(id, task.id, task.username, end.status, end.filePath, end.errorMessage)
  }

  /** The rows `execute_all_enabled_tasks` leaves, the k-th task run at `clock(k)`. */
  function RunLogs(first: nat, tasks: seq<EmailTask>, process: Process, send: Sender, clock: nat -> DateTime): (r: seq<TaskLog>)
    requires forall k :: ValidDateTime(clock(k))
    ensures |r| == |tasks|
  {
    seq(|tasks|, i requires 0 <= i < |tasks| => LogOf(first + i, tasks[i], Outcome(tasks[i], process, send, clock(i)).0))
  }

  /** The mails `execute_all_enabled_tasks` attempts, one entry per task. */
  function RunMails(tasks: seq<EmailTask>, process: Process, send: Sender, clock: nat -> DateTime): (r: seq<Option<Mail>>)
    requires forall k :: ValidDateTime(clock(k))
    ensures |r| == |tasks|
  {
    seq(|tasks|, i requires 0 <= i < |tasks| => Outcome(tasks[i], process, send, clock(i)).1)
  }

  /** No task before index i exits. */
  predicate NoExitBefore(tasks: seq<EmailTask>, process: Process, i: int)
    requires i <= |tasks|
  {
    forall j :: 0 <= j < i ==> !Exits(process, tasks[j])
  }

  /**
   * How many tasks `execute_all_enabled_tasks` runs: all of them, unless
   * one exits, which ends the loop after that task.
   */
  function RunCount(tasks: seq<EmailTask>, process: Process): (n: nat)
    ensures n <= |tasks|
    ensures NoExitBefore(tasks, process, n - 1)
    ensures n < |tasks| ==> 0 < n && Exits(process, tasks[n - 1])
    decreases |tasks|
  {
    if tasks == [] then 0
    else if Exits(process, tasks[0]) then 1
    else
      var m := RunCount(tasks[1..], process);
      assert forall j :: 1 <= j < m ==> tasks[j] == tasks[1..][j - 1];
      1 + m
  }

  /** Running the next task appends its row and its mail. */
  lemma RunOneMore(first: nat, tasks: seq<EmailTask>, i: nat, process: Process, send: Sender, clock: nat -> DateTime)
    requires i < |tasks| && forall k :: ValidDateTime(clock(k))
    ensures RunLogs(first, tasks[..i + 1], process, send, clock) ==
            RunLogs(first, tasks[..i], process, send, clock) + [LogOf(first + i, tasks[i], Outcome(tasks[i], process, send, clock(i)).0)]
    ensures RunMails(tasks[..i + 1], process, send, clock) ==
            RunMails(tasks[..i], process, send, clock) + [Outcome(tasks[i], process, send, clock(i)).1]
  {
  }

  // -------------------------------------------------------------- the class

  class TaskManager {
    const db: Database

    constructor (db: Database)
      ensures this.db == db
    {
      this.db := db;
    }

    /**
     * `execute_single_task`: a log row is created as `running` and then
     * updated once with the outcome, unless `process` exits, which leaves
     * the row `running` and ends the call with `exited`.
     */
    method ExecuteSingleTask(task: EmailTask, process: Process, send: Sender, now: DateTime)
      returns (mail: Option<Mail>, exited: bool)
      requires db.Valid() && ValidDateTime(now)
      modifies db
      ensures db.Valid()
      ensures db.logs == old(db.logs) + [LogOf(old(db.nextLogId), task, Outcome(task, process, send, now).0)]
      ensures mail == Outcome(task, process, send, now).1
      ensures exited <==> Exits(process, task)
      ensures db.nextLogId == old(db.nextLogId) + 1
      ensures unchanged(db`users, db`config, db`tasks, db`permissions, db`operations)
      ensures db.nextUserId == old(db.nextUserId) && db.nextTaskId == old(db.nextTaskId)
    {
      var logs0 := db.logs;
      var logId := db.CreateTaskLog(task.id, task.username, Running);
      var row := TaskLog(logId, task.id, task.username, Running, None, None);
      var end: RunEnd;
      exited := false;
      match process(RequestOf(task)) {
        case Exited =>
          return None, true;
        case Raised(e) =>
          end := RunEnd(Failed, None, Some(e));
          mail := None;
        case Returned(res) =>
          if res.status == Some(Success) {
            match res.fileName {
              case None =>
                end := RunEnd(Failed, None, Some(MissingFileName));
                mail := None;
              case Some(file) =>
                var m := MailOf(task, file, now);
                mail := Some(m);
                match send(m) {
                  case Err(e) =>
                    end := RunEnd(Failed, None, Some(e));
                  case Ok(sent) =>
                    if sent.success {
                      end := RunEnd(Success, file, None);
                    } else {
                      end := RunEnd(EmailFailed, file, Some(sent.message));
                    }
                }
            }
          } else {
            end := RunEnd(Failed, None, Some(res.msg.GetOr(QueryFailed)));
            mail := None;
          }
      }
      UpdateNewestLog(logs0, row, end.status, end.filePath, end.errorMessage);
      db.UpdateTaskLog(logId, end.status, end.filePath, end.errorMessage);
    }

    /**
     * `execute_all_enabled_tasks`: the enabled tasks in table order, each
     * once, up to and including the first whose `process` exits; that
     * SystemExit leaves the loop and the method (`exited`).
     */
    method ExecuteAllEnabledTasks(process: Process, send: Sender, clock: nat -> DateTime)
      returns (mails: seq<Option<Mail>>, exited: bool)
      requires db.Valid() && forall k :: ValidDateTime(clock(k))
      modifies db
      ensures db.Valid()
      ensures var tasks := EnabledTasks(old(db.tasks)); var n := RunCount(tasks, process);
        db.logs == old(db.logs) + RunLogs(old(db.nextLogId), tasks[..n], process, send, clock) &&
        mails == RunMails(tasks[..n], process, send, clock) &&
        db.nextLogId == old(db.nextLogId) + n
      ensures exited <==> exists j :: 0 <= j < |EnabledTasks(old(db.tasks))| && Exits(process, EnabledTasks(old(db.tasks))[j])
      ensures unchanged(db`users, db`config, db`tasks, db`permissions, db`operations)
    {
      ghost var logs0, first := db.logs, db.nextLogId;
      var tasks := db.GetEnabledEmailTasks();
      mails := [];
      exited := false;
      var i := 0;
      assert RunLogs(first, tasks[..0], process, send, clock) == [];
      while i < |tasks| && !exited
        invariant 0 <= i <= |tasks|
        invariant db.Valid()
        invariant db.logs == logs0 + RunLogs(first, tasks[..i], process, send, clock)
        invariant mails == RunMails(tasks[..i], process, send, clock)
        invariant db.nextLogId == first + i
        invariant !exited ==> NoExitBefore(tasks, process, i)
        invariant exited ==> 0 < i && Exits(process, tasks[i - 1]) && i == RunCount(tasks, process)
        invariant unchanged(db`users, db`config, db`tasks, db`permissions, db`operations)
      {
        ghost var before := db.logs;
        var m, stop := ExecuteSingleTask(tasks[i], process, send, clock(i));
        RunStep(logs0, before, db.logs, first, tasks, i, process, send, clock, mails, m);
        mails := mails + [m];
        ExitStep(tasks, process, i);
        exited := stop;
        i := i + 1;
      }
      LoopEnd(tasks, process, i, exited);
    }
  }

  /** The loop step of `execute_all_enabled_tasks`, on the log table and the mail list as values. */
  lemma RunStep(logs0: seq<TaskLog>, before: seq<TaskLog>, after: seq<TaskLog>, first: nat, tasks: seq<EmailTask>, i: nat,
                process: Process, send: Sender, clock: nat -> DateTime, mails: seq<Option<Mail>>, mail: Option<Mail>)
    requires i < |tasks| && forall k :: ValidDateTime(clock(k))
    requires before == logs0 + RunLogs(first, tasks[..i], process, send, clock)
    requires after == before + [LogOf(first + i, tasks[i], Outcome(tasks[i], process, send, clock(i)).0)]
    requires mails == RunMails(tasks[..i], process, send, clock)
    requires mail == Outcome(tasks[i], process, send, clock(i)).1
    ensures after == logs0 + RunLogs(first, tasks[..i + 1], process, send, clock)
    ensures mails + [mail] == RunMails(tasks[..i + 1], process, send, clock)
  {
    RunOneMore(first, tasks, i, process, send, clock);
  }

  // ------------------------------------------------------------- properties

  /**
   * Every run ends in exactly one of `success`, `email_failed` or `failed`,
   * except that a `process` that exits leaves the log `running`.  A mail is
   * attempted exactly after a `success` result that has a `file_name` key
   * (even one holding None), with that value as its one attachment; the
   * logged path is that value when the sender answered, else None; and an
   * error is logged exactly when the run neither succeeded nor exited.
   */
  lemma OutcomeShape(task: EmailTask, process: Process, send: Sender, now: DateTime)
    requires ValidDateTime(now)
    ensures var (end, mail) := Outcome(task, process, send, now); var answer := process(RequestOf(task));
      (end.status == Success || end.status == EmailFailed || end.status == Failed || end.status == Running) &&
      (end.status == Running <==> answer.Exited?) &&
      (mail.Some? <==> answer.Returned? && answer.result.status == Some(Success) && answer.result.fileName.Some?) &&
      (mail.Some? ==> answer.Returned? && mail.value.attachments == [answer.result.fileName.value]) &&
      end.filePath == (if mail.Some? && send(mail.value).Ok? then mail.value.attachments[0] else None) &&
      ((end.status == Success || end.status == Running) <==> end.errorMessage.None?)
  {
  }

  /**
   * A result with status `success` and a `file_name` (a path, or None) mails
   * that value as the attachment; a mail that goes out logs `success` with
   * it as the path, one the sender reports unsent logs `email_failed` with
   * it and the sender's message.  With None the logged path is None too.
   */
  lemma SentMeansSuccess(task: EmailTask, process: Process, send: Sender, now: DateTime, file: Option<string>)
    requires ValidDateTime(now)
    requires process(Request(task.buildings, task.username, task.startTime, task.endTime)).Returned?
    requires var res := process(Request(task.buildings, task.username, task.startTime, task.endTime)).result;
      res.status == Some(Success) && res.fileName == Some(file)
    ensures Outcome(task, process, send, now).1 == Some(MailOf(task, file, now))
    ensures send(MailOf(task, file, now)).Ok? && send(MailOf(task, file, now)).value.success ==>
      Outcome(task, process, send, now) == (RunEnd(Success, file, None), Some(MailOf(task, file, now)))
    ensures send(MailOf(task, file, now)).Ok? && !send(MailOf(task, file, now)).value.success ==>
      Outcome(task, process, send, now).0 == RunEnd(EmailFailed, file, Some(send(MailOf(task, file, now)).value.message))
    ensures MailOf(task, file, now).attachments == [file] && MailOf(task, file, now).recipients == task.recipients
  {
  }

  /** Any other status logs `failed` with the result's `msg`, or the default message; no mail is sent. */
  lemma NotSuccessMeansFailed(task: EmailTask, process: Process, send: Sender, now: DateTime)
    requires ValidDateTime(now)
    requires process(RequestOf(task)).Returned? && process(RequestOf(task)).result.status != Some(Success)
    ensures Outcome(task, process, send, now) ==
      (RunEnd(Failed, None, Some(process(RequestOf(task)).result.msg.GetOr(QueryFailed))), None)
    ensures process(RequestOf(task)).result.msg.None? ==> Outcome(task, process, send, now).0.errorMessage == Some(QueryFailed)
  {
  }

  /** An exception from the generator logs `failed` with its text. */
  lemma ExceptionMeansFailed(task: EmailTask, process: Process, send: Sender, now: DateTime)
    requires ValidDateTime(now)
    requires process(RequestOf(task)).Raised?
    ensures Outcome(task, process, send, now) == (RunEnd(Failed, None, Some(process(RequestOf(task)).error)), None)
  {
  }

  /** A generator that exits leaves the log row exactly as `create_task_log` wrote it, and no mail. */
  lemma ExitLeavesRunning(id: nat, task: EmailTask, process: Process, send: Sender, now: DateTime)
    requires ValidDateTime(now) && Exits(process, task)
    ensures Outcome(task, process, send, now).1 == None
    ensures LogOf(id, task, Outcome(task, process, send, now).0) == TaskLog(id, task.id, task.username, Running, None, None)
  {
  }

  /** The run ends with the first task whose generator exits. */
  lemma {:induction false} RunCountAtExit(tasks: seq<EmailTask>, process: Process, k: nat)
    requires k < |tasks| && Exits(process, tasks[k])
    requires NoExitBefore(tasks, process, k)
    ensures RunCount(tasks, process) == k + 1
  {
    if k > 0 {
      assert !Exits(process, tasks[0]);
      assert forall j :: 0 <= j < k - 1 ==> tasks[1..][j] == tasks[j + 1];
      RunCountAtExit(tasks[1..], process, k - 1);
    }
  }

  /** One more task: it either ends the run or extends the exit-free prefix. */
  lemma ExitStep(tasks: seq<EmailTask>, process: Process, i: nat)
    requires i < |tasks| && NoExitBefore(tasks, process, i)
    ensures Exits(process, tasks[i]) ==> RunCount(tasks, process) == i + 1
    ensures !Exits(process, tasks[i]) ==> NoExitBefore(tasks, process, i + 1)
  {
    if Exits(process, tasks[i]) {
      RunCountAtExit(tasks, process, i);
    }
  }

  /** When the loop of `execute_all_enabled_tasks` ends, it has run RunCount tasks, and it exited iff some task exits. */
  lemma LoopEnd(tasks: seq<EmailTask>, process: Process, i: nat, exited: bool)
    requires i <= |tasks| && (exited || i == |tasks|)
    requires !exited ==> NoExitBefore(tasks, process, i)
    requires exited ==> 0 < i && Exits(process, tasks[i - 1]) && i == RunCount(tasks, process)
    ensures i == RunCount(tasks, process)
    ensures exited <==> exists j :: 0 <= j < |tasks| && Exits(process, tasks[j])
  {
    if !exited {
      RunCountWithoutExit(tasks, process);
    }
  }

  /** Without an exit, every task runs. */
  lemma {:induction false} RunCountWithoutExit(tasks: seq<EmailTask>, process: Process)
    requires NoExitBefore(tasks, process, |tasks|)
    ensures RunCount(tasks, process) == |tasks|
  {
    if tasks != [] {
      assert forall j :: 0 <= j < |tasks| - 1 ==> tasks[1..][j] == tasks[j + 1];
      RunCountWithoutExit(tasks[1..], process);
    }
  }

  /** The generator is asked for the task's buildings, user and time window. */
  lemma RequestCarriesTask(task: EmailTask)
    ensures var r := RequestOf(task);
      r.buildings == task.buildings && r.username == task.username &&
      r.startTime == task.startTime && r.endTime == task.endTime
  {
  }

  /** The subject is the prefix, then the date of the run as YYYY-MM-DD (which parses back), then the fixed title. */
  lemma SubjectParts(task: EmailTask, now: DateTime)
    requires ValidDateTime(now)
    ensures var s := Subject(task, now); var n := |task.subjectPrefix|;
      |s| == n + 10 + |SubjectSuffix| && s[..n] == task.subjectPrefix &&
      ParseDate(s[n..n + 10]) == Some(now.date) && s[n + 10..] == SubjectSuffix
  {
    var s := Subject(task, now);
    var n := |task.subjectPrefix|;
    assert s[n..n + 10] == FormatDate(now.date);
    ParseFormatDate(now.date);
  }

  /** One log row per enabled task, in table order, each under its own fresh id. */
  lemma RunLogsFollowTasks(first: nat, tasks: seq<EmailTask>, process: Process, send: Sender, clock: nat -> DateTime)
    requires forall k :: ValidDateTime(clock(k))
    ensures var r := RunLogs(first, tasks, process, send, clock);
      (forall i :: 0 <= i < |tasks| ==> r[i].emailTaskId == tasks[i].id && r[i].username == tasks[i].username && r[i].id == first + i) &&
      (forall i, j :: 0 <= i < j < |r| ==> r[i].id < r[j].id)
  {
  }
}
