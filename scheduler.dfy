/**
 * scheduler/scheduler.py: `SchedulerManager`, which builds a cron scheduler
 * with one job per enabled e-mail task when the `scheduler_enabled` setting
 * says so.
 *
 * The scheduler is its observable state, as APScheduler 3 keeps it: the time
 * zone, the jobs queued by `add_job` before the scheduler starts (`pending`),
 * the jobs in the memory job store once it has started (`stored`), and
 * whether it is running.  Whether the library accepts a time zone or a set
 * of cron fields is a parameter (`validTz`, `valid`); the library also
 * refuses an empty job name, and the job name is the task's name.  A refusal
 * raises inside `start`, whose handler only logs.  The next fire time of a stored
 * job depends on the clock and is a parameter `nextRun` of `get_jobs`.
 */
module Scheduling {
  import opened Wrappers
  import opened Strings
  import opened Seqs
  import opened Tables
  import opened Db

  datatype CronFields = CronFields(minute: string, hour: string, day: string, month: string, dayOfWeek: string)

  datatype Job = Job(id: string, name: string, task: EmailTask, cron: CronFields)

  datatype SchedulerState = SchedulerState(timezone: string, pending: seq<Job>, stored: seq<Job>, running: bool)

  /** What `get_jobs` reports of a job: its id, its name and its next fire time. */
  datatype JobInfo = JobInfo(id: string, name: string, nextRun: nat)

  /** The fields used when an expression does not have exactly five: 06:00 every day. */
  const DefaultCron := CronFields("0", "6", "*", "*", "*")
  const DefaultCronExpression := "0 6 * * *"
  const DefaultTimezone := "Asia/Shanghai"
  const JobIdPrefix := "email_task_"
  /** The error a pending job raises when `get_jobs` reads its `next_run_time`, which is not set before the start. */
  const PendingJobError := "'Job' object has no attribute 'next_run_time'"

  /** `cron_expr.split()` unpacked into five fields, or the default for any other count. */
  function CronOf(expr: string): (c: CronFields)
    ensures |Words(expr)| == 5 ==> c == CronFields(Words(expr)[0], Words(expr)[1], Words(expr)[2], Words(expr)[3], Words(expr)[4])
    ensures |Words(expr)| != 5 ==> c == DefaultCron
  {
    var parts := Words(expr);
    if |parts| == 5 then CronFields(parts[0], parts[1], parts[2], parts[3], parts[4]) else DefaultCron
  }

  /** `f"email_task_{task['id']}"`. */
  function JobId(id: nat): string {
    JobIdPrefix + IntToString(id)
  }

  function JobOf(task: EmailTask): Job {
    Job(JobId(task.id), task.taskName, task, CronOf(task.cronExpression))
  }

  /**
   * The job store's `add_job` under `replace_existing=True`: a job with the
   * same id is replaced in place, otherwise the job is added; every job with
   * another id stays where it was.
   */
  function AddJob(jobs: seq<Job>, job: Job): (r: seq<Job>)
    ensures job in r
    ensures forall x :: x in r ==> x == job || x in jobs
    ensures |jobs| <= |r| && forall i :: 0 <= i < |jobs| && jobs[i].id != job.id ==> r[i] == jobs[i]
    ensures (forall x :: x in jobs ==> x.id != job.id) ==> r == jobs + [job]
    ensures (exists x :: x in jobs && x.id == job.id) ==> |r| == |jobs|
  {
    match FirstWhere(jobs, (x: Job) => x.id == job.id)
      case None => jobs + [job]
      case Some(k) =>
        assert jobs[k := job][k] == job;
        jobs[k := job]
  }

  /** The library's `start`: every pending job is added to the store in queue order. */
  function StoreAll(store: seq<Job>, pending: seq<Job>): seq<Job>
    decreases |pending|
  {
    if pending == [] then store else StoreAll(AddJob(store, pending[0]), pending[1..])
  }

  /** The library's `start`: the pending jobs move into the store and the scheduler runs. */
  function Launch(s: SchedulerState): SchedulerState {
    s.(pending := [], stored := StoreAll(s.stored, s.pending), running := true)
  }

  /** The library's `shutdown`: the scheduler stops; its store is kept but no longer listed. */
  function StopOutcome(prev: Option<SchedulerState>): Option<SchedulerState> {
    if prev.Some? && prev.value.running then Some(prev.value.(running := false)) else prev
  }

  /** Only a scheduler that has not started holds pending jobs. */
  predicate Coherent(s: SchedulerState) {
    s.running ==> s.pending == []
  }

  predicate UniqueJobIds(jobs: seq<Job>) {
    forall i, j :: 0 <= i < j < |jobs| ==> jobs[i].id != jobs[j].id
  }

  /** The jobs for tasks whose cron fields are all accepted, in order. */
  function Jobs(tasks: seq<EmailTask>): (r: seq<Job>)
    ensures |r| == |tasks|
    ensures forall i :: 0 <= i < |tasks| ==> r[i] == JobOf(tasks[i])
  {
    seq(|tasks|, i requires 0 <= i < |tasks| => JobOf(tasks[i]))
  }

  /** The first enabled task the library refuses to turn into a job, if any. */
  function FirstRefused(tasks: seq<EmailTask>, valid: CronFields -> bool): Option<nat> {
    FirstWhere(tasks, RefusedBy(valid))
  }

  /**
   * A task the library takes as a job: its cron fields are accepted and its
   * name, passed as the job's name, is not empty (an empty job name raises
   * `TypeError`).
   */
  predicate Accepted(t: EmailTask, valid: CronFields -> bool) {
    valid(CronOf(t.cronExpression)) && t.taskName != ""
  }

  /** The tasks the library refuses: a refused cron or an empty name. */
  function RefusedBy(valid: CronFields -> bool): EmailTask -> bool {
    (t: EmailTask) => !Accepted(t, valid)
  }

  /** The first refused task is the one at i when all before it are accepted. */
  lemma FirstRefusedAt(tasks: seq<EmailTask>, valid: CronFields -> bool, i: nat)
    requires i < |tasks| && !Accepted(tasks[i], valid)
    requires forall j :: 0 <= j < i ==> Accepted(tasks[j], valid)
    ensures FirstRefused(tasks, valid) == Some(i)
  {
    FirstWhereAt(tasks, RefusedBy(valid), i);
  }

  /** Jobs of one more task: that task's job is appended. */
  lemma JobsSnoc(tasks: seq<EmailTask>, i: nat)
    requires i < |tasks|
    ensures Jobs(tasks[..i + 1]) == Jobs(tasks[..i]) + [JobOf(tasks[i])]
  {
    var a := Jobs(tasks[..i + 1]);
    var b := Jobs(tasks[..i]) + [JobOf(tasks[i])];
    assert |a| == |b|;
    forall j | 0 <= j < |a| ensures a[j] == b[j] {
      assert tasks[..i + 1][j] == tasks[j];
      if j < i {
        assert tasks[..i][j] == tasks[j];
      }
    }
  }

  /** The setting that switches the scheduler on: `'true'` in any letter case. */
  predicate Enabled(config: map<string, ConfigEntry>) {
    AsciiLower(ConfigValue(config, "scheduler_enabled", "false")) == "true"
  }

  /**
   * The scheduler `start` leaves, from the one before it, the configuration
   * and the task table.  A refused time zone raises before the new scheduler
   * is assigned, so the previous one stays; a refused cron or an empty task
   * name raises after the jobs before it were queued, so they stay pending on
   * a scheduler that never starts.
   */
  function StartOutcome(prev: Option<SchedulerState>, config: map<string, ConfigEntry>, tasks: seq<EmailTask>,
                        valid: CronFields -> bool, validTz: string -> bool): Option<SchedulerState>
  {
    if !Enabled(config) then prev
    else
      var tz := ConfigValue(config, "scheduler_timezone", DefaultTimezone);
      if !validTz(tz) then prev
      else
        var enabled := EnabledTasks(tasks);
        if enabled == [] then Some(SchedulerState(tz, [], [], false))
        else match FirstRefused(enabled, valid)
          case None => Some(Launch(SchedulerState(tz, Jobs(enabled), [], false)))
          case Some(k) => Some(SchedulerState(tz, Jobs(enabled[..k]), [], false))
  }

  /** Distinct task ids give distinct job ids. */
  lemma JobIdInjective(a: nat, b: nat)
    ensures JobId(a) == JobId(b) <==> a == b
  {
    if JobId(a) == JobId(b) {
      assert IntToString(a) == JobId(a)[|JobIdPrefix|..];
      assert IntToString(b) == JobId(b)[|JobIdPrefix|..];
      NatToStringInjective(a, b);
    }
  }

  /** Tasks in increasing id order give jobs with pairwise different ids. */
  lemma JobsUnique(tasks: seq<EmailTask>)
    requires IdsIncreasing(tasks)
    ensures UniqueJobIds(Jobs(tasks))
  {
    forall i, j | 0 <= i < j < |tasks| ensures Jobs(tasks)[i].id != Jobs(tasks)[j].id {
      JobIdInjective(tasks[i].id, tasks[j].id);
    }
  }

  /** Moving pending jobs whose ids are all different into the store appends them: nothing is replaced. */
  lemma {:induction false} StoreAllFresh(store: seq<Job>, pending: seq<Job>)
    requires UniqueJobIds(store + pending)
    ensures StoreAll(store, pending) == store + pending
    decreases |pending|
  {
    if pending != [] {
      var job := pending[0];
      forall x | x in store ensures x.id != job.id {
        var i :| 0 <= i < |store| && store[i] == x;
        assert (store + pending)[i] == x && (store + pending)[|store|] == job;
      }
      var store' := store + [job];
      assert store' + pending[1..] == store + pending;
      StoreAllFresh(store', pending[1..]);
    }
  }

  // ----------------------------------------------------- what get_jobs lists

  /** The memory job store's order: by next fire time, then by id. */
  predicate InfoLe(a: JobInfo, b: JobInfo) {
    a.nextRun < b.nextRun || (a.nextRun == b.nextRun && StrLe(a.id, b.id))
  }

  lemma InfoLeTotal(a: JobInfo, b: JobInfo)
    ensures InfoLe(a, b) || InfoLe(b, a)
  {
    StrLeTotal(a.id, b.id);
  }

  lemma InfoLeTransitive(a: JobInfo, b: JobInfo, c: JobInfo)
    requires InfoLe(a, b) && InfoLe(b, c)
    ensures InfoLe(a, c)
  {
    if a.nextRun == b.nextRun == c.nextRun {
      StrLeTransitive(a.id, b.id, c.id);
    }
  }

  predicate ByNextRun(infos: seq<JobInfo>) {
    forall i, j :: 0 <= i < j < |infos| ==> InfoLe(infos[i], infos[j])
  }

  /** Places x before the first entry that does not come before it, as the store's bisection does. */
  function InsertInfo(x: JobInfo, t: seq<JobInfo>): (r: seq<JobInfo>)
    ensures multiset(r) == multiset(t) + multiset{x}
  {
    if t == [] then [x]
    else if InfoLe(x, t[0]) then [x] + t
    else
      assert t == [t[0]] + t[1..];
      [t[0]] + InsertInfo(x, t[1..])
  }

  /** The store's listing of the given entries. */
  function SortInfos(infos: seq<JobInfo>): (r: seq<JobInfo>)
    ensures multiset(r) == multiset(infos)
  {
    if infos == [] then []
    else
      assert infos == [infos[0]] + infos[1..];
      InsertInfo(infos[0], SortInfos(infos[1..]))
  }

  lemma {:induction false} InsertInfoSorted(x: JobInfo, t: seq<JobInfo>)
    requires ByNextRun(t)
    ensures ByNextRun(InsertInfo(x, t))
  {
    if t == [] {
    } else if InfoLe(x, t[0]) {
      var r := [x] + t;
      forall i, j | 0 <= i < j < |r| ensures InfoLe(r[i], r[j]) {
        if i == 0 && j > 1 {
          InfoLeTransitive(x, t[0], t[j - 1]);
        }
      }
    } else {
      InfoLeTotal(x, t[0]);
      var tail := t[1..];
      assert ByNextRun(tail) by {
        forall i, j | 0 <= i < j < |tail| ensures InfoLe(tail[i], tail[j]) {
          assert tail[i] == t[i + 1] && tail[j] == t[j + 1];
        }
      }
      InsertInfoSorted(x, tail);
      var rest := InsertInfo(x, tail);
      var r := [t[0]] + rest;
      forall i, j | 0 <= i < j < |r| ensures InfoLe(r[i], r[j]) {
        if i == 0 {
          var z := rest[j - 1];
          assert z in multiset(rest);
          if z != x {
            var k :| 0 <= k < |tail| && tail[k] == z;
            assert t[k + 1] == z;
          }
        } else {
          assert r[i] == rest[i - 1] && r[j] == rest[j - 1];
        }
      }
    }
  }

  lemma {:induction false} SortInfosSorted(infos: seq<JobInfo>)
    ensures ByNextRun(SortInfos(infos))
  {
    if infos != [] {
      SortInfosSorted(infos[1..]);
      InsertInfoSorted(infos[0], SortInfos(infos[1..]));
    }
  }

  /** The entry of each job, with its next fire time. */
  function Infos(jobs: seq<Job>, nextRun: Job -> nat): (r: seq<JobInfo>)
    ensures |r| == |jobs|
    ensures forall i :: 0 <= i < |jobs| ==> r[i] == JobInfo(jobs[i].id, jobs[i].name, nextRun(jobs[i]))
  {
    seq(|jobs|, i requires 0 <= i < |jobs| => JobInfo(jobs[i].id, jobs[i].name, nextRun(jobs[i])))
  }

  /**
   * The library's `get_jobs` as the manager reports it: a running scheduler
   * lists its store, a stopped one its pending jobs, whose `next_run_time`
   * is not set, so reading it raises.
   */
  function JobsReport(s: Option<SchedulerState>, nextRun: Job -> nat): Result<seq<JobInfo>, string> {
    match s
      case None => Ok([])
      case Some(st) =>
        if st.running then Ok(SortInfos(Infos(st.stored, nextRun)))
        else if st.pending == [] then Ok([])
        else Err(PendingJobError)
  }

  class SchedulerManager {
    const db: Database
    var scheduler: Option<SchedulerState>

    /** A built scheduler holds pending jobs only while it has not started. */
    predicate Valid()
      reads this
    {
      scheduler.Some? ==> Coherent(scheduler.value)
    }

    constructor (db: Database)
      ensures this.db == db && scheduler == None && Valid()
    {
      this.db := db;
      scheduler := None;
    }

    /**
     * `start`: nothing when the setting is off or the time zone is refused;
     * otherwise a scheduler in the configured time zone with one job per
     * enabled task (id `email_task_<id>`, cron fields from its expression),
     * started only when there is at least one task and every task's cron
     * fields and name are accepted.
     */
    method Start(valid: CronFields -> bool, validTz: string -> bool)
      requires db.Valid() && Valid()
      modifies this
      ensures scheduler == StartOutcome(old(scheduler), db.config, db.tasks, valid, validTz)
      ensures Valid()
    {
      var flag := db.GetConfig("scheduler_enabled", "false");
      if AsciiLower(flag) != "true" {
        return;
      }
      var tz := db.GetConfig("scheduler_timezone", DefaultTimezone);
      if !validTz(tz) {
        return;
      }
      scheduler := Some(SchedulerState(tz, [], [], false));
      var tasks := db.GetEnabledEmailTasks();
      if tasks == [] {
        return;
      }
      EnabledTasksOrdered(db.tasks);
      var i := 0;
      while i < |tasks|
        invariant 0 <= i <= |tasks|
        invariant scheduler == Some(SchedulerState(tz, Jobs(tasks[..i]), [], false))
        invariant forall j :: 0 <= j < i ==> Accepted(tasks[j], valid)
      {
        var cron := CronOf(tasks[i].cronExpression);
        if !valid(cron) || tasks[i].taskName == "" {
          FirstRefusedAt(tasks, valid, i);
          return;
        }
        var job := Job(JobId(tasks[i].id), tasks[i].taskName, tasks[i], cron);
        JobsSnoc(tasks, i);
        scheduler := Some(scheduler.value.(pending := scheduler.value.pending + [job]));
        i := i + 1;
      }
      assert tasks[..i] == tasks;
      assert FirstRefused(tasks, valid).None?;
      scheduler := Some(Launch(SchedulerState(tz, Jobs(tasks), [], false)));
    }

    /** `stop`: shuts down a running scheduler and touches nothing otherwise. */
    method Stop()
      requires Valid()
      modifies this
      ensures scheduler == StopOutcome(old(scheduler))
      ensures Valid()
    {
      if scheduler.Some? && scheduler.value.running {
        scheduler := Some(scheduler.value.(running := false));
      }
    }

    /** `reload`: stop, then start again. */
    method Reload(valid: CronFields -> bool, validTz: string -> bool)
      requires db.Valid() && Valid()
      modifies this
      ensures scheduler == StartOutcome(StopOutcome(old(scheduler)), db.config, db.tasks, valid, validTz)
      ensures Valid()
    {
      Stop();
      Start(valid, validTz);
    }

    /**
     * `get_jobs`: empty when no scheduler was built; a running scheduler's
     * jobs in the store's order (next fire time, then id); for a scheduler
     * that is not running, its pending jobs, where reading the next fire time
     * of any of them raises.
     */
    function GetJobs(nextRun: Job -> nat): (r: Result<seq<JobInfo>, string>)
      reads this
      ensures scheduler.None? ==> r == Ok([])
      ensures scheduler.Some? && scheduler.value.running ==>
        r.Ok? && ByNextRun(r.value) && multiset(r.value) == multiset(Infos(scheduler.value.stored, nextRun))
      ensures scheduler.Some? && !scheduler.value.running ==>
        (r.Ok? <==> scheduler.value.pending == []) && (r.Ok? ==> r.value == []) && (r.Err? ==> r.error == PendingJobError)
    {
      if scheduler.Some? && scheduler.value.running then
        SortInfosSorted(Infos(scheduler.value.stored, nextRun));
        JobsReport(scheduler, nextRun)
      else JobsReport(scheduler, nextRun)
    }
  }

  // ------------------------------------------------------------- properties

  /** Exactly five fields are taken in order as minute, hour, day, month and day of week. */
  lemma CronOfFiveFields(ws: seq<string>)
    requires |ws| == 5 && AreWords(ws)
    ensures CronOf(Join(ws, " ")) == CronFields(ws[0], ws[1], ws[2], ws[3], ws[4])
  {
    WordsOfJoin(ws);
  }

  /** Any other number of fields gives 06:00 every day. */
  lemma CronOfOtherCount(ws: seq<string>)
    requires |ws| != 5 && AreWords(ws)
    ensures CronOf(Join(ws, " ")) == DefaultCron
  {
    WordsOfJoin(ws);
  }

  /** Five words joined by single spaces split back into those five fields. */
  lemma CronOfSpaced(a: string, b: string, c: string, d: string, e: string)
    requires a != [] && b != [] && c != [] && d != [] && e != []
    requires NoSpace(a) && NoSpace(b) && NoSpace(c) && NoSpace(d) && NoSpace(e)
    ensures CronOf(a + " " + b + " " + c + " " + d + " " + e) == CronFields(a, b, c, d, e)
  {
    var ws := [a, b, c, d, e];
    assert Join(ws[4..], " ") == e;
    assert Join(ws[3..], " ") == d + " " + e;
    assert Join(ws[2..], " ") == c + " " + d + " " + e;
    assert Join(ws[1..], " ") == b + " " + c + " " + d + " " + e;
    assert Join(ws, " ") == a + " " + b + " " + c + " " + d + " " + e;
    CronOfFiveFields(ws);
  }

  /** The expression used when a task has none splits into the default fields. */
  lemma CronOfDefaultExpression()
    ensures CronOf(DefaultCronExpression) == DefaultCron
  {
    var x := "0" + " " + "6" + " " + "*" + " " + "*" + " " + "*";
    assert NoSpace("0") && NoSpace("6") && NoSpace("*");
    CronOfSpaced("0", "6", "*", "*", "*");
    assert CronOf(x) == DefaultCron;
    assert x == DefaultCronExpression;
  }

  /** With the setting off, or a time zone the library refuses, `start` leaves the previous scheduler. */
  lemma DisabledBuildsNothing(prev: Option<SchedulerState>, config: map<string, ConfigEntry>, tasks: seq<EmailTask>,
                              valid: CronFields -> bool, validTz: string -> bool)
    requires !Enabled(config) || !validTz(ConfigValue(config, "scheduler_timezone", DefaultTimezone))
    ensures StartOutcome(prev, config, tasks, valid, validTz) == prev
    ensures StartOutcome(None, config, tasks, valid, validTz) == None
  {
  }

  /**
   * With the setting on and the time zone accepted, the scheduler runs
   * exactly when there is an enabled task and the library accepts every
   * enabled task's cron fields and name; it then
   * stores one job per enabled task, in id order, and holds none pending.
   */
  lemma StartedShape(prev: Option<SchedulerState>, config: map<string, ConfigEntry>, tasks: seq<EmailTask>,
                     valid: CronFields -> bool, validTz: string -> bool)
    requires Enabled(config) && IdsIncreasing(tasks)
    requires validTz(ConfigValue(config, "scheduler_timezone", DefaultTimezone))
    ensures var s := StartOutcome(prev, config, tasks, valid, validTz);
      s.Some? && Coherent(s.value) &&
      s.value.timezone == ConfigValue(config, "scheduler_timezone", DefaultTimezone) &&
      (s.value.running <==>
         EnabledTasks(tasks) != [] && forall i :: 0 <= i < |EnabledTasks(tasks)| ==> Accepted(EnabledTasks(tasks)[i], valid)) &&
      (s.value.running ==> s.value.stored == Jobs(EnabledTasks(tasks)))
  {
    var enabled := EnabledTasks(tasks);
    if enabled != [] && FirstRefused(enabled, valid).None? {
      EnabledTasksOrdered(tasks);
      JobsUnique(enabled);
      assert [] + Jobs(enabled) == Jobs(enabled);
      StoreAllFresh([], Jobs(enabled));
    }
  }

  /**
   * An enabled task at k with a refused cron or an empty name, after
   * enabled tasks the library accepts, leaves a scheduler that never
   * started: nothing stored, and the jobs of the k tasks before it pending,
   * in id order.
   */
  lemma RefusedShape(prev: Option<SchedulerState>, config: map<string, ConfigEntry>, tasks: seq<EmailTask>,
                     valid: CronFields -> bool, validTz: string -> bool, k: nat)
    requires Enabled(config) && validTz(ConfigValue(config, "scheduler_timezone", DefaultTimezone))
    requires k < |EnabledTasks(tasks)|
    requires !valid(CronOf(EnabledTasks(tasks)[k].cronExpression)) || EnabledTasks(tasks)[k].taskName == ""
    requires forall j :: 0 <= j < k ==> Accepted(EnabledTasks(tasks)[j], valid)
    ensures var s := StartOutcome(prev, config, tasks, valid, validTz);
      s.Some? && !s.value.running && s.value.stored == [] &&
      s.value.pending == Jobs(EnabledTasks(tasks)[..k])
  {
    FirstRefusedAt(EnabledTasks(tasks), valid, k);
  }

  /**
   * A refusal after the first enabled task (a bad cron or an empty name)
   * leaves the earlier jobs pending on a scheduler that never started, so
   * `get_jobs` fails on them; at the first task nothing is pending and the
   * listing is empty.
   */
  lemma RefusedReport(prev: Option<SchedulerState>, config: map<string, ConfigEntry>, tasks: seq<EmailTask>,
                      valid: CronFields -> bool, validTz: string -> bool, k: nat, nextRun: Job -> nat)
    requires Enabled(config) && validTz(ConfigValue(config, "scheduler_timezone", DefaultTimezone))
    requires k < |EnabledTasks(tasks)|
    requires !valid(CronOf(EnabledTasks(tasks)[k].cronExpression)) || EnabledTasks(tasks)[k].taskName == ""
    requires forall j :: 0 <= j < k ==> Accepted(EnabledTasks(tasks)[j], valid)
    ensures JobsReport(StartOutcome(prev, config, tasks, valid, validTz), nextRun) ==
            if k == 0 then Ok([]) else Err(PendingJobError)
  {
    RefusedShape(prev, config, tasks, valid, validTz, k);
  }

  /** The jobs of a prefix of the enabled tasks belong to enabled tasks, under their ids, and no two share an id. */
  lemma PrefixJobs(tasks: seq<EmailTask>, n: nat)
    requires IdsIncreasing(tasks) && n <= |EnabledTasks(tasks)|
    ensures UniqueJobIds(Jobs(EnabledTasks(tasks)[..n]))
    ensures forall j :: j in Jobs(EnabledTasks(tasks)[..n]) ==> j.task in tasks && j.task.enabled == 1 && j.id == JobId(j.task.id)
  {
    var enabled := EnabledTasks(tasks);
    EnabledTasksOrdered(tasks);
    assert IdsIncreasing(enabled[..n]);
    JobsUnique(enabled[..n]);
    forall j | j in Jobs(enabled[..n]) ensures j.task in tasks && j.task.enabled == 1 {
      var i :| 0 <= i < n && Jobs(enabled[..n])[i] == j;
      assert enabled[i] in enabled;
    }
  }

  /** Every job `start` builds belongs to an enabled task, under that task's id, and no two share an id. */
  lemma StartedJobsOfTasks(prev: Option<SchedulerState>, config: map<string, ConfigEntry>, tasks: seq<EmailTask>,
                           valid: CronFields -> bool, validTz: string -> bool)
    requires Enabled(config) && IdsIncreasing(tasks)
    requires validTz(ConfigValue(config, "scheduler_timezone", DefaultTimezone))
    ensures var s := StartOutcome(prev, config, tasks, valid, validTz);
      s.Some? && UniqueJobIds(s.value.stored + s.value.pending) &&
      forall j :: j in s.value.stored + s.value.pending ==> j.task in tasks && j.task.enabled == 1 && j.id == JobId(j.task.id)
  {
    var enabled := EnabledTasks(tasks);
    var s := StartOutcome(prev, config, tasks, valid, validTz);
    if enabled == [] {
      assert s.value.stored + s.value.pending == [];
    } else if FirstRefused(enabled, valid).None? {
      PrefixJobs(tasks, |enabled|);
      assert enabled[..|enabled|] == enabled;
      StartedShape(prev, config, tasks, valid, validTz);
      assert s.value.stored + s.value.pending == Jobs(enabled);
    } else {
      var k := FirstRefused(enabled, valid).value;
      PrefixJobs(tasks, k);
      assert s.value.stored + s.value.pending == [] + Jobs(enabled[..k]);
    }
  }

  /**
   * After `stop` on a running scheduler, `get_jobs` lists nothing: the
   * library lists only pending jobs once stopped, and `start` left none.
   */
  lemma StopListsNoJobs(s: SchedulerState, nextRun: Job -> nat)
    requires Coherent(s) && s.running
    ensures JobsReport(StopOutcome(Some(s)), nextRun) == Ok([])
  {
  }

  /**
   * A started scheduler (every enabled task's cron fields and name
   * accepted) lists exactly the enabled tasks' jobs, each with its
   * id, name and next fire time, by next fire time and then id.
   */
  lemma StartedListsJobs(prev: Option<SchedulerState>, config: map<string, ConfigEntry>, tasks: seq<EmailTask>,
                         valid: CronFields -> bool, validTz: string -> bool, nextRun: Job -> nat)
    requires Enabled(config) && IdsIncreasing(tasks)
    requires validTz(ConfigValue(config, "scheduler_timezone", DefaultTimezone))
    requires EnabledTasks(tasks) != []
    requires forall i :: 0 <= i < |EnabledTasks(tasks)| ==> Accepted(EnabledTasks(tasks)[i], valid)
    ensures var r := JobsReport(StartOutcome(prev, config, tasks, valid, validTz), nextRun);
      r.Ok? && ByNextRun(r.value) && multiset(r.value) == multiset(Infos(Jobs(EnabledTasks(tasks)), nextRun))
  {
    StartedShape(prev, config, tasks, valid, validTz);
    SortInfosSorted(Infos(Jobs(EnabledTasks(tasks)), nextRun));
  }
}
