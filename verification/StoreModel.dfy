/**
 * The durable tables and the effect of every store transaction on them.
 *
 * One value of `Db` is the committed content of the database. One function per store
 * method gives the committed outcome of its transaction: either the new content, or the
 * old content and the reason for the rollback. `None` stands for the empty string or NULL
 * of an owner, worker, token or cursor column. Times are integer microseconds.
 */
module StoreModel {
  import opened Common

  datatype RunStatus = Pending | Running | Paused | Completed | Failed | Cancelled

  datatype JobStatus = Pending | Running | RetryWait | Success | Dead | Cancelled

  datatype TaskStatus = Pending | Claimed | Completed | Failed | Cancelled

  datatype Run = Run(
    taskId: Id, status: RunStatus, generation: nat, consumed: int, reserved: int,
    best: Option<Id>, pauseRequested: bool, cancelRequested: bool, cursor: Option<Id>,
    owner: Option<Id>, lease: Option<int>)

  datatype Job = Job(
    runId: Id, taskId: Id, candidateId: Id, seed: int, budget: int, key: Id,
    status: JobStatus, attempts: int, maxAttempts: int, availableAt: int,
    lease: Option<int>, worker: Option<Id>, resultId: Option<Id>)

  datatype Result = Result(runId: Id, candidateId: Id, objective: real, usedBudget: int)

  datatype AgentTask = AgentTask(
    runId: Id, key: Id, status: TaskStatus, attempts: int, maxAttempts: int,
    token: Option<Id>, lease: Option<int>, updatedAt: int, outputs: seq<Id>)

  datatype Checkpoint = Checkpoint(runId: Id, artifactId: Id, createdAt: int)

  datatype Db = Db(
    totals: map<Id, int>,          // tasks: id -> total_budget
    runs: map<Id, Run>,
    candidates: map<Id, Id>,       // candidates: id -> run_id
    jobs: map<Id, Job>,
    results: map<Id, Result>,
    agentTasks: map<Id, AgentTask>,
    checkpoints: map<Id, Checkpoint>)

  const EMPTY_DB := Db(map[], map[], map[], map[], map[], map[], map[])

  datatype Error =
    | NotFound | DuplicateKey | IdentityConflict | RunNotActive | BadArgument
    | BudgetExhausted | LeaseLost | ResultMismatch | LedgerMismatch | CasFailed

  datatype Reply =
    | Done | Duplicate(existing: Id) | NoWork | ClaimedJob(id: Id) | Granted(ok: bool)
    | Rejected(error: Error)

  /** The outcome of one transaction: the committed content and what the caller sees. */
  datatype Tx = Tx(db: Db, reply: Reply)

  function Rollback(db: Db, e: Error): Tx {
    Tx(db, Rejected(e))
  }

  predicate Before(now: int, lease: Option<int>) {
    lease.Some? && now < lease.value
  }

  predicate Unclaimed(s: JobStatus) {
    s.Pending? || s.RetryWait?
  }

  predicate Live(s: JobStatus) {
    Unclaimed(s) || s.Running?
  }

  predicate Terminal(s: RunStatus) {
    s.Completed? || s.Failed? || s.Cancelled?
  }

  predicate Active(r: Run) {
    r.status.Running? && !r.cancelRequested
  }

  // ---------------------------------------------------------------- creation

  function CreateTaskRun(db: Db, taskId: Id, total: int, runId: Id): Tx {
    if total <= 0 then Rollback(db, BadArgument)
    else if taskId in db.totals || runId in db.runs then Rollback(db, DuplicateKey)
    else
      var run := Run(taskId, RunStatus.Pending, 0, 0, 0, None, false, false, None, None, None);
      Tx(db.(totals := db.totals[taskId := total], runs := db.runs[runId := run]), Done)
  }

  /** An upsert: a second write never moves the candidate to another run. */
  function AddCandidate(db: Db, id: Id, runId: Id): Tx {
    if runId !in db.runs then Rollback(db, NotFound)
    else if id in db.candidates then Tx(db, Done)
    else Tx(db.(candidates := db.candidates[id := runId]), Done)
  }

  // ---------------------------------------------------------------- evaluation jobs

  datatype NewJob = NewJob(
    id: Id, runId: Id, taskId: Id, candidateId: Id, seed: int, budget: int, key: Id,
    maxAttempts: int, availableAt: int)

  predicate SameIdentity(j: Job, n: NewJob) {
    j.key == n.key && j.runId == n.runId && j.taskId == n.taskId &&
    j.candidateId == n.candidateId && j.seed == n.seed && j.budget == n.budget
  }

  function JobsOfCandidate(db: Db, c: Id): set<Id> {
    set id | id in db.jobs && db.jobs[id].candidateId == c
  }

  predicate KeyTaken(db: Db, key: Id) {
    exists id :: id in db.jobs && db.jobs[id].key == key
  }

  predicate CandidateHasResult(db: Db, c: Id) {
    exists id :: id in db.results && db.results[id].candidateId == c
  }

  function Available(db: Db, r: Id): int
    requires r in db.runs && db.runs[r].taskId in db.totals
  {
    db.totals[db.runs[r].taskId] - db.runs[r].consumed - db.runs[r].reserved
  }

  function FreshJob(n: NewJob): Job {
    Job(n.runId, n.taskId, n.candidateId, n.seed, n.budget, n.key, JobStatus.Pending, 0,
        n.maxAttempts, n.availableAt, None, None, None)
  }

  ghost function EnqueueJob(db: Db, n: NewJob): Tx {
    if n.runId !in db.runs || n.taskId !in db.totals || n.candidateId !in db.candidates then
      Rollback(db, NotFound)
    else
      var run := db.runs[n.runId];
      var siblings := JobsOfCandidate(db, n.candidateId);
      if run.taskId != n.taskId || db.candidates[n.candidateId] != n.runId then
        Rollback(db, IdentityConflict)
      else if !Active(run) then Rollback(db, RunNotActive)
      else if siblings != {} then
        if exists id :: siblings == {id} && SameIdentity(db.jobs[id], n) then
          var id :| siblings == {id} && SameIdentity(db.jobs[id], n);
          Tx(db, Duplicate(id))
        else Rollback(db, IdentityConflict)
      else if KeyTaken(db, n.key) || CandidateHasResult(db, n.candidateId) then
        Rollback(db, IdentityConflict)
      else if n.budget <= 0 || n.maxAttempts <= 0 then Rollback(db, BadArgument)
      else if n.budget > Available(db, n.runId) then Rollback(db, BudgetExhausted)
      else if n.id in db.jobs then Rollback(db, DuplicateKey)
      else
        Tx(db.(jobs := db.jobs[n.id := FreshJob(n)],
               runs := db.runs[n.runId := run.(reserved := run.reserved + n.budget)]), Done)
  }

  predicate Claimable(db: Db, id: Id, now: int) {
    id in db.jobs && Unclaimed(db.jobs[id].status) && db.jobs[id].availableAt <= now &&
    db.jobs[id].runId in db.runs && Active(db.runs[db.jobs[id].runId])
  }

  predicate ComesFirst(db: Db, a: Id, b: Id)
    requires a in db.jobs && b in db.jobs
  {
    db.jobs[a].availableAt < db.jobs[b].availableAt ||
    (db.jobs[a].availableAt == db.jobs[b].availableAt && a <= b)
  }

  /** The row of `ORDER BY available_at,id LIMIT 1 ... SKIP LOCKED`. */
  ghost predicate IsNext(db: Db, id: Id, now: int, locked: set<Id>) {
    Claimable(db, id, now) && id !in locked &&
    forall o :: Claimable(db, o, now) && o !in locked ==> ComesFirst(db, id, o)
  }

  function ClaimedRow(j: Job, worker: Id, until: int): Job {
    j.(status := JobStatus.Running, attempts := j.attempts + 1, lease := Some(until),
       worker := Some(worker))
  }

  /** `locked` holds the rows other open transactions have locked at that moment. */
  ghost function ClaimNextJob(db: Db, worker: Id, now: int, seconds: int, locked: set<Id>): Tx {
    if exists id :: IsNext(db, id, now, locked) then
      var id :| IsNext(db, id, now, locked);
      Tx(db.(jobs := db.jobs[id := ClaimedRow(db.jobs[id], worker, now + seconds)]), ClaimedJob(id))
    else Tx(db, NoWork)
  }

  predicate HoldsJob(db: Db, id: Id, worker: Id, now: int) {
    id in db.jobs && db.jobs[id].status.Running? && db.jobs[id].worker == Some(worker) &&
    Before(now, db.jobs[id].lease)
  }

  /** Renewal looks at the job row alone, not at its run. */
  function RenewJobLease(db: Db, id: Id, worker: Id, now: int, seconds: int): Tx {
    if seconds <= 0 then Rollback(db, BadArgument)
    else if HoldsJob(db, id, worker, now) then
      Tx(db.(jobs := db.jobs[id := db.jobs[id].(lease := Some(now + seconds))]), Granted(true))
    else Tx(db, Granted(false))
  }

  function Released(j: Job, s: JobStatus): Job {
    j.(status := s, lease := None, worker := None)
  }

  function CompleteJobSuccess(db: Db, id: Id, worker: Id, resultId: Id, res: Result, now: int): Tx {
    if id !in db.jobs then Rollback(db, NotFound)
    else if !HoldsJob(db, id, worker, now) then Rollback(db, LeaseLost)
    else
      var job := db.jobs[id];
      if job.runId !in db.runs || !Active(db.runs[job.runId]) then Rollback(db, RunNotActive)
      else if res.runId != job.runId || res.candidateId != job.candidateId then
        Rollback(db, ResultMismatch)
      else if res.usedBudget < 0 || res.usedBudget > job.budget then Rollback(db, BadArgument)
      else if job.candidateId !in db.candidates || db.candidates[job.candidateId] != job.runId then
        Rollback(db, IdentityConflict)
      else if CandidateHasResult(db, res.candidateId) || resultId in db.results then
        Rollback(db, IdentityConflict)
      else
        var run := db.runs[job.runId];
        if run.reserved < job.budget then Rollback(db, LedgerMismatch)
        else
          Tx(db.(jobs := db.jobs[id := Released(job, JobStatus.Success).(resultId := Some(resultId))],
                 results := db.results[resultId := res],
                 runs := db.runs[job.runId := run.(reserved := run.reserved - job.budget,
                                                   consumed := run.consumed + res.usedBudget)]),
             Done)
  }

  function CompleteJobFailure(
    db: Db, id: Id, worker: Id, retryable: bool, availableAt: int, now: int): Tx
  {
    if id !in db.jobs then Rollback(db, NotFound)
    else if !HoldsJob(db, id, worker, now) then Rollback(db, LeaseLost)
    else
      var job := db.jobs[id];
      if job.runId !in db.runs || !Active(db.runs[job.runId]) then Rollback(db, RunNotActive)
      else if retryable && job.attempts < job.maxAttempts then
        var waiting := Released(job, JobStatus.RetryWait).(availableAt := availableAt);
        Tx(db.(jobs := db.jobs[id := waiting]), Done)
      else
        var dead := Released(job, JobStatus.Dead).(availableAt := availableAt);
        var run := db.runs[job.runId];
        if run.reserved < job.budget then Rollback(db, LedgerMismatch)
        else
          Tx(db.(jobs := db.jobs[id := dead],
                 runs := db.runs[job.runId := run.(reserved := run.reserved - job.budget)]), Done)
  }

  predicate Stale(j: Job, now: int, only: Option<Id>) {
    j.status.Running? && j.lease.Some? && j.lease.value <= now &&
    (only.None? || j.runId == only.value)
  }

  /** What stale recovery does to one row, given whether its run was cancelled. */
  function RecoveredRow(j: Job, cancelled: bool, now: int): Job {
    if cancelled then Released(j, JobStatus.Cancelled)
    else if j.attempts >= j.maxAttempts then Released(j, JobStatus.Dead)
    else Released(j, JobStatus.Pending).(availableAt := now)
  }

  predicate RunCancelled(db: Db, r: Id) {
    r in db.runs && (db.runs[r].cancelRequested || db.runs[r].status.Cancelled?)
  }

  function RecoveredJobs(db: Db, now: int, only: Option<Id>): map<Id, Job> {
    map id | id in db.jobs ::
      var j := db.jobs[id];
      if Stale(j, now, only) then RecoveredRow(j, RunCancelled(db, j.runId), now) else j
  }

  /** The reservation that moving row `j` to row `k` gives back to run `r`. */
  function Refund(r: Id, j: Job, k: Job): int {
    if j.runId == r && Live(j.status) && !Live(k.status) then j.budget else 0
  }

  function RefundColumn(r: Id, before: map<Id, Job>, after: map<Id, Job>): map<Id, int>
    requires before.Keys <= after.Keys
  {
    map id | id in before :: Refund(r, before[id], after[id])
  }

  ghost function Refunded(r: Id, before: map<Id, Job>, after: map<Id, Job>): int
    requires before.Keys <= after.Keys
  {
    Total(RefundColumn(r, before, after))
  }

  ghost function RecoverStaleJobs(db: Db, now: int, only: Option<Id>): Tx {
    var jobs := RecoveredJobs(db, now, only);
    Tx(db.(jobs := jobs,
           runs := map r | r in db.runs ::
             db.runs[r].(reserved := db.runs[r].reserved - Refunded(r, db.jobs, jobs))),
       Done)
  }

  // ---------------------------------------------------------------- runs

  predicate OwnsRun(db: Db, r: Id, owner: Id, now: int) {
    r in db.runs && db.runs[r].owner == Some(owner) && Before(now, db.runs[r].lease)
  }

  /** With an owner the write is fenced by its lease; without one, no owner may exist. */
  predicate FencedBy(db: Db, r: Id, owner: Option<Id>, now: int) {
    match owner
    case Some(o) => OwnsRun(db, r, o, now)
    case None => r in db.runs && db.runs[r].owner.None?
  }

  /**
   * An UPDATE of a run row whose row count must be one. It also writes the time and the
   * control reason; `sameStamp` says that the row already carried both, and then a write
   * that changes no other column counts no row.
   */
  function WriteRun(db: Db, r: Id, run: Run, sameStamp: bool): Tx
    requires r in db.runs
  {
    if run == db.runs[r] && sameStamp then Rollback(db, CasFailed)
    else Tx(db.(runs := db.runs[r := run]), Done)
  }

  function StartRun(db: Db, r: Id, expected: RunStatus, now: int, owner: Option<Id>, sameStamp: bool): Tx {
    if FencedBy(db, r, owner, now) && db.runs[r].status == expected && !db.runs[r].cancelRequested
    then WriteRun(db, r, db.runs[r].(status := RunStatus.Running, pauseRequested := false), sameStamp)
    else Rollback(db, CasFailed)
  }

  function PauseRun(db: Db, r: Id, owner: Id, now: int): Tx {
    if OwnsRun(db, r, owner, now) && Active(db.runs[r]) then
      Tx(db.(runs := db.runs[r := db.runs[r].(status := RunStatus.Paused, pauseRequested := false,
                                              owner := None, lease := None)]), Done)
    else Rollback(db, CasFailed)
  }

  /** The rows of run `r` that stop: all live ones, or all but the running ones. */
  predicate Stops(j: Job, r: Id, running: bool) {
    j.runId == r && (if running then Live(j.status) else Unclaimed(j.status))
  }

  function StoppedJobs(db: Db, r: Id, running: bool): map<Id, Job> {
    map id | id in db.jobs ::
      if Stops(db.jobs[id], r, running) then Released(db.jobs[id], JobStatus.Cancelled)
      else db.jobs[id]
  }

  predicate Open(t: AgentTask, r: Id) {
    t.runId == r && (t.status.Pending? || t.status.Claimed?)
  }

  function StoppedTasks(db: Db, r: Id, now: int): map<Id, AgentTask> {
    map id | id in db.agentTasks ::
      var t := db.agentTasks[id];
      if Open(t, r) then
        t.(status := TaskStatus.Cancelled, token := None, lease := None, updatedAt := now)
      else t
  }

  function StopWork(db: Db, r: Id, running: bool, run: Run, now: int): Db {
    db.(jobs := StoppedJobs(db, r, running), agentTasks := StoppedTasks(db, r, now),
        runs := db.runs[r := run])
  }

  ghost function CompleteRun(db: Db, r: Id, owner: Id, now: int, generation: nat, best: Id): Tx {
    if OwnsRun(db, r, owner, now) && Active(db.runs[r]) && !db.runs[r].pauseRequested &&
       db.runs[r].reserved == Refunded(r, db.jobs, StoppedJobs(db, r, true))
    then
      var run := db.runs[r].(status := RunStatus.Completed, generation := generation,
                             best := Some(best), reserved := 0, owner := None, lease := None);
      Tx(StopWork(db, r, true, run, now), Done)
    else Rollback(db, CasFailed)
  }

  ghost function FailRun(db: Db, r: Id, now: int, owner: Option<Id>): Tx {
    if FencedBy(db, r, owner, now) && !db.runs[r].cancelRequested &&
       (db.runs[r].status.Pending? || db.runs[r].status.Running?) &&
       db.runs[r].reserved == Refunded(r, db.jobs, StoppedJobs(db, r, true))
    then
      var run := db.runs[r].(status := RunStatus.Failed, reserved := 0, owner := None, lease := None);
      Tx(StopWork(db, r, true, run, now), Done)
    else Rollback(db, CasFailed)
  }

  function UpdateRunProgress(db: Db, r: Id, owner: Id, now: int, generation: nat, sameStamp: bool): Tx {
    if OwnsRun(db, r, owner, now) && Active(db.runs[r])
    then WriteRun(db, r, db.runs[r].(generation := generation), sameStamp)
    else Rollback(db, CasFailed)
  }

  function RequestRunPause(db: Db, r: Id, sameStamp: bool): Tx {
    if r in db.runs && Active(db.runs[r])
    then WriteRun(db, r, db.runs[r].(pauseRequested := true), sameStamp)
    else Rollback(db, CasFailed)
  }

  ghost function RequestRunCancel(db: Db, r: Id, now: int): Tx {
    if r !in db.runs then Rollback(db, NotFound)
    else if Terminal(db.runs[r].status) then Rollback(db, RunNotActive)
    else
      var released := Refunded(r, db.jobs, StoppedJobs(db, r, false));
      if db.runs[r].reserved < released then Rollback(db, LedgerMismatch)
      else
        var run := db.runs[r].(status := RunStatus.Cancelled, cancelRequested := true,
                               pauseRequested := false,
                               reserved := db.runs[r].reserved - released,
                               owner := None, lease := None);
        Tx(StopWork(db, r, false, run, now), Done)
  }

  /** An UPDATE that matches but changes nothing reports zero rows, hence is not granted. */
  function ClaimRunLease(db: Db, r: Id, owner: Id, now: int, seconds: int): Tx {
    if seconds <= 0 then Rollback(db, BadArgument)
    else if r in db.runs && (db.runs[r].status.Pending? || db.runs[r].status.Running?) &&
            !db.runs[r].cancelRequested &&
            (db.runs[r].owner.None? || db.runs[r].owner == Some(owner) ||
             !Before(now, db.runs[r].lease))
    then
      var run := db.runs[r].(owner := Some(owner), lease := Some(now + seconds));
      Tx(db.(runs := db.runs[r := run]), Granted(run != db.runs[r]))
    else Tx(db, Granted(false))
  }

  function RenewRunLease(db: Db, r: Id, owner: Id, now: int, seconds: int): Tx {
    if OwnsRun(db, r, owner, now) && Active(db.runs[r]) then
      Tx(db.(runs := db.runs[r := db.runs[r].(lease := Some(now + seconds))]), Granted(true))
    else Tx(db, Granted(false))
  }

  function ReleaseRunLease(db: Db, r: Id, owner: Id): Tx {
    if r in db.runs && db.runs[r].owner == Some(owner) then
      Tx(db.(runs := db.runs[r := db.runs[r].(owner := None, lease := None)]), Granted(true))
    else Tx(db, Granted(false))
  }

  predicate Orphaned(run: Run, now: int) {
    (run.status.Pending? || run.status.Running?) && run.owner.Some? &&
    run.lease.Some? && run.lease.value <= now
  }

  function RecoverOrphanRuns(db: Db, now: int): Tx {
    Tx(db.(runs := map r | r in db.runs ::
             if Orphaned(db.runs[r], now) then db.runs[r].(owner := None, lease := None)
             else db.runs[r]), Done)
  }

  /** The owner-carrying form; a cursor that already holds the value reports zero rows. */
  function UpdateRuntimeCursor(db: Db, r: Id, artifact: Id, owner: Id, now: int): Tx {
    if OwnsRun(db, r, owner, now) && Active(db.runs[r]) then
      Tx(db.(runs := db.runs[r := db.runs[r].(cursor := Some(artifact))]),
         Granted(db.runs[r].cursor != Some(artifact)))
    else Tx(db, Granted(false))
  }

  function AddCheckpoint(db: Db, id: Id, c: Checkpoint): Tx {
    if id in db.checkpoints then Tx(db, Done)
    else Tx(db.(checkpoints := db.checkpoints[id := c]), Done)
  }

  // ---------------------------------------------------------------- agent tasks

  predicate AgentRunActive(db: Db, r: Id) {
    r in db.runs && !db.runs[r].cancelRequested &&
    (db.runs[r].status.Pending? || db.runs[r].status.Running?)
  }

  /** Neither the run's status nor `max` is checked. */
  ghost function AddAgentTask(db: Db, id: Id, runId: Id, key: Id, max: int, now: int): Tx {
    if runId !in db.runs then Rollback(db, NotFound)
    else if exists o :: o in db.agentTasks && db.agentTasks[o].runId == runId && db.agentTasks[o].key == key
    then
      var o :| o in db.agentTasks && db.agentTasks[o].runId == runId && db.agentTasks[o].key == key;
      Tx(db, Duplicate(o))
    else if id in db.agentTasks then Rollback(db, DuplicateKey)
    else
      var t := AgentTask(runId, key, TaskStatus.Pending, 0, max, None, None, now, []);
      Tx(db.(agentTasks := db.agentTasks[id := t]), Done)
  }

  function ClaimAgentTask(db: Db, id: Id, now: int, seconds: int, token: Id): Tx {
    if seconds <= 0 then Rollback(db, BadArgument)
    else if id in db.agentTasks && db.agentTasks[id].status.Pending? &&
            db.agentTasks[id].attempts < db.agentTasks[id].maxAttempts &&
            AgentRunActive(db, db.agentTasks[id].runId)
    then
      var t := db.agentTasks[id];
      var c := t.(status := TaskStatus.Claimed, token := Some(token), lease := Some(now + seconds),
                  attempts := t.attempts + 1, updatedAt := now);
      Tx(db.(agentTasks := db.agentTasks[id := c]), Done)
    else Rollback(db, CasFailed)
  }

  predicate HoldsTask(db: Db, id: Id, token: Id, now: int) {
    id in db.agentTasks && db.agentTasks[id].status.Claimed? &&
    db.agentTasks[id].token == Some(token) && Before(now, db.agentTasks[id].lease) &&
    AgentRunActive(db, db.agentTasks[id].runId)
  }

  function RenewAgentTask(db: Db, id: Id, token: Id, now: int, seconds: int): Tx {
    if seconds <= 0 then Rollback(db, BadArgument)
    else if HoldsTask(db, id, token, now) then
      var t := db.agentTasks[id].(lease := Some(now + seconds), updatedAt := now);
      Tx(db.(agentTasks := db.agentTasks[id := t]), Granted(true))
    else Tx(db, Granted(false))
  }

  function CompleteAgentTask(db: Db, id: Id, token: Id, outputs: seq<Id>, now: int): Tx {
    if HoldsTask(db, id, token, now) then
      var t := db.agentTasks[id].(status := TaskStatus.Completed, token := None, lease := None,
                                  updatedAt := now, outputs := outputs);
      Tx(db.(agentTasks := db.agentTasks[id := t]), Done)
    else Rollback(db, CasFailed)
  }

  function FailAgentTask(db: Db, id: Id, token: Id, now: int): Tx {
    if id !in db.agentTasks then Rollback(db, NotFound)
    else if HoldsTask(db, id, token, now) then
      var t := db.agentTasks[id];
      var next := if t.attempts < t.maxAttempts then TaskStatus.Pending else TaskStatus.Failed;
      Tx(db.(agentTasks := db.agentTasks[id := t.(status := next, token := None, lease := None,
                                                  updatedAt := now)]), Done)
    else Rollback(db, CasFailed)
  }

  predicate OrphanTask(t: AgentTask, now: int, orphanSeconds: int) {
    t.status.Claimed? &&
    (if t.lease.Some? then t.lease.value <= now else t.updatedAt <= now - orphanSeconds)
  }

  function RecoveredTask(t: AgentTask, runOver: bool, now: int): AgentTask {
    var next :=
      if runOver then TaskStatus.Cancelled
      else if t.attempts >= t.maxAttempts then TaskStatus.Failed
      else TaskStatus.Pending;
    t.(status := next, token := None, lease := None, updatedAt := now)
  }

  function RecoverOrphanAgentTasks(db: Db, now: int, orphanSeconds: int): Tx {
    Tx(db.(agentTasks := map id | id in db.agentTasks ::
             var t := db.agentTasks[id];
             if t.runId in db.runs && OrphanTask(t, now, orphanSeconds) then
               RecoveredTask(t, db.runs[t.runId].cancelRequested || Terminal(db.runs[t.runId].status), now)
             else t), Done)
  }

  // ---------------------------------------------------------------- histories

  /** One committed transaction, with the arguments its caller passed. */
  datatype Action =
    | DoCreateTaskRun(taskId: Id, total: int, runId: Id)
    | DoAddCandidate(candidateId: Id, runId: Id)
    | DoEnqueue(job: NewJob)
    | DoClaim(worker: Id, now: int, seconds: int, locked: set<Id>)
    | DoRenew(id: Id, worker: Id, now: int, seconds: int)
    | DoSucceed(id: Id, worker: Id, resultId: Id, result: Result, now: int)
    | DoFail(id: Id, worker: Id, retryable: bool, availableAt: int, now: int)
    | DoRecover(now: int, only: Option<Id>)
    | DoStart(runId: Id, expected: RunStatus, now: int, startOwner: Option<Id>, sameStamp: bool)
    | DoPause(runId: Id, owner: Id, now: int)
    | DoComplete(runId: Id, owner: Id, now: int, generation: nat, best: Id)
    | DoFailRun(runId: Id, now: int, failOwner: Option<Id>)
    | DoProgress(runId: Id, owner: Id, now: int, generation: nat, sameStamp: bool)
    | DoRequestPause(runId: Id, sameStamp: bool)
    | DoRequestCancel(runId: Id, now: int)
    | DoClaimRun(runId: Id, owner: Id, now: int, seconds: int)
    | DoRenewRun(runId: Id, owner: Id, now: int, seconds: int)
    | DoReleaseRun(runId: Id, owner: Id)
    | DoRecoverRuns(now: int)
    | DoCursor(runId: Id, artifact: Id, owner: Id, now: int)
    | DoAddCheckpoint(checkpointId: Id, checkpoint: Checkpoint)
    | DoAddTask(taskId: Id, runId: Id, key: Id, max: int, now: int)
    | DoClaimTask(taskId: Id, now: int, seconds: int, token: Id)
    | DoRenewTask(taskId: Id, token: Id, now: int, seconds: int)
    | DoCompleteTask(taskId: Id, token: Id, outputs: seq<Id>, now: int)
    | DoFailTask(taskId: Id, token: Id, now: int)
    | DoRecoverTasks(now: int, orphanSeconds: int)

  ghost function Apply(db: Db, a: Action): Tx {
    match a
    case DoCreateTaskRun(t, total, r) => CreateTaskRun(db, t, total, r)
    case DoAddCandidate(c, r) => AddCandidate(db, c, r)
    case DoEnqueue(n) => EnqueueJob(db, n)
    case DoClaim(w, now, s, locked) => ClaimNextJob(db, w, now, s, locked)
    case DoRenew(id, w, now, s) => RenewJobLease(db, id, w, now, s)
    case DoSucceed(id, w, rid, res, now) => CompleteJobSuccess(db, id, w, rid, res, now)
    case DoFail(id, w, retryable, at, now) => CompleteJobFailure(db, id, w, retryable, at, now)
    case DoRecover(now, only) => RecoverStaleJobs(db, now, only)
    case DoStart(r, expected, now, o, same) => StartRun(db, r, expected, now, o, same)
    case DoPause(r, o, now) => PauseRun(db, r, o, now)
    case DoComplete(r, o, now, g, b) => CompleteRun(db, r, o, now, g, b)
    case DoFailRun(r, now, o) => FailRun(db, r, now, o)
    case DoProgress(r, o, now, g, same) => UpdateRunProgress(db, r, o, now, g, same)
    case DoRequestPause(r, same) => RequestRunPause(db, r, same)
    case DoRequestCancel(r, now) => RequestRunCancel(db, r, now)
    case DoClaimRun(r, o, now, s) => ClaimRunLease(db, r, o, now, s)
    case DoRenewRun(r, o, now, s) => RenewRunLease(db, r, o, now, s)
    case DoReleaseRun(r, o) => ReleaseRunLease(db, r, o)
    case DoRecoverRuns(now) => RecoverOrphanRuns(db, now)
    case DoCursor(r, art, o, now) => UpdateRuntimeCursor(db, r, art, o, now)
    case DoAddCheckpoint(id, c) => AddCheckpoint(db, id, c)
    case DoAddTask(id, r, key, max, now) => AddAgentTask(db, id, r, key, max, now)
    case DoClaimTask(id, now, s, token) => ClaimAgentTask(db, id, now, s, token)
    case DoRenewTask(id, token, now, s) => RenewAgentTask(db, id, token, now, s)
    case DoCompleteTask(id, token, outs, now) => CompleteAgentTask(db, id, token, outs, now)
    case DoFailTask(id, token, now) => FailAgentTask(db, id, token, now)
    case DoRecoverTasks(now, s) => RecoverOrphanAgentTasks(db, now, s)
  }

  /** A committed transaction, what its caller was told, and the content it left. */
  datatype Entry = Entry(action: Action, reply: Reply, after: Db)

  /** The content a history ends with; the database starts empty. */
  function Now(h: seq<Entry>): Db {
    if h == [] then EMPTY_DB else h[|h| - 1].after
  }

  ghost predicate Follows(h: seq<Entry>, i: nat)
    requires i < |h|
  {
    Apply(Now(h[..i]), h[i].action) == Tx(h[i].after, h[i].reply)
  }

  /** Any interleaving of the transactions of any number of workers, runtimes and operators. */
  ghost predicate History(h: seq<Entry>) {
    forall i: nat {:trigger Follows(h, i)} :: i < |h| ==> Follows(h, i)
  }
}
