/**
 The scraping job entity: its value, the transitions that the domain allows on it, and the
 mutable object whose methods perform them.
 */
module ScrapingJobs {
  import opened Prelude

  type Uuid = nat

  type Time = int

  datatype Status = Pending | Running | Completed | Failed | Cancelled

  datatype Trigger = Scheduled | Manual

  const MAX_RETRIES := 3

  datatype Job = Job(
    id: Uuid,
    tenant: Uuid,
    source: Uuid,
    status: Status,
    trigger: Trigger,
    page: int,
    found: int,
    saved: int,
    error: string,
    startedAt: Option<Time>,
    completedAt: Option<Time>,
    createdAt: Time,
    retryCount: int,
    maxRetries: int
  )

  predicate IsTerminal(s: Status) {
    s.Completed? || s.Failed? || s.Cancelled?
  }

  /** The statuses that migration 018 counts as a run. */
  predicate IsFinished(s: Status) {
    s.Completed? || s.Failed?
  }

  function NewJob(id: Uuid, tenant: Uuid, source: Uuid, trigger: Trigger, page: int, now: Time): Job {
    Job(id, tenant, source, Pending, trigger, page, 0, 0, "", None, None, now, 0, MAX_RETRIES)
  }

  function AfterStart(j: Job, now: Time): Option<Job> {
    if j.status.Pending? then Some(j.(status := Running, startedAt := Some(now))) else None
  }

  function AfterComplete(j: Job, found: int, saved: int, now: Time): Option<Job> {
    if j.status.Running?
    then Some(j.(status := Completed, found := found, saved := saved, completedAt := Some(now)))
    else None
  }

  function AfterFail(j: Job, reason: string, now: Time): Option<Job> {
    if j.status.Running?
    then Some(j.(status := Failed, error := reason, completedAt := Some(now)))
    else None
  }

  function AfterCancel(j: Job): Option<Job> {
    if j.status.Pending? then Some(j.(status := Cancelled)) else None
  }

  predicate CanRetry(j: Job) {
    j.retryCount < j.maxRetries
  }

  /** What remains of a job when a transition's error is discarded. */
  function OrKeep(attempt: Option<Job>, j: Job): Job {
    match attempt
    case Some(changed) => changed
    case None => j
  }

  /** The new job a retry inserts. */
  function RetryOf(original: Job, id: Uuid, now: Time): Job {
    NewJob(id, original.tenant, original.source, original.trigger, 0, now)
    .(retryCount := original.retryCount + 1, maxRetries := original.maxRetries)
  }

  /** The columns an UPDATE of a job row writes; the others keep the row's values. */
  function UpdatedRow(row: Job, j: Job): Job {
    row.(status := j.status, page := j.page, found := j.found, saved := j.saved, error := j.error,
    startedAt := j.startedAt, completedAt := j.completedAt, retryCount := j.retryCount)
  }

  /** Two copies of one job that agree on everything no transition changes. */
  predicate SameIdentity(a: Job, b: Job) {
    && a.id == b.id
    && a.tenant == b.tenant
    && a.source == b.source
    && a.trigger == b.trigger
    && a.createdAt == b.createdAt
    && a.retryCount == b.retryCount
    && a.maxRetries == b.maxRetries
  }

  /** The job object that use cases mutate in memory. */
  class ScrapingJob {
    const id: Uuid
    const tenant: Uuid
    const source: Uuid
    const trigger: Trigger
    const createdAt: Time
    var status: Status
    var page: int
    var found: int
    var saved: int
    var error: string
    var startedAt: Option<Time>
    var completedAt: Option<Time>
    var retryCount: int
    var maxRetries: int

    constructor (j: Job)
      ensures Value() == j
    {
      id, tenant, source, trigger, createdAt := j.id, j.tenant, j.source, j.trigger, j.createdAt;
      status, page, found, saved, error := j.status, j.page, j.found, j.saved, j.error;
      startedAt, completedAt, retryCount, maxRetries := j.startedAt, j.completedAt, j.retryCount, j.maxRetries;
    }

    function Value(): Job
      reads this
    {
      Job(id, tenant, source, status, trigger, page, found, saved, error, startedAt, completedAt, createdAt,
          retryCount, maxRetries)
    }

    method Start(now: Time) returns (ok: bool)
      modifies this
      ensures ok == old(AfterStart(Value(), now)).Some?
      ensures Value() == OrKeep(old(AfterStart(Value(), now)), old(Value()))
      ensures ok <==> old(status) == Pending
      ensures ok ==> status == Running && startedAt == Some(now)
    {
      if status != Pending {
        return false;
      }
      status := Running;
      startedAt := Some(now);
      return true;
    }

    method Complete(found: int, saved: int, now: Time) returns (ok: bool)
      modifies this
      ensures ok == old(AfterComplete(Value(), found, saved, now)).Some?
      ensures Value() == OrKeep(old(AfterComplete(Value(), found, saved, now)), old(Value()))
      ensures ok <==> old(status) == Running
      ensures ok ==> status == Completed && this.found == found && this.saved == saved && completedAt == Some(now)
    {
      if status != Running {
        return false;
      }
      status := Completed;
      this.found := found;
      this.saved := saved;
      completedAt := Some(now);
      return true;
    }

    method Fail(reason: string, now: Time) returns (ok: bool)
      modifies this
      ensures ok == old(AfterFail(Value(), reason, now)).Some?
      ensures Value() == OrKeep(old(AfterFail(Value(), reason, now)), old(Value()))
      ensures ok <==> old(status) == Running
      ensures ok ==> status == Failed && error == reason && completedAt == Some(now)
    {
      if status != Running {
        return false;
      }
      status := Failed;
      error := reason;
      completedAt := Some(now);
      return true;
    }

    method Cancel() returns (ok: bool)
      modifies this
      ensures ok == old(AfterCancel(Value())).Some?
      ensures Value() == OrKeep(old(AfterCancel(Value())), old(Value()))
      ensures ok <==> old(status) == Pending
      ensures ok ==> status == Cancelled
    {
      if status != Pending {
        return false;
      }
      status := Cancelled;
      return true;
    }
  }
}
