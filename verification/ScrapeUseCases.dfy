/**
 The job and source repositories and the use cases over them, as code that changes stored rows. Each
 use case is tied to the events of the job protocol that it performs.
 */
module ScrapeUseCases {
  import opened Prelude
  import opened ScrapingJobs
  import JobProtocol

  type Source = JobProtocol.Source

  datatype JobError =
    | JobNotFound
    | DuplicateJob
    | WrongStatus
    | MaxRetriesReached
    | SourceNotFound
    | ScrapeFailed(reason: string)

  /** The jobs waiting in the table, and those of one tenant. */
  function PendingIds(rows: map<Uuid, Job>): set<Uuid> {
    set id | id in rows && rows[id].status.Pending?
  }

  function PendingOf(rows: map<Uuid, Job>, tenant: Uuid): set<Uuid> {
    set id | id in PendingIds(rows) && rows[id].tenant == tenant
  }

  /** Each stored row carries its own key. */
  predicate WellKeyed(rows: map<Uuid, Job>) {
    forall id :: id in rows ==> rows[id].id == id
  }

  class JobTable {
    var rows: map<Uuid, Job>

    constructor ()
      ensures rows == map[]
    {
      rows := map[];
    }

    method Save(j: Job) returns (r: Result<(), JobError>)
      modifies this
      ensures r == if j.id in old(rows) then Err(DuplicateJob) else Ok(())
      ensures rows == if r.Ok? then old(rows)[j.id := j] else old(rows)
    {
      if j.id in rows {
        return Err(DuplicateJob);
      }
      rows := rows[j.id := j];
      return Ok(());
    }

    method FindByID(tenant: Uuid, id: Uuid) returns (r: Result<Job, JobError>)
      ensures r == if id in rows && rows[id].tenant == tenant then Ok(rows[id]) else Err(JobNotFound)
    {
      if id in rows && rows[id].tenant == tenant {
        return Ok(rows[id]);
      }
      return Err(JobNotFound);
    }

    /** UPDATE by tenant and id; a statement that matches no row is not an error. */
    method Update(j: Job)
      modifies this
      ensures rows == if j.id in old(rows) && old(rows)[j.id].tenant == j.tenant
                      then old(rows)[j.id := UpdatedRow(old(rows)[j.id], j)] else old(rows)
    {
      if j.id in rows && rows[j.id].tenant == j.tenant {
        rows := rows[j.id := UpdatedRow(rows[j.id], j)];
      }
    }

    /**
     Picks a tenant that has pending jobs, and takes the oldest of its pending jobs that no other
     claim has locked. With nothing locked it fails exactly when nothing is pending; otherwise it
     also fails when the tenant it picks has all its pending jobs locked.
     */
    method ClaimPendingJob(now: Time, locked: set<Uuid>) returns (r: Result<ScrapingJob, JobError>)
      requires WellKeyed(rows)
      modifies this
      ensures WellKeyed(rows)
      ensures r.Err? ==> r.error == JobNotFound && rows == old(rows)
      ensures r.Err? ==>
                PendingIds(rows) == {} || exists id ::
                  id in PendingIds(rows) && PendingOf(rows, rows[id].tenant) <= locked
      ensures r.Ok? ==> fresh(r.value) && (
                          var j := r.value.Value();
                          && j.id in PendingIds(old(rows)) - locked
                          && Some(j) == AfterStart(old(rows)[j.id], now)
                          && j == old(rows)[j.id].(status := Running, startedAt := Some(now))
                          && rows == old(rows)[j.id := j]
                          && (forall other :: other in PendingOf(old(rows), j.tenant) - locked ==>
                                                j.createdAt <= old(rows)[other].createdAt))
    {
      var pending := PendingIds(rows);
      if pending == {} {
        return Err(JobNotFound);
      }
      var any :| any in pending;
      var free := PendingOf(rows, rows[any].tenant) - locked;
      if free == {} {
        assert forall id :: id in PendingOf(rows, rows[any].tenant) && id !in locked ==> id in free;
        return Err(JobNotFound);
      }
      var oldest :| oldest in free;
      var rest := free;
      while rest != {}
        invariant rows == old(rows)
        invariant rest <= free && oldest in free
        invariant forall other :: other in free - rest ==> rows[oldest].createdAt <= rows[other].createdAt
        decreases rest
      {
        var next :| next in rest;
        if rows[next].createdAt < rows[oldest].createdAt {
          oldest := next;
        }
        rest := rest - {next};
      }
      var claimed := rows[oldest].(status := Running, startedAt := Some(now));
      rows := rows[oldest := claimed];
      var job := new ScrapingJob(claimed);
      return Ok(job);
    }
  }

  class SourceTable {
    var rows: map<Uuid, Source>

    constructor ()
      ensures rows == map[]
    {
      rows := map[];
    }

    /** Active rows of the tenant only. */
    method FindByID(tenant: Uuid, id: Uuid) returns (r: Result<Source, JobError>)
      ensures r.Ok? <==> id in rows && rows[id].tenant == tenant && rows[id].active
      ensures r == if r.Ok? then Ok(rows[id]) else Err(SourceNotFound)
    {
      if id in rows && rows[id].tenant == tenant && rows[id].active {
        return Ok(rows[id]);
      }
      return Err(SourceNotFound);
    }

    /** Counts a run whether or not the source is still active. */
    method RecordJobResult(id: Uuid, success: bool)
      modifies this
      ensures rows == if id in old(rows) then old(rows)[id := JobProtocol.Counted(old(rows)[id], success)]
                      else old(rows)
      ensures id in old(rows) ==>
                var before, after := old(rows)[id], rows[id];
                && after.totalRuns == before.totalRuns + 1
                && after.successfulRuns == before.successfulRuns + (if success then 1 else 0)
                && after.failedRuns == before.failedRuns + (if success then 0 else 1)
                && after.health * after.totalRuns as real == after.successfulRuns as real
    {
      if id in rows {
        var src := rows[id];
        var successes := if success then src.successfulRuns + 1 else src.successfulRuns;
        var failures := if !success then src.failedRuns + 1 else src.failedRuns;
        var health := successes as real / (src.totalRuns + 1) as real;
        rows := rows[id := src.(totalRuns := src.totalRuns + 1, successfulRuns := successes, failedRuns := failures,
        health := health)];
      }
    }
  }

  // ------------------------------------------- the use cases and the protocol

  /** The stored rows are those of a protocol state. */
  ghost predicate Matches(s: JobProtocol.State, jobs: map<Uuid, Job>, sources: map<Uuid, Source>) {
    && s.jobs.Keys == jobs.Keys
    && (forall id :: id in jobs ==> s.jobs[id].row == jobs[id])
    && s.sources == sources
  }

  /** The protocol events that executing a claimed job amounts to. */
  function ExecuteEvents(s: JobProtocol.State, w: nat, j: Job, outcome: JobProtocol.Outcome): seq<JobProtocol.Event> {
    if JobProtocol.SourceVisible(s.sources, j)
    then [JobProtocol.LookUp(w), JobProtocol.Finish(w, outcome), JobProtocol.Record(w)]
    else [JobProtocol.LookUp(w), JobProtocol.WriteMissing(w)]
  }

  /** The copy's row is in the table, with the copy's identity. */
  predicate IsRowOf(jobs: map<Uuid, Job>, j: Job) {
    j.id in jobs && SameIdentity(j, jobs[j.id])
  }

  /** What the code of a worker may rely on between two store operations. */
  predicate IsHeld(jobs: map<Uuid, Job>, sources: map<Uuid, Source>, k: JobProtocol.Worker) {
    match k
    case Idle => true
    case Claimed(j) => IsRowOf(jobs, j) && j.status.Running?
    case Scraping(j) => IsRowOf(jobs, j) && j.status.Running? && j.source in sources
    case Missing(j) => IsRowOf(jobs, j)
    case Counting(id, sid, _) => id in jobs && sid in sources
  }

  /** In every reachable state, whatever the other processes have done, a worker may rely on it. */
  lemma WorkersMayRely(s: JobProtocol.State, w: nat, jobs: map<Uuid, Job>)
    requires JobProtocol.Inv(s) && Matches(s, jobs, s.sources) && w in s.workers
    ensures IsHeld(jobs, s.sources, s.workers[w])
  {
    assert JobProtocol.WorkerOk(s.jobs, w, s.workers[w]);
  }

  // ------------------------------------------- the statements of a worker, one event each

  /** FindByID of the source; without one the job fails in memory. */
  method LookUpSource(jobs: JobTable, sources: SourceTable, job: ScrapingJob, now: Time, ghost s: JobProtocol.State,
                      ghost w: nat)
    returns (found: bool, ghost t: JobProtocol.State)
    requires s.clock == now && Matches(s, jobs.rows, sources.rows)
    requires w in s.workers && s.workers[w] == JobProtocol.Claimed(job.Value())
    requires IsHeld(jobs.rows, sources.rows, s.workers[w])
    modifies job
    ensures found <==> JobProtocol.SourceVisible(sources.rows, old(job.Value()))
    ensures JobProtocol.Enabled(s, JobProtocol.LookUp(w)) && t == JobProtocol.Next(s, JobProtocol.LookUp(w))
    ensures Matches(t, jobs.rows, sources.rows) && t.clock == now && IsHeld(jobs.rows, sources.rows, t.workers[w])
    ensures t.workers
         == s.workers[w := if found then JobProtocol.Scraping(job.Value()) else JobProtocol.Missing(job.Value())]
    ensures job.Value() == if found then old(job.Value())
                           else
                             old(job.Value()).(status := Failed, error := "source not found", completedAt := Some(now))
  {
    t := JobProtocol.Next(s, JobProtocol.LookUp(w));
    var source := sources.FindByID(job.tenant, job.source);
    found := source.Ok?;
    if !found {
      var _ := job.Fail("source not found", now);
    }
  }

  /** The write of a job whose source was not found; nothing is counted. */
  method WriteUnfound(jobs: JobTable, job: ScrapingJob, ghost s: JobProtocol.State, ghost w: nat)
    returns (ghost t: JobProtocol.State)
    requires Matches(s, jobs.rows, s.sources)
    requires w in s.workers && s.workers[w] == JobProtocol.Missing(job.Value())
    requires IsHeld(jobs.rows, s.sources, s.workers[w])
    modifies jobs
    ensures JobProtocol.Enabled(s, JobProtocol.WriteMissing(w)) && t == JobProtocol.Next(s, JobProtocol.WriteMissing(w))
    ensures Matches(t, jobs.rows, s.sources) && t.clock == s.clock && t.workers == s.workers[w := JobProtocol.Idle]
    ensures job.id in jobs.rows && jobs.rows[job.id] == job.Value()
    ensures jobs.rows[job.id].id == old(jobs.rows)[job.id].id
    ensures jobs.rows == old(jobs.rows)[job.id := jobs.rows[job.id]]
  {
    t := JobProtocol.Next(s, JobProtocol.WriteMissing(w));
    jobs.Update(job.Value());
  }

  /** The final write of a scraped job, as completed or failed. */
  method WriteFinal(jobs: JobTable, job: ScrapingJob, outcome: JobProtocol.Outcome, now: Time,
                    ghost s: JobProtocol.State, ghost w: nat)
    returns (ghost t: JobProtocol.State)
    requires s.clock == now && Matches(s, jobs.rows, s.sources)
    requires w in s.workers && s.workers[w] == JobProtocol.Scraping(job.Value())
    requires IsHeld(jobs.rows, s.sources, s.workers[w])
    modifies jobs, job
    ensures JobProtocol.Enabled(s, JobProtocol.Finish(w, outcome))
    ensures t == JobProtocol.Next(s, JobProtocol.Finish(w, outcome))
    ensures Matches(t, jobs.rows, s.sources) && t.clock == now && IsHeld(jobs.rows, s.sources, t.workers[w])
    ensures t.workers == s.workers[w := JobProtocol.Counting(job.id, job.source, outcome.Done?)]
    ensures job.id in jobs.rows && jobs.rows[job.id].status == (if outcome.Done? then Completed else Failed)
    ensures outcome.Done? ==> jobs.rows[job.id].found == outcome.found && jobs.rows[job.id].saved == outcome.saved
    ensures jobs.rows == old(jobs.rows)[job.id := jobs.rows[job.id]]
    ensures jobs.rows[job.id].id == old(jobs.rows)[job.id].id
    ensures jobs.rows[job.id] == job.Value()
         == match outcome
            case Done(found, saved) =>
              old(job.Value()).(status := Completed, found := found, saved := saved, completedAt := Some(now))
            case Broken(reason) => old(job.Value()).(status := Failed, error := reason, completedAt := Some(now))
  {
    t := JobProtocol.Next(s, JobProtocol.Finish(w, outcome));
    match outcome {
      case Done(found, saved) => var _ := job.Complete(found, saved, now);
      case Broken(reason) => var _ := job.Fail(reason, now);
    }
    jobs.Update(job.Value());
  }

  /** RecordJobResult, some time after the final write. */
  method CountRun(jobs: JobTable, sources: SourceTable, id: Uuid, source: Uuid, ok: bool, ghost s: JobProtocol.State,
                  ghost w: nat)
    returns (ghost t: JobProtocol.State)
    requires Matches(s, jobs.rows, sources.rows)
    requires w in s.workers && s.workers[w] == JobProtocol.Counting(id, source, ok)
    requires IsHeld(jobs.rows, sources.rows, s.workers[w])
    modifies sources
    ensures JobProtocol.Enabled(s, JobProtocol.Record(w)) && t == JobProtocol.Next(s, JobProtocol.Record(w))
    ensures Matches(t, jobs.rows, sources.rows) && t.clock == s.clock && t.workers == s.workers[w := JobProtocol.Idle]
  {
    t := JobProtocol.Next(s, JobProtocol.Record(w));
    sources.RecordJobResult(source, ok);
  }

  lemma TwoSteps(s: JobProtocol.State, a: JobProtocol.Event, b: JobProtocol.Event)
    requires JobProtocol.Enabled(s, a) && JobProtocol.Enabled(JobProtocol.Next(s, a), b)
    ensures JobProtocol.Steps(s, [a, b], JobProtocol.Next(JobProtocol.Next(s, a), b))
  {
    assert [a, b][1..] == [b] && [b][1..] == [];
    assert JobProtocol.Steps(JobProtocol.Next(s, a), [b], JobProtocol.Next(JobProtocol.Next(s, a), b));
  }

  lemma FirstStep(s: JobProtocol.State, e: JobProtocol.Event, more: seq<JobProtocol.Event>, end: JobProtocol.State)
    requires JobProtocol.Enabled(s, e) && JobProtocol.Steps(JobProtocol.Next(s, e), more, end)
    ensures JobProtocol.Steps(s, [e] + more, end)
  {
    assert ([e] + more)[1..] == more;
  }

  /** The end of a scrape: the final write, then the count. */
  method FinishScrape(jobs: JobTable, sources: SourceTable, job: ScrapingJob, outcome: JobProtocol.Outcome, now: Time,
                      ghost s: JobProtocol.State, ghost w: nat)
    returns (ghost t: JobProtocol.State)
    requires s.clock == now && Matches(s, jobs.rows, sources.rows)
    requires w in s.workers && s.workers[w] == JobProtocol.Scraping(job.Value())
    requires IsHeld(jobs.rows, sources.rows, s.workers[w])
    modifies jobs, sources, job
    ensures JobProtocol.Steps(s, [JobProtocol.Finish(w, outcome), JobProtocol.Record(w)], t)
    ensures Matches(t, jobs.rows, sources.rows) && t.clock == now && t.workers == s.workers[w := JobProtocol.Idle]
    ensures job.id in jobs.rows && jobs.rows[job.id].status == (if outcome.Done? then Completed else Failed)
    ensures outcome.Done? ==> jobs.rows[job.id].found == outcome.found && jobs.rows[job.id].saved == outcome.saved
    ensures jobs.rows == old(jobs.rows)[job.id := jobs.rows[job.id]]
    ensures jobs.rows[job.id].id == old(jobs.rows)[job.id].id
    ensures jobs.rows[job.id]
         == match outcome
            case Done(found, saved) =>
              old(job.Value()).(status := Completed, found := found, saved := saved, completedAt := Some(now))
            case Broken(reason) => old(job.Value()).(status := Failed, error := reason, completedAt := Some(now))
  {
    ghost var written := WriteFinal(jobs, job, outcome, now, s, w);
    t := CountRun(jobs, sources, job.id, job.source, outcome.Done?, written, w);
    TwoSteps(s, JobProtocol.Finish(w, outcome), JobProtocol.Record(w));
  }

  lemma ExecutedFound(s: JobProtocol.State, w: nat, j: Job, outcome: JobProtocol.Outcome, end: JobProtocol.State)
    requires JobProtocol.SourceVisible(s.sources, j) && JobProtocol.Enabled(s, JobProtocol.LookUp(w))
    requires JobProtocol.Steps(JobProtocol.Next(s, JobProtocol.LookUp(w)),
                               [JobProtocol.Finish(w, outcome), JobProtocol.Record(w)], end)
    ensures JobProtocol.Steps(s, ExecuteEvents(s, w, j, outcome), end)
  {
    FirstStep(s, JobProtocol.LookUp(w), [JobProtocol.Finish(w, outcome), JobProtocol.Record(w)], end);
    assert ExecuteEvents(s, w, j, outcome)
        == [JobProtocol.LookUp(w)] + [JobProtocol.Finish(w, outcome), JobProtocol.Record(w)];
  }

  /**
   Executes a claimed job whose scrape ends with the given outcome: look up the source, write the
   job's final row, count the run. With nothing in between it is the worker's events one after the
   other, and it touches no other row.
   */
  method Execute(jobs: JobTable, sources: SourceTable, job: ScrapingJob, outcome: JobProtocol.Outcome, now: Time,
                 ghost s: JobProtocol.State, ghost w: nat)
    returns (r: Result<(), JobError>, ghost end: JobProtocol.State)
    requires s.clock == now && Matches(s, jobs.rows, sources.rows)
    requires w in s.workers && s.workers[w] == JobProtocol.Claimed(job.Value())
    requires IsHeld(jobs.rows, sources.rows, s.workers[w])
    modifies jobs, sources, job
    ensures JobProtocol.Steps(s, ExecuteEvents(s, w, old(job.Value()), outcome), end)
    ensures Matches(end, jobs.rows, sources.rows)
    ensures end.workers == s.workers[w := JobProtocol.Idle] && end.clock == s.clock
    ensures r.Ok? <==> JobProtocol.SourceVisible(s.sources, old(job.Value())) && outcome.Done?
    ensures job.id in jobs.rows && jobs.rows[job.id].status == (if r.Ok? then Completed else Failed)
    ensures jobs.rows == old(jobs.rows)[job.id := jobs.rows[job.id]]
    ensures jobs.rows[job.id].id == old(jobs.rows)[job.id].id
    ensures var claimed := old(job.Value());
            jobs.rows[job.id]
            == if !JobProtocol.SourceVisible(s.sources, claimed)
            then claimed.(status := Failed, error := "source not found", completedAt := Some(now))
            else
              match outcome
              case Done(found, saved) =>
                claimed.(status := Completed, found := found, saved := saved, completedAt := Some(now))
              case Broken(reason) => claimed.(status := Failed, error := reason, completedAt := Some(now))
  {
    var found, looked := LookUpSource(jobs, sources, job, now, s, w);
    if !found {
      end := WriteUnfound(jobs, job, looked, w);
      TwoSteps(s, JobProtocol.LookUp(w), JobProtocol.WriteMissing(w));
      return Err(SourceNotFound), end;
    }
    end := FinishScrape(jobs, sources, job, outcome, now, looked, w);
    ExecutedFound(s, w, old(job.Value()), outcome, end);
    match outcome {
      case Done(_, _) => r := Ok(());
      case Broken(reason) => r := Err(ScrapeFailed(reason));
    }
  }

  /** A claim that found work is the protocol's claim of that job. */
  lemma ClaimRows(s: JobProtocol.State, w: nat, id: Uuid, jobs: map<Uuid, Job>)
    requires Matches(s, jobs, s.sources) && JobProtocol.WorkerAt(s.workers, w).Idle? && WellKeyed(jobs)
    requires id in PendingIds(jobs)
    ensures var claim := JobProtocol.Claim(w, id);
            var started := AfterStart(jobs[id], s.clock).value;
            && JobProtocol.Enabled(s, claim)
            && Matches(JobProtocol.Next(s, claim), jobs[id := started], s.sources)
            && JobProtocol.Next(s, claim).workers == s.workers[w := JobProtocol.Claimed(started)]
            && IsHeld(jobs[id := started], s.sources, JobProtocol.Claimed(started))
            && JobProtocol.Next(s, claim).clock == s.clock
  {
  }

  lemma {:induction false} StepsThenSteps(s: JobProtocol.State, first: seq<JobProtocol.Event>, t: JobProtocol.State,
                                          second: seq<JobProtocol.Event>, u: JobProtocol.State)
    requires JobProtocol.Steps(s, first, t) && JobProtocol.Steps(t, second, u)
    ensures JobProtocol.Steps(s, first + second, u)
    decreases |first|
  {
    if first == [] {
      assert first + second == second;
    } else {
      assert (first + second)[1..] == first[1..] + second;
      StepsThenSteps(JobProtocol.Next(s, first[0]), first[1..], t, second, u);
    }
  }

  /** From before to after, the pending jobs in done have been executed and nothing else changed. */
  ghost predicate Progressed(before: map<Uuid, Job>, done: set<Uuid>, after: map<Uuid, Job>) {
    && before.Keys == after.Keys
    && done <= PendingIds(before)
    && (forall id :: id in done ==> IsFinished(after[id].status))
    && (forall id :: id in before && id !in done ==> after[id] == before[id])
  }

  lemma ProgressCounts(before: map<Uuid, Job>, done: set<Uuid>, after: map<Uuid, Job>)
    requires Progressed(before, done, after)
    ensures |PendingIds(after)| == |PendingIds(before)| - |done|
  {
    assert PendingIds(before) == PendingIds(after) + done;
    UnionSize(PendingIds(after), done);
  }

  lemma ProgressTwice(a: map<Uuid, Job>, done: set<Uuid>, b: map<Uuid, Job>, more: set<Uuid>, c: map<Uuid, Job>)
    requires Progressed(a, done, b) && Progressed(b, more, c)
    ensures Progressed(a, done + more, c) && |done + more| == |done| + |more|
    ensures |PendingIds(b)| == |PendingIds(a)| - |done|
    ensures PendingIds(b) == {} <==> |PendingIds(b)| == 0
  {
    assert forall id :: id in done ==> id !in more;
    UnionSize(done, more);
    ProgressCounts(a, done, b);
  }

  /** When nothing is locked, every tenant with pending jobs has one that is free. */
  lemma NothingIsPending(rows: map<Uuid, Job>)
    requires PendingIds(rows) == {} || exists id :: id in PendingIds(rows) && PendingOf(rows, rows[id].tenant) <= {}
    ensures PendingIds(rows) == {}
  {
    OwnTenantPending(rows);
  }

  lemma OwnTenantPending(rows: map<Uuid, Job>)
    ensures forall id :: id in PendingIds(rows) ==> id in PendingOf(rows, rows[id].tenant)
  {
  }

  lemma OneIsDone(before: map<Uuid, Job>, started: Job, after: map<Uuid, Job>, id: Uuid)
    requires WellKeyed(before) && id in PendingIds(before)
    requires id in after && after == before[id := started][id := after[id]]
    requires IsFinished(after[id].status) && after[id].id == id
    ensures Progressed(before, {id}, after) && WellKeyed(after) && |{id}| == 1
  {
  }

  /** One tick of a worker's loop: claim a job, if there is one, and execute it. */
  method WorkerTick(jobs: JobTable, sources: SourceTable, outcome: JobProtocol.Outcome, now: Time,
                    ghost s: JobProtocol.State, ghost w: nat)
    returns (ran: bool, ghost taken: set<Uuid>, ghost events: seq<JobProtocol.Event>, ghost end: JobProtocol.State)
    requires s.clock == now && Matches(s, jobs.rows, sources.rows) && WellKeyed(jobs.rows)
    requires JobProtocol.WorkerAt(s.workers, w).Idle?
    modifies jobs, sources
    ensures JobProtocol.Steps(s, events, end) && Matches(end, jobs.rows, sources.rows) && WellKeyed(jobs.rows)
    ensures JobProtocol.WorkerAt(end.workers, w).Idle? && end.clock == now
    ensures ran <==> PendingIds(old(jobs.rows)) != {}
    ensures Progressed(old(jobs.rows), taken, jobs.rows) && |taken| == if ran then 1 else 0
  {
    taken, events, end := {}, [], s;
    ghost var before := jobs.rows;
    var claim := jobs.ClaimPendingJob(now, {});
    ran := claim.Ok?;
    if claim.Err? {
      NothingIsPending(before);
    } else {
      var job := claim.value;
      ghost var id := job.id;
      taken := {id};
      ClaimRows(s, w, id, before);
      ghost var claimed := JobProtocol.Next(s, JobProtocol.Claim(w, id));
      ghost var more := ExecuteEvents(claimed, w, job.Value(), outcome);
      ghost var started := job.Value();
      var _, after := Execute(jobs, sources, job, outcome, now, claimed, w);
      end := after;
      events := [JobProtocol.Claim(w, id)] + more;
      FirstStep(s, JobProtocol.Claim(w, id), more, end);
      OneIsDone(before, started, jobs.rows, id);
    }
  }

  /**
   A worker's loop over a number of ticks with nobody else about: each tick executes one pending job
   as long as there is one, every executed job ends completed or failed, no other row changes, and
   the whole loop is a sequence of protocol events.
   */
  method RunWorker(jobs: JobTable, sources: SourceTable, outcomes: seq<JobProtocol.Outcome>, now: Time,
                   ghost s: JobProtocol.State, ghost w: nat)
    returns (executed: nat, ghost done: set<Uuid>, ghost events: seq<JobProtocol.Event>, ghost end: JobProtocol.State)
    requires s.clock == now && Matches(s, jobs.rows, sources.rows) && WellKeyed(jobs.rows)
    requires JobProtocol.WorkerAt(s.workers, w).Idle?
    modifies jobs, sources
    ensures JobProtocol.Steps(s, events, end) && Matches(end, jobs.rows, sources.rows)
    ensures Progressed(old(jobs.rows), done, jobs.rows)
    ensures executed == |done| == Min(|outcomes|, |PendingIds(old(jobs.rows))|)
  {
    executed, done, events, end := 0, {}, [], s;
    for tick := 0 to |outcomes|
      invariant JobProtocol.Steps(s, events, end) && Matches(end, jobs.rows, sources.rows) && WellKeyed(jobs.rows)
      invariant end.clock == now && JobProtocol.WorkerAt(end.workers, w).Idle?
      invariant Progressed(old(jobs.rows), done, jobs.rows)
      invariant executed == |done| == Min(tick, |PendingIds(old(jobs.rows))|)
    {
      ghost var before := jobs.rows;
      var ran, taken, more, after := WorkerTick(jobs, sources, outcomes[tick], now, end, w);
      StepsThenSteps(s, events, end, more, after);
      ProgressTwice(old(jobs.rows), done, before, taken, jobs.rows);
      done, events, end := done + taken, events + more, after;
      if ran {
        executed := executed + 1;
      }
    }
  }

  // ------------------------------------------- the statements of cancel and retry, one event each

  /** The read of a cancel, at any moment of any run; the job is cancelled in memory. */
  method ReadForCancel(jobs: JobTable, tenant: Uuid, id: Uuid, ghost s: JobProtocol.State, ghost c: nat)
    returns (r: Result<ScrapingJob, JobError>, ghost t: JobProtocol.State)
    requires WellKeyed(jobs.rows) && Matches(s, jobs.rows, s.sources) && c !in s.cancellers
    ensures r.Ok? <==> id in jobs.rows && jobs.rows[id].tenant == tenant && jobs.rows[id].status.Pending?
    ensures r.Err? ==> t == s
    ensures r.Ok? ==>
              && fresh(r.value) && r.value.Value() == jobs.rows[id].(status := Cancelled)
              && JobProtocol.Enabled(s, JobProtocol.CancelRead(c, id))
              && t == JobProtocol.Next(s, JobProtocol.CancelRead(c, id))
              && t.cancellers == s.cancellers[c := r.value.Value()] && Matches(t, jobs.rows, s.sources)
  {
    t := s;
    var found := jobs.FindByID(tenant, id);
    if found.Err? {
      return Err(found.error), t;
    }
    var job := new ScrapingJob(found.value);
    var ok := job.Cancel();
    if !ok {
      return Err(WrongStatus), t;
    }
    t := JobProtocol.Next(s, JobProtocol.CancelRead(c, id));
    r := Ok(job);
  }

  /** The write of a cancel, however long after its read; it has no guard on the status. */
  method WriteCancel(jobs: JobTable, job: ScrapingJob, ghost s: JobProtocol.State, ghost c: nat)
    returns (ghost t: JobProtocol.State)
    requires Matches(s, jobs.rows, s.sources) && c in s.cancellers && s.cancellers[c] == job.Value()
    requires IsRowOf(jobs.rows, job.Value())
    modifies jobs
    ensures JobProtocol.Enabled(s, JobProtocol.CancelWrite(c)) && t == JobProtocol.Next(s, JobProtocol.CancelWrite(c))
    ensures Matches(t, jobs.rows, s.sources)
    ensures jobs.rows == old(jobs.rows)[job.id := job.Value()]
  {
    t := JobProtocol.Next(s, JobProtocol.CancelWrite(c));
    jobs.Update(job.Value());
  }

  /** In every reachable state the copies of cancellers and retriers are of rows that are there. */
  lemma CopiesMayRely(s: JobProtocol.State, jobs: map<Uuid, Job>)
    requires JobProtocol.Inv(s) && Matches(s, jobs, s.sources)
    ensures forall c :: c in s.cancellers ==> IsRowOf(jobs, s.cancellers[c]) && s.cancellers[c].status.Cancelled?
    ensures forall r :: r in s.retriers ==> IsRowOf(jobs, s.retriers[r]) && CanRetry(s.retriers[r])
  {
    forall c | c in s.cancellers
      ensures IsRowOf(jobs, s.cancellers[c])
    {
      assert JobProtocol.CopyOk(s.jobs, s.cancellers[c]);
    }
    forall r | r in s.retriers
      ensures IsRowOf(jobs, s.retriers[r])
    {
      assert JobProtocol.CopyOk(s.jobs, s.retriers[r]);
    }
  }

  /** With nothing in between, the read and the write amount to the protocol's one-step cancel. */
  lemma UndisturbedCancelIsWhole(s: JobProtocol.State, c: nat, id: Uuid)
    requires JobProtocol.Enabled(s, JobProtocol.CancelRead(c, id)) && s.jobs[id].row.id == id
    ensures var read := JobProtocol.Next(s, JobProtocol.CancelRead(c, id));
            && JobProtocol.Enabled(read, JobProtocol.CancelWrite(c))
            && JobProtocol.Enabled(s, JobProtocol.CancelWhole(id))
            && JobProtocol.Next(read, JobProtocol.CancelWrite(c)) == JobProtocol.Next(s, JobProtocol.CancelWhole(id))
  {
    assert s.cancellers[c := AfterCancel(s.jobs[id].row).value] - {c} == s.cancellers;
  }

  /** Read, cancel in memory, write, with nothing in between: the two events of a canceller. */
  method CancelJob(jobs: JobTable, tenant: Uuid, id: Uuid, ghost s: JobProtocol.State, ghost c: nat)
    returns (r: Result<(), JobError>, ghost t: JobProtocol.State)
    requires WellKeyed(jobs.rows) && Matches(s, jobs.rows, s.sources) && c !in s.cancellers
    modifies jobs
    ensures r.Ok? <==> id in old(jobs.rows) && old(jobs.rows)[id].tenant == tenant && old(jobs.rows)[id].status.Pending?
    ensures Matches(t, jobs.rows, s.sources)
    ensures JobProtocol.Steps(s, if r.Ok? then [JobProtocol.CancelRead(c, id), JobProtocol.CancelWrite(c)] else [], t)
    ensures r.Err? ==> jobs.rows == old(jobs.rows)
    ensures r.Ok? ==> jobs.rows == old(jobs.rows)[id := old(jobs.rows)[id].(status := Cancelled)]
  {
    var read, between := ReadForCancel(jobs, tenant, id, s, c);
    if read.Err? {
      return Err(read.error), s;
    }
    t := WriteCancel(jobs, read.value, between, c);
    TwoSteps(s, JobProtocol.CancelRead(c, id), JobProtocol.CancelWrite(c));
    r := Ok(());
  }

  /** The read of a retry, at any moment of any run. */
  method ReadForRetry(jobs: JobTable, tenant: Uuid, id: Uuid, ghost s: JobProtocol.State, ghost r0: nat)
    returns (r: Result<Job, JobError>, ghost t: JobProtocol.State)
    requires WellKeyed(jobs.rows) && Matches(s, jobs.rows, s.sources) && r0 !in s.retriers
    ensures r.Ok? <==> id in jobs.rows && jobs.rows[id].tenant == tenant
                       && jobs.rows[id].retryCount < jobs.rows[id].maxRetries
    ensures r.Err? ==> t == s
    ensures r.Ok? ==>
              && r.value == jobs.rows[id]
              && JobProtocol.Enabled(s, JobProtocol.RetryRead(r0, id))
              && t == JobProtocol.Next(s, JobProtocol.RetryRead(r0, id))
              && t.retriers == s.retriers[r0 := r.value] && Matches(t, jobs.rows, s.sources) && t.clock == s.clock
  {
    t := s;
    var found := jobs.FindByID(tenant, id);
    if found.Err? {
      return Err(found.error), t;
    }
    if found.value.retryCount >= found.value.maxRetries {
      return Err(MaxRetriesReached), t;
    }
    t := JobProtocol.Next(s, JobProtocol.RetryRead(r0, id));
    r := Ok(found.value);
  }

  /** The save of a retry, however long after its read: a new pending job for the original's source. */
  method SaveRetry(jobs: JobTable, original: Job, newId: Uuid, now: Time, ghost s: JobProtocol.State, ghost r0: nat)
    returns (r: Result<Job, JobError>, ghost t: JobProtocol.State)
    requires Matches(s, jobs.rows, s.sources) && s.clock == now
    requires r0 in s.retriers && s.retriers[r0] == original && IsRowOf(jobs.rows, original)
    modifies jobs
    ensures r.Ok? <==> newId !in old(jobs.rows)
    ensures r.Err? ==> jobs.rows == old(jobs.rows) && t == s
    ensures r.Ok? ==>
              && r.value == Job(newId, original.tenant, original.source, Pending, original.trigger, 0, 0, 0, "", None,
                                None, now, original.retryCount + 1, original.maxRetries)
              && jobs.rows == old(jobs.rows)[newId := r.value]
              && JobProtocol.Enabled(s, JobProtocol.RetrySave(r0, newId))
              && t == JobProtocol.Next(s, JobProtocol.RetrySave(r0, newId))
              && Matches(t, jobs.rows, s.sources)
  {
    t := s;
    var copy := NewJob(newId, original.tenant, original.source, original.trigger, 0, now)
    .(retryCount := original.retryCount + 1, maxRetries := original.maxRetries);
    var saved := jobs.Save(copy);
    if saved.Err? {
      return Err(DuplicateJob), t;
    }
    t := JobProtocol.Next(s, JobProtocol.RetrySave(r0, newId));
    r := Ok(copy);
  }

  /** Both statements with nothing in between: a new pending job, whatever the status of the original. */
  method RetryJob(jobs: JobTable, tenant: Uuid, id: Uuid, newId: Uuid, now: Time, ghost s: JobProtocol.State,
                  ghost r0: nat)
    returns (r: Result<Job, JobError>, ghost t: JobProtocol.State)
    requires WellKeyed(jobs.rows) && Matches(s, jobs.rows, s.sources) && s.clock == now && r0 !in s.retriers
    modifies jobs
    ensures r.Ok? <==> id in old(jobs.rows) && old(jobs.rows)[id].tenant == tenant && newId !in old(jobs.rows)
                       && old(jobs.rows)[id].retryCount < old(jobs.rows)[id].maxRetries
    ensures r.Err? ==> jobs.rows == old(jobs.rows)
    ensures r.Ok? ==>
              && var j := old(jobs.rows)[id];
              var copy := Job(newId, j.tenant, j.source, Pending, j.trigger, 0, 0, 0, "", None, None, now,
                              j.retryCount + 1, j.maxRetries);
              jobs.rows == old(jobs.rows)[newId := copy]
    ensures r.Ok? ==>
              JobProtocol.Steps(s, [JobProtocol.RetryRead(r0, id), JobProtocol.RetrySave(r0, newId)], t)
              && Matches(t, jobs.rows, s.sources)
  {
    t := s;
    var read, between := ReadForRetry(jobs, tenant, id, s, r0);
    if read.Err? {
      return Err(read.error), t;
    }
    r, t := SaveRetry(jobs, read.value, newId, now, between, r0);
    if r.Ok? {
      TwoSteps(s, JobProtocol.RetryRead(r0, id), JobProtocol.RetrySave(r0, newId));
    }
  }
}
