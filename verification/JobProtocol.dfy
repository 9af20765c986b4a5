/**
 The scraping-job protocol: workers, cancellers, retriers and job producers that share the jobs
 table and the source counters. Each event is one atomic store operation, so every interleaving of
 the use cases is a sequence of events.
 */
module JobProtocol {
  import opened Prelude
  import opened ScrapingJobs

  /** A source row: what FindByID filters on, and the counters. */
  datatype Source = Source(
    tenant: Uuid,
    active: bool,
    totalRuns: nat,
    successfulRuns: nat,
    failedRuns: nat,
    health: real
  )

  /** Where a worker goroutine stands between two store operations. */
  datatype Worker =
    | Idle
    | Claimed(job: Job)   // the claim is committed, the source has not been looked up
    | Missing(job: Job)   // the source was not found; the job has failed in memory only
    | Scraping(job: Job)  // the source was found; products are fetched and saved
    | Counting(id: Uuid, source: Uuid, success: bool) // the row is final, the counters are not

  /** How fetching and upserting the products ended. */
  datatype Outcome = Done(found: int, saved: int) | Broken(reason: string)

  /** How far a job has come. History only: no step reads it. */
  datatype Phase =
    | Waiting                     // never claimed
    | Working(w: nat)             // claimed by worker w
    | Failing(w: nat)             // worker w did not find its source
    | Window(w: nat, ok: bool)    // worker w wrote the final row and has not counted it
    | Recorded(ok: bool)          // counted on the source
    | Unfound                     // failed on the "source not found" branch

  /** A jobs-table row with its history. */
  datatype Entry = Entry(
    row: Job,
    phase: Phase,
    stale: bool,         // a cancel overwrote the row after the claim
    lineage: seq<Uuid>   // the jobs this one is a retry of, oldest first
  )

  type Table = map<Uuid, Entry>

  datatype State = State(
    clock: Time,
    jobs: Table,
    sources: map<Uuid, Source>,
    workers: map<nat, Worker>,
    cancellers: map<nat, Job>, // job copies already cancelled in memory, not yet written
    retriers: map<nat, Job>    // job copies read by a retry, not yet saved
  )

  datatype Event =
    | Tick(minutes: nat)
    | Register(sid: Uuid, tenant: Uuid)
    | SetActive(sid: Uuid, active: bool)
    | Submit(id: Uuid, tenant: Uuid, sid: Uuid, trigger: Trigger, page: int)
    | RetryRead(r: nat, id: Uuid)
    | RetrySave(r: nat, copy: Uuid)
    | Claim(w: nat, id: Uuid)
    | LookUp(w: nat)
    | WriteMissing(w: nat)
    | Finish(w: nat, outcome: Outcome)
    | Record(w: nat)
    | CancelRead(c: nat, id: Uuid)
    | CancelWrite(c: nat)
    | CancelWhole(id: Uuid)

  function Init(now: Time): State {
    State(now, map[], map[], map[], map[], map[])
  }

  function WorkerAt(workers: map<nat, Worker>, w: nat): Worker {
    if w in workers then workers[w] else Idle
  }

  /** FindByID: the row exists in the job's tenant and is active. */
  predicate SourceVisible(sources: map<Uuid, Source>, j: Job) {
    j.source in sources && sources[j.source].tenant == j.tenant && sources[j.source].active
  }

  /** The job a worker writes when its scrape ends. */
  function Finished(j: Job, outcome: Outcome, now: Time): Job {
    match outcome
    case Done(found, saved) => OrKeep(AfterComplete(j, found, saved, now), j)
    case Broken(reason) => OrKeep(AfterFail(j, reason, now), j)
  }

  /** The job a worker writes when its source is not found. */
  function Orphaned(j: Job, now: Time): Job {
    OrKeep(AfterFail(j, "source not found", now), j)
  }

  /** The statement of RecordJobResult on one source row. */
  function Counted(src: Source, success: bool): Source {
    var successes := if success then src.successfulRuns + 1 else src.successfulRuns;
    src.(totalRuns := src.totalRuns + 1,
    successfulRuns := successes,
    failedRuns := if success then src.failedRuns else src.failedRuns + 1,
    health := successes as real / (src.totalRuns + 1) as real)
  }

  /** The health that migration 018 computes from a number of runs and of successes. */
  function HealthOf(successes: nat, runs: nat): (h: real)
    ensures if runs == 0 then h == 1.0 else h * runs as real == successes as real
  {
    if runs == 0 then 1.0 else successes as real / runs as real
  }

  predicate Enabled(s: State, e: Event) {
    match e
    case Tick(_) => true
    case Register(sid, _) => sid !in s.sources
    case SetActive(sid, _) => sid in s.sources
    case Submit(id, _, sid, _, _) => id !in s.jobs && sid in s.sources
    case RetryRead(r, id) => r !in s.retriers && id in s.jobs && CanRetry(s.jobs[id].row)
    case RetrySave(r, copy) => r in s.retriers && s.retriers[r].id in s.jobs && copy !in s.jobs
    case Claim(w, id) => WorkerAt(s.workers, w).Idle? && id in s.jobs && s.jobs[id].row.status.Pending?
    case LookUp(w) => WorkerAt(s.workers, w).Claimed? && WorkerAt(s.workers, w).job.id in s.jobs
    case WriteMissing(w) => WorkerAt(s.workers, w).Missing? && WorkerAt(s.workers, w).job.id in s.jobs
    case Finish(w, _) => WorkerAt(s.workers, w).Scraping? && WorkerAt(s.workers, w).job.id in s.jobs
    case Record(w) =>
      && WorkerAt(s.workers, w).Counting?
      && WorkerAt(s.workers, w).id in s.jobs
      && WorkerAt(s.workers, w).source in s.sources
    case CancelRead(c, id) => c !in s.cancellers && id in s.jobs && AfterCancel(s.jobs[id].row).Some?
    case CancelWrite(c) => c in s.cancellers && s.cancellers[c].id in s.jobs
    case CancelWhole(id) => id in s.jobs && AfterCancel(s.jobs[id].row).Some?
  }

  /** The worker's update of a job row, with the phase it leaves the job in. */
  function Written(e: Entry, j: Job, phase: Phase): Entry {
    e.(row := UpdatedRow(e.row, j), phase := phase)
  }

  /** A canceller's update of a job row. */
  function Overwritten(e: Entry, j: Job): Entry {
    e.(row := UpdatedRow(e.row, j), stale := e.stale || !e.phase.Waiting?)
  }

  function Next(s: State, e: Event): State
    requires Enabled(s, e)
  {
    match e
    case Tick(minutes) => s.(clock := s.clock + minutes)
    case Register(sid, tenant) => s.(sources := s.sources[sid := Source(tenant, true, 0, 0, 0, 1.0)])
    case SetActive(sid, active) => s.(sources := s.sources[sid := s.sources[sid].(active := active)])
    case Submit(id, tenant, sid, trigger, page) =>
      s.(jobs := s.jobs[id := Entry(NewJob(id, tenant, sid, trigger, page, s.clock), Waiting, false, [])])
    case RetryRead(r, id) => s.(retriers := s.retriers[r := s.jobs[id].row])
    case RetrySave(r, copy) =>
      var original := s.retriers[r];
      var lineage := s.jobs[original.id].lineage + [original.id];
      s.(jobs := s.jobs[copy := Entry(RetryOf(original, copy, s.clock), Waiting, false, lineage)],
      retriers := s.retriers - {r})
    case Claim(w, id) =>
      var started := s.jobs[id].row.(status := Running, startedAt := Some(s.clock));
      s.(jobs := s.jobs[id := s.jobs[id].(row := started, phase := Working(w))],
      workers := s.workers[w := Claimed(started)])
    case LookUp(w) =>
      var j := s.workers[w].job;
      if SourceVisible(s.sources, j) then
        s.(workers := s.workers[w := Scraping(j)])
      else
        s.(jobs := s.jobs[j.id := s.jobs[j.id].(phase := Failing(w))],
        workers := s.workers[w := Missing(Orphaned(j, s.clock))])
    case WriteMissing(w) =>
      var j := s.workers[w].job;
      s.(jobs := s.jobs[j.id := Written(s.jobs[j.id], j, Unfound)],
      workers := s.workers[w := Idle])
    case Finish(w, outcome) =>
      var j := Finished(s.workers[w].job, outcome, s.clock);
      s.(jobs := s.jobs[j.id := Written(s.jobs[j.id], j, Window(w, outcome.Done?))],
      workers := s.workers[w := Counting(j.id, j.source, outcome.Done?)])
    case Record(w) =>
      var c := s.workers[w];
      s.(jobs := s.jobs[c.id := s.jobs[c.id].(phase := Recorded(c.success))],
      sources := s.sources[c.source := Counted(s.sources[c.source], c.success)],
      workers := s.workers[w := Idle])
    case CancelRead(c, id) => s.(cancellers := s.cancellers[c := AfterCancel(s.jobs[id].row).value])
    case CancelWrite(c) =>
      var j := s.cancellers[c];
      s.(jobs := s.jobs[j.id := Overwritten(s.jobs[j.id], j)],
      cancellers := s.cancellers - {c})
    case CancelWhole(id) =>
      s.(jobs := s.jobs[id := Overwritten(s.jobs[id], AfterCancel(s.jobs[id].row).value)])
  }

  /** The state after the events, if each is enabled when its turn comes. */
  function After(s: State, events: seq<Event>): Option<State>
    decreases |events|
  {
    if events == [] then Some(s)
    else if Enabled(s, events[0]) then After(Next(s, events[0]), events[1..])
    else None
  }

  /** t is reached from s by events, each enabled when its turn comes. */
  ghost predicate Steps(s: State, events: seq<Event>, t: State) {
    After(s, events) == Some(t)
  }

  /** A run: states linked by enabled events, from an empty store. */
  ghost predicate IsRun(states: seq<State>, events: seq<Event>) {
    && |states| == |events| + 1
    && states[0] == Init(states[0].clock)
    && (forall i :: 0 <= i < |events| ==> Enabled(states[i], events[i]) && states[i + 1] == Next(states[i], events[i]))
  }

  /** No cancel is split into a read and a later write. */
  predicate CancelsAreAtomic(events: seq<Event>) {
    forall i :: 0 <= i < |events| ==> !events[i].CancelRead? && !events[i].CancelWrite?
  }

  // ---------------------------------------------------------------- the invariant

  /** A row tells the same story as its history. */
  predicate EntryOk(id: Uuid, e: Entry) {
    && e.row.id == id
    && 0 <= e.row.retryCount <= e.row.maxRetries == MAX_RETRIES
    && |e.lineage| == e.row.retryCount
    && (e.stale ==> !e.phase.Waiting?)
    && match e.phase
       case Waiting => e.row.status.Pending? || e.row.status.Cancelled?
       case Working(_) => e.row.status.Running? || (e.row.status.Cancelled? && e.stale)
       case Failing(_) => e.row.status.Running? || (e.row.status.Cancelled? && e.stale)
       case Window(_, ok) => IsFinal(e, ok)
       case Recorded(ok) => IsFinal(e, ok)
       case Unfound => IsFinal(e, false)
  }

  predicate IsFinal(e: Entry, ok: bool) {
    || e.row.status == (if ok then Completed else Failed)
    || (e.row.status.Cancelled? && e.stale)
  }

  /** A worker holds a faithful copy of a job that its history says it holds. */
  predicate WorkerOk(jobs: Table, w: nat, k: Worker) {
    match k
    case Idle => true
    case Claimed(j) => Holds(jobs, j, Working(w)) && j.status.Running?
    case Scraping(j) => Holds(jobs, j, Working(w)) && j.status.Running?
    case Missing(j) => Holds(jobs, j, Failing(w)) && j.status.Failed?
    case Counting(id, sid, ok) => id in jobs && jobs[id].phase == Window(w, ok) && jobs[id].row.source == sid
  }

  predicate Holds(jobs: Table, j: Job, phase: Phase) {
    j.id in jobs && jobs[j.id].phase == phase && SameIdentity(j, jobs[j.id].row)
  }

  /** A job whose history says it is held is held by that worker. */
  predicate HolderOk(id: Uuid, phase: Phase, workers: map<nat, Worker>) {
    match phase
    case Working(w) => w in workers && (workers[w].Claimed? || workers[w].Scraping?) && workers[w].job.id == id
    case Failing(w) => w in workers && workers[w].Missing? && workers[w].job.id == id
    case Window(w, _) => w in workers && workers[w].Counting? && workers[w].id == id
    case _ => true
  }

  predicate CopyOk(jobs: Table, j: Job) {
    j.id in jobs && SameIdentity(j, jobs[j.id].row)
  }

  ghost predicate JobsOk(s: State) {
    && (forall id :: id in s.jobs ==> EntryOk(id, s.jobs[id]))
    && (forall id :: id in s.jobs ==> s.jobs[id].row.source in s.sources)
    && (forall id :: id in s.jobs ==> HolderOk(id, s.jobs[id].phase, s.workers))
  }

  ghost predicate WorkersOk(s: State) {
    forall w :: w in s.workers ==> WorkerOk(s.jobs, w, s.workers[w])
  }

  ghost predicate CopiesOk(s: State) {
    && (forall c :: c in s.cancellers ==> CopyOk(s.jobs, s.cancellers[c]) && s.cancellers[c].status.Cancelled?)
    && (forall r :: r in s.retriers ==> CopyOk(s.jobs, s.retriers[r]) && CanRetry(s.retriers[r]))
  }

  /** The jobs of a source that have been counted as runs, as successes or as failures. */
  function CountedAs(jobs: Table, sid: Uuid, ok: bool): set<Uuid> {
    set id | id in jobs && jobs[id].row.source == sid && jobs[id].phase == Recorded(ok)
  }

  predicate TallyOk(jobs: Table, sid: Uuid, src: Source) {
    && src.successfulRuns == |CountedAs(jobs, sid, true)|
    && src.failedRuns == |CountedAs(jobs, sid, false)|
    && src.totalRuns == src.successfulRuns + src.failedRuns
    && src.health == HealthOf(src.successfulRuns, src.totalRuns)
  }

  ghost predicate CountersOk(s: State) {
    forall sid :: sid in s.sources ==> TallyOk(s.jobs, sid, s.sources[sid])
  }

  ghost predicate Inv(s: State) {
    JobsOk(s) && WorkersOk(s) && CopiesOk(s) && CountersOk(s)
  }
}
