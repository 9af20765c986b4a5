/** The source counters against the recount of migration 018, over every run of the job protocol. */
module JobCounters {
  import opened Prelude
  import opened ScrapingJobs
  import opened JobProtocol
  import opened JobInvariant
  import opened JobSteps
  import opened JobExecution

  /** The rows of a source with a given status: what the migration's FILTER clauses select. */
  function WithStatus(jobs: Table, sid: Uuid, status: Status): set<Uuid> {
    set id | id in jobs && jobs[id].row.source == sid && jobs[id].row.status == status
  }

  /** The migration's recount of one source from the jobs table alone. */
  datatype Recount = Recount(total: nat, successful: nat, failed: nat, health: real)

  function RecountOf(jobs: Table, sid: Uuid): Recount {
    var successful, failed := |WithStatus(jobs, sid, Completed)|, |WithStatus(jobs, sid, Failed)|;
    Recount(successful + failed, successful, failed, HealthOf(successful, successful + failed))
  }

  function CountersOf(src: Source): Recount {
    Recount(src.totalRuns, src.successfulRuns, src.failedRuns, src.health)
  }

  // ------------------------------------------- the jobs a recount sees, by history

  /** Jobs of the source whose final row a worker has written as ok or not ok. */
  function WrittenAs(jobs: Table, sid: Uuid, ok: bool): set<Uuid> {
    set id | id in jobs && jobs[id].row.source == sid && WrittenPhase(jobs[id].phase, ok)
  }

  predicate WrittenPhase(phase: Phase, ok: bool) {
    match phase
    case Window(_, result) => result == ok
    case Recorded(result) => result == ok
    case Unfound => !ok
    case _ => false
  }

  /** Those whose final row a late cancel has since replaced. */
  function LostAs(jobs: Table, sid: Uuid, ok: bool): set<Uuid> {
    set id | id in WrittenAs(jobs, sid, ok) && jobs[id].row.status.Cancelled?
  }

  /** Jobs that failed because their source was not found: written, never counted. */
  function UnfoundJobs(jobs: Table, sid: Uuid): set<Uuid> {
    set id | id in jobs && jobs[id].row.source == sid && jobs[id].phase.Unfound?
  }

  /** Jobs whose worker is between the row update and RecordJobResult. */
  function WindowJobs(jobs: Table, sid: Uuid, ok: bool): set<Uuid> {
    set id | id in jobs && jobs[id].row.source == sid && jobs[id].phase.Window? && jobs[id].phase.ok == ok
  }

  /** The workers between the row update and RecordJobResult for this source. */
  function WindowWorkers(workers: map<nat, Worker>, sid: Uuid, ok: bool): set<nat> {
    set w | w in workers && workers[w].Counting? && workers[w].source == sid && workers[w].success == ok
  }

  /** Each worker in the window stands for one job, and each such job for one worker. */
  lemma WindowIsCounted(s: State, sid: Uuid, ok: bool)
    requires JobsOk(s) && WorkersOk(s)
    ensures |WindowWorkers(s.workers, sid, ok)| == |WindowJobs(s.jobs, sid, ok)|
  {
    var workers := WindowWorkers(s.workers, sid, ok);
    var jobs := WindowJobs(s.jobs, sid, ok);
    var busy := map w | w in workers :: s.workers[w].id;
    forall w | w in workers
      ensures busy[w] in jobs && s.jobs[busy[w]].phase == Window(w, ok)
    {
      assert WorkerOk(s.jobs, w, s.workers[w]);
    }
    forall id | id in jobs
      ensures exists w :: w in workers && busy[w] == id
    {
      assert HolderOk(id, s.jobs[id].phase, s.workers);
      var w := s.jobs[id].phase.w;
      assert WorkerOk(s.jobs, w, s.workers[w]);
      assert w in workers && busy[w] == id;
    }
    ImageSize(workers, busy, jobs);
  }

  /** A written row has its final status, unless a late cancel replaced it; no other row has. */
  lemma WrittenRows(s: State, sid: Uuid, ok: bool)
    requires JobsOk(s)
    ensures |WrittenAs(s.jobs, sid, ok)|
         == |WithStatus(s.jobs, sid, if ok then Completed else Failed)| + |LostAs(s.jobs, sid, ok)|
  {
    var final := WithStatus(s.jobs, sid, if ok then Completed else Failed);
    var lost := LostAs(s.jobs, sid, ok);
    forall id | id in s.jobs && s.jobs[id].row.source == sid
      ensures id in WrittenAs(s.jobs, sid, ok) <==> id in final + lost
    {
      assert EntryOk(id, s.jobs[id]);
    }
    assert WrittenAs(s.jobs, sid, ok) == final + lost;
    UnionSize(final, lost);
  }

  lemma PhaseSplits(jobs: Table, sid: Uuid, ok: bool, id: Uuid)
    ensures id in WrittenAs(jobs, sid, ok)
       <==> id in CountedAs(jobs, sid, ok) || id in WindowJobs(jobs, sid, ok) || (!ok && id in UnfoundJobs(jobs, sid))
  {
  }

  /** Every written job is counted, waiting to be counted, or was orphaned. */
  lemma WrittenPhases(jobs: Table, sid: Uuid, ok: bool)
    ensures |WrittenAs(jobs, sid, ok)|
         == |CountedAs(jobs, sid, ok)| + |WindowJobs(jobs, sid, ok)| + if ok then 0 else |UnfoundJobs(jobs, sid)|
  {
    var counted, window := CountedAs(jobs, sid, ok), WindowJobs(jobs, sid, ok);
    var unfound := if ok then {} else UnfoundJobs(jobs, sid);
    forall id
      ensures id in WrittenAs(jobs, sid, ok) <==> id in counted + window + unfound
    {
      PhaseSplits(jobs, sid, ok, id);
    }
    assert WrittenAs(jobs, sid, ok) == counted + window + unfound;
    UnionSize(counted, window);
    UnionSize(counted + window, unfound);
  }

  /**
   Conservation. In every state of every run, whatever the interleaving and even with split
   cancels: the rows a recount sees, plus the final rows lost to late cancels, are exactly the
   counted runs, the workers between the two writes, and the jobs whose source was not found.
   */
  lemma CountersConserveRuns(states: seq<State>, events: seq<Event>, i: nat, sid: Uuid)
    requires IsRun(states, events) && i < |states| && sid in states[i].sources
    ensures var s := states[i];
            && RecountOf(s.jobs, sid).successful + |LostAs(s.jobs, sid, true)|
               == s.sources[sid].successfulRuns + |WindowWorkers(s.workers, sid, true)|
            && RecountOf(s.jobs, sid).failed + |LostAs(s.jobs, sid, false)|
               == s.sources[sid].failedRuns + |WindowWorkers(s.workers, sid, false)| + |UnfoundJobs(s.jobs, sid)|
            && s.sources[sid].totalRuns == s.sources[sid].successfulRuns + s.sources[sid].failedRuns
  {
    var s := states[i];
    RunKeepsInv(states, events, i);
    assert TallyOk(s.jobs, sid, s.sources[sid]);
    WrittenRows(s, sid, true);
    WrittenRows(s, sid, false);
    WrittenPhases(s.jobs, sid, true);
    WrittenPhases(s.jobs, sid, false);
    WindowIsCounted(s, sid, true);
    WindowIsCounted(s, sid, false);
  }

  /** When every cancel is one step, no final row is lost. */
  lemma AtomicCancelLosesNothing(states: seq<State>, events: seq<Event>, i: nat, sid: Uuid, ok: bool)
    requires IsRun(states, events) && CancelsAreAtomic(events) && i < |states|
    ensures LostAs(states[i].jobs, sid, ok) == {}
  {
    RunIsHistory(states, events);
    RunKeepsInv(states, events, i);
    forall id | id in states[i].jobs
      ensures id !in LostAs(states[i].jobs, sid, ok)
    {
      AtomicCancelNeverStale(states, events, i, id);
      assert EntryOk(id, states[i].jobs[id]);
    }
  }

  /** In every reachable state, the health of a source is that of its own counters. */
  lemma HealthIsCurrent(states: seq<State>, events: seq<Event>, i: nat, sid: Uuid)
    requires IsRun(states, events) && i < |states| && sid in states[i].sources
    ensures var src := states[i].sources[sid];
            src.totalRuns == src.successfulRuns + src.failedRuns
            && src.health == HealthOf(src.successfulRuns, src.totalRuns)
  {
    RunKeepsInv(states, events, i);
    assert TallyOk(states[i].jobs, sid, states[i].sources[sid]);
  }

  lemma NobodyInWindow(s: State, sid: Uuid, ok: bool)
    requires AtRest(s)
    ensures WindowWorkers(s.workers, sid, ok) == {}
  {
  }

  /** Nothing is being executed. */
  predicate AtRest(s: State) {
    forall w :: w in s.workers ==> s.workers[w].Idle?
  }

  /**
   With atomic cancels, the finished jobs of a source are its counted runs, plus the jobs that
   failed because the source was not found, plus the workers between the two writes.
   */
  lemma FinishedJobsAreCounted(states: seq<State>, events: seq<Event>, i: nat, sid: Uuid)
    requires IsRun(states, events) && CancelsAreAtomic(events) && i < |states| && sid in states[i].sources
    ensures var s := states[i];
            RecountOf(s.jobs, sid).total
            == s.sources[sid].totalRuns + |UnfoundJobs(s.jobs, sid)|
            + |WindowWorkers(s.workers, sid, true)| + |WindowWorkers(s.workers, sid, false)|
  {
    CountersConserveRuns(states, events, i, sid);
    AtomicCancelLosesNothing(states, events, i, sid, true);
    AtomicCancelLosesNothing(states, events, i, sid, false);
  }

  /**
   At rest, with atomic cancels: the success counter is exact, and the counters and health of a
   source equal the migration's recount if and only if none of its jobs failed for want of the
   source row.
   */
  lemma RecountAgreement(states: seq<State>, events: seq<Event>, i: nat, sid: Uuid)
    requires IsRun(states, events) && CancelsAreAtomic(events) && i < |states| && sid in states[i].sources
    requires AtRest(states[i])
    ensures states[i].sources[sid].successfulRuns == RecountOf(states[i].jobs, sid).successful
    ensures CountersOf(states[i].sources[sid]) == RecountOf(states[i].jobs, sid)
       <==> UnfoundJobs(states[i].jobs, sid) == {}
  {
    var s := states[i];
    CountersConserveRuns(states, events, i, sid);
    AtomicCancelLosesNothing(states, events, i, sid, true);
    AtomicCancelLosesNothing(states, events, i, sid, false);
    NobodyInWindow(s, sid, true);
    NobodyInWindow(s, sid, false);
    HealthIsCurrent(states, events, i, sid);
    assert UnfoundJobs(s.jobs, sid) == {} <==> |UnfoundJobs(s.jobs, sid)| == 0;
  }

  /**
   At rest, after any run, split cancels included: the counters and health of a source equal the
   recount if and only if no completed row was overwritten by a late cancel, and as many failed ones
   were as jobs failed for want of the source row.
   */
  lemma AgreementWithSplitCancels(states: seq<State>, events: seq<Event>, i: nat, sid: Uuid)
    requires IsRun(states, events) && i < |states| && sid in states[i].sources && AtRest(states[i])
    ensures CountersOf(states[i].sources[sid]) == RecountOf(states[i].jobs, sid)
       <==> LostAs(states[i].jobs, sid, true) == {}
            && |LostAs(states[i].jobs, sid, false)| == |UnfoundJobs(states[i].jobs, sid)|
  {
    var s := states[i];
    CountersConserveRuns(states, events, i, sid);
    NobodyInWindow(s, sid, true);
    NobodyInWindow(s, sid, false);
    HealthIsCurrent(states, events, i, sid);
    assert LostAs(s.jobs, sid, true) == {} <==> |LostAs(s.jobs, sid, true)| == 0;
  }

  // ------------------------------------------- a split cancel does break agreement

  lemma RowLeaves(jobs: Table, id: Uuid, e: Entry, status: Status)
    requires id in jobs && e.row.source == jobs[id].row.source && e.row.status.Cancelled?
    requires IsFinished(jobs[id].row.status) && IsFinished(status)
    ensures |WithStatus(jobs[id := e], e.row.source, status)|
         == |WithStatus(jobs, e.row.source, status)| - if status == jobs[id].row.status then 1 else 0
  {
    var before, after := WithStatus(jobs, e.row.source, status), WithStatus(jobs[id := e], e.row.source, status);
    if status == jobs[id].row.status {
      assert before == after + {id};
    } else {
      assert before == after;
    }
  }

  lemma OverwriteLosesARun(jobs: Table, j: Job)
    requires CopyOk(jobs, j) && j.status.Cancelled? && IsFinished(jobs[j.id].row.status)
    ensures var sid := jobs[j.id].row.source;
            RecountOf(jobs[j.id := Overwritten(jobs[j.id], j)], sid).total == RecountOf(jobs, sid).total - 1
  {
    var e := Overwritten(jobs[j.id], j);
    RowLeaves(jobs, j.id, e, Completed);
    RowLeaves(jobs, j.id, e, Failed);
  }

  /** The late half of a cancel that meets a finished row takes exactly one run out of the recount. */
  lemma LateCancelLosesARun(s: State, c: nat)
    requires Inv(s) && Enabled(s, CancelWrite(c)) && IsFinished(s.jobs[s.cancellers[c].id].row.status)
    ensures var sid := s.jobs[s.cancellers[c].id].row.source;
            && RecountOf(Next(s, CancelWrite(c)).jobs, sid).total == RecountOf(s.jobs, sid).total - 1
            && Next(s, CancelWrite(c)).sources == s.sources
  {
    var j := s.cancellers[c];
    assert CopyOk(s.jobs, j) && EntryOk(j.id, s.jobs[j.id]);
    OverwriteLosesARun(s.jobs, j);
  }

  /** A store with one job of source 1, that has at most one worker and one canceller. */
  function Scene(row: Job, phase: Phase, src: Source, workers: map<nat, Worker>, cancellers: map<nat, Job>): State {
    State(0, map[7 := Entry(row, phase, false, [])], map[1 := src], workers, cancellers, map[])
  }

  const NEW_SOURCE := Source(9, true, 0, 0, 0, 1.0)
  const NEW_JOB := NewJob(7, 9, 1, Manual, 0, 0)
  const RUNNING_JOB := NEW_JOB.(status := Running, startedAt := Some(0))
  const DONE_JOB := RUNNING_JOB.(status := Completed, found := 5, saved := 5, completedAt := Some(0))
  const CANCEL := map[0 := NEW_JOB.(status := Cancelled)]

  ghost predicate Linked(s: State, e: Event, t: State) {
    Enabled(s, e) && Next(s, e) == t
  }

  lemma SceneBeforeTheClaim()
    ensures var s1 := State(0, map[], map[1 := NEW_SOURCE], map[], map[], map[]);
            && Linked(Init(0), Register(1, 9), s1)
            && Linked(s1, Submit(7, 9, 1, Manual, 0), Scene(NEW_JOB, Waiting, NEW_SOURCE, map[], map[]))
  {
  }

  lemma SceneOfTheRead()
    ensures Linked(Scene(NEW_JOB, Waiting, NEW_SOURCE, map[], map[]), CancelRead(0, 7),
                   Scene(NEW_JOB, Waiting, NEW_SOURCE, map[], CANCEL))
  {
  }

  lemma SceneOfTheClaim()
    ensures Linked(Scene(NEW_JOB, Waiting, NEW_SOURCE, map[], CANCEL), Claim(0, 7),
                   Scene(RUNNING_JOB, Working(0), NEW_SOURCE, map[0 := Claimed(RUNNING_JOB)], CANCEL))
  {
  }

  lemma SceneOfTheLookUp()
    ensures Linked(Scene(RUNNING_JOB, Working(0), NEW_SOURCE, map[0 := Claimed(RUNNING_JOB)], CANCEL), LookUp(0),
                   Scene(RUNNING_JOB, Working(0), NEW_SOURCE, map[0 := Scraping(RUNNING_JOB)], CANCEL))
  {
  }

  lemma SceneOfTheFinish()
    ensures Linked(Scene(RUNNING_JOB, Working(0), NEW_SOURCE, map[0 := Scraping(RUNNING_JOB)], CANCEL),
                   Finish(0, Done(5, 5)),
                   Scene(DONE_JOB, Window(0, true), NEW_SOURCE, map[0 := Counting(7, 1, true)], CANCEL))
  {
  }

  lemma SceneOfTheCount()
    ensures Linked(Scene(DONE_JOB, Window(0, true), NEW_SOURCE, map[0 := Counting(7, 1, true)], CANCEL), Record(0),
                   Scene(DONE_JOB, Recorded(true), Counted(NEW_SOURCE, true), map[0 := Idle], CANCEL))
  {
  }

  lemma SceneOfTheLateWrite()
    ensures var s := Scene(DONE_JOB, Recorded(true), Counted(NEW_SOURCE, true), map[0 := Idle], CANCEL);
            && Enabled(s, CancelWrite(0))
            && (var end := Next(s, CancelWrite(0));
                && AtRest(end) && end.sources == map[1 := Counted(NEW_SOURCE, true)] && UnfoundJobs(end.jobs, 1) == {}
                && RecountOf(end.jobs, 1).total == 0)
  {
    var s := Scene(DONE_JOB, Recorded(true), Counted(NEW_SOURCE, true), map[0 := Idle], CANCEL);
    var jobs := Next(s, CancelWrite(0)).jobs;
    assert jobs.Keys == {7} && jobs[7].row.status.Cancelled? && jobs[7].phase == Recorded(true);
    assert WithStatus(jobs, 1, Completed) == {} && WithStatus(jobs, 1, Failed) == {} && UnfoundJobs(jobs, 1) == {};
  }

  lemma Extend(states: seq<State>, events: seq<Event>, e: Event, t: State)
    returns (longer: seq<State>, more: seq<Event>)
    requires IsRun(states, events) && Linked(states[|events|], e, t)
    ensures longer == states + [t] && more == events + [e]
    ensures IsRun(longer, more) && longer[|more|] == t
  {
    longer, more := states + [t], events + [e];
    forall i | 0 <= i < |more|
      ensures Enabled(longer[i], more[i]) && longer[i + 1] == Next(longer[i], more[i])
    {
      if i < |events| {
        assert Enabled(states[i], events[i]) && states[i + 1] == Next(states[i], events[i]);
      }
    }
  }

  /**
   With split cancels the counters and the recount can differ at rest, though every source was
   found: there is a run in which a cancel that read the job pending overwrites it when it has been
   completed and counted.
   */
  lemma SplitCancelBreaksAgreement() returns (states: seq<State>, events: seq<Event>)
    ensures IsRun(states, events)
    ensures var end := states[|events|];
            && AtRest(end) && 1 in end.sources && UnfoundJobs(end.jobs, 1) == {}
            && end.sources[1].totalRuns == 1 && RecountOf(end.jobs, 1).total == 0
  {
    states, events := [Init(0)], [];
    SceneBeforeTheClaim();
    states, events :=
      Extend(states, events, Register(1, 9), State(0, map[], map[1 := NEW_SOURCE], map[], map[], map[]));
    states, events :=
      Extend(states, events, Submit(7, 9, 1, Manual, 0), Scene(NEW_JOB, Waiting, NEW_SOURCE, map[], map[]));
    SceneOfTheRead();
    states, events := Extend(states, events, CancelRead(0, 7), Scene(NEW_JOB, Waiting, NEW_SOURCE, map[], CANCEL));
    SceneOfTheClaim();
    states, events := Extend(states, events, Claim(0, 7),
                             Scene(RUNNING_JOB, Working(0), NEW_SOURCE, map[0 := Claimed(RUNNING_JOB)], CANCEL));
    SceneOfTheLookUp();
    states, events := Extend(states, events, LookUp(0),
                             Scene(RUNNING_JOB, Working(0), NEW_SOURCE, map[0 := Scraping(RUNNING_JOB)], CANCEL));
    SceneOfTheFinish();
    states, events := Extend(states, events, Finish(0, Done(5, 5)),
                             Scene(DONE_JOB, Window(0, true), NEW_SOURCE, map[0 := Counting(7, 1, true)], CANCEL));
    SceneOfTheCount();
    var last := Scene(DONE_JOB, Recorded(true), Counted(NEW_SOURCE, true), map[0 := Idle], CANCEL);
    states, events := Extend(states, events, Record(0), last);
    SceneOfTheLateWrite();
    states, events := Extend(states, events, CancelWrite(0), Next(last, CancelWrite(0)));
  }
}
