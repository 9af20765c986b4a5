/**
 Which events make the source counters and the recount of migration 018 differ: a cancel that writes
 over a finished row, and a look-up that finds no active source. Everything is told of events that
 happened in the run.
 */
module JobLosses {
  import opened Prelude
  import opened ScrapingJobs
  import opened JobProtocol
  import opened JobInvariant
  import opened JobSteps
  import opened JobCounters

  /** The event is the late half of a cancel, and the row it writes over is final as ok or not ok. */
  predicate Overwrites(s: State, e: Event, id: Uuid, ok: bool) {
    CancelWrites(s, e, id) && id in s.jobs && s.jobs[id].row.status == if ok then Completed else Failed
  }

  /** The event is a worker's look-up for the job, and the job's source is not there or not active. */
  predicate Misses(s: State, e: Event, id: Uuid) {
    && e.LookUp? && e.w in s.workers && s.workers[e.w].Claimed?
    && s.workers[e.w].job.id == id && !SourceVisible(s.sources, s.workers[e.w].job)
  }

  predicate IsLost(jobs: Table, id: Uuid, ok: bool) {
    id in jobs && WrittenPhase(jobs[id].phase, ok) && jobs[id].row.status.Cancelled?
  }

  predicate IsMissed(jobs: Table, id: Uuid) {
    id in jobs && (jobs[id].phase.Failing? || jobs[id].phase.Unfound?)
  }

  /** One step loses a final row, or misses a source, exactly by such an event. */
  predicate Accounts(s: State, e: Event, t: State, id: Uuid) {
    && (IsLost(t.jobs, id, true) <==> IsLost(s.jobs, id, true) || Overwrites(s, e, id, true))
    && (IsLost(t.jobs, id, false) <==> IsLost(s.jobs, id, false) || Overwrites(s, e, id, false))
    && (IsMissed(t.jobs, id) <==> IsMissed(s.jobs, id) || Misses(s, e, id))
  }

  // ---------------------------------------------------------------- one step

  lemma ClaimAccounts(s: State, w: nat, id: Uuid, other: Uuid)
    requires Enabled(s, Claim(w, id)) && EntryOk(id, s.jobs[id])
    ensures Accounts(s, Claim(w, id), Next(s, Claim(w, id)), other)
  {
  }

  lemma LookUpAccounts(s: State, w: nat, j: Job, other: Uuid)
    requires Enabled(s, LookUp(w)) && s.workers[w] == Claimed(j) && WorkerOk(s.jobs, w, Claimed(j))
    requires EntryOk(j.id, s.jobs[j.id])
    ensures Accounts(s, LookUp(w), Next(s, LookUp(w)), other)
  {
  }

  lemma WriteMissingAccounts(s: State, w: nat, j: Job, other: Uuid)
    requires Enabled(s, WriteMissing(w)) && s.workers[w] == Missing(j) && WorkerOk(s.jobs, w, Missing(j))
    requires EntryOk(j.id, s.jobs[j.id])
    ensures Accounts(s, WriteMissing(w), Next(s, WriteMissing(w)), other)
  {
  }

  lemma FinishAccounts(s: State, w: nat, j: Job, outcome: Outcome, other: Uuid)
    requires Enabled(s, Finish(w, outcome)) && s.workers[w] == Scraping(j) && WorkerOk(s.jobs, w, Scraping(j))
    requires EntryOk(j.id, s.jobs[j.id])
    ensures Accounts(s, Finish(w, outcome), Next(s, Finish(w, outcome)), other)
  {
  }

  lemma RecordAccounts(s: State, w: nat, other: Uuid)
    requires Enabled(s, Record(w)) && WorkerOk(s.jobs, w, s.workers[w])
    ensures Accounts(s, Record(w), Next(s, Record(w)), other)
  {
  }

  lemma WorkerAccounts(s: State, e: Event, other: Uuid)
    requires Enabled(s, e) && (e.Claim? || e.LookUp? || e.WriteMissing? || e.Finish? || e.Record?)
    requires EntryOk(JobOf(s, e), s.jobs[JobOf(s, e)])
    requires e.Claim? || WorkerOk(s.jobs, e.w, s.workers[e.w])
    ensures Accounts(s, e, Next(s, e), other)
  {
    match e
    case Claim(w, id) => ClaimAccounts(s, w, id, other);
    case LookUp(w) => LookUpAccounts(s, w, s.workers[w].job, other);
    case WriteMissing(w) => WriteMissingAccounts(s, w, s.workers[w].job, other);
    case Finish(w, outcome) => FinishAccounts(s, w, s.workers[w].job, outcome, other);
    case Record(w) => RecordAccounts(s, w, other);
  }

  /** An overwritten row was final before exactly if it is in a written phase and not yet lost. */
  lemma OverwrittenEntry(id: Uuid, e: Entry, j: Job, ok: bool)
    requires EntryOk(id, e) && j.status.Cancelled?
    ensures var f := Overwritten(e, j);
            && f.phase == e.phase
            && (WrittenPhase(f.phase, ok) && f.row.status.Cancelled?
                <==> || (WrittenPhase(e.phase, ok) && e.row.status.Cancelled?)
                     || e.row.status == if ok then Completed else Failed)
  {
  }

  lemma CancelWriteAccounts(s: State, c: nat, other: Uuid)
    requires Enabled(s, CancelWrite(c)) && s.cancellers[c].status.Cancelled?
    requires EntryOk(s.cancellers[c].id, s.jobs[s.cancellers[c].id])
    ensures Accounts(s, CancelWrite(c), Next(s, CancelWrite(c)), other)
  {
    var j := s.cancellers[c];
    OverwrittenEntry(j.id, s.jobs[j.id], j, true);
    OverwrittenEntry(j.id, s.jobs[j.id], j, false);
  }

  lemma CancelWholeAccounts(s: State, id: Uuid, other: Uuid)
    requires Enabled(s, CancelWhole(id)) && EntryOk(id, s.jobs[id])
    ensures Accounts(s, CancelWhole(id), Next(s, CancelWhole(id)), other)
  {
  }

  lemma QuietAccounts(s: State, e: Event, other: Uuid)
    requires Enabled(s, e)
    requires e.Tick? || e.Register? || e.SetActive? || e.RetryRead? || e.CancelRead? || e.Submit? || e.RetrySave?
    ensures Accounts(s, e, Next(s, e), other)
  {
  }

  lemma StepAccounts(s: State, e: Event, other: Uuid)
    requires Inv(s) && Enabled(s, e)
    ensures Accounts(s, e, Next(s, e), other)
  {
    if e.Claim? || e.LookUp? || e.WriteMissing? || e.Finish? || e.Record? {
      WorkerFaces(s, e);
      WorkerAccounts(s, e, other);
    } else if e.CancelWrite? {
      assert CopyOk(s.jobs, s.cancellers[e.c]) && EntryOk(s.cancellers[e.c].id, s.jobs[s.cancellers[e.c].id]);
      CancelWriteAccounts(s, e.c, other);
    } else if e.CancelWhole? {
      assert EntryOk(e.id, s.jobs[e.id]);
      CancelWholeAccounts(s, e.id, other);
    } else {
      QuietAccounts(s, e, other);
    }
  }

  lemma WorkerFaces(s: State, e: Event)
    requires JobsOk(s) && WorkersOk(s)
    requires Enabled(s, e) && (e.Claim? || e.LookUp? || e.WriteMissing? || e.Finish? || e.Record?)
    ensures EntryOk(JobOf(s, e), s.jobs[JobOf(s, e)])
    ensures e.Claim? || WorkerOk(s.jobs, e.w, s.workers[e.w])
  {
  }

  // ---------------------------------------------------------------- a run

  /** In some earlier step a cancel wrote over the job's final row. */
  ghost predicate WasOverwritten(states: seq<State>, events: seq<Event>, i: nat, id: Uuid, ok: bool)
    requires |states| == |events| + 1 && i < |states|
  {
    exists d :: 0 <= d < i && Overwrites(states[d], events[d], id, ok)
  }

  /** In some earlier step a worker looked for the job's source in vain. */
  ghost predicate WasMissed(states: seq<State>, events: seq<Event>, i: nat, id: Uuid)
    requires |states| == |events| + 1 && i < |states|
  {
    exists d :: 0 <= d < i && Misses(states[d], events[d], id)
  }

  lemma OneStepLater(states: seq<State>, events: seq<Event>, i: nat, id: Uuid)
    requires |states| == |events| + 1 && 0 < i < |states|
    ensures forall ok :: WasOverwritten(states, events, i, id, ok)
                         <==> WasOverwritten(states, events, i - 1, id, ok)
                              || Overwrites(states[i - 1], events[i - 1], id, ok)
    ensures WasMissed(states, events, i, id)
       <==> WasMissed(states, events, i - 1, id) || Misses(states[i - 1], events[i - 1], id)
  {
  }

  /**
   Over every run: a worker's final row is lost exactly when a cancel wrote over it while it was
   final, and a job counts as missed exactly when a worker looked for its source in vain.
   */
  lemma {:induction false} LossesAreEvents(states: seq<State>, events: seq<Event>, i: nat, id: Uuid)
    requires IsRun(states, events) && i < |states|
    ensures forall ok :: IsLost(states[i].jobs, id, ok) <==> WasOverwritten(states, events, i, id, ok)
    ensures IsMissed(states[i].jobs, id) <==> WasMissed(states, events, i, id)
  {
    if i > 0 {
      LossesAreEvents(states, events, i - 1, id);
      RunKeepsInv(states, events, i - 1);
      StepAccounts(states[i - 1], events[i - 1], id);
      OneStepLater(states, events, i, id);
      BothWays(states[i - 1], events[i - 1], states[i], id);
    }
  }

  lemma BothWays(s: State, e: Event, t: State, id: Uuid)
    requires Accounts(s, e, t, id)
    ensures forall ok :: IsLost(t.jobs, id, ok) <==> IsLost(s.jobs, id, ok) || Overwrites(s, e, id, ok)
  {
  }

  /** The jobs of a source whose final row was written over. */
  ghost function OverwrittenJobs(states: seq<State>, events: seq<Event>, i: nat, sid: Uuid, ok: bool): set<Uuid>
    requires |states| == |events| + 1 && i < |states|
  {
    set id | id in states[i].jobs && states[i].jobs[id].row.source == sid && WasOverwritten(states, events, i, id, ok)
  }

  /** The jobs of a source for which it was looked up in vain. */
  ghost function MissedJobs(states: seq<State>, events: seq<Event>, i: nat, sid: Uuid): set<Uuid>
    requires |states| == |events| + 1 && i < |states|
  {
    set id | id in states[i].jobs && states[i].jobs[id].row.source == sid && WasMissed(states, events, i, id)
  }

  lemma LostAreOverwritten(states: seq<State>, events: seq<Event>, i: nat, sid: Uuid, ok: bool)
    requires IsRun(states, events) && i < |states|
    ensures LostAs(states[i].jobs, sid, ok) == OverwrittenJobs(states, events, i, sid, ok)
  {
    forall id
      ensures id in LostAs(states[i].jobs, sid, ok) <==> id in OverwrittenJobs(states, events, i, sid, ok)
    {
      LossesAreEvents(states, events, i, id);
    }
  }

  lemma UnfoundAreMissed(states: seq<State>, events: seq<Event>, i: nat, sid: Uuid)
    requires IsRun(states, events) && i < |states| && AtRest(states[i])
    ensures UnfoundJobs(states[i].jobs, sid) == MissedJobs(states, events, i, sid)
  {
    RunKeepsInv(states, events, i);
    forall id
      ensures id in UnfoundJobs(states[i].jobs, sid) <==> id in MissedJobs(states, events, i, sid)
    {
      LossesAreEvents(states, events, i, id);
      if id in states[i].jobs {
        assert HolderOk(id, states[i].jobs[id].phase, states[i].workers);
      }
    }
  }

  /** No cancel of a job of the source wrote over a finished row. */
  ghost predicate NoCancelOverFinished(states: seq<State>, events: seq<Event>, i: nat, sid: Uuid)
    requires |states| == |events| + 1 && i < |states|
  {
    forall id, ok :: id in states[i].jobs && states[i].jobs[id].row.source == sid ==>
                       !WasOverwritten(states, events, i, id, ok)
  }

  /**
   At rest, after any run: the counters and health of a source equal the recount if and only if no
   cancel wrote over a completed row of it, and cancels wrote over as many failed ones as there were
   jobs for which it was looked up in vain. If no cancel wrote over a finished row, they are equal if
   and only if it was never looked up in vain.
   */
  lemma AgreementByEvents(states: seq<State>, events: seq<Event>, i: nat, sid: Uuid)
    requires IsRun(states, events) && i < |states| && sid in states[i].sources && AtRest(states[i])
    ensures CountersOf(states[i].sources[sid]) == RecountOf(states[i].jobs, sid)
       <==> && OverwrittenJobs(states, events, i, sid, true) == {}
            && |OverwrittenJobs(states, events, i, sid, false)| == |MissedJobs(states, events, i, sid)|
    ensures NoCancelOverFinished(states, events, i, sid) ==>
              (CountersOf(states[i].sources[sid]) == RecountOf(states[i].jobs, sid)
               <==> MissedJobs(states, events, i, sid) == {})
  {
    AgreementWithSplitCancels(states, events, i, sid);
    LostAreOverwritten(states, events, i, sid, true);
    LostAreOverwritten(states, events, i, sid, false);
    UnfoundAreMissed(states, events, i, sid);
    if NoCancelOverFinished(states, events, i, sid) {
      assert OverwrittenJobs(states, events, i, sid, true) == {}
             && OverwrittenJobs(states, events, i, sid, false) == {};
      assert MissedJobs(states, events, i, sid) == {} <==> |MissedJobs(states, events, i, sid)| == 0;
    }
  }
}
