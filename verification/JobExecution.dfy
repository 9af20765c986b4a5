/** At-most-once execution and terminal statuses, over every run of the job protocol. */
module JobExecution {
  import opened Prelude
  import opened ScrapingJobs
  import opened JobProtocol
  import opened JobInvariant
  import opened JobSteps

  // ---------------------------------------------------------------- claims

  /** Once claimed, a job is never unclaimed or pending again. */
  lemma {:induction false} StaysClaimed(states: seq<State>, events: seq<Event>, i: nat, k: nat, id: Uuid)
    requires History(states, events) && i <= k < |events|
    requires id in states[i].jobs && !states[i].jobs[id].phase.Waiting?
    ensures id in states[k].jobs && !states[k].jobs[id].phase.Waiting? && !states[k].jobs[id].row.status.Pending?
    decreases k - i
  {
    assert StepFacts(states[i], events[i], states[i + 1]);
    assert EntryOk(id, states[i].jobs[id]);
    if i < k {
      StaysClaimed(states, events, i + 1, k, id);
    }
  }

  /** Over every run, a job is claimed at most once, whichever workers compete for it. */
  lemma ClaimedAtMostOnce(states: seq<State>, events: seq<Event>, a: nat, b: nat, v: nat, w: nat, id: Uuid)
    requires IsRun(states, events) && a < |events| && b < |events|
    requires events[a] == Claim(v, id) && events[b] == Claim(w, id)
    ensures a == b
  {
    RunIsHistory(states, events);
    if a < b {
      ClaimTakes(states[a], v, id);
      StaysClaimed(states, events, a + 1, b, id);
    } else if b < a {
      ClaimTakes(states[b], w, id);
      StaysClaimed(states, events, b + 1, a, id);
    }
  }

  lemma ClaimTakes(s: State, w: nat, id: Uuid)
    requires Enabled(s, Claim(w, id))
    ensures id in Next(s, Claim(w, id)).jobs && Next(s, Claim(w, id)).jobs[id].phase == Working(w)
  {
  }

  /** Once a job has left the pending status, no step of any run puts it back. */
  lemma NeverPendingAgain(states: seq<State>, events: seq<Event>, i: nat, k: nat, id: Uuid)
    requires IsRun(states, events) && i <= k < |states|
    requires id in states[i].jobs && !states[i].jobs[id].row.status.Pending?
    ensures id in states[k].jobs && !states[k].jobs[id].row.status.Pending?
  {
    RunIsHistory(states, events);
    NeverRequeued(states, events, i, k, id);
  }

  lemma {:induction false} NeverRequeued(states: seq<State>, events: seq<Event>, i: nat, k: nat, id: Uuid)
    requires History(states, events) && i <= k < |states|
    requires id in states[i].jobs && !states[i].jobs[id].row.status.Pending?
    ensures id in states[k].jobs && !states[k].jobs[id].row.status.Pending?
    decreases k - i
  {
    if i < k {
      assert StepFacts(states[i], events[i], states[i + 1]);
      NeverRequeued(states, events, i + 1, k, id);
    }
  }

  /** A worker that is about to fail or finish its job holds it running. */
  lemma FinishSucceeds(s: State, w: nat, outcome: Outcome)
    requires Enabled(s, Finish(w, outcome)) && WorkerOk(s.jobs, w, s.workers[w])
    ensures var j := s.workers[w].job;
            && (forall found, saved :: AfterComplete(j, found, saved, s.clock).Some?)
            && (forall reason :: AfterFail(j, reason, s.clock).Some?)
            && j.id in Next(s, Finish(w, outcome)).jobs
            && Next(s, Finish(w, outcome)).jobs[j.id].row.status == (if outcome.Done? then Completed else Failed)
  {
  }

  /** The errors of Fail and Complete that Execute discards never occur. */
  lemma DiscardedErrorsNeverOccur(states: seq<State>, events: seq<Event>, i: nat)
    requires IsRun(states, events) && i < |events|
    ensures events[i].LookUp? ==>
              AfterFail(WorkerAt(states[i].workers, events[i].w).job, "source not found", states[i].clock).Some?
    ensures events[i].Finish? ==>
              var j := WorkerAt(states[i].workers, events[i].w).job;
              && (forall found, saved :: AfterComplete(j, found, saved, states[i].clock).Some?)
              && (forall reason :: AfterFail(j, reason, states[i].clock).Some?)
              && j.id in states[i + 1].jobs
              && states[i + 1].jobs[j.id].row.status == (if events[i].outcome.Done? then Completed else Failed)
  {
    WorkersAreOk(states, events, i);
    if events[i].Finish? {
      FinishSucceeds(states[i], events[i].w, events[i].outcome);
    } else if events[i].LookUp? {
      assert WorkerOk(states[i].jobs, events[i].w, states[i].workers[events[i].w]);
    }
  }

  lemma WorkersAreOk(states: seq<State>, events: seq<Event>, i: nat)
    requires IsRun(states, events) && i < |states|
    ensures WorkersOk(states[i])
  {
    RunKeepsInv(states, events, i);
  }

  // ---------------------------------------------------------------- where things came from

  ghost predicate ClaimedAt(events: seq<Event>, b: nat, id: Uuid) {
    b < |events| && events[b].Claim? && events[b].id == id
  }

  ghost predicate ReadAt(events: seq<Event>, a: nat, c: nat, id: Uuid) {
    a < |events| && events[a] == CancelRead(c, id)
  }

  /** The late half of canceller c's cancel of job id. */
  ghost predicate WrittenAt(states: seq<State>, events: seq<Event>, d: nat, c: nat, id: Uuid) {
    d < |events| && d < |states| && events[d] == CancelWrite(c) && c in states[d].cancellers
    && states[d].cancellers[c].id == id
  }

  lemma LeavesWaiting(s: State, e: Event, t: State, id: Uuid)
    requires StepFacts(s, e, t) && id in t.jobs && !t.jobs[id].phase.Waiting?
    ensures (e.Claim? && e.id == id) || (id in s.jobs && !s.jobs[id].phase.Waiting?)
  {
  }

  lemma {:induction false} ClaimBefore(states: seq<State>, events: seq<Event>, i: nat, id: Uuid) returns (b: nat)
    requires History(states, events) && i < |states|
    requires id in states[i].jobs && !states[i].jobs[id].phase.Waiting?
    ensures b < i && ClaimedAt(events, b, id)
    decreases i
  {
    b := i - 1;
    LeavesWaiting(states[b], events[b], states[b + 1], id);
    if !(events[b].Claim? && events[b].id == id) {
      b := ClaimBefore(states, events, b, id);
    }
  }

  lemma CopyAppears(s: State, e: Event, t: State, c: nat)
    requires StepFacts(s, e, t) && c in t.cancellers
    ensures CopyComesFrom(s, e, t, c)
  {
  }

  /** Event a is canceller c's read of job id, which is pending. */
  ghost predicate PendingReadAt(states: seq<State>, events: seq<Event>, a: nat, c: nat, id: Uuid) {
    a < |states| && ReadAt(events, a, c, id) && id in states[a].jobs && states[a].jobs[id].row.status.Pending?
  }

  lemma {:induction false} ReadBefore(states: seq<State>, events: seq<Event>, i: nat, c: nat) returns (a: nat)
    requires History(states, events) && i < |states| && c in states[i].cancellers
    ensures a < i && PendingReadAt(states, events, a, c, states[i].cancellers[c].id)
    decreases i
  {
    CopyAppears(states[i - 1], events[i - 1], states[i], c);
    if c in states[i - 1].cancellers && states[i].cancellers[c] == states[i - 1].cancellers[c] {
      a := ReadBefore(states, events, i - 1, c);
    } else {
      a := i - 1;
    }
  }

  lemma BecomesStale(s: State, e: Event, t: State, id: Uuid)
    requires StepFacts(s, e, t) && id in t.jobs && t.jobs[id].stale
    ensures id in s.jobs
    ensures s.jobs[id].stale || (CancelWrites(s, e, id) && !s.jobs[id].phase.Waiting?)
  {
  }

  lemma {:induction false} StaleBefore(states: seq<State>, events: seq<Event>, i: nat, id: Uuid)
    returns (d: nat, c: nat)
    requires History(states, events) && i < |states| && id in states[i].jobs && states[i].jobs[id].stale
    ensures d < i && WrittenAt(states, events, d, c, id)
    ensures id in states[d].jobs && !states[d].jobs[id].phase.Waiting?
    decreases i
  {
    d := i - 1;
    BecomesStale(states[d], events[d], states[d + 1], id);
    if id in states[d].jobs && states[d].jobs[id].stale {
      d, c := StaleBefore(states, events, d, id);
    } else {
      c := events[d].c;
    }
  }

  /** A cancel that writes a claimed job read it while pending, so before the claim. */
  lemma ReadPrecedesClaim(states: seq<State>, events: seq<Event>, d: nat, c: nat, id: Uuid) returns (a: nat, b: nat)
    requires History(states, events) && WrittenAt(states, events, d, c, id)
    requires id in states[d].jobs && !states[d].jobs[id].phase.Waiting?
    ensures LateCancel(states, events, a, b, d, c, id)
  {
    a := ReadBefore(states, events, d, c);
    b := ClaimBefore(states, events, d, id);
    if b < a {
      assert StepFacts(states[b], events[b], states[b + 1]);
      StaysClaimed(states, events, b + 1, a, id);
    }
  }

  /** A cancel read the job pending at a, the claim came at b, and the cancel wrote at d. */
  ghost predicate LateCancel(states: seq<State>, events: seq<Event>, a: nat, b: nat, d: nat, c: nat, id: Uuid) {
    a < b < d && ReadAt(events, a, c, id) && ClaimedAt(events, b, id) && WrittenAt(states, events, d, c, id)
  }

  // ---------------------------------------------------------------- terminal statuses

  /** The steps that can change a terminal status, and from which status. */
  lemma StepChangesTerminal(s: State, e: Event, t: State, id: Uuid)
    requires StepFacts(s, e, t) && id in s.jobs && IsTerminal(s.jobs[id].row.status)
    requires t.jobs[id].row.status != s.jobs[id].row.status
    ensures !s.jobs[id].phase.Waiting?
    ensures || (CancelWrites(s, e, id) && IsFinished(s.jobs[id].row.status))
            || (WorkerWrites(s, e, id) && s.jobs[id].row.status.Cancelled? && s.jobs[id].stale)
  {
    assert EntryOk(id, s.jobs[id]);
  }

  /**
   With split cancels, a step changes a terminal status only in two ways: it is a cancel that read
   the job pending before the claim and writes now, or it is the holding worker's final write after
   such a late cancel.
   */
  lemma WhoChangesATerminalStatus(states: seq<State>, events: seq<Event>, i: nat, id: Uuid)
    requires IsRun(states, events) && i < |events|
    requires id in states[i].jobs && IsTerminal(states[i].jobs[id].row.status)
    requires id in states[i + 1].jobs && states[i + 1].jobs[id].row.status != states[i].jobs[id].row.status
    ensures exists a: nat, b: nat, d: nat, c: nat ::
              && LateCancel(states, events, a, b, d, c, id)
              && (d == i || (d < i && WorkerWrites(states[i], events[i], id)
                             && states[i].jobs[id].row.status.Cancelled?))
  {
    RunIsHistory(states, events);
    var a, b, d, c := TerminalChange(states, events, i, id);
  }

  lemma TerminalChange(states: seq<State>, events: seq<Event>, i: nat, id: Uuid)
    returns (a: nat, b: nat, d: nat, c: nat)
    requires History(states, events) && i < |events|
    requires id in states[i].jobs && IsTerminal(states[i].jobs[id].row.status)
    requires id in states[i + 1].jobs && states[i + 1].jobs[id].row.status != states[i].jobs[id].row.status
    ensures LateCancel(states, events, a, b, d, c, id)
    ensures d == i || (d < i && WorkerWrites(states[i], events[i], id) && states[i].jobs[id].row.status.Cancelled?)
  {
    assert StepFacts(states[i], events[i], states[i + 1]);
    StepChangesTerminal(states[i], events[i], states[i + 1], id);
    if CancelWrites(states[i], events[i], id) {
      d, c := i, events[i].c;
    } else {
      d, c := StaleBefore(states, events, i, id);
    }
    a, b := ReadPrecedesClaim(states, events, d, c, id);
  }

  /** When every cancel is one step, a terminal status is final. */
  lemma AtomicCancelKeepsTerminal(states: seq<State>, events: seq<Event>, i: nat, k: nat, id: Uuid)
    requires IsRun(states, events) && CancelsAreAtomic(events) && i <= k < |states|
    requires id in states[i].jobs && IsTerminal(states[i].jobs[id].row.status)
    ensures id in states[k].jobs && states[k].jobs[id].row.status == states[i].jobs[id].row.status
  {
    RunIsHistory(states, events);
    TerminalStays(states, events, i, k, id);
  }

  lemma {:induction false} TerminalStays(states: seq<State>, events: seq<Event>, i: nat, k: nat, id: Uuid)
    requires History(states, events) && CancelsAreAtomic(events) && i <= k < |states|
    requires id in states[i].jobs && IsTerminal(states[i].jobs[id].row.status)
    ensures id in states[k].jobs && states[k].jobs[id].row.status == states[i].jobs[id].row.status
    decreases k - i
  {
    if i < k {
      assert StepFacts(states[i], events[i], states[i + 1]);
      if states[i + 1].jobs[id].row.status != states[i].jobs[id].row.status {
        var a, b, d, c := TerminalChange(states, events, i, id);
        assert false;
      }
      TerminalStays(states, events, i + 1, k, id);
    }
  }

  /** When every cancel is one step, no row is ever overwritten after its claim. */
  lemma AtomicCancelNeverStale(states: seq<State>, events: seq<Event>, i: nat, id: Uuid)
    requires History(states, events) && CancelsAreAtomic(events) && i < |states| && id in states[i].jobs
    ensures !states[i].jobs[id].stale
  {
    if states[i].jobs[id].stale {
      var d, c := StaleBefore(states, events, i, id);
      assert false;
    }
  }

  // ---------------------------------------------------------------- retries

  /** A job's lineage: each ancestor exists and was itself created by a retry of the one before it. */
  ghost predicate LineageOk(jobs: Table, id: Uuid)
    requires id in jobs
  {
    forall k :: 0 <= k < |jobs[id].lineage| ==>
                  && jobs[id].lineage[k] in jobs
                  && jobs[jobs[id].lineage[k]].lineage == jobs[id].lineage[..k]
  }

  /** A step never changes the lineage of a job that is there. */
  lemma LineageStays(s: State, e: Event, t: State, id: Uuid)
    requires StepFacts(s, e, t) && id in s.jobs
    ensures id in t.jobs && t.jobs[id].lineage == s.jobs[id].lineage
  {
  }

  lemma OldLineageOk(s: State, e: Event, t: State, id: Uuid)
    requires StepFacts(s, e, t) && id in s.jobs && LineageOk(s.jobs, id)
    ensures id in t.jobs && LineageOk(t.jobs, id)
  {
    LineageStays(s, e, t, id);
    forall k | 0 <= k < |s.jobs[id].lineage|
      ensures s.jobs[id].lineage[k] in t.jobs && t.jobs[s.jobs[id].lineage[k]].lineage == s.jobs[id].lineage[..k]
    {
      LineageStays(s, e, t, s.jobs[id].lineage[k]);
    }
  }

  /** The lineage of a retry is that of its original and the original. */
  lemma RetriedLineageOk(jobs: Table, id: Uuid, original: Uuid)
    requires original in jobs && id in jobs && LineageOk(jobs, original)
    requires jobs[id].lineage == jobs[original].lineage + [original]
    ensures LineageOk(jobs, id)
  {
    var before := jobs[original].lineage;
    forall k | 0 <= k < |before + [original]|
      ensures (before + [original])[..k] == before[..k]
    {
    }
    assert before[..|before|] == before;
  }

  lemma StepKeepsLineage(s: State, e: Event, t: State, id: Uuid)
    requires StepFacts(s, e, t) && id in t.jobs
    requires forall x {:trigger x in s.jobs} :: x in s.jobs ==> LineageOk(s.jobs, x)
    ensures LineageOk(t.jobs, id)
  {
    if id in s.jobs {
      OldLineageOk(s, e, t, id);
    } else if t.jobs[id].lineage != [] {
      var original := OriginalOf(s, e, t, id);
      LineageStays(s, e, t, original);
      OldLineageOk(s, e, t, original);
      RetriedLineageOk(t.jobs, id, original);
    }
  }

  lemma OriginalOf(s: State, e: Event, t: State, id: Uuid) returns (original: Uuid)
    requires StepFacts(s, e, t) && id in t.jobs && id !in s.jobs && t.jobs[id].lineage != []
    ensures original in s.jobs && t.jobs[id].lineage == s.jobs[original].lineage + [original]
  {
    original :| original in s.jobs && t.jobs[id].lineage == s.jobs[original].lineage + [original];
  }

  lemma {:induction false} RunKeepsLineage(states: seq<State>, events: seq<Event>, i: nat)
    requires History(states, events) && i < |states|
    ensures forall id {:trigger id in states[i].jobs} :: id in states[i].jobs ==> LineageOk(states[i].jobs, id)
    decreases i
  {
    if i > 0 {
      RunKeepsLineage(states, events, i - 1);
      assert StepFacts(states[i - 1], events[i - 1], states[i]);
      forall id {:trigger id in states[i].jobs} | id in states[i].jobs
        ensures LineageOk(states[i].jobs, id)
      {
        StepKeepsLineage(states[i - 1], events[i - 1], states[i], id);
      }
    }
  }

  /**
   However often and from whatever status jobs are retried, every job's retry count is the length of
   its chain of originals, and that is at most three.
   */
  lemma RetryChainsAreBounded(states: seq<State>, events: seq<Event>, i: nat, id: Uuid)
    requires IsRun(states, events) && i < |states| && id in states[i].jobs
    ensures states[i].jobs[id].row.retryCount == |states[i].jobs[id].lineage| <= 3
    ensures LineageOk(states[i].jobs, id)
  {
    RunKeepsInv(states, events, i);
    assert EntryOk(id, states[i].jobs[id]);
    RunIsHistory(states, events);
    RunKeepsLineage(states, events, i);
  }
}
