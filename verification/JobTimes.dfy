/** What the columns of a job row say about one another, in every reachable state of the job protocol. */
module JobTimes {
  import opened Prelude
  import opened ScrapingJobs
  import opened JobProtocol
  import opened JobInvariant

  /** Nothing has been written on the job but its status. */
  predicate IsUntouched(j: Job) {
    j.startedAt == None && j.completedAt == None && j.found == 0 && j.saved == 0 && j.error == ""
  }

  /** The job was started between its creation and a moment. */
  predicate IsStarted(j: Job, until: Time) {
    j.startedAt.Some? && j.createdAt <= j.startedAt.value <= until
  }

  /** The job was started, and ended no earlier. */
  predicate IsEnded(j: Job, until: Time) {
    j.completedAt.Some? && j.completedAt.value <= until && IsStarted(j, j.completedAt.value)
  }

  /**
   A job that waits or was cancelled is untouched, also when the cancel overwrote a later state; a running
   one has been started; a completed one has ended, without an error; a failed one has ended, with nothing
   found or saved.
   */
  predicate ColumnsOk(j: Job, now: Time) {
    && j.createdAt <= now
    && match j.status
       case Pending => IsUntouched(j)
       case Cancelled => IsUntouched(j)
       case Running => IsStarted(j, now) && j.completedAt == None && j.found == 0 && j.saved == 0 && j.error == ""
       case Completed => IsEnded(j, now) && j.error == ""
       case Failed => IsEnded(j, now) && j.found == 0 && j.saved == 0
  }

  // ---------------------------------------------------------------- rows and copies

  predicate HasJob(k: Worker) {
    k.Claimed? || k.Missing? || k.Scraping?
  }

  /** The copy's columns are in order, and its row is there, with the same page. */
  predicate CopyHolds(jobs: Table, j: Job, now: Time) {
    ColumnsOk(j, now) && j.id in jobs && jobs[j.id].row.page == j.page
  }

  predicate WorkerHolds(jobs: Table, k: Worker, now: Time) {
    HasJob(k) ==> CopyHolds(jobs, k.job, now)
  }

  ghost predicate RowsHold(s: State) {
    forall id :: id in s.jobs ==> ColumnsOk(s.jobs[id].row, s.clock)
  }

  ghost predicate CopiesHold(s: State) {
    && (forall w :: w in s.workers ==> WorkerHolds(s.jobs, s.workers[w], s.clock))
    && (forall c :: c in s.cancellers ==> CopyHolds(s.jobs, s.cancellers[c], s.clock))
    && (forall r :: r in s.retriers ==> CopyHolds(s.jobs, s.retriers[r], s.clock))
  }

  ghost predicate ColumnsHold(s: State) {
    RowsHold(s) && CopiesHold(s)
  }

  /** No page of a row changes. */
  ghost predicate PagesStay(before: Table, after: Table) {
    forall id :: id in before ==> id in after && after[id].row.page == before[id].row.page
  }

  /** The copies of t are those of s, except that those of one worker, canceller or retrier may be new and hold. */
  ghost predicate CopiesComeFrom(s: State, t: State) {
    && (forall w :: w in t.workers ==>
                      (w in s.workers && t.workers[w] == s.workers[w]) || WorkerHolds(t.jobs, t.workers[w], t.clock))
    && (forall c :: c in t.cancellers ==>
                      (c in s.cancellers && t.cancellers[c] == s.cancellers[c])
                      || CopyHolds(t.jobs, t.cancellers[c], t.clock))
    && (forall r :: r in t.retriers ==>
                      (r in s.retriers && t.retriers[r] == s.retriers[r]) || CopyHolds(t.jobs, t.retriers[r], t.clock))
  }

  lemma CopiesStillHold(s: State, t: State)
    requires CopiesHold(s) && CopiesComeFrom(s, t) && PagesStay(s.jobs, t.jobs) && s.clock <= t.clock
    ensures CopiesHold(t)
  {
    forall w | w in t.workers
      ensures WorkerHolds(t.jobs, t.workers[w], t.clock)
    {
      assert w in s.workers ==> WorkerHolds(s.jobs, s.workers[w], s.clock);
    }
  }

  /** A step that writes one row, with columns in order and the page it had. */
  ghost predicate WritesRow(s: State, t: State, id: Uuid) {
    && id in t.jobs && t.jobs == s.jobs[id := t.jobs[id]] && t.clock == s.clock
    && ColumnsOk(t.jobs[id].row, t.clock)
    && (id in s.jobs ==> t.jobs[id].row.page == s.jobs[id].row.page)
  }

  lemma WrittenRowHolds(s: State, t: State, id: Uuid)
    requires ColumnsHold(s) && WritesRow(s, t, id) && CopiesComeFrom(s, t)
    ensures ColumnsHold(t) && PagesStay(s.jobs, t.jobs)
  {
    CopiesStillHold(s, t);
  }

  /** An update leaves the row as the copy is. */
  lemma UpdateIsCopy(row: Job, j: Job)
    requires SameIdentity(j, row)
    ensures UpdatedRow(row, j) == j
  {
  }

  // ---------------------------------------------------------------- the events

  lemma ClaimHolds(s: State, w: nat, id: Uuid)
    requires ColumnsHold(s) && JobsOk(s) && Enabled(s, Claim(w, id))
    ensures var t := Next(s, Claim(w, id));
            ColumnsHold(t) && PagesStay(s.jobs, t.jobs)
  {
    assert EntryOk(id, s.jobs[id]) && ColumnsOk(s.jobs[id].row, s.clock);
    WrittenRowHolds(s, Next(s, Claim(w, id)), id);
  }

  lemma LookUpCopies(s: State, w: nat)
    requires ColumnsHold(s) && WorkersOk(s) && Enabled(s, LookUp(w))
    ensures CopiesComeFrom(s, Next(s, LookUp(w)))
  {
    var j := s.workers[w].job;
    assert WorkerOk(s.jobs, w, s.workers[w]) && WorkerHolds(s.jobs, s.workers[w], s.clock);
    assert ColumnsOk(Orphaned(j, s.clock), s.clock);
  }

  lemma LookUpHolds(s: State, w: nat)
    requires ColumnsHold(s) && WorkersOk(s) && Enabled(s, LookUp(w))
    ensures var t := Next(s, LookUp(w));
            ColumnsHold(t) && PagesStay(s.jobs, t.jobs)
  {
    var j, t := s.workers[w].job, Next(s, LookUp(w));
    assert t.jobs == s.jobs[j.id := t.jobs[j.id]] && t.jobs[j.id].row == s.jobs[j.id].row;
    LookUpCopies(s, w);
    WrittenRowHolds(s, t, j.id);
  }

  /** The final write of a worker's copy. */
  lemma FinalWriteHolds(s: State, t: State, id: Uuid, j: Job)
    requires ColumnsHold(s) && id in s.jobs && id in t.jobs && SameIdentity(j, s.jobs[id].row)
    requires ColumnsOk(j, s.clock) && j.page == s.jobs[id].row.page
    requires t.clock == s.clock && t.jobs == s.jobs[id := t.jobs[id]] && t.jobs[id].row == UpdatedRow(s.jobs[id].row, j)
    requires CopiesComeFrom(s, t)
    ensures ColumnsHold(t) && PagesStay(s.jobs, t.jobs)
  {
    UpdateIsCopy(s.jobs[id].row, j);
    WrittenRowHolds(s, t, id);
  }

  lemma WriteMissingHolds(s: State, w: nat)
    requires ColumnsHold(s) && WorkersOk(s) && Enabled(s, WriteMissing(w))
    ensures var t := Next(s, WriteMissing(w));
            ColumnsHold(t) && PagesStay(s.jobs, t.jobs)
  {
    var j := s.workers[w].job;
    assert WorkerOk(s.jobs, w, s.workers[w]) && WorkerHolds(s.jobs, s.workers[w], s.clock);
    FinalWriteHolds(s, Next(s, WriteMissing(w)), j.id, j);
  }

  lemma FinishHolds(s: State, w: nat, outcome: Outcome)
    requires ColumnsHold(s) && WorkersOk(s) && Enabled(s, Finish(w, outcome))
    ensures var t := Next(s, Finish(w, outcome));
            ColumnsHold(t) && PagesStay(s.jobs, t.jobs)
  {
    var j := s.workers[w].job;
    assert WorkerOk(s.jobs, w, s.workers[w]) && WorkerHolds(s.jobs, s.workers[w], s.clock);
    FinalWriteHolds(s, Next(s, Finish(w, outcome)), j.id, Finished(j, outcome, s.clock));
  }

  lemma RecordHolds(s: State, w: nat)
    requires ColumnsHold(s) && Enabled(s, Record(w))
    ensures var t := Next(s, Record(w));
            ColumnsHold(t) && PagesStay(s.jobs, t.jobs)
  {
    WrittenRowHolds(s, Next(s, Record(w)), s.workers[w].id);
  }

  lemma CancelReadHolds(s: State, c: nat, id: Uuid)
    requires ColumnsHold(s) && JobsOk(s) && Enabled(s, CancelRead(c, id))
    ensures ColumnsHold(Next(s, CancelRead(c, id))) && PagesStay(s.jobs, Next(s, CancelRead(c, id)).jobs)
  {
    assert EntryOk(id, s.jobs[id]) && ColumnsOk(s.jobs[id].row, s.clock);
    CopiesStillHold(s, Next(s, CancelRead(c, id)));
  }

  lemma CancelWriteHolds(s: State, c: nat)
    requires ColumnsHold(s) && CopiesOk(s) && Enabled(s, CancelWrite(c))
    ensures ColumnsHold(Next(s, CancelWrite(c))) && PagesStay(s.jobs, Next(s, CancelWrite(c)).jobs)
  {
    assert CopyOk(s.jobs, s.cancellers[c]) && CopyHolds(s.jobs, s.cancellers[c], s.clock);
    FinalWriteHolds(s, Next(s, CancelWrite(c)), s.cancellers[c].id, s.cancellers[c]);
  }

  lemma CancelWholeHolds(s: State, id: Uuid)
    requires ColumnsHold(s) && Enabled(s, CancelWhole(id))
    ensures ColumnsHold(Next(s, CancelWhole(id))) && PagesStay(s.jobs, Next(s, CancelWhole(id)).jobs)
  {
    assert ColumnsOk(s.jobs[id].row, s.clock);
    FinalWriteHolds(s, Next(s, CancelWhole(id)), id, AfterCancel(s.jobs[id].row).value);
  }

  lemma NewJobHolds(s: State, e: Event)
    requires ColumnsHold(s) && Enabled(s, e) && (e.Submit? || e.RetrySave?)
    ensures ColumnsHold(Next(s, e)) && PagesStay(s.jobs, Next(s, e).jobs)
  {
    WrittenRowHolds(s, Next(s, e), if e.Submit? then e.id else e.copy);
  }

  lemma RowsStay(s: State, e: Event)
    requires ColumnsHold(s) && JobsOk(s) && Enabled(s, e)
    requires e.Tick? || e.Register? || e.SetActive? || e.RetryRead?
    ensures ColumnsHold(Next(s, e)) && PagesStay(s.jobs, Next(s, e).jobs)
  {
    if e.RetryRead? {
      assert EntryOk(e.id, s.jobs[e.id]) && ColumnsOk(s.jobs[e.id].row, s.clock);
    }
    CopiesStillHold(s, Next(s, e));
  }

  lemma StepKeepsColumns(s: State, e: Event)
    requires Inv(s) && ColumnsHold(s) && Enabled(s, e)
    ensures ColumnsHold(Next(s, e)) && PagesStay(s.jobs, Next(s, e).jobs)
  {
    match e
    case Claim(w, id) => ClaimHolds(s, w, id);
    case LookUp(w) => LookUpHolds(s, w);
    case WriteMissing(w) => WriteMissingHolds(s, w);
    case Finish(w, outcome) => FinishHolds(s, w, outcome);
    case Record(w) => RecordHolds(s, w);
    case CancelRead(c, id) => CancelReadHolds(s, c, id);
    case CancelWrite(c) => CancelWriteHolds(s, c);
    case CancelWhole(id) => CancelWholeHolds(s, id);
    case Submit(_, _, _, _, _) => NewJobHolds(s, e);
    case RetrySave(_, _) => NewJobHolds(s, e);
    case _ => RowsStay(s, e);
  }

  // ---------------------------------------------------------------- over every run

  /**
   In every state of every run, however workers, cancellers and retriers interleave, the times, numbers and
   error of each row fit its status, none of its times lies in the future, and the copies in hand are in
   order, too.
   */
  lemma {:induction false} ColumnsFitStatus(states: seq<State>, events: seq<Event>, i: nat)
    requires IsRun(states, events) && i < |states|
    ensures ColumnsHold(states[i])
  {
    if i > 0 {
      ColumnsFitStatus(states, events, i - 1);
      RunKeepsInv(states, events, i - 1);
      StepKeepsColumns(states[i - 1], events[i - 1]);
    }
  }

  ghost predicate StepKeepsPages(states: seq<State>, i: nat)
    requires i + 1 < |states|
  {
    PagesStay(states[i].jobs, states[i + 1].jobs)
  }

  lemma RunKeepsPages(states: seq<State>, events: seq<Event>, i: nat)
    requires IsRun(states, events) && i < |events|
    ensures StepKeepsPages(states, i)
  {
    ColumnsFitStatus(states, events, i);
    RunKeepsInv(states, events, i);
    StepKeepsColumns(states[i], events[i]);
  }

  lemma {:induction false} PageStays(states: seq<State>, i: nat, k: nat, id: Uuid)
    requires i <= k < |states| && id in states[i].jobs
    requires forall j: nat :: j + 1 < |states| ==> StepKeepsPages(states, j)
    ensures id in states[k].jobs && states[k].jobs[id].row.page == states[i].jobs[id].row.page
    decreases k
  {
    if i < k {
      PageStays(states, i, k - 1, id);
      assert StepKeepsPages(states, k - 1);
    }
  }

  /** A job keeps the page it was submitted for. */
  lemma PageNeverChanges(states: seq<State>, events: seq<Event>, i: nat, k: nat, id: Uuid)
    requires IsRun(states, events) && i <= k < |states| && id in states[i].jobs
    ensures id in states[k].jobs && states[k].jobs[id].row.page == states[i].jobs[id].row.page
  {
    forall j: nat | j + 1 < |states|
      ensures StepKeepsPages(states, j)
    {
      RunKeepsPages(states, events, j);
    }
    PageStays(states, i, k, id);
  }
}
