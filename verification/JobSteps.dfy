/** What one step of the job protocol can do to one job, told without the step function. */
module JobSteps {
  import opened Prelude
  import opened ScrapingJobs
  import opened JobProtocol
  import opened JobInvariant

  /** The event is worker w's final write of job id. */
  predicate WorkerWrites(s: State, e: Event, id: Uuid) {
    || (e.Finish? && e.w in s.workers && s.workers[e.w].Scraping? && s.workers[e.w].job.id == id)
    || (e.WriteMissing? && e.w in s.workers && s.workers[e.w].Missing? && s.workers[e.w].job.id == id)
  }

  /** The event is the late half of a cancel of job id. */
  predicate CancelWrites(s: State, e: Event, id: Uuid) {
    e.CancelWrite? && e.c in s.cancellers && s.cancellers[e.c].id == id
  }

  /** The only ways a step changes the entry of a job from a to b. */
  predicate Evolves(s: State, e: Event, id: Uuid, a: Entry, b: Entry) {
    && SameIdentity(a.row, b.row)
    && a.lineage == b.lineage
    && (|| b == a
        || (&& e.Claim? && e.id == id && a.phase.Waiting? && a.row.status.Pending?
            && b.phase == Working(e.w) && b.row.status.Running? && b.stale == a.stale)
        || (&& !a.phase.Waiting? && !b.phase.Waiting? && b.stale == a.stale
            && (b.row.status == a.row.status
                || (WorkerWrites(s, e, id) && !IsFinished(a.row.status) && IsFinished(b.row.status))))
        || (&& CancelWrites(s, e, id) && b.phase == a.phase && b.row.status.Cancelled?
            && b.stale == (a.stale || !a.phase.Waiting?))
        || (&& e == CancelWhole(id) && a.phase.Waiting? && a.row.status.Pending?
            && b.phase == a.phase && b.row.status.Cancelled? && b.stale == a.stale))
  }

  /** The only ways a job enters the table. */
  predicate Appears(s: State, b: Entry) {
    && b.phase.Waiting? && !b.stale && b.row.status.Pending?
    && (|| b.lineage == []
        || (exists id :: id in s.jobs && b.lineage == s.jobs[id].lineage + [id]))
  }

  /** Canceller c's copy in t was there before, or this event read it from a pending row. */
  predicate CopyComesFrom(s: State, e: Event, t: State, c: nat)
    requires c in t.cancellers
  {
    || (c in s.cancellers && s.cancellers[c] == t.cancellers[c])
    || (var id := t.cancellers[c].id; e == CancelRead(c, id) && id in s.jobs && s.jobs[id].row.status.Pending?)
  }

  /** One step from s to t, as far as job histories go. */
  ghost predicate StepFacts(s: State, e: Event, t: State) {
    && (forall id :: id in s.jobs ==>
                       id in t.jobs && EntryOk(id, s.jobs[id]) && Evolves(s, e, id, s.jobs[id], t.jobs[id]))
    && (forall id :: id in t.jobs && id !in s.jobs ==> Appears(s, t.jobs[id]))
    && (forall c :: c in t.cancellers ==> CopyComesFrom(s, e, t, c))
    && (e.Claim? ==> e.id in t.jobs && !t.jobs[e.id].phase.Waiting?)
  }

  /** A step that changes one existing entry. */
  lemma OneEntry(s: State, e: Event, t: State, id: Uuid)
    requires forall x :: x in s.jobs ==> EntryOk(x, s.jobs[x])
    requires id in s.jobs && id in t.jobs && t.jobs == s.jobs[id := t.jobs[id]]
    requires Evolves(s, e, id, s.jobs[id], t.jobs[id])
    requires forall c :: c in t.cancellers ==> c in s.cancellers && s.cancellers[c] == t.cancellers[c]
    requires e.Claim? ==> e.id == id && !t.jobs[id].phase.Waiting?
    ensures StepFacts(s, e, t)
  {
  }

  /** The step changes at most the entry of one job, as Evolves allows, and no canceller's copy. */
  ghost predicate Moves(s: State, e: Event, t: State, id: Uuid) {
    && id in s.jobs && id in t.jobs && t.jobs == s.jobs[id := t.jobs[id]] && t.cancellers == s.cancellers
    && Evolves(s, e, id, s.jobs[id], t.jobs[id])
    && (e.Claim? ==> e.id == id && !t.jobs[id].phase.Waiting?)
  }

  lemma ClaimEvolves(s: State, w: nat, id: Uuid)
    requires Enabled(s, Claim(w, id)) && EntryOk(id, s.jobs[id])
    ensures Moves(s, Claim(w, id), Next(s, Claim(w, id)), id)
  {
  }

  lemma LookUpEvolves(s: State, w: nat, j: Job)
    requires Enabled(s, LookUp(w)) && s.workers[w] == Claimed(j) && WorkerOk(s.jobs, w, Claimed(j))
    requires EntryOk(j.id, s.jobs[j.id])
    ensures Moves(s, LookUp(w), Next(s, LookUp(w)), j.id)
  {
    var t := Next(s, LookUp(w));
    assert t.jobs == s.jobs[j.id := t.jobs[j.id]];
  }

  lemma WriteMissingEvolves(s: State, w: nat, j: Job)
    requires Enabled(s, WriteMissing(w)) && s.workers[w] == Missing(j) && WorkerOk(s.jobs, w, Missing(j))
    requires EntryOk(j.id, s.jobs[j.id])
    ensures Moves(s, WriteMissing(w), Next(s, WriteMissing(w)), j.id)
  {
  }

  lemma FinishEvolves(s: State, w: nat, j: Job, outcome: Outcome)
    requires Enabled(s, Finish(w, outcome)) && s.workers[w] == Scraping(j) && WorkerOk(s.jobs, w, Scraping(j))
    requires EntryOk(j.id, s.jobs[j.id])
    ensures Moves(s, Finish(w, outcome), Next(s, Finish(w, outcome)), j.id)
  {
  }

  lemma RecordEvolves(s: State, w: nat)
    requires Enabled(s, Record(w)) && WorkerOk(s.jobs, w, s.workers[w])
    requires EntryOk(s.workers[w].id, s.jobs[s.workers[w].id])
    ensures Moves(s, Record(w), Next(s, Record(w)), s.workers[w].id)
  {
  }

  /** The job that a worker's event is about. */
  function JobOf(s: State, e: Event): Uuid
    requires Enabled(s, e) && (e.Claim? || e.LookUp? || e.WriteMissing? || e.Finish? || e.Record?)
  {
    if e.Claim? then e.id else if e.Record? then s.workers[e.w].id else s.workers[e.w].job.id
  }

  lemma WorkerEvolves(s: State, e: Event)
    requires Enabled(s, e) && (e.Claim? || e.LookUp? || e.WriteMissing? || e.Finish? || e.Record?)
    requires EntryOk(JobOf(s, e), s.jobs[JobOf(s, e)])
    requires e.Claim? || WorkerOk(s.jobs, e.w, s.workers[e.w])
    ensures Moves(s, e, Next(s, e), JobOf(s, e))
  {
    match e
    case Claim(w, id) => ClaimEvolves(s, w, id);
    case LookUp(w) => LookUpEvolves(s, w, s.workers[w].job);
    case WriteMissing(w) => WriteMissingEvolves(s, w, s.workers[w].job);
    case Finish(w, outcome) => FinishEvolves(s, w, s.workers[w].job, outcome);
    case Record(w) => RecordEvolves(s, w);
  }

  lemma WorkerFacts(s: State, e: Event)
    requires Inv(s) && Enabled(s, e) && (e.Claim? || e.LookUp? || e.WriteMissing? || e.Finish? || e.Record?)
    ensures StepFacts(s, e, Next(s, e))
  {
    WorkerEvolves(s, e);
    OneEntry(s, e, Next(s, e), JobOf(s, e));
  }

  lemma CancelWriteFacts(s: State, c: nat)
    requires Inv(s) && Enabled(s, CancelWrite(c))
    ensures StepFacts(s, CancelWrite(c), Next(s, CancelWrite(c)))
  {
    var j := s.cancellers[c];
    assert CopyOk(s.jobs, j) && EntryOk(j.id, s.jobs[j.id]);
    OneEntry(s, CancelWrite(c), Next(s, CancelWrite(c)), j.id);
  }

  lemma CancelWholeFacts(s: State, id: Uuid)
    requires Inv(s) && Enabled(s, CancelWhole(id))
    ensures StepFacts(s, CancelWhole(id), Next(s, CancelWhole(id)))
  {
    assert EntryOk(id, s.jobs[id]);
    OneEntry(s, CancelWhole(id), Next(s, CancelWhole(id)), id);
  }

  /** A step that adds a row, or touches no row. */
  lemma OldEntriesStay(s: State, e: Event, t: State)
    requires forall id :: id in s.jobs ==> EntryOk(id, s.jobs[id])
    requires forall id :: id in s.jobs ==> id in t.jobs && t.jobs[id] == s.jobs[id]
    requires forall id :: id in t.jobs && id !in s.jobs ==> Appears(s, t.jobs[id])
    requires forall c :: c in t.cancellers ==> CopyComesFrom(s, e, t, c)
    requires !e.Claim?
    ensures StepFacts(s, e, t)
  {
  }

  lemma NewEntry(s: State, e: Event, t: State, id: Uuid)
    requires forall x :: x in s.jobs ==> EntryOk(x, s.jobs[x])
    requires id !in s.jobs && id in t.jobs && t.jobs == s.jobs[id := t.jobs[id]] && t.cancellers == s.cancellers
    requires Appears(s, t.jobs[id]) && !e.Claim?
    ensures StepFacts(s, e, t)
  {
    OldEntriesStay(s, e, t);
  }

  lemma CancelReadCopies(s: State, c: nat, id: Uuid)
    requires Enabled(s, CancelRead(c, id)) && EntryOk(id, s.jobs[id])
    ensures var t := Next(s, CancelRead(c, id));
            && t.jobs == s.jobs
            && forall d :: d in t.cancellers ==> CopyComesFrom(s, CancelRead(c, id), t, d)
  {
  }

  lemma CancelReadFacts(s: State, c: nat, id: Uuid)
    requires Inv(s) && Enabled(s, CancelRead(c, id))
    ensures StepFacts(s, CancelRead(c, id), Next(s, CancelRead(c, id)))
  {
    CancelReadCopies(s, c, id);
    OldEntriesStay(s, CancelRead(c, id), Next(s, CancelRead(c, id)));
  }

  lemma SubmitFacts(s: State, e: Event)
    requires Inv(s) && Enabled(s, e) && e.Submit?
    ensures StepFacts(s, e, Next(s, e))
  {
    var t := Next(s, e);
    assert Appears(s, t.jobs[e.id]);
    NewEntry(s, e, t, e.id);
  }

  lemma RetrySaveAppears(s: State, r: nat, copy: Uuid)
    requires Enabled(s, RetrySave(r, copy))
    ensures var t := Next(s, RetrySave(r, copy));
            copy !in s.jobs && t.jobs == s.jobs[copy := t.jobs[copy]] && t.cancellers == s.cancellers
            && Appears(s, t.jobs[copy])
  {
    var t := Next(s, RetrySave(r, copy));
    var original := s.retriers[r].id;
    assert original in s.jobs && t.jobs[copy].lineage == s.jobs[original].lineage + [original];
  }

  lemma RetrySaveFacts(s: State, r: nat, copy: Uuid)
    requires Inv(s) && Enabled(s, RetrySave(r, copy))
    ensures StepFacts(s, RetrySave(r, copy), Next(s, RetrySave(r, copy)))
  {
    RetrySaveAppears(s, r, copy);
    NewEntry(s, RetrySave(r, copy), Next(s, RetrySave(r, copy)), copy);
  }

  lemma QuietFacts(s: State, e: Event)
    requires Inv(s) && Enabled(s, e) && (e.Tick? || e.Register? || e.SetActive? || e.RetryRead?)
    ensures StepFacts(s, e, Next(s, e))
  {
    var t := Next(s, e);
    assert t.jobs == s.jobs && t.cancellers == s.cancellers;
    OldEntriesStay(s, e, t);
  }

  lemma StepFactsHold(s: State, e: Event)
    requires Inv(s) && Enabled(s, e)
    ensures StepFacts(s, e, Next(s, e))
  {
    match e
    case Tick(_) => QuietFacts(s, e);
    case Register(_, _) => QuietFacts(s, e);
    case SetActive(_, _) => QuietFacts(s, e);
    case RetryRead(_, _) => QuietFacts(s, e);
    case Submit(_, _, _, _, _) => SubmitFacts(s, e);
    case RetrySave(r, copy) => RetrySaveFacts(s, r, copy);
    case Claim(_, _) => WorkerFacts(s, e);
    case LookUp(_) => WorkerFacts(s, e);
    case WriteMissing(_) => WorkerFacts(s, e);
    case Finish(_, _) => WorkerFacts(s, e);
    case Record(_) => WorkerFacts(s, e);
    case CancelRead(c, id) => CancelReadFacts(s, c, id);
    case CancelWrite(c) => CancelWriteFacts(s, c);
    case CancelWhole(id) => CancelWholeFacts(s, id);
  }

  /** A run seen through its step facts only. */
  ghost predicate History(states: seq<State>, events: seq<Event>) {
    && |states| == |events| + 1
    && states[0].jobs == map[] && states[0].cancellers == map[]
    && (forall i :: 0 <= i < |events| ==> StepFacts(states[i], events[i], states[i + 1]))
  }

  lemma RunIsHistory(states: seq<State>, events: seq<Event>)
    requires IsRun(states, events)
    ensures History(states, events)
  {
    forall i | 0 <= i < |events|
      ensures StepFacts(states[i], events[i], states[i + 1])
    {
      RunKeepsInv(states, events, i);
      StepFactsHold(states[i], events[i]);
    }
  }
}
