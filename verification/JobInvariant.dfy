/** Every event keeps the protocol's invariant, so every state of every run satisfies it. */
module JobInvariant {
  import opened Prelude
  import opened ScrapingJobs
  import opened JobProtocol

  // ------------------------------------------- changing one row and one worker at a time

  /** The worker a job's history says it is with. */
  function Holder(phase: Phase): Option<nat> {
    match phase
    case Working(w) => Some(w)
    case Failing(w) => Some(w)
    case Window(w, _) => Some(w)
    case _ => None
  }

  /** A row may be replaced only by one of the same identity. */
  predicate Replaces(jobs: Table, id: Uuid, e: Entry) {
    id in jobs ==> SameIdentity(jobs[id].row, e.row)
  }

  /** Copies held in memory stay faithful when a row is replaced. */
  lemma CopySurvives(jobs: Table, id: Uuid, e: Entry, j: Job)
    requires CopyOk(jobs, j) && Replaces(jobs, id, e)
    ensures CopyOk(jobs[id := e], j)
  {
  }

  lemma CopiesSurvive(s: State, t: State, id: Uuid, e: Entry)
    requires CopiesOk(s) && Replaces(s.jobs, id, e)
    requires t.jobs == s.jobs[id := e]
    requires t.cancellers.Keys <= s.cancellers.Keys && t.retriers.Keys <= s.retriers.Keys
    requires forall c :: c in t.cancellers ==> t.cancellers[c] == s.cancellers[c]
    requires forall r :: r in t.retriers ==> t.retriers[r] == s.retriers[r]
    ensures CopiesOk(t)
  {
    forall c | c in t.cancellers
      ensures CopyOk(t.jobs, t.cancellers[c])
    {
      CopySurvives(s.jobs, id, e, s.cancellers[c]);
    }
    forall r | r in t.retriers
      ensures CopyOk(t.jobs, t.retriers[r])
    {
      CopySurvives(s.jobs, id, e, s.retriers[r]);
    }
  }

  /** A worker other than the one that acts keeps what it holds. */
  lemma OtherWorkerSurvives(jobs: Table, id: Uuid, e: Entry, v: nat, k: Worker)
    requires WorkerOk(jobs, v, k) && Replaces(jobs, id, e)
    requires id in jobs && jobs[id].phase != e.phase ==> Holder(jobs[id].phase) != Some(v)
    ensures WorkerOk(jobs[id := e], v, k)
  {
  }

  /** A worker's step: it touches its own job, or one that nobody has claimed. */
  lemma WorkerStep(s: State, t: State, w: nat, k: Worker, id: Uuid, e: Entry)
    requires JobsOk(s) && WorkersOk(s)
    requires t.jobs == s.jobs[id := e] && t.workers == s.workers[w := k]
    requires t.sources.Keys == s.sources.Keys
    requires id in s.jobs && Replaces(s.jobs, id, e)
    requires Holder(s.jobs[id].phase) in {None, Some(w)}
    requires WorkerAt(s.workers, w).Idle? || Holder(s.jobs[id].phase) == Some(w)
    requires EntryOk(id, e) && HolderOk(id, e.phase, t.workers) && WorkerOk(t.jobs, w, k)
    ensures JobsOk(t) && WorkersOk(t)
  {
    forall other | other in t.jobs
      ensures EntryOk(other, t.jobs[other]) && HolderOk(other, t.jobs[other].phase, t.workers)
    {
      if other != id {
        assert HolderOk(other, s.jobs[other].phase, s.workers);
        assert HolderOk(id, s.jobs[id].phase, s.workers);
      }
    }
    forall v | v in t.workers
      ensures WorkerOk(t.jobs, v, t.workers[v])
    {
      if v != w {
        OtherWorkerSurvives(s.jobs, id, e, v, s.workers[v]);
      }
    }
  }

  /** A step that leaves every worker and every phase alone, or adds an unclaimed row. */
  lemma TableStep(s: State, t: State, id: Uuid, e: Entry)
    requires JobsOk(s) && WorkersOk(s)
    requires t.jobs == s.jobs[id := e] && t.workers == s.workers && t.sources == s.sources
    requires Replaces(s.jobs, id, e) && e.row.source in s.sources
    requires if id in s.jobs then e.phase == s.jobs[id].phase else e.phase.Waiting?
    requires EntryOk(id, e)
    ensures JobsOk(t) && WorkersOk(t)
  {
    forall v | v in t.workers
      ensures WorkerOk(t.jobs, v, t.workers[v])
    {
      OtherWorkerSurvives(s.jobs, id, e, v, s.workers[v]);
    }
  }

  /** The tallies only see a job that becomes, or stops being, recorded. */
  lemma TalliesSurvive(s: State, t: State, id: Uuid, e: Entry)
    requires CountersOk(s) && Replaces(s.jobs, id, e)
    requires t.jobs == s.jobs[id := e] && t.sources == s.sources
    requires !e.phase.Recorded? && (id in s.jobs ==> !s.jobs[id].phase.Recorded?)
    ensures CountersOk(t)
  {
    forall sid | sid in t.sources
      ensures TallyOk(t.jobs, sid, t.sources[sid])
    {
      assert CountedAs(t.jobs, sid, true) == CountedAs(s.jobs, sid, true);
      assert CountedAs(t.jobs, sid, false) == CountedAs(s.jobs, sid, false);
    }
  }

  /** A cancel rewrites a row that may already be recorded; it stays recorded. */
  lemma TalliesSurviveCancel(s: State, t: State, id: Uuid, e: Entry)
    requires CountersOk(s) && id in s.jobs && Replaces(s.jobs, id, e)
    requires t.jobs == s.jobs[id := e] && t.sources == s.sources && e.phase == s.jobs[id].phase
    ensures CountersOk(t)
  {
    forall sid | sid in t.sources
      ensures TallyOk(t.jobs, sid, t.sources[sid])
    {
      assert CountedAs(t.jobs, sid, true) == CountedAs(s.jobs, sid, true);
      assert CountedAs(t.jobs, sid, false) == CountedAs(s.jobs, sid, false);
    }
  }

  // ---------------------------------------------------------------- the events

  /** Worker w moves, with the entry of one job that is its own or nobody's. */
  ghost predicate WorkerMoves(s: State, t: State, w: nat, id: Uuid) {
    && id in s.jobs && id in t.jobs && t.jobs == s.jobs[id := t.jobs[id]]
    && w in t.workers && t.workers == s.workers[w := t.workers[w]]
    && t.sources.Keys == s.sources.Keys && t.cancellers == s.cancellers && t.retriers == s.retriers
    && Replaces(s.jobs, id, t.jobs[id]) && !s.jobs[id].phase.Recorded?
    && Holder(s.jobs[id].phase) in {None, Some(w)}
    && (WorkerAt(s.workers, w).Idle? || Holder(s.jobs[id].phase) == Some(w))
    && EntryOk(id, t.jobs[id]) && HolderOk(id, t.jobs[id].phase, t.workers) && WorkerOk(t.jobs, w, t.workers[w])
  }

  lemma MoveKeeps(s: State, t: State, w: nat, id: Uuid)
    requires JobsOk(s) && WorkersOk(s) && CopiesOk(s) && WorkerMoves(s, t, w, id)
    ensures JobsOk(t) && WorkersOk(t) && CopiesOk(t)
  {
    WorkerStep(s, t, w, t.workers[w], id, t.jobs[id]);
    CopiesSurvive(s, t, id, t.jobs[id]);
  }

  lemma UncountedMoveKeeps(s: State, t: State, w: nat, id: Uuid)
    requires Inv(s) && WorkerMoves(s, t, w, id) && t.sources == s.sources && !t.jobs[id].phase.Recorded?
    ensures Inv(t)
  {
    MoveKeeps(s, t, w, id);
    TalliesSurvive(s, t, id, t.jobs[id]);
  }

  lemma ClaimMoves(s: State, w: nat, id: Uuid)
    requires Enabled(s, Claim(w, id)) && EntryOk(id, s.jobs[id])
    ensures WorkerMoves(s, Next(s, Claim(w, id)), w, id)
  {
  }

  lemma ClaimKeeps(s: State, w: nat, id: Uuid)
    requires Inv(s) && Enabled(s, Claim(w, id))
    ensures Inv(Next(s, Claim(w, id)))
  {
    ClaimMoves(s, w, id);
    UncountedMoveKeeps(s, Next(s, Claim(w, id)), w, id);
  }

  lemma LookUpMoves(s: State, w: nat, j: Job)
    requires Enabled(s, LookUp(w)) && s.workers[w] == Claimed(j) && WorkerOk(s.jobs, w, Claimed(j))
    requires EntryOk(j.id, s.jobs[j.id])
    ensures WorkerMoves(s, Next(s, LookUp(w)), w, j.id)
  {
    var t := Next(s, LookUp(w));
    assert t.jobs == s.jobs[j.id := t.jobs[j.id]];
  }

  lemma LookUpKeeps(s: State, w: nat)
    requires Inv(s) && Enabled(s, LookUp(w))
    ensures Inv(Next(s, LookUp(w)))
  {
    var j := s.workers[w].job;
    assert WorkerOk(s.jobs, w, s.workers[w]) && EntryOk(j.id, s.jobs[j.id]);
    LookUpMoves(s, w, j);
    UncountedMoveKeeps(s, Next(s, LookUp(w)), w, j.id);
  }

  lemma WriteMissingMoves(s: State, w: nat, j: Job)
    requires Enabled(s, WriteMissing(w)) && s.workers[w] == Missing(j) && WorkerOk(s.jobs, w, Missing(j))
    requires EntryOk(j.id, s.jobs[j.id])
    ensures WorkerMoves(s, Next(s, WriteMissing(w)), w, j.id)
  {
  }

  lemma WriteMissingKeeps(s: State, w: nat)
    requires Inv(s) && Enabled(s, WriteMissing(w))
    ensures Inv(Next(s, WriteMissing(w)))
  {
    var j := s.workers[w].job;
    assert WorkerOk(s.jobs, w, s.workers[w]) && EntryOk(j.id, s.jobs[j.id]);
    WriteMissingMoves(s, w, j);
    UncountedMoveKeeps(s, Next(s, WriteMissing(w)), w, j.id);
  }

  lemma FinishMoves(s: State, w: nat, j: Job, outcome: Outcome)
    requires Enabled(s, Finish(w, outcome)) && s.workers[w] == Scraping(j) && WorkerOk(s.jobs, w, Scraping(j))
    requires EntryOk(j.id, s.jobs[j.id])
    ensures WorkerMoves(s, Next(s, Finish(w, outcome)), w, j.id)
  {
  }

  lemma FinishKeeps(s: State, w: nat, outcome: Outcome)
    requires Inv(s) && Enabled(s, Finish(w, outcome))
    ensures Inv(Next(s, Finish(w, outcome)))
  {
    var j := s.workers[w].job;
    assert WorkerOk(s.jobs, w, s.workers[w]) && EntryOk(j.id, s.jobs[j.id]);
    FinishMoves(s, w, j, outcome);
    UncountedMoveKeeps(s, Next(s, Finish(w, outcome)), w, j.id);
  }

  lemma RecordMoves(s: State, w: nat)
    requires Enabled(s, Record(w)) && WorkerOk(s.jobs, w, s.workers[w])
    requires EntryOk(s.workers[w].id, s.jobs[s.workers[w].id])
    ensures WorkerMoves(s, Next(s, Record(w)), w, s.workers[w].id)
  {
  }

  lemma RecordKeeps(s: State, w: nat)
    requires Inv(s) && Enabled(s, Record(w))
    ensures Inv(Next(s, Record(w)))
  {
    var t := Next(s, Record(w));
    var c := s.workers[w];
    assert WorkerOk(s.jobs, w, c) && EntryOk(c.id, s.jobs[c.id]);
    RecordMoves(s, w);
    MoveKeeps(s, t, w, c.id);
    RecordTallies(s, t, c, t.jobs[c.id]);
  }

  lemma RecordTallies(s: State, t: State, c: Worker, e: Entry)
    requires CountersOk(s) && c.Counting? && c.id in s.jobs && c.source in s.sources
    requires !s.jobs[c.id].phase.Recorded? && s.jobs[c.id].row.source == c.source
    requires e == s.jobs[c.id].(phase := Recorded(c.success))
    requires t.jobs == s.jobs[c.id := e]
    requires t.sources == s.sources[c.source := Counted(s.sources[c.source], c.success)]
    ensures CountersOk(t)
  {
    forall sid | sid in t.sources
      ensures TallyOk(t.jobs, sid, t.sources[sid])
    {
      assert TallyOk(s.jobs, sid, s.sources[sid]);
      RecordedOne(s.jobs, c.id, e, sid, true);
      RecordedOne(s.jobs, c.id, e, sid, false);
    }
  }

  /** Recording a job adds it to one tally of its own source. */
  lemma RecordedOne(jobs: Table, id: Uuid, e: Entry, sid: Uuid, ok: bool)
    requires id in jobs && !jobs[id].phase.Recorded? && e.phase.Recorded? && e.row == jobs[id].row
    ensures |CountedAs(jobs[id := e], sid, ok)|
         == |CountedAs(jobs, sid, ok)| + if sid == e.row.source && e.phase.ok == ok then 1 else 0
  {
    var before, after := CountedAs(jobs, sid, ok), CountedAs(jobs[id := e], sid, ok);
    if sid == e.row.source && e.phase.ok == ok {
      assert after == before + {id};
    } else {
      assert after == before;
    }
  }

  /** A step that only moves copies keeps whatever is said about the tables. */
  lemma OnlyCopiesMove(s: State, t: State)
    requires Inv(s) && t.jobs == s.jobs && t.workers == s.workers && t.sources == s.sources && CopiesOk(t)
    ensures Inv(t)
  {
  }

  lemma CancellerReads(s: State, t: State, c: nat, j: Job)
    requires CopiesOk(s) && CopyOk(s.jobs, j) && j.status.Cancelled?
    requires t.jobs == s.jobs && t.cancellers == s.cancellers[c := j] && t.retriers == s.retriers
    ensures CopiesOk(t)
  {
  }

  lemma RetrierReads(s: State, t: State, r: nat, j: Job)
    requires CopiesOk(s) && CopyOk(s.jobs, j) && CanRetry(j)
    requires t.jobs == s.jobs && t.cancellers == s.cancellers && t.retriers == s.retriers[r := j]
    ensures CopiesOk(t)
  {
  }

  lemma FaithfulCopy(jobs: Table, id: Uuid, j: Job)
    requires id in jobs && EntryOk(id, jobs[id])
    requires j == jobs[id].row || Some(j) == AfterCancel(jobs[id].row)
    ensures CopyOk(jobs, j)
  {
  }

  lemma CancelReadKeeps(s: State, c: nat, id: Uuid)
    requires Inv(s) && Enabled(s, CancelRead(c, id))
    ensures Inv(Next(s, CancelRead(c, id)))
  {
    var j := AfterCancel(s.jobs[id].row).value;
    FaithfulCopy(s.jobs, id, j);
    var t := s.(cancellers := s.cancellers[c := j]);
    CancellerReads(s, t, c, j);
    OnlyCopiesMove(s, t);
  }

  lemma CancelWriteKeeps(s: State, c: nat)
    requires Inv(s) && Enabled(s, CancelWrite(c))
    ensures Inv(Next(s, CancelWrite(c)))
  {
    var j := s.cancellers[c];
    assert CopyOk(s.jobs, j);
    OverwriteKeeps(s, Next(s, CancelWrite(c)), j);
  }

  lemma CancelWholeKeeps(s: State, id: Uuid)
    requires Inv(s) && Enabled(s, CancelWhole(id))
    ensures Inv(Next(s, CancelWhole(id)))
  {
    assert EntryOk(id, s.jobs[id]);
    OverwriteKeeps(s, Next(s, CancelWhole(id)), AfterCancel(s.jobs[id].row).value);
  }

  lemma OverwriteKeeps(s: State, t: State, j: Job)
    requires Inv(s) && CopyOk(s.jobs, j) && j.status.Cancelled?
    requires t.jobs == s.jobs[j.id := Overwritten(s.jobs[j.id], j)]
    requires t.workers == s.workers && t.sources == s.sources && t.retriers == s.retriers
    requires t.cancellers.Keys <= s.cancellers.Keys
    requires forall c :: c in t.cancellers ==> t.cancellers[c] == s.cancellers[c]
    ensures Inv(t)
  {
    var e := t.jobs[j.id];
    assert EntryOk(j.id, s.jobs[j.id]);
    TableStep(s, t, j.id, e);
    CopiesSurvive(s, t, j.id, e);
    TalliesSurviveCancel(s, t, j.id, e);
  }

  lemma InsertKeeps(s: State, t: State, id: Uuid, e: Entry)
    requires Inv(s) && id !in s.jobs && EntryOk(id, e) && e.phase.Waiting? && e.row.source in s.sources
    requires t.jobs == s.jobs[id := e]
    requires t.workers == s.workers && t.sources == s.sources && t.cancellers == s.cancellers
    requires t.retriers.Keys <= s.retriers.Keys
    requires forall r :: r in t.retriers ==> t.retriers[r] == s.retriers[r]
    ensures Inv(t)
  {
    TableStep(s, t, id, e);
    CopiesSurvive(s, t, id, e);
    TalliesSurvive(s, t, id, e);
  }

  lemma SubmitKeeps(s: State, e: Event)
    requires Inv(s) && Enabled(s, e) && e.Submit?
    ensures Inv(Next(s, e))
  {
    InsertKeeps(s, Next(s, e), e.id, Next(s, e).jobs[e.id]);
  }

  lemma RetryReadKeeps(s: State, r: nat, id: Uuid)
    requires Inv(s) && Enabled(s, RetryRead(r, id))
    ensures Inv(Next(s, RetryRead(r, id)))
  {
    FaithfulCopy(s.jobs, id, s.jobs[id].row);
    var t := s.(retriers := s.retriers[r := s.jobs[id].row]);
    RetrierReads(s, t, r, s.jobs[id].row);
    OnlyCopiesMove(s, t);
  }

  lemma RetrySaveKeeps(s: State, r: nat, copy: Uuid)
    requires Inv(s) && Enabled(s, RetrySave(r, copy))
    ensures Inv(Next(s, RetrySave(r, copy)))
  {
    var t := Next(s, RetrySave(r, copy));
    var original := s.retriers[r];
    assert CopyOk(s.jobs, original) && CanRetry(original) && EntryOk(original.id, s.jobs[original.id]);
    InsertKeeps(s, t, copy, t.jobs[copy]);
  }

  lemma SourceEventKeeps(s: State, e: Event)
    requires Inv(s) && Enabled(s, e) && (e.Tick? || e.Register? || e.SetActive?)
    ensures Inv(Next(s, e))
  {
    var t := Next(s, e);
    if e.Register? {
      assert CountedAs(t.jobs, e.sid, true) == {} && CountedAs(t.jobs, e.sid, false) == {};
    }
    forall sid | sid in t.sources
      ensures TallyOk(t.jobs, sid, t.sources[sid])
    {
      assert sid in s.sources ==> TallyOk(s.jobs, sid, s.sources[sid]);
    }
  }

  /** Every atomic step, by whomever, keeps the invariant. */
  lemma StepKeepsInv(s: State, e: Event)
    requires Inv(s) && Enabled(s, e)
    ensures Inv(Next(s, e))
  {
    match e
    case Tick(_) => SourceEventKeeps(s, e);
    case Register(_, _) => SourceEventKeeps(s, e);
    case SetActive(_, _) => SourceEventKeeps(s, e);
    case Submit(_, _, _, _, _) => SubmitKeeps(s, e);
    case RetryRead(r, id) => RetryReadKeeps(s, r, id);
    case RetrySave(r, copy) => RetrySaveKeeps(s, r, copy);
    case Claim(w, id) => ClaimKeeps(s, w, id);
    case LookUp(w) => LookUpKeeps(s, w);
    case WriteMissing(w) => WriteMissingKeeps(s, w);
    case Finish(w, outcome) => FinishKeeps(s, w, outcome);
    case Record(w) => RecordKeeps(s, w);
    case CancelRead(c, id) => CancelReadKeeps(s, c, id);
    case CancelWrite(c) => CancelWriteKeeps(s, c);
    case CancelWhole(id) => CancelWholeKeeps(s, id);
  }

  /** Every state of every run satisfies the invariant. */
  lemma {:induction false} RunKeepsInv(states: seq<State>, events: seq<Event>, i: nat)
    requires IsRun(states, events) && i < |states|
    ensures Inv(states[i])
  {
    if i > 0 {
      RunKeepsInv(states, events, i - 1);
      StepKeepsInv(states[i - 1], events[i - 1]);
    }
  }
}
