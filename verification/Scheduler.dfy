/** The scheduler's tick: it submits the jobs of every source that is due and moves their next run on. */
module Scheduling {
  import opened Prelude
  import opened ScrapingJobs
  import opened JobProtocol
  import opened ScrapeUseCases

  /** What the scheduler reads of a source besides its row in the protocol. */
  datatype Timing = Timing(cron: string, nextRunAt: Option<Time>, maxPages: int)

  /** A cron expression, if it parses, gives the next run after a time. */
  type Cron = string -> Option<Time -> Time>

  const FALLBACK_MINUTES := 10

  predicate IsDue(src: JobProtocol.Source, t: Timing, now: Time) {
    src.active && t.cron != "" && (t.nextRunAt.None? || t.nextRunAt.value <= now)
  }

  function DueIds(sources: map<Uuid, JobProtocol.Source>, timings: map<Uuid, Timing>, now: Time): set<Uuid> {
    set sid | sid in sources && sid in timings && IsDue(sources[sid], timings[sid], now)
  }

  /** One job without a page, or one for each page. */
  function PagesOf(maxPages: int): seq<int> {
    if maxPages <= 0 then [0] else seq(maxPages, i => i + 1)
  }

  function NextRun(expr: string, now: Time, cron: Cron): Time {
    if expr == "" || cron(expr).None? then now + FALLBACK_MINUTES else cron(expr).value(now)
  }

  function Advanced(t: Timing, now: Time, cron: Cron): Timing {
    t.(nextRunAt := Some(NextRun(t.cron, now, cron)))
  }

  /** The jobs of one source, numbered from an identifier on. */
  function Submissions(sid: Uuid, tenant: Uuid, pages: seq<int>, first: Uuid): seq<Event> {
    seq(|pages|, i requires 0 <= i < |pages| => Submit(first + i, tenant, sid, Scheduled, pages[i]))
  }

  /** The jobs of a tick, source after source. */
  function Plan(due: seq<Uuid>, sources: map<Uuid, JobProtocol.Source>, timings: map<Uuid, Timing>,
                first: Uuid): seq<Event>
    requires forall sid :: sid in due ==> sid in sources && sid in timings
  {
    if due == [] then []
    else
      var n := |due| - 1;
      var before := Plan(due[..n], sources, timings, first);
      before + Submissions(due[n], sources[due[n]].tenant, PagesOf(timings[due[n]].maxPages), first + |before|)
  }

  ghost predicate IsPlanned(plan: seq<Event>, sid: Uuid, page: int) {
    exists i :: 0 <= i < |plan| && plan[i].Submit? && plan[i].sid == sid && plan[i].page == page
  }

  lemma SubmissionsCover(sid: Uuid, tenant: Uuid, pages: seq<int>, first: Uuid, other: Uuid, page: int)
    ensures IsPlanned(Submissions(sid, tenant, pages, first), other, page) <==> other == sid && page in pages
  {
    var subs := Submissions(sid, tenant, pages, first);
    if other == sid && page in pages {
      var i :| 0 <= i < |pages| && pages[i] == page;
      assert subs[i].sid == sid && subs[i].page == page;
    }
  }

  lemma PlannedInTwo(a: seq<Event>, b: seq<Event>, sid: Uuid, page: int)
    ensures IsPlanned(a + b, sid, page) <==> IsPlanned(a, sid, page) || IsPlanned(b, sid, page)
  {
    if IsPlanned(a, sid, page) {
      var i :| 0 <= i < |a| && a[i].Submit? && a[i].sid == sid && a[i].page == page;
      assert (a + b)[i] == a[i];
    }
    if IsPlanned(b, sid, page) {
      var i :| 0 <= i < |b| && b[i].Submit? && b[i].sid == sid && b[i].page == page;
      assert (a + b)[|a| + i] == b[i];
    }
    if IsPlanned(a + b, sid, page) {
      var i :| 0 <= i < |a + b| && (a + b)[i].Submit? && (a + b)[i].sid == sid && (a + b)[i].page == page;
      assert i < |a| ==> a[i] == (a + b)[i];
      assert i >= |a| ==> b[i - |a|] == (a + b)[i];
    }
  }

  /** A tick submits a job for a page of a source exactly when the source is due and has that page. */
  lemma {:induction false} PlanIsExact(due: seq<Uuid>, sources: map<Uuid, JobProtocol.Source>,
                                       timings: map<Uuid, Timing>, first: Uuid, sid: Uuid, page: int)
    requires forall id :: id in due ==> id in sources && id in timings
    ensures IsPlanned(Plan(due, sources, timings, first), sid, page)
       <==> sid in due && page in PagesOf(timings[sid].maxPages)
  {
    if due != [] {
      var n := |due| - 1;
      var before := Plan(due[..n], sources, timings, first);
      PlanIsExact(due[..n], sources, timings, first, sid, page);
      SubmissionsCover(due[n], sources[due[n]].tenant, PagesOf(timings[due[n]].maxPages), first + |before|, sid, page);
      var added := Submissions(due[n], sources[due[n]].tenant, PagesOf(timings[due[n]].maxPages), first + |before|);
      PlannedInTwo(before, added, sid, page);
      assert due == due[..n] + [due[n]];
    }
  }

  predicate DifferentPages(plan: seq<Event>) {
    forall i, j :: 0 <= i < j < |plan| && plan[i].Submit? && plan[j].Submit? ==>
                     plan[i].sid != plan[j].sid || plan[i].page != plan[j].page
  }

  /** No page of a source gets two jobs in one tick. */
  lemma {:induction false} PlanSubmitsOnce(due: seq<Uuid>, sources: map<Uuid, JobProtocol.Source>,
                                           timings: map<Uuid, Timing>, first: Uuid)
    requires forall id :: id in due ==> id in sources && id in timings
    requires Distinct(due)
    ensures DifferentPages(Plan(due, sources, timings, first))
  {
    if due != [] {
      var n := |due| - 1;
      var before := Plan(due[..n], sources, timings, first);
      var subs := Submissions(due[n], sources[due[n]].tenant, PagesOf(timings[due[n]].maxPages), first + |before|);
      PlanSubmitsOnce(due[..n], sources, timings, first);
      forall i | 0 <= i < |before| && before[i].Submit?
        ensures before[i].sid != due[n]
      {
        assert IsPlanned(before, before[i].sid, before[i].page);
        PlanIsExact(due[..n], sources, timings, first, before[i].sid, before[i].page);
      }
      assert forall i :: 0 <= i < |subs| ==> subs[i].sid == due[n];
    }
  }

  // ---------------------------------------------------------------- the tick

  class Timetable {
    var rows: map<Uuid, Timing>

    constructor (rows: map<Uuid, Timing>)
      ensures this.rows == rows
    {
      this.rows := rows;
    }

    /** FindDueForScraping: the due sources in some order. */
    method FindDue(sources: map<Uuid, JobProtocol.Source>, now: Time) returns (due: seq<Uuid>)
      ensures forall sid :: sid in due <==> sid in DueIds(sources, rows, now)
      ensures Distinct(due)
    {
      var rest := DueIds(sources, rows, now);
      due := [];
      while rest != {}
        invariant forall sid :: sid in due || sid in rest <==> sid in DueIds(sources, rows, now)
        invariant forall sid :: sid in due ==> sid !in rest
        invariant Distinct(due)
        decreases rest
      {
        var sid :| sid in rest;
        due, rest := due + [sid], rest - {sid};
      }
    }

    /** advanceNextRunAt. */
    method Advance(sid: Uuid, now: Time, cron: Cron)
      requires sid in rows
      modifies this
      ensures rows == old(rows)[sid := Advanced(old(rows)[sid], now, cron)]
    {
      var expr := rows[sid].cron;
      var next: Time;
      if expr == "" || cron(expr).None? {
        next := now + FALLBACK_MINUTES;
      } else {
        next := cron(expr).value(now);
      }
      rows := rows[sid := rows[sid].(nextRunAt := Some(next))];
    }
  }

  /** All identifiers from there on are unused. */
  predicate UnusedFrom(jobs: map<Uuid, Job>, id: Uuid) {
    forall used :: used in jobs ==> used < id
  }

  /** createJob, with an identifier that no job has. */
  method CreateJob(jobs: JobTable, sid: Uuid, tenant: Uuid, page: int, id: Uuid, now: Time, ghost s: State)
    returns (ghost end: State)
    requires Matches(s, jobs.rows, s.sources) && s.clock == now && sid in s.sources && UnusedFrom(jobs.rows, id)
    modifies jobs
    ensures Steps(s, [Submit(id, tenant, sid, Scheduled, page)], end)
    ensures Matches(end, jobs.rows, s.sources) && end.clock == now && UnusedFrom(jobs.rows, id + 1)
    ensures jobs.rows
         == old(jobs.rows)[id := Job(id, tenant, sid, Pending, Scheduled, page, 0, 0, "", None, None, now, 0, 3)]
  {
    var job := NewJob(id, tenant, sid, Scheduled, page, now);
    var _ := jobs.Save(job);
    end := Next(s, Submit(id, tenant, sid, Scheduled, page));
    assert Steps(end, [], end);
  }

  /** The jobs of one source: a single one, or one for each page from 1 to the maximum. */
  method ScheduleSource(jobs: JobTable, sid: Uuid, tenant: Uuid, maxPages: int, first: Uuid, now: Time, ghost s: State)
    returns (next: Uuid, ghost end: State)
    requires Matches(s, jobs.rows, s.sources) && s.clock == now && sid in s.sources && UnusedFrom(jobs.rows, first)
    modifies jobs
    ensures Steps(s, Submissions(sid, tenant, PagesOf(maxPages), first), end)
    ensures Matches(end, jobs.rows, s.sources) && end.clock == now
    ensures next == first + |PagesOf(maxPages)| && UnusedFrom(jobs.rows, next)
  {
    ghost var subs := Submissions(sid, tenant, PagesOf(maxPages), first);
    if maxPages <= 0 {
      end := CreateJob(jobs, sid, tenant, 0, first, now, s);
      next := first + 1;
      assert subs == [Submit(first, tenant, sid, Scheduled, 0)];
      return;
    }
    next, end := first, s;
    for page := 1 to maxPages + 1
      invariant next == first + page - 1 && UnusedFrom(jobs.rows, next)
      invariant Matches(end, jobs.rows, s.sources) && end.clock == now
      invariant Steps(s, subs[..page - 1], end)
    {
      ghost var before := end;
      end := CreateJob(jobs, sid, tenant, page, next, now, before);
      StepsThenSteps(s, subs[..page - 1], before, [subs[page - 1]], end);
      assert subs[..page - 1] + [subs[page - 1]] == subs[..page];
      next := next + 1;
    }
    assert subs[..maxPages] == subs;
  }

  /** The timetable after the sources in due were served. */
  function Served(timings: map<Uuid, Timing>, due: seq<Uuid>, now: Time, cron: Cron): map<Uuid, Timing> {
    map sid | sid in timings :: if sid in due then Advanced(timings[sid], now, cron) else timings[sid]
  }

  lemma ServedGrows(timings: map<Uuid, Timing>, due: seq<Uuid>, n: nat, now: Time, cron: Cron)
    requires n < |due| && due[n] in timings && due[n] !in due[..n]
    ensures var before := Served(timings, due[..n], now, cron);
            Served(timings, due[..n + 1], now, cron) == before[due[n] := Advanced(before[due[n]], now, cron)]
    ensures Served(timings, due[..n], now, cron)[due[n]] == timings[due[n]]
  {
    assert due[..n + 1] == due[..n] + [due[n]];
  }

  /** The tick's jobs so far: the plan for the sources served, carried out from s to end. */
  ghost predicate IsServed(s: State, end: State, due: seq<Uuid>, timings: map<Uuid, Timing>, first: Uuid, next: Uuid) {
    && (forall sid :: sid in due ==> sid in s.sources && sid in timings)
    && next == first + |Plan(due, s.sources, timings, first)|
    && Steps(s, Plan(due, s.sources, timings, first), end)
  }

  lemma ServesOneMore(s: State, before: State, end: State, due: seq<Uuid>, n: nat, timings: map<Uuid, Timing>,
                      first: Uuid, next: Uuid)
    requires n < |due| && due[n] in s.sources && due[n] in timings
    requires IsServed(s, before, due[..n], timings, first, next)
    requires Steps(before, Submissions(due[n], s.sources[due[n]].tenant, PagesOf(timings[due[n]].maxPages), next), end)
    ensures IsServed(s, end, due[..n + 1], timings, first, next + |PagesOf(timings[due[n]].maxPages)|)
  {
    assert due[..n + 1] == due[..n] + [due[n]];
    PlanGrows(due, n, s.sources, timings, first);
    StepsThenSteps(s, Plan(due[..n], s.sources, timings, first), before,
                   Submissions(due[n], s.sources[due[n]].tenant, PagesOf(timings[due[n]].maxPages), next), end);
  }

  lemma PlanGrows(due: seq<Uuid>, n: nat, sources: map<Uuid, JobProtocol.Source>, timings: map<Uuid, Timing>,
                  first: Uuid)
    requires n < |due| && forall sid :: sid in due[..n + 1] ==> sid in sources && sid in timings
    requires forall sid :: sid in due[..n] ==> sid in sources && sid in timings
    ensures due[n] in sources && due[n] in timings
    ensures var plan := Plan(due[..n], sources, timings, first);
            Plan(due[..n + 1], sources, timings, first)
            == plan + Submissions(due[n], sources[due[n]].tenant, PagesOf(timings[due[n]].maxPages), first + |plan|)
  {
    assert due[..n + 1][..n] == due[..n];
    assert due[..n + 1][n] == due[n];
  }

  // ---------------------------------------------------------------- the rows of a tick

  /** The event submits a scheduled job under that identifier, for a source of the list and its tenant. */
  predicate IsSubmission(e: Event, id: Uuid, due: seq<Uuid>, sources: map<Uuid, JobProtocol.Source>) {
    e.Submit? && e.id == id && e.trigger == Scheduled && e.sid in due && e.sid in sources
    && e.tenant == sources[e.sid].tenant
  }

  ghost predicate AreSubmissions(plan: seq<Event>, first: Uuid, due: seq<Uuid>,
                                 sources: map<Uuid, JobProtocol.Source>) {
    forall i :: 0 <= i < |plan| ==> IsSubmission(plan[i], first + i, due, sources)
  }

  lemma {:induction false} PlanIsSubmissions(due: seq<Uuid>, sources: map<Uuid, JobProtocol.Source>,
                                             timings: map<Uuid, Timing>, first: Uuid)
    requires forall id :: id in due ==> id in sources && id in timings
    ensures AreSubmissions(Plan(due, sources, timings, first), first, due, sources)
  {
    if due != [] {
      var n := |due| - 1;
      PlanIsSubmissions(due[..n], sources, timings, first);
      var plan, before := Plan(due, sources, timings, first), Plan(due[..n], sources, timings, first);
      forall i | 0 <= i < |plan|
        ensures IsSubmission(plan[i], first + i, due, sources)
      {
        if i < |before| {
          assert plan[i] == before[i];
          assert IsSubmission(before[i], first + i, due[..n], sources);
        }
      }
    }
  }

  /** The row that a scheduled submission leaves. */
  predicate IsRowFor(j: Job, e: Event, now: Time) {
    e.Submit?
    && j == Job(e.id, e.tenant, e.sid, Pending, Scheduled, e.page, 0, 0, "", None, None, now, 0, 3)
  }

  /** The rows after a succession of submissions, numbered from an identifier on. */
  ghost predicate HasRows(before: map<Uuid, Job>, plan: seq<Event>, first: Uuid, now: Time, after: map<Uuid, Job>) {
    && (forall id :: id in before ==> id in after && after[id] == before[id])
    && (forall id :: id in after && id !in before ==>
                       first <= id < first + |plan| && IsRowFor(after[id], plan[id - first], now))
    && (forall id :: first <= id < first + |plan| ==> id in after && id !in before)
  }

  function RowsOf(s: State): map<Uuid, Job> {
    map id | id in s.jobs :: s.jobs[id].row
  }

  lemma SubmitAddsRow(s: State, e: Event)
    requires e.Submit? && Enabled(s, e) && e.trigger == Scheduled
    ensures e.id !in RowsOf(s)
    ensures var j := Job(e.id, e.tenant, e.sid, Pending, Scheduled, e.page, 0, 0, "", None, None, s.clock, 0, 3);
            RowsOf(Next(s, e)) == RowsOf(s)[e.id := j]
  {
  }

  lemma OneRowAndTheRest(before: map<Uuid, Job>, j: Job, plan: seq<Event>, first: Uuid, now: Time,
                         after: map<Uuid, Job>)
    requires plan != [] && first !in before && IsRowFor(j, plan[0], now)
    requires HasRows(before[first := j], plan[1..], first + 1, now, after)
    ensures HasRows(before, plan, first, now, after)
  {
    forall id | id in after && id !in before
      ensures first <= id < first + |plan| && IsRowFor(after[id], plan[id - first], now)
    {
      if id != first {
        assert plan[1..][id - (first + 1)] == plan[id - first];
      }
    }
  }

  lemma {:induction false} SubmissionsAddRows(s: State, plan: seq<Event>, first: Uuid, due: seq<Uuid>, end: State)
    requires Steps(s, plan, end) && AreSubmissions(plan, first, due, s.sources)
    ensures HasRows(RowsOf(s), plan, first, s.clock, RowsOf(end)) && end.clock == s.clock
    decreases |plan|
  {
    if plan != [] {
      var t := Next(s, plan[0]);
      assert IsSubmission(plan[0], first + 0, due, s.sources);
      forall i | 0 <= i < |plan[1..]|
        ensures IsSubmission(plan[1..][i], first + 1 + i, due, t.sources)
      {
        assert IsSubmission(plan[i + 1], first + (i + 1), due, s.sources);
      }
      SubmissionsAddRows(t, plan[1..], first + 1, due, end);
      SubmitAddsRow(s, plan[0]);
      OneRowAndTheRest(RowsOf(s), RowsOf(t)[first], plan, first, s.clock, RowsOf(end));
    }
  }

  /** The page is one of the maximum; without a maximum there is a single job, without a page. */
  predicate HasPage(maxPages: int, page: int) {
    if maxPages > 0 then 1 <= page <= maxPages else page == 0
  }

  /** The source is active and due, and has that page. */
  predicate GetsJob(sources: map<Uuid, JobProtocol.Source>, timings: map<Uuid, Timing>, now: Time, sid: Uuid,
                    page: int) {
    && sid in sources && sid in timings && sources[sid].active && timings[sid].cron != ""
    && (timings[sid].nextRunAt == None || timings[sid].nextRunAt.value <= now)
    && HasPage(timings[sid].maxPages, page)
  }

  /**
   What a tick makes of the jobs table: rows stay as they are; each page of each due source gets exactly one
   new row, pending and scheduled, for that source and its tenant, without retries; and nothing else is added.
   */
  ghost predicate IsTick(before: map<Uuid, Job>, after: map<Uuid, Job>, sources: map<Uuid, JobProtocol.Source>,
                         timings: map<Uuid, Timing>, now: Time) {
    && (forall id :: id in before ==> id in after && after[id] == before[id])
    && (forall id :: id in after && id !in before ==>
                       var j := after[id];
                       && GetsJob(sources, timings, now, j.source, j.page)
                       && j == Job(id, sources[j.source].tenant, j.source, Pending, Scheduled, j.page, 0, 0, "", None,
                                   None, now, 0, 3))
    && (forall sid, page :: GetsJob(sources, timings, now, sid, page) ==>
                              exists id :: id in after && id !in before && after[id].source == sid
                                           && after[id].page == page)
    && (forall a, b :: a in after && a !in before && b in after && b !in before && a != b ==>
                         after[a].source != after[b].source || after[a].page != after[b].page)
  }

  lemma PagesAreHad(maxPages: int, page: int)
    ensures page in PagesOf(maxPages) <==> HasPage(maxPages, page)
  {
    if HasPage(maxPages, page) {
      assert PagesOf(maxPages)[if maxPages > 0 then page - 1 else 0] == page;
    }
  }

  /** Carrying out the plan for the due sources is a tick. */
  lemma PlanIsTick(before: map<Uuid, Job>, after: map<Uuid, Job>, due: seq<Uuid>,
                   sources: map<Uuid, JobProtocol.Source>, timings: map<Uuid, Timing>, first: Uuid, now: Time)
    requires Distinct(due) && forall sid :: sid in due <==> sid in DueIds(sources, timings, now)
    requires HasRows(before, Plan(due, sources, timings, first), first, now, after)
    ensures IsTick(before, after, sources, timings, now)
  {
    var plan := Plan(due, sources, timings, first);
    PlanIsSubmissions(due, sources, timings, first);
    PlanSubmitsOnce(due, sources, timings, first);
    forall id | id in after && id !in before
      ensures var j := after[id];
              && GetsJob(sources, timings, now, j.source, j.page)
              && j == Job(id, sources[j.source].tenant, j.source, Pending, Scheduled, j.page, 0, 0, "", None, None, now,
                          0, 3)
    {
      PlannedRow(before, after, due, sources, timings, first, now, id);
    }
    forall sid, page | GetsJob(sources, timings, now, sid, page)
      ensures exists id :: id in after && id !in before && after[id].source == sid && after[id].page == page
    {
      PagesAreHad(timings[sid].maxPages, page);
      PlanIsExact(due, sources, timings, first, sid, page);
      var i :| 0 <= i < |plan| && plan[i].Submit? && plan[i].sid == sid && plan[i].page == page;
      var id := first + i;
      assert id in after && IsRowFor(after[id], plan[id - first], now);
    }
  }

  lemma PlannedRow(before: map<Uuid, Job>, after: map<Uuid, Job>, due: seq<Uuid>,
                   sources: map<Uuid, JobProtocol.Source>, timings: map<Uuid, Timing>, first: Uuid, now: Time, id: Uuid)
    requires forall sid :: sid in due <==> sid in DueIds(sources, timings, now)
    requires HasRows(before, Plan(due, sources, timings, first), first, now, after)
    requires id in after && id !in before
    ensures var j := after[id];
            && GetsJob(sources, timings, now, j.source, j.page)
            && j == Job(id, sources[j.source].tenant, j.source, Pending, Scheduled, j.page, 0, 0, "", None, None, now,
                        0, 3)
  {
    var plan := Plan(due, sources, timings, first);
    PlanIsSubmissions(due, sources, timings, first);
    var e := plan[id - first];
    assert IsRowFor(after[id], e, now) && IsSubmission(e, first + (id - first), due, sources);
    assert IsPlanned(plan, e.sid, e.page);
    PlanIsExact(due, sources, timings, first, e.sid, e.page);
    PagesAreHad(timings[e.sid].maxPages, e.page);
  }

  lemma ServedIsTick(s: State, end: State, before: map<Uuid, Job>, after: map<Uuid, Job>, due: seq<Uuid>,
                     timings: map<Uuid, Timing>, first: Uuid, next: Uuid, now: Time)
    requires Distinct(due) && forall sid :: sid in due <==> sid in DueIds(s.sources, timings, now)
    requires IsServed(s, end, due, timings, first, next) && s.clock == now
    requires Matches(s, before, s.sources) && Matches(end, after, s.sources)
    ensures IsTick(before, after, s.sources, timings, now)
  {
    PlanIsSubmissions(due, s.sources, timings, first);
    SubmissionsAddRows(s, Plan(due, s.sources, timings, first), first, due, end);
    assert RowsOf(s) == before && RowsOf(end) == after;
    PlanIsTick(before, after, due, s.sources, timings, first, now);
  }

  /** A due source's next run is the cron's, or ten minutes away without one; everything else stays. */
  ghost predicate IsMovedOn(before: map<Uuid, Timing>, after: map<Uuid, Timing>,
                            sources: map<Uuid, JobProtocol.Source>, now: Time, cron: Cron) {
    && before.Keys == after.Keys
    && forall sid :: sid in before ==>
                       var t := before[sid];
                       if sid in sources && sources[sid].active && t.cron != ""
                          && (t.nextRunAt == None || t.nextRunAt.value <= now)
                       then
                         var next := if cron(t.cron) == None then now + 10 else cron(t.cron).value(now);
                         after[sid] == Timing(t.cron, Some(next), t.maxPages)
                       else after[sid] == t
  }

  lemma ServedIsMovedOn(timings: map<Uuid, Timing>, due: seq<Uuid>, sources: map<Uuid, JobProtocol.Source>, now: Time,
                        cron: Cron)
    requires forall sid :: sid in due <==> sid in DueIds(sources, timings, now)
    ensures IsMovedOn(timings, Served(timings, due, now, cron), sources, now, cron)
  {
  }

  /**
   scheduleRuns. The jobs table changes by the submissions of the plan for the due sources, and by
   nothing else; each due source's next run is moved on, and no other.
   */
  method ScheduleRuns(jobs: JobTable, sources: SourceTable, timetable: Timetable, first: Uuid, now: Time, cron: Cron,
                      ghost s: State)
    returns (ghost due: seq<Uuid>, ghost next: Uuid, ghost end: State)
    requires Matches(s, jobs.rows, sources.rows) && s.clock == now && UnusedFrom(jobs.rows, first)
    modifies jobs, timetable
    ensures forall sid :: sid in due <==> sid in DueIds(sources.rows, old(timetable.rows), now)
    ensures Distinct(due)
    ensures IsServed(s, end, due, old(timetable.rows), first, next) && Matches(end, jobs.rows, sources.rows)
    ensures timetable.rows == Served(old(timetable.rows), due, now, cron)
    ensures IsTick(old(jobs.rows), jobs.rows, sources.rows, old(timetable.rows), now)
    ensures IsMovedOn(old(timetable.rows), timetable.rows, sources.rows, now, cron)
  {
    ghost var timings := timetable.rows;
    var list := timetable.FindDue(sources.rows, now);
    var id := first;
    due, end := list, s;
    assert list[..0] == [];
    for i := 0 to |list|
      invariant IsServed(s, end, list[..i], timings, first, id) && UnusedFrom(jobs.rows, id)
      invariant Matches(end, jobs.rows, sources.rows) && end.clock == now
      invariant timetable.rows == Served(timings, list[..i], now, cron)
    {
      ghost var before, used := end, id;
      assert list[i] in DueIds(sources.rows, timings, now);
      ServedGrows(timings, list, i, now, cron);
      id, end := ScheduleSource(jobs, list[i], sources.rows[list[i]].tenant, timetable.rows[list[i]].maxPages, id, now,
                                before);
      ServesOneMore(s, before, end, list, i, timings, first, used);
      timetable.Advance(list[i], now, cron);
    }
    assert list[..|list|] == list;
    next := id;
    ServedIsTick(s, end, old(jobs.rows), jobs.rows, list, timings, first, next, now);
    ServedIsMovedOn(timings, due, sources.rows, now, cron);
  }
}
