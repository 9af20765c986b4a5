/**
 Ticks of the scheduler one after another: when a source may be served again. Between two ticks anything
 may write its row; the use case that updates a source reads the row and later writes all of it back.
 */
module Timetables {
  import opened Prelude
  import opened ScrapingJobs
  import JobProtocol
  import opened Scheduling

  /** An active source, as the scheduler sees it. */
  const ACTIVE := JobProtocol.Source(0, true, 0, 0, 0, 1.0)

  // ---------------------------------------------------------------- ticks, with anything in between

  /** One tick: when it came, the sources and the timetable as they were then, and the due ones it served. */
  datatype Round = Round(
    now: Time,
    sources: map<Uuid, JobProtocol.Source>,
    timings: map<Uuid, Timing>,
    due: seq<Uuid>,
    first: Uuid
  )

  predicate ServesDue(tick: Round) {
    && (forall sid :: sid in tick.due ==> sid in DueIds(tick.sources, tick.timings, tick.now))
    && (forall sid :: sid in DueIds(tick.sources, tick.timings, tick.now) ==> sid in tick.due)
  }

  /** Each tick serves what is due then. What a tick finds need not be what the tick before left. */
  predicate IsTicking(ticks: seq<Round>) {
    && (forall i, j :: 0 <= i < j < |ticks| ==> ticks[i].now <= ticks[j].now)
    && (forall i :: 0 <= i < |ticks| ==> ServesDue(ticks[i]))
  }

  predicate Serves(ticks: seq<Round>, i: nat, sid: Uuid) {
    i < |ticks| && sid in ticks[i].due
  }

  /** The next tick finds the next run as tick l left it: nobody wrote it, and the tick's own write took effect. */
  predicate IsKept(ticks: seq<Round>, cron: Cron, sid: Uuid, l: nat) {
    l + 1 < |ticks| ==>
      && sid in ticks[l].timings && sid in ticks[l + 1].timings
      && ticks[l + 1].timings[sid].nextRunAt
         == Served(ticks[l].timings, ticks[l].due, ticks[l].now, cron)[sid].nextRunAt
  }

  ghost predicate IsKeptBetween(ticks: seq<Round>, cron: Cron, sid: Uuid, i: nat, j: nat) {
    forall l :: i <= l < j ==> IsKept(ticks, cron, sid, l)
  }

  /** Until it is served again, a source keeps the next run that it was given. */
  lemma {:induction false} NextRunStays(ticks: seq<Round>, cron: Cron, i: nat, m: nat, sid: Uuid)
    requires IsTicking(ticks) && i < m < |ticks| && Serves(ticks, i, sid) && IsKeptBetween(ticks, cron, sid, i, m)
    requires forall l :: i < l < m ==> !Serves(ticks, l, sid)
    ensures sid in ticks[i].timings && sid in ticks[m].timings
    ensures ticks[m].timings[sid].nextRunAt == Some(NextRun(ticks[i].timings[sid].cron, ticks[i].now, cron))
  {
    assert IsKept(ticks, cron, sid, m - 1);
    if m > i + 1 {
      NextRunStays(ticks, cron, i, m - 1, sid);
      assert !Serves(ticks, m - 1, sid);
    }
  }

  /**
   Two ticks that serve a source are separated by the next run computed at the first, unless somebody
   wrote its next run between two ticks in between, or an advance was lost.
   */
  lemma {:induction false} ServedAgainFromNextRun(ticks: seq<Round>, cron: Cron, i: nat, j: nat, sid: Uuid)
    requires IsTicking(ticks) && i < j && Serves(ticks, i, sid) && Serves(ticks, j, sid)
    ensures sid in ticks[i].timings
    ensures IsKeptBetween(ticks, cron, sid, i, j) ==>
              NextRun(ticks[i].timings[sid].cron, ticks[i].now, cron) <= ticks[j].now
    decreases j
  {
    assert ServesDue(ticks[i]) && ServesDue(ticks[j]);
    if IsKeptBetween(ticks, cron, sid, i, j) {
      if l :| i < l < j && Serves(ticks, l, sid) {
        ServedAgainFromNextRun(ticks, cron, i, l, sid);
        assert ticks[l].now <= ticks[j].now;
      } else {
        NextRunStays(ticks, cron, i, j, sid);
      }
    }
  }

  ghost predicate PlansPage(ticks: seq<Round>, i: nat, sid: Uuid, page: int)
    requires i < |ticks|
  {
    var t := ticks[i];
    && (forall id :: id in t.due ==> id in t.sources && id in t.timings)
    && IsPlanned(Plan(t.due, t.sources, t.timings, t.first), sid, page)
  }

  /**
   No page gets two jobs inside one period, whatever happens to the sources in between: if two ticks
   submit a job for the same page of a source and the later comes before the next run computed at the
   earlier, somebody wrote the source's next run between them.
   */
  lemma NoPageTwiceInAPeriod(ticks: seq<Round>, cron: Cron, i: nat, j: nat, sid: Uuid, page: int)
    requires IsTicking(ticks) && i < j < |ticks|
    requires PlansPage(ticks, i, sid, page) && PlansPage(ticks, j, sid, page)
    ensures sid in ticks[i].timings
    ensures ticks[j].now < NextRun(ticks[i].timings[sid].cron, ticks[i].now, cron) ==>
              exists l :: i <= l < j && !IsKept(ticks, cron, sid, l)
  {
    PlanIsExact(ticks[i].due, ticks[i].sources, ticks[i].timings, ticks[i].first, sid, page);
    PlanIsExact(ticks[j].due, ticks[j].sources, ticks[j].timings, ticks[j].first, sid, page);
    ServedAgainFromNextRun(ticks, cron, i, j, sid);
  }

  /** However ticks fall, no two of them at one moment serve a source with that expression that nobody writes. */
  ghost predicate ServesOnceAtATime(expr: string, cron: Cron) {
    forall ticks: seq<Round>, i: nat, j: nat, sid: Uuid ::
      IsTicking(ticks) && i < j && Serves(ticks, i, sid) && Serves(ticks, j, sid)
      && IsKeptBetween(ticks, cron, sid, i, j)
      && sid in ticks[i].timings && ticks[i].timings[sid].cron == expr
      ==> ticks[i].now < ticks[j].now
  }

  /** An expression that gives a next run which is not later is served twice at that moment. */
  lemma TwoTicksAtOnce(expr: string, cron: Cron, now: Time)
    requires expr != "" && NextRun(expr, now, cron) <= now
    ensures !ServesOnceAtATime(expr, cron)
  {
    var sources := map[0 := ACTIVE];
    var first := map[0 := Timing(expr, None, 0)];
    var second := Served(first, [0], now, cron);
    assert DueIds(sources, first, now) == {0} && DueIds(sources, second, now) == {0};
    var ticks := [Round(now, sources, first, [0], 0), Round(now, sources, second, [0], 0)];
    assert ServesDue(ticks[0]) && ServesDue(ticks[1]);
    assert IsTicking(ticks) && Serves(ticks, 0, 0) && Serves(ticks, 1, 0) && IsKept(ticks, cron, 0, 0);
  }

  /**
   Exactly which expressions are safe: a source that nobody writes is never served twice at one moment
   if and only if its expression always gives a strictly later next run. The fallback always does.
   */
  lemma ServedOnceIffCronAdvances(expr: string, cron: Cron)
    requires expr != ""
    ensures ServesOnceAtATime(expr, cron) <==> forall now: Time :: NextRun(expr, now, cron) > now
  {
    if now: Time :| NextRun(expr, now, cron) <= now {
      TwoTicksAtOnce(expr, cron, now);
    } else {
      forall ticks: seq<Round>, i: nat, j: nat, sid: Uuid
        | IsTicking(ticks) && i < j && Serves(ticks, i, sid) && Serves(ticks, j, sid)
          && IsKeptBetween(ticks, cron, sid, i, j)
          && sid in ticks[i].timings && ticks[i].timings[sid].cron == expr
        ensures ticks[i].now < ticks[j].now
      {
        ServedAgainFromNextRun(ticks, cron, i, j, sid);
        assert NextRun(expr, ticks[i].now, cron) > ticks[i].now;
      }
    }
  }

  // ---------------------------------------------------------------- updates of a source

  /** The update of a source writes its expression, edited or as it was read, and the next run as it was read. */
  function Written(row: Timing, copy: Timing, edit: Option<string>): Timing {
    row.(cron := if edit.Some? then edit.value else copy.cron, nextRunAt := copy.nextRunAt)
  }

  /** FindByID of the update. */
  method ReadForUpdate(timetable: Timetable, sid: Uuid) returns (copy: Option<Timing>)
    ensures copy == if sid in timetable.rows then Some(timetable.rows[sid]) else None
  {
    return if sid in timetable.rows then Some(timetable.rows[sid]) else None;
  }

  /** Update of the whole row, whatever it is by now. */
  method WriteUpdate(timetable: Timetable, sid: Uuid, copy: Timing, edit: Option<string>)
    modifies timetable
    ensures timetable.rows == if sid in old(timetable.rows)
                              then old(timetable.rows)[sid := Written(old(timetable.rows)[sid], copy, edit)]
                              else old(timetable.rows)
    ensures sid in old(timetable.rows) ==>
              && timetable.rows[sid].cron == (if edit.Some? then edit.value else copy.cron)
              && timetable.rows[sid].nextRunAt == copy.nextRunAt
              && timetable.rows[sid].maxPages == old(timetable.rows)[sid].maxPages
  {
    if sid in timetable.rows {
      var row := timetable.rows[sid];
      var edited := copy;
      if edit.Some? {
        edited := edited.(cron := edit.value);
      }
      timetable.rows := timetable.rows[sid := row.(cron := edited.cron, nextRunAt := edited.nextRunAt)];
    }
  }

  /** What may happen to one active source: a tick, and the two statements of an update. */
  datatype Slot = Polls | Reads(u: nat) | Writes(u: nat)

  /** Everything about a schedule that is not its order. */
  datatype Given = Given(start: Timing, cron: Cron, when: nat -> Time, edits: nat -> Option<string>)

  datatype State = State(row: Timing, copies: map<nat, Timing>)

  predicate IsTimely(g: Given, n: nat) {
    forall i: nat, j: nat :: i < j < n ==> g.when(i) <= g.when(j)
  }

  predicate IsDueAt(t: Timing, now: Time) {
    IsDue(ACTIVE, t, now)
  }

  function Next(s: State, slot: Slot, now: Time, g: Given): State {
    match slot
    case Polls => if IsDueAt(s.row, now) then s.(row := Advanced(s.row, now, g.cron)) else s
    case Reads(u) => s.(copies := s.copies[u := s.row])
    case Writes(u) => if u in s.copies then s.(row := Written(s.row, s.copies[u], g.edits(u))) else s
  }

  /** The source after the first n slots. */
  function After(slots: seq<Slot>, g: Given, n: nat): State
    requires n <= |slots|
  {
    if n == 0 then State(g.start, map[]) else Next(After(slots, g, n - 1), slots[n - 1], g.when(n - 1), g)
  }

  predicate ServedAt(slots: seq<Slot>, g: Given, n: nat) {
    n < |slots| && slots[n].Polls? && IsDueAt(After(slots, g, n).row, g.when(n))
  }

  function PeriodEnd(slots: seq<Slot>, g: Given, n: nat): Time
    requires n <= |slots|
  {
    NextRun(After(slots, g, n).row.cron, g.when(n), g.cron)
  }

  /** The source is served at j although the period that began at i is not over. */
  predicate IsTwice(slots: seq<Slot>, g: Given, i: nat, j: nat) {
    i < j && ServedAt(slots, g, i) && ServedAt(slots, g, j) && g.when(j) < PeriodEnd(slots, g, i)
  }

  /** Every update reads and writes at most once, and reads before it writes. */
  ghost predicate IsSchedule(slots: seq<Slot>) {
    && (forall i, j :: 0 <= i < j < |slots| && !slots[i].Polls? ==> slots[i] != slots[j])
    && forall j :: 0 <= j < |slots| && slots[j].Writes? ==> exists i :: 0 <= i < j && slots[i] == Reads(slots[j].u)
  }

  /** A tick falls between the read and the write of an update. */
  predicate Straddles(slots: seq<Slot>, a: nat, b: nat, c: nat) {
    a < b < c < |slots| && slots[b].Polls? && slots[c].Writes? && slots[a] == Reads(slots[c].u)
  }

  ghost predicate NoneStraddles(slots: seq<Slot>) {
    forall a: nat, b: nat, c: nat :: !Straddles(slots, a, b, c)
  }

  /** Whatever the times and expressions, and whenever the next tick comes: the source is served once in a period. */
  ghost predicate IsAlwaysOnce(slots: seq<Slot>) {
    forall n: nat, g: Given, i: nat, j: nat ::
      n <= |slots| && IsTimely(g, n + 1) ==> !IsTwice(slots[..n] + [Polls], g, i, j)
  }

  lemma {:induction false} SameFront(slots: seq<Slot>, other: seq<Slot>, g: Given, n: nat)
    requires n <= |slots| && n <= |other| && forall i :: 0 <= i < n ==> slots[i] == other[i]
    ensures After(slots, g, n) == After(other, g, n)
  {
    if n > 0 {
      SameFront(slots, other, g, n - 1);
    }
  }

  /** An update holds the row as it was when it read it. */
  lemma {:induction false} CopyIsAsRead(slots: seq<Slot>, g: Given, a: nat, m: nat, u: nat)
    requires IsSchedule(slots) && a < m <= |slots| && slots[a] == Reads(u)
    ensures u in After(slots, g, m).copies && After(slots, g, m).copies[u] == After(slots, g, a).row
  {
    if m > a + 1 {
      CopyIsAsRead(slots, g, a, m - 1, u);
      assert slots[m - 1] != slots[a];
    }
  }

  /** Without a straddling update, the next run stays as it was computed until the source is served again. */
  lemma {:induction false} NextRunIsKept(slots: seq<Slot>, g: Given, i: nat, m: nat)
    requires IsSchedule(slots) && NoneStraddles(slots) && ServedAt(slots, g, i) && i < m <= |slots|
    requires forall l :: i < l < m ==> !ServedAt(slots, g, l)
    ensures After(slots, g, m).row.nextRunAt == Some(PeriodEnd(slots, g, i))
    decreases m
  {
    if m > i + 1 {
      assert !ServedAt(slots, g, m - 1);
      NextRunIsKept(slots, g, i, m - 1);
      if slots[m - 1].Writes? {
        var u := slots[m - 1].u;
        var a: nat :| a < m - 1 && slots[a] == Reads(u);
        assert !Straddles(slots, a, i, m - 1);
        NextRunIsKept(slots, g, i, a);
        CopyIsAsRead(slots, g, a, m - 1, u);
      }
    }
  }

  lemma {:induction false} NotTwice(slots: seq<Slot>, g: Given, i: nat, j: nat)
    requires IsSchedule(slots) && NoneStraddles(slots) && IsTimely(g, |slots|)
    ensures !IsTwice(slots, g, i, j)
    decreases j
  {
    if i < j && ServedAt(slots, g, i) && ServedAt(slots, g, j) {
      if l: nat :| i < l < j && ServedAt(slots, g, l) {
        NotTwice(slots, g, i, l);
        assert g.when(l) <= g.when(j);
      } else {
        NextRunIsKept(slots, g, i, j);
      }
    }
  }

  lemma FrontAndTick(slots: seq<Slot>, n: nat)
    requires IsSchedule(slots) && NoneStraddles(slots) && n <= |slots|
    ensures IsSchedule(slots[..n] + [Polls]) && NoneStraddles(slots[..n] + [Polls])
  {
    var front := slots[..n] + [Polls];
    forall j | 0 <= j < |front| && front[j].Writes?
      ensures exists i :: 0 <= i < j && front[i] == Reads(front[j].u)
    {
      var i :| 0 <= i < j && slots[i] == Reads(slots[j].u);
      assert front[i] == Reads(front[j].u);
    }
    forall a: nat, b: nat, c: nat
      ensures !Straddles(front, a, b, c)
    {
      assert !Straddles(slots, a, b, c);
    }
  }

  // ---------------------------------------------------------------- a straddling update

  /** Until slot b time stands still at 0, and from then on at 1; the run after 0 is at 1, later ones at 9. */
  function Trap(b: nat): Given {
    Given(Timing("c", None, 0), _ => Some(t => if t == 0 then 1 else 9), i => if i < b then 0 else 1, _ => None)
  }

  predicate IsEarly(t: Timing) {
    t.cron == "c" && (t.nextRunAt.None? || t.nextRunAt.value <= 1)
  }

  ghost predicate AllEarly(s: State) {
    IsEarly(s.row) && forall u :: u in s.copies ==> IsEarly(s.copies[u])
  }

  lemma {:induction false} EarlyUntil(slots: seq<Slot>, b: nat, m: nat)
    requires m <= b && m <= |slots|
    ensures AllEarly(After(slots, Trap(b), m))
  {
    if m > 0 {
      EarlyUntil(slots, b, m - 1);
    }
  }

  /** The stale next run makes the source due again at once. */
  lemma StaleWriteServesTwice(slots: seq<Slot>, a: nat, b: nat, c: nat)
    requires IsSchedule(slots) && Straddles(slots, a, b, c)
    ensures IsTwice(slots[..c + 1] + [Polls], Trap(b), b, c + 1)
  {
    var g, all := Trap(b), slots[..c + 1] + [Polls];
    SameFront(slots, all, g, b);
    SameFront(slots, all, g, c);
    EarlyUntil(slots, b, a);
    EarlyUntil(slots, b, b);
    CopyIsAsRead(slots, g, a, c, slots[c].u);
    assert all[c] == slots[c] && all[b] == slots[b];
    assert After(all, g, c + 1) == Next(After(all, g, c), all[c], g.when(c), g);
  }

  /**
   Exactly which orders of ticks and updates are harmless: whatever the times, the expressions and the
   edits, and whenever the next tick comes, the source is served once in a period, if and only if no tick
   falls between the read and the write of an update.
   */
  lemma OnceIffNoneStraddles(slots: seq<Slot>)
    requires IsSchedule(slots)
    ensures IsAlwaysOnce(slots) <==> NoneStraddles(slots)
  {
    if NoneStraddles(slots) {
      forall n: nat, g: Given, i: nat, j: nat | n <= |slots| && IsTimely(g, n + 1)
        ensures !IsTwice(slots[..n] + [Polls], g, i, j)
      {
        FrontAndTick(slots, n);
        NotTwice(slots[..n] + [Polls], g, i, j);
      }
    } else {
      var a: nat, b: nat, c: nat :| Straddles(slots, a, b, c);
      StaleWriteServesTwice(slots, a, b, c);
      assert IsTimely(Trap(b), c + 2);
    }
  }
}
