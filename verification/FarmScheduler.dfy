/**
 The farm's scheduler: when a schedule runs next, and what ticks, toggles and saves do to the stored list.
 One tick is atomic here. Times are milliseconds.
 */
module FarmScheduler {
  import opened Common
  import opened Cron

  type Id = nat

  /** What Math.random returns. */
  type Draw = r: real | 0.0 <= r < 1.0

  datatype Kind = Once | Interval | ByCron

  /** The timing part of a schedule. A stored schedule has a kind and a jitter; the data of a save may not. */
  datatype Plan = Plan(kind: Option<Kind>, runOnceAt: Option<int>, minutes: Option<int>,
                       cron: Option<seq<string>>, jitter: Option<int>)

  // ── The next run ─────────────────────────────────────────────────────────

  /** Math.round of a draw from plus or minus the jitter. */
  function JitterMs(draw: Draw, jitter: int): int {
    ((draw * 2.0 - 1.0) * (jitter * MINUTE) as real + 0.5).Floor
  }

  function Minutes(p: Plan): (m: int)
    ensures m > 0
  {
    if p.minutes.Some? && p.minutes.value > 0 then p.minutes.value else 60
  }

  function Jitter(p: Plan): (j: nat) {
    if p.jitter.Some? && p.jitter.value > 0 then p.jitter.value else 0
  }

  function Target(p: Plan, cal: Calendar, from: int): Option<int> {
    if p.kind == Some(Interval) then Some(from + Minutes(p) * MINUTE)
    else if p.kind == Some(ByCron) && p.cron.Some? then NextCron(p.cron.value, cal, from)
    else None
  }

  function CalculateNextRun(p: Plan, cal: Calendar, from: int, draw: Draw): Option<int> {
    if p.kind == Some(Once) then
      if p.runOnceAt.Some? && p.runOnceAt.value > from then p.runOnceAt else None
    else
      var target := Target(p, cal, from);
      if target.None? || Jitter(p) == 0 then target
      else
        var moved := target.value + JitterMs(draw, Jitter(p));
        Some(if moved <= from then from + 30_000 else moved)
  }

  lemma JitterBound(draw: Draw, jitter: nat)
    ensures -(jitter * MINUTE) <= JitterMs(draw, jitter) <= jitter * MINUTE
  {
    var j := (jitter * MINUTE) as real;
    ScaleBound(draw * 2.0 - 1.0, j);
  }

  lemma ScaleBound(x: real, j: real)
    requires -1.0 <= x <= 1.0 && j >= 0.0
    ensures -j <= x * j <= j
  {
    assert (1.0 - x) * j >= 0.0;
    assert (x + 1.0) * j >= 0.0;
  }

  /** At least the interval less the jitter. */
  predicate Spaced(p: Plan, from: int, next: int) {
    p.kind == Some(Interval) ==> next >= from + (Minutes(p) - Jitter(p)) * MINUTE
  }

  /**
   A next run is always later than now. A single run is due exactly at its time, an interval keeps its length
   up to the jitter, and a cron run stays within the jitter of the next match or is half a minute away.
   */
  lemma NextRunIsLater(p: Plan, cal: Calendar, from: int, draw: Draw)
    requires CalculateNextRun(p, cal, from, draw).Some?
    ensures var next := CalculateNextRun(p, cal, from, draw).value;
            && next > from
            && Spaced(p, from, next)
            && (p.kind == Some(Once) ==> p.runOnceAt == Some(next))
            && (p.kind == Some(Interval) && Minutes(p) > Jitter(p) ==>
                  next <= from + (Minutes(p) + Jitter(p)) * MINUTE)
            && (p.kind == Some(ByCron) ==>
                  && p.cron.Some? && NextCron(p.cron.value, cal, from).Some?
                  && var hit := NextCron(p.cron.value, cal, from).value;
                     next == from + 30_000 || -(Jitter(p) * MINUTE) <= next - hit <= Jitter(p) * MINUTE)
  {
    JitterBound(draw, Jitter(p));
    if p.kind == Some(ByCron) {
      NextCronIsLeast(p.cron.value, cal, from);
    }
  }

  /** The jitter that a schedule asks for. */
  predicate HasJitter(p: Plan, j: nat) {
    if p.jitter.Some? && p.jitter.value >= 0 then p.jitter.value == j else j == 0
  }

  /** The interval that a schedule asks for, an hour if it does not say. */
  predicate HasInterval(p: Plan, m: int) {
    if p.minutes.Some? && p.minutes.value > 0 then p.minutes.value == m else m == 60
  }

  /** An interval schedule runs next after the interval it asks for, give or take its jitter, or else in half a minute. */
  lemma IntervalRunsNext(p: Plan, cal: Calendar, from: int, draw: Draw, m: int, j: nat)
    requires p.kind == Some(Interval) && HasInterval(p, m) && HasJitter(p, j)
    ensures var r := CalculateNextRun(p, cal, from, draw);
            && r.Some?
            && (j == 0 ==> r.value == from + m * 60_000)
            && (j < m ==> from + (m - j) * 60_000 <= r.value <= from + (m + j) * 60_000)
            && (from + (m - j) * 60_000 <= r.value <= from + (m + j) * 60_000 || r.value == from + 30_000)
  {
    JitterBound(draw, j);
  }

  /** Every shift from minus to plus the jitter, in milliseconds, is what some draw gives, but for the last one. */
  lemma JitterIsSpread(jitter: nat, shift: int) returns (draw: Draw)
    requires -(jitter * MINUTE) <= shift < jitter * MINUTE
    ensures JitterMs(draw, jitter) == shift
  {
    var j := (jitter * MINUTE) as real;
    draw := (shift as real / j + 1.0) / 2.0;
    assert draw * 2.0 - 1.0 == shift as real / j;
    assert (draw * 2.0 - 1.0) * j == shift as real;
  }

  /** So is every time within the jitter of an interval's end, if it is still to come. */
  lemma IntervalIsSpread(p: Plan, cal: Calendar, from: int, m: int, j: nat, shift: int) returns (draw: Draw)
    requires p.kind == Some(Interval) && HasInterval(p, m) && HasJitter(p, j)
    requires -(j * 60_000) <= shift < j * 60_000 && m * 60_000 + shift > 0
    ensures CalculateNextRun(p, cal, from, draw) == Some(from + m * 60_000 + shift)
  {
    draw := JitterIsSpread(j, shift);
  }

  // ── The stored list ──────────────────────────────────────────────────────

  /** `aim` is history: the match of the cron expression that the next run is for. */
  datatype Record = Record(id: Id, active: bool, plan: Plan, next: Option<int>, aim: Option<int>)

  /** A run that a tick started: whose, with which plan, when it was due, when it began, for which match. */
  datatype Firing = Firing(id: Id, plan: Plan, due: int, at: int, aim: Option<int>)

  datatype State = State(records: seq<Record>, fired: seq<Firing>)

  /** The body of a save; `uuid` is the fresh name drawn when it has none. */
  datatype Data = Data(id: Option<Id>, active: Option<bool>, plan: Plan)

  datatype Event =
    | Tick(now: int, draws: nat -> Draw)
    | Toggle(id: Id, active: bool, now: int, draw: Draw)
    | Save(data: Data, uuid: Id, now: int, draw: Draw)
    | Delete(id: Id, now: int)

  predicate IsDue(r: Record, now: int) {
    r.active && r.next.Some? && r.next.value <= now
  }

  function FiringOf(r: Record, now: int): Firing
    requires r.next.Some?
  {
    Firing(r.id, r.plan, r.next.value, now, r.aim)
  }

  function Aim(p: Plan, cal: Calendar, from: int): Option<int> {
    if p.kind == Some(ByCron) then Target(p, cal, from) else None
  }

  /** The next run is computed as seen from `from`. */
  function Planned(r: Record, p: Plan, cal: Calendar, from: int, draw: Draw): Record {
    r.(next := CalculateNextRun(p, cal, from, draw), aim := Aim(p, cal, from))
  }

  function Ticked(r: Record, cal: Calendar, now: int, draw: Draw): Record {
    if !IsDue(r, now) then r
    else if r.plan.kind == Some(Once) then r.(active := false, next := None)
    else Planned(r, r.plan, cal, now, draw)
  }

  /** Only a due schedule changes: a single one is switched off for good, any other is planned anew. */
  predicate AfterTick(was: Record, r: Record, now: int) {
    && r.id == was.id && r.plan == was.plan
    && (!IsDue(was, now) ==> r == was)
    && (IsDue(was, now) && was.plan.kind == Some(Once) ==> !r.active && r.next.None?)
    && (IsDue(was, now) && was.plan.kind != Some(Once) ==> r.active && (r.next.Some? ==> r.next.value > now))
  }

  lemma TickedIsAfterTick(was: Record, cal: Calendar, now: int, draw: Draw)
    ensures AfterTick(was, Ticked(was, cal, now, draw), now)
  {
    if CalculateNextRun(was.plan, cal, now, draw).Some? {
      NextRunIsLater(was.plan, cal, now, draw);
    }
  }

  function AllTicked(rs: seq<Record>, cal: Calendar, now: int, draws: nat -> Draw): (r: seq<Record>)
    ensures |r| == |rs| && forall i :: 0 <= i < |rs| ==> r[i] == Ticked(rs[i], cal, now, draws(i))
  {
    seq(|rs|, i requires 0 <= i < |rs| => Ticked(rs[i], cal, now, draws(i)))
  }

  /** The runs a tick starts, in list order. */
  function Started(rs: seq<Record>, now: int): seq<Firing> {
    if rs == [] then []
    else
      var r := rs[|rs| - 1];
      Started(rs[..|rs| - 1], now)
      + if IsDue(r, now) then [FiringOf(r, now)] else []
  }

  /** Position of the first record with this name, or the length. */
  function IndexOf(rs: seq<Record>, id: Id): (i: nat)
    ensures i <= |rs| && (i < |rs| ==> rs[i].id == id)
    ensures forall k :: 0 <= k < i ==> rs[k].id != id
  {
    if rs == [] || rs[0].id == id then 0 else 1 + IndexOf(rs[1..], id)
  }

  function Toggled(r: Record, cal: Calendar, active: bool, now: int, draw: Draw): Record {
    if active then Planned(r.(active := true), r.plan, cal, now, draw) else r.(active := false, next := None)
  }

  /** What a save stores. The next run is computed from the data as given, before defaults are filled in. */
  function Saved(id: Id, data: Data, cal: Calendar, now: int, draw: Draw): Record {
    var active := data.active != Some(false);
    var plan := data.plan.(kind := Some(if data.plan.kind.Some? then data.plan.kind.value else Interval),
                           jitter := Some(if data.plan.jitter.Some? then data.plan.jitter.value else 10));
    var r := Record(id, active, plan, None, None);
    if active then Planned(r, data.plan, cal, now, draw) else r
  }

  function Without(rs: seq<Record>, id: Id): (r: seq<Record>)
    ensures forall x :: x in r <==> x in rs && x.id != id
  {
    if rs == [] then []
    else
      assert forall x :: x in rs <==> x == rs[0] || x in rs[1..];
      (if rs[0].id == id then [] else [rs[0]]) + Without(rs[1..], id)
  }

  function Step(s: State, cal: Calendar, e: Event): State {
    match e
    case Tick(now, draws) =>
      State(AllTicked(s.records, cal, now, draws), s.fired + Started(s.records, now))
    case Toggle(id, active, now, draw) =>
      var i := IndexOf(s.records, id);
      if i == |s.records| then s
      else s.(records := s.records[i := Toggled(s.records[i], cal, active, now, draw)])
    case Save(data, uuid, now, draw) =>
      var id := if data.id.Some? then data.id.value else uuid;
      var r := Saved(id, data, cal, now, draw);
      var i := IndexOf(s.records, id);
      s.(records := if i < |s.records| then s.records[i := r] else [r] + s.records)
    case Delete(id, _) => s.(records := Without(s.records, id))
  }

  function Run(s: State, cal: Calendar, es: seq<Event>): State
    decreases |es|
  {
    if es == [] then s else Run(Step(s, cal, es[0]), cal, es[1..])
  }

  /** A clock that never goes back. */
  predicate WellTimed(es: seq<Event>, clock: int)
    decreases |es|
  {
    es == [] || (es[0].now >= clock && WellTimed(es[1..], es[0].now))
  }

  // ── What every run keeps ─────────────────────────────────────────────────

  /** A run of `plan` due at `due` comes after the earlier run `f`, keeps its distance, and so does its match. */
  predicate After(f: Firing, plan: Plan, due: int, aim: Option<int>) {
    due > f.at && Spaced(plan, f.at, due) && (aim.Some? ==> aim.value > f.at)
  }

  ghost predicate DistinctIds(rs: seq<Record>) {
    forall i, j :: 0 <= i < j < |rs| ==> rs[i].id != rs[j].id
  }

  ghost predicate GoodFiring(f: Firing, clock: int) {
    f.due <= f.at <= clock && (f.plan.kind == Some(Once) ==> f.plan.runOnceAt == Some(f.due))
    && AimsRight(f.plan, f.due, f.aim)
  }

  /** A cron run is for a match, and without jitter it is due at that match. */
  predicate AimsRight(p: Plan, due: int, aim: Option<int>) {
    p.kind == Some(ByCron) ==> aim.Some? && (Jitter(p) == 0 ==> due == aim.value)
  }

  /** The next run of a record comes after all its earlier ones. */
  ghost predicate GoodRecord(r: Record, fired: seq<Firing>) {
    && r.plan.kind.Some?
    && (r.next.Some? ==>
          && (r.plan.kind == Some(Once) ==> r.plan.runOnceAt == r.next)
          && AimsRight(r.plan, r.next.value, r.aim)
          && forall f :: f in fired && f.id == r.id ==> After(f, r.plan, r.next.value, r.aim))
  }

  ghost predicate Apart(fired: seq<Firing>) {
    forall i, j :: 0 <= i < j < |fired| && fired[i].id == fired[j].id ==> After(fired[i], fired[j].plan, fired[j].due, fired[j].aim)
  }

  ghost predicate Inv(s: State, clock: int) {
    && DistinctIds(s.records)
    && (forall r :: r in s.records ==> GoodRecord(r, s.fired))
    && (forall f :: f in s.fired ==> GoodFiring(f, clock))
    && Apart(s.fired)
  }

  /** A next run computed now comes after everything that has run so far. */
  lemma RecomputedIsGood(r: Record, p: Plan, cal: Calendar, now: int, draw: Draw, fired: seq<Firing>)
    requires r.next == CalculateNextRun(p, cal, now, draw) && r.aim == Aim(p, cal, now)
    requires r.plan.kind.Some? && (p.kind.Some? ==> p.kind == r.plan.kind)
    requires p.runOnceAt == r.plan.runOnceAt && p.minutes == r.plan.minutes && Jitter(p) <= Jitter(r.plan)
    requires forall f :: f in fired ==> f.at <= now
    ensures GoodRecord(r, fired)
  {
    if r.next.Some? {
      NextRunIsLater(p, cal, now, draw);
      if p.kind == Some(ByCron) {
        NextCronIsLeast(p.cron.value, cal, now);
      }
    }
  }

  ghost predicate OneEach(fs: seq<Firing>) {
    forall i, j :: 0 <= i < j < |fs| ==> fs[i].id != fs[j].id
  }

  ghost predicate StartedBy(f: Firing, r: Record, now: int) {
    IsDue(r, now) && f == FiringOf(r, now)
  }

  /** The runs a tick starts are those of the due records, each once. */
  lemma {:induction false} StartedIsDue(rs: seq<Record>, now: int)
    requires DistinctIds(rs)
    ensures forall f :: f in Started(rs, now) ==> exists r :: r in rs && StartedBy(f, r, now)
    ensures forall r :: r in rs && IsDue(r, now) ==> FiringOf(r, now) in Started(rs, now)
    ensures OneEach(Started(rs, now))
  {
    if rs != [] {
      var n := |rs| - 1;
      StartedIsDue(rs[..n], now);
      assert rs == rs[..n] + [rs[n]];
      var before := Started(rs[..n], now);
      forall f | f in before ensures f.id != rs[n].id && exists r :: r in rs && StartedBy(f, r, now) {
        var r :| r in rs[..n] && StartedBy(f, r, now);
        assert r in rs;
      }
      if IsDue(rs[n], now) {
        assert StartedBy(FiringOf(rs[n], now), rs[n], now);
      }
    }
  }

  lemma StartedOneMore(rs: seq<Record>, i: nat, now: int)
    requires i < |rs|
    ensures Started(rs[..i + 1], now)
         == Started(rs[..i], now) + if IsDue(rs[i], now) then [FiringOf(rs[i], now)] else []
  {
    assert rs[..i + 1][..i] == rs[..i];
  }

  lemma {:induction false} StartedAreNow(rs: seq<Record>, now: int)
    ensures forall f :: f in Started(rs, now) ==> f.due <= f.at == now
  {
    if rs != [] {
      StartedAreNow(rs[..|rs| - 1], now);
    }
  }

  lemma TickKeepsLog(s: State, clock: int, now: int)
    requires Inv(s, clock) && now >= clock
    ensures Apart(s.fired + Started(s.records, now))
    ensures forall f :: f in s.fired + Started(s.records, now) ==> GoodFiring(f, now)
  {
    var started := Started(s.records, now);
    StartedIsDue(s.records, now);
    forall f | f in started ensures GoodFiring(f, now) && forall g :: g in s.fired && g.id == f.id ==> After(g, f.plan, f.due, f.aim) {
      var r :| r in s.records && StartedBy(f, r, now);
      assert GoodRecord(r, s.fired);
    }
    var all := s.fired + started;
    forall i, j | 0 <= i < j < |all| && all[i].id == all[j].id ensures After(all[i], all[j].plan, all[j].due, all[j].aim) {
      if j >= |s.fired| {
        assert all[j] in started;
        assert i < |s.fired| ==> all[i] in s.fired;
      }
    }
  }

  lemma TickKeepsInv(s: State, cal: Calendar, clock: int, now: int, draws: nat -> Draw)
    requires Inv(s, clock) && now >= clock
    ensures Inv(Step(s, cal, Tick(now, draws)), now)
  {
    var s' := Step(s, cal, Tick(now, draws));
    TickKeepsLog(s, clock, now);
    StartedIsDue(s.records, now);
    forall r' | r' in s'.records ensures GoodRecord(r', s'.fired) {
      var i :| 0 <= i < |s'.records| && s'.records[i] == r';
      var r := s.records[i];
      assert GoodRecord(r, s.fired);
      if IsDue(r, now) {
        if r.plan.kind != Some(Once) {
          RecomputedIsGood(r', r.plan, cal, now, draws(i), s'.fired);
        }
      } else {
        forall f | f in Started(s.records, now) ensures f.id != r.id {
          var q :| q in s.records && StartedBy(f, q, now);
          var k :| 0 <= k < |s.records| && s.records[k] == q;
          assert k != i;
        }
      }
    }
  }

  lemma UpdateKeepsInv(s: State, clock: int, now: int, i: nat, r: Record)
    requires Inv(s, clock) && now >= clock && i < |s.records|
    requires r.id == s.records[i].id && GoodRecord(r, s.fired)
    ensures Inv(s.(records := s.records[i := r]), now)
  {
  }

  lemma SaveKeepsInv(s: State, cal: Calendar, clock: int, data: Data, uuid: Id, now: int, draw: Draw)
    requires Inv(s, clock) && now >= clock
    ensures Inv(Step(s, cal, Save(data, uuid, now, draw)), now)
  {
    var id := if data.id.Some? then data.id.value else uuid;
    var r := Saved(id, data, cal, now, draw);
    assert GoodRecord(r, s.fired) by {
      if r.active {
        RecomputedIsGood(r, data.plan, cal, now, draw, s.fired);
      }
    }
    var i := IndexOf(s.records, id);
    if i < |s.records| {
      UpdateKeepsInv(s, clock, now, i, r);
    }
  }

  lemma {:induction false} WithoutKeepsDistinct(rs: seq<Record>, id: Id)
    requires DistinctIds(rs)
    ensures DistinctIds(Without(rs, id))
  {
    if rs != [] {
      WithoutKeepsDistinct(rs[1..], id);
      var rest := Without(rs[1..], id);
      forall i | 0 <= i < |rest| ensures rest[i].id != rs[0].id {
        assert rest[i] in rs[1..];
      }
    }
  }

  lemma StepKeepsInv(s: State, cal: Calendar, clock: int, e: Event)
    requires Inv(s, clock) && e.now >= clock
    ensures Inv(Step(s, cal, e), e.now)
  {
    match e
    case Tick(now, draws) => TickKeepsInv(s, cal, clock, now, draws);
    case Toggle(id, active, now, draw) =>
      var i := IndexOf(s.records, id);
      if i < |s.records| {
        var r := Toggled(s.records[i], cal, active, now, draw);
        assert GoodRecord(s.records[i], s.fired);
        if active {
          RecomputedIsGood(r, r.plan, cal, now, draw, s.fired);
        }
        UpdateKeepsInv(s, clock, now, i, r);
      }
    case Save(data, uuid, now, draw) => SaveKeepsInv(s, cal, clock, data, uuid, now, draw);
    case Delete(id, now) => WithoutKeepsDistinct(s.records, id);
  }

  lemma {:induction false} RunKeepsInv(s: State, cal: Calendar, clock: int, es: seq<Event>) returns (end: int)
    requires Inv(s, clock) && WellTimed(es, clock)
    ensures Inv(Run(s, cal, es), end)
    decreases |es|
  {
    end := clock;
    if es != [] {
      StepKeepsInv(s, cal, clock, es[0]);
      end := RunKeepsInv(Step(s, cal, es[0]), cal, es[0].now, es[1..]);
    }
  }

  /**
   Over any run of ticks, toggles, saves and deletions from an empty list, under a clock that never goes
   back: no run starts before it is due; two runs of one schedule are never at the same time; an interval
   schedule runs no sooner after its previous run than its interval less its jitter; and a single run set
   for some time happens at most once.
   */
  lemma RunsKeepTheirDistance(cal: Calendar, es: seq<Event>, clock: int, i: nat, j: nat)
    requires WellTimed(es, clock)
    requires i < j < |Run(State([], []), cal, es).fired|
    requires Run(State([], []), cal, es).fired[i].id == Run(State([], []), cal, es).fired[j].id
    ensures var fired := Run(State([], []), cal, es).fired;
            var a, b := fired[i], fired[j];
            && b.at >= b.due > a.at >= a.due
            && (b.plan.kind == Some(Interval) ==> b.at - a.at >= (Minutes(b.plan) - Jitter(b.plan)) * MINUTE)
            && !(a.plan.kind == b.plan.kind == Some(Once) && a.plan.runOnceAt == b.plan.runOnceAt)
  {
    var end := RunKeepsInv(State([], []), cal, clock, es);
    var s := Run(State([], []), cal, es);
    assert s.fired[i] in s.fired && s.fired[j] in s.fired;
  }

  // ── How often a match is run ─────────────────────────────────────────────

  /** The match that a cron schedule's next run is for was the next one at some time up to now. */
  ghost predicate Aimed(r: Record, cal: Calendar, clock: int) {
    r.plan.kind == Some(ByCron) && r.next.Some? ==>
      r.plan.cron.Some? && r.aim.Some? && exists from :: from <= clock && NextCron(r.plan.cron.value, cal, from) == r.aim
  }

  ghost predicate AllAimed(s: State, cal: Calendar, clock: int) {
    forall i :: 0 <= i < |s.records| ==> Aimed(s.records[i], cal, clock)
  }

  lemma PlannedIsAimed(r: Record, p: Plan, cal: Calendar, now: int, draw: Draw, clock: int)
    requires now <= clock && p.cron == r.plan.cron && (p.kind.Some? ==> p.kind == r.plan.kind)
    ensures Aimed(Planned(r, p, cal, now, draw), cal, clock)
  {
  }

  lemma {:induction false} WithoutKeepsRecords(s: State, id: Id, cal: Calendar, clock: int)
    requires AllAimed(s, cal, clock)
    ensures AllAimed(s.(records := Without(s.records, id)), cal, clock)
  {
    var rs := Without(s.records, id);
    forall i | 0 <= i < |rs| ensures Aimed(rs[i], cal, clock) {
      assert rs[i] in s.records;
    }
  }

  lemma StepKeepsAimed(s: State, cal: Calendar, clock: int, e: Event)
    requires AllAimed(s, cal, clock) && e.now <= clock
    ensures AllAimed(Step(s, cal, e), cal, clock)
  {
    match e
    case Tick(now, draws) =>
      forall i | 0 <= i < |s.records| ensures Aimed(Ticked(s.records[i], cal, now, draws(i)), cal, clock) {
        PlannedIsAimed(s.records[i], s.records[i].plan, cal, now, draws(i), clock);
      }
    case Toggle(id, active, now, draw) =>
      var i := IndexOf(s.records, id);
      if i < |s.records| {
        PlannedIsAimed(s.records[i].(active := true), s.records[i].plan, cal, now, draw, clock);
      }
    case Save(data, uuid, now, draw) =>
      var r := Saved(if data.id.Some? then data.id.value else uuid, data, cal, now, draw);
      PlannedIsAimed(r, data.plan, cal, now, draw, clock);
      assert Aimed(r, cal, clock);
    case Delete(id, now) => WithoutKeepsRecords(s, id, cal, clock);
  }

  lemma {:induction false} RunKeepsAimed(s: State, cal: Calendar, clock: int, es: seq<Event>)
    requires AllAimed(s, cal, clock) && forall k :: 0 <= k < |es| ==> es[k].now <= clock
    ensures AllAimed(Run(s, cal, es), cal, clock)
    decreases |es|
  {
    if es != [] {
      StepKeepsAimed(s, cal, clock, es[0]);
      RunKeepsAimed(Step(s, cal, es[0]), cal, clock, es[1..]);
    }
  }

  /** The next match is still the same exactly as long as it has not come. */
  lemma StartKeepsOrder(from: int, now: int)
    requires from <= now
    ensures Start(from) <= Start(now)
  {
    if Start(now) < Start(from) {
      BetweenMinutes(Start(now), Start(from));
    }
  }

  lemma SameMatchIff(cron: seq<string>, cal: Calendar, from: int, now: int, hit: int)
    requires from <= now && NextCron(cron, cal, from) == Some(hit)
    ensures NextCron(cron, cal, now) == Some(hit) <==> now < hit
  {
    NextCronIsLeast(cron, cal, from);
    NextCronIsLeast(cron, cal, now);
    StartKeepsOrder(from, now);
    if now < hit {
      assert MatchesAt(cron, cal, hit);
      var again := NextCron(cron, cal, now);
      assert again.Some? && MatchesAt(cron, cal, again.value);
    }
  }

  /**
   In whatever way a schedule has come to be due: after a cron run, the next run is for the same match again
   if and only if this run began before the match, which only jitter can bring about.
   */
  lemma SameMatchAgainIff(cal: Calendar, es: seq<Event>, now: int, draws: nat -> Draw, i: nat)
    requires forall k :: 0 <= k < |es| ==> es[k].now <= now
    requires var s := Run(State([], []), cal, es);
             i < |s.records| && IsDue(s.records[i], now) && s.records[i].plan.kind == Some(ByCron)
    ensures var s := Run(State([], []), cal, es);
            var t := Step(s, cal, Tick(now, draws));
            && s.records[i].aim.Some?
            && (t.records[i].next.Some? && t.records[i].aim == s.records[i].aim <==> now < s.records[i].aim.value)
  {
    RunKeepsAimed(State([], []), cal, now, es);
    var r := Run(State([], []), cal, es).records[i];
    assert Aimed(r, cal, now);
    var from :| from <= now && NextCron(r.plan.cron.value, cal, from) == r.aim;
    SameMatchIff(r.plan.cron.value, cal, from, now, r.aim.value);
  }

  /**
   Over any run: a match is run twice by one schedule only if the earlier run began before it. So without
   jitter each match is run at most once.
   */
  lemma MatchTwiceOnlyIfEarly(cal: Calendar, es: seq<Event>, clock: int, i: nat, j: nat)
    requires WellTimed(es, clock)
    requires i < j < |Run(State([], []), cal, es).fired|
    requires var fired := Run(State([], []), cal, es).fired;
             fired[i].id == fired[j].id && fired[i].plan.kind == Some(ByCron) && fired[i].aim == fired[j].aim
    ensures var f := Run(State([], []), cal, es).fired[i]; f.aim.Some? && f.at < f.aim.value && Jitter(f.plan) > 0
  {
    var end := RunKeepsInv(State([], []), cal, clock, es);
    var s := Run(State([], []), cal, es);
    assert s.fired[i] in s.fired && s.fired[j] in s.fired;
  }

  // ── Schedules that fall silent ───────────────────────────────────────────

  /**
   No next run can be found: a single run without a time or with one that is past, a cron schedule without
   an expression or without a match in the fourteen days.
   */
  ghost predicate HasNoNext(p: Plan, cal: Calendar, from: int) {
    match p.kind
    case None => true
    case Some(Once) => p.runOnceAt.None? || p.runOnceAt.value <= from
    case Some(Interval) => false
    case Some(ByCron) => p.cron.None? || NoneBetween(p.cron.value, cal, from, Start(from) + HORIZON)
  }

  lemma NoNextIff(p: Plan, cal: Calendar, from: int, draw: Draw)
    ensures CalculateNextRun(p, cal, from, draw).None? <==> HasNoNext(p, cal, from)
  {
    if p.kind == Some(ByCron) && p.cron.Some? {
      NextCronIsLeast(p.cron.value, cal, from);
    }
  }

  ghost predicate OnlyTicks(es: seq<Event>) {
    forall k :: 0 <= k < |es| ==> es[k].Tick?
  }

  /** These events start no run of this schedule. */
  ghost predicate NoneStarted(s: State, cal: Calendar, es: seq<Event>, id: Id) {
    forall k :: |s.fired| <= k < |Run(s, cal, es).fired| ==> Run(s, cal, es).fired[k].id != id
  }

  /** However long the clock goes on, no tick will run this schedule. */
  ghost predicate SilentForever(s: State, cal: Calendar, clock: int, id: Id) {
    forall es :: OnlyTicks(es) && WellTimed(es, clock) ==> NoneStarted(s, cal, es, id)
  }

  /** Without a next run a schedule is left alone by all ticks. */
  lemma {:induction false} SilentUntilTouched(s: State, cal: Calendar, es: seq<Event>, i: nat)
    requires OnlyTicks(es) && i < |s.records| && s.records[i].next.None? && DistinctIds(s.records)
    ensures s.fired <= Run(s, cal, es).fired && NoneStarted(s, cal, es, s.records[i].id)
    ensures var s' := Run(s, cal, es); |s'.records| == |s.records| && s'.records[i] == s.records[i]
    decreases |es|
  {
    if es != [] {
      assert es[0].Tick?;
      var s1 := Step(s, cal, es[0]);
      StartedIsDue(s.records, es[0].now);
      var started := Started(s.records, es[0].now);
      forall f | f in started ensures f.id != s.records[i].id {
        var r :| r in s.records && StartedBy(f, r, es[0].now);
      }
      SilentUntilTouched(s1, cal, es[1..], i);
    }
  }

  /** An active schedule is never run by any ticks if and only if it has no next run. */
  lemma SilentIff(s: State, cal: Calendar, clock: int, i: nat)
    requires i < |s.records| && s.records[i].active && DistinctIds(s.records)
    ensures SilentForever(s, cal, clock, s.records[i].id) <==> s.records[i].next.None?
  {
    var r := s.records[i];
    if r.next.None? {
      forall es | OnlyTicks(es) && WellTimed(es, clock) ensures NoneStarted(s, cal, es, r.id) {
        SilentUntilTouched(s, cal, es, i);
      }
    } else {
      var now := if r.next.value < clock then clock else r.next.value;
      var es := [Tick(now, _ => 0.0)];
      StartedIsDue(s.records, now);
      var f := FiringOf(r, now);
      assert IsDue(r, now) && f in Started(s.records, now);
      assert es[1..] == [];
      assert Run(s, cal, es).fired == s.fired + Started(s.records, now);
      var k :| 0 <= k < |Started(s.records, now)| && Started(s.records, now)[k] == f;
      var run := Run(s, cal, es).fired;
      assert |s.fired| <= |s.fired| + k < |run| && run[|s.fired| + k] == f;
      assert !NoneStarted(s, cal, es, r.id);
      assert OnlyTicks(es) && WellTimed(es, clock);
    }
  }

  /**
   After a run, a schedule with an interval or a cron expression is never run again if and only if it has no
   next run from now: a cron schedule whose next match is over fourteen days off has had its last run, while
   it is still listed as active.
   */
  lemma RunThenSilentIff(s: State, cal: Calendar, now: int, draws: nat -> Draw, i: nat)
    requires i < |s.records| && DistinctIds(s.records)
    requires IsDue(s.records[i], now) && s.records[i].plan.kind != Some(Once)
    ensures var t := Step(s, cal, Tick(now, draws));
            && t.records[i].active
            && FiringOf(s.records[i], now) in t.fired
            && (SilentForever(t, cal, now, s.records[i].id) <==> HasNoNext(s.records[i].plan, cal, now))
  {
    var t := Step(s, cal, Tick(now, draws));
    StartedIsDue(s.records, now);
    NoNextIff(s.records[i].plan, cal, now, draws(i));
    SilentIff(t, cal, now, i);
  }

  /** The same right after it is switched on. */
  lemma ToggledSilentIff(s: State, cal: Calendar, id: Id, now: int, draw: Draw)
    requires DistinctIds(s.records) && IndexOf(s.records, id) < |s.records|
    ensures var r := s.records[IndexOf(s.records, id)];
            SilentForever(Step(s, cal, Toggle(id, true, now, draw)), cal, now, id) <==> HasNoNext(r.plan, cal, now)
  {
    var i := IndexOf(s.records, id);
    NoNextIff(s.records[i].plan, cal, now, draw);
    SilentIff(Step(s, cal, Toggle(id, true, now, draw)), cal, now, i);
  }

  /** What the only caller of a save passes on: parsed, with a trigger type and a jitter filled in. */
  predicate Parsed(data: Data) {
    data.plan.kind.Some? && data.plan.jitter.Some? && 0 <= data.plan.jitter.value <= 120
    && (data.plan.minutes.Some? ==> data.plan.minutes.value >= 1)
  }

  /**
   And right after an active schedule is saved: it is never run if and only if it is a cron schedule without
   an expression or without a match in the fourteen days, or a single run without a time or already past.
   */
  lemma SavedSilentIff(s: State, cal: Calendar, data: Data, uuid: Id, now: int, draw: Draw)
    requires DistinctIds(s.records) && Parsed(data) && data.active != Some(false)
    ensures var id := if data.id.Some? then data.id.value else uuid;
            var t := Step(s, cal, Save(data, uuid, now, draw));
            && (exists r :: r in t.records && r.id == id && r.active && r.plan == data.plan)
            && (SilentForever(t, cal, now, id) <==>
                  match data.plan.kind.value
                  case Once => data.plan.runOnceAt.None? || data.plan.runOnceAt.value <= now
                  case Interval => false
                  case ByCron => data.plan.cron.None? || NoneBetween(data.plan.cron.value, cal, now, Start(now) + HORIZON))
  {
    var id := if data.id.Some? then data.id.value else uuid;
    var t := Step(s, cal, Save(data, uuid, now, draw));
    var i := IndexOf(s.records, id);
    var at := if i < |s.records| then i else 0;
    assert t.records[at] == Saved(id, data, cal, now, draw);
    NoNextIff(data.plan, cal, now, draw);
    SilentIff(t, cal, now, at);
  }

  /** The UTC calendar of January 1970, by minute. */
  function January(m: int): Fields {
    Fields(m % 60, m / 60 % 24, m / 1440 % 31 + 1, 1, (m / 1440 + 4) % 7)
  }

  /** At nine in the morning of the first of every month. */
  const MONTHLY := ["0", "9", "1", "*", "*"]

  const NINE_ON_THE_FIRST := 540 * MINUTE

  lemma MonthlyMatches(m: int)
    ensures Matches(MONTHLY, January(m)) <==> m % 60 == 0 && m / 60 % 24 == 9 && m / 1440 % 31 == 0
  {
    assert forall v: nat :: MatchField("0", v) <==> v == 0 by { OneDigit("0", 0); }
    assert forall v: nat :: MatchField("9", v) <==> v == 9 by { OneDigit("9", 9); }
    assert forall v: nat :: MatchField("1", v) <==> v == 1 by { OneDigit("1", 1); }
  }

  lemma OneDigit(text: string, n: nat)
    requires n < 10 && text == ['0' + n as char]
    ensures forall v: nat :: MatchField(text, v) <==> v == n
  {
    forall v: nat ensures MatchField(text, v) <==> v == n {
      FieldMeansItsSet(Exactly(n), v);
      assert FieldText(Exactly(n)) == text;
    }
  }

  lemma NoSecondFirst()
    ensures NoneBetween(MONTHLY, January, NINE_ON_THE_FIRST, Start(NINE_ON_THE_FIRST) + HORIZON)
  {
    forall t | NINE_ON_THE_FIRST < t < Start(NINE_ON_THE_FIRST) + HORIZON ensures !MatchesAt(MONTHLY, January, t) {
      MonthlyMatches(t / MINUTE);
    }
  }

  /** A monthly schedule runs on the first, and then never again. */
  lemma MonthlyRunsOnce(s: State, draws: nat -> Draw, i: nat)
    requires i < |s.records| && DistinctIds(s.records) && IsDue(s.records[i], NINE_ON_THE_FIRST)
    requires s.records[i].plan.kind == Some(ByCron) && s.records[i].plan.cron == Some(MONTHLY)
    ensures var t := Step(s, January, Tick(NINE_ON_THE_FIRST, draws));
            t.records[i].active && SilentForever(t, January, NINE_ON_THE_FIRST, s.records[i].id)
  {
    NoSecondFirst();
    RunThenSilentIff(s, January, NINE_ON_THE_FIRST, draws, i);
  }

  /** Such a schedule exists: saved half an hour before nine, without jitter, it is due at nine. */
  lemma MonthlyIsDueOnce(draws: nat -> Draw)
    ensures var data := Data(Some(0), None, Plan(Some(ByCron), None, None, Some(MONTHLY), Some(0)));
            var es := [Save(data, 0, 510 * MINUTE, 0.0), Tick(NINE_ON_THE_FIRST, draws)];
            var t := Run(State([], []), January, es);
            && t.fired == [Firing(0, data.plan, NINE_ON_THE_FIRST, NINE_ON_THE_FIRST, Some(NINE_ON_THE_FIRST))]
            && SilentForever(t, January, NINE_ON_THE_FIRST, 0)
  {
    var data := Data(Some(0), None, Plan(Some(ByCron), None, None, Some(MONTHLY), Some(0)));
    var save, tick := Save(data, 0, 510 * MINUTE, 0.0), Tick(NINE_ON_THE_FIRST, draws);
    FirstIsNext();
    var s := Step(State([], []), January, save);
    var r := Record(0, true, data.plan, Some(NINE_ON_THE_FIRST), Some(NINE_ON_THE_FIRST));
    assert s == State([r], []);
    assert Started([r], NINE_ON_THE_FIRST) == [Firing(0, data.plan, NINE_ON_THE_FIRST, NINE_ON_THE_FIRST, Some(NINE_ON_THE_FIRST))] by {
      assert [r][..0] == [];
    }
    MonthlyRunsOnce(s, draws, 0);
    var es := [save, tick];
    assert es[1..] == [tick] && [tick][1..] == [];
    assert Run(s, January, [tick]) == Run(Step(s, January, tick), January, []);
    assert Run(State([], []), January, es) == Run(s, January, es[1..]);
  }

  lemma FirstIsNext()
    ensures NextCron(MONTHLY, January, 510 * MINUTE) == Some(NINE_ON_THE_FIRST)
  {
    NextCronIsLeast(MONTHLY, January, 510 * MINUTE);
    var r := NextCron(MONTHLY, January, 510 * MINUTE);
    MonthlyMatches(540);
    assert MatchesAt(MONTHLY, January, NINE_ON_THE_FIRST);
    if r.Some? {
      MonthlyMatches(r.value / MINUTE);
    }
  }

  // ── One match, many runs ─────────────────────────────────────────────────

  /** At nine every morning, with ten minutes of jitter. */
  const DAILY := Plan(Some(ByCron), None, None, Some(["0", "9", "*", "*", "*"]), Some(10))

  /** Half-minutes from ten minutes before nine. */
  function Ahead(k: nat): int {
    530 * MINUTE + 30_000 * k
  }

  lemma DailyMatches(m: int)
    ensures Matches(DAILY.cron.value, January(m)) <==> m % 60 == 0 && m / 60 % 24 == 9
  {
    assert forall v: nat :: MatchField("0", v) <==> v == 0 by { OneDigit("0", 0); }
    assert forall v: nat :: MatchField("9", v) <==> v == 9 by { OneDigit("9", 9); }
  }

  lemma NineIsNext(from: int)
    requires 0 <= from < NINE_ON_THE_FIRST
    ensures NextCron(DAILY.cron.value, January, from) == Some(NINE_ON_THE_FIRST)
  {
    NextCronIsLeast(DAILY.cron.value, January, from);
    var r := NextCron(DAILY.cron.value, January, from);
    DailyMatches(540);
    assert MatchesAt(DAILY.cron.value, January, NINE_ON_THE_FIRST);
    if r.Some? {
      DailyMatches(r.value / MINUTE);
    }
  }

  /** The lowest draw moves the run ten minutes ahead of nine; past that, the next run is in half a minute. */
  lemma NextIsAhead(k: nat)
    requires k < 20
    ensures CalculateNextRun(DAILY, January, Ahead(k), 0.0) == Some(Ahead(k + 1))
    ensures Aim(DAILY, January, Ahead(k)) == Some(NINE_ON_THE_FIRST)
  {
    NineIsNext(Ahead(k));
    assert JitterMs(0.0, 10) == -600_000;
  }

  function EarlyRecord(k: nat): Record {
    Record(0, true, DAILY, Some(Ahead(k)), Some(NINE_ON_THE_FIRST))
  }

  function Ticks(n: nat): seq<Event> {
    if n == 0 then [] else Ticks(n - 1) + [Tick(Ahead(n - 1), _ => 0.0)]
  }

  lemma {:induction false} RunOneMore(s: State, cal: Calendar, es: seq<Event>, e: Event)
    ensures Run(s, cal, es + [e]) == Step(Run(s, cal, es), cal, e)
    decreases |es|
  {
    if es == [] {
      assert [] + [e] == [e] && [e][1..] == [];
    } else {
      assert (es + [e])[1..] == es[1..] + [e];
      RunOneMore(Step(s, cal, es[0]), cal, es[1..], e);
    }
  }

  /** Each tick runs the schedule, for nine o'clock, and plans the next run half a minute later. */
  lemma {:induction false} EarlyTicks(n: nat)
    requires n <= 20
    ensures var t := Run(State([EarlyRecord(0)], []), January, Ticks(n));
            && t.records == [EarlyRecord(n)] && |t.fired| == n
            && forall f :: f in t.fired ==> f.id == 0 && f.aim == Some(NINE_ON_THE_FIRST)
  {
    if n > 0 {
      EarlyTicks(n - 1);
      var start := State([EarlyRecord(0)], []);
      var s := Run(start, January, Ticks(n - 1));
      var tick := Tick(Ahead(n - 1), _ => 0.0);
      RunOneMore(start, January, Ticks(n - 1), tick);
      NextIsAhead(n - 1);
      var r := EarlyRecord(n - 1);
      assert Started([r], Ahead(n - 1)) == [FiringOf(r, Ahead(n - 1))] by {
        assert [r][..0] == [];
      }
      assert Ticked(r, January, Ahead(n - 1), 0.0) == EarlyRecord(n);
    }
  }

  /** Saved at twenty past eight and ticked every half-minute, the schedule runs twenty times for one nine o'clock. */
  lemma TwentyRunsForOneMatch()
    ensures var save := Save(Data(Some(0), None, DAILY), 0, 500 * MINUTE, 0.0);
            var t := Run(State([], []), January, [save] + Ticks(20));
            && Parsed(save.data) && |t.fired| == 20
            && forall f :: f in t.fired ==> f.id == 0 && f.aim == Some(NINE_ON_THE_FIRST)
  {
    var save := Save(Data(Some(0), None, DAILY), 0, 500 * MINUTE, 0.0);
    NineIsNext(500 * MINUTE);
    assert JitterMs(0.0, 10) == -600_000;
    assert Step(State([], []), January, save) == State([EarlyRecord(0)], []);
    assert ([save] + Ticks(20))[1..] == Ticks(20);
    EarlyTicks(20);
  }

  // ── The service ──────────────────────────────────────────────────────────

  /** The stored list of one tenant, changed record by record; `clock` is the time of the last change. */
  class FarmSchedulerService {
    var schedules: seq<Record>
    var runs: seq<Firing>
    ghost var clock: int
    const cal: Calendar

    function Model(): State
      reads this`schedules, this`runs
    {
      State(schedules, runs)
    }

    /** Names are distinct, and every next run comes after all earlier runs of its schedule. */
    ghost predicate Valid()
      reads this
    {
      Inv(Model(), clock)
    }

    constructor (cal: Calendar, now: int)
      ensures Valid() && Model() == State([], []) && this.cal == cal && clock == now
    {
      schedules, runs, clock := [], [], now;
      this.cal := cal;
    }

    /** The loop over the list. */
    method RunDue(now: int, draws: nat -> Draw)
      modifies this`schedules, this`runs
      ensures Model() == Step(old(Model()), cal, Event.Tick(now, draws))
    {
      ghost var was := schedules;
      var i := 0;
      while i < |schedules|
        invariant i <= |schedules| == |was|
        invariant forall k :: 0 <= k < i ==> schedules[k] == Ticked(was[k], cal, now, draws(k))
        invariant forall k :: i <= k < |schedules| ==> schedules[k] == was[k]
        invariant runs == old(runs) + Started(was[..i], now)
      {
        var schedule := schedules[i];
        StartedOneMore(was, i, now);
        if schedule.active && schedule.next.Some? && schedule.next.value <= now {
          runs := runs + [FiringOf(schedule, now)];
          if schedule.plan.kind == Some(Once) {
            schedule := schedule.(active := false, next := None);
          } else {
            schedule := Planned(schedule, schedule.plan, cal, now, draws(i));
          }
          schedules := schedules[i := schedule];
        }
        i := i + 1;
      }
      assert was[..i] == was;
      assert schedules == AllTicked(was, cal, now, draws);
    }

    /** Starts exactly the due schedules, none of them sooner after its last run than it may. */
    method Tick(now: int, draws: nat -> Draw)
      requires Valid() && now >= clock
      modifies this
      ensures Valid() && clock == now && Model() == Step(old(Model()), cal, Event.Tick(now, draws))
      ensures old(runs) <= runs && Apart(runs)
      ensures forall k :: old(|runs|) <= k < |runs| ==> runs[k].due <= runs[k].at == now
      ensures forall r :: r in old(schedules) && IsDue(r, now) ==> FiringOf(r, now) in runs
      ensures |schedules| == |old(schedules)|
      ensures forall i :: 0 <= i < |schedules| ==> AfterTick(old(schedules)[i], schedules[i], now)
    {
      TickKeepsInv(Model(), cal, clock, now, draws);
      StartedIsDue(schedules, now);
      StartedAreNow(schedules, now);
      RunDue(now, draws);
      clock := now;
      forall i | 0 <= i < |schedules| ensures AfterTick(old(schedules)[i], schedules[i], now) {
        TickedIsAfterTick(old(schedules)[i], cal, now, draws(i));
      }
    }

    /** A switched-on schedule gets a next run exactly if there is one; switched off it has none. */
    method ToggleSchedule(id: Id, active: bool, now: int, draw: Draw) returns (found: Option<Record>)
      requires Valid() && now >= clock
      modifies this
      ensures Valid() && clock == now && Model() == Step(old(Model()), cal, Toggle(id, active, now, draw))
      ensures found.Some? <==> exists r :: r in old(schedules) && r.id == id
      ensures found.Some? ==> found.value.id == id && found.value.active == active && found.value in schedules
      ensures found.Some? ==> (found.value.next.None? <==> !active || HasNoNext(found.value.plan, cal, now))
      ensures found.Some? ==> exists r :: r in old(schedules) && r.id == id && r.plan == found.value.plan
      ensures |schedules| == |old(schedules)|
      ensures forall k :: 0 <= k < |schedules| && old(schedules)[k].id != id ==> schedules[k] == old(schedules)[k]
    {
      StepKeepsInv(Model(), cal, clock, Toggle(id, active, now, draw));
      clock := now;
      var i := IndexOf(schedules, id);
      if i == |schedules| {
        return None;
      }
      assert schedules[i] in schedules;
      NoNextIff(schedules[i].plan, cal, now, draw);
      var target := schedules[i].(active := active);
      if active {
        target := Planned(target, target.plan, cal, now, draw);
      } else {
        target := target.(next := None);
      }
      schedules := schedules[i := target];
      assert schedules[i] == target;
      found := Some(target);
    }

    /** Stores one record of that name, with a next run exactly if it is active and there is one. */
    method SaveSchedule(data: Data, uuid: Id, now: int, draw: Draw) returns (record: Record)
      requires Valid() && now >= clock
      modifies this
      ensures Valid() && clock == now && Model() == Step(old(Model()), cal, Save(data, uuid, now, draw))
      ensures record in schedules && record.id == if data.id.Some? then data.id.value else uuid
      ensures record.active <==> data.active != Some(false)
      ensures record.plan.(kind := data.plan.kind, jitter := data.plan.jitter) == data.plan
      ensures record.plan.kind == (if data.plan.kind.Some? then data.plan.kind else Some(Interval))
      ensures record.plan.jitter == (if data.plan.jitter.Some? then data.plan.jitter else Some(10))
      ensures record.next.None? <==> !record.active || HasNoNext(data.plan, cal, now)
      ensures forall r :: r in old(schedules) && r.id != record.id ==> r in schedules
    {
      StepKeepsInv(Model(), cal, clock, Save(data, uuid, now, draw));
      NoNextIff(data.plan, cal, now, draw);
      clock := now;
      var id := if data.id.Some? then data.id.value else uuid;
      record := Saved(id, data, cal, now, draw);
      var i := IndexOf(schedules, id);
      if i < |schedules| {
        schedules := schedules[i := record];
        assert schedules[i] == record;
      } else {
        schedules := [record] + schedules;
      }
      forall r | r in old(schedules) && r.id != id ensures r in schedules {
        var k :| 0 <= k < |old(schedules)| && old(schedules)[k] == r;
        assert schedules[if |schedules| == |old(schedules)| then k else k + 1] == r;
      }
    }

    method DeleteSchedule(id: Id, now: int)
      requires Valid() && now >= clock
      modifies this
      ensures Valid() && clock == now && Model() == Step(old(Model()), cal, Delete(id, now))
      ensures forall r :: r in schedules <==> r in old(schedules) && r.id != id
    {
      StepKeepsInv(Model(), cal, clock, Delete(id, now));
      clock := now;
      schedules := Without(schedules, id);
    }
  }
}
