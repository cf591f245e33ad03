/** Request handlers of the agent: the mutex of their phone, then the lease on the shared proxy, then the work. */
module Handlers {
  import opened Common
  import opened Gateway
  import TaskLease
  import P = Publish

  // A handler gives both back at its end; after a publish that may have posted, the lease is kept a little longer
  // by a timer. Handlers are numbered in the order in which they asked for the mutex, which is first come, first
  // served. The lease is the proxy manager's own, with its sleepers, callbacks and wiring, and everything else
  // the manager does may happen in between.

  /**
   Where a handler stands: waiting for the mutex, about to ask for the lease, in the manager's waiting loop,
   with the lease while the proxy moves and its address is refreshed, at work, done with the phone while a
   timer still keeps the lease. `h` is the handle on the lease; without a shared proxy there is none.
   */
  datatype TaskPhase =
    | Queued
    | Asking
    | Waiting
    | Moving(h: nat)
    | Refreshing(h: nat)
    | Working(handle: Option<nat>)
    | Holding(h: nat)
    | Done

  datatype Task = Task(dev: DeviceId, phase: TaskPhase)

  datatype Farm = Farm(tasks: seq<Task>, gate: State)

  datatype Event =
    | Arrive(dev: DeviceId)
    | TakeMutex(t: nat)
    | Ask(t: nat)
    | Look(t: nat, expired: bool)  // woken, the handler looks at the lease again
    | Move(t: nat, ok: bool)       // the wiring has ended
    | Refresh(t: nat)
    | Finish(t: nat, hold: bool)   // the work ended or threw; `hold` hands the release to a timer
    | HoldOver(t: nat)
    | GiveUp(t: nat)               // the wait for the mutex timed out
    | Timer(t: nat)                // a sleeper's five seconds are over
    | Other(e: Gateway.Event)      // whatever else the manager does

  function HandleOf(phase: TaskPhase): Option<nat> {
    match phase
    case Moving(h) => Some(h)
    case Refreshing(h) => Some(h)
    case Working(handle) => handle
    case Holding(h) => Some(h)
    case _ => None
  }

  /** The phase of its handle. */
  function GatePhase(phase: TaskPhase): Phase {
    match phase
    case Moving(_) => Switching
    case Refreshing(_) => Settling
    case _ => Ready
  }

  predicate Past(phase: TaskPhase) {
    phase.Holding? || phase.Done?
  }

  /** Everybody who asked for this phone before has left its mutex. */
  predicate MutexFree(tasks: seq<Task>, t: nat)
    requires t < |tasks|
  {
    forall i :: 0 <= i < t && tasks[i].dev == tasks[t].dev ==> Past(tasks[i].phase)
  }

  function PhaseAt(s: Farm, t: nat): TaskPhase {
    if t < |s.tasks| then s.tasks[t].phase else Done
  }

  predicate Enabled(s: Farm, e: Event) {
    match e
    case Arrive(_) => true
    case TakeMutex(t) => PhaseAt(s, t).Queued? && MutexFree(s.tasks, t)
    case Ask(t) => PhaseAt(s, t).Asking?
    case Look(t, _) => PhaseAt(s, t).Waiting? && t in s.gate.desk.woken
    case Move(t, _) => PhaseAt(s, t).Moving?
    case Refresh(t) => PhaseAt(s, t).Refreshing?
    case Finish(t, _) => PhaseAt(s, t).Working?
    case HoldOver(t) => PhaseAt(s, t).Holding?
    case GiveUp(t) => PhaseAt(s, t).Queued?
    case Timer(t) => PhaseAt(s, t).Waiting? && t in s.gate.desk.parked
    case Other(ge) => !LeaseEvent(ge)
  }

  /** The task goes on, and the manager takes one step. */
  function With(s: Farm, t: nat, phase: TaskPhase, gate: State): Farm
    requires t < |s.tasks|
  {
    Farm(s.tasks[t := s.tasks[t].(phase := phase)], gate)
  }

  /** After a look at the lease: asleep, or with a new handle, or refused because there is no proxy to hand over. */
  function AfterLook(g: State, g': State): TaskPhase {
    var h := |g.desk.handles|;
    if |g'.desk.handles| <= h then Waiting
    else
      match g'.desk.handles[h].phase
      case Switching => Moving(h)
      case Settling => Refreshing(h)
      case _ => Done
  }

  function Asked(s: Farm, t: nat): Farm
    requires t < |s.tasks|
  {
    var gate := Entered(s.gate, t, s.tasks[t].dev);
    With(s, t, if Enforced(s.gate) then AfterLook(s.gate, gate) else Working(None), gate)
  }

  function Looked(s: Farm, t: nat, expired: bool): Farm
    requires t < |s.tasks|
  {
    var gate := Resumed(s.gate, t, expired);
    With(s, t, if expired && OtherHolds(s.gate.desk, s.tasks[t].dev) then Done else AfterLook(s.gate, gate), gate)
  }

  /** The handle is given back. */
  function LeftLease(s: Farm, t: nat, h: nat): Farm
    requires t < |s.tasks|
  {
    With(s, t, Done, s.gate.(desk := HandleReleased(s.gate.desk, h)))
  }

  function Finished(s: Farm, t: nat, handle: Option<nat>, hold: bool): Farm
    requires t < |s.tasks|
  {
    if handle.None? then With(s, t, Done, s.gate)
    else if hold then With(s, t, Holding(handle.value), s.gate)
    else LeftLease(s, t, handle.value)
  }

  function Step(s: Farm, e: Event): Farm
    requires Enabled(s, e)
  {
    match e
    case Arrive(dev) => s.(tasks := s.tasks + [Task(dev, Queued)])
    case TakeMutex(t) => With(s, t, Asking, s.gate)
    case Ask(t) => Asked(s, t)
    case Look(t, expired) => Looked(s, t, expired)
    case Move(t, ok) =>
      var h := s.tasks[t].phase.h;
      With(s, t, if ok then Refreshing(h) else Done, Wired(s.gate, h, ok))
    case Refresh(t) =>
      var h := s.tasks[t].phase.h;
      With(s, t, Working(Some(h)), s.gate.(desk := Returned(s.gate.desk, h)))
    case Finish(t, hold) => Finished(s, t, s.tasks[t].phase.handle, hold)
    case HoldOver(t) => LeftLease(s, t, s.tasks[t].phase.h)
    case GiveUp(t) => With(s, t, Done, s.gate)
    case Timer(t) => s.(gate := s.gate.(desk := TimerDesk(s.gate.desk, t)))
    case Other(ge) => s.(gate := Gateway.Step(s.gate, ge))
  }

  // ── What every step keeps ────────────────────────────────────────────────

  /** Handles that are not given back are in the hands of exactly one task each, of the right phone and phase. */
  ghost predicate Linked(tasks: seq<Task>, handles: seq<Handle>) {
    && (forall t, h :: 0 <= t < |tasks| && HandleOf(tasks[t].phase) == Some(h) ==>
          h < |handles| && handles[h] == Handle(tasks[t].dev, GatePhase(tasks[t].phase)))
    && (forall t, u :: 0 <= t < u < |tasks| && HandleOf(tasks[t].phase).Some? ==>
          HandleOf(tasks[t].phase) != HandleOf(tasks[u].phase))
    && (forall h :: 0 <= h < |handles| && handles[h].phase != Released ==> Owned(tasks, h))
  }

  ghost predicate Owned(tasks: seq<Task>, h: nat) {
    exists t :: 0 <= t < |tasks| && HandleOf(tasks[t].phase) == Some(h)
  }

  /** Asleep or just woken are exactly the waiting tasks, for their phones. */
  ghost predicate Sleepers(tasks: seq<Task>, d: Desk) {
    && d.parked.Keys !! d.woken.Keys
    && (forall a :: a in d.parked || a in d.woken <==> 0 <= a < |tasks| && tasks[a].phase.Waiting?)
    && (forall a :: a in d.parked ==> d.parked[a] == tasks[a].dev)
    && (forall a :: a in d.woken ==> d.woken[a] == tasks[a].dev)
  }

  /** One task at a time past the mutex of a phone. */
  ghost predicate OneInside(tasks: seq<Task>) {
    forall i, j :: 0 <= i < j < |tasks| && tasks[i].dev == tasks[j].dev && Inside(tasks[j].phase) ==> Past(tasks[i].phase)
  }

  predicate Inside(phase: TaskPhase) {
    !phase.Queued? && !phase.Done?
  }

  ghost predicate Inv(s: Farm) {
    && TaskLease.Inv(s.gate.desk)
    && Linked(s.tasks, s.gate.desk.handles)
    && Sleepers(s.tasks, s.gate.desk)
    && OneInside(s.tasks)
  }

  lemma InsideKept(tasks: seq<Task>, t: nat, phase: TaskPhase)
    requires OneInside(tasks) && t < |tasks|
    requires Past(tasks[t].phase) ==> Past(phase)
    requires Inside(phase) ==> Inside(tasks[t].phase) || MutexFree(tasks, t)
    ensures OneInside(tasks[t := tasks[t].(phase := phase)])
  {
  }

  lemma NoHandleKept(tasks: seq<Task>, t: nat, phase: TaskPhase, handles: seq<Handle>)
    requires Linked(tasks, handles) && t < |tasks| && HandleOf(tasks[t].phase).None? && HandleOf(phase).None?
    ensures Linked(tasks[t := tasks[t].(phase := phase)], handles)
  {
    var tasks' := tasks[t := tasks[t].(phase := phase)];
    forall h | 0 <= h < |handles| && handles[h].phase != Released ensures Owned(tasks', h) {
      var u :| 0 <= u < |tasks| && HandleOf(tasks[u].phase) == Some(h);
      assert HandleOf(tasks'[u].phase) == Some(h);
    }
  }

  lemma HandleAdded(tasks: seq<Task>, t: nat, phase: TaskPhase, handles: seq<Handle>)
    requires Linked(tasks, handles) && t < |tasks| && HandleOf(tasks[t].phase).None?
    requires HandleOf(phase) == Some(|handles|)
    ensures Linked(tasks[t := tasks[t].(phase := phase)], handles + [Handle(tasks[t].dev, GatePhase(phase))])
  {
    var tasks' := tasks[t := tasks[t].(phase := phase)];
    forall h | 0 <= h < |handles| && handles[h].phase != Released ensures Owned(tasks', h) {
      var u :| 0 <= u < |tasks| && HandleOf(tasks[u].phase) == Some(h);
      assert HandleOf(tasks'[u].phase) == Some(h);
    }
    assert HandleOf(tasks'[t].phase) == Some(|handles|);
  }

  /** A handle that is given back at once belongs to nobody. */
  lemma HandleRefused(tasks: seq<Task>, handles: seq<Handle>, dev: DeviceId)
    requires Linked(tasks, handles)
    ensures Linked(tasks, handles + [Handle(dev, Released)])
  {
  }

  lemma HandleMoved(tasks: seq<Task>, t: nat, phase: TaskPhase, handles: seq<Handle>, h: nat)
    requires Linked(tasks, handles) && t < |tasks| && HandleOf(tasks[t].phase) == HandleOf(phase) == Some(h)
    ensures h < |handles|
    ensures Linked(tasks[t := tasks[t].(phase := phase)], handles[h := handles[h].(phase := GatePhase(phase))])
  {
    var tasks' := tasks[t := tasks[t].(phase := phase)];
    forall k | 0 <= k < |handles| && (handles[k].phase != Released || k == h) ensures Owned(tasks', k) {
      var u :| 0 <= u < |tasks| && HandleOf(tasks[u].phase) == Some(k);
      assert HandleOf(tasks'[u].phase) == Some(k);
    }
  }

  lemma HandleDropped(tasks: seq<Task>, t: nat, handles: seq<Handle>, h: nat)
    requires Linked(tasks, handles) && t < |tasks| && HandleOf(tasks[t].phase) == Some(h)
    ensures h < |handles|
    ensures Linked(tasks[t := tasks[t].(phase := Done)], handles[h := handles[h].(phase := Released)])
  {
    var tasks' := tasks[t := tasks[t].(phase := Done)];
    forall k | 0 <= k < |handles| && handles[k].phase != Released && k != h ensures Owned(tasks', k) {
      var u :| 0 <= u < |tasks| && HandleOf(tasks[u].phase) == Some(k);
      assert HandleOf(tasks'[u].phase) == Some(k);
    }
  }

  /** A release wakes sleepers, and that is all it does to them. */
  lemma ReleaseKeepsSleepers(tasks: seq<Task>, d: Desk, h: nat)
    requires Sleepers(tasks, d) && h < |d.handles|
    ensures Sleepers(tasks, ReleasedDesk(d, h))
  {
  }

  lemma StayAwake(tasks: seq<Task>, t: nat, phase: TaskPhase, d: Desk)
    requires Sleepers(tasks, d) && t < |tasks| && !tasks[t].phase.Waiting? && !phase.Waiting?
    ensures Sleepers(tasks[t := tasks[t].(phase := phase)], d)
  {
  }

  lemma Parked(tasks: seq<Task>, t: nat, d: Desk)
    requires Sleepers(tasks, d) && Linked(tasks, d.handles) && t < |tasks| && tasks[t].phase.Asking?
    ensures var tasks', d' := tasks[t := tasks[t].(phase := Waiting)], ParkedDesk(d, t, tasks[t].dev);
            Sleepers(tasks', d') && Linked(tasks', d'.handles)
  {
    NoHandleKept(tasks, t, Waiting, d.handles);
  }

  /** The lease is taken: a new handle, in this task's hands or given back at once. */
  lemma TookLease(tasks: seq<Task>, t: nat, g: State)
    requires Sleepers(tasks, g.desk) && Linked(tasks, g.desk.handles) && t < |tasks| && tasks[t].phase.Asking?
    ensures var g' := Taken(g, tasks[t].dev);
            var tasks' := tasks[t := tasks[t].(phase := AfterLook(g, g'))];
            Sleepers(tasks', g'.desk) && Linked(tasks', g'.desk.handles) && !AfterLook(g, g').Waiting?
  {
    var dev, h := tasks[t].dev, |g.desk.handles|;
    var g' := Taken(g, dev);
    var d, phase := JoinedDesk(g.desk, dev), AfterLook(g, g');
    TaskLease.TakenDesk(g, dev);
    StayAwake(tasks, t, phase, d);
    if phase.Done? {
      ReleaseKeepsSleepers(tasks[t := tasks[t].(phase := phase)], d, h);
      NoHandleKept(tasks, t, phase, g.desk.handles);
      HandleRefused(tasks[t := tasks[t].(phase := phase)], g.desk.handles, dev);
      assert g'.desk.handles == g.desk.handles + [Handle(dev, Released)];
    } else {
      HandleAdded(tasks, t, phase, g.desk.handles);
      assert g'.desk.handles == g.desk.handles + [Handle(dev, GatePhase(phase))];
    }
  }

  /** One look at the lease, whether it is the first or after a wake-up. */
  lemma LookedAtLease(tasks: seq<Task>, t: nat, g: State)
    requires Sleepers(tasks, g.desk) && Linked(tasks, g.desk.handles) && t < |tasks| && tasks[t].phase.Asking?
    ensures var g' := Try(g, t, tasks[t].dev);
            var tasks' := tasks[t := tasks[t].(phase := AfterLook(g, g'))];
            Sleepers(tasks', g'.desk) && Linked(tasks', g'.desk.handles)
    ensures AfterLook(g, Try(g, t, tasks[t].dev)).Waiting? <==> OtherHolds(g.desk, tasks[t].dev)
  {
    if OtherHolds(g.desk, tasks[t].dev) {
      Parked(tasks, t, g.desk);
    } else {
      TookLease(tasks, t, g);
    }
  }

  lemma AskKeepsInv(s: Farm, t: nat)
    requires Inv(s) && PhaseAt(s, t).Asking?
    ensures Inv(Asked(s, t))
  {
    assert t !in s.gate.desk.parked && t !in s.gate.desk.woken;
    InsideKept(s.tasks, t, Asked(s, t).tasks[t].phase);
    if Enforced(s.gate) {
      TaskLease.TryKeepsInv(s.gate, t, s.tasks[t].dev);
      LookedAtLease(s.tasks, t, s.gate);
    } else {
      NoHandleKept(s.tasks, t, Working(None), s.gate.desk.handles);
      StayAwake(s.tasks, t, Working(None), s.gate.desk);
    }
  }

  lemma WokenUp(tasks: seq<Task>, t: nat, d: Desk)
    requires Sleepers(tasks, d) && Linked(tasks, d.handles) && t < |tasks| && t in d.woken
    ensures var tasks' := tasks[t := tasks[t].(phase := Asking)];
            Sleepers(tasks', AwakeDesk(d, t)) && Linked(tasks', d.handles)
  {
    NoHandleKept(tasks, t, Asking, d.handles);
  }

  lemma InVainKeepsInv(s: Farm, t: nat)
    requires Inv(s) && PhaseAt(s, t).Waiting? && t in s.gate.desk.woken
    ensures Inv(With(s, t, Done, s.gate.(desk := AwakeDesk(s.gate.desk, t))))
  {
    var d := s.gate.desk;
    var tasks := s.tasks[t := s.tasks[t].(phase := Asking)];
    InsideKept(s.tasks, t, Done);
    WokenUp(s.tasks, t, d);
    NoHandleKept(tasks, t, Done, d.handles);
    StayAwake(tasks, t, Done, AwakeDesk(d, t));
    assert tasks[t := tasks[t].(phase := Done)] == s.tasks[t := s.tasks[t].(phase := Done)];
  }

  lemma LookAgainKeepsInv(s: Farm, t: nat)
    requires Inv(s) && PhaseAt(s, t).Waiting? && t in s.gate.desk.woken
    ensures var awake := s.gate.(desk := AwakeDesk(s.gate.desk, t));
            var gate := Try(awake, t, s.tasks[t].dev);
            Inv(With(s, t, AfterLook(awake, gate), gate))
  {
    var dev := s.tasks[t].dev;
    var tasks := s.tasks[t := s.tasks[t].(phase := Asking)];
    var awake := s.gate.(desk := AwakeDesk(s.gate.desk, t));
    var phase := AfterLook(awake, Try(awake, t, dev));
    TaskLease.TryKeepsInv(awake, t, dev);
    InsideKept(s.tasks, t, phase);
    WokenUp(s.tasks, t, s.gate.desk);
    LookedAtLease(tasks, t, awake);
    assert tasks[t := tasks[t].(phase := phase)] == s.tasks[t := s.tasks[t].(phase := phase)];
  }

  lemma LookKeepsInv(s: Farm, t: nat, expired: bool)
    requires Inv(s) && PhaseAt(s, t).Waiting? && t in s.gate.desk.woken
    ensures Inv(Looked(s, t, expired))
  {
    assert s.gate.desk.woken[t] == s.tasks[t].dev;
    if expired && OtherHolds(s.gate.desk, s.tasks[t].dev) {
      InVainKeepsInv(s, t);
    } else {
      LookAgainKeepsInv(s, t);
    }
  }

  /** A task gives its handle back. */
  lemma GaveBack(s: Farm, t: nat, h: nat)
    requires Inv(s) && t < |s.tasks| && HandleOf(s.tasks[t].phase) == Some(h)
    ensures h < |s.gate.desk.handles|
    ensures var s' := With(s, t, Done, s.gate.(desk := ReleasedDesk(s.gate.desk, h))); Inv(s')
  {
    HandleDropped(s.tasks, t, s.gate.desk.handles, h);
    TaskLease.ReleasedKeepsInv(s.gate.desk, h);
    ReleaseKeepsSleepers(s.tasks, s.gate.desk, h);
    StayAwake(s.tasks, t, Done, ReleasedDesk(s.gate.desk, h));
    InsideKept(s.tasks, t, Done);
  }

  /** Its handle is one phase further. */
  lemma WentOn(s: Farm, t: nat, phase: TaskPhase, h: nat)
    requires Inv(s) && t < |s.tasks| && HandleOf(s.tasks[t].phase) == HandleOf(phase) == Some(h)
    requires !Past(s.tasks[t].phase) && !phase.Waiting?
    ensures h < |s.gate.desk.handles|
    ensures Inv(With(s, t, phase, s.gate.(desk := PhaseDesk(s.gate.desk, h, GatePhase(phase)))))
  {
    var d := s.gate.desk;
    HandleMoved(s.tasks, t, phase, d.handles, h);
    TaskLease.PhaseKeepsInv(d, h, GatePhase(phase));
    StayAwake(s.tasks, t, phase, d);
    InsideKept(s.tasks, t, phase);
  }

  lemma MoveKeepsInv(s: Farm, t: nat, ok: bool)
    requires Inv(s) && Enabled(s, Move(t, ok))
    ensures Inv(Step(s, Move(t, ok)))
  {
    var h := s.tasks[t].phase.h;
    if ok {
      WentOn(s, t, Refreshing(h), h);
    } else {
      GaveBack(s, t, h);
    }
  }

  lemma FinishKeepsInv(s: Farm, t: nat, hold: bool)
    requires Inv(s) && Enabled(s, Finish(t, hold))
    ensures Inv(Step(s, Finish(t, hold)))
  {
    match s.tasks[t].phase.handle
    case None => IdleKeepsInv(s, t, Done);
    case Some(h) =>
      if hold {
        WentOn(s, t, Holding(h), h);
        assert PhaseDesk(s.gate.desk, h, Ready).handles == s.gate.desk.handles;
      } else {
        GaveBack(s, t, h);
      }
  }

  /** A step that has nothing to do with the lease. */
  lemma IdleKeepsInv(s: Farm, t: nat, phase: TaskPhase)
    requires Inv(s) && t < |s.tasks| && HandleOf(s.tasks[t].phase).None? && HandleOf(phase).None?
    requires !s.tasks[t].phase.Waiting? && !phase.Waiting?
    requires Past(s.tasks[t].phase) ==> Past(phase)
    requires Inside(phase) ==> Inside(s.tasks[t].phase) || MutexFree(s.tasks, t)
    ensures Inv(With(s, t, phase, s.gate))
  {
    InsideKept(s.tasks, t, phase);
    NoHandleKept(s.tasks, t, phase, s.gate.desk.handles);
    StayAwake(s.tasks, t, phase, s.gate.desk);
  }

  lemma ArriveKeepsInv(s: Farm, dev: DeviceId)
    requires Inv(s)
    ensures Inv(Step(s, Arrive(dev)))
  {
    var tasks := s.tasks + [Task(dev, Queued)];
    forall h | 0 <= h < |s.gate.desk.handles| && s.gate.desk.handles[h].phase != Released ensures Owned(tasks, h) {
      var u :| 0 <= u < |s.tasks| && HandleOf(s.tasks[u].phase) == Some(h);
      assert HandleOf(tasks[u].phase) == Some(h);
    }
  }

  lemma TimerKeepsInv(s: Farm, t: nat)
    requires Inv(s) && t in s.gate.desk.parked
    ensures Inv(s.(gate := s.gate.(desk := TimerDesk(s.gate.desk, t))))
  {
  }

  lemma StepKeepsInv(s: Farm, e: Event)
    requires Inv(s) && Enabled(s, e)
    ensures Inv(Step(s, e))
  {
    match e
    case Arrive(dev) => ArriveKeepsInv(s, dev);
    case TakeMutex(t) => IdleKeepsInv(s, t, Asking);
    case Ask(t) => AskKeepsInv(s, t);
    case Look(t, expired) => LookKeepsInv(s, t, expired);
    case Move(t, ok) => MoveKeepsInv(s, t, ok);
    case Refresh(t) => RefreshKeepsInv(s, t);
    case Finish(t, hold) => FinishKeepsInv(s, t, hold);
    case HoldOver(t) => HoldOverKeepsInv(s, t);
    case GiveUp(t) => IdleKeepsInv(s, t, Done);
    case Timer(t) => TimerKeepsInv(s, t);
    case Other(ge) => TaskLease.OtherStepsKeepDesk(s.gate, ge);
  }

  lemma RefreshKeepsInv(s: Farm, t: nat)
    requires Inv(s) && Enabled(s, Refresh(t))
    ensures Inv(Step(s, Refresh(t)))
  {
    var h := s.tasks[t].phase.h;
    WentOn(s, t, Working(Some(h)), h);
  }

  lemma HoldOverKeepsInv(s: Farm, t: nat)
    requires Inv(s) && Enabled(s, HoldOver(t))
    ensures Inv(Step(s, HoldOver(t)))
  {
    GaveBack(s, t, s.tasks[t].phase.h);
  }

  // ── Runs ─────────────────────────────────────────────────────────────────

  predicate Runs(s: Farm, es: seq<Event>)
    decreases |es|
  {
    es == [] || (Enabled(s, es[0]) && Runs(Step(s, es[0]), es[1..]))
  }

  function Run(s: Farm, es: seq<Event>): Farm
    requires Runs(s, es)
    decreases |es|
  {
    if es == [] then s else Run(Step(s, es[0]), es[1..])
  }

  lemma {:induction false} RunKeepsInv(s: Farm, es: seq<Event>)
    requires Inv(s) && Runs(s, es)
    ensures Inv(Run(s, es))
    decreases |es|
  {
    if es != [] {
      StepKeepsInv(s, es[0]);
      RunKeepsInv(Step(s, es[0]), es[1..]);
    }
  }

  lemma FreshIsGood(gate: State)
    requires Fresh(gate)
    ensures Inv(Farm([], gate))
  {
  }

  /**
   In every run, whatever else the manager does, at most one task drives a phone, and all tasks that use the
   shared proxy are of one phone, the leased one.
   */
  lemma OneTaskPerPhone(gate: State, es: seq<Event>, i: nat, j: nat)
    requires Fresh(gate) && Runs(Farm([], gate), es)
    requires i < |Run(Farm([], gate), es).tasks| && j < |Run(Farm([], gate), es).tasks| && i != j
    ensures var s := Run(Farm([], gate), es);
            var a, b := s.tasks[i], s.tasks[j];
            && (Inside(a.phase) && !Past(a.phase) && Inside(b.phase) && !Past(b.phase) ==> a.dev != b.dev)
            && (HandleOf(a.phase).Some? ==> s.gate.desk.lease.Held? && s.gate.desk.lease.dev == a.dev)
            && (HandleOf(a.phase).Some? && HandleOf(b.phase).Some? ==> a.dev == b.dev)
  {
    FreshIsGood(gate);
    RunKeepsInv(Farm([], gate), es);
  }

  // ── The manager under the farm ───────────────────────────────────────────

  /** What the step is for the manager; nothing where it takes none. */
  function GateEvent(s: Farm, e: Event): Option<Gateway.Event>
    requires Enabled(s, e)
  {
    match e
    case Ask(t) => Some(Acquire(t, s.tasks[t].dev))
    case Look(t, expired) => Some(Resume(t, expired))
    case Move(t, ok) => Some(LeaseWired(s.tasks[t].phase.h, ok))
    case Refresh(t) => Some(LeaseReturned(s.tasks[t].phase.h))
    case Finish(t, hold) =>
      var handle := s.tasks[t].phase.handle;
      if handle.None? || hold then None else Some(Release(handle.value))
    case HoldOver(t) => Some(Release(s.tasks[t].phase.h))
    case Timer(t) => Some(WaitTimer(t))
    case Other(ge) => Some(ge)
    case _ => None
  }

  function GateEvents(s: Farm, es: seq<Event>): seq<Gateway.Event>
    requires Runs(s, es)
    decreases |es|
  {
    if es == [] then []
    else
      (if GateEvent(s, es[0]).None? then [] else [GateEvent(s, es[0]).value]) + GateEvents(Step(s, es[0]), es[1..])
  }

  lemma GateSteps(s: Farm, e: Event)
    requires Enabled(s, e)
    ensures Step(s, e).gate
         == match GateEvent(s, e)
            case None => s.gate
            case Some(ge) => Gateway.Step(s.gate, ge)
  {
    if e.Ask? || e.Look? {
      LookIsGateStep(s, e);
    } else if e.Finish? || e.HoldOver? {
      ReleaseIsGateStep(s, e);
    }
  }

  lemma LookIsGateStep(s: Farm, e: Event)
    requires Enabled(s, e) && (e.Ask? || e.Look?)
    ensures GateEvent(s, e).Some? && Step(s, e).gate == Gateway.Step(s.gate, GateEvent(s, e).value)
  {
  }

  lemma ReleaseIsGateStep(s: Farm, e: Event)
    requires Enabled(s, e) && (e.Finish? || e.HoldOver?)
    ensures Step(s, e).gate
         == if GateEvent(s, e).None? then s.gate else Gateway.Step(s.gate, GateEvent(s, e).value)
  {
  }

  /** The manager runs as it would on its own. */
  lemma {:induction false} GateRuns(s: Farm, es: seq<Event>)
    requires Runs(s, es)
    ensures Run(s, es).gate == Gateway.Run(s.gate, GateEvents(s, es))
    decreases |es|
  {
    if es != [] {
      var s', rest := Step(s, es[0]), GateEvents(Step(s, es[0]), es[1..]);
      GateSteps(s, es[0]);
      GateRuns(s', es[1..]);
      match GateEvent(s, es[0])
      case None => assert GateEvents(s, es) == [] + rest == rest;
      case Some(ge) => GateRunsOn(s.gate, ge, rest);
    }
  }

  lemma GateRunsOn(g: State, ge: Gateway.Event, rest: seq<Gateway.Event>)
    ensures Gateway.Run(g, [ge] + rest) == Gateway.Run(Gateway.Step(g, ge), rest)
  {
    assert ([ge] + rest)[1..] == rest;
  }

  lemma WorkersHoldHandles(s: Farm, t: nat)
    requires Inv(s) && PhaseAt(s, t).Working? && PhaseAt(s, t).handle.Some?
    ensures var h := s.tasks[t].phase.handle.value;
            HandleIn(s.gate.desk, h, Ready) && s.gate.desk.handles[h].dev == s.tasks[t].dev
  {
    assert HandleOf(s.tasks[t].phase) == s.tasks[t].phase.handle;
  }

  /**
   As long as nobody takes the proxy away by hand, a task at work on the shared proxy works on the active
   phone, and its ordinary traffic goes through that phone's own proxy.
   */
  lemma WorkersHaveTheProxy(gate: State, es: seq<Event>, t: nat)
    requires Fresh(gate) && (gate.net.active.Some? ==> gate.net.active.value in gate.net.devices)
    requires Runs(Farm([], gate), es) && TaskLease.CalmRun(gate, GateEvents(Farm([], gate), es))
    requires var s := Run(Farm([], gate), es);
             t < |s.tasks| && s.tasks[t].phase.Working? && s.tasks[t].phase.handle.Some?
    ensures var s := Run(Farm([], gate), es);
            var dev, net := s.tasks[t].dev, s.gate.net;
            && net.active == Some(dev) && dev in net.devices
            && RouteFor(net, dev, ORDINARY) == ToProxy(net.devices[dev])
  {
    FreshIsGood(gate);
    RunKeepsInv(Farm([], gate), es);
    GateRuns(Farm([], gate), es);
    var s := Run(Farm([], gate), es);
    WorkersHoldHandles(s, t);
    TaskLease.LeasedPhoneStaysActive(gate, GateEvents(Farm([], gate), es), s.tasks[t].phase.handle.value);
  }

  // ── No task waits for ever ───────────────────────────────────────────────

  /** Progress that needs no timeout and no new request. */
  predicate Progress(e: Event) {
    e.TakeMutex? || e.Ask? || (e.Look? && !e.expired) || (e.Move? && e.ok) || e.Refresh? || e.Finish? || e.HoldOver?
  }

  /** The oldest unfinished task for which everything before it is finished. */
  lemma {:induction false} FirstUnfinished(s: Farm, n: nat) returns (t: nat)
    requires n < |s.tasks| && s.tasks[n].phase != Done
    ensures t < |s.tasks| && s.tasks[t].phase != Done
    ensures forall i :: 0 <= i < t ==> s.tasks[i].phase == Done
  {
    t := 0;
    while s.tasks[t].phase == Done
      invariant t <= n && forall i :: 0 <= i < t ==> s.tasks[i].phase == Done
      decreases n - t
    {
      t := t + 1;
    }
  }

  lemma AllReleased(s: Farm)
    requires Inv(s) && forall t :: 0 <= t < |s.tasks| ==> HandleOf(s.tasks[t].phase).None?
    ensures forall h :: 0 <= h < |s.gate.desk.handles| ==> s.gate.desk.handles[h].phase == Released
  {
  }

  /** If no task has a handle, the lease is free and nobody sleeps. */
  lemma NobodySleeps(s: Farm)
    requires Inv(s) && forall t :: 0 <= t < |s.tasks| ==> HandleOf(s.tasks[t].phase).None?
    ensures s.gate.desk.lease.Free? && s.gate.desk.parked == map[]
  {
    var d := s.gate.desk;
    AllReleased(s);
    TaskLease.NoneUnreleased(d.handles);
    assert forall a :: a !in d.parked;
  }

  /** The next step of a task that has the phone or the lease. */
  function NextStep(t: nat, phase: TaskPhase): Event {
    match phase
    case Queued => TakeMutex(t)
    case Asking => Ask(t)
    case Waiting => Look(t, false)
    case Moving(_) => Move(t, true)
    case Refreshing(_) => Refresh(t)
    case Working(_) => Finish(t, false)
    case Holding(_) => HoldOver(t)
    case Done => GiveUp(t)
  }

  /**
   No deadlock: while any task is unfinished, some task can take its next step, without waiting for a
   timeout. Whoever sleeps is woken when the tasks of the leased phone are through.
   */
  lemma SomeTaskCanMove(s: Farm, n: nat) returns (e: Event)
    requires Inv(s) && n < |s.tasks| && s.tasks[n].phase != Done
    ensures Progress(e) && Enabled(s, e)
  {
    if t :| 0 <= t < |s.tasks| && (HandleOf(s.tasks[t].phase).Some? || s.tasks[t].phase.Working?) {
      e := NextStep(t, s.tasks[t].phase);
    } else {
      NobodySleeps(s);
      if t :| 0 <= t < |s.tasks| && (s.tasks[t].phase.Asking? || s.tasks[t].phase.Waiting?) {
        assert s.tasks[t].phase.Waiting? ==> t in s.gate.desk.woken;
        e := NextStep(t, s.tasks[t].phase);
      } else {
        var t := FirstUnfinished(s, n);
        assert s.tasks[t].phase.Queued?;
        e := NextStep(t, s.tasks[t].phase);
      }
    }
  }

  function Rank(phase: TaskPhase): nat {
    match phase
    case Queued => 7
    case Asking => 6
    case Waiting => 5
    case Moving(_) => 4
    case Refreshing(_) => 3
    case Working(_) => 2
    case Holding(_) => 1
    case Done => 0
  }

  function Left(tasks: seq<Task>): nat {
    if tasks == [] then 0 else Rank(tasks[|tasks| - 1].phase) + Left(tasks[..|tasks| - 1])
  }

  lemma {:induction false} LeftUpdate(tasks: seq<Task>, t: nat, v: Task)
    requires t < |tasks|
    ensures Left(tasks[t := v]) + Rank(tasks[t].phase) == Left(tasks) + Rank(v.phase)
  {
    var n := |tasks| - 1;
    if t < n {
      LeftUpdate(tasks[..n], t, v);
      assert tasks[t := v][..n] == tasks[..n][t := v];
    } else {
      assert tasks[t := v][..n] == tasks[..n];
    }
  }

  lemma {:induction false} LeftAtMost(tasks: seq<Task>)
    ensures Left(tasks) <= 7 * |tasks|
  {
    if tasks != [] {
      LeftAtMost(tasks[..|tasks| - 1]);
    }
  }

  lemma {:induction false} FewBelow(keys: set<nat>, n: nat)
    requires forall a :: a in keys ==> a < n
    ensures |keys| <= n
  {
    if n > 0 {
      FewBelow(keys - {n - 1}, n - 1);
    }
  }

  /** The steps still to be taken: a step forward may wake all sleepers, who then look once more. */
  function Budget(s: Farm): nat {
    Left(s.tasks) * (|s.tasks| + 1) + |s.gate.desk.woken|
  }

  /** A step of a task, as opposed to a timer, a new request, or something else the manager does. */
  predicate TaskStep(e: Event) {
    !e.Arrive? && !e.Timer? && !e.Other?
  }

  /** A task that steps forward, or looks in vain and goes back to sleep. */
  ghost predicate Forward(s: Farm, s': Farm, t: nat)
    requires t < |s.tasks| == |s'.tasks|
  {
    || Rank(s'.tasks[t].phase) < Rank(s.tasks[t].phase)
    || (s'.tasks[t].phase == s.tasks[t].phase && |s'.gate.desk.woken| < |s.gate.desk.woken|)
  }

  lemma AskGoesForward(s: Farm, t: nat)
    requires PhaseAt(s, t).Asking?
    ensures Forward(s, Asked(s, t), t)
  {
  }

  lemma InVainGoesForward(s: Farm, t: nat, expired: bool)
    requires Inv(s) && PhaseAt(s, t).Waiting? && t in s.gate.desk.woken && OtherHolds(s.gate.desk, s.tasks[t].dev)
    ensures Forward(s, Looked(s, t, expired), t)
  {
    var woken := s.gate.desk.woken;
    assert woken[t] == s.tasks[t].dev;
    assert woken.Keys == (woken - {t}).Keys + {t};
    assert |(woken - {t}).Keys| < |woken.Keys|;
    assert Looked(s, t, expired).gate.desk.woken == woken - {t};
  }

  lemma LeaseGoesForward(s: Farm, t: nat, expired: bool)
    requires Inv(s) && PhaseAt(s, t).Waiting? && t in s.gate.desk.woken && !OtherHolds(s.gate.desk, s.tasks[t].dev)
    ensures Rank(Looked(s, t, expired).tasks[t].phase) < Rank(Waiting)
  {
    var awake := s.gate.(desk := AwakeDesk(s.gate.desk, t));
    assert s.gate.desk.woken[t] == s.tasks[t].dev;
    TaskLease.TakenDesk(awake, s.tasks[t].dev);
    assert Looked(s, t, expired).gate == Taken(awake, s.tasks[t].dev);
  }

  lemma LookGoesForward(s: Farm, t: nat, expired: bool)
    requires Inv(s) && PhaseAt(s, t).Waiting? && t in s.gate.desk.woken
    ensures Forward(s, Looked(s, t, expired), t)
  {
    if OtherHolds(s.gate.desk, s.tasks[t].dev) {
      InVainGoesForward(s, t, expired);
    } else {
      LeaseGoesForward(s, t, expired);
    }
  }

  lemma StepsForward(s: Farm, e: Event)
    requires Inv(s) && Enabled(s, e) && TaskStep(e)
    ensures e.t < |s.tasks| == |Step(s, e).tasks| && Forward(s, Step(s, e), e.t)
    ensures Step(s, e).tasks == s.tasks[e.t := Step(s, e).tasks[e.t]]
  {
    if e.Look? {
      LookGoesForward(s, e.t, e.expired);
    } else if e.Ask? {
      AskGoesForward(s, e.t);
    } else {
      OthersGoForward(s, e);
    }
  }

  lemma OthersGoForward(s: Farm, e: Event)
    requires Enabled(s, e) && TaskStep(e) && !e.Look? && !e.Ask?
    ensures e.t < |s.tasks| && Rank(PhaseAt(Step(s, e), e.t)) < Rank(s.tasks[e.t].phase)
  {
  }

  lemma FewWoken(s: Farm)
    requires Inv(s)
    ensures |s.gate.desk.woken| <= |s.tasks|
  {
    var woken := s.gate.desk.woken;
    FewBelow(woken.Keys, |s.tasks|);
    assert |woken| == |woken.Keys|;
  }

  lemma LessBudget(left: nat, left': nat, woken: nat, woken': nat, n: nat)
    requires woken' <= n && (left' < left || (left' == left && woken' < woken))
    ensures left' * (n + 1) + woken' < left * (n + 1) + woken
  {
    if left' < left {
      Times(left' + 1, left, n + 1);
    }
  }

  lemma BudgetShrinks(s: Farm, e: Event)
    requires Inv(s) && Enabled(s, e) && TaskStep(e)
    ensures Budget(Step(s, e)) < Budget(s)
  {
    StepKeepsInv(s, e);
    StepsForward(s, e);
    ForwardCosts(s, Step(s, e), e.t);
  }

  lemma ForwardCosts(s: Farm, s': Farm, t: nat)
    requires t < |s.tasks| == |s'.tasks| && Forward(s, s', t) && s'.tasks == s.tasks[t := s'.tasks[t]] && Inv(s')
    ensures Budget(s') < Budget(s)
  {
    FewWoken(s');
    LeftUpdate(s.tasks, t, s'.tasks[t]);
    LessBudget(Left(s.tasks), Left(s'.tasks), |s.gate.desk.woken|, |s'.gate.desk.woken|, |s.tasks|);
  }

  lemma SameBudget(s: Farm, s': Farm, more: nat)
    requires s'.tasks == s.tasks && |s'.gate.desk.woken| <= |s.gate.desk.woken| + more
    ensures Budget(s') <= Budget(s) + more
  {
  }

  lemma TimerWakesOne(d: Desk, t: nat)
    ensures |TimerDesk(d, t).woken| <= |d.woken| + 1
  {
    if t in d.parked {
      AtMostOneMore(d.woken, t, d.parked[t]);
    }
  }

  lemma AtMostOneMore(m: map<nat, DeviceId>, t: nat, dev: DeviceId)
    ensures |m[t := dev]| <= |m| + 1
  {
    assert m[t := dev].Keys == m.Keys + {t};
    assert |m.Keys + {t}| <= |m.Keys| + 1;
  }

  /** A timer wakes one sleeper; anything else the manager does wakes nobody. */
  lemma BudgetOtherwise(s: Farm, e: Event)
    requires Inv(s) && Enabled(s, e) && (e.Timer? || e.Other?)
    ensures Budget(Step(s, e)) <= Budget(s) + if e.Timer? then 1 else 0
  {
    if e.Timer? {
      TimerWakesOne(s.gate.desk, e.t);
      SameBudget(s, Step(s, e), 1);
    } else {
      TaskLease.OtherStepsKeepDesk(s.gate, e.e);
      SameBudget(s, Step(s, e), 0);
    }
  }

  lemma Times(a: nat, b: nat, n: nat)
    requires a <= b
    ensures a * n <= b * n
  {
    assert (b - a) * n >= 0;
  }

  function TaskSteps(es: seq<Event>): nat {
    if es == [] then 0 else (if TaskStep(es[0]) then 1 else 0) + TaskSteps(es[1..])
  }

  function Timers(es: seq<Event>): nat {
    if es == [] then 0 else (if es[0].Timer? then 1 else 0) + Timers(es[1..])
  }

  /** A run without new requests is short, but for the timers that make sleepers look in vain. */
  lemma {:induction false} RunsAreShort(s: Farm, es: seq<Event>)
    requires Inv(s) && Runs(s, es) && forall i :: 0 <= i < |es| ==> !es[i].Arrive?
    ensures TaskSteps(es) + Budget(Run(s, es)) <= Budget(s) + Timers(es)
    decreases |es|
  {
    if es != [] {
      StepKeepsInv(s, es[0]);
      RunsAreShort(Step(s, es[0]), es[1..]);
      if TaskStep(es[0]) {
        BudgetShrinks(s, es[0]);
      } else {
        BudgetOtherwise(s, es[0]);
      }
    }
  }

  /**
   The farm drains: from any reachable state, once requests stop arriving, the tasks take a bounded number of
   steps, beside one for each timer that wakes a sleeper in vain; and when no task can go any further all are
   finished, the lease is free, every handle is given back, and nobody sleeps.
   */
  lemma FarmDrains(gate: State, before: seq<Event>, es: seq<Event>)
    requires Fresh(gate) && Runs(Farm([], gate), before) && Runs(Run(Farm([], gate), before), es)
    requires forall i :: 0 <= i < |es| ==> !es[i].Arrive?
    ensures var n := |Run(Farm([], gate), before).tasks|; TaskSteps(es) <= 7 * n * (n + 1) + n + Timers(es)
    ensures var s := Run(Run(Farm([], gate), before), es);
            (forall e :: Progress(e) ==> !Enabled(s, e)) ==>
              && (forall t :: 0 <= t < |s.tasks| ==> s.tasks[t].phase == Done)
              && s.gate.desk.lease.Free? && s.gate.desk.parked == map[]
              && forall h :: 0 <= h < |s.gate.desk.handles| ==> s.gate.desk.handles[h].phase == Released
  {
    var s0 := Run(Farm([], gate), before);
    FreshIsGood(gate);
    RunKeepsInv(Farm([], gate), before);
    RunKeepsInv(s0, es);
    RunsAreShort(s0, es);
    BudgetAtMost(s0);
    var s := Run(s0, es);
    if forall e :: Progress(e) ==> !Enabled(s, e) {
      Drained(s);
    }
  }

  /** When no task can take a step that needs no timeout, nothing is left to do. */
  lemma Drained(s: Farm)
    requires Inv(s) && forall e :: Progress(e) ==> !Enabled(s, e)
    ensures forall t :: 0 <= t < |s.tasks| ==> s.tasks[t].phase == Done
    ensures s.gate.desk.lease.Free? && s.gate.desk.parked == map[]
    ensures forall h :: 0 <= h < |s.gate.desk.handles| ==> s.gate.desk.handles[h].phase == Released
  {
    forall t | 0 <= t < |s.tasks| ensures s.tasks[t].phase == Done {
      if s.tasks[t].phase != Done {
        var e := SomeTaskCanMove(s, t);
      }
    }
    NobodySleeps(s);
    AllReleased(s);
  }

  lemma BudgetAtMost(s: Farm)
    requires Inv(s)
    ensures Budget(s) <= 7 * |s.tasks| * (|s.tasks| + 1) + |s.tasks|
  {
    LeftAtMost(s.tasks);
    FewWoken(s);
    Times(Left(s.tasks), 7 * |s.tasks|, |s.tasks| + 1);
  }

  // ── One publish request ──────────────────────────────────────────────────

  /** Whether the mutex, the lease, the address check and the run's temporary folder are granted. */
  datatype Grants = Grants(mutex: bool, lease: bool, checkIp: bool, guard: bool, folder: bool) {
    /** The publishing run itself is started. */
    predicate Reached() {
      mutex && lease && (!checkIp || guard) && folder
    }
  }

  datatype Effect = Unlock | ReleaseLease | HoldLease

  /** The answer to a request that ends before the publishing run. */
  const NOT_STARTED := P.Result(false, P.Prepare, P.No, true, None)

  /**
   The mutex is given back exactly when it was taken. The lease is given back exactly once, now or by the
   timer, and by the timer exactly when a Share tap has come back from the phone, so the post may be out. The
   answer is retryable only if none has.
   */
  method HandlePublish(g: Grants, to: P.Destination, hasCaption: bool, hasUsername: bool, tape: nat -> P.Reply, clock: nat)
    returns (answer: P.Result, effects: seq<Effect>, acts: seq<P.Act>)
    ensures Unlock in effects <==> g.mutex
    ensures ReleaseLease in effects || HoldLease in effects <==> g.mutex && g.lease
    ensures !(ReleaseLease in effects && HoldLease in effects)
    ensures forall i, j :: 0 <= i < j < |effects| ==> effects[i] != effects[j]
    ensures HoldLease in effects <==> P.Shares(acts) > 0
    ensures answer.posted == P.No <==> P.Shares(acts) == 0
    ensures answer.retryable ==> P.Shares(acts) == 0
    ensures !g.Reached() ==> acts == [] && answer == NOT_STARTED
  {
    effects, acts, answer := [], [], NOT_STARTED;
    var unlock, release := false, false;
    if g.mutex {
      unlock := true;
      if g.lease {
        release := true;
        if (!g.checkIp || g.guard) && g.folder {
          var kept;
          answer, acts, kept := P.PublishToDevice(to, hasCaption, hasUsername, tape, clock);
          if answer.posted != P.No {
            release := false;
            effects := effects + [HoldLease];
          }
        }
      }
    }
    if release {
      effects := effects + [ReleaseLease];
    }
    if unlock {
      effects := effects + [Unlock];
    }
  }
}
