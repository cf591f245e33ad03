/**
 The lease on the shared proxy: who holds it, who waits for it, and that the phone holding it keeps the
 proxy until its last handle is given back.
 */
module TaskLease {
  import opened Common
  import opened Gateway

  // ── Accounting ───────────────────────────────────────────────────────────

  function Unreleased(handles: seq<Handle>): nat {
    if handles == [] then 0
    else (if handles[|handles| - 1].phase == Released then 0 else 1) + Unreleased(handles[..|handles| - 1])
  }

  /** Handles not given back are all for the leased phone, and the lease counts them. */
  ghost predicate Counted(d: Desk) {
    && (forall h :: 0 <= h < |d.handles| && d.handles[h].phase != Released
          ==> d.lease.Held? && d.handles[h].dev == d.lease.dev)
    && (d.lease.Held? ==> d.lease.count == Unreleased(d.handles) && d.lease.count > 0)
  }

  /** Everybody asleep waits for a lease that another phone holds, and is on the list of callbacks. */
  ghost predicate Waiting(d: Desk) {
    && (d.waiters != [] ==> d.lease.Held?)
    && (forall a :: a in d.parked ==> a in d.waiters && OtherHolds(d, d.parked[a]))
  }

  ghost predicate Inv(d: Desk) {
    Counted(d) && Waiting(d)
  }

  lemma {:induction false} UnreleasedUpdate(handles: seq<Handle>, h: nat, v: Handle)
    requires h < |handles|
    ensures Unreleased(handles[h := v]) + (if handles[h].phase == Released then 0 else 1)
         == Unreleased(handles) + (if v.phase == Released then 0 else 1)
  {
    var n := |handles| - 1;
    if h < n {
      UnreleasedUpdate(handles[..n], h, v);
      assert handles[h := v][..n] == handles[..n][h := v];
    } else {
      assert handles[h := v][..n] == handles[..n];
    }
  }

  lemma {:induction false} UnreleasedPositive(handles: seq<Handle>, h: nat)
    requires h < |handles| && handles[h].phase != Released
    ensures Unreleased(handles) > 0
  {
    if h < |handles| - 1 {
      UnreleasedPositive(handles[..|handles| - 1], h);
    }
  }

  lemma {:induction false} NoneUnreleased(handles: seq<Handle>)
    requires forall h :: 0 <= h < |handles| ==> handles[h].phase == Released
    ensures Unreleased(handles) == 0
  {
    if handles != [] {
      NoneUnreleased(handles[..|handles| - 1]);
    }
  }

  lemma ReleasedKeepsInv(d: Desk, h: nat)
    requires Inv(d) && h < |d.handles|
    ensures Inv(ReleasedDesk(d, h))
  {
    var handles := PhaseDesk(d, h, Released).handles;
    UnreleasedUpdate(d.handles, h, handles[h]);
    if d.handles[h].phase != Released && d.lease.count <= 1 {
      forall k | 0 <= k < |handles| ensures handles[k].phase == Released {
        if handles[k].phase != Released {
          UnreleasedPositive(handles, k);
        }
      }
    }
  }

  /** A release takes one handle off the count; the last one frees the lease and wakes everybody. */
  lemma ReleaseCounts(d: Desk, h: nat)
    requires Inv(d) && h < |d.handles|
    ensures var t := ReleasedDesk(d, h);
            && Unreleased(t.handles) == Unreleased(d.handles) - (if d.handles[h].phase == Released then 0 else 1)
            && if Unreleased(t.handles) > 0 then t.lease.Held? && t.lease.count == Unreleased(t.handles)
               else t.lease == Free && t.parked == map[] && forall a :: a in d.parked ==> a in t.woken || d.lease == Free
  {
    var t := ReleasedDesk(d, h);
    UnreleasedUpdate(d.handles, h, PhaseDesk(d, h, Released).handles[h]);
    ReleasedKeepsInv(d, h);
    if t.lease == Free {
      assert forall k :: 0 <= k < |t.handles| ==> t.handles[k].phase == Released;
      NoneUnreleased(t.handles);
      assert forall a :: a !in t.parked;
    }
  }

  /** A phase change other than the release leaves the accounting alone. */
  lemma PhaseKeepsInv(d: Desk, h: nat, phase: Phase)
    requires Inv(d) && h < |d.handles| && d.handles[h].phase != Released && phase != Released
    ensures Inv(PhaseDesk(d, h, phase))
  {
    UnreleasedUpdate(d.handles, h, d.handles[h].(phase := phase));
  }

  lemma JoinedKeepsInv(d: Desk, dev: DeviceId)
    requires Inv(d) && !OtherHolds(d, dev)
    ensures Inv(JoinedDesk(d, dev))
  {
    assert JoinedDesk(d, dev).handles[..|d.handles|] == d.handles;
    if d.lease.Free? {
      NoneUnreleased(d.handles);
    }
  }

  lemma ParkedKeepsInv(d: Desk, a: nat, dev: DeviceId)
    requires Inv(d) && OtherHolds(d, dev)
    ensures Inv(ParkedDesk(d, a, dev))
  {
    assert ParkedDesk(d, a, dev).waiters[|d.waiters|] == a;
  }

  /** What taking the lease does to the desk, whoever is active and configured. */
  lemma TakenDesk(s: State, dev: DeviceId)
    ensures var d, h := JoinedDesk(s.desk, dev), |s.desk.handles|;
            Taken(s, dev).desk in {d, PhaseDesk(d, h, Settling), ReleasedDesk(d, h)}
  {
  }

  lemma TryKeepsInv(s: State, a: nat, dev: DeviceId)
    requires Inv(s.desk)
    ensures Inv(Try(s, a, dev).desk)
  {
    if OtherHolds(s.desk, dev) {
      ParkedKeepsInv(s.desk, a, dev);
    } else {
      var d, h := JoinedDesk(s.desk, dev), |s.desk.handles|;
      TakenDesk(s, dev);
      JoinedKeepsInv(s.desk, dev);
      PhaseKeepsInv(d, h, Settling);
      ReleasedKeepsInv(d, h);
    }
  }

  lemma WiredKeepsInv(s: State, h: nat, ok: bool)
    requires Inv(s.desk)
    ensures Inv(Wired(s, h, ok).desk)
  {
    if HandleIn(s.desk, h, Switching) {
      PhaseKeepsInv(s.desk, h, Settling);
      ReleasedKeepsInv(s.desk, h);
    }
  }

  lemma ReturnedKeepsInv(d: Desk, h: nat)
    requires Inv(d)
    ensures Inv(Returned(d, h)) && Inv(HandleReleased(d, h))
  {
    if h < |d.handles| {
      ReleasedKeepsInv(d, h);
    }
    if HandleIn(d, h, Settling) {
      PhaseKeepsInv(d, h, Ready);
    }
  }

  /** Whatever is not about the lease leaves the desk alone. */
  lemma OtherStepsKeepDesk(s: State, e: Event)
    requires !LeaseEvent(e)
    ensures Step(s, e).desk == s.desk
  {
  }

  lemma StepKeepsInv(s: State, e: Event)
    requires Inv(s.desk)
    ensures Inv(Step(s, e).desk)
  {
    match e
    case Acquire(a, dev) => TryKeepsInv(s, a, dev);
    case Resume(a, expired) =>
      if a in s.desk.woken {
        TryKeepsInv(s.(desk := AwakeDesk(s.desk, a)), a, s.desk.woken[a]);
      }
    case WaitTimer(_) =>
    case LeaseWired(h, ok) => WiredKeepsInv(s, h, ok);
    case LeaseReturned(h) => ReturnedKeepsInv(s.desk, h);
    case Release(h) => ReturnedKeepsInv(s.desk, h);
    case _ => OtherStepsKeepDesk(s, e);
  }

  lemma {:induction false} RunKeepsInv(s: State, es: seq<Event>)
    requires Inv(s.desk)
    ensures Inv(Run(s, es).desk)
    decreases |es|
  {
    if es != [] {
      StepKeepsInv(s, es[0]);
      RunKeepsInv(Step(s, es[0]), es[1..]);
    }
  }

  /**
   In every run whatsoever: the count of the lease is the number of handles not given back, all of them
   for the leased phone; callbacks are registered only while the lease is held; nobody sleeps while the
   lease is free or their own.
   */
  lemma LeaseAccounting(start: State, es: seq<Event>)
    requires Fresh(start)
    ensures var d := Run(start, es).desk;
            && (match d.lease
                case Free => Unreleased(d.handles) == 0 && d.waiters == [] && d.parked == map[]
                case Held(dev, count) => count == Unreleased(d.handles) && count > 0)
            && (forall h :: 0 <= h < |d.handles| && d.handles[h].phase != Released
                  ==> d.lease.Held? && d.handles[h].dev == d.lease.dev)
            && (forall a :: a in d.parked ==> OtherHolds(d, d.parked[a]))
  {
    RunKeepsInv(start, es);
    var d := Run(start, es).desk;
    if d.lease.Free? {
      NoneUnreleased(d.handles);
      assert forall a :: a !in d.parked;
    }
  }

  /** The last handle given back wakes every sleeper. */
  lemma LastReleaseWakesAll(s: State, h: nat)
    requires Inv(s.desk) && HandleIn(s.desk, h, Ready) && s.desk.lease.count == 1
    ensures var d := Step(s, Release(h)).desk;
            && d.lease == Free && d.parked == map[]
            && forall a :: a in s.desk.parked ==> a in d.woken && d.woken[a] == s.desk.parked[a]
  {
  }

  /** Giving a handle back a second time changes nothing, however much has happened since. */
  lemma {:induction false} SecondReleaseIsHarmless(s: State, es: seq<Event>, h: nat)
    requires HandleIn(s.desk, h, Released)
    ensures Step(Run(s, es), Release(h)) == Run(s, es)
    decreases |es|
  {
    if es == [] {
      assert PhaseDesk(s.desk, h, Released).handles == s.desk.handles;
    } else {
      StaysReleased(s, es[0], h);
      SecondReleaseIsHarmless(Step(s, es[0]), es[1..], h);
    }
  }

  lemma StaysReleased(s: State, e: Event, h: nat)
    requires HandleIn(s.desk, h, Released)
    ensures HandleIn(Step(s, e).desk, h, Released)
  {
    match e
    case Acquire(_, dev) => TakenDesk(s, dev);
    case Resume(a, expired) =>
      if a in s.desk.woken {
        TakenDesk(s.(desk := AwakeDesk(s.desk, a)), s.desk.woken[a]);
      }
    case WaitTimer(_) =>
    case LeaseWired(_, _) =>
    case LeaseReturned(_) =>
    case Release(_) =>
    case _ => OtherStepsKeepDesk(s, e);
  }

  /**
   An acquire whose wiring fails, whatever has happened since it took its handle: the handle is given back
   and no longer counted, all others stay, and if it was the last one the lease is free and every sleeper
   woken.
   */
  lemma FailedWiringHoldsNothing(start: State, es: seq<Event>, h: nat)
    requires Fresh(start) && HandleIn(Run(start, es).desk, h, Switching)
    ensures var d := Run(start, es).desk;
            var t := Step(Run(start, es), LeaseWired(h, false)).desk;
            && HandleIn(t, h, Released) && |t.handles| == |d.handles|
            && (forall k :: 0 <= k < |d.handles| && k != h ==> t.handles[k] == d.handles[k])
            && Unreleased(t.handles) == Unreleased(d.handles) - 1
            && (if Unreleased(t.handles) > 0 then t.lease == Held(d.handles[h].dev, Unreleased(t.handles))
                else t.lease == Free && t.parked == map[] && forall a :: a in d.parked ==> a in t.woken)
  {
    RunKeepsInv(start, es);
    ReleaseCounts(Run(start, es).desk, h);
  }

  /** An acquire that finds no proxy to hand over, or whose wiring fails at once, leaves the lease as if it never came. */
  lemma FailedAcquireHoldsNothing(s: State, dev: DeviceId)
    requires Inv(s.desk) && !OtherHolds(s.desk, dev)
    requires s.net.active != Some(dev) && dev !in s.net.devices
    ensures match ProxyToHandOver(s)
            case None => Taken(s, dev).desk.lease == s.desk.lease
            case Some(_) => Step(Taken(s, dev), LeaseWired(|s.desk.handles|, false)).desk.lease == s.desk.lease
  {
  }

  // ── The leased phone stays active ────────────────────────────────────────

  /**
   Nobody takes the proxy away by hand: no change to shared mode while no phone is active, no forced switch
   away from the leased phone, no switch to a phone without configuration, no removal of the leased phone's
   configuration, and a re-application picks a phone that is still configured.
   */
  predicate Calm(s: State, e: Event) {
    match e
    case SetMode(mode, _) => mode == Private || s.net.active.Some?
    case Switch(_, dev, force) => dev in s.net.devices && (force ==> !OtherHolds(s.desk, dev))
    case ClearProxy(dev) => s.desk.lease.Free? || s.desk.lease.dev != dev
    case Reapplied(pick) => pick.Some? ==> pick.value in s.net.devices
    case _ => true
  }

  predicate CalmRun(s: State, es: seq<Event>)
    decreases |es|
  {
    es == [] || (Calm(s, es[0]) && CalmRun(Step(s, es[0]), es[1..]))
  }

  predicate Moved(phase: Phase) {
    phase in {Settling, Ready}
  }

  /** The desk fits the active phone and the configured ones: whoever has the proxy moved is active. */
  ghost predicate Guarded(d: Desk, active: Option<DeviceId>, devs: set<DeviceId>) {
    && Inv(d)
    && (active.Some? ==> active.value in devs)
    && (forall h :: 0 <= h < |d.handles| && d.handles[h].phase != Released ==> d.handles[h].dev in devs)
    && (forall h :: 0 <= h < |d.handles| && Moved(d.handles[h].phase) ==> active == Some(d.handles[h].dev))
  }

  ghost predicate Protected(s: State) {
    Guarded(s.desk, s.net.active, s.net.devices.Keys) && s.pending == map[] && s.net.modeOps == 0
  }

  /** The proxy may move to a configured phone while nobody has it or no other phone the lease. */
  predicate MayMove(d: Desk, from: Option<DeviceId>, to: Option<DeviceId>, devs: set<DeviceId>) {
    if to.Some? then to.value in devs && (from.None? || !OtherHolds(d, to.value)) else d.lease.Free?
  }

  lemma MoveKeepsGuarded(d: Desk, active: Option<DeviceId>, active': Option<DeviceId>, devs: set<DeviceId>)
    requires Guarded(d, active, devs) && MayMove(d, active, active', devs)
    ensures Guarded(d, active', devs)
  {
  }

  lemma ReleasedKeepsGuarded(d: Desk, h: nat, active: Option<DeviceId>, devs: set<DeviceId>)
    requires Guarded(d, active, devs) && h < |d.handles|
    ensures Guarded(ReleasedDesk(d, h), active, devs)
  {
    ReleasedKeepsInv(d, h);
  }

  lemma PhaseKeepsGuarded(d: Desk, h: nat, phase: Phase, active: Option<DeviceId>, devs: set<DeviceId>)
    requires Guarded(d, active, devs) && h < |d.handles| && d.handles[h].phase != Released
    requires Moved(phase) && active == Some(d.handles[h].dev)
    ensures Guarded(PhaseDesk(d, h, phase), active, devs)
  {
    PhaseKeepsInv(d, h, phase);
  }

  lemma JoinedKeepsGuarded(d: Desk, dev: DeviceId, active: Option<DeviceId>, devs: set<DeviceId>)
    requires Guarded(d, active, devs) && !OtherHolds(d, dev) && dev in devs
    ensures Guarded(JoinedDesk(d, dev), active, devs)
  {
    JoinedKeepsInv(d, dev);
  }

  /** Joining for a phone that cannot be given the proxy, and leaving again. */
  lemma RefusedKeepsGuarded(d: Desk, dev: DeviceId, active: Option<DeviceId>, devs: set<DeviceId>)
    requires Guarded(d, active, devs) && !OtherHolds(d, dev)
    ensures Guarded(ReleasedDesk(JoinedDesk(d, dev), |d.handles|), active, devs)
  {
    JoinedKeepsInv(d, dev);
    ReleasedKeepsInv(JoinedDesk(d, dev), |d.handles|);
  }

  lemma TakenKeepsProtected(s: State, dev: DeviceId)
    requires Protected(s) && !OtherHolds(s.desk, dev)
    ensures Protected(Taken(s, dev))
  {
    var h, joined := |s.desk.handles|, JoinedDesk(s.desk, dev);
    var active, devs := s.net.active, s.net.devices.Keys;
    if dev in devs {
      JoinedKeepsGuarded(s.desk, dev, active, devs);
      MoveKeepsGuarded(joined, active, Some(dev), devs);
      PhaseKeepsGuarded(joined, h, Settling, Some(dev), devs);
    } else if ProxyToHandOver(s).Some? {
      JoinedKeepsGuarded(s.desk, dev, active, devs + {dev});
      assert Taken(s, dev).net.devices.Keys == devs + {dev};
    } else {
      RefusedKeepsGuarded(s.desk, dev, active, devs);
    }
  }

  lemma TryKeepsProtected(s: State, a: nat, dev: DeviceId)
    requires Protected(s)
    ensures Protected(Try(s, a, dev))
  {
    if OtherHolds(s.desk, dev) {
      ParkedKeepsInv(s.desk, a, dev);
    } else {
      TakenKeepsProtected(s, dev);
    }
  }

  lemma {:induction false} AllAssignedActive(n: Net, assignments: seq<(DeviceId, ProxyId)>)
    ensures var t := AllAssigned(n, assignments);
            && t.active == n.active && t.modeOps == n.modeOps && n.devices.Keys <= t.devices.Keys
            && forall i :: 0 <= i < |assignments| ==> assignments[i].0 in t.devices
    decreases |assignments|
  {
    if assignments != [] {
      var (dev, proxy) := assignments[0];
      AllAssignedActive(Cut(Assigned(n, dev, proxy), {dev}), assignments[1..]);
      assert forall i :: 0 < i < |assignments| ==> assignments[i] == assignments[1..][i - 1];
    }
  }

  /** The proxy is moved where it may go, or stays; configurations are only added. */
  ghost predicate MovesWell(s: State, t: State) {
    && t.desk == s.desk && t.pending == s.pending && t.net.modeOps == s.net.modeOps
    && s.net.devices.Keys <= t.net.devices.Keys
    && (t.net.active == s.net.active || MayMove(s.desk, s.net.active, t.net.active, t.net.devices.Keys))
  }

  lemma MoveKeepsProtected(s: State, t: State)
    requires Protected(s) && MovesWell(s, t)
    ensures Protected(t)
  {
    var devs := t.net.devices.Keys;
    assert Guarded(s.desk, s.net.active, devs);
    if t.net.active != s.net.active {
      MoveKeepsGuarded(s.desk, s.net.active, t.net.active, devs);
    }
  }

  lemma ConfigStepMovesWell(s: State, e: Event)
    requires Protected(s) && Calm(s, e) && !LeaseEvent(e) && !e.ClearProxy?
    ensures MovesWell(s, Step(s, e))
  {
    if e.BatchSetProxy? {
      AllAssignedActive(s.net, e.assignments);
    }
  }

  lemma ClearedKeepsProtected(s: State, dev: DeviceId)
    requires Protected(s) && Calm(s, ClearProxy(dev))
    ensures Protected(Step(s, ClearProxy(dev)))
  {
  }

  lemma WiredKeepsProtected(s: State, h: nat, ok: bool)
    requires Protected(s)
    ensures Protected(Wired(s, h, ok))
  {
    if HandleIn(s.desk, h, Switching) {
      var active, devs := s.net.active, s.net.devices.Keys;
      ReleasedKeepsGuarded(s.desk, h, active, devs);
      MoveKeepsGuarded(s.desk, active, Some(s.desk.handles[h].dev), devs);
      PhaseKeepsGuarded(s.desk, h, Settling, Some(s.desk.handles[h].dev), devs);
    }
  }

  lemma ResumedKeepsProtected(s: State, a: nat, expired: bool)
    requires Protected(s)
    ensures Protected(Resumed(s, a, expired))
  {
    if a in s.desk.woken {
      TryKeepsProtected(s.(desk := AwakeDesk(s.desk, a)), a, s.desk.woken[a]);
    }
  }

  lemma TimerKeepsProtected(s: State, a: nat)
    requires Protected(s)
    ensures Protected(Step(s, WaitTimer(a)))
  {
  }

  lemma ReturnedKeepsProtected(s: State, h: nat)
    requires Protected(s)
    ensures Protected(Step(s, LeaseReturned(h))) && Protected(Step(s, Release(h)))
  {
    if h < |s.desk.handles| {
      ReleasedKeepsGuarded(s.desk, h, s.net.active, s.net.devices.Keys);
    }
    if HandleIn(s.desk, h, Settling) {
      PhaseKeepsGuarded(s.desk, h, Ready, s.net.active, s.net.devices.Keys);
    }
  }

  lemma LeaseStepKeepsProtected(s: State, e: Event)
    requires Protected(s) && LeaseEvent(e)
    ensures Protected(Step(s, e))
  {
    match e
    case Acquire(a, dev) => TryKeepsProtected(s, a, dev);
    case Resume(a, expired) => ResumedKeepsProtected(s, a, expired);
    case WaitTimer(a) => TimerKeepsProtected(s, a);
    case LeaseWired(h, ok) => WiredKeepsProtected(s, h, ok);
    case LeaseReturned(h) => ReturnedKeepsProtected(s, h);
    case Release(h) => ReturnedKeepsProtected(s, h);
  }

  lemma StepKeepsProtected(s: State, e: Event)
    requires Protected(s) && Calm(s, e)
    ensures Protected(Step(s, e))
  {
    if LeaseEvent(e) {
      LeaseStepKeepsProtected(s, e);
    } else if e.ClearProxy? {
      ClearedKeepsProtected(s, e.dev);
    } else {
      ConfigStepMovesWell(s, e);
      MoveKeepsProtected(s, Step(s, e));
    }
  }

  lemma {:induction false} RunKeepsProtected(s: State, es: seq<Event>)
    requires Protected(s) && CalmRun(s, es)
    ensures Protected(Run(s, es))
    decreases |es|
  {
    if es != [] {
      StepKeepsProtected(s, es[0]);
      RunKeepsProtected(Step(s, es[0]), es[1..]);
    }
  }

  /**
   From the return of `acquireTaskLease` until the handle is given back, however late that is, the task's
   phone is the active one and its ordinary traffic goes through its own proxy.
   */
  lemma LeasedPhoneStaysActive(start: State, es: seq<Event>, h: nat)
    requires Fresh(start) && (start.net.active.Some? ==> start.net.active.value in start.net.devices)
    requires CalmRun(start, es) && HandleIn(Run(start, es).desk, h, Ready)
    ensures var s := Run(start, es);
            var dev := s.desk.handles[h].dev;
            && s.net.active == Some(dev) && dev in s.net.devices
            && RouteFor(s.net, dev, ORDINARY) == ToProxy(s.net.devices[dev])
  {
    RunKeepsProtected(start, es);
  }

  /** Once one task has the proxy, a task of another phone cannot get a handle. */
  lemma OnePhoneAtATime(start: State, es: seq<Event>, h: nat, k: nat)
    requires Fresh(start)
    requires h < |Run(start, es).desk.handles| && k < |Run(start, es).desk.handles|
    requires Run(start, es).desk.handles[h].phase != Released && Run(start, es).desk.handles[k].phase != Released
    ensures Run(start, es).desk.handles[h].dev == Run(start, es).desk.handles[k].dev
  {
    RunKeepsInv(start, es);
  }

  // ── Every hypothesis is needed ───────────────────────────────────────────

  const PROXY := Proxy(7, false)

  const START := State(Net(Shared, BlockOthers, Some(1), map[1 := PROXY], {}, {}, map[], 0, false), EMPTY_DESK, Some(PROXY),
                       map[])

  /** A switch to a phone without configuration checks the lease before it waits for the wiring. */
  lemma SwitchToNewPhoneTakesTheProxy()
    ensures var s := Run(START, [Switch(0, 2, false), Acquire(0, 1), LeaseReturned(0), SwitchWired(0, true),
                                 CutConnections(9)]);
            && HandleIn(s.desk, 0, Ready) && s.desk.handles[0].dev == 1
            && s.net.active == Some(2)
  {
    var s1 := START.(net := Assigned(START.net, 2, PROXY), pending := START.pending[0 := 2]);
    assert Step(START, Switch(0, 2, false)) == s1;
    LeaseOnActivePhone(s1, 0, 1);
    var s3 := s1.(desk := LEASED.desk);
    assert Step(Step(s1, Acquire(0, 1)), LeaseReturned(0)) == s3;
    WiredSwitchMoves(s3, 0, 2);
    CutMovesNothing(Step(s3, SwitchWired(0, true)), 9);
    RunOfFive(START, Switch(0, 2, false), Acquire(0, 1), LeaseReturned(0), SwitchWired(0, true), CutConnections(9));
  }

  /** Cutting connections, which only fills a run up, moves nothing. */
  lemma CutMovesNothing(s: State, dev: DeviceId)
    ensures var t := Step(s, CutConnections(dev));
            t == s.(net := s.net.(clients := t.net.clients))
  {
  }

  lemma WiredSwitchMoves(s: State, op: nat, dev: DeviceId)
    requires op in s.pending && s.pending[op] == dev
    ensures var t := Step(s, SwitchWired(op, true)); t.net.active == Some(dev) && t.desk == s.desk
  {
  }

  /** Taking the free lease for a phone that is active already or configured. */
  lemma LeaseOnActivePhone(s: State, a: nat, dev: DeviceId)
    requires Enforced(s) && s.desk == EMPTY_DESK && (s.net.active == Some(dev) || dev in s.net.devices)
    ensures Step(Step(s, Acquire(a, dev)), LeaseReturned(0))
         == s.(net := SetActive(s.net, Some(dev)),
               desk := EMPTY_DESK.(lease := Held(dev, 1), handles := [Handle(dev, Ready)]))
  {
    assert Step(s, Acquire(a, dev)) == s.(net := SetActive(s.net, Some(dev)),
                                          desk := EMPTY_DESK.(lease := Held(dev, 1), handles := [Handle(dev, Settling)]));
  }

  /** If the active phone has no configuration, a re-application moves the proxy although that phone has the lease. */
  lemma ReapplyMovesProxyOffUnconfiguredPhone()
    ensures var start := START.(net := START.net.(active := Some(2)));
            var es := [Acquire(0, 2), LeaseReturned(0), Reapplied(Some(1)), CutConnections(9), CutConnections(9)];
            var s := Run(start, es);
            && CalmRun(start, es)
            && HandleIn(s.desk, 0, Ready) && s.desk.handles[0].dev == 2
            && s.net.active == Some(1)
  {
    var start := START.(net := START.net.(active := Some(2)));
    var es := [Acquire(0, 2), LeaseReturned(0), Reapplied(Some(1)), CutConnections(9), CutConnections(9)];
    var s1 := Step(start, Acquire(0, 2));
    var s2 := start.(desk := EMPTY_DESK.(lease := Held(2, 1), handles := [Handle(2, Ready)]));
    var s3 := Step(s2, Reapplied(Some(1)));
    LeaseOnActivePhone(start, 0, 2);
    RunOfFive(start, Acquire(0, 2), LeaseReturned(0), Reapplied(Some(1)), CutConnections(9), CutConnections(9));
    CalmOfFive(start, s1, s2, s3, es);
  }

  /** A task of phone 1 runs, phone 2 is configured too, and no phone or phone 1 was active. */
  const TWO := START.(net := START.net.(devices := map[1 := PROXY, 2 := PROXY]))

  const LEASED := TWO.(desk := EMPTY_DESK.(lease := Held(1, 1), handles := [Handle(1, Ready)]))

  /** A forced switch takes the proxy from the leased phone. */
  lemma ForcedSwitchTakesTheProxy()
    ensures var s := Run(TWO, [Acquire(0, 1), LeaseReturned(0), Switch(0, 2, true), CutConnections(9), CutConnections(9)]);
            s.desk == LEASED.desk && s.net.active == Some(2)
  {
    LeaseOnActivePhone(TWO, 0, 1);
    RunOfFive(TWO, Acquire(0, 1), LeaseReturned(0), Switch(0, 2, true), CutConnections(9), CutConnections(9));
  }

  /** So does removing its configuration. */
  lemma ClearTakesTheProxy()
    ensures var s := Run(TWO, [Acquire(0, 1), LeaseReturned(0), ClearProxy(1), CutConnections(9), CutConnections(9)]);
            s.desk == LEASED.desk && s.net.active == None
  {
    LeaseOnActivePhone(TWO, 0, 1);
    RunOfFive(TWO, Acquire(0, 1), LeaseReturned(0), ClearProxy(1), CutConnections(9), CutConnections(9));
  }

  /** A change to shared mode without an active phone picks one after its await, whoever has the lease by then. */
  lemma ModeChangeTakesTheProxy()
    ensures var start := TWO.(net := TWO.net.(active := None));
            var s := Run(start, [SetMode(Shared, None), Acquire(0, 1), LeaseReturned(0), SetModeListed(Some(2)),
                                 CutConnections(9)]);
            s.desk == LEASED.desk && s.net.active == Some(2)
  {
    var start := TWO.(net := TWO.net.(active := None));
    LeaseOnActivePhone(start.(net := ModeSet(start.net, Shared, None)), 0, 1);
    RunOfFive(start, SetMode(Shared, None), Acquire(0, 1), LeaseReturned(0), SetModeListed(Some(2)), CutConnections(9));
  }

  /** A pick that is no longer configured can become active and be leased, and its traffic goes out directly. */
  lemma StalePickGoesDirect()
    ensures var start := START.(net := START.net.(active := None));
            var s := Run(start, [Reapplied(Some(3)), Acquire(0, 3), LeaseReturned(0), CutConnections(9), CutConnections(9)]);
            HandleIn(s.desk, 0, Ready) && s.desk.handles[0].dev == 3 && RouteFor(s.net, 3, ORDINARY) == Direct
  {
    var start := START.(net := START.net.(active := None));
    LeaseOnActivePhone(Step(start, Reapplied(Some(3))), 0, 3);
    RunOfFive(start, Reapplied(Some(3)), Acquire(0, 3), LeaseReturned(0), CutConnections(9), CutConnections(9));
  }

  lemma CalmOfFive(s0: State, s1: State, s2: State, s3: State, es: seq<Event>)
    requires |es| == 5 && es[3].CutConnections? && es[4].CutConnections?
    requires Step(s0, es[0]) == s1 && Step(s1, es[1]) == s2 && Step(s2, es[2]) == s3
    requires Calm(s0, es[0]) && Calm(s1, es[1]) && Calm(s2, es[2])
    ensures CalmRun(s0, es)
  {
    var e1, e2, e3, e4 := es[1..], es[2..], es[3..], es[4..];
    assert e1[1..] == e2 && e2[1..] == e3 && e3[1..] == e4 && e4[1..] == [];
    assert CalmRun(Step(s3, es[3]), e4);
    assert CalmRun(s3, e3);
    assert CalmRun(s2, e2);
    assert CalmRun(s1, e1);
  }
}
