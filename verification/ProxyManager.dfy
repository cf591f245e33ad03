/**
 The manager itself: its fields, and its methods cut at every `await` into pieces that run undisturbed. Each
 piece keeps both invariants, of routing and of the lease.
 */
module ProxyManager {
  import opened Common
  import opened Gateway
  import StickyRouting
  import TaskLease

  // ── What a caller may rely on ────────────────────────────────────────────

  lemma ProxyStored(s: State, dev: DeviceId, proxy: ProxyId, activate: bool)
    requires StickyRouting.Inv(s.net)
    ensures var t := Step(s, SetProxy(dev, proxy, activate));
            && StickyRouting.Inv(t.net) && t.desk == s.desk
            && (forall c :: c in t.net.clients ==> t.net.clients[c].dev != dev)
            && t.net.devices == s.net.devices[dev := proxy] && t.sharedProxy == Some(proxy)
            && t.net.active == (if s.net.mode == Shared && activate && !OtherHolds(s.desk, dev) then Some(dev) else s.net.active)
  {
    StickyRouting.ProxySetKeepsInv(s.net, dev, proxy, s.net.mode == Shared && activate && !OtherHolds(s.desk, dev));
  }

  lemma {:induction false} AssignedKeepsActive(n: Net, assignments: seq<(DeviceId, ProxyId)>)
    ensures AllAssigned(n, assignments).active == n.active && AllAssigned(n, assignments).mode == n.mode
    decreases |assignments|
  {
    if assignments != [] {
      var (dev, proxy) := assignments[0];
      AssignedKeepsActive(Cut(Assigned(n, dev, proxy), {dev}), assignments[1..]);
    }
  }

  /** The last proxy listed for a phone is the one it gets. */
  lemma {:induction false} LastAssignmentCounts(n: Net, assignments: seq<(DeviceId, ProxyId)>, i: nat)
    requires i < |assignments| && forall j :: i < j < |assignments| ==> assignments[j].0 != assignments[i].0
    ensures var (dev, proxy) := assignments[i];
            dev in AllAssigned(n, assignments).devices && AllAssigned(n, assignments).devices[dev] == proxy
    decreases |assignments|
  {
    var (dev, proxy) := assignments[0];
    var rest := Cut(Assigned(n, dev, proxy), {dev});
    if i > 0 {
      LastAssignmentCounts(rest, assignments[1..], i - 1);
    } else {
      OthersKeepProxy(rest, assignments[1..], dev);
    }
  }

  lemma {:induction false} OthersKeepProxy(n: Net, assignments: seq<(DeviceId, ProxyId)>, dev: DeviceId)
    requires dev in n.devices && forall j :: 0 <= j < |assignments| ==> assignments[j].0 != dev
    ensures dev in AllAssigned(n, assignments).devices && AllAssigned(n, assignments).devices[dev] == n.devices[dev]
    decreases |assignments|
  {
    if assignments != [] {
      var (d, proxy) := assignments[0];
      assert assignments[0].0 != dev;
      OthersKeepProxy(Cut(Assigned(n, d, proxy), {d}), assignments[1..], dev);
    }
  }

  lemma BatchStored(s: State, assignments: seq<(DeviceId, ProxyId)>)
    ensures var t := BatchSet(s, assignments);
            && t.desk == s.desk && t.net.mode == AllAssigned(s.net, assignments).mode
            && (t.net.active != s.net.active ==> s.desk.lease == Free)
            && (s.net.mode == Shared && s.desk.lease == Free && assignments != [] ==>
                  if exists i :: 0 <= i < |assignments| && Some(assignments[i].0) == s.net.active
                  then t.net.active == s.net.active else t.net.active == Some(assignments[0].0))
            && t.net.devices == AllAssigned(s.net, assignments).devices
  {
    AssignedKeepsActive(s.net, assignments);
  }

  lemma ModeStored(n: Net, mode: Mode, policy: Option<Policy>)
    ensures var t := ModeSet(n, mode, policy); t.clients == map[] || (t.stale && t.modeOps > 0)
  {
  }

  lemma Tried(s: State, a: nat, dev: DeviceId)
    requires TaskLease.Inv(s.desk)
    ensures var d := Try(s, a, dev).desk;
            && (if OtherHolds(s.desk, dev) then d.handles == s.desk.handles && a in d.parked && d.parked[a] == dev
                else |d.handles| == |s.desk.handles| + 1 && d.handles[|s.desk.handles|].dev == dev)
            && forall h :: 0 <= h < |d.handles| && d.handles[h].phase != Released ==>
                 d.lease == Held(d.handles[h].dev, TaskLease.Unreleased(d.handles))
  {
    TaskLease.TryKeepsInv(s, a, dev);
    TaskLease.TakenDesk(s, dev);
  }

  class Manager {
    var mode: Mode
    var inactivePolicy: Policy
    var activeDeviceId: Option<DeviceId>
    var sharedProxy: Option<ProxyId>
    var devices: map<DeviceId, ProxyId>
    var listeners: set<DeviceId>
    var listenerStarts: set<DeviceId>
    var clients: map<ClientId, Client>
    var lease: Lease
    var handles: seq<Handle>
    var leaseWaiters: seq<nat>
    var parked: map<nat, DeviceId>
    var woken: map<nat, DeviceId>
    var pending: map<nat, DeviceId>
    var modeOps: nat
    var stale: bool

    function NetNow(): Net
      reads this
    {
      Net(mode, inactivePolicy, activeDeviceId, devices, listeners, listenerStarts, clients, modeOps, stale)
    }

    function DeskNow(): Desk
      reads this
    {
      Desk(lease, handles, leaseWaiters, parked, woken)
    }

    function Model(): State
      reads this
    {
      State(NetNow(), DeskNow(), sharedProxy, pending)
    }

    /** Connections follow the decisions, and the lease is counted right. */
    ghost predicate Valid()
      reads this
    {
      StickyRouting.Inv(NetNow()) && TaskLease.Inv(DeskNow())
    }

    constructor (mode: Mode, policy: Policy, active: Option<DeviceId>, sharedProxy: Option<ProxyId>,
                 devices: map<DeviceId, ProxyId>)
      ensures Fresh(Model()) && Valid()
      ensures this.mode == mode && inactivePolicy == policy && activeDeviceId == active
      ensures this.sharedProxy == sharedProxy && this.devices == devices
    {
      this.mode, inactivePolicy, activeDeviceId := mode, policy, active;
      this.sharedProxy, this.devices := sharedProxy, devices;
      listeners, listenerStarts, clients := {}, {}, map[];
      lease, handles, leaseWaiters, parked, woken := Free, [], [], map[], map[];
      pending, modeOps, stale := map[], 0, false;
    }

    // ── Network ────────────────────────────────────────────────────────────

    method Route(dev: DeviceId, target: Target) returns (route: Route)
      ensures route == RouteFor(NetNow(), dev, target)
    {
      if dev !in devices { return Direct; }
      var proxy := devices[dev];
      if target.blackhole { return Block; }
      if target.Bypassed() { return Direct; }
      if target.home && proxy.foreign { return Direct; }
      if mode == Private || activeDeviceId == Some(dev) { return ToProxy(proxy); }
      return if inactivePolicy == BlockOthers then Block else Direct;
    }

    /**
     A new connection of a listening phone is accepted exactly if its target is not dead telemetry and the
     phone is not shut out, on the route that the rules give; and every open one still obeys them.
     */
    method OnConnect(c: ClientId, dev: DeviceId, target: Target)
      requires Valid()
      modifies this`clients
      ensures Valid() && NetNow() == Opened(old(NetNow()), c, dev, target)
      ensures c !in old(clients) ==>
                (c in clients <==> dev in listeners && !target.blackhole
                                   && (target.Bypassed() || StickyRouting.MayProxy(NetNow(), dev) || inactivePolicy == LetDirect))
      ensures c in clients && c !in old(clients) ==>
                clients[c].dev == dev && clients[c].target == target && StickyRouting.ObeysRules(NetNow(), clients[c])
      ensures !stale ==> forall k :: k in clients ==> StickyRouting.ObeysRules(NetNow(), clients[k])
    {
      StickyRouting.NetStepKeepsInv(NetNow(), Connect(c, dev, target));
      if dev !in listeners || c in clients { return; }
      var route := Route(dev, target);
      if route != Block {
        clients := clients[c := Client(dev, target, route)];
      }
    }

    method DropConnections(devs: set<DeviceId>)
      modifies this`clients
      ensures NetNow() == Cut(old(NetNow()), devs)
    {
      clients := map c | c in clients && clients[c].dev !in devs :: clients[c];
    }

    method DropAll()
      modifies this`clients, this`stale
      ensures NetNow() == CutAll(old(NetNow()))
    {
      clients, stale := map[], false;
    }

    method SetActiveDevice(dev: Option<DeviceId>)
      modifies this`activeDeviceId, this`clients
      ensures NetNow() == SetActive(old(NetNow()), dev)
    {
      var previous := activeDeviceId;
      activeDeviceId := dev;
      if previous != dev {
        DropConnections(Only(previous) + Only(dev));
      }
    }

    method StoreProxy(dev: DeviceId, proxy: ProxyId, activate: bool)
      modifies this`devices, this`sharedProxy, this`activeDeviceId, this`clients
      ensures Model() == Step(old(Model()), SetProxy(dev, proxy, activate))
    {
      devices := devices[dev := proxy];
      sharedProxy := Some(proxy);
      if mode == Shared && activate && !(lease.Held? && lease.dev != dev) {
        SetActiveDevice(Some(dev));
      }
      DropConnections({dev});
    }

    /** The phone's connections are cut; the shared proxy moves only to it, and not from under a lease. */
    method AssignProxy(dev: DeviceId, proxy: ProxyId, activate: bool)
      requires Valid()
      modifies this`devices, this`sharedProxy, this`activeDeviceId, this`clients
      ensures Valid() && Model() == Step(old(Model()), SetProxy(dev, proxy, activate))
      ensures forall c :: c in clients ==> clients[c].dev != dev
      ensures devices == old(devices)[dev := proxy] && sharedProxy == Some(proxy)
      ensures activeDeviceId ==
              if mode == Shared && activate && !OtherHolds(DeskNow(), dev) then Some(dev) else old(activeDeviceId)
    {
      ProxyStored(Model(), dev, proxy, activate);
      StoreProxy(dev, proxy, activate);
    }

    method StoreAll(assignments: seq<(DeviceId, ProxyId)>)
      modifies this`devices, this`sharedProxy, this`activeDeviceId, this`clients
      ensures Model() == BatchSet(old(Model()), assignments)
    {
      var i := 0;
      assert assignments[0..] == assignments;
      while i < |assignments|
        invariant i <= |assignments| && activeDeviceId == old(activeDeviceId)
        invariant AllAssigned(NetNow(), assignments[i..]) == AllAssigned(old(NetNow()), assignments)
        invariant sharedProxy == if i == 0 then old(sharedProxy) else Some(assignments[i - 1].1)
      {
        var (dev, proxy) := assignments[i];
        assert assignments[i..][0] == assignments[i] && assignments[i..][1..] == assignments[i + 1..];
        devices := devices[dev := proxy];
        sharedProxy := Some(proxy);
        DropConnections({dev});
        i := i + 1;
      }
      if mode == Shared && assignments != [] && !Lists(assignments, activeDeviceId) && lease == Free {
        SetActiveDevice(Some(assignments[0].0));
      }
    }

    method AssignAll(assignments: seq<(DeviceId, ProxyId)>)
      requires Valid()
      modifies this`devices, this`sharedProxy, this`activeDeviceId, this`clients
      ensures Valid() && Model() == BatchSet(old(Model()), assignments)
      ensures activeDeviceId != old(activeDeviceId) ==> lease == Free
      ensures mode == Shared && lease == Free && assignments != [] ==>
                if exists i :: 0 <= i < |assignments| && Some(assignments[i].0) == old(activeDeviceId)
                then activeDeviceId == old(activeDeviceId) else activeDeviceId == Some(assignments[0].0)
      ensures forall i :: 0 <= i < |assignments| && (forall j :: i < j < |assignments| ==> assignments[j].0 != assignments[i].0)
                ==> assignments[i].0 in devices && devices[assignments[i].0] == assignments[i].1
    {
      StickyRouting.BatchSetKeepsInv(Model(), assignments);
      BatchStored(Model(), assignments);
      AssignedKeepsActive(NetNow(), assignments);
      forall i | 0 <= i < |assignments| && (forall j :: i < j < |assignments| ==> assignments[j].0 != assignments[i].0)
        ensures assignments[i].0 in AllAssigned(NetNow(), assignments).devices
                && AllAssigned(NetNow(), assignments).devices[assignments[i].0] == assignments[i].1
      {
        LastAssignmentCounts(NetNow(), assignments, i);
      }
      StoreAll(assignments);
    }

    /** Nothing of the phone is left; decisions stay right unless its gateway is just starting. */
    method ClearProxyOf(dev: DeviceId)
      requires Valid()
      modifies this`devices, this`listeners, this`activeDeviceId, this`clients
      ensures NetNow() == Cleared(old(NetNow()), dev) && (dev !in listenerStarts ==> Valid())
      ensures dev !in devices && dev !in listeners && activeDeviceId != Some(dev)
      ensures forall c :: c in clients ==> clients[c].dev != dev
    {
      if dev !in listenerStarts {
        StickyRouting.ClearedKeepsInv(NetNow(), dev);
      }
      devices := devices - {dev};
      if activeDeviceId == Some(dev) {
        SetActiveDevice(None);
      }
      listeners := listeners - {dev};
      DropConnections({dev});
    }

    method StoreMode(mode: Mode, policy: Option<Policy>)
      modifies this`mode, this`inactivePolicy, this`modeOps, this`stale, this`clients
      ensures NetNow() == ModeSet(old(NetNow()), mode, policy)
    {
      this.mode := mode;
      if policy.Some? {
        inactivePolicy := policy.value;
      }
      if mode == Shared && (activeDeviceId.None? || activeDeviceId.value !in devices) {
        modeOps, stale := modeOps + 1, true;
      } else {
        DropAll();
      }
    }

    /** Either no connection is left open, or the change is under way and known to be. */
    method ChangeMode(mode: Mode, policy: Option<Policy>)
      requires Valid()
      modifies this`mode, this`inactivePolicy, this`modeOps, this`stale, this`clients
      ensures Valid() && NetNow() == ModeSet(old(NetNow()), mode, policy)
      ensures clients == map[] || (stale && modeOps > 0)
    {
      StickyRouting.ModeSetKeepsInv(NetNow(), mode, policy);
      ModeStored(NetNow(), mode, policy);
      StoreMode(mode, policy);
    }

    method FinishModeChange(pick: Option<DeviceId>)
      requires Valid()
      modifies this`activeDeviceId, this`modeOps, this`stale, this`clients
      ensures Valid() && NetNow() == ModeListed(old(NetNow()), pick)
      ensures old(modeOps) > 0 && (if pick.Some? then pick.value in devices else devices == map[]) ==>
                activeDeviceId == pick && modeOps == old(modeOps) - 1 && clients == map[] && !stale
    {
      StickyRouting.ModeListedKeepsInv(NetNow(), pick);
      if modeOps == 0 || !(if pick.Some? then pick.value in devices else devices == map[]) { return; }
      activeDeviceId := pick;
      modeOps := modeOps - 1;
      DropAll();
    }

    method FinishReapply(pick: Option<DeviceId>)
      requires Valid()
      modifies this`activeDeviceId, this`clients
      ensures Valid() && NetNow() == ReappliedTo(old(NetNow()), pick)
    {
      StickyRouting.SetActiveKeepsInv(NetNow(), pick);
      if mode == Shared && (activeDeviceId.None? || activeDeviceId.value !in devices) {
        SetActiveDevice(pick);
      }
    }

    // ── Switching ──────────────────────────────────────────────────────────

    /** The proxy for a phone without configuration. */
    method FindProxy() returns (proxy: Option<ProxyId>)
      ensures proxy == ProxyToHandOver(Model())
    {
      proxy := sharedProxy;
      if proxy.None? && activeDeviceId.Some? && activeDeviceId.value in devices {
        proxy := Some(devices[activeDeviceId.value]);
      }
    }

    /** Without force the proxy is not taken from a phone that has the lease. */
    method SwitchActiveDevice(op: nat, dev: DeviceId, force: bool)
      requires Valid()
      modifies this`devices, this`pending, this`activeDeviceId, this`clients
      ensures Valid() && Model() == Switched(old(Model()), op, dev, force)
      ensures activeDeviceId != old(activeDeviceId) ==> activeDeviceId == Some(dev) && (force || !OtherHolds(DeskNow(), dev))
      ensures op !in old(pending) && (force || !OtherHolds(DeskNow(), dev)) ==>
                if dev in old(devices) then activeDeviceId == Some(dev)
                else old(sharedProxy).Some? ==> devices == old(devices)[dev := old(sharedProxy).value] && pending == old(pending)[op := dev]
      ensures op !in old(pending) && !force && OtherHolds(DeskNow(), dev) ==> Model() == old(Model())
    {
      StickyRouting.SwitchKeepsInv(Model(), op, dev, force);
      if op in pending || (!force && lease.Held? && lease.dev != dev) { return; }
      if dev in devices {
        SetActiveDevice(Some(dev));
        return;
      }
      var proxy := FindProxy();
      if proxy.Some? {
        devices := devices[dev := proxy.value];
        pending := pending[op := dev];
      }
    }

    method FinishSwitch(op: nat, ok: bool)
      requires Valid()
      modifies this`pending, this`activeDeviceId, this`clients
      ensures Valid() && Model() == SwitchFinished(old(Model()), op, ok)
      ensures op in old(pending) ==> op !in pending && (ok ==> activeDeviceId == Some(old(pending[op])))
    {
      if op in pending {
        StickyRouting.SetActiveKeepsInv(NetNow(), Some(pending[op]));
      }
      if op !in pending { return; }
      var dev := pending[op];
      pending := pending - {op};
      if ok {
        SetActiveDevice(Some(dev));
      }
    }

    // ── Lease ──────────────────────────────────────────────────────────────

    method AcquireTaskLease(a: nat, dev: DeviceId)
      requires Valid()
      modifies this
      ensures Valid() && Model() == Entered(old(Model()), a, dev)
      ensures old(mode) != Shared || (old(sharedProxy).None? && old(devices) == map[]) ==> Model() == old(Model())
      ensures a !in old(parked) && a !in old(woken) && old(mode) == Shared && (old(sharedProxy).Some? || old(devices) != map[]) ==>
                if old(OtherHolds(DeskNow(), dev)) then a in parked && parked[a] == dev
                else |handles| == old(|handles|) + 1 && handles[old(|handles|)].dev == dev
    {
      if a in parked || a in woken { return; }
      if mode != Shared || (sharedProxy.None? && devices == map[]) { return; }
      TryLease(a, dev);
    }

    method TakeOrSleep(a: nat, dev: DeviceId)
      requires TaskLease.Inv(DeskNow())
      modifies this
      ensures Model() == Try(old(Model()), a, dev)
    {
      if lease.Held? && lease.dev != dev {
        parked := parked[a := dev];
        leaseWaiters := leaseWaiters + [a];
        return;
      }
      TaskLease.JoinedKeepsInv(DeskNow(), dev);
      lease := if lease.Held? then lease.(count := lease.count + 1) else Held(dev, 1);
      handles := handles + [Handle(dev, Switching)];
      assert DeskNow() == JoinedDesk(old(DeskNow()), dev);
      MoveProxy(|handles| - 1);
    }

    /**
     The acquirer gets a handle exactly if no other phone has the lease, and sleeps otherwise; whoever holds
     handles is counted, and all of them are of one phone.
     */
    method TryLease(a: nat, dev: DeviceId)
      requires Valid()
      modifies this
      ensures Valid() && Model() == Try(old(Model()), a, dev)
      ensures if old(OtherHolds(DeskNow(), dev)) then handles == old(handles) && a in parked && parked[a] == dev
              else |handles| == old(|handles|) + 1 && handles[old(|handles|)].dev == dev
      ensures forall h :: 0 <= h < |handles| && handles[h].phase != Released ==>
                lease == Held(handles[h].dev, TaskLease.Unreleased(handles))
    {
      StickyRouting.TryKeepsInv(Model(), a, dev);
      TaskLease.TryKeepsInv(Model(), a, dev);
      Tried(Model(), a, dev);
      TakeOrSleep(a, dev);
    }

    /** A phone without configuration gets the shared proxy's, or the handle is given back. */
    method HandOver(h: nat)
      requires TaskLease.Inv(DeskNow()) && h < |handles| && handles[h].dev !in devices
      modifies this`devices, this`lease, this`handles, this`leaseWaiters, this`parked, this`woken
      ensures match ProxyToHandOver(old(Model()))
              case None => Model() == old(Model()).(desk := ReleasedDesk(old(DeskNow()), h))
              case Some(proxy) => Model() == old(Model()).(net := Assigned(old(NetNow()), old(handles[h].dev), proxy))
    {
      var proxy := FindProxy();
      if proxy.Some? {
        devices := devices[handles[h].dev := proxy.value];
      } else {
        GiveBack(h);
      }
    }

    method MoveProxy(h: nat)
      requires TaskLease.Inv(DeskNow()) && h < |handles|
      modifies this
      ensures Model() == ProxyMoved(old(Model()), h)
    {
      var dev := handles[h].dev;
      if activeDeviceId != Some(dev) {
        if dev !in devices {
          HandOver(h);
          return;
        }
        SetActiveDevice(Some(dev));
      }
      handles := handles[h := handles[h].(phase := Settling)];
    }

    /** One handle less is counted; with the last one the lease is free and everybody asleep is woken. */
    method GiveBack(h: nat)
      requires TaskLease.Inv(DeskNow()) && h < |handles|
      modifies this`lease, this`handles, this`leaseWaiters, this`parked, this`woken
      ensures TaskLease.Inv(DeskNow()) && DeskNow() == ReleasedDesk(old(DeskNow()), h)
      ensures handles[h].phase == Released
      ensures TaskLease.Unreleased(handles)
           == old(TaskLease.Unreleased(handles)) - if old(handles[h].phase) == Released then 0 else 1
      ensures if TaskLease.Unreleased(handles) > 0 then lease.Held? && lease.count == TaskLease.Unreleased(handles)
              else lease == Free && parked == map[] && forall a :: a in old(parked) ==> a in woken
    {
      TaskLease.ReleasedKeepsInv(DeskNow(), h);
      TaskLease.ReleaseCounts(DeskNow(), h);
      var dev := handles[h].dev;
      var already := handles[h].phase == Released;
      handles := handles[h := Handle(dev, Released)];
      if already || lease.Free? || lease.dev != dev { return; }
      if lease.count > 1 {
        lease := Held(dev, lease.count - 1);
      } else {
        lease := Free;
        woken := woken + map a | a in parked && a in leaseWaiters :: parked[a];
        parked := map a | a in parked && a !in leaseWaiters :: parked[a];
        leaseWaiters := [];
      }
    }

    method OnWaitTimer(a: nat)
      requires Valid()
      modifies this`parked, this`woken
      ensures Valid() && DeskNow() == TimerDesk(old(DeskNow()), a)
    {
      if a in parked {
        woken := woken[a := parked[a]];
        parked := parked - {a};
      }
    }

    method ResumeAcquire(a: nat, expired: bool)
      requires Valid()
      modifies this
      ensures Valid() && Model() == Resumed(old(Model()), a, expired)
    {
      if a !in woken { return; }
      var dev := woken[a];
      woken := woken - {a};
      if expired && lease.Held? && lease.dev != dev { return; }
      TryLease(a, dev);
    }

    method WiringEnded(h: nat, ok: bool)
      requires TaskLease.Inv(DeskNow())
      modifies this
      ensures Model() == Wired(old(Model()), h, ok)
    {
      if h >= |handles| || handles[h].phase != Switching { return; }
      if ok {
        SetActiveDevice(Some(handles[h].dev));
        handles := handles[h := handles[h].(phase := Settling)];
      } else {
        GiveBack(h);
      }
    }

    method FinishWiring(h: nat, ok: bool)
      requires Valid()
      modifies this
      ensures Valid() && Model() == Wired(old(Model()), h, ok)
    {
      StickyRouting.WiredKeepsInv(Model(), h, ok);
      TaskLease.WiredKeepsInv(Model(), h, ok);
      WiringEnded(h, ok);
    }

    method ReturnHandle(h: nat)
      requires Valid()
      modifies this`handles
      ensures Valid() && DeskNow() == Returned(old(DeskNow()), h)
    {
      TaskLease.ReturnedKeepsInv(DeskNow(), h);
      if h < |handles| && handles[h].phase == Settling {
        handles := handles[h := handles[h].(phase := Ready)];
      }
    }

    method ReleaseHandle(h: nat)
      requires Valid()
      modifies this`lease, this`handles, this`leaseWaiters, this`parked, this`woken
      ensures Valid() && DeskNow() == HandleReleased(old(DeskNow()), h)
    {
      if h < |handles| && handles[h].phase in {Ready, Released} {
        GiveBack(h);
      }
    }

    // ── Every event ────────────────────────────────────────────────────────

    method DispatchNet(e: Event)
      requires Valid() && NetEvent(e)
      modifies this`mode, this`inactivePolicy, this`activeDeviceId, this`devices, this`listeners, this`listenerStarts,
               this`clients, this`modeOps, this`stale
      ensures NetNow() == GatewayStep(old(NetNow()), e)
      ensures StickyRouting.NoClearRace(old(NetNow()), e) ==> Valid()
    {
      if StickyRouting.NoClearRace(NetNow(), e) {
        StickyRouting.NetStepKeepsInv(NetNow(), e);
      }
      match e
      case Connect(c, dev, target) => OnConnect(c, dev, target);
      case Disconnect(c) => clients := clients - {c};
      case StartListener(dev) =>
        if dev in devices && dev !in listeners {
          listenerStarts := listenerStarts + {dev};
        }
      case ListenerUp(dev) =>
        if dev in listenerStarts {
          listenerStarts, listeners := listenerStarts - {dev}, listeners + {dev};
        }
      case ListenerFailed(dev) => listenerStarts := listenerStarts - {dev};
      case CutConnections(dev) => DropConnections({dev});
      case ClearProxy(dev) => ClearProxyOf(dev);
      case SetMode(mode, policy) => ChangeMode(mode, policy);
      case SetModeListed(pick) => FinishModeChange(pick);
      case Reapplied(pick) => FinishReapply(pick);
    }

    method DispatchAcquire(e: Event)
      requires Valid() && (e.Acquire? || e.WaitTimer? || e.Resume?)
      modifies this
      ensures Valid() && Model() == Step(old(Model()), e)
    {
      match e
      case Acquire(a, dev) => AcquireTaskLease(a, dev);
      case WaitTimer(a) => OnWaitTimer(a);
      case Resume(a, expired) => ResumeAcquire(a, expired);
    }

    method DispatchHandle(e: Event)
      requires Valid() && (e.LeaseReturned? || e.Release?)
      modifies this`lease, this`handles, this`leaseWaiters, this`parked, this`woken
      ensures Valid() && Model() == Step(old(Model()), e)
    {
      match e
      case LeaseReturned(h) => ReturnHandle(h);
      case Release(h) => ReleaseHandle(h);
    }

    /**
     Whatever happens, the lease stays counted right, and connections keep following the decisions unless a
     configuration is removed while its gateway starts.
     */
    method Dispatch(e: Event)
      requires Valid()
      modifies this
      ensures Model() == Step(old(Model()), e) && TaskLease.Inv(DeskNow())
      ensures StickyRouting.NoClearRace(old(NetNow()), e) ==> Valid() && (stale || StickyRouting.Consistent(NetNow()))
    {
      if NetEvent(e) {
        DispatchNet(e);
      } else if e.Acquire? || e.WaitTimer? || e.Resume? {
        DispatchAcquire(e);
      } else if e.LeaseReturned? || e.Release? {
        DispatchHandle(e);
      } else {
        match e
        case SetProxy(dev, proxy, activate) => AssignProxy(dev, proxy, activate);
        case BatchSetProxy(assignments) => AssignAll(assignments);
        case Switch(op, dev, force) => SwitchActiveDevice(op, dev, force);
        case SwitchWired(op, ok) => FinishSwitch(op, ok);
        case LeaseWired(h, ok) => FinishWiring(h, ok);
      }
    }
  }
}
