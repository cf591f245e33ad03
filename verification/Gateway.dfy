/**
 State of the proxy manager and what each uninterrupted piece of its code does to it. The agent is
 single-threaded, so a piece runs from one `await` to the next; every event below is one such piece.
 */
module Gateway {
  import opened Common

  type DeviceId = nat
  type ClientId = nat

  /** A configured proxy: its upstream (server and credentials), and whether its exit is known to be abroad. */
  datatype ProxyId = Proxy(upstream: nat, foreign: bool)

  datatype Mode = Shared | Private

  /** What the phones without the shared proxy do in shared mode. */
  datatype Policy = LetDirect | BlockOthers

  /**
   How the host lists classify a connection's target, which may be on several: dead telemetry, the hosts
   never to be proxied, and the home shop, which must be reached from the home country.
   */
  datatype Target = Target(blackhole: bool, listed: bool, home: bool) {
    /** The home shop's hosts count as hosts never to be proxied. */
    predicate Bypassed() {
      home || listed
    }
  }

  const ORDINARY := Target(false, false, false)

  datatype Route = ToProxy(proxy: ProxyId) | Direct | Block

  /** A live client socket of a phone's listener with the decision its CONNECT was given. */
  datatype Client = Client(dev: DeviceId, target: Target, route: Route)

  datatype Lease = Free | Held(dev: DeviceId, count: nat)

  /**
   A handle returned (or about to be returned) by `acquireTaskLease` in shared mode: moving the proxy
   (`Switching`), refreshing its address (`Settling`), in the task's hands (`Ready`), given back.
   */
  datatype Phase = Switching | Settling | Ready | Released
  datatype Handle = Handle(dev: DeviceId, phase: Phase)

  /** The lease and everybody waiting for it. */
  datatype Desk = Desk(
    lease: Lease,
    handles: seq<Handle>,
    waiters: seq<nat>,                   // wake-up callbacks, stale ones included
    parked: map<nat, DeviceId>,          // acquirers asleep until woken or their timer fires
    woken: map<nat, DeviceId>            // acquirers about to look at the lease again
  )

  const EMPTY_DESK := Desk(Free, [], [], map[], map[])

  /** What routing depends on. */
  datatype Net = Net(
    mode: Mode,
    policy: Policy,
    active: Option<DeviceId>,
    devices: map<DeviceId, ProxyId>,
    listeners: set<DeviceId>,            // listening gateways
    starting: set<DeviceId>,             // gateways whose `listen` is awaited
    clients: map<ClientId, Client>,
    modeOps: nat,                        // mode changes awaiting the list of phones
    stale: bool                          // the mode changed and open connections are not cut yet
  )

  datatype State = State(
    net: Net,
    desk: Desk,
    sharedProxy: Option<ProxyId>,
    pending: map<nat, DeviceId>          // switches awaiting the wiring of a phone that had no config
  )

  datatype Event =
    | Connect(c: ClientId, dev: DeviceId, target: Target)
    | Disconnect(c: ClientId)
    | StartListener(dev: DeviceId)
    | ListenerUp(dev: DeviceId)
    | ListenerFailed(dev: DeviceId)
    | SetProxy(dev: DeviceId, proxy: ProxyId, activate: bool)
    | BatchSetProxy(assignments: seq<(DeviceId, ProxyId)>)
    | ClearProxy(dev: DeviceId)
    | CutConnections(dev: DeviceId)
    | Switch(op: nat, dev: DeviceId, force: bool)
    | SwitchWired(op: nat, ok: bool)
    | SetMode(mode: Mode, policy: Option<Policy>)
    | SetModeListed(pick: Option<DeviceId>)
    | Reapplied(pick: Option<DeviceId>)
    | Acquire(a: nat, dev: DeviceId)
    | WaitTimer(a: nat)
    | Resume(a: nat, expired: bool)
    | LeaseWired(h: nat, ok: bool)
    | LeaseReturned(h: nat)
    | Release(h: nat)

  // ── Routing ──────────────────────────────────────────────────────────────

  function RouteFor(n: Net, dev: DeviceId, target: Target): Route {
    if dev !in n.devices then Direct
    else if target.blackhole then Block
    else if target.Bypassed() then Direct
    else if target.home && n.devices[dev].foreign then Direct
    else if n.mode == Private || n.active == Some(dev) then ToProxy(n.devices[dev])
    else if n.policy == BlockOthers then Block
    else Direct
  }

  /** Open connections of these phones are destroyed. */
  function Cut(n: Net, devs: set<DeviceId>): Net {
    n.(clients := map c | c in n.clients && n.clients[c].dev !in devs :: n.clients[c])
  }

  function Only(dev: Option<DeviceId>): set<DeviceId> {
    if dev.Some? then {dev.value} else {}
  }

  function CutAll(n: Net): Net {
    n.(clients := map[], stale := false)
  }

  function SetActive(n: Net, dev: Option<DeviceId>): Net {
    if n.active == dev then n else Cut(n.(active := dev), Only(n.active) + Only(dev))
  }

  function Opened(n: Net, c: ClientId, dev: DeviceId, target: Target): Net {
    var route := RouteFor(n, dev, target);
    if dev in n.listeners && c !in n.clients && route != Block
    then n.(clients := n.clients[c := Client(dev, target, route)])
    else n
  }

  // ── Configuration ────────────────────────────────────────────────────────

  predicate OtherHolds(d: Desk, dev: DeviceId) {
    d.lease.Held? && d.lease.dev != dev
  }

  function Assigned(n: Net, dev: DeviceId, proxy: ProxyId): Net {
    n.(devices := n.devices[dev := proxy])
  }

  /** `setProxy` behind its awaits; it moves the proxy unless another phone has the lease. */
  function ProxySet(n: Net, dev: DeviceId, proxy: ProxyId, moves: bool): Net {
    var n1 := Assigned(n, dev, proxy);
    Cut(if moves then SetActive(n1, Some(dev)) else n1, {dev})
  }

  function AllAssigned(n: Net, assignments: seq<(DeviceId, ProxyId)>): Net
    decreases |assignments|
  {
    if assignments == [] then n
    else
      var (dev, proxy) := assignments[0];
      AllAssigned(Cut(Assigned(n, dev, proxy), {dev}), assignments[1..])
  }

  predicate Lists(assignments: seq<(DeviceId, ProxyId)>, dev: Option<DeviceId>) {
    exists i :: 0 <= i < |assignments| && Some(assignments[i].0) == dev
  }

  function BatchSet(s: State, assignments: seq<(DeviceId, ProxyId)>): State {
    var n := AllAssigned(s.net, assignments);
    var moves := n.mode == Shared && assignments != [] && !Lists(assignments, n.active) && s.desk.lease == Free;
    s.(net := if moves then SetActive(n, Some(assignments[0].0)) else n,
       sharedProxy := if assignments == [] then s.sharedProxy else Some(assignments[|assignments| - 1].1))
  }

  function Cleared(n: Net, dev: DeviceId): Net {
    var n1 := n.(devices := n.devices - {dev});
    var n2 := if n.active == Some(dev) then SetActive(n1, None) else n1;
    Cut(n2.(listeners := n2.listeners - {dev}), {dev})
  }

  /** The proxy a phone without configuration is given. */
  function ProxyToHandOver(s: State): Option<ProxyId> {
    if s.sharedProxy.Some? then s.sharedProxy
    else if s.net.active.Some? && s.net.active.value in s.net.devices then Some(s.net.devices[s.net.active.value])
    else None
  }

  /** `switchActiveDevice` up to its first await, or to its end when the phone is configured. */
  function Switched(s: State, op: nat, dev: DeviceId, force: bool): State {
    if op in s.pending || (!force && OtherHolds(s.desk, dev)) then s
    else if dev in s.net.devices then s.(net := SetActive(s.net, Some(dev)))
    else
      match ProxyToHandOver(s)
      case None => s
      case Some(proxy) => s.(net := Assigned(s.net, dev, proxy), pending := s.pending[op := dev])
  }

  function SwitchFinished(s: State, op: nat, ok: bool): State {
    if op !in s.pending then s
    else s.(net := if ok then SetActive(s.net, Some(s.pending[op])) else s.net, pending := s.pending - {op})
  }

  predicate ActiveConfigured(n: Net) {
    n.active.Some? && n.active.value in n.devices
  }

  /** `setMode` up to its await, or to its end when an active phone is known. */
  function ModeSet(n: Net, mode: Mode, policy: Option<Policy>): Net {
    var n1 := n.(mode := mode, policy := if policy.Some? then policy.value else n.policy);
    if mode == Shared && !ActiveConfigured(n) then n1.(modeOps := n.modeOps + 1, stale := true) else CutAll(n1)
  }

  /** The picked phone is one of the configured ones, and none only if there are none. */
  predicate ValidPick(n: Net, pick: Option<DeviceId>) {
    if pick.Some? then pick.value in n.devices else n.devices == map[]
  }

  function ModeListed(n: Net, pick: Option<DeviceId>): Net {
    if n.modeOps == 0 || !ValidPick(n, pick) then n else CutAll(n.(active := pick, modeOps := n.modeOps - 1))
  }

  /** The end of `reapplyAll`; its pick comes from a list read before awaits and may be out of date. */
  function ReappliedTo(n: Net, pick: Option<DeviceId>): Net {
    if n.mode == Shared && !ActiveConfigured(n) then SetActive(n, pick) else n
  }

  // ── Lease ────────────────────────────────────────────────────────────────

  predicate Enforced(s: State) {
    s.net.mode == Shared && (s.sharedProxy.Some? || s.net.devices != map[])
  }

  /** The lease is taken, or its count raised, and the acquirer gets the next handle. */
  function JoinedDesk(d: Desk, dev: DeviceId): Desk {
    d.(lease := Held(dev, if d.lease.Held? then d.lease.count + 1 else 1), handles := d.handles + [Handle(dev, Switching)])
  }

  function ParkedDesk(d: Desk, a: nat, dev: DeviceId): Desk {
    d.(parked := d.parked[a := dev], waiters := d.waiters + [a])
  }

  function PhaseDesk(d: Desk, h: nat, phase: Phase): Desk
    requires h < |d.handles|
  {
    d.(handles := d.handles[h := d.handles[h].(phase := phase)])
  }

  /** The release closure: the last one frees the lease and wakes everybody. */
  function ReleasedDesk(d: Desk, h: nat): Desk
    requires h < |d.handles|
  {
    var dev := d.handles[h].dev;
    var d1 := PhaseDesk(d, h, Released);
    if d.handles[h].phase == Released || !d.lease.Held? || d.lease.dev != dev then d1
    else if d.lease.count > 1 then d1.(lease := Held(dev, d.lease.count - 1))
    else WokenDesk(d1.(lease := Free))
  }

  function WokenDesk(d: Desk): Desk {
    d.(waiters := [],
       parked := map a | a in d.parked && a !in d.waiters :: d.parked[a],
       woken := d.woken + map a | a in d.parked && a in d.waiters :: d.parked[a])
  }

  function TimerDesk(d: Desk, a: nat): Desk {
    if a !in d.parked then d else d.(parked := d.parked - {a}, woken := d.woken[a := d.parked[a]])
  }

  /** An acquirer that has been woken is running again. */
  function AwakeDesk(d: Desk, a: nat): Desk {
    d.(woken := d.woken - {a})
  }

  /** One turn of the waiting loop: park while another phone holds the lease, otherwise take it. */
  function Try(s: State, a: nat, dev: DeviceId): State {
    if OtherHolds(s.desk, dev) then s.(desk := ParkedDesk(s.desk, a, dev)) else Taken(s, dev)
  }

  function Taken(s: State, dev: DeviceId): State {
    ProxyMoved(s.(desk := JoinedDesk(s.desk, dev)), |s.desk.handles|)
  }

  /** The shared proxy goes to the phone of handle `h`; a phone without configuration has to be wired first. */
  function ProxyMoved(s: State, h: nat): State
    requires h < |s.desk.handles|
  {
    var dev := s.desk.handles[h].dev;
    if s.net.active == Some(dev) || dev in s.net.devices then
      s.(net := SetActive(s.net, Some(dev)), desk := PhaseDesk(s.desk, h, Settling))
    else
      match ProxyToHandOver(s)
      case None => s.(desk := ReleasedDesk(s.desk, h))
      case Some(proxy) => s.(net := Assigned(s.net, dev, proxy))
  }

  function Entered(s: State, a: nat, dev: DeviceId): State {
    if a in s.desk.parked || a in s.desk.woken || !Enforced(s) then s else Try(s, a, dev)
  }

  /** A woken acquirer looks again; past its deadline it gives up if the lease is still taken. */
  function Resumed(s: State, a: nat, expired: bool): State {
    if a !in s.desk.woken then s
    else
      var dev := s.desk.woken[a];
      var s1 := s.(desk := AwakeDesk(s.desk, a));
      if expired && OtherHolds(s.desk, dev) then s1 else Try(s1, a, dev)
  }

  predicate HandleIn(d: Desk, h: nat, phase: Phase) {
    h < |d.handles| && d.handles[h].phase == phase
  }

  function Wired(s: State, h: nat, ok: bool): State {
    if !HandleIn(s.desk, h, Switching) then s
    else if ok then
      s.(net := SetActive(s.net, Some(s.desk.handles[h].dev)), desk := PhaseDesk(s.desk, h, Settling))
    else s.(desk := ReleasedDesk(s.desk, h))
  }

  function Returned(d: Desk, h: nat): Desk {
    if HandleIn(d, h, Settling) then PhaseDesk(d, h, Ready) else d
  }

  /** Only a returned handle can be released; releasing it again finds it released. */
  function HandleReleased(d: Desk, h: nat): Desk {
    if HandleIn(d, h, Ready) || HandleIn(d, h, Released) then ReleasedDesk(d, h) else d
  }

  // ── Runs ─────────────────────────────────────────────────────────────────

  function GatewayStep(n: Net, e: Event): Net {
    match e
    case Connect(c, dev, target) => Opened(n, c, dev, target)
    case Disconnect(c) => n.(clients := n.clients - {c})
    case StartListener(dev) =>
      if dev in n.devices && dev !in n.listeners then n.(starting := n.starting + {dev}) else n
    case ListenerUp(dev) =>
      if dev in n.starting then n.(starting := n.starting - {dev}, listeners := n.listeners + {dev}) else n
    case ListenerFailed(dev) => n.(starting := n.starting - {dev})
    case CutConnections(dev) => Cut(n, {dev})
    case ClearProxy(dev) => Cleared(n, dev)
    case SetMode(mode, policy) => ModeSet(n, mode, policy)
    case SetModeListed(pick) => ModeListed(n, pick)
    case Reapplied(pick) => ReappliedTo(n, pick)
    case _ => n
  }

  function Step(s: State, e: Event): State {
    match e
    case SetProxy(dev, proxy, activate) =>
      var moves := s.net.mode == Shared && activate && !OtherHolds(s.desk, dev);
      s.(net := ProxySet(s.net, dev, proxy, moves), sharedProxy := Some(proxy))
    case BatchSetProxy(assignments) => BatchSet(s, assignments)
    case Switch(op, dev, force) => Switched(s, op, dev, force)
    case SwitchWired(op, ok) => SwitchFinished(s, op, ok)
    case Acquire(a, dev) => Entered(s, a, dev)
    case WaitTimer(a) => s.(desk := TimerDesk(s.desk, a))
    case Resume(a, expired) => Resumed(s, a, expired)
    case LeaseWired(h, ok) => Wired(s, h, ok)
    case LeaseReturned(h) => s.(desk := Returned(s.desk, h))
    case Release(h) => s.(desk := HandleReleased(s.desk, h))
    case _ => s.(net := GatewayStep(s.net, e))
  }

  predicate LeaseEvent(e: Event) {
    e.Acquire? || e.WaitTimer? || e.Resume? || e.LeaseWired? || e.LeaseReturned? || e.Release?
  }

  /** Events that concern the network alone. */
  predicate NetEvent(e: Event) {
    || e.Connect? || e.Disconnect? || e.StartListener? || e.ListenerUp? || e.ListenerFailed? || e.CutConnections?
    || e.ClearProxy? || e.SetMode? || e.SetModeListed? || e.Reapplied?
  }

  function Run(s: State, es: seq<Event>): State
    decreases |es|
  {
    if es == [] then s else Run(Step(s, es[0]), es[1..])
  }

  /** What the manager starts from: a loaded configuration, nothing running yet. */
  predicate Fresh(s: State) {
    && s.net.listeners == {} && s.net.starting == {} && s.net.clients == map[]
    && s.net.modeOps == 0 && !s.net.stale
    && s.desk == EMPTY_DESK && s.pending == map[]
  }

  lemma RunOfFive(s: State, a: Event, b: Event, c: Event, d: Event, e: Event)
    ensures Run(s, [a, b, c, d, e]) == Step(Step(Step(Step(Step(s, a), b), c), d), e)
  {
    calc {
      Run(s, [a, b, c, d, e]);
      { assert [a, b, c, d, e][1..] == [b, c, d, e]; }
      Run(Step(s, a), [b, c, d, e]);
      { assert [b, c, d, e][1..] == [c, d, e]; }
      Run(Step(Step(s, a), b), [c, d, e]);
      { assert [c, d, e][1..] == [d, e]; }
      Run(Step(Step(Step(s, a), b), c), [d, e]);
      { assert [d, e][1..] == [e]; }
      Run(Step(Step(Step(Step(s, a), b), c), d), [e]);
      { assert [e][1..] == []; }
      Step(Step(Step(Step(Step(s, a), b), c), d), e);
    }
  }
}
