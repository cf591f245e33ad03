/**
 Routing decisions are made once, when a connection is opened, and stay right: whatever happens to the
 configuration, every connection still open is routed as it would be routed now.
 */
module StickyRouting {
  import opened Common
  import opened Gateway

  /** A phone's configuration is not removed while its gateway is still starting. */
  predicate NoClearRace(n: Net, e: Event) {
    e.ClearProxy? ==> e.dev !in n.starting
  }

  predicate RaceFree(s: State, es: seq<Event>)
    decreases |es|
  {
    es == [] || (NoClearRace(s.net, es[0]) && RaceFree(Step(s, es[0]), es[1..]))
  }

  /** The recorded decision of every open connection is the decision for it now. */
  ghost predicate Consistent(n: Net) {
    forall c :: c in n.clients ==> n.clients[c].route == RouteFor(n, n.clients[c].dev, n.clients[c].target)
  }

  // ── The rules ────────────────────────────────────────────────────────────

  /** The phone may use its proxy now. */
  predicate MayProxy(n: Net, dev: DeviceId) {
    n.mode == Private || n.active == Some(dev)
  }

  /**
   What an open connection is allowed: never to dead telemetry; directly, and never through a proxy, to the
   hosts not to be proxied and the home shop; otherwise through the phone's own proxy if it may use it, and if
   not then directly, unless the others are blocked.
   */
  ghost predicate ObeysRules(n: Net, client: Client) {
    var dev, target, route := client.dev, client.target, client.route;
    && dev in n.devices
    && !target.blackhole
    && (target.listed || target.home ==> route == Direct)
    && (!target.listed && !target.home && MayProxy(n, dev) ==> route == ToProxy(n.devices[dev]))
    && (!target.listed && !target.home && !MayProxy(n, dev) ==> route == Direct && n.policy == LetDirect)
  }

  lemma DecisionObeysRules(n: Net, client: Client)
    requires client.dev in n.devices && client.route == RouteFor(n, client.dev, client.target) && !client.route.Block?
    ensures ObeysRules(n, client)
  {
  }

  /** Connections are never kept on the decision to block. */
  ghost predicate NoneBlocked(n: Net) {
    forall c :: c in n.clients ==> !n.clients[c].route.Block?
  }

  ghost predicate Inv(n: Net) {
    && NoneBlocked(n)
    && (forall c :: c in n.clients ==> n.clients[c].dev in n.listeners)
    && n.listeners + n.starting <= n.devices.Keys
    && n.starting !! n.listeners
    && (n.stale ==> n.modeOps > 0)
    && (!n.stale ==> Consistent(n))
  }

  /** Moving the proxy between two phones changes nobody else's route, and both lose their connections. */
  lemma SetActiveKeepsInv(n: Net, dev: Option<DeviceId>)
    requires Inv(n)
    ensures Inv(SetActive(n, dev))
  {
  }

  lemma AssignKeepsInv(n: Net, dev: DeviceId, proxy: ProxyId)
    requires Inv(n)
    ensures Inv(Cut(Assigned(n, dev, proxy), {dev}))
  {
  }

  lemma {:induction false} AllAssignedKeepsInv(n: Net, assignments: seq<(DeviceId, ProxyId)>)
    requires Inv(n)
    ensures Inv(AllAssigned(n, assignments))
    decreases |assignments|
  {
    if assignments != [] {
      var (dev, proxy) := assignments[0];
      AssignKeepsInv(n, dev, proxy);
      AllAssignedKeepsInv(Cut(Assigned(n, dev, proxy), {dev}), assignments[1..]);
    }
  }

  lemma CutTwice(n: Net, a: set<DeviceId>, b: set<DeviceId>)
    ensures Cut(Cut(n, a), b) == Cut(n, a + b)
  {
    assert Cut(Cut(n, a), b).clients == Cut(n, a + b).clients;
  }

  lemma CutCommutes(n: Net, active: Option<DeviceId>, dev: DeviceId)
    ensures Cut(SetActive(n, active), {dev}) == SetActive(Cut(n, {dev}), active)
  {
    if n.active != active {
      var both := Only(n.active) + Only(active);
      CutTwice(n.(active := active), both, {dev});
      CutTwice(n.(active := active), {dev}, both);
      assert both + {dev} == {dev} + both;
    }
  }

  lemma ProxySetKeepsInv(n: Net, dev: DeviceId, proxy: ProxyId, moves: bool)
    requires Inv(n)
    ensures Inv(ProxySet(n, dev, proxy, moves))
  {
    AssignKeepsInv(n, dev, proxy);
    SetActiveKeepsInv(Cut(Assigned(n, dev, proxy), {dev}), Some(dev));
    CutCommutes(Assigned(n, dev, proxy), Some(dev), dev);
  }

  /** A phone without configuration, gateway and connections; the proxy leaves it. */
  function Removed(n: Net, dev: DeviceId): Net {
    Cut(n.(devices := n.devices - {dev}, listeners := n.listeners - {dev},
           active := if n.active == Some(dev) then None else n.active), {dev})
  }

  lemma ClearedIsRemoved(n: Net, dev: DeviceId)
    ensures Cleared(n, dev) == Removed(n, dev)
  {
    assert Cleared(n, dev).clients == Removed(n, dev).clients;
  }

  lemma ClearedKeepsInv(n: Net, dev: DeviceId)
    requires Inv(n) && dev !in n.starting
    ensures Inv(Cleared(n, dev))
  {
    ClearedIsRemoved(n, dev);
  }

  /** A phone that is configured only now has no gateway, hence no connection that could be misrouted. */
  lemma NewPhoneKeepsInv(n: Net, dev: DeviceId, proxy: ProxyId)
    requires Inv(n) && dev !in n.devices
    ensures Inv(Assigned(n, dev, proxy))
  {
  }

  lemma ModeSetKeepsInv(n: Net, mode: Mode, policy: Option<Policy>)
    requires Inv(n)
    ensures Inv(ModeSet(n, mode, policy))
  {
  }

  lemma ModeListedKeepsInv(n: Net, pick: Option<DeviceId>)
    requires Inv(n)
    ensures Inv(ModeListed(n, pick))
  {
  }

  lemma NetStepKeepsInv(n: Net, e: Event)
    requires Inv(n) && NoClearRace(n, e) && NetEvent(e)
    ensures Inv(GatewayStep(n, e))
  {
    match e
    case ClearProxy(dev) => ClearedKeepsInv(n, dev);
    case Reapplied(pick) => SetActiveKeepsInv(n, pick);
    case SetMode(mode, policy) => ModeSetKeepsInv(n, mode, policy);
    case SetModeListed(pick) => ModeListedKeepsInv(n, pick);
    case _ =>
  }

  /** What a piece of the manager's code can do to the network besides its own events. */
  ghost predicate Touches(n: Net, t: Net) {
    || t == n
    || (exists dev :: t == SetActive(n, dev))
    || (exists dev, proxy :: dev !in n.devices && t == Assigned(n, dev, proxy))
  }

  lemma TouchKeepsInv(n: Net, t: Net)
    requires Inv(n) && Touches(n, t)
    ensures Inv(t)
  {
    if dev :| t == SetActive(n, dev) {
      SetActiveKeepsInv(n, dev);
    } else if dev, proxy :| dev !in n.devices && t == Assigned(n, dev, proxy) {
      NewPhoneKeepsInv(n, dev, proxy);
    }
  }

  /** Switches and everything about the lease move the proxy, or configure a new phone, or leave the network alone. */
  lemma LeaseStepTouches(s: State, e: Event)
    requires LeaseEvent(e) || e.Switch? || e.SwitchWired?
    ensures Touches(s.net, Step(s, e).net)
  {
  }

  lemma TryKeepsInv(s: State, a: nat, dev: DeviceId)
    requires Inv(s.net)
    ensures Inv(Try(s, a, dev).net)
  {
    assert Touches(s.net, Try(s, a, dev).net);
    TouchKeepsInv(s.net, Try(s, a, dev).net);
  }

  lemma SwitchKeepsInv(s: State, op: nat, dev: DeviceId, force: bool)
    requires Inv(s.net)
    ensures Inv(Switched(s, op, dev, force).net)
  {
    assert Touches(s.net, Switched(s, op, dev, force).net);
    TouchKeepsInv(s.net, Switched(s, op, dev, force).net);
  }

  lemma WiredKeepsInv(s: State, h: nat, ok: bool)
    requires Inv(s.net)
    ensures Inv(Wired(s, h, ok).net)
  {
    assert Touches(s.net, Wired(s, h, ok).net);
    TouchKeepsInv(s.net, Wired(s, h, ok).net);
  }

  lemma BatchSetKeepsInv(s: State, assignments: seq<(DeviceId, ProxyId)>)
    requires Inv(s.net)
    ensures Inv(BatchSet(s, assignments).net)
  {
    AllAssignedKeepsInv(s.net, assignments);
    if assignments != [] {
      SetActiveKeepsInv(AllAssigned(s.net, assignments), Some(assignments[0].0));
    }
  }

  lemma StepKeepsInv(s: State, e: Event)
    requires Inv(s.net) && NoClearRace(s.net, e)
    ensures Inv(Step(s, e).net)
  {
    if NetEvent(e) {
      NetStepKeepsInv(s.net, e);
    } else if e.SetProxy? {
      ProxySetKeepsInv(s.net, e.dev, e.proxy, s.net.mode == Shared && e.activate && !OtherHolds(s.desk, e.dev));
    } else if e.BatchSetProxy? {
      BatchSetKeepsInv(s, e.assignments);
    } else {
      LeaseStepTouches(s, e);
      TouchKeepsInv(s.net, Step(s, e).net);
    }
  }

  lemma {:induction false} RunKeepsInv(s: State, es: seq<Event>)
    requires Inv(s.net) && RaceFree(s, es)
    ensures Inv(Run(s, es).net)
    decreases |es|
  {
    if es != [] {
      StepKeepsInv(s, es[0]);
      RunKeepsInv(Step(s, es[0]), es[1..]);
    }
  }

  /**
   Deciding once refines deciding on every byte: in every reachable state with no mode change in flight,
   each open connection has exactly the route, upstream included, that `routeFor` gives now.
   */
  lemma RoutingIsSticky(start: State, es: seq<Event>)
    requires Fresh(start) && RaceFree(start, es)
    requires Run(start, es).net.modeOps == 0
    ensures Consistent(Run(start, es).net)
  {
    RunKeepsInv(start, es);
  }

  /** In every reachable state with no mode change in flight, every open connection obeys the rules. */
  lemma OpenConnectionsObeyRules(start: State, es: seq<Event>, c: ClientId)
    requires Fresh(start) && RaceFree(start, es)
    requires Run(start, es).net.modeOps == 0 && c in Run(start, es).net.clients
    ensures ObeysRules(Run(start, es).net, Run(start, es).net.clients[c])
  {
    RunKeepsInv(start, es);
    var n := Run(start, es).net;
    assert n.clients[c].dev in n.listeners;
    DecisionObeysRules(n, n.clients[c]);
  }

  /**
   The home shop's hosts are on the list of hosts never to be proxied, so that the rule about the proxy's
   country, which comes behind that list, decides nothing: they are reached directly through a home proxy too.
   */
  lemma HomeRuleDecidesNothing(n: Net, dev: DeviceId, target: Target, foreign: bool)
    requires dev in n.devices
    ensures var other := n.(devices := n.devices[dev := n.devices[dev].(foreign := foreign)]);
            && (RouteFor(n, dev, target).ToProxy? <==> RouteFor(other, dev, target).ToProxy?)
            && (RouteFor(n, dev, target).Block? <==> RouteFor(other, dev, target).Block?)
    ensures target.home && !target.blackhole ==> RouteFor(n, dev, target) == Direct
  {
  }

  /** In shared mode only the active phone has open connections through a proxy, and through its own. */
  lemma OnePhoneUsesTheProxy(start: State, es: seq<Event>, c: ClientId)
    requires Fresh(start) && RaceFree(start, es)
    requires Run(start, es).net.modeOps == 0 && Run(start, es).net.mode == Shared
    requires c in Run(start, es).net.clients && Run(start, es).net.clients[c].route.ToProxy?
    ensures var n := Run(start, es).net;
            var client := n.clients[c];
            n.active == Some(client.dev) && client.dev in n.devices && client.route.proxy == n.devices[client.dev]
  {
    RoutingIsSticky(start, es);
  }

  /** Connections of phones that are neither the old nor the new active one survive a switch. */
  lemma SwitchCutsOnlyTheTwoPhones(n: Net, dev: Option<DeviceId>, c: ClientId)
    requires c in n.clients && n.active != dev
    ensures c in SetActive(n, dev).clients
       <==> Some(n.clients[c].dev) != n.active && Some(n.clients[c].dev) != dev
    ensures c in SetActive(n, dev).clients ==> SetActive(n, dev).clients[c] == n.clients[c]
  {
  }

  // ── Both hypotheses are needed ───────────────────────────────────────────

  const PROXY := Proxy(7, false)

  const EMPTY := State(Net(Shared, BlockOthers, None, map[1 := PROXY], {}, {}, map[], 0, false), EMPTY_DESK, Some(PROXY), map[])

  /** Configuration removed while the gateway starts: the gateway outlives it and goes wrong later. */
  lemma ClearDuringStartBreaksRouting()
    ensures var es := [StartListener(1), ClearProxy(1), ListenerUp(1), Connect(0, 1, ORDINARY), Switch(0, 1, false)];
            && Fresh(EMPTY) && !RaceFree(EMPTY, es)
            && Run(EMPTY, es).net.modeOps == 0
            && !Consistent(Run(EMPTY, es).net)
  {
    var s1 := Step(EMPTY, StartListener(1));
    var s2 := Step(s1, ClearProxy(1));
    var s3 := Step(s2, ListenerUp(1));
    var s4 := Step(s3, Connect(0, 1, ORDINARY));
    var s5 := Step(s4, Switch(0, 1, false));
    assert s4.net.clients[0] == Client(1, ORDINARY, Direct);
    assert s5.net.clients[0] == Client(1, ORDINARY, Direct) && RouteFor(s5.net, 1, ORDINARY) == Block;
    RunOfFive(EMPTY, StartListener(1), ClearProxy(1), ListenerUp(1), Connect(0, 1, ORDINARY), Switch(0, 1, false));
    assert !NoClearRace(s1.net, ClearProxy(1));
    assert [StartListener(1), ClearProxy(1), ListenerUp(1), Connect(0, 1, ORDINARY), Switch(0, 1, false)][1..][0]
        == ClearProxy(1);
  }

  /** While a mode change awaits the list of phones, open connections still follow the old mode. */
  lemma ModeChangeInFlightIsStale()
    ensures var start := EMPTY.(net := EMPTY.net.(mode := Private));
            var es := [StartListener(1), ListenerUp(1), Connect(0, 1, ORDINARY), SetMode(Shared, None),
                       CutConnections(2)];
            && Fresh(start) && RaceFree(start, es)
            && Run(start, es).net.modeOps == 1
            && !Consistent(Run(start, es).net)
  {
    var start := EMPTY.(net := EMPTY.net.(mode := Private));
    var s1 := Step(start, StartListener(1));
    var s2 := Step(s1, ListenerUp(1));
    var s3 := Step(s2, Connect(0, 1, ORDINARY));
    var s4 := Step(s3, SetMode(Shared, None));
    var s5 := Step(s4, CutConnections(2));
    assert s3.net.clients[0] == Client(1, ORDINARY, ToProxy(PROXY));
    assert s5.net.clients[0] == Client(1, ORDINARY, ToProxy(PROXY)) && RouteFor(s5.net, 1, ORDINARY) == Block;
    RunOfFive(start, StartListener(1), ListenerUp(1), Connect(0, 1, ORDINARY), SetMode(Shared, None),
              CutConnections(2));
    NoClearNoRace(start, [StartListener(1), ListenerUp(1), Connect(0, 1, ORDINARY), SetMode(Shared, None),
                          CutConnections(2)]);
  }

  lemma {:induction false} NoClearNoRace(s: State, es: seq<Event>)
    requires forall i :: 0 <= i < |es| ==> !es[i].ClearProxy?
    ensures RaceFree(s, es)
    decreases |es|
  {
    if es != [] {
      NoClearNoRace(Step(s, es[0]), es[1..]);
    }
  }
}
