/** Local ports of the phones' gateways: the search for a free one and the reservation before `listen`. */
module Ports {
  import opened Common

  type DeviceId = nat
  type Port = nat

  /**
   `saved` are the configured phones with the port stored for each (if any), `reserved` the ports of
   starting gateways without a configuration, `open` the running gateways, `starting` the port each
   gateway under way asked for.
   */
  datatype State = State(saved: map<DeviceId, Option<Port>>, reserved: set<Port>, open: map<DeviceId, Port>,
                         starting: map<DeviceId, Port>)

  function SavedPorts(s: State): set<Port> {
    set d | d in s.saved && s.saved[d].Some? :: s.saved[d].value
  }

  function Used(s: State): set<Port> {
    s.reserved + SavedPorts(s) + s.open.Values
  }

  /** Port `p` is stored for phone `d`, or its gateway runs or starts on it. */
  predicate Owns(s: State, d: DeviceId, p: Port) {
    (d in s.saved && s.saved[d] == Some(p)) || (d in s.open && s.open[d] == p) || (d in s.starting && s.starting[d] == p)
  }

  /** No two phones share a port, and the search, which begins at `base`, sees the port of every starting gateway. */
  ghost predicate Distinct(base: Port, s: State) {
    && (forall d, e, p :: Owns(s, d, p) && Owns(s, e, p) ==> d == e)
    && forall d :: d in s.starting
         ==> s.starting[d] in s.reserved || (d in s.saved && s.saved[d] == Some(s.starting[d])) || s.starting[d] < base
  }

  /** The least port from `base` up that is not in use. */
  ghost predicate IsLeastFree(base: Port, used: set<Port>, p: Port) {
    base <= p && p !in used && forall q :: base <= q < p ==> q in used
  }

  lemma {:induction false} RunOfUsed(base: Port, used: set<Port>, n: nat)
    requires forall q :: base <= q < base + n ==> q in used
    ensures n <= |used|
  {
    if n > 0 {
      var top := base + n - 1;
      RunOfUsed(base, used - {top}, n - 1);
    }
  }

  method AllocatePort(base: Port, used: set<Port>) returns (port: Port)
    ensures IsLeastFree(base, used, port)
    ensures port <= base + |used|
  {
    port := base;
    while port in used
      invariant base <= port && forall q :: base <= q < port ==> q in used
      decreases base + |used| - port
    {
      RunOfUsed(base, used, port + 1 - base);
      port := port + 1;
    }
    RunOfUsed(base, used, port - base);
  }

  /** The port a gateway starts on: the stored one, otherwise the one given. */
  function PortFor(s: State, dev: DeviceId, unused: Port): Port {
    if dev in s.saved && s.saved[dev].Some? then s.saved[dev].value else unused
  }

  /** The part of `ensureListener` before its await. */
  function Begun(s: State, dev: DeviceId, unused: Port): State {
    if dev in s.open || dev in s.starting then s
    else
      var port := PortFor(s, dev, unused);
      var s1 := s.(starting := s.starting[dev := port]);
      if dev in s.saved then s1.(saved := s.saved[dev := Some(port)]) else s1.(reserved := s.reserved + {port})
  }

  /** The gateway listens on the port it asked for. */
  function Finished(s: State, dev: DeviceId): State {
    if dev !in s.starting then s
    else s.(reserved := s.reserved - {s.starting[dev]}, open := s.open[dev := s.starting[dev]], starting := s.starting - {dev})
  }

  /** The gateway could not listen: the reservation is dropped, the phone's stored port stays. */
  function Failed(s: State, dev: DeviceId): State {
    if dev !in s.starting then s
    else s.(reserved := s.reserved - {s.starting[dev]}, starting := s.starting - {dev})
  }

  /** A configuration is stored; an earlier one's port is kept. */
  function Configured(s: State, dev: DeviceId): State {
    s.(saved := s.saved[dev := if dev in s.saved then s.saved[dev] else None])
  }

  /** The configuration is removed with its port and the gateway; a start under way goes on. */
  function Cleared(s: State, dev: DeviceId): State {
    s.(saved := s.saved - {dev}, open := s.open - {dev})
  }

  /** A gateway starts on a port that is not reserved, so that only its configuration shows it to the search. */
  predicate Hidden(base: Port, s: State, dev: DeviceId) {
    dev in s.starting && s.starting[dev] !in s.reserved && base <= s.starting[dev]
  }

  datatype Event =
    | Begin(dev: DeviceId, unused: Port)
    | Done(dev: DeviceId)
    | Fail(dev: DeviceId)
    | Configure(dev: DeviceId)
    | Clear(dev: DeviceId)

  function Step(s: State, e: Event): State {
    match e
    case Begin(dev, unused) => Begun(s, dev, unused)
    case Done(dev) => Finished(s, dev)
    case Fail(dev) => Failed(s, dev)
    case Configure(dev) => Configured(s, dev)
    case Clear(dev) => Cleared(s, dev)
  }

  function Run(s: State, es: seq<Event>): State
    decreases |es|
  {
    if es == [] then s else Run(Step(s, es[0]), es[1..])
  }

  /** A start is given the least free port. */
  ghost predicate Searched(base: Port, s: State, e: Event) {
    e.Begin? ==> IsLeastFree(base, Used(s), e.unused)
  }

  /** In every start the search was made, and no configuration was removed whose port only it shows. */
  ghost predicate Orderly(base: Port, s: State, es: seq<Event>)
    decreases |es|
  {
    es == [] ||
    (Searched(base, s, es[0]) && (es[0].Clear? ==> !Hidden(base, s, es[0].dev)) && Orderly(base, Step(s, es[0]), es[1..]))
  }

  lemma UnusedIsUnclaimed(base: Port, s: State, unused: Port, d: DeviceId)
    requires Distinct(base, s) && base <= unused && unused !in Used(s)
    ensures !Owns(s, d, unused)
  {
    if d in s.saved && s.saved[d].Some? {
      assert s.saved[d].value in SavedPorts(s);
    }
  }

  lemma BegunKeepsDistinct(base: Port, s: State, dev: DeviceId, unused: Port)
    requires Distinct(base, s) && base <= unused && unused !in Used(s)
    ensures Distinct(base, Begun(s, dev, unused))
  {
    if dev !in s.open && dev !in s.starting {
      var t, port := Begun(s, dev, unused), PortFor(s, dev, unused);
      forall d | Owns(s, d, port) ensures d == dev {
        UnusedIsUnclaimed(base, s, unused, d);
        assert port == unused || Owns(s, dev, port);
      }
      forall d, e, p | Owns(t, d, p) && Owns(t, e, p) ensures d == e {
        assert Owns(s, d, p) || (d == dev && p == port);
        assert Owns(s, e, p) || (e == dev && p == port);
      }
    }
  }

  /** The end of a start takes its own reservation away and nobody else's. */
  lemma EndKeepsDistinct(base: Port, s: State, t: State, dev: DeviceId)
    requires Distinct(base, s) && dev in s.starting
    requires t.saved == s.saved && t.starting == s.starting - {dev} && t.reserved == s.reserved - {s.starting[dev]}
    requires t.open == s.open || t.open == s.open[dev := s.starting[dev]]
    ensures Distinct(base, t)
  {
    assert forall d, p :: Owns(t, d, p) ==> Owns(s, d, p);
    forall d | d in t.starting
      ensures t.starting[d] in t.reserved || (d in t.saved && t.saved[d] == Some(t.starting[d])) || t.starting[d] < base
    {
      assert Owns(s, d, s.starting[d]) && Owns(s, dev, s.starting[dev]);
    }
  }

  lemma FinishedKeepsDistinct(base: Port, s: State, dev: DeviceId)
    requires Distinct(base, s)
    ensures Distinct(base, Finished(s, dev))
  {
    if dev in s.starting {
      EndKeepsDistinct(base, s, Finished(s, dev), dev);
    }
  }

  lemma FailedKeepsDistinct(base: Port, s: State, dev: DeviceId)
    requires Distinct(base, s)
    ensures Distinct(base, Failed(s, dev))
  {
    if dev in s.starting {
      EndKeepsDistinct(base, s, Failed(s, dev), dev);
    }
  }

  lemma ConfiguredKeepsDistinct(base: Port, s: State, dev: DeviceId)
    requires Distinct(base, s)
    ensures Distinct(base, Configured(s, dev))
  {
    assert forall d, p :: Owns(Configured(s, dev), d, p) ==> Owns(s, d, p);
  }

  /** Removing a configuration keeps ports distinct exactly if no starting gateway's port is lost from sight. */
  lemma ClearedKeepsDistinctIff(base: Port, s: State, dev: DeviceId)
    requires Distinct(base, s)
    ensures Distinct(base, Cleared(s, dev)) <==> !Hidden(base, s, dev)
  {
    var t := Cleared(s, dev);
    assert forall d, p :: Owns(t, d, p) ==> Owns(s, d, p);
    if Hidden(base, s, dev) {
      assert dev in t.starting && dev !in t.saved;
    }
  }

  lemma StepKeepsDistinct(base: Port, s: State, e: Event)
    requires Distinct(base, s) && Searched(base, s, e) && (e.Clear? ==> !Hidden(base, s, e.dev))
    ensures Distinct(base, Step(s, e))
  {
    match e
    case Begin(dev, unused) => BegunKeepsDistinct(base, s, dev, unused);
    case Done(dev) => FinishedKeepsDistinct(base, s, dev);
    case Fail(dev) => FailedKeepsDistinct(base, s, dev);
    case Configure(dev) => ConfiguredKeepsDistinct(base, s, dev);
    case Clear(dev) => ClearedKeepsDistinctIff(base, s, dev);
  }

  lemma {:induction false} RunsKeepDistinct(base: Port, s: State, es: seq<Event>)
    requires Distinct(base, s) && Orderly(base, s, es)
    ensures Distinct(base, Run(s, es))
    decreases |es|
  {
    if es != [] {
      StepKeepsDistinct(base, s, es[0]);
      RunsKeepDistinct(base, Step(s, es[0]), es[1..]);
    }
  }

  /** In every orderly run, gateways under way and gateways that run are on pairwise different ports. */
  lemma PortsStayDistinct(base: Port, s: State, es: seq<Event>, d: DeviceId, e: DeviceId)
    requires Distinct(base, s) && Orderly(base, s, es) && d != e
    ensures var t := Run(s, es);
      && (d in t.starting && e in t.starting ==> t.starting[d] != t.starting[e])
      && (d in t.starting && e in t.open ==> t.starting[d] != t.open[e])
      && (d in t.open && e in t.open ==> t.open[d] != t.open[e])
  {
    RunsKeepDistinct(base, s, es);
    DistinctPorts(base, Run(s, es), d, e);
  }

  /** Two phones' gateways, under way or running, are on the same port. */
  ghost predicate SharesPort(s: State) {
    exists d, e, p :: d != e && p in PortsOf(s, d) && p in PortsOf(s, e)
  }

  function PortsOf(s: State, d: DeviceId): set<Port> {
    (if d in s.starting then {s.starting[d]} else {}) + (if d in s.open then {s.open[d]} else {})
  }

  ghost predicate CanShare(base: Port, s: State) {
    exists es :: Orderly(base, s, es) && SharesPort(Run(s, es))
  }

  lemma LeastFreeFrom(base: Port, used: set<Port>, from: Port) returns (p: Port)
    requires base <= from && forall q :: base <= q < from ==> q in used
    ensures IsLeastFree(base, used, p)
    decreases base + |used| + 1 - from
  {
    RunOfUsed(base, used, from - base);
    if from in used {
      RunOfUsed(base, used, from + 1 - base);
      p := LeastFreeFrom(base, used, from + 1);
    } else {
      p := from;
    }
  }

  /** New phones are given the free ports in turn, and so at last the one that the search cannot see. */
  lemma {:induction false} StartsReachPort(base: Port, s: State, dev: DeviceId, least: Port) returns (es: seq<Event>)
    requires dev in s.starting && base <= s.starting[dev] && s.starting[dev] !in Used(s)
    requires IsLeastFree(base, Used(s), least)
    ensures Orderly(base, s, es) && SharesPort(Run(s, es))
    decreases s.starting[dev] - least
  {
    var p := s.starting[dev];
    var newcomer := LeastFreeFrom(0, s.saved.Keys + s.open.Keys + s.starting.Keys, 0);
    var e := Begin(newcomer, least);
    var t := Begun(s, newcomer, least);
    assert t == s.(starting := s.starting[newcomer := least], reserved := s.reserved + {least});
    var rest: seq<Event> := [];
    if least < p {
      assert SavedPorts(t) == SavedPorts(s);
      assert Used(t) == Used(s) + {least};
      var next := LeastFreeFrom(base, Used(t), base);
      rest := StartsReachPort(base, t, dev, next);
    } else {
      assert p in PortsOf(t, dev) && p in PortsOf(t, newcomer);
    }
    es := [e] + rest;
    Unfold(s, e, rest);
    assert es[1..] == rest;
  }

  lemma HiddenPortIsFree(base: Port, s: State, dev: DeviceId)
    requires Distinct(base, s) && Hidden(base, s, dev)
    ensures s.starting[dev] !in Used(Cleared(s, dev))
  {
    var t, p := Cleared(s, dev), s.starting[dev];
    assert Owns(s, dev, p);
    if p in SavedPorts(t) {
      var d :| d in t.saved && t.saved[d] == Some(p);
      assert Owns(s, d, p);
    }
    if p in t.open.Values {
      var d :| d in t.open && t.open[d] == p;
      assert Owns(s, d, p);
    }
  }

  lemma DistinctIsNotShared(base: Port, s: State)
    requires Distinct(base, s)
    ensures !SharesPort(s)
  {
    assert forall d, p :: p in PortsOf(s, d) ==> Owns(s, d, p);
  }

  /**
   Removing a configuration can lead to two gateways on one port exactly if the gateway of that phone is just
   starting on a port that only the configuration shows to the search.
   */
  lemma ClearSharesPortIff(base: Port, s: State, dev: DeviceId)
    requires Distinct(base, s)
    ensures CanShare(base, Cleared(s, dev)) <==> Hidden(base, s, dev)
  {
    var t := Cleared(s, dev);
    if Hidden(base, s, dev) {
      HiddenPortIsFree(base, s, dev);
      var least := LeastFreeFrom(base, Used(t), base);
      var es := StartsReachPort(base, t, dev, least);
    } else {
      ClearedKeepsDistinctIff(base, s, dev);
      forall es | Orderly(base, t, es) ensures !SharesPort(Run(t, es)) {
        RunsKeepDistinct(base, t, es);
        DistinctIsNotShared(base, Run(t, es));
      }
    }
  }

  /** A configuration removed while its phone's gateway starts: the next phone is given the same port. */
  lemma ClearDuringStartSharesPort(base: Port)
    ensures var es := [Configure(1), Begin(1, base), Clear(1), Begin(2, base)];
      && Searched(base, Run(State(map[], {}, map[], map[]), es[..1]), es[1])
      && Searched(base, Run(State(map[], {}, map[], map[]), es[..3]), es[3])
      && Run(State(map[], {}, map[], map[]), es).starting == map[1 := base, 2 := base]
  {
    var s0 := State(map[], {}, map[], map[]);
    var es := [Configure(1), Begin(1, base), Clear(1), Begin(2, base)];
    var s1 := State(map[1 := None], {}, map[], map[]);
    var s2 := State(map[1 := Some(base)], {}, map[], map[1 := base]);
    var s3 := State(map[], {}, map[], map[1 := base]);
    assert Step(s0, es[0]) == s1 && Step(s1, es[1]) == s2;
    assert Step(s2, es[2]) == s3;
    assert es[..1] == [es[0]] && es[..3] == [es[0], es[1], es[2]];
    Unfold(s0, es[0], []);
    Unfold(s0, es[0], [es[1], es[2]]);
    Unfold(s1, es[1], [es[2]]);
    Unfold(s2, es[2], []);
    Unfold(s0, es[0], [es[1], es[2], es[3]]);
    Unfold(s1, es[1], [es[2], es[3]]);
    Unfold(s2, es[2], [es[3]]);
    Unfold(s3, es[3], []);
    assert es == [es[0]] + [es[1], es[2], es[3]];
  }

  lemma Unfold(s: State, e: Event, es: seq<Event>)
    ensures Run(s, [e] + es) == Run(Step(s, e), es)
  {
    assert ([e] + es)[1..] == es;
  }

  /** Gateways under way, and gateways that run, are on pairwise different ports. */
  lemma DistinctPorts(base: Port, s: State, d: DeviceId, e: DeviceId)
    requires Distinct(base, s) && d != e
    ensures d in s.starting && e in s.starting ==> s.starting[d] != s.starting[e]
    ensures d in s.starting && e in s.open ==> s.starting[d] != s.open[e]
    ensures d in s.open && e in s.open ==> s.open[d] != s.open[e]
  {
    if d in s.starting && e in s.starting { assert Owns(s, d, s.starting[d]) && Owns(s, e, s.starting[e]); }
    if d in s.starting && e in s.open { assert Owns(s, d, s.starting[d]) && Owns(s, e, s.open[e]); }
    if d in s.open && e in s.open { assert Owns(s, d, s.open[d]) && Owns(s, e, s.open[e]); }
  }

  /** What a batch of starts promises: nobody's earlier port changes, stored ports are used, all get one. */
  ghost predicate Extends(s: State, t: State) {
    && s.open == t.open && s.saved.Keys == t.saved.Keys
    && (forall d :: d in s.starting ==> d in t.starting && t.starting[d] == s.starting[d])
    && (forall d :: d in s.saved && s.saved[d].Some? ==> t.saved[d] == s.saved[d])
    && (forall d :: d in t.starting && d !in s.starting && d in s.saved && s.saved[d].Some?
          ==> t.starting[d] == s.saved[d].value)
  }

  lemma BegunExtends(s: State, t: State, dev: DeviceId, unused: Port)
    requires Extends(s, t)
    ensures Extends(s, Begun(t, dev, unused))
    ensures dev in t.open || dev in Begun(t, dev, unused).starting
  {
  }

  class PortBook {
    const base: Port
    var saved: map<DeviceId, Option<Port>>
    var reserved: set<Port>
    var open: map<DeviceId, Port>
    var starting: map<DeviceId, Port>

    ghost function Model(): State
      reads this
    {
      State(saved, reserved, open, starting)
    }

    /** Starts with the stored configuration. */
    constructor (base: Port, saved: map<DeviceId, Option<Port>>)
      requires Distinct(base, State(saved, {}, map[], map[]))
      ensures this.base == base && Model() == State(saved, {}, map[], map[])
    {
      this.base, this.saved := base, saved;
      reserved, open, starting := {}, map[], map[];
    }

    /** The part before the await; the port is claimed without giving anybody else a turn. */
    method EnsureListener(dev: DeviceId) returns (unused: Port)
      requires Distinct(base, Model())
      modifies this
      ensures IsLeastFree(base, Used(old(Model())), unused)
      ensures Model() == Begun(old(Model()), dev, unused) && Distinct(base, Model())
    {
      var claimed := reserved + (set d | d in saved && saved[d].Some? :: saved[d].value) + open.Values;
      unused := AllocatePort(base, claimed);
      BegunKeepsDistinct(base, Model(), dev, unused);
      if dev in open || dev in starting {
        return;
      }
      var port := if dev in saved && saved[dev].Some? then saved[dev].value else unused;
      starting := starting[dev := port];
      if dev in saved {
        saved := saved[dev := Some(port)];
      } else {
        reserved := reserved + {port};
      }
    }

    method ListenerStarted(dev: DeviceId)
      requires Distinct(base, Model())
      modifies this
      ensures Model() == Finished(old(Model()), dev) && Distinct(base, Model())
    {
      FinishedKeepsDistinct(base, Model(), dev);
      if dev in starting {
        var port := starting[dev];
        reserved, open, starting := reserved - {port}, open[dev := port], starting - {dev};
      }
    }

    method ListenerFailed(dev: DeviceId)
      requires Distinct(base, Model())
      modifies this
      ensures Model() == Failed(old(Model()), dev) && Distinct(base, Model())
    {
      FailedKeepsDistinct(base, Model(), dev);
      if dev in starting {
        reserved, starting := reserved - {starting[dev]}, starting - {dev};
      }
    }

    method SetProxy(dev: DeviceId)
      requires Distinct(base, Model())
      modifies this
      ensures Model() == Configured(old(Model()), dev) && Distinct(base, Model())
    {
      ConfiguredKeepsDistinct(base, Model(), dev);
      saved := saved[dev := if dev in saved then saved[dev] else None];
    }

    method ClearProxy(dev: DeviceId)
      requires Distinct(base, Model())
      modifies this
      ensures Model() == Cleared(old(Model()), dev)
      ensures !Hidden(base, old(Model()), dev) ==> Distinct(base, Model())
      ensures CanShare(base, Model()) <==> Hidden(base, old(Model()), dev)
    {
      ClearedKeepsDistinctIff(base, Model(), dev);
      ClearSharesPortIff(base, Model(), dev);
      saved, open := saved - {dev}, open - {dev};
    }

    /** Any number of gateways started before one of them finishes: pairwise distinct ports, stored ones kept. */
    method EnsureAll(devs: seq<DeviceId>)
      requires Distinct(base, Model())
      modifies this
      ensures Distinct(base, Model()) && Extends(old(Model()), Model())
      ensures forall i :: 0 <= i < |devs| ==> devs[i] in open || devs[i] in starting
      ensures forall d, e :: d in starting && e in starting && d != e ==> starting[d] != starting[e]
    {
      for i := 0 to |devs|
        invariant Distinct(base, Model()) && Extends(old(Model()), Model())
        invariant forall j :: 0 <= j < i ==> devs[j] in open || devs[j] in starting
      {
        ghost var before := Model();
        var unused := EnsureListener(devs[i]);
        BegunExtends(old(Model()), before, devs[i], unused);
      }
      forall d, e | d in starting && e in starting && d != e ensures starting[d] != starting[e] {
        DistinctPorts(base, Model(), d, e);
      }
    }
  }
}
