/**
 The cap on simultaneous connections to one upstream proxy: a counting semaphore with a FIFO queue whose
 waiters time out. Calls of `acquire` are numbered in order; the number stands for the promise the source
 hands out and for its release closure.
 */
module Limiter {
  import Common

  datatype Ticket = Waiting | Granted | Released | TimedOut

  datatype State = State(max: int, active: int, queue: seq<nat>, tickets: seq<Ticket>)

  /** What can happen: a new call, the closure of a granted call, the timer of a queued call. */
  datatype Event = Acquire | Release(t: nat) | Expire(t: nat)

  function Initial(max: int): State {
    State(max, 0, [], [])
  }

  /** The queue without one waiter. */
  function Without(queue: seq<nat>, t: nat): seq<nat> {
    if queue == [] then []
    else if queue[0] == t then Without(queue[1..], t)
    else [queue[0]] + Without(queue[1..], t)
  }

  function GrantTo(s: State, t: nat): State
    requires t < |s.tickets|
  {
    s.(active := s.active + 1, tickets := s.tickets[t := Granted])
  }

  /** Room for one more: no cap at all, or fewer active than the cap. */
  predicate HasRoom(s: State) {
    s.max <= 0 || s.active < s.max
  }

  /** A timer fires only while its waiter is queued; a closure acts only the first time it is called. */
  function Step(s: State, e: Event): State {
    match e
    case Acquire =>
      var t := |s.tickets|;
      var s' := s.(tickets := s.tickets + [Waiting]);
      if HasRoom(s) then GrantTo(s', t) else s'.(queue := s.queue + [t])
    case Release(t) =>
      if t < |s.tickets| && s.tickets[t] == Granted then
        var s' := s.(active := s.active - 1, tickets := s.tickets[t := Released]);
        if s.queue != [] && s.queue[0] < |s.tickets| then GrantTo(s'.(queue := s.queue[1..]), s.queue[0]) else s'
      else s
    case Expire(t) =>
      if t < |s.tickets| && s.tickets[t] == Waiting then
        s.(queue := Without(s.queue, t), tickets := s.tickets[t := TimedOut])
      else s
  }

  function Run(s: State, es: seq<Event>): State
    decreases |es|
  {
    if es == [] then s else Run(Step(s, es[0]), es[1..])
  }

  /** How many calls hold a slot. */
  function Holding(tickets: seq<Ticket>): nat {
    if tickets == [] then 0
    else (if tickets[|tickets| - 1] == Granted then 1 else 0) + Holding(tickets[..|tickets| - 1])
  }

  ghost predicate Sorted(q: seq<nat>) {
    forall i, j :: 0 <= i < j < |q| ==> q[i] < q[j]
  }

  /** The queue is the list of waiting calls, oldest first. */
  ghost predicate QueueIsWaiting(s: State) {
    && Sorted(s.queue)
    && forall t: nat :: t in s.queue <==> t < |s.tickets| && s.tickets[t] == Waiting
  }

  /** Nobody is served while an older call still waits. */
  ghost predicate NoOvertaking(tickets: seq<Ticket>) {
    forall a, b :: 0 <= a < b < |tickets| && tickets[b] in {Granted, Released} ==> tickets[a] != Waiting
  }

  ghost predicate Inv(s: State) {
    && s.active == Holding(s.tickets)
    && (s.max > 0 ==> s.active <= s.max)
    && (s.queue != [] ==> s.max > 0 && s.active == s.max)
    && QueueIsWaiting(s)
    && NoOvertaking(s.tickets)
  }

  lemma {:induction false} HoldingUpdate(tickets: seq<Ticket>, t: nat, v: Ticket)
    requires t < |tickets|
    ensures Holding(tickets[t := v])
         == Holding(tickets) + (if v == Granted then 1 else 0) - (if tickets[t] == Granted then 1 else 0)
  {
    var n := |tickets| - 1;
    if t < n {
      HoldingUpdate(tickets[..n], t, v);
      assert tickets[t := v][..n] == tickets[..n][t := v];
    } else {
      assert tickets[t := v][..n] == tickets[..n];
    }
  }

  lemma HoldingAppend(tickets: seq<Ticket>, v: Ticket)
    ensures Holding(tickets + [v]) == Holding(tickets) + if v == Granted then 1 else 0
  {
    assert (tickets + [v])[..|tickets|] == tickets;
  }

  lemma {:induction false} WithoutKeepsOrder(q: seq<nat>, t: nat)
    requires Sorted(q)
    ensures Sorted(Without(q, t))
    ensures forall x: nat :: x in Without(q, t) <==> x in q && x != t
  {
    if q != [] {
      TailOfQueue(q);
      WithoutKeepsOrder(q[1..], t);
      var rest := Without(q[1..], t);
      forall i | 0 <= i < |rest| ensures q[0] < rest[i] {
        assert rest[i] in q[1..];
      }
      assert q == [q[0]] + q[1..];
    }
  }

  lemma GrantKeepsInv(s: State)
    requires Inv(s) && HasRoom(s)
    ensures Inv(Step(s, Acquire))
  {
    var tickets := s.tickets + [Waiting];
    HoldingAppend(s.tickets, Waiting);
    HoldingUpdate(tickets, |s.tickets|, Granted);
    assert s.queue == [];
    assert forall a: nat :: a < |s.tickets| && s.tickets[a] == Waiting ==> a in s.queue;
  }

  lemma QueueUpKeepsInv(s: State)
    requires Inv(s) && !HasRoom(s)
    ensures Inv(Step(s, Acquire))
  {
    HoldingAppend(s.tickets, Waiting);
    assert forall i :: 0 <= i < |s.queue| ==> s.queue[i] in s.queue;
    assert forall x: nat :: x in Step(s, Acquire).queue <==> x in s.queue || x == |s.tickets|;
  }

  lemma AcquireKeepsInv(s: State)
    requires Inv(s)
    ensures Inv(Step(s, Acquire))
  {
    if HasRoom(s) {
      GrantKeepsInv(s);
    } else {
      QueueUpKeepsInv(s);
    }
  }

  /** The oldest waiter is served when a slot comes free. */
  lemma ReleaseKeepsInv(s: State, t: nat)
    requires Inv(s)
    ensures Inv(Step(s, Release(t)))
  {
    if t < |s.tickets| && s.tickets[t] == Granted {
      HoldingUpdate(s.tickets, t, Released);
      if s.queue != [] {
        var q := s.queue[0];
        assert q in s.queue;
        HoldingUpdate(s.tickets[t := Released], q, Granted);
        TailOfQueue(s.queue);
        assert Step(s, Release(t)).tickets == s.tickets[t := Released][q := Granted];
        assert forall x: nat :: x in s.queue[1..] <==> x in s.queue && x != q;
        ServingOldestOvertakesNobody(s, t);
      }
    }
  }

  lemma ServingOldestOvertakesNobody(s: State, t: nat)
    requires QueueIsWaiting(s) && NoOvertaking(s.tickets) && s.queue != []
    requires t < |s.tickets| && s.tickets[t] == Granted && s.queue[0] < |s.tickets|
    ensures NoOvertaking(s.tickets[t := Released][s.queue[0] := Granted])
  {
    var q, ts := s.queue[0], s.tickets[t := Released][s.queue[0] := Granted];
    TailOfQueue(s.queue);
    assert forall a :: 0 <= a < q && s.tickets[a] == Waiting ==> a in s.queue;
    assert forall a :: 0 <= a < |ts| && ts[a] == Waiting ==> a in s.queue && a != q;
  }

  lemma TailOfQueue(q: seq<nat>)
    requires Sorted(q) && q != []
    ensures Sorted(q[1..])
    ensures forall x: nat :: x in q[1..] <==> x in q && x != q[0]
    ensures forall x: nat :: x in q && x != q[0] ==> q[0] < x
  {
    forall x: nat | x in q[1..] ensures q[0] < x {
      var i :| 0 <= i < |q[1..]| && q[1..][i] == x;
      assert q[i + 1] == x;
    }
    assert forall x: nat :: x in q <==> x == q[0] || x in q[1..];
  }

  lemma ExpireKeepsInv(s: State, t: nat)
    requires Inv(s)
    ensures Inv(Step(s, Expire(t)))
  {
    if t < |s.tickets| && s.tickets[t] == Waiting {
      HoldingUpdate(s.tickets, t, TimedOut);
      WithoutKeepsOrder(s.queue, t);
      assert t in s.queue;
    }
  }

  lemma StepKeepsInv(s: State, e: Event)
    requires Inv(s)
    ensures Inv(Step(s, e))
  {
    match e
    case Acquire => AcquireKeepsInv(s);
    case Release(t) => ReleaseKeepsInv(s, t);
    case Expire(t) => ExpireKeepsInv(s, t);
  }

  /**
   In every run: the active count is the number of calls holding a slot and never exceeds a positive cap;
   somebody waits only while the cap is exhausted; the queue is the waiting calls in order of arrival and
   no call is ever served before an older one that still waits.
   */
  lemma {:induction false} RunKeepsInv(s: State, es: seq<Event>)
    requires Inv(s)
    ensures Inv(Run(s, es))
    decreases |es|
  {
    if es != [] {
      StepKeepsInv(s, es[0]);
      RunKeepsInv(Step(s, es[0]), es[1..]);
    }
  }

  lemma LimiterSafe(max: int, es: seq<Event>)
    ensures Inv(Run(Initial(max), es))
  {
    RunKeepsInv(Initial(max), es);
  }

  /** Promises settled by one event, each as the call's number and whether it was granted. */
  function Settled(s: State, e: Event): seq<(nat, bool)> {
    match e
    case Acquire => if HasRoom(s) then [(|s.tickets|, true)] else []
    case Release(t) =>
      if t < |s.tickets| && s.tickets[t] == Granted && s.queue != [] then [(s.queue[0], true)] else []
    case Expire(t) => if t < |s.tickets| && s.tickets[t] == Waiting then [(t, false)] else []
  }

  function Log(s: State, es: seq<Event>): seq<(nat, bool)>
    decreases |es|
  {
    if es == [] then [] else Settled(s, es[0]) + Log(Step(s, es[0]), es[1..])
  }

  /** How the promise of call `t` stands. */
  function Verdict(s: State, t: nat): seq<(nat, bool)> {
    if t < |s.tickets| && s.tickets[t] != Waiting then [(t, s.tickets[t] != TimedOut)] else []
  }

  /** The settlements of one call, in the order they happened. */
  function Of(log: seq<(nat, bool)>, t: nat): seq<(nat, bool)> {
    if log == [] then [] else (if log[0].0 == t then [log[0]] else []) + Of(log[1..], t)
  }

  lemma {:induction false} OfConcat(a: seq<(nat, bool)>, b: seq<(nat, bool)>, t: nat)
    ensures Of(a + b, t) == Of(a, t) + Of(b, t)
  {
    if a == [] {
      assert a + b == b;
    } else {
      assert (a + b)[1..] == a[1..] + b;
      OfConcat(a[1..], b, t);
      Common.Assoc(if a[0].0 == t then [a[0]] else [], Of(a[1..], t), Of(b, t));
    }
  }

  lemma {:induction false} SettledOnce(s: State, e: Event, t: nat)
    requires Inv(s)
    ensures Verdict(Step(s, e), t) == Verdict(s, t) + Of(Settled(s, e), t)
  {
    if s.queue != [] {
      assert s.queue[0] in s.queue;
    }
    var log := Settled(s, e);
    if log != [] {
      assert log[1..] == [];
    }
  }

  lemma {:induction false} LogMatchesTickets(s: State, es: seq<Event>, t: nat)
    requires Inv(s)
    ensures Verdict(Run(s, es), t) == Verdict(s, t) + Of(Log(s, es), t)
    decreases |es|
  {
    if es != [] {
      var s' := Step(s, es[0]);
      SettledOnce(s, es[0], t);
      StepKeepsInv(s, es[0]);
      LogMatchesTickets(s', es[1..], t);
      OfConcat(Settled(s, es[0]), Log(s', es[1..]), t);
      Common.Assoc(Verdict(s, t), Of(Settled(s, es[0]), t), Of(Log(s', es[1..]), t));
    }
  }

  /**
   Over any run each call is settled at most once, and exactly once when it no longer waits: granted if
   it holds or has held a slot, rejected if its timer fired first.
   */
  lemma EachCallSettledOnce(max: int, es: seq<Event>, t: nat)
    ensures Of(Log(Initial(max), es), t) == Verdict(Run(Initial(max), es), t)
  {
    LogMatchesTickets(Initial(max), es, t);
  }

  /** Calling a release closure again changes nothing, whatever happened in between. */
  lemma {:induction false} ReleaseIsFinal(s: State, es: seq<Event>, t: nat)
    requires Inv(s) && t < |s.tickets| && s.tickets[t] == Released
    ensures Step(Run(s, es), Release(t)) == Run(s, es)
    decreases |es|
  {
    if es != [] {
      StepKeepsInv(s, es[0]);
      if s.queue != [] {
        assert s.queue[0] in s.queue;
      }
      ReleaseIsFinal(Step(s, es[0]), es[1..], t);
    }
  }

  class ConnectionLimiter {
    const max: int
    var active: int
    var waiters: seq<nat>
    var tickets: seq<Ticket>

    ghost function Model(): State
      reads this
    {
      State(max, active, waiters, tickets)
    }

    constructor (max: int)
      ensures this.max == max && Model() == Initial(max) && Inv(Model())
    {
      this.max := max;
      active, waiters, tickets := 0, [], [];
      new;
      LimiterSafe(max, []);
    }

    method Grant(t: nat)
      requires t < |tickets|
      modifies this`active, this`tickets
      ensures Model() == GrantTo(old(Model()), t)
    {
      active := active + 1;
      tickets := tickets[t := Granted];
    }

    /** The new call's number; granted at once when there is room, otherwise queued. */
    method Acquire() returns (t: nat)
      requires Inv(Model())
      modifies this
      ensures t == old(|tickets|) && Model() == Step(old(Model()), Event.Acquire) && Inv(Model())
    {
      StepKeepsInv(Model(), Event.Acquire);
      t := |tickets|;
      var room := max <= 0 || active < max;
      tickets := tickets + [Waiting];
      if room {
        Grant(t);
      } else {
        waiters := waiters + [t];
      }
    }

    method Release(t: nat)
      requires Inv(Model())
      modifies this
      ensures Model() == Step(old(Model()), Event.Release(t)) && Inv(Model())
    {
      StepKeepsInv(Model(), Event.Release(t));
      if |tickets| <= t || tickets[t] != Granted {
        return;
      }
      tickets := tickets[t := Released];
      active := active - 1;
      if waiters != [] {
        var next := waiters[0];
        assert next in waiters;
        waiters := waiters[1..];
        Grant(next);
      }
    }

    /** The timer of a queued call. */
    method Expire(t: nat)
      requires Inv(Model())
      modifies this
      ensures Model() == Step(old(Model()), Event.Expire(t)) && Inv(Model())
    {
      StepKeepsInv(Model(), Event.Expire(t));
      if t < |tickets| && tickets[t] == Waiting {
        waiters := Without(waiters, t);
        tickets := tickets[t := TimedOut];
      }
    }
  }
}
