/**
 Opening tunnels through one upstream proxy: the retry loop that rides out a proxy which refuses every
 connection for a while, and the accounting of connection slots over all concurrent calls.
 Times are milliseconds; the clock never runs backwards and a delay lasts at least as long as asked.
 */
module Tunnel {
  import opened Common
  import Limiter

  datatype ProxyError = ProxyError(code: ErrorCode, status: Option<int>)

  /** Failures worth another attempt. */
  predicate Retryable(e: ProxyError) {
    || e.code in {Timeout, Unreachable}
    || (e.code == Rejected && (e.status.None? || e.status.value in {403, 429, 500, 502, 503, 504}))
  }

  /**
   A wrong password, a wrong protocol, a target that cannot be reached or a full queue is final; silence is not;
   and a refusal is exactly if the upstream named a status other than forbidden, too many requests, or an
   error of its own.
   */
  lemma FinalFailures(e: ProxyError)
    ensures e.code in {AuthFailed, Protocol, TargetFailed, Busy} ==> !Retryable(e)
    ensures e.code in {Timeout, Unreachable} ==> Retryable(e)
    ensures e.code == Rejected ==>
      (Retryable(e) <==> match e.status
                         case None => true
                         case Some(n) => n == 403 || n == 429 || n == 500 || 502 <= n <= 504)
  {
  }

  datatype Attempt = Connected | Refused(err: ProxyError)

  /** The upstream's behaviour: result and duration of each attempt, and how late each delay wakes up. */
  datatype Script = Script(attempt: nat -> Attempt, took: nat -> nat, late: nat -> nat)

  function Backoff(i: nat): nat {
    if 400 * i < 3000 then 400 * i else 3000
  }

  function BackoffSum(n: nat): nat {
    if n == 0 then 0 else BackoffSum(n - 1) + Backoff(n)
  }

  /** The clock when attempt `i` has settled, if attempts `1 .. i` are all made. */
  function ClockAt(script: Script, start: int, i: nat): int
    requires i >= 1
  {
    (if i == 1 then start else ClockAt(script, start, i - 1) + Backoff(i - 1) + script.late(i - 1)) + script.took(i)
  }

  /** Attempt `i` failed in a way that is retried: transient, and the pause ends inside the window. */
  predicate Retried(script: Script, start: int, window: int, i: nat)
    requires i >= 1
  {
    && script.attempt(i).Refused?
    && Retryable(script.attempt(i).err)
    && ClockAt(script, start, i) + Backoff(i) <= start + window
  }

  lemma {:induction false} ClockCoversPauses(script: Script, start: int, i: nat)
    requires i >= 1
    ensures ClockAt(script, start, i) >= start + BackoffSum(i - 1)
  {
    if i > 1 {
      ClockCoversPauses(script, start, i - 1);
    }
  }

  lemma {:induction false} BackoffSumGrows(m: nat, n: nat)
    requires m <= n
    ensures BackoffSum(m) <= BackoffSum(n)
  {
    if m < n {
      BackoffSumGrows(m, n - 1);
    }
  }

  /** Pauses that fit into 25 s and into 3 s. */
  lemma PausesThatFit(n: nat)
    ensures BackoffSum(n) <= 25_000 <==> n <= 11
    ensures BackoffSum(n) <= 3_000 <==> n <= 3
  {
    assert BackoffSum(3) == 2_400;
    assert BackoffSum(4) == 4_000;
    assert BackoffSum(7) == 11_200;
    assert BackoffSum(11) == 23_200;
    assert BackoffSum(12) == 26_200;
    if n <= 3 { BackoffSumGrows(n, 3); } else { BackoffSumGrows(4, n); }
    if n <= 11 { BackoffSumGrows(n, 11); } else { BackoffSumGrows(12, n); }
  }

  datatype Opened = Tunnel | Failed(err: ProxyError)

  /**
   The attempts of one call, which start once the slot and the protocol are known. `n` attempts are made;
   `relearn` says that the upstream's detected protocol was forgotten.
   */
  method OpenTunnel(script: Script, start: int, window: nat) returns (r: Opened, n: nat, relearn: bool)
    ensures n >= 1
    ensures forall i :: 1 <= i < n ==> Retried(script, start, window, i)
    ensures !Retried(script, start, window, n)
    ensures r == match script.attempt(n) case Connected => Tunnel case Refused(e) => Failed(e)
    ensures relearn <==> r.Failed? && r.err.code == Protocol
    ensures BackoffSum(n - 1) <= window
    ensures window <= 25_000 ==> n <= 12
    ensures window <= 3_000 ==> n <= 4
  {
    var now, deadline := start, start + window;
    n, relearn := 1, false;
    while true
      invariant n >= 1 && !relearn
      invariant forall i :: 1 <= i < n ==> Retried(script, start, window, i)
      invariant now + script.took(n) == ClockAt(script, start, n)
      invariant BackoffSum(n - 1) <= window && now >= start + BackoffSum(n - 1)
      decreases deadline - now
    {
      now := now + script.took(n);
      var attempt := script.attempt(n);
      if attempt.Connected? {
        r := Tunnel;
        break;
      }
      relearn := attempt.err.code == Protocol;
      var pause := Backoff(n);
      if !Retryable(attempt.err) || now + pause > deadline {
        r := Failed(attempt.err);
        break;
      }
      now := now + pause + script.late(n);
      n := n + 1;
    }
    PausesThatFit(n - 1);
  }

  /** The bounds are reached: an upstream that refuses instantly is asked 12 times in 25 s, 4 times in 3 s. */
  lemma BoundsAreReached(window: nat, n: nat)
    requires (window, n) in {(25_000, 12), (3_000, 4)}
    ensures var script := Script(_ => Refused(ProxyError(Rejected, Some(403))), _ => 0, _ => 0);
            && (forall i :: 1 <= i < n ==> Retried(script, 0, window, i))
            && !Retried(script, 0, window, n)
  {
    var script := Script(_ => Refused(ProxyError(Rejected, Some(403))), _ => 0, _ => 0);
    forall i: nat | 1 <= i ensures Retried(script, 0, window, i) <==> BackoffSum(i) <= window {
      InstantClock(script, i);
    }
    forall i: nat | 1 <= i ensures Retried(script, 0, window, i) <==> i < n {
      PausesThatFit(i);
    }
  }

  lemma {:induction false} InstantClock(script: Script, i: nat)
    requires i >= 1 && forall j: nat :: script.took(j) == 0 && script.late(j) == 0
    ensures ClockAt(script, 0, i) == BackoffSum(i - 1)
  {
    if i > 1 {
      InstantClock(script, i - 1);
    }
  }

  // ── Slots ────────────────────────────────────────────────────────────────

  /** Where a call of `openTunnel` is; `Open` is a returned socket that has not closed. */
  datatype Phase = Queued | Working | Open | Ended

  /** Call `c` holds the limiter's ticket `c`. */
  datatype Pool = Pool(limiter: Limiter.State, calls: seq<Phase>)

  datatype Event =
    | Call
    | QueueTimeout(c: nat)
    | Threw(c: nat)      // reverse lookup, protocol probe or the last attempt failed
    | Returned(c: nat)   // the tunnel's socket is handed to the caller
    | Closed(c: nat)     // that socket closed

  function Initial(max: int): Pool {
    Pool(Limiter.Initial(max), [])
  }

  predicate At(p: Pool, c: nat, phase: Phase) {
    c < |p.calls| && p.calls[c] == phase
  }

  /** The call ends and gives its slot back; the limiter may wake the oldest queued call. */
  function GiveBack(p: Pool, c: nat): Pool
    requires c < |p.calls|
  {
    var calls := p.calls[c := Ended];
    var queue := p.limiter.queue;
    Pool(Limiter.Step(p.limiter, Limiter.Release(c)),
         if queue != [] && queue[0] < |calls| then calls[queue[0] := Working] else calls)
  }

  function Step(p: Pool, e: Event): Pool {
    match e
    case Call =>
      Pool(Limiter.Step(p.limiter, Limiter.Acquire),
           p.calls + [if Limiter.HasRoom(p.limiter) then Working else Queued])
    case QueueTimeout(c) =>
      if At(p, c, Queued) then Pool(Limiter.Step(p.limiter, Limiter.Expire(c)), p.calls[c := Ended]) else p
    case Threw(c) => if At(p, c, Working) then GiveBack(p, c) else p
    case Returned(c) => if At(p, c, Working) then p.(calls := p.calls[c := Open]) else p
    case Closed(c) => if At(p, c, Open) then GiveBack(p, c) else p
  }

  function Run(p: Pool, es: seq<Event>): Pool
    decreases |es|
  {
    if es == [] then p else Run(Step(p, es[0]), es[1..])
  }

  /** Calls in progress plus their open sockets. */
  function InUse(calls: seq<Phase>): nat {
    if calls == [] then 0
    else (if calls[|calls| - 1] in {Working, Open} then 1 else 0) + InUse(calls[..|calls| - 1])
  }

  predicate Matches(phase: Phase, ticket: Limiter.Ticket) {
    match phase
    case Queued => ticket == Limiter.Waiting
    case Working => ticket == Limiter.Granted
    case Open => ticket == Limiter.Granted
    case Ended => ticket in {Limiter.Released, Limiter.TimedOut}
  }

  ghost predicate Inv(p: Pool) {
    && Limiter.Inv(p.limiter)
    && |p.calls| == |p.limiter.tickets|
    && forall c :: 0 <= c < |p.calls| ==> Matches(p.calls[c], p.limiter.tickets[c])
  }

  lemma StepKeepsInv(p: Pool, e: Event)
    requires Inv(p)
    ensures Inv(Step(p, e))
  {
    match e
    case Call => Limiter.AcquireKeepsInv(p.limiter);
    case QueueTimeout(c) => Limiter.ExpireKeepsInv(p.limiter, c);
    case Returned(c) =>
    case Threw(c) => GiveBackKeepsInv(p, c);
    case Closed(c) => GiveBackKeepsInv(p, c);
  }

  lemma GiveBackKeepsInv(p: Pool, c: nat)
    requires Inv(p)
    ensures At(p, c, Working) || At(p, c, Open) ==> Inv(GiveBack(p, c))
  {
    Limiter.ReleaseKeepsInv(p.limiter, c);
    if p.limiter.queue != [] {
      assert p.limiter.queue[0] in p.limiter.queue;
    }
  }

  lemma {:induction false} HeldSlots(calls: seq<Phase>, tickets: seq<Limiter.Ticket>)
    requires |calls| == |tickets|
    requires forall c :: 0 <= c < |calls| ==> Matches(calls[c], tickets[c])
    ensures InUse(calls) == Limiter.Holding(tickets)
  {
    if calls != [] {
      assert Matches(calls[|calls| - 1], tickets[|calls| - 1]);
      HeldSlots(calls[..|calls| - 1], tickets[..|calls| - 1]);
    }
  }

  lemma {:induction false} RunKeepsInv(p: Pool, es: seq<Event>)
    requires Inv(p)
    ensures Inv(Run(p, es))
    decreases |es|
  {
    if es != [] {
      StepKeepsInv(p, es[0]);
      RunKeepsInv(Step(p, es[0]), es[1..]);
    }
  }

  lemma {:induction false} NoneInUse(calls: seq<Phase>)
    requires forall c :: 0 <= c < |calls| ==> calls[c] in {Queued, Ended}
    ensures InUse(calls) == 0
  {
    if calls != [] {
      NoneInUse(calls[..|calls| - 1]);
    }
  }

  /**
   Slot conservation: after any interleaving of calls, timeouts, failures, successes and socket closes,
   the limiter's active count is the number of calls at work plus their open sockets; it respects a
   positive cap, and once every call has ended no slot is leaked.
   */
  lemma SlotsConserved(max: int, es: seq<Event>)
    ensures var p := Run(Initial(max), es);
            && p.limiter.active == InUse(p.calls)
            && (max > 0 ==> InUse(p.calls) <= max)
            && ((forall c :: 0 <= c < |p.calls| ==> p.calls[c] == Ended) ==> p.limiter.active == 0)
  {
    Limiter.LimiterSafe(max, []);
    RunKeepsInv(Initial(max), es);
    var p := Run(Initial(max), es);
    HeldSlots(p.calls, p.limiter.tickets);
    CapIsFixed(Initial(max), es);
    if forall c :: 0 <= c < |p.calls| ==> p.calls[c] == Ended {
      NoneInUse(p.calls);
    }
  }

  lemma {:induction false} CapIsFixed(p: Pool, es: seq<Event>)
    ensures Run(p, es).limiter.max == p.limiter.max
    decreases |es|
  {
    if es != [] {
      CapIsFixed(Step(p, es[0]), es[1..]);
    }
  }

  /** A call waits for a slot only while the cap is used up by calls at work and open sockets. */
  lemma QueuedOnlyWhenFull(max: int, es: seq<Event>, c: nat)
    requires At(Run(Initial(max), es), c, Queued)
    ensures max > 0 && InUse(Run(Initial(max), es).calls) == max
  {
    SlotsConserved(max, es);
    Limiter.LimiterSafe(max, []);
    RunKeepsInv(Initial(max), es);
    CapIsFixed(Initial(max), es);
    assert c in Run(Initial(max), es).limiter.queue;
  }
}
