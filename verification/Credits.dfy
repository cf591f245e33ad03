/** Credits of one tenant: the database rows, and the requests that change them one statement at a time. */
module Credits {
  import opened Common

  // An update locks the tenant's row until its transaction ends, and what a transaction has written is seen by
  // others only once it commits.

  /** `Active` stands for the five statuses of a job that still runs. */
  datatype Status = Active | Failed | Cancelled | Completed

  /** Who sets a job active again: an administrator's retry or recompose, or a worker of the pipeline. */
  datatype Restart = ByRetry | ByRecompose | ByWorker

  /**
   `lock` is the request that has selected the row for update. The rest is history: `dropped` says that a
   release that was due failed, `unmarked` that marking the job failed after a failed enqueue did not work,
   `stopped` that it once was failed, cancelled or completed, `restarts` who set it active when it was.
   */
  datatype Job = Job(status: Status, reserved: nat, lock: Option<nat>, dropped: bool, unmarked: bool, stopped: bool,
                     restarts: set<Restart>) {
    /** A status other than active is written. */
    function Stopped(status: Status): Job {
      this.(status := status, stopped := true)
    }

    /** An active status is written, whatever the status was. */
    function Restarted(who: Restart): Job {
      this.(status := Active, restarts := if status == Active then restarts else restarts + {who})
    }
  }

  function NewJob(cost: nat): Job {
    Job(Active, cost, None, false, false, false, {})
  }

  datatype Kind = Reserve | Refund | Charge | Grant

  datatype Entry = Entry(kind: Kind, amount: int, balanceAfter: int, job: Option<nat>)

  datatype Result =
    | Created(job: nat)
    | Insufficient(available: int, required: nat)
    | QueueUnavailable(job: nat)
    | CancelDone(job: nat)
    | Refused
    | Finished
    | Threw

  /** What became of the reserve that a request had to give back: nothing to do, done, or failed. */
  datatype Release = NotDue | Back(job: nat) | FailedFor(job: nat)

  /** Who releases a reserve: the failed enqueue, a cancel, or the orchestrator's failure and settle handlers. */
  datatype Cause = NotEnqueued | OnCancel | OnEnd

  /** A request, between two of its statements. `view` is the balance its open transaction has written. */
  datatype Thread =
    // creating a job
    | Reserving(cost: nat)
    | Short(cost: nat)
    | Reserved(cost: nat, view: int)
    | Recorded(cost: nat, view: int)
    | Enqueuing(job: nat)
    | EnqueueFailed(job: nat)
    // releasing its reserve
    | Releasing(job: nat, cause: Cause)
    | Locked(job: nat, cause: Cause)
    | Unmarked(job: nat, cause: Cause)
    | Returned(job: nat, cause: Cause, view: int)
    | Logged(job: nat, cause: Cause, view: int)
    // stopping it
    | Dismissing(job: nat)
    | Claiming(job: nat)
    | Claimed(job: nat)
    | Marking(job: nat)
    | Ending(job: nat, status: Status)
    // setting it active again
    | Retrying(job: nat)
    | Resuming(job: nat)
    | Recomposing(job: nat)
    | Starting(job: nat)
    | Launching(job: nat)
    | Progressing(job: nat)
    // charging for work, granting credits
    | Charging(work: Option<nat>, amount: int)
    | Charged(work: Option<nat>, amount: int, view: int)
    | Billed(work: Option<nat>, amount: int, view: int)
    | Done(result: Result, release: Release)

  datatype State = State(balance: int, lock: Option<nat>, jobs: seq<Job>, ledger: seq<Entry>, threads: seq<Thread>)

  datatype Request =
    | Create(cost: nat)
    | Cancel(job: nat)
    | AdminCancel(job: nat)
    | EndJob(job: nat, failed: bool)
    | Retry(job: nat)
    | Recompose(job: nat, assets: bool)
    | Start(job: nat)
    | Progress(job: nat)
    | ChargeFor(job: nat, credits: nat)
    | Adjust(amount: int)

  /** A request arrives; one takes its next step, `works` telling how a call outside the database ends; one fails. */
  datatype Event = Arrive(request: Request) | Advance(t: nat, works: bool) | Fail(t: nat)

  function Initial(balance: int): State {
    State(balance, None, [], [], [])
  }

  // ── Steps ────────────────────────────────────────────────────────────────

  predicate RefundOf(e: Entry, j: nat) {
    e.kind == Refund && e.job == Some(j)
  }

  /** The marker that keeps a second release from paying. */
  predicate Refunded(ledger: seq<Entry>, j: nat) {
    exists e :: e in ledger && RefundOf(e, j)
  }

  function Max(a: int, b: int): int {
    if a > b then a else b
  }

  function Outcome(j: nat, cause: Cause): Result {
    match cause
    case NotEnqueued => QueueUnavailable(j)
    case OnCancel => CancelDone(j)
    case OnEnd => Finished
  }

  function Become(s: State, t: nat, th: Thread): State
    requires t < |s.threads|
  {
    s.(threads := s.threads[t := th])
  }

  function WithJob(s: State, j: nat, job: Job): State
    requires j < |s.jobs|
  {
    s.(jobs := s.jobs[j := job])
  }

  /** Changing a job's row waits for whoever has selected it for update. */
  function WriteJob(s: State, t: nat, j: nat, job: Job, th: Thread): State
    requires t < |s.threads| && j < |s.jobs|
  {
    if s.jobs[j].lock.Some? then s else Become(WithJob(s, j, job), t, th)
  }

  function SetStatus(s: State, t: nat, j: nat, status: Status, th: Thread): State
    requires t < |s.threads| && j < |s.jobs|
  {
    WriteJob(s, t, j, s.jobs[j].Stopped(status), th)
  }

  function SetActive(s: State, t: nat, j: nat, who: Restart): State
    requires t < |s.threads| && j < |s.jobs|
  {
    WriteJob(s, t, j, s.jobs[j].Restarted(who), Done(Finished, NotDue))
  }

  /** Takes the tenant's row, if it is free, and writes a new balance in the open transaction. */
  function TakeTenant(s: State, t: nat, th: Thread): State
    requires t < |s.threads|
  {
    if s.lock.Some? then s else Become(s.(lock := Some(t)), t, th)
  }

  function Commit(s: State, t: nat, view: int, e: Entry, th: Thread): State
    requires t < |s.threads|
  {
    Become(s.(balance := view, lock := None, ledger := s.ledger + [e]), t, th)
  }

  function CreateStep(s: State, t: nat, works: bool): State
    requires t < |s.threads|
  {
    match s.threads[t]
    case Reserving(cost) =>
      if s.balance < cost then Become(s, t, Short(cost)) else TakeTenant(s, t, Reserved(cost, s.balance - cost))
    case Short(cost) => Become(s, t, Done(Insufficient(s.balance, cost), NotDue))
    case Reserved(cost, view) => Become(s, t, Recorded(cost, view))
    case Recorded(cost, view) =>
      var s' := Commit(s, t, view, Entry(Reserve, -(cost as int), Max(0, view), Some(|s.jobs|)), Enqueuing(|s.jobs|));
      s'.(jobs := s.jobs + [NewJob(cost)])
    case Enqueuing(j) => Become(s, t, if works then Done(Created(j), NotDue) else EnqueueFailed(j))
    case EnqueueFailed(j) =>
      if j >= |s.jobs| then s
      else if works then SetStatus(s, t, j, Failed, Releasing(j, NotEnqueued))
      else Become(WithJob(s, j, s.jobs[j].(unmarked := true)), t, Releasing(j, NotEnqueued))
    case _ => s
  }

  function ReleaseStep(s: State, t: nat, j: nat): State
    requires t < |s.threads| && j < |s.jobs|
  {
    match s.threads[t]
    case Releasing(_, cause) =>
      if s.jobs[j].reserved == 0 then Become(s, t, Done(Outcome(j, cause), Back(j)))
      else if s.jobs[j].lock.Some? then s
      else Become(WithJob(s, j, s.jobs[j].(lock := Some(t))), t, Locked(j, cause))
    case Locked(_, cause) =>
      if Refunded(s.ledger, j) then Become(WithJob(s, j, s.jobs[j].(lock := None)), t, Done(Outcome(j, cause), Back(j)))
      else Become(s, t, Unmarked(j, cause))
    case Unmarked(_, cause) => TakeTenant(s, t, Returned(j, cause, s.balance + s.jobs[j].reserved))
    case Returned(_, cause, view) => Become(s, t, Logged(j, cause, view))
    case Logged(_, cause, view) =>
      Commit(WithJob(s, j, s.jobs[j].(lock := None)), t, view, Entry(Refund, s.jobs[j].reserved, view, Some(j)),
             Done(Outcome(j, cause), Back(j)))
    case _ => s
  }

  function StatusStep(s: State, t: nat, j: nat): State
    requires t < |s.threads| && j < |s.jobs|
  {
    match s.threads[t]
    case Dismissing(_) =>
      Become(s, t, match s.jobs[j].status
                   case Active => Claiming(j)
                   case Failed => Marking(j)
                   case _ => Done(Refused, NotDue))
    case Claiming(_) =>
      if s.jobs[j].status == Active then SetStatus(s, t, j, Cancelled, Claimed(j))
      else Become(s, t, Done(Refused, NotDue))
    case Claimed(_) => Become(s, t, Releasing(j, OnCancel))
    case Marking(_) => SetStatus(s, t, j, Cancelled, Done(Finished, NotDue))
    case Ending(_, status) => SetStatus(s, t, j, status, Releasing(j, OnEnd))
    case _ => s
  }

  /**
   A retry looks at the status first; a recompose and the workers of the pipeline do not. The coordinator
   starts whatever is not cancelled.
   */
  function RestartStep(s: State, t: nat, j: nat): State
    requires t < |s.threads| && j < |s.jobs|
  {
    var status := s.jobs[j].status;
    match s.threads[t]
    case Retrying(_) => Become(s, t, if status in {Failed, Cancelled} then Resuming(j) else Done(Refused, NotDue))
    case Resuming(_) => SetActive(s, t, j, ByRetry)
    case Recomposing(_) => SetActive(s, t, j, ByRecompose)
    case Starting(_) => Become(s, t, if status == Cancelled then Done(Refused, NotDue) else Launching(j))
    case Launching(_) =>
      if status == Cancelled then Become(s, t, Done(Refused, NotDue)) else SetActive(s, t, j, ByWorker)
    case Progressing(_) => SetActive(s, t, j, ByWorker)
    case _ => s
  }

  function BillStep(s: State, t: nat): State
    requires t < |s.threads|
  {
    match s.threads[t]
    case Charging(work, amount) => TakeTenant(s, t, Charged(work, amount, s.balance + amount))
    case Charged(work, amount, view) => Become(s, t, Billed(work, amount, view))
    case Billed(work, amount, view) => Commit(s, t, view, BillEntry(work, amount, view), Done(Finished, NotDue))
    case _ => s
  }

  /** Work is logged with a balance of at least zero, an administrator's change with the balance as it is. */
  function BillEntry(work: Option<nat>, amount: int, view: int): Entry {
    Entry(if work.None? && amount >= 0 then Grant else Charge, amount,
          if work.Some? then Max(0, view) else view, work)
  }

  predicate IsCreate(th: Thread) {
    th.Reserving? || th.Short? || th.Reserved? || th.Recorded? || th.Enqueuing? || th.EnqueueFailed?
  }

  predicate IsRelease(th: Thread) {
    th.Releasing? || th.Locked? || th.Unmarked? || th.Returned? || th.Logged?
  }

  predicate IsStatus(th: Thread) {
    th.Dismissing? || th.Claiming? || th.Claimed? || th.Marking? || th.Ending?
  }

  predicate IsRestart(th: Thread) {
    th.Retrying? || th.Resuming? || th.Recomposing? || th.Starting? || th.Launching? || th.Progressing?
  }

  predicate HasJob(th: Thread) {
    IsRelease(th) || IsStatus(th) || IsRestart(th) || th.Enqueuing? || th.EnqueueFailed?
  }

  function AdvanceOne(s: State, t: nat, works: bool): State
    requires t < |s.threads|
  {
    var th := s.threads[t];
    if IsCreate(th) then CreateStep(s, t, works)
    else if IsRelease(th) && th.job < |s.jobs| then ReleaseStep(s, t, th.job)
    else if IsStatus(th) && th.job < |s.jobs| then StatusStep(s, t, th.job)
    else if IsRestart(th) && th.job < |s.jobs| then RestartStep(s, t, th.job)
    else BillStep(s, t)
  }

  /** A job's reserve is on its way back: the release runs, or a cancel has claimed the job for it. */
  predicate Owes(th: Thread) {
    IsRelease(th) || th.Claimed?
  }

  /**
   An error: the open transaction is rolled back, and a reserve on its way back stays where it is. A failed
   release is only logged, so the request answers as if it had worked; before it, a cancel throws.
   */
  function FailOne(s: State, t: nat): State
    requires t < |s.threads|
  {
    var th := s.threads[t];
    if th.Done? then s
    else
      var s1 := if s.lock == Some(t) then s.(lock := None) else s;
      if Owes(th) && th.job < |s.jobs| then
        var job := s.jobs[th.job];
        var lock := if job.lock == Some(t) then None else job.lock;
        Become(WithJob(s1, th.job, job.(lock := lock, dropped := true)), t,
               Done(if th.Claimed? then Threw else Outcome(th.job, th.cause), FailedFor(th.job)))
      else Become(s1, t, Done(Threw, NotDue))
  }

  /** A request about a job needs the job. Cancelling by its owner goes straight to the claim. */
  function Opening(s: State, r: Request): Thread {
    match r
    case Create(cost) => Reserving(cost)
    case Cancel(j) => if j < |s.jobs| then Claiming(j) else Done(Refused, NotDue)
    case AdminCancel(j) => if j < |s.jobs| then Dismissing(j) else Done(Refused, NotDue)
    case EndJob(j, failed) => if j < |s.jobs| then Ending(j, if failed then Failed else Completed) else Done(Refused, NotDue)
    case Retry(j) => if j < |s.jobs| then Retrying(j) else Done(Refused, NotDue)
    case Recompose(j, assets) => if j < |s.jobs| && assets then Recomposing(j) else Done(Refused, NotDue)
    case Start(j) => if j < |s.jobs| then Starting(j) else Done(Refused, NotDue)
    case Progress(j) => if j < |s.jobs| then Progressing(j) else Done(Refused, NotDue)
    case ChargeFor(j, credits) => if j < |s.jobs| then Charging(Some(j), -(credits as int)) else Done(Refused, NotDue)
    case Adjust(amount) => Charging(None, amount)
  }

  function Step(s: State, e: Event): State {
    match e
    case Arrive(r) => s.(threads := s.threads + [Opening(s, r)])
    case Advance(t, works) => if t < |s.threads| then AdvanceOne(s, t, works) else s
    case Fail(t) => if t < |s.threads| then FailOne(s, t) else s
  }

  function Run(s: State, es: seq<Event>): State
    decreases |es|
  {
    if es == [] then s else Run(Step(s, es[0]), es[1..])
  }

  // ── What holds between any two steps ─────────────────────────────────────

  predicate HoldsTenant(th: Thread) {
    th.Reserved? || th.Recorded? || th.Returned? || th.Logged? || th.Charged? || th.Billed?
  }

  predicate HoldsJob(th: Thread, j: nat) {
    (th.Locked? || th.Unmarked? || th.Returned? || th.Logged?) && th.job == j
  }

  /** What the open transaction changes the balance by. */
  function Change(th: Thread, jobs: seq<Job>): int {
    if th.Reserved? || th.Recorded? then -(th.cost as int)
    else if th.Returned? || th.Logged? then (if th.job < |jobs| then jobs[th.job].reserved else 0)
    else if th.Charged? || th.Billed? then th.amount
    else 0
  }

  ghost predicate GoodThread(s: State, t: nat)
    requires t < |s.threads|
  {
    var th := s.threads[t];
    && (HoldsTenant(th) <==> s.lock == Some(t))
    && (HoldsTenant(th) ==> th.view == s.balance + Change(th, s.jobs))
    && (th.Reserved? || th.Recorded? ==> th.view >= 0)
    && (HasJob(th) ==> th.job < |s.jobs|)
    && (th.Locked? || th.Unmarked? || th.Returned? || th.Logged? ==> s.jobs[th.job].reserved > 0)
    && (th.Unmarked? || th.Returned? || th.Logged? ==> !Refunded(s.ledger, th.job))
    && (th.Ending? ==> th.status in {Failed, Completed})
    && (th.Done? ==> Kept(th, s))
  }

  /** What an answer means: which job it is about, and what the release it ended with has left behind. */
  predicate Kept(th: Thread, s: State)
    requires th.Done?
  {
    && (th.result.Created? ==> th.result.job < |s.jobs|)
    && (th.result.CancelDone? || th.result.QueueUnavailable? ==> th.release in {Back(th.result.job), FailedFor(th.result.job)})
    && match th.release
       case NotDue => true
       case Back(j) => j < |s.jobs| && (s.jobs[j].reserved == 0 || Refunded(s.ledger, j))
       case FailedFor(j) => j < |s.jobs| && s.jobs[j].dropped
  }

  ghost predicate Threads(s: State) {
    && (s.lock.Some? ==> s.lock.value < |s.threads|)
    && (forall t :: 0 <= t < |s.threads| ==> GoodThread(s, t))
    && (forall t, j :: 0 <= t < |s.threads| && 0 <= j < |s.jobs| ==>
          (HoldsJob(s.threads[t], j) <==> s.jobs[j].lock == Some(t)))
    && (forall j :: 0 <= j < |s.jobs| && s.jobs[j].lock.Some? ==> s.jobs[j].lock.value < |s.threads|)
  }

  /** Its reserve is back, was lost to an error, or is on its way back. */
  ghost predicate Covered(s: State, j: nat)
    requires j < |s.jobs|
  {
    || s.jobs[j].reserved == 0
    || s.jobs[j].dropped
    || Refunded(s.ledger, j)
    || exists t :: 0 <= t < |s.threads| && Releases(s.threads[t], j)
  }

  predicate Releases(th: Thread, j: nat) {
    Owes(th) && th.job == j
  }

  /** The job has stopped at least once, or its failed enqueue could not be noted. */
  predicate Ended(job: Job) {
    job.stopped || job.unmarked
  }

  /** The history fits the status: an active job has stopped exactly if somebody set it active again. */
  predicate Told(job: Job) {
    && (job.status != Active ==> job.stopped)
    && (job.status == Active ==> (job.stopped <==> job.restarts != {}))
  }

  ghost predicate AllTold(s: State) {
    forall j :: 0 <= j < |s.jobs| ==> Told(s.jobs[j])
  }

  predicate ActsOnEnded(th: Thread) {
    th.Marking?
  }

  /** A job that has ended is covered, as is one about to be marked. */
  ghost predicate AllCovered(s: State) {
    && (forall j :: 0 <= j < |s.jobs| && Ended(s.jobs[j]) ==> Covered(s, j))
    && (forall t :: 0 <= t < |s.threads| && ActsOnEnded(s.threads[t]) && s.threads[t].job < |s.jobs|
          ==> Covered(s, s.threads[t].job))
  }

  /** A job that has not ended keeps its reserve, and nobody is about to give it back. */
  ghost predicate Untouched(s: State) {
    forall j :: 0 <= j < |s.jobs| && !Ended(s.jobs[j]) ==>
      !Refunded(s.ledger, j) && forall t :: 0 <= t < |s.threads| ==> !Releases(s.threads[t], j)
  }

  predicate GaveBack(th: Thread, j: nat) {
    th.Done? && th.release == Back(j)
  }

  /** Every refund is the work of a request that has answered. */
  ghost predicate Traced(s: State) {
    forall j :: 0 <= j < |s.jobs| && Refunded(s.ledger, j) ==>
      exists t :: 0 <= t < |s.threads| && GaveBack(s.threads[t], j)
  }

  function Sum(ledger: seq<Entry>): int {
    if ledger == [] then 0 else Sum(ledger[..|ledger| - 1]) + ledger[|ledger| - 1].amount
  }

  /** Sum of the changes that are neither reserves nor refunds. */
  function Spent(ledger: seq<Entry>): int {
    if ledger == [] then 0
    else
      var e := ledger[|ledger| - 1];
      Spent(ledger[..|ledger| - 1]) - if e.kind in {Charge, Grant} then e.amount else 0
  }

  /** Sum of what was taken by charges and deductions alone. */
  function Taken(ledger: seq<Entry>): nat {
    if ledger == [] then 0
    else
      var e := ledger[|ledger| - 1];
      Taken(ledger[..|ledger| - 1]) + if e.kind == Charge then Max(0, -e.amount) else 0
  }

  /** Sum of the reserves not refunded, over the first jobs. */
  function Outstanding(jobs: seq<Job>, ledger: seq<Entry>): nat {
    if jobs == [] then 0
    else
      var n := |jobs| - 1;
      Outstanding(jobs[..n], ledger) + if Refunded(ledger, n) then 0 else jobs[n].reserved
  }

  /** What an entry shows is the balance it left; a charge for work never shows less than zero. */
  predicate Shows(e: Entry, balance: int) {
    e.balanceAfter == if e.kind == Charge && e.job.Some? then Max(0, balance) else balance
  }

  /** A reserve or a refund is exactly the reserve of its job. */
  predicate ExactFor(e: Entry, jobs: seq<Job>) {
    e.kind in {Reserve, Refund} ==>
      && e.job.Some? && e.job.value < |jobs|
      && e.amount == if e.kind == Reserve then -(jobs[e.job.value].reserved as int) else jobs[e.job.value].reserved
  }

  ghost predicate ShownRight(initial: int, ledger: seq<Entry>) {
    forall k :: 0 <= k < |ledger| ==> Shows(ledger[k], initial + Sum(ledger[..k + 1]))
  }

  ghost predicate AllExact(ledger: seq<Entry>, jobs: seq<Job>) {
    forall e :: e in ledger ==> ExactFor(e, jobs)
  }

  /** No job has two reserves or two refunds. */
  ghost predicate OncePerJob(ledger: seq<Entry>) {
    forall a, b :: 0 <= a < b < |ledger| && ledger[a].kind == ledger[b].kind && ledger[a].kind in {Reserve, Refund}
      ==> ledger[a].job != ledger[b].job
  }

  ghost predicate AtMostOneRefund(ledger: seq<Entry>, j: nat) {
    forall a, b :: 0 <= a < b < |ledger| && RefundOf(ledger[a], j) ==> !RefundOf(ledger[b], j)
  }

  ghost predicate Books(s: State, initial: int) {
    && s.balance == initial + Sum(s.ledger)
    && s.balance == initial - Spent(s.ledger) - Outstanding(s.jobs, s.ledger)
    && s.balance + Taken(s.ledger) >= 0
    && ShownRight(initial, s.ledger)
    && AllExact(s.ledger, s.jobs)
    && OncePerJob(s.ledger)
  }

  ghost predicate Inv(s: State, initial: int) {
    Threads(s) && AllCovered(s) && AllTold(s) && Untouched(s) && Traced(s) && Books(s, initial)
  }

  // ── Books ────────────────────────────────────────────────────────────────

  lemma Appended(ledger: seq<Entry>, e: Entry)
    ensures (ledger + [e])[..|ledger|] == ledger
    ensures Sum(ledger + [e]) == Sum(ledger) + e.amount
    ensures Spent(ledger + [e]) == Spent(ledger) - if e.kind in {Charge, Grant} then e.amount else 0
    ensures Taken(ledger + [e]) == Taken(ledger) + if e.kind == Charge then Max(0, -e.amount) else 0
    ensures forall j: nat :: Refunded(ledger + [e], j) <==> Refunded(ledger, j) || RefundOf(e, j)
  {
    assert (ledger + [e])[..|ledger|] == ledger;
    forall j: nat ensures Refunded(ledger + [e], j) <==> Refunded(ledger, j) || RefundOf(e, j) {
      if RefundOf(e, j) { assert e in ledger + [e]; }
      if x :| x in ledger && RefundOf(x, j) { assert x in ledger + [e]; }
    }
  }

  lemma {:induction false} ShownAppend(initial: int, ledger: seq<Entry>, e: Entry)
    requires ShownRight(initial, ledger) && Shows(e, initial + Sum(ledger) + e.amount)
    ensures ShownRight(initial, ledger + [e])
  {
    Appended(ledger, e);
    var all := ledger + [e];
    forall k | 0 <= k < |all| ensures Shows(all[k], initial + Sum(all[..k + 1])) {
      if k < |ledger| {
        assert all[..k + 1] == ledger[..k + 1];
      } else {
        assert all[..k + 1] == all;
      }
    }
  }

  /** Outstanding depends only on the reserved amounts and on which jobs are refunded. */
  lemma {:induction false} OutstandingFrame(jobs: seq<Job>, ledger: seq<Entry>, jobs': seq<Job>, ledger': seq<Entry>)
    requires |jobs| == |jobs'| && forall j :: 0 <= j < |jobs| ==> jobs[j].reserved == jobs'[j].reserved
    requires forall j :: 0 <= j < |jobs| ==> (Refunded(ledger, j) <==> Refunded(ledger', j))
    ensures Outstanding(jobs, ledger) == Outstanding(jobs', ledger')
  {
    if jobs != [] {
      var n := |jobs| - 1;
      OutstandingFrame(jobs[..n], ledger, jobs'[..n], ledger');
    }
  }

  lemma {:induction false} OutstandingRefund(jobs: seq<Job>, ledger: seq<Entry>, e: Entry, j: nat)
    requires j < |jobs| && RefundOf(e, j) && !Refunded(ledger, j)
    ensures Outstanding(jobs, ledger + [e]) == Outstanding(jobs, ledger) - jobs[j].reserved
  {
    var n := |jobs| - 1;
    Appended(ledger, e);
    if j == n {
      OutstandingFrame(jobs[..n], ledger, jobs[..n], ledger + [e]);
    } else {
      OutstandingRefund(jobs[..n], ledger, e, j);
    }
  }

  /** No entry names a job that does not exist yet. */
  lemma UnknownJob(ledger: seq<Entry>, jobs: seq<Job>)
    requires AllExact(ledger, jobs)
    ensures !Refunded(ledger, |jobs|)
    ensures forall e :: e in ledger && e.kind in {Reserve, Refund} ==> e.job != Some(|jobs|)
  {
  }

  /** The books depend only on balance, ledger and reserved amounts. */
  predicate SameBooks(s: State, s': State) {
    && s.balance == s'.balance && s.ledger == s'.ledger && |s.jobs| == |s'.jobs|
    && forall j :: 0 <= j < |s.jobs| ==> s.jobs[j].reserved == s'.jobs[j].reserved
  }

  lemma BooksFrame(s: State, s': State, initial: int)
    requires Books(s, initial) && SameBooks(s, s')
    ensures Books(s', initial)
  {
    OutstandingFrame(s.jobs, s.ledger, s'.jobs, s'.ledger);
  }

  lemma OnceAppend(ledger: seq<Entry>, e: Entry)
    requires OncePerJob(ledger)
    requires forall x :: x in ledger && x.kind == e.kind && e.kind in {Reserve, Refund} ==> x.job != e.job
    ensures OncePerJob(ledger + [e])
  {
    assert forall a :: 0 <= a < |ledger| ==> ledger[a] in ledger;
  }

  lemma ExactAppend(ledger: seq<Entry>, e: Entry, jobs: seq<Job>, jobs': seq<Job>)
    requires AllExact(ledger, jobs) && ExactFor(e, jobs') && |jobs| <= |jobs'|
    requires forall j :: 0 <= j < |jobs| ==> jobs[j].reserved == jobs'[j].reserved
    ensures AllExact(ledger + [e], jobs')
  {
    forall x | x in ledger + [e] ensures ExactFor(x, jobs') {
      assert x in ledger ==> ExactFor(x, jobs);
    }
  }

  lemma OutstandingReserve(jobs: seq<Job>, ledger: seq<Entry>, e: Entry, job: Job)
    requires AllExact(ledger, jobs) && e.kind == Reserve
    ensures Outstanding(jobs + [job], ledger + [e]) == Outstanding(jobs, ledger) + job.reserved
  {
    Appended(ledger, e);
    UnknownJob(ledger, jobs);
    assert (jobs + [job])[..|jobs|] == jobs;
    OutstandingFrame(jobs, ledger, jobs, ledger + [e]);
  }

  /** The books after a reserve of `cost` is committed. */
  lemma ReserveBalances(s: State, s': State, cost: nat, initial: int)
    requires Books(s, initial) && s.balance >= cost
    requires s'.balance == s.balance - cost
    requires s'.jobs == s.jobs + [NewJob(cost)]
    requires s'.ledger == s.ledger + [Entry(Reserve, -(cost as int), Max(0, s'.balance), Some(|s.jobs|))]
    ensures Books(s', initial)
  {
    var e := Entry(Reserve, -(cost as int), Max(0, s'.balance), Some(|s.jobs|));
    Appended(s.ledger, e);
    ShownAppend(initial, s.ledger, e);
    UnknownJob(s.ledger, s.jobs);
    OutstandingReserve(s.jobs, s.ledger, e, NewJob(cost));
    ExactAppend(s.ledger, e, s.jobs, s'.jobs);
    OnceAppend(s.ledger, e);
  }

  lemma ReserveKeepsBooks(s: State, t: nat, works: bool, initial: int)
    requires t < |s.threads| && s.threads[t].Recorded? && GoodThread(s, t) && Books(s, initial)
    ensures Books(CreateStep(s, t, works), initial)
  {
    ReserveBalances(s, CreateStep(s, t, works), s.threads[t].cost, initial);
  }

  /** A step of a create moves money only together with a new job, by exactly its reserve. */
  lemma CreateMovesMoney(s: State, t: nat, works: bool, initial: int)
    requires t < |s.threads| && IsCreate(s.threads[t]) && GoodThread(s, t) && Books(s, initial)
    ensures var s' := CreateStep(s, t, works);
            if s.threads[t].Recorded? then
              && s'.jobs == s.jobs + [NewJob(s.threads[t].cost)]
              && 0 <= s'.balance == s.balance - s.threads[t].cost
              && Outstanding(s'.jobs, s'.ledger) == Outstanding(s.jobs, s.ledger) + s.threads[t].cost
            else |s'.jobs| == |s.jobs| && s'.balance == s.balance && s'.ledger == s.ledger
  {
    var th := s.threads[t];
    if th.Recorded? {
      OutstandingReserve(s.jobs, s.ledger, Entry(Reserve, -(th.cost as int), Max(0, th.view), Some(|s.jobs|)),
                         NewJob(th.cost));
    }
  }

  /** A step of a release moves money only together with the refund entry, by exactly the reserve. */
  lemma ReleaseMovesMoney(s: State, t: nat)
    requires t < |s.threads| && IsRelease(s.threads[t]) && GoodThread(s, t)
    ensures var s', j := ReleaseStep(s, t, s.threads[t].job), s.threads[t].job;
            && s'.balance == s.balance + (if Refunded(s'.ledger, j) && !Refunded(s.ledger, j) then s.jobs[j].reserved else 0)
            && (s'.threads[t].Done? ==> s.jobs[j].reserved == 0 || Refunded(s'.ledger, j))
  {
    var th := s.threads[t];
    if th.Logged? {
      Appended(s.ledger, Entry(Refund, s.jobs[th.job].reserved, th.view, Some(th.job)));
    }
  }

  lemma BillMovesMoney(s: State, t: nat)
    requires t < |s.threads| && IsBill(s.threads[t]) && GoodThread(s, t)
    ensures var s' := BillStep(s, t);
            && s'.balance == s.balance + (if s'.threads[t].Done? then s.threads[t].amount else 0)
            && Sum(s'.ledger) - Sum(s.ledger) == s'.balance - s.balance
            && Outstanding(s'.jobs, s'.ledger) == Outstanding(s.jobs, s.ledger)
  {
    var th := s.threads[t];
    if th.Billed? {
      Appended(s.ledger, BillEntry(th.work, th.amount, th.view));
      OutstandingFrame(s.jobs, s.ledger, s.jobs, BillStep(s, t).ledger);
    }
  }

  lemma BooksRefundOnce(s: State, initial: int, j: nat)
    requires Inv(s, initial)
    ensures AtMostOneRefund(s.ledger, j) && ShownRight(initial, s.ledger)
  {
  }

  lemma RefundKeepsBooks(s: State, t: nat, initial: int)
    requires t < |s.threads| && s.threads[t].Logged? && GoodThread(s, t) && Books(s, initial)
    ensures s.threads[t].job < |s.jobs| && Books(ReleaseStep(s, t, s.threads[t].job), initial)
  {
    var th := s.threads[t];
    var e := Entry(Refund, s.jobs[th.job].reserved, th.view, Some(th.job));
    var s' := ReleaseStep(s, t, th.job);
    Appended(s.ledger, e);
    ShownAppend(initial, s.ledger, e);
    OutstandingRefund(s.jobs, s.ledger, e, th.job);
    OutstandingFrame(s.jobs, s'.ledger, s'.jobs, s'.ledger);
    ExactAppend(s.ledger, e, s.jobs, s'.jobs);
    forall x | x in s.ledger && x.kind == Refund ensures x.job != e.job {
      assert !RefundOf(x, th.job);
    }
    OnceAppend(s.ledger, e);
  }

  lemma BillKeepsBooks(s: State, t: nat, initial: int)
    requires t < |s.threads| && s.threads[t].Billed? && GoodThread(s, t) && Books(s, initial)
    ensures Books(BillStep(s, t), initial)
  {
    var th := s.threads[t];
    var e := BillEntry(th.work, th.amount, th.view);
    Appended(s.ledger, e);
    ShownAppend(initial, s.ledger, e);
    OutstandingFrame(s.jobs, s.ledger, s.jobs, s.ledger + [e]);
    ExactAppend(s.ledger, e, s.jobs, s.jobs);
    OnceAppend(s.ledger, e);
  }

  // ── Locks ────────────────────────────────────────────────────────────────

  /** Jobs keep their reserve, and their lock unless this request takes it or gives it back. */
  ghost predicate JobsKept(s: State, s': State, t: nat) {
    && |s.jobs| <= |s'.jobs|
    && (forall j :: 0 <= j < |s.jobs| ==>
          s'.jobs[j].reserved == s.jobs[j].reserved && (s.jobs[j].dropped ==> s'.jobs[j].dropped))
    && (forall j :: 0 <= j < |s.jobs| ==>
          s'.jobs[j].lock == s.jobs[j].lock || (s'.jobs[j].lock in {None, Some(t)} && s.jobs[j].lock in {None, Some(t)}))
    && (forall j :: |s.jobs| <= j < |s'.jobs| ==> s'.jobs[j].lock.None?)
  }

  /** A step of request `t` that touches only what is free or its own. */
  ghost predicate Local(s: State, s': State, t: nat)
    requires t < |s.threads|
  {
    && |s'.threads| == |s.threads|
    && (forall u :: 0 <= u < |s.threads| && u != t ==> s'.threads[u] == s.threads[u])
    && (s'.lock == s.lock || (s'.lock in {None, Some(t)} && s.lock in {None, Some(t)}))
    && (s'.balance == s.balance || s.lock == Some(t))
    && JobsKept(s, s', t)
    && (forall j :: 0 <= j < |s.jobs| && Refunded(s'.ledger, j) ==> Refunded(s.ledger, j) || s.jobs[j].lock == Some(t))
    && (forall j: nat :: Refunded(s.ledger, j) ==> Refunded(s'.ledger, j))
    && GoodThread(s', t)
    && (forall j :: 0 <= j < |s'.jobs| ==> (HoldsJob(s'.threads[t], j) <==> s'.jobs[j].lock == Some(t)))
  }

  lemma LocalKeepsThreads(s: State, s': State, t: nat)
    requires Threads(s) && t < |s.threads| && Local(s, s', t)
    ensures Threads(s')
  {
    forall u | 0 <= u < |s.threads| && u != t ensures GoodThread(s', u) {
      assert GoodThread(s, u);
    }
    forall u, j | 0 <= u < |s'.threads| && 0 <= j < |s'.jobs|
      ensures HoldsJob(s'.threads[u], j) <==> s'.jobs[j].lock == Some(u)
    {
      assert GoodThread(s, u);
      if u != t && j < |s.jobs| {
        assert HoldsJob(s.threads[u], j) <==> s.jobs[j].lock == Some(u);
      }
    }
  }

  /** Once covered, a job stays covered: a release in progress ends with a refund, an earlier one, or an error. */
  ghost predicate KeepsCover(s: State, s': State, t: nat)
    requires t < |s.threads| && |s.threads| <= |s'.threads|
  {
    && |s.jobs| <= |s'.jobs|
    && (forall j :: 0 <= j < |s.jobs| ==> s'.jobs[j].reserved == s.jobs[j].reserved && (s.jobs[j].dropped ==> s'.jobs[j].dropped))
    && (forall j :: 0 <= j < |s.jobs| && Refunded(s.ledger, j) ==> Refunded(s'.ledger, j))
    && (forall u :: 0 <= u < |s.threads| && u != t ==> s'.threads[u] == s.threads[u])
    && (Owes(s.threads[t]) && s.threads[t].job < |s.jobs| ==> Covered(s', s.threads[t].job))
  }

  lemma CoverStays(s: State, s': State, t: nat, j: nat)
    requires t < |s.threads| && |s.threads| <= |s'.threads| && KeepsCover(s, s', t)
    requires j < |s.jobs| && Covered(s, j)
    ensures Covered(s', j)
  {
    if u :| 0 <= u < |s.threads| && Releases(s.threads[u], j) {
      if u != t {
        assert Releases(s'.threads[u], j);
      }
    }
  }

  /** A step keeps everything covered if it covers the one job it may end and the one it is about to act on. */
  lemma CoverKept(s: State, s': State, t: nat)
    requires t < |s.threads| && |s.threads| == |s'.threads| && KeepsCover(s, s', t) && AllCovered(s)
    requires forall j :: 0 <= j < |s.jobs| && Ended(s'.jobs[j]) && !Ended(s.jobs[j]) ==> Covered(s', j)
    requires forall j :: |s.jobs| <= j < |s'.jobs| ==> !Ended(s'.jobs[j])
    requires Threads(s)
    requires s'.threads[t] != s.threads[t] && ActsOnEnded(s'.threads[t]) ==>
      s'.threads[t].job < |s.jobs| && Ended(s.jobs[s'.threads[t].job])
    ensures AllCovered(s')
  {
    forall j | 0 <= j < |s.jobs| && Covered(s, j) ensures Covered(s', j) {
      CoverStays(s, s', t, j);
    }
    forall u | 0 <= u < |s.threads| && ActsOnEnded(s'.threads[u]) && s'.threads[u].job < |s'.jobs|
      ensures Covered(s', s'.threads[u].job)
    {
      assert GoodThread(s, u);
    }
  }

  // ── Every step keeps the invariant ───────────────────────────────────────

  /** Only a release ever selects a job's row for update. */
  lemma NoJobLock(s: State, t: nat)
    requires Threads(s) && t < |s.threads| && !IsRelease(s.threads[t])
    ensures forall j :: 0 <= j < |s.jobs| ==> s.jobs[j].lock != Some(t)
  {
    forall j | 0 <= j < |s.jobs| ensures s.jobs[j].lock != Some(t) {
      assert HoldsJob(s.threads[t], j) <==> s.jobs[j].lock == Some(t);
    }
  }

  /** Locks nothing, and says nothing that is not so. */
  predicate Idle(s: State, th: Thread) {
    && !HoldsTenant(th) && (IsRelease(th) ==> th.Releasing?)
    && (HasJob(th) ==> th.job < |s.jobs|)
    && (th.Ending? ==> th.status in {Failed, Completed})
    && (th.Done? ==> Kept(th, s))
  }

  /** A request goes on without touching a row. */
  lemma MoveIsLocal(s: State, t: nat, th: Thread)
    requires Threads(s) && t < |s.threads| && !HoldsTenant(s.threads[t]) && !IsRelease(s.threads[t]) && Idle(s, th)
    ensures Local(s, Become(s, t, th), t)
  {
    assert GoodThread(s, t);
    NoJobLock(s, t);
  }

  /** A request changes the row of a job that nobody has selected. */
  lemma WriteJobIsLocal(s: State, t: nat, j: nat, job: Job, th: Thread)
    requires Threads(s) && t < |s.threads| && j < |s.jobs| && !HoldsTenant(s.threads[t]) && !IsRelease(s.threads[t])
    requires job.reserved == s.jobs[j].reserved && job.lock == s.jobs[j].lock && job.dropped == s.jobs[j].dropped
    requires Idle(s, th) && (th.Done? ==> th.release == NotDue && th.result == Finished)
    ensures Local(s, WriteJob(s, t, j, job, th), t)
  {
    assert GoodThread(s, t);
    NoJobLock(s, t);
  }

  lemma ReserveIsLocal(s: State, t: nat, works: bool)
    requires Threads(s) && t < |s.threads| && s.threads[t].Recorded?
    ensures Local(s, CreateStep(s, t, works), t)
  {
    var th := s.threads[t];
    assert GoodThread(s, t);
    NoJobLock(s, t);
    Appended(s.ledger, Entry(Reserve, -(th.cost as int), Max(0, th.view), Some(|s.jobs|)));
  }

  lemma EnqueueFailedIsLocal(s: State, t: nat, works: bool)
    requires Threads(s) && t < |s.threads| && s.threads[t].EnqueueFailed?
    ensures Local(s, CreateStep(s, t, works), t)
  {
    var j := s.threads[t].job;
    assert GoodThread(s, t);
    if works {
      WriteJobIsLocal(s, t, j, s.jobs[j].Stopped(Failed), Releasing(j, NotEnqueued));
    } else {
      NoJobLock(s, t);
    }
  }

  /** A request takes the tenant's row, or goes on with it. */
  lemma TenantIsLocal(s: State, t: nat, th: Thread)
    requires Threads(s) && t < |s.threads| && !IsRelease(s.threads[t]) && HoldsTenant(th) && !IsRelease(th)
    requires HoldsTenant(s.threads[t]) ==> th.view == s.threads[t].view
    requires th.view == s.balance + Change(th, s.jobs) && (th.Reserved? || th.Recorded? ==> th.view >= 0)
    ensures HoldsTenant(s.threads[t]) ==> Local(s, Become(s, t, th), t)
    ensures !HoldsTenant(s.threads[t]) ==> Local(s, TakeTenant(s, t, th), t)
  {
    assert GoodThread(s, t);
    NoJobLock(s, t);
  }

  lemma CreateIsLocal(s: State, t: nat, works: bool)
    requires Threads(s) && t < |s.threads| && IsCreate(s.threads[t])
    ensures Local(s, CreateStep(s, t, works), t)
  {
    var th := s.threads[t];
    assert GoodThread(s, t);
    if th.Recorded? {
      ReserveIsLocal(s, t, works);
    } else if th.EnqueueFailed? {
      EnqueueFailedIsLocal(s, t, works);
    } else if th.Reserving? && s.balance >= th.cost {
      TenantIsLocal(s, t, Reserved(th.cost, s.balance - th.cost));
    } else if th.Reserved? {
      TenantIsLocal(s, t, Recorded(th.cost, th.view));
    } else {
      MoveIsLocal(s, t, CreateStep(s, t, works).threads[t]);
    }
  }

  lemma CreateKeepsCover(s: State, t: nat, works: bool)
    requires Threads(s) && AllCovered(s) && t < |s.threads| && IsCreate(s.threads[t])
    ensures AllCovered(CreateStep(s, t, works))
  {
    var s', th := CreateStep(s, t, works), s.threads[t];
    assert GoodThread(s, t);
    if th.Recorded? {
      Appended(s.ledger, Entry(Reserve, -(th.cost as int), Max(0, th.view), Some(|s.jobs|)));
    } else if th.EnqueueFailed? {
      assert s' == s || Releases(s'.threads[t], th.job);
    }
    CoverKept(s, s', t);
  }

  /** A release holds its own job's row from the second statement on, and no other. */
  ghost predicate OwnLock(s: State, t: nat)
    requires t < |s.threads|
  {
    forall j :: 0 <= j < |s.jobs| ==> (HoldsJob(s.threads[t], j) <==> s.jobs[j].lock == Some(t))
  }

  /** The job's row is selected for update, or let go. */
  lemma LockIsLocal(s: State, t: nat)
    requires t < |s.threads| && GoodThread(s, t) && OwnLock(s, t)
    requires (s.threads[t].Releasing? || s.threads[t].Locked?) && s.threads[t].job < |s.jobs|
    ensures Local(s, ReleaseStep(s, t, s.threads[t].job), t)
  {
    var j := s.threads[t].job;
    assert HoldsJob(s.threads[t], j) <==> s.jobs[j].lock == Some(t);
  }

  lemma ReturnIsLocal(s: State, t: nat)
    requires t < |s.threads| && GoodThread(s, t) && OwnLock(s, t)
    requires (s.threads[t].Unmarked? || s.threads[t].Returned?) && s.threads[t].job < |s.jobs|
    ensures Local(s, ReleaseStep(s, t, s.threads[t].job), t)
  {
    var j := s.threads[t].job;
    assert HoldsJob(s.threads[t], j) <==> s.jobs[j].lock == Some(t);
  }

  lemma RefundIsLocal(s: State, t: nat)
    requires t < |s.threads| && GoodThread(s, t) && OwnLock(s, t) && s.threads[t].Logged? && s.threads[t].job < |s.jobs|
    ensures Local(s, ReleaseStep(s, t, s.threads[t].job), t)
    ensures Refunded(ReleaseStep(s, t, s.threads[t].job).ledger, s.threads[t].job)
  {
    var th := s.threads[t];
    assert HoldsJob(th, th.job);
    Appended(s.ledger, Entry(Refund, s.jobs[th.job].reserved, th.view, Some(th.job)));
  }

  lemma ReleaseIsLocal(s: State, t: nat)
    requires t < |s.threads| && GoodThread(s, t) && OwnLock(s, t) && IsRelease(s.threads[t]) && s.threads[t].job < |s.jobs|
    ensures Local(s, ReleaseStep(s, t, s.threads[t].job), t)
  {
    if s.threads[t].Logged? {
      RefundIsLocal(s, t);
    } else if s.threads[t].Releasing? || s.threads[t].Locked? {
      LockIsLocal(s, t);
    } else {
      ReturnIsLocal(s, t);
    }
  }

  lemma ReleaseKeepsCover(s: State, t: nat)
    requires Threads(s) && AllCovered(s)
    requires t < |s.threads| && IsRelease(s.threads[t]) && s.threads[t].job < |s.jobs|
    ensures AllCovered(ReleaseStep(s, t, s.threads[t].job))
  {
    var j := s.threads[t].job;
    var s' := ReleaseStep(s, t, j);
    assert GoodThread(s, t);
    if s.threads[t].Logged? {
      assert GoodThread(s, t) && OwnLock(s, t);
      RefundIsLocal(s, t);
      Appended(s.ledger, Entry(Refund, s.jobs[j].reserved, s.threads[t].view, Some(j)));
    } else {
      assert Releases(s'.threads[t], j) || s'.jobs[j].reserved == 0 || Refunded(s'.ledger, j);
    }
    CoverKept(s, s', t);
  }

  lemma SetActiveIsLocal(s: State, t: nat, who: Restart)
    requires Threads(s) && t < |s.threads| && IsRestart(s.threads[t]) && s.threads[t].job < |s.jobs|
    ensures Local(s, SetActive(s, t, s.threads[t].job, who), t)
  {
    var j := s.threads[t].job;
    WriteJobIsLocal(s, t, j, s.jobs[j].Restarted(who), Done(Finished, NotDue));
  }

  lemma RestartIsLocal(s: State, t: nat)
    requires Threads(s) && t < |s.threads| && IsRestart(s.threads[t]) && s.threads[t].job < |s.jobs|
    ensures Local(s, RestartStep(s, t, s.threads[t].job), t)
  {
    var th, j := s.threads[t], s.threads[t].job;
    if th.Resuming? {
      SetActiveIsLocal(s, t, ByRetry);
    } else if th.Recomposing? {
      SetActiveIsLocal(s, t, ByRecompose);
    } else if th.Progressing? || (th.Launching? && s.jobs[j].status != Cancelled) {
      SetActiveIsLocal(s, t, ByWorker);
    } else {
      MoveIsLocal(s, t, RestartStep(s, t, j).threads[t]);
    }
  }

  /** Being set active makes no job forget that it has ended. */
  lemma RestartKeepsEnded(s: State, t: nat, j: nat)
    requires t < |s.threads| && IsRestart(s.threads[t]) && j < |s.jobs|
    ensures var s' := RestartStep(s, t, j);
            && |s'.jobs| == |s.jobs|
            && (forall k :: 0 <= k < |s.jobs| ==>
                  s'.jobs[k].reserved == s.jobs[k].reserved && (Ended(s'.jobs[k]) <==> Ended(s.jobs[k])))
            && (s'.threads[t] == Done(Finished, NotDue) ==> s'.jobs[j].status == Active)
  {
  }

  lemma RestartKeepsCover(s: State, t: nat)
    requires Threads(s) && AllCovered(s)
    requires t < |s.threads| && IsRestart(s.threads[t]) && s.threads[t].job < |s.jobs|
    ensures AllCovered(RestartStep(s, t, s.threads[t].job))
  {
    CoverKept(s, RestartStep(s, t, s.threads[t].job), t);
  }

  lemma StatusIsLocal(s: State, t: nat)
    requires Threads(s) && t < |s.threads| && IsStatus(s.threads[t]) && s.threads[t].job < |s.jobs|
    ensures Local(s, StatusStep(s, t, s.threads[t].job), t)
  {
    var th, j := s.threads[t], s.threads[t].job;
    if th.Marking? {
      WriteJobIsLocal(s, t, j, s.jobs[j].Stopped(Cancelled), Done(Finished, NotDue));
    } else if th.Ending? {
      WriteJobIsLocal(s, t, j, s.jobs[j].Stopped(th.status), Releasing(j, OnEnd));
    } else if th.Claiming? && s.jobs[j].status == Active {
      WriteJobIsLocal(s, t, j, s.jobs[j].Stopped(Cancelled), Claimed(j));
    } else {
      MoveIsLocal(s, t, StatusStep(s, t, j).threads[t]);
    }
  }

  lemma StatusKeepsCover(s: State, t: nat)
    requires Threads(s) && AllCovered(s) && AllTold(s)
    requires t < |s.threads| && IsStatus(s.threads[t]) && s.threads[t].job < |s.jobs|
    ensures AllCovered(StatusStep(s, t, s.threads[t].job))
  {
    var th := s.threads[t];
    var s' := StatusStep(s, t, th.job);
    assert GoodThread(s, t);
    if th.Marking? {
      CoverStays(s, s', t, th.job);
    } else if th.Claiming? || th.Claimed? || th.Ending? {
      assert s' == s || s'.threads[t] == Done(Refused, NotDue) || Releases(s'.threads[t], th.job);
    }
    CoverKept(s, s', t);
  }

  predicate IsBill(th: Thread) {
    th.Charging? || th.Charged? || th.Billed?
  }

  lemma BilledIsLocal(s: State, t: nat)
    requires Threads(s) && t < |s.threads| && s.threads[t].Billed?
    ensures Local(s, BillStep(s, t), t)
    ensures forall j: nat :: Refunded(BillStep(s, t).ledger, j) <==> Refunded(s.ledger, j)
  {
    var th := s.threads[t];
    assert GoodThread(s, t);
    NoJobLock(s, t);
    Appended(s.ledger, BillEntry(th.work, th.amount, th.view));
  }

  lemma BillIsLocal(s: State, t: nat)
    requires Threads(s) && t < |s.threads| && IsBill(s.threads[t])
    ensures Local(s, BillStep(s, t), t)
    ensures forall j: nat :: Refunded(BillStep(s, t).ledger, j) <==> Refunded(s.ledger, j)
  {
    var th := s.threads[t];
    assert GoodThread(s, t);
    if th.Billed? {
      BilledIsLocal(s, t);
    } else if th.Charging? {
      TenantIsLocal(s, t, Charged(th.work, th.amount, s.balance + th.amount));
    } else {
      TenantIsLocal(s, t, Billed(th.work, th.amount, th.view));
    }
  }

  lemma BillKeepsCover(s: State, t: nat)
    requires Threads(s) && AllCovered(s) && t < |s.threads| && IsBill(s.threads[t])
    ensures AllCovered(BillStep(s, t))
  {
    BillIsLocal(s, t);
    CoverKept(s, BillStep(s, t), t);
  }

  /** What had been selected and written is let go. */
  lemma RolledBackIsLocal(s: State, t: nat)
    requires Threads(s) && t < |s.threads| && IsRelease(s.threads[t]) && !s.threads[t].Releasing?
    ensures Local(s, FailOne(s, t), t)
  {
    var j := s.threads[t].job;
    assert GoodThread(s, t) && OwnLock(s, t);
    assert HoldsJob(s.threads[t], j) && s.jobs[j].lock == Some(t);
  }

  lemma FailedEarlyIsLocal(s: State, t: nat)
    requires Threads(s) && t < |s.threads| && (s.threads[t].Claimed? || s.threads[t].Releasing?)
    ensures Local(s, FailOne(s, t), t)
  {
    assert GoodThread(s, t);
    assert OwnLock(s, t);
  }

  lemma FailIsLocal(s: State, t: nat)
    requires Threads(s) && t < |s.threads| && !s.threads[t].Done?
    ensures Local(s, FailOne(s, t), t)
  {
    if s.threads[t].Claimed? || s.threads[t].Releasing? {
      FailedEarlyIsLocal(s, t);
    } else if IsRelease(s.threads[t]) {
      RolledBackIsLocal(s, t);
    } else {
      assert GoodThread(s, t);
      NoJobLock(s, t);
    }
  }

  lemma FailKeepsCover(s: State, t: nat)
    requires Threads(s) && AllCovered(s) && t < |s.threads| && !s.threads[t].Done?
    ensures AllCovered(FailOne(s, t))
  {
    assert GoodThread(s, t);
    CoverKept(s, FailOne(s, t), t);
  }

  // ── History ──────────────────────────────────────────────────────────────

  /** What a step may do to the history of jobs: end them, and refund only what its own request gives back. */
  ghost predicate HistoryStep(s: State, s': State, t: nat)
    requires t < |s.threads| && |s.threads| == |s'.threads|
  {
    && !s.threads[t].Done? && |s.jobs| <= |s'.jobs|
    && (forall u :: 0 <= u < |s.threads| && u != t ==> s'.threads[u] == s.threads[u])
    && (forall j :: 0 <= j < |s.jobs| && Ended(s.jobs[j]) ==> Ended(s'.jobs[j]))
    && (AllTold(s) ==> AllTold(s'))
    && (forall j :: 0 <= j < |s'.jobs| && Releases(s'.threads[t], j) ==> Ended(s'.jobs[j]))
    && (forall j :: 0 <= j < |s'.jobs| && Refunded(s'.ledger, j) ==>
          j < |s.jobs| && (Refunded(s.ledger, j) || (Releases(s.threads[t], j) && GaveBack(s'.threads[t], j))))
  }

  lemma HistoryKept(s: State, s': State, t: nat)
    requires t < |s.threads| && |s.threads| == |s'.threads| && HistoryStep(s, s', t)
    requires Threads(s) && AllTold(s) && Untouched(s) && Traced(s)
    ensures AllTold(s') && Untouched(s') && Traced(s')
  {
    forall j | 0 <= j < |s'.jobs| && !Ended(s'.jobs[j])
      ensures !Refunded(s'.ledger, j) && forall u :: 0 <= u < |s'.threads| ==> !Releases(s'.threads[u], j)
    {
      forall u | 0 <= u < |s'.threads| ensures !Releases(s'.threads[u], j) {
        assert GoodThread(s, u);
      }
    }
    forall j | 0 <= j < |s'.jobs| && Refunded(s'.ledger, j)
      ensures exists u :: 0 <= u < |s'.threads| && GaveBack(s'.threads[u], j)
    {
      if Refunded(s.ledger, j) {
        var u :| 0 <= u < |s.threads| && GaveBack(s.threads[u], j);
        assert GaveBack(s'.threads[u], j);
      } else {
        assert GaveBack(s'.threads[t], j);
      }
    }
  }

  lemma ReservedHistory(s: State, t: nat, works: bool)
    requires AllExact(s.ledger, s.jobs) && t < |s.threads| && s.threads[t].Recorded?
    ensures HistoryStep(s, CreateStep(s, t, works), t)
  {
    var th := s.threads[t];
    Appended(s.ledger, Entry(Reserve, -(th.cost as int), Max(0, th.view), Some(|s.jobs|)));
    UnknownJob(s.ledger, s.jobs);
  }

  /** What touches neither jobs nor ledger, and begins no release, leaves the history alone. */
  lemma SameHistory(s: State, s': State, t: nat)
    requires t < |s.threads| && !s.threads[t].Done? && s'.jobs == s.jobs && s'.ledger == s.ledger
    requires |s'.threads| == |s.threads| && s'.threads == s.threads[t := s'.threads[t]]
    requires !Owes(s'.threads[t]) && AllExact(s.ledger, s.jobs)
    ensures HistoryStep(s, s', t)
  {
    forall j | 0 <= j && Refunded(s.ledger, j) ensures j < |s.jobs| {
      var e :| e in s.ledger && RefundOf(e, j);
    }
  }

  lemma EnqueueHistory(s: State, t: nat, works: bool)
    requires Threads(s) && t < |s.threads| && s.threads[t].EnqueueFailed?
    ensures HistoryStep(s, CreateStep(s, t, works), t)
  {
    assert GoodThread(s, t);
  }

  lemma CreateHistory(s: State, t: nat, works: bool)
    requires Threads(s) && AllExact(s.ledger, s.jobs) && t < |s.threads| && IsCreate(s.threads[t])
    ensures HistoryStep(s, CreateStep(s, t, works), t)
  {
    if s.threads[t].Recorded? {
      ReservedHistory(s, t, works);
    } else if s.threads[t].EnqueueFailed? {
      EnqueueHistory(s, t, works);
    } else {
      SameHistory(s, CreateStep(s, t, works), t);
    }
  }

  lemma RefundHistory(s: State, t: nat)
    requires Untouched(s) && t < |s.threads| && s.threads[t].Logged? && s.threads[t].job < |s.jobs|
    ensures HistoryStep(s, ReleaseStep(s, t, s.threads[t].job), t)
  {
    var th := s.threads[t];
    assert Releases(th, th.job);
    Appended(s.ledger, Entry(Refund, s.jobs[th.job].reserved, th.view, Some(th.job)));
  }

  lemma ReleaseHistory(s: State, t: nat)
    requires Untouched(s) && t < |s.threads| && IsRelease(s.threads[t]) && s.threads[t].job < |s.jobs|
    ensures HistoryStep(s, ReleaseStep(s, t, s.threads[t].job), t)
  {
    if s.threads[t].Logged? {
      RefundHistory(s, t);
    } else {
      assert Releases(s.threads[t], s.threads[t].job);
    }
  }

  lemma StatusHistory(s: State, t: nat)
    requires Untouched(s) && t < |s.threads| && IsStatus(s.threads[t]) && s.threads[t].job < |s.jobs|
    requires GoodThread(s, t)
    ensures HistoryStep(s, StatusStep(s, t, s.threads[t].job), t)
  {
    var th := s.threads[t];
    if th.Claimed? {
      assert Releases(th, th.job);
    }
  }

  lemma RestartHistory(s: State, t: nat)
    requires Untouched(s) && t < |s.threads| && IsRestart(s.threads[t]) && s.threads[t].job < |s.jobs|
    ensures HistoryStep(s, RestartStep(s, t, s.threads[t].job), t)
  {
  }

  lemma BillHistory(s: State, t: nat)
    requires t < |s.threads| && IsBill(s.threads[t])
    ensures HistoryStep(s, BillStep(s, t), t)
  {
    var th := s.threads[t];
    if th.Billed? {
      Appended(s.ledger, BillEntry(th.work, th.amount, th.view));
    }
  }

  lemma FailHistory(s: State, t: nat)
    requires t < |s.threads| && !s.threads[t].Done?
    ensures HistoryStep(s, FailOne(s, t), t)
  {
  }

  lemma ArriveHistory(s: State, r: Request)
    requires Untouched(s) && Traced(s)
    ensures Untouched(Step(s, Arrive(r))) && Traced(Step(s, Arrive(r)))
  {
    var s' := Step(s, Arrive(r));
    forall j | 0 <= j < |s.jobs| && Refunded(s.ledger, j)
      ensures exists u :: 0 <= u < |s'.threads| && GaveBack(s'.threads[u], j)
    {
      var u :| 0 <= u < |s.threads| && GaveBack(s.threads[u], j);
      assert GaveBack(s'.threads[u], j);
    }
  }

  lemma OpeningIsIdle(s: State, r: Request)
    ensures Idle(s, Opening(s, r)) && !IsRelease(Opening(s, r))
  {
  }

  lemma ArriveKeepsThreads(s: State, r: Request)
    requires Threads(s)
    ensures Threads(Step(s, Arrive(r)))
  {
    OpeningIsIdle(s, r);
    JoinKeepsThreads(s, Opening(s, r));
  }

  lemma JoinKeepsThreads(s: State, th: Thread)
    requires Threads(s) && Idle(s, th) && !IsRelease(th)
    ensures Threads(s.(threads := s.threads + [th]))
  {
    var s' := s.(threads := s.threads + [th]);
    forall u | 0 <= u < |s'.threads| ensures GoodThread(s', u) {
      if u < |s.threads| {
        assert GoodThread(s, u) && s'.threads[u] == s.threads[u];
      }
    }
  }

  lemma ArriveKeepsCover(s: State, r: Request)
    requires Threads(s) && AllCovered(s)
    ensures AllCovered(Step(s, Arrive(r)))
  {
    var s' := Step(s, Arrive(r));
    forall j | 0 <= j < |s.jobs| && Covered(s, j) ensures Covered(s', j) {
      if u :| 0 <= u < |s.threads| && Releases(s.threads[u], j) {
        assert Releases(s'.threads[u], j);
      }
    }
  }

  lemma OnlyCommitsTouchBooks(s: State, t: nat, works: bool)
    requires t < |s.threads| && !(s.threads[t].Recorded? || s.threads[t].Logged? || s.threads[t].Billed?)
    ensures SameBooks(s, AdvanceOne(s, t, works))
  {
  }

  lemma AdvanceKeepsBooks(s: State, t: nat, works: bool, initial: int)
    requires Books(s, initial) && t < |s.threads| && GoodThread(s, t)
    ensures Books(AdvanceOne(s, t, works), initial)
  {
    if s.threads[t].Recorded? {
      ReserveKeepsBooks(s, t, works, initial);
    } else if s.threads[t].Logged? {
      RefundKeepsBooks(s, t, initial);
    } else if s.threads[t].Billed? {
      BillKeepsBooks(s, t, initial);
    } else {
      OnlyCommitsTouchBooks(s, t, works);
      BooksFrame(s, AdvanceOne(s, t, works), initial);
    }
  }

  lemma AdvanceKeepsInv(s: State, t: nat, works: bool, initial: int)
    requires Inv(s, initial) && t < |s.threads| && !s.threads[t].Done?
    ensures Inv(AdvanceOne(s, t, works), initial)
  {
    assert GoodThread(s, t) && OwnLock(s, t);
    AdvanceKeepsBooks(s, t, works, initial);
    if IsCreate(s.threads[t]) {
      CreateIsLocal(s, t, works);
      CreateKeepsCover(s, t, works);
      CreateHistory(s, t, works);
    } else if IsRelease(s.threads[t]) {
      ReleaseIsLocal(s, t);
      ReleaseKeepsCover(s, t);
      ReleaseHistory(s, t);
    } else if IsStatus(s.threads[t]) {
      StatusIsLocal(s, t);
      StatusKeepsCover(s, t);
      StatusHistory(s, t);
    } else if IsRestart(s.threads[t]) {
      RestartIsLocal(s, t);
      RestartKeepsCover(s, t);
      RestartHistory(s, t);
    } else {
      BillIsLocal(s, t);
      BillKeepsCover(s, t);
      BillHistory(s, t);
    }
    LocalKeepsThreads(s, AdvanceOne(s, t, works), t);
    HistoryKept(s, AdvanceOne(s, t, works), t);
  }

  lemma StepKeepsInv(s: State, e: Event, initial: int)
    requires Inv(s, initial)
    ensures Inv(Step(s, e), initial)
  {
    match e
    case Arrive(r) =>
      ArriveKeepsInv(s, r, initial);
    case Advance(t, works) =>
      if t < |s.threads| && !s.threads[t].Done? {
        AdvanceKeepsInv(s, t, works, initial);
      }
    case Fail(t) =>
      if t < |s.threads| && !s.threads[t].Done? {
        FailKeepsInv(s, t, initial);
      }
  }

  lemma ArriveKeepsInv(s: State, r: Request, initial: int)
    requires Inv(s, initial)
    ensures Inv(Step(s, Arrive(r)), initial)
  {
    BooksFrame(s, Step(s, Arrive(r)), initial);
    ArriveKeepsThreads(s, r);
    ArriveKeepsCover(s, r);
    ArriveHistory(s, r);
  }

  lemma FailKeepsInv(s: State, t: nat, initial: int)
    requires Inv(s, initial) && t < |s.threads| && !s.threads[t].Done?
    ensures Inv(FailOne(s, t), initial)
  {
    BooksFrame(s, FailOne(s, t), initial);
    FailIsLocal(s, t);
    LocalKeepsThreads(s, FailOne(s, t), t);
    FailKeepsCover(s, t);
    FailHistory(s, t);
    HistoryKept(s, FailOne(s, t), t);
  }

  lemma {:induction false} RunKeepsInv(s: State, es: seq<Event>, initial: int)
    requires Inv(s, initial)
    ensures Inv(Run(s, es), initial)
    decreases |es|
  {
    if es != [] {
      StepKeepsInv(s, es[0], initial);
      RunKeepsInv(Step(s, es[0]), es[1..], initial);
    }
  }

  // ── What every run guarantees ────────────────────────────────────────────

  lemma InitiallyGood(balance: nat)
    ensures Inv(Initial(balance), balance)
  {
  }

  /**
   However creates, cancels, failures, retries, charges and errors interleave: the balance is what it was
   plus the ledger, and equally what it was less what was spent and the reserves not yet returned; every
   entry shows the balance it left; and reserves alone never overdraw.
   */
  lemma {:induction false} BooksBalance(balance: nat, es: seq<Event>)
    ensures var s := Run(Initial(balance), es);
            && s.balance == balance + Sum(s.ledger)
            && s.balance == balance - Spent(s.ledger) - Outstanding(s.jobs, s.ledger)
            && s.balance + Taken(s.ledger) >= 0
            && forall k :: 0 <= k < |s.ledger| ==> Shows(s.ledger[k], balance + Sum(s.ledger[..k + 1]))
  {
    InitiallyGood(balance);
    RunKeepsInv(Initial(balance), es, balance);
    assert Books(Run(Initial(balance), es), balance);
  }

  /** A job gets at most one refund, and it is exactly what the job's one reserve took. */
  lemma {:induction false} RefundedAtMostOnce(balance: nat, es: seq<Event>, a: nat, j: nat)
    requires var ledger := Run(Initial(balance), es).ledger;
             a < |ledger| && RefundOf(ledger[a], j)
    ensures var s := Run(Initial(balance), es);
            && j < |s.jobs| && s.ledger[a].amount == s.jobs[j].reserved
            && (forall b :: 0 <= b < |s.ledger| && b != a ==> !RefundOf(s.ledger[b], j))
            && (forall b :: 0 <= b < |s.ledger| && s.ledger[b].kind == Reserve && s.ledger[b].job == Some(j) ==>
                  s.ledger[b].amount == -s.ledger[a].amount)
  {
    RunKeepsInv(Initial(balance), es, balance);
    var s := Run(Initial(balance), es);
    assert s.ledger[a] in s.ledger;
    forall b | 0 <= b < |s.ledger| && s.ledger[b].kind == Reserve && s.ledger[b].job == Some(j)
      ensures s.ledger[b].amount == -s.ledger[a].amount
    {
      assert s.ledger[b] in s.ledger;
    }
  }

  // ── What becomes of each request ─────────────────────────────────────────

  /** The requests in the order of their arrival; each has the thread of the same number. */
  function Requests(es: seq<Event>): seq<Request> {
    if es == [] then []
    else
      var e := es[|es| - 1];
      Requests(es[..|es| - 1]) + if e.Arrive? then [e.request] else []
  }

  /** The ledger has an entry for this amount, about this work or none in particular; a gift is a grant. */
  ghost predicate Entered(s: State, work: Option<nat>, amount: int) {
    exists e :: e in s.ledger && e.amount == amount && e.job == work
                && e.kind == if work.None? && amount >= 0 then Grant else Charge
  }

  /** A create is about one job, whose reserve is the cost asked for. */
  predicate Made(s: State, j: nat, cost: nat) {
    j < |s.jobs| && s.jobs[j].reserved == cost
  }

  predicate Refusal(th: Thread) {
    th.Done? && th.result in {Refused, Threw}
  }

  ghost predicate CreateFits(s: State, cost: nat, th: Thread) {
    match th
    case Reserving(c) => c == cost
    case Short(c) => c == cost
    case Reserved(c, _) => c == cost
    case Recorded(c, _) => c == cost
    case Enqueuing(j) => Made(s, j, cost)
    case EnqueueFailed(j) => Made(s, j, cost)
    case Done(Created(j), _) => Made(s, j, cost)
    case Done(QueueUnavailable(j), _) => Made(s, j, cost)
    case Done(Insufficient(_, c), _) => c == cost
    case Done(r, _) => r == Threw
    case _ => IsRelease(th) && th.cause == NotEnqueued && Made(s, th.job, cost)
  }

  predicate CancelFits(j: nat, th: Thread) {
    || (th.Claiming? && th.job == j)
    || (th.Claimed? && th.job == j)
    || (IsRelease(th) && th.cause == OnCancel && th.job == j)
    || (th.Done? && th.result == CancelDone(j))
    || Refusal(th)
  }

  predicate RestartFits(j: nat, th: Thread) {
    (IsRestart(th) && th.job == j) || (th.Done? && th.result == Finished) || Refusal(th)
  }

  ghost predicate BillFits(s: State, work: Option<nat>, amount: int, th: Thread) {
    || (IsBill(th) && th.work == work && th.amount == amount)
    || (th.Done? && th.result == Finished && Entered(s, work, amount))
    || Refusal(th)
  }

  /** A request does what it asked for, to the job and for the amount it named, whatever else happens. */
  ghost predicate Fits(s: State, r: Request, th: Thread) {
    match r
    case Create(cost) => CreateFits(s, cost, th)
    case Cancel(j) => CancelFits(j, th)
    case AdminCancel(j) =>
      || CancelFits(j, th)
      || ((th.Dismissing? || th.Marking?) && th.job == j) || (th.Done? && th.result == Finished)
    case EndJob(j, failed) =>
      || th == Ending(j, if failed then Failed else Completed)
      || (IsRelease(th) && th.cause == OnEnd && th.job == j)
      || (th.Done? && th.result == Finished) || Refusal(th)
    case Retry(j) => RestartFits(j, th) && (IsRestart(th) ==> th.Retrying? || th.Resuming?)
    case Recompose(j, _) => RestartFits(j, th) && (IsRestart(th) ==> th.Recomposing?)
    case Start(j) => RestartFits(j, th) && (IsRestart(th) ==> th.Starting? || th.Launching?)
    case Progress(j) => RestartFits(j, th) && (IsRestart(th) ==> th.Progressing?)
    case ChargeFor(j, credits) => BillFits(s, Some(j), -(credits as int), th)
    case Adjust(amount) => BillFits(s, None, amount, th)
  }

  ghost predicate AllFit(s: State, rs: seq<Request>) {
    |rs| == |s.threads| && forall t :: 0 <= t < |rs| ==> Fits(s, rs[t], s.threads[t])
  }

  /** Jobs keep their reserves, and entries stay. */
  ghost predicate Grows(s: State, s': State) {
    && |s.jobs| <= |s'.jobs|
    && (forall j :: 0 <= j < |s.jobs| ==> s'.jobs[j].reserved == s.jobs[j].reserved)
    && (forall e :: e in s.ledger ==> e in s'.ledger)
  }

  lemma FitsStays(s: State, s': State, r: Request, th: Thread)
    requires Grows(s, s') && Fits(s, r, th)
    ensures Fits(s', r, th)
  {
  }

  /** The state grows, and of the threads only `t` goes on. */
  ghost predicate GrowsAt(s: State, s': State, t: nat) {
    && Grows(s, s') && |s'.threads| == |s.threads|
    && forall u :: 0 <= u < |s.threads| && u != t ==> s'.threads[u] == s.threads[u]
  }

  lemma CreateGrows(s: State, t: nat, works: bool)
    requires t < |s.threads| && IsCreate(s.threads[t])
    ensures GrowsAt(s, CreateStep(s, t, works), t)
  {
  }

  lemma ReleaseGrows(s: State, t: nat)
    requires t < |s.threads| && IsRelease(s.threads[t]) && s.threads[t].job < |s.jobs|
    ensures GrowsAt(s, ReleaseStep(s, t, s.threads[t].job), t)
  {
  }

  lemma StatusGrows(s: State, t: nat)
    requires t < |s.threads| && IsStatus(s.threads[t]) && s.threads[t].job < |s.jobs|
    ensures GrowsAt(s, StatusStep(s, t, s.threads[t].job), t)
  {
  }

  lemma RestartGrows(s: State, t: nat)
    requires t < |s.threads| && IsRestart(s.threads[t]) && s.threads[t].job < |s.jobs|
    ensures GrowsAt(s, RestartStep(s, t, s.threads[t].job), t)
  {
  }

  lemma BillGrows(s: State, t: nat)
    requires t < |s.threads|
    ensures GrowsAt(s, BillStep(s, t), t)
  {
  }

  lemma AdvanceGrows(s: State, t: nat, works: bool)
    requires t < |s.threads|
    ensures GrowsAt(s, AdvanceOne(s, t, works), t)
  {
    var th := s.threads[t];
    if IsCreate(th) {
      CreateGrows(s, t, works);
    } else if IsRelease(th) && th.job < |s.jobs| {
      ReleaseGrows(s, t);
    } else if IsStatus(th) && th.job < |s.jobs| {
      StatusGrows(s, t);
    } else if IsRestart(th) && th.job < |s.jobs| {
      RestartGrows(s, t);
    } else {
      BillGrows(s, t);
    }
  }

  lemma CreateStaysFit(s: State, t: nat, works: bool, cost: nat)
    requires t < |s.threads| && IsCreate(s.threads[t]) && CreateFits(s, cost, s.threads[t])
    ensures CreateFits(CreateStep(s, t, works), cost, CreateStep(s, t, works).threads[t])
  {
  }

  lemma ReleaseStaysFit(s: State, t: nat, r: Request)
    requires t < |s.threads| && IsRelease(s.threads[t]) && s.threads[t].job < |s.jobs| && Fits(s, r, s.threads[t])
    ensures var s' := ReleaseStep(s, t, s.threads[t].job); Fits(s', r, s'.threads[t])
  {
  }

  lemma StatusStaysFit(s: State, t: nat, r: Request)
    requires t < |s.threads| && IsStatus(s.threads[t]) && s.threads[t].job < |s.jobs| && Fits(s, r, s.threads[t])
    ensures var s' := StatusStep(s, t, s.threads[t].job); Fits(s', r, s'.threads[t])
  {
  }

  lemma RestartStaysFit(s: State, t: nat, r: Request)
    requires t < |s.threads| && IsRestart(s.threads[t]) && s.threads[t].job < |s.jobs| && Fits(s, r, s.threads[t])
    ensures var s' := RestartStep(s, t, s.threads[t].job); Fits(s', r, s'.threads[t])
  {
  }

  lemma BillStaysFit(s: State, t: nat, work: Option<nat>, amount: int)
    requires t < |s.threads| && IsBill(s.threads[t]) && BillFits(s, work, amount, s.threads[t])
    ensures BillFits(BillStep(s, t), work, amount, BillStep(s, t).threads[t])
  {
    var th := s.threads[t];
    if th.Billed? {
      assert BillEntry(work, amount, th.view) in BillStep(s, t).ledger;
    }
  }

  lemma AdvanceStaysFit(s: State, t: nat, works: bool, r: Request)
    requires t < |s.threads| && Fits(s, r, s.threads[t]) && GoodThread(s, t)
    ensures Fits(AdvanceOne(s, t, works), r, AdvanceOne(s, t, works).threads[t])
  {
    var th := s.threads[t];
    if IsCreate(th) {
      CreateStaysFit(s, t, works, r.cost);
    } else if IsRelease(th) {
      ReleaseStaysFit(s, t, r);
    } else if IsStatus(th) {
      StatusStaysFit(s, t, r);
    } else if IsRestart(th) {
      RestartStaysFit(s, t, r);
    } else if IsBill(th) {
      if r.ChargeFor? {
        BillStaysFit(s, t, Some(r.job), -(r.credits as int));
      } else {
        BillStaysFit(s, t, None, r.amount);
      }
    }
  }

  lemma FailStaysFit(s: State, t: nat, r: Request)
    requires t < |s.threads| && Fits(s, r, s.threads[t]) && GoodThread(s, t)
    ensures Fits(FailOne(s, t), r, FailOne(s, t).threads[t])
    ensures Grows(s, FailOne(s, t))
    ensures |FailOne(s, t).threads| == |s.threads|
    ensures forall u :: 0 <= u < |s.threads| && u != t ==> FailOne(s, t).threads[u] == s.threads[u]
  {
  }

  lemma OpeningFits(s: State, r: Request)
    ensures Fits(s, r, Opening(s, r))
  {
  }

  lemma AdvanceKeepsFit(s: State, rs: seq<Request>, t: nat, works: bool)
    requires AllFit(s, rs) && t < |s.threads| && GoodThread(s, t)
    ensures AllFit(AdvanceOne(s, t, works), rs)
  {
    var s' := AdvanceOne(s, t, works);
    AdvanceGrows(s, t, works);
    AdvanceStaysFit(s, t, works, rs[t]);
    forall u | 0 <= u < |rs| && u != t ensures Fits(s', rs[u], s'.threads[u]) {
      FitsStays(s, s', rs[u], s.threads[u]);
    }
  }

  lemma FailKeepsFit(s: State, rs: seq<Request>, t: nat)
    requires AllFit(s, rs) && t < |s.threads| && GoodThread(s, t)
    ensures AllFit(FailOne(s, t), rs)
  {
    var s' := FailOne(s, t);
    FailStaysFit(s, t, rs[t]);
    forall u | 0 <= u < |rs| && u != t ensures Fits(s', rs[u], s'.threads[u]) {
      FitsStays(s, s', rs[u], s.threads[u]);
    }
  }

  lemma ArriveKeepsFit(s: State, rs: seq<Request>, r: Request)
    requires AllFit(s, rs)
    ensures AllFit(Step(s, Arrive(r)), rs + [r])
  {
    var s' := Step(s, Arrive(r));
    OpeningFits(s, r);
    FitsStays(s, s', r, Opening(s, r));
    forall u | 0 <= u < |rs| ensures Fits(s', rs[u], s'.threads[u]) {
      FitsStays(s, s', rs[u], s.threads[u]);
    }
  }

  /** In every run, every request is where its own words can have brought it. */
  lemma {:induction false} RequestsAreServed(balance: nat, es: seq<Event>)
    ensures AllFit(Run(Initial(balance), es), Requests(es))
  {
    if es != [] {
      var n := |es| - 1;
      var s, e, rs := Run(Initial(balance), es[..n]), es[n], Requests(es[..n]);
      RequestsAreServed(balance, es[..n]);
      InitiallyGood(balance);
      RunKeepsInv(Initial(balance), es[..n], balance);
      RunMore(Initial(balance), es[..n], e);
      assert es == es[..n] + [e];
      assert rs + [] == rs;
      match e
      case Arrive(r) => ArriveKeepsFit(s, rs, r);
      case Advance(t, works) =>
        if t < |s.threads| {
          assert GoodThread(s, t);
          AdvanceKeepsFit(s, rs, t, works);
        }
      case Fail(t) =>
        if t < |s.threads| {
          assert GoodThread(s, t);
          FailKeepsFit(s, rs, t);
        }
    }
  }

  /** A job that was created costs what was asked for; a charge or a grant that was answered is on the ledger as asked. */
  lemma AnswersMatchRequests(balance: nat, es: seq<Event>, t: nat)
    requires t < |Run(Initial(balance), es).threads| && Run(Initial(balance), es).threads[t].Done?
    ensures |Requests(es)| == |Run(Initial(balance), es).threads|
    ensures var s, r := Run(Initial(balance), es), Requests(es)[t];
            var result := s.threads[t].result;
            && (result.Created? ==> r.Create? && Made(s, result.job, r.cost))
            && (result.QueueUnavailable? ==> r.Create? && Made(s, result.job, r.cost))
            && (result.Insufficient? ==> r == Create(result.required))
            && (result.CancelDone? ==> r in {Cancel(result.job), AdminCancel(result.job)})
            && (result == Finished && r.ChargeFor? ==> Entered(s, Some(r.job), -(r.credits as int)))
            && (result == Finished && r.Adjust? ==> Entered(s, None, r.amount))
  {
    RequestsAreServed(balance, es);
    assert Fits(Run(Initial(balance), es), Requests(es)[t], Run(Initial(balance), es).threads[t]);
  }

  predicate TooShort(th: Thread, cost: nat) {
    th == Short(cost) || (th.Done? && th.result.Insufficient? && th.result.required == cost)
  }

  lemma CreateFindsTooLittle(s: State, t: nat, works: bool, cost: nat)
    requires t < |s.threads| && IsCreate(s.threads[t]) && TooShort(CreateStep(s, t, works).threads[t], cost)
    ensures TooShort(s.threads[t], cost) || (s.threads[t] == Reserving(cost) && s.balance < cost)
  {
  }

  lemma ReleaseIsNotShort(s: State, t: nat, cost: nat)
    requires t < |s.threads| && IsRelease(s.threads[t]) && s.threads[t].job < |s.jobs|
    ensures !TooShort(ReleaseStep(s, t, s.threads[t].job).threads[t], cost)
  {
  }

  lemma StatusIsNotShort(s: State, t: nat, cost: nat)
    requires t < |s.threads| && IsStatus(s.threads[t]) && s.threads[t].job < |s.jobs|
    ensures !TooShort(StatusStep(s, t, s.threads[t].job).threads[t], cost)
  {
  }

  lemma RestartIsNotShort(s: State, t: nat, cost: nat)
    requires t < |s.threads| && IsRestart(s.threads[t]) && s.threads[t].job < |s.jobs|
    ensures !TooShort(RestartStep(s, t, s.threads[t].job).threads[t], cost)
  {
  }

  lemma BillIsNotShort(s: State, t: nat, cost: nat)
    requires t < |s.threads| && TooShort(BillStep(s, t).threads[t], cost)
    ensures TooShort(s.threads[t], cost)
  {
  }

  lemma AdvanceFindsTooLittle(s: State, t: nat, works: bool, cost: nat)
    requires t < |s.threads| && TooShort(AdvanceOne(s, t, works).threads[t], cost)
    ensures TooShort(s.threads[t], cost) || (s.threads[t] == Reserving(cost) && s.balance < cost)
  {
    var th := s.threads[t];
    if IsCreate(th) {
      CreateFindsTooLittle(s, t, works, cost);
    } else if IsRelease(th) && th.job < |s.jobs| {
      ReleaseIsNotShort(s, t, cost);
    } else if IsStatus(th) && th.job < |s.jobs| {
      StatusIsNotShort(s, t, cost);
    } else if IsRestart(th) && th.job < |s.jobs| {
      RestartIsNotShort(s, t, cost);
    } else {
      BillIsNotShort(s, t, cost);
    }
  }

  lemma FailFindsTooLittle(s: State, e: Event, t: nat, cost: nat)
    requires !e.Advance? && t < |Step(s, e).threads| && TooShort(Step(s, e).threads[t], cost)
    ensures t < |s.threads| && TooShort(s.threads[t], cost)
  {
  }

  /** A request that is short now was short before, or finds too little right now. */
  lemma ShortFindsTooLittle(s: State, e: Event, t: nat, cost: nat)
    requires t < |Step(s, e).threads| && TooShort(Step(s, e).threads[t], cost)
    ensures t < |s.threads| && (TooShort(s.threads[t], cost) || (s.threads[t] == Reserving(cost) && s.balance < cost))
  {
    if !e.Advance? {
      FailFindsTooLittle(s, e, t, cost);
    } else if e.t < |s.threads| {
      AdvanceGrows(s, e.t, e.works);
      if e.t == t {
        AdvanceFindsTooLittle(s, t, e.works, cost);
      }
    }
  }

  /** Whoever is told that the credits do not suffice: at some moment of the run they did not. */
  lemma {:induction false} InsufficientMeansLow(balance: nat, es: seq<Event>, t: nat, cost: nat) returns (k: nat)
    requires t < |Run(Initial(balance), es).threads| && TooShort(Run(Initial(balance), es).threads[t], cost)
    ensures k <= |es| && Run(Initial(balance), es[..k]).balance < cost
    ensures t < |Run(Initial(balance), es[..k]).threads| && Run(Initial(balance), es[..k]).threads[t] == Reserving(cost)
  {
    assert es != [];
    var n := |es| - 1;
    var s := Run(Initial(balance), es[..n]);
    RunMore(Initial(balance), es[..n], es[n]);
    assert es == es[..n] + [es[n]];
    ShortFindsTooLittle(s, es[n], t, cost);
    if TooShort(s.threads[t], cost) {
      k := InsufficientMeansLow(balance, es[..n], t, cost);
      assert es[..n][..k] == es[..k];
    } else {
      k := n;
    }
  }

  ghost predicate NoErrors(es: seq<Event>) {
    forall k :: 0 <= k < |es| ==> !es[k].Fail?
  }

  ghost predicate NoneDropped(s: State) {
    forall j :: 0 <= j < |s.jobs| ==> !s.jobs[j].dropped
  }

  lemma AdvanceDropsNone(s: State, t: nat, works: bool)
    requires NoneDropped(s) && t < |s.threads|
    ensures NoneDropped(AdvanceOne(s, t, works))
  {
  }

  lemma {:induction false} WithoutErrorsNoneDropped(s: State, es: seq<Event>)
    requires NoErrors(es) && NoneDropped(s)
    ensures NoneDropped(Run(s, es))
    decreases |es|
  {
    if es != [] {
      assert !es[0].Fail?;
      if es[0].Advance? && es[0].t < |s.threads| {
        AdvanceDropsNone(s, es[0].t, es[0].works);
      }
      WithoutErrorsNoneDropped(Step(s, es[0]), es[1..]);
    }
  }

  /** Nothing is on its way. */
  ghost predicate Quiet(s: State) {
    forall t :: 0 <= t < |s.threads| ==> s.threads[t].Done?
  }

  /**
   Once all requests are answered, without errors: a job's reserve is back if and only if the job has
   stopped at least once or its failed enqueue could not be noted. So an active job runs without its
   reserve exactly if a retry, a recompose or a worker of the pipeline set it active after it had stopped, or
   if marking it failed after a failed enqueue did not work.
   */
  lemma ReserveIsBackIff(balance: nat, es: seq<Event>, j: nat)
    requires NoErrors(es) && Quiet(Run(Initial(balance), es))
    requires j < |Run(Initial(balance), es).jobs| && Run(Initial(balance), es).jobs[j].reserved > 0
    ensures var s := Run(Initial(balance), es);
            && (Refunded(s.ledger, j) <==> Ended(s.jobs[j]))
            && (s.jobs[j].status == Active ==>
                  (Refunded(s.ledger, j) <==> s.jobs[j].restarts != {} || s.jobs[j].unmarked))
  {
    RunKeepsInv(Initial(balance), es, balance);
    WithoutErrorsNoneDropped(Initial(balance), es);
    var s := Run(Initial(balance), es);
    if Ended(s.jobs[j]) {
      assert Covered(s, j);
      forall t | 0 <= t < |s.threads| ensures !Releases(s.threads[t], j) {
        assert s.threads[t].Done?;
      }
    }
  }

  /**
   After a create answered "queue unavailable", or a cancel that succeeded, the reserve is back if and only
   if the release of this request, or of another one for the same job, went through. A failed release is
   only logged, and the answer is the same.
   */
  lemma AnswersMeanRefundIff(balance: nat, es: seq<Event>, t: nat, j: nat)
    requires var s := Run(Initial(balance), es);
             && t < |s.threads| && s.threads[t].Done?
             && s.threads[t].result in {QueueUnavailable(j), CancelDone(j)}
    ensures var s := Run(Initial(balance), es);
            && j < |s.jobs| && s.threads[t].release in {Back(j), FailedFor(j)}
            && (s.jobs[j].reserved > 0 ==>
                  (Refunded(s.ledger, j) <==> exists u :: 0 <= u < |s.threads| && GaveBack(s.threads[u], j)))
            && (s.jobs[j].reserved > 0 && (forall u :: 0 <= u < |s.threads| && u != t ==> !GaveBack(s.threads[u], j)) ==>
                  (Refunded(s.ledger, j) <==> s.threads[t].release != FailedFor(j)))
  {
    RunKeepsInv(Initial(balance), es, balance);
    var s := Run(Initial(balance), es);
    assert GoodThread(s, t);
    forall u | 0 <= u < |s.threads| && GaveBack(s.threads[u], j) && s.jobs[j].reserved > 0 ensures Refunded(s.ledger, j) {
      assert GoodThread(s, u);
    }
    if s.threads[t].release == Back(j) {
      assert GaveBack(s.threads[t], j);
    }
  }

  // ── Runs in which a reserve stays away, or is gone ───────────────────────

  lemma {:induction false} RunMore(s: State, es: seq<Event>, e: Event)
    ensures Run(s, es + [e]) == Step(Run(s, es), e)
    ensures NoErrors(es) && !e.Fail? ==> NoErrors(es + [e])
    decreases |es|
  {
    if es == [] {
      assert [] + [e] == [e] && [e][1..] == [];
    } else {
      assert (es + [e])[1..] == es[1..] + [e];
      assert NoErrors(es) ==> NoErrors(es[1..]);
      RunMore(Step(s, es[0]), es[1..], e);
    }
  }

  /** The balance 100 and the state after some events. */
  ghost predicate Reaches(es: seq<Event>, s: State) {
    Run(Initial(100), es) == s
  }

  lemma Then(es: seq<Event>, s: State, e: Event) returns (more: seq<Event>)
    requires Reaches(es, s)
    ensures Reaches(more, Step(s, e)) && (NoErrors(es) && !e.Fail? ==> NoErrors(more))
  {
    RunMore(Initial(100), es, e);
    more := es + [e];
  }

  const RESERVED := Entry(Reserve, -40, 60, Some(0))

  /** A create that takes 40 of the 100 credits, up to its enqueue. */
  lemma CreatedRun() returns (es: seq<Event>)
    ensures NoErrors(es) && Reaches(es, State(60, None, [NewJob(40)], [RESERVED], [Enqueuing(0)]))
  {
    es := [];
    es := Then(es, Initial(100), Arrive(Create(40)));
    es := Then(es, State(100, None, [], [], [Reserving(40)]), Advance(0, true));
    es := Then(es, State(100, Some(0), [], [], [Reserved(40, 60)]), Advance(0, true));
    es := Then(es, State(100, Some(0), [], [], [Recorded(40, 60)]), Advance(0, true));
  }

  /** The enqueue fails, then the release: the answer is "queue unavailable", and the credits are gone. */
  lemma UnavailableWithoutRefund() returns (es: seq<Event>)
    ensures var s := Run(Initial(100), es);
            && s.threads == [Done(QueueUnavailable(0), FailedFor(0))]
            && s.jobs == [NewJob(40).Stopped(Failed).(dropped := true)] && s.balance == 60 && !Refunded(s.ledger, 0)
  {
    es := CreatedRun();
    es := Then(es, State(60, None, [NewJob(40)], [RESERVED], [Enqueuing(0)]), Advance(0, false));
    es := Then(es, State(60, None, [NewJob(40)], [RESERVED], [EnqueueFailed(0)]), Advance(0, true));
    es := Then(es, State(60, None, [NewJob(40).Stopped(Failed)], [RESERVED], [Releasing(0, NotEnqueued)]), Fail(0));
  }

  /** The job is created and claimed by a cancel, which is about to release its reserve. */
  lemma ClaimedRun() returns (es: seq<Event>)
    ensures NoErrors(es)
    ensures Reaches(es, State(60, None, [NewJob(40).Stopped(Cancelled)], [RESERVED],
                              [Done(Created(0), NotDue), Releasing(0, OnCancel)]))
  {
    var created := Done(Created(0), NotDue);
    es := CreatedRun();
    es := Then(es, State(60, None, [NewJob(40)], [RESERVED], [Enqueuing(0)]), Advance(0, true));
    es := Then(es, State(60, None, [NewJob(40)], [RESERVED], [created]), Arrive(Cancel(0)));
    es := Then(es, State(60, None, [NewJob(40)], [RESERVED], [created, Claiming(0)]), Advance(1, true));
    var cancelled := NewJob(40).Stopped(Cancelled);
    es := Then(es, State(60, None, [cancelled], [RESERVED], [created, Claimed(0)]), Advance(1, true));
  }

  const REFUND := Entry(Refund, 40, 100, Some(0))

  /** The cancel gives the reserve back and answers. */
  lemma CancelledRun() returns (es: seq<Event>)
    ensures NoErrors(es)
    ensures Reaches(es, State(100, None, [NewJob(40).Stopped(Cancelled)], [RESERVED, REFUND],
                              [Done(Created(0), NotDue), Done(CancelDone(0), Back(0))]))
  {
    es := ClaimedRun();
    var c, job, locked := Done(Created(0), NotDue), NewJob(40).Stopped(Cancelled),
                          NewJob(40).Stopped(Cancelled).(lock := Some(1));
    es := Then(es, State(60, None, [job], [RESERVED], [c, Releasing(0, OnCancel)]), Advance(1, true));
    es := Then(es, State(60, None, [locked], [RESERVED], [c, Locked(0, OnCancel)]), Advance(1, true));
    es := Then(es, State(60, None, [locked], [RESERVED], [c, Unmarked(0, OnCancel)]), Advance(1, true));
    es := Then(es, State(60, Some(1), [locked], [RESERVED], [c, Returned(0, OnCancel, 100)]), Advance(1, true));
    es := Then(es, State(60, Some(1), [locked], [RESERVED], [c, Logged(0, OnCancel, 100)]), Advance(1, true));
  }

  /** After a cancel, a retry makes the job active again; its reserve stays with the tenant. */
  lemma RetriedWithoutReserve() returns (es: seq<Event>)
    ensures NoErrors(es) && Quiet(Run(Initial(100), es))
    ensures var s := Run(Initial(100), es);
            && s.jobs == [NewJob(40).Stopped(Cancelled).Restarted(ByRetry)] && s.balance == 100 && Refunded(s.ledger, 0)
  {
    es := CancelledRun();
    var c, d, job := Done(Created(0), NotDue), Done(CancelDone(0), Back(0)), NewJob(40).Stopped(Cancelled);
    var ledger := [RESERVED, REFUND];
    es := Then(es, State(100, None, [job], ledger, [c, d]), Arrive(Retry(0)));
    es := Then(es, State(100, None, [job], ledger, [c, d, Retrying(0)]), Advance(2, true));
    es := Then(es, State(100, None, [job], ledger, [c, d, Resuming(0)]), Advance(2, true));
    assert RefundOf(ledger[1], 0);
  }

  /** If the release of that cancel fails, the answer is the same, and after a retry the reserve is still taken. */
  lemma RetriedWithLostReserve() returns (es: seq<Event>)
    ensures Quiet(Run(Initial(100), es))
    ensures var s := Run(Initial(100), es);
            && |s.threads| == 3 && s.threads[1] == Done(CancelDone(0), FailedFor(0))
            && s.jobs == [NewJob(40).Stopped(Cancelled).Restarted(ByRetry).(dropped := true)] && s.balance == 60 && !Refunded(s.ledger, 0)
  {
    es := ClaimedRun();
    var c, job := Done(Created(0), NotDue), NewJob(40).Stopped(Cancelled);
    es := Then(es, State(60, None, [job], [RESERVED], [c, Releasing(0, OnCancel)]), Fail(1));
    var lost, d := job.(dropped := true), Done(CancelDone(0), FailedFor(0));
    es := Then(es, State(60, None, [lost], [RESERVED], [c, d]), Arrive(Retry(0)));
    es := Then(es, State(60, None, [lost], [RESERVED], [c, d, Retrying(0)]), Advance(2, true));
    es := Then(es, State(60, None, [lost], [RESERVED], [c, d, Resuming(0)]), Advance(2, true));
  }

  /**
   A worker of the pipeline writes its progress without looking at the status: cancelled and repaid, the job
   is active again, without any retry.
   */
  lemma RevivedWithoutReserve() returns (es: seq<Event>)
    ensures NoErrors(es) && Quiet(Run(Initial(100), es))
    ensures var s := Run(Initial(100), es);
            && s.jobs == [NewJob(40).Stopped(Cancelled).Restarted(ByWorker)] && s.balance == 100 && Refunded(s.ledger, 0)
  {
    es := CancelledRun();
    var c, d, job := Done(Created(0), NotDue), Done(CancelDone(0), Back(0)), NewJob(40).Stopped(Cancelled);
    var ledger := [RESERVED, REFUND];
    es := Then(es, State(100, None, [job], ledger, [c, d]), Arrive(Progress(0)));
    es := Then(es, State(100, None, [job], ledger, [c, d, Progressing(0)]), Advance(2, true));
    assert RefundOf(ledger[1], 0);
  }

  /** The job is created and completed, and about to be settled. */
  lemma CompletedRun() returns (es: seq<Event>)
    ensures NoErrors(es)
    ensures Reaches(es, State(60, None, [NewJob(40).Stopped(Completed)], [RESERVED],
                              [Done(Created(0), NotDue), Releasing(0, OnEnd)]))
  {
    es := CreatedRun();
    var c := Done(Created(0), NotDue);
    es := Then(es, State(60, None, [NewJob(40)], [RESERVED], [Enqueuing(0)]), Advance(0, true));
    es := Then(es, State(60, None, [NewJob(40)], [RESERVED], [c]), Arrive(EndJob(0, false)));
    es := Then(es, State(60, None, [NewJob(40)], [RESERVED], [c, Ending(0, Completed)]), Advance(1, true));
  }

  lemma SettledRun() returns (es: seq<Event>)
    ensures NoErrors(es)
    ensures Reaches(es, State(100, None, [NewJob(40).Stopped(Completed)], [RESERVED, REFUND],
                              [Done(Created(0), NotDue), Done(Finished, Back(0))]))
  {
    es := CompletedRun();
    var c, job, locked := Done(Created(0), NotDue), NewJob(40).Stopped(Completed),
                          NewJob(40).Stopped(Completed).(lock := Some(1));
    es := Then(es, State(60, None, [job], [RESERVED], [c, Releasing(0, OnEnd)]), Advance(1, true));
    es := Then(es, State(60, None, [locked], [RESERVED], [c, Locked(0, OnEnd)]), Advance(1, true));
    es := Then(es, State(60, None, [locked], [RESERVED], [c, Unmarked(0, OnEnd)]), Advance(1, true));
    es := Then(es, State(60, Some(1), [locked], [RESERVED], [c, Returned(0, OnEnd, 100)]), Advance(1, true));
    es := Then(es, State(60, Some(1), [locked], [RESERVED], [c, Logged(0, OnEnd, 100)]), Advance(1, true));
  }

  /** An administrator's recompose does not look at the status either: a completed and settled job is active again. */
  lemma RecomposedWithoutReserve() returns (es: seq<Event>)
    ensures NoErrors(es) && Quiet(Run(Initial(100), es))
    ensures var s := Run(Initial(100), es);
            && s.jobs == [NewJob(40).Stopped(Completed).Restarted(ByRecompose)] && s.balance == 100 && Refunded(s.ledger, 0)
  {
    es := SettledRun();
    var c, d, job := Done(Created(0), NotDue), Done(Finished, Back(0)), NewJob(40).Stopped(Completed);
    var ledger := [RESERVED, REFUND];
    es := Then(es, State(100, None, [job], ledger, [c, d]), Arrive(Recompose(0, true)));
    es := Then(es, State(100, None, [job], ledger, [c, d, Recomposing(0)]), Advance(2, true));
    assert RefundOf(ledger[1], 0);
  }

  /** Without any restart: marking the job failed does not work, its refund does, and it stays active. */
  lemma UnmarkedWithoutReserve() returns (es: seq<Event>)
    ensures NoErrors(es) && Quiet(Run(Initial(100), es))
    ensures var s := Run(Initial(100), es);
            && s.jobs == [NewJob(40).(unmarked := true)] && s.balance == 100 && Refunded(s.ledger, 0)
  {
    es := CreatedRun();
    var job, locked := NewJob(40).(unmarked := true), NewJob(40).(unmarked := true, lock := Some(0));
    es := Then(es, State(60, None, [NewJob(40)], [RESERVED], [Enqueuing(0)]), Advance(0, false));
    es := Then(es, State(60, None, [NewJob(40)], [RESERVED], [EnqueueFailed(0)]), Advance(0, false));
    es := Then(es, State(60, None, [job], [RESERVED], [Releasing(0, NotEnqueued)]), Advance(0, true));
    es := Then(es, State(60, None, [locked], [RESERVED], [Locked(0, NotEnqueued)]), Advance(0, true));
    es := Then(es, State(60, None, [locked], [RESERVED], [Unmarked(0, NotEnqueued)]), Advance(0, true));
    es := Then(es, State(60, Some(0), [locked], [RESERVED], [Returned(0, NotEnqueued, 100)]), Advance(0, true));
    es := Then(es, State(60, Some(0), [locked], [RESERVED], [Logged(0, NotEnqueued, 100)]), Advance(0, true));
    assert RefundOf([RESERVED, REFUND][1], 0);
  }

  // ── The rows ─────────────────────────────────────────────────────────────

  /** The rows of one tenant and the requests in progress; each method is one statement. */
  class Database {
    ghost const initial: int
    var credits: int
    var tenantLock: Option<nat>
    var jobs: seq<Job>
    var creditTransactions: seq<Entry>
    var requests: seq<Thread>

    function Model(): State
      reads this
    {
      State(credits, tenantLock, jobs, creditTransactions, requests)
    }

    /** Locks are held by who uses them, ended jobs are covered, and the books balance. */
    ghost predicate Valid()
      reads this
    {
      Inv(Model(), initial)
    }

    constructor (credits: nat)
      ensures Valid() && initial == credits && Model() == Initial(credits)
    {
      initial, this.credits, tenantLock := credits, credits, None;
      jobs, creditTransactions, requests := [], [], [];
    }

    // The statements, each changing exactly the rows it names.

    method WriteCreate(t: nat, works: bool)
      requires t < |requests| && IsCreate(requests[t])
      modifies this
      ensures Model() == CreateStep(old(Model()), t, works)
    {
      match requests[t]
      case Reserving(cost) =>
        if credits < cost {
          requests := requests[t := Short(cost)];
        } else if tenantLock.None? {
          tenantLock := Some(t);
          requests := requests[t := Reserved(cost, credits - cost)];
        }
      case Short(cost) => requests := requests[t := Done(Insufficient(credits, cost), NotDue)];
      case Reserved(cost, view) => requests := requests[t := Recorded(cost, view)];
      case Recorded(cost, view) =>
        var job := |jobs|;
        jobs := jobs + [NewJob(cost)];
        creditTransactions := creditTransactions + [Entry(Reserve, -(cost as int), Max(0, view), Some(job))];
        credits, tenantLock := view, None;
        requests := requests[t := Enqueuing(job)];
      case Enqueuing(j) => requests := requests[t := if works then Done(Created(j), NotDue) else EnqueueFailed(j)];
      case EnqueueFailed(j) =>
        if j < |jobs| {
          if works {
            MarkJob(t, j, Failed, Releasing(j, NotEnqueued));
          } else {
            jobs := jobs[j := jobs[j].(unmarked := true)];
            requests := requests[t := Releasing(j, NotEnqueued)];
          }
        }
    }

    method MarkJob(t: nat, j: nat, status: Status, next: Thread)
      requires t < |requests| && j < |jobs|
      modifies this`jobs, this`requests
      ensures Model() == SetStatus(old(Model()), t, j, status, next)
    {
      if jobs[j].lock.None? {
        jobs := jobs[j := jobs[j].Stopped(status)];
        requests := requests[t := next];
      }
    }

    method MarkActive(t: nat, j: nat, who: Restart)
      requires t < |requests| && j < |jobs|
      modifies this`jobs, this`requests
      ensures Model() == SetActive(old(Model()), t, j, who)
    {
      if jobs[j].lock.None? {
        jobs := jobs[j := jobs[j].Restarted(who)];
        requests := requests[t := Done(Finished, NotDue)];
      }
    }

    /** Looks for the refund marker of a job. */
    method FindRefund(j: nat) returns (found: bool)
      ensures found <==> Refunded(creditTransactions, j)
    {
      var i := 0;
      while i < |creditTransactions|
        invariant i <= |creditTransactions|
        invariant forall k :: 0 <= k < i ==> !RefundOf(creditTransactions[k], j)
      {
        if creditTransactions[i].kind == Refund && creditTransactions[i].job == Some(j) {
          assert RefundOf(creditTransactions[i], j);
          return true;
        }
        i := i + 1;
      }
      found := false;
    }

    method WriteRelease(t: nat, j: nat)
      requires t < |requests| && IsRelease(requests[t]) && j < |jobs|
      modifies this
      ensures Model() == ReleaseStep(old(Model()), t, j)
    {
      match requests[t]
      case Releasing(_, cause) =>
        if jobs[j].reserved == 0 {
          requests := requests[t := Done(Outcome(j, cause), Back(j))];
        } else if jobs[j].lock.None? {
          jobs := jobs[j := jobs[j].(lock := Some(t))];
          requests := requests[t := Locked(j, cause)];
        }
      case Locked(_, cause) =>
        var already := FindRefund(j);
        if already {
          jobs := jobs[j := jobs[j].(lock := None)];
          requests := requests[t := Done(Outcome(j, cause), Back(j))];
        } else {
          requests := requests[t := Unmarked(j, cause)];
        }
      case Unmarked(_, cause) =>
        if tenantLock.None? {
          tenantLock := Some(t);
          requests := requests[t := Returned(j, cause, credits + jobs[j].reserved)];
        }
      case Returned(_, cause, view) => requests := requests[t := Logged(j, cause, view)];
      case Logged(_, cause, view) =>
        creditTransactions := creditTransactions + [Entry(Refund, jobs[j].reserved, view, Some(j))];
        jobs := jobs[j := jobs[j].(lock := None)];
        credits, tenantLock := view, None;
        requests := requests[t := Done(Outcome(j, cause), Back(j))];
    }

    method WriteStatus(t: nat, j: nat)
      requires t < |requests| && IsStatus(requests[t]) && j < |jobs|
      modifies this`jobs, this`requests
      ensures Model() == StatusStep(old(Model()), t, j)
    {
      var status := jobs[j].status;
      match requests[t]
      case Dismissing(_) =>
        requests := requests[t := if status == Active then Claiming(j)
                                  else if status == Failed then Marking(j)
                                  else Done(Refused, NotDue)];
      case Claiming(_) =>
        if status == Active {
          MarkJob(t, j, Cancelled, Claimed(j));
        } else {
          requests := requests[t := Done(Refused, NotDue)];
        }
      case Claimed(_) => requests := requests[t := Releasing(j, OnCancel)];
      case Marking(_) => MarkJob(t, j, Cancelled, Done(Finished, NotDue));
      case Ending(_, ended) => MarkJob(t, j, ended, Releasing(j, OnEnd));
    }

    method WriteRestart(t: nat, j: nat)
      requires t < |requests| && IsRestart(requests[t]) && j < |jobs|
      modifies this`jobs, this`requests
      ensures Model() == RestartStep(old(Model()), t, j)
    {
      var status := jobs[j].status;
      match requests[t]
      case Retrying(_) =>
        requests := requests[t := if status == Failed || status == Cancelled then Resuming(j) else Done(Refused, NotDue)];
      case Resuming(_) => MarkActive(t, j, ByRetry);
      case Recomposing(_) => MarkActive(t, j, ByRecompose);
      case Starting(_) => requests := requests[t := if status == Cancelled then Done(Refused, NotDue) else Launching(j)];
      case Launching(_) =>
        if status == Cancelled {
          requests := requests[t := Done(Refused, NotDue)];
        } else {
          MarkActive(t, j, ByWorker);
        }
      case Progressing(_) => MarkActive(t, j, ByWorker);
    }

    method WriteBill(t: nat)
      requires t < |requests| && IsBill(requests[t])
      modifies this`credits, this`tenantLock, this`creditTransactions, this`requests
      ensures Model() == BillStep(old(Model()), t)
    {
      match requests[t]
      case Charging(work, amount) =>
        if tenantLock.None? {
          tenantLock := Some(t);
          requests := requests[t := Charged(work, amount, credits + amount)];
        }
      case Charged(work, amount, view) => requests := requests[t := Billed(work, amount, view)];
      case Billed(work, amount, view) =>
        creditTransactions := creditTransactions + [BillEntry(work, amount, view)];
        credits, tenantLock := view, None;
        requests := requests[t := Done(Finished, NotDue)];
    }

    method RollBack(t: nat)
      requires t < |requests|
      modifies this`tenantLock, this`jobs, this`requests
      ensures Model() == FailOne(old(Model()), t)
    {
      var request := requests[t];
      if request.Done? { return; }
      if tenantLock == Some(t) {
        tenantLock := None;
      }
      if Owes(request) && request.job < |jobs| {
        var job := jobs[request.job];
        jobs := jobs[request.job := job.(lock := if job.lock == Some(t) then None else job.lock, dropped := true)];
        requests := requests[t := Done(if request.Claimed? then Threw else Outcome(request.job, request.cause),
                                       FailedFor(request.job))];
      } else {
        requests := requests[t := Done(Threw, NotDue)];
      }
    }

    // What they keep, and what a caller may rely on.

    /** One statement of a create: either a job appears together with its paid reserve, or no money moves. */
    method CreateVideoJob(t: nat, works: bool)
      requires Valid() && t < |requests| && IsCreate(requests[t])
      modifies this
      ensures Valid() && Model() == CreateStep(old(Model()), t, works)
      ensures old(requests[t]).Reserving? ==>
                && (requests[t].Short? <==> old(credits) < old(requests[t].cost))
                && (requests[t].Reserved? <==> old(credits) >= old(requests[t].cost) && old(tenantLock).None?)
      ensures if |jobs| == old(|jobs|) then credits == old(credits) && creditTransactions == old(creditTransactions)
              else && |jobs| == old(|jobs|) + 1 && !Ended(jobs[old(|jobs|)])
                   && 0 <= credits == old(credits) - jobs[old(|jobs|)].reserved
                   && Outstanding(jobs, creditTransactions)
                      == old(Outstanding(jobs, creditTransactions)) + jobs[old(|jobs|)].reserved
    {
      assert GoodThread(Model(), t);
      AdvanceKeepsInv(Model(), t, works, initial);
      CreateMovesMoney(Model(), t, works, initial);
      WriteCreate(t, works);
    }

    /**
     One statement of a release: the tenant gets the reserve together with the one refund entry of the job,
     or no money moves; and it is over only when the reserve is back.
     */
    method ReleaseJobReserve(t: nat, j: nat)
      requires Valid() && t < |requests| && IsRelease(requests[t]) && requests[t].job == j < |jobs|
      modifies this
      ensures Valid() && Model() == ReleaseStep(old(Model()), t, j)
      ensures credits == old(credits)
                         + if Refunded(creditTransactions, j) && !old(Refunded(creditTransactions, j))
                           then old(jobs[j].reserved) else 0
      ensures AtMostOneRefund(creditTransactions, j) && ShownRight(initial, creditTransactions)
      ensures requests[t].Done? ==> old(jobs[j].reserved) == 0 || Refunded(creditTransactions, j)
    {
      assert GoodThread(Model(), t);
      AdvanceKeepsInv(Model(), t, true, initial);
      ReleaseMovesMoney(Model(), t);
      WriteRelease(t, j);
      BooksRefundOnce(Model(), initial, j);
    }

    /** The claim of a cancel: it waits for an active job's row, and is refused if the job is not active. */
    method CancelJobAndRelease(t: nat, j: nat)
      requires Valid() && t < |requests| && requests[t] == Claiming(j) && j < |jobs|
      modifies this`jobs, this`requests
      ensures Valid() && Model() == StatusStep(old(Model()), t, j)
      ensures requests[t] == Claimed(j) <==> old(jobs[j].lock.None? && jobs[j].status == Active)
      ensures requests[t] == Claimed(j) ==> jobs[j].status == Cancelled
      ensures old(jobs[j].status) != Active <==> requests[t] == Done(Refused, NotDue)
      ensures requests[t].Done? ==> jobs == old(jobs)
    {
      AdvanceKeepsInv(Model(), t, true, initial);
      WriteStatus(t, j);
    }

    /**
     The administrator's cancel, and the orchestrator ending a job: no reserve changes, and every job that has
     ended is repaid, was given up after an error, or is being released.
     */
    method ChangeStatus(t: nat, j: nat)
      requires Valid() && t < |requests| && IsStatus(requests[t]) && requests[t].job == j < |jobs|
      modifies this`jobs, this`requests
      ensures Valid() && Model() == StatusStep(old(Model()), t, j)
      ensures |jobs| == old(|jobs|) && forall k :: 0 <= k < |jobs| ==> jobs[k].reserved == old(jobs[k].reserved)
      ensures forall k :: 0 <= k < |jobs| && Ended(jobs[k]) ==> Covered(Model(), k)
    {
      AdvanceKeepsInv(Model(), t, true, initial);
      WriteStatus(t, j);
    }

    /**
     Whoever sets a job active again: no reserve is taken for it, no job forgets that it has ended, and the
     reserve of one that has is repaid, was given up after an error, or is being released.
     */
    method RestartJob(t: nat, j: nat)
      requires Valid() && t < |requests| && IsRestart(requests[t]) && requests[t].job == j < |jobs|
      modifies this`jobs, this`requests
      ensures Valid() && Model() == RestartStep(old(Model()), t, j)
      ensures |jobs| == old(|jobs|) && forall k :: 0 <= k < |jobs| ==>
                jobs[k].reserved == old(jobs[k].reserved) && (Ended(jobs[k]) <==> old(Ended(jobs[k])))
      ensures requests[t] == Done(Finished, NotDue) ==> jobs[j].status == Active && (Ended(jobs[j]) ==> Covered(Model(), j))
    {
      AdvanceKeepsInv(Model(), t, true, initial);
      RestartKeepsEnded(Model(), t, j);
      WriteRestart(t, j);
    }

    /** One statement of a charge or a grant: balance and ledger change together, by the amount asked for. */
    method ChargeCredits(t: nat)
      requires Valid() && t < |requests| && IsBill(requests[t])
      modifies this`credits, this`tenantLock, this`creditTransactions, this`requests
      ensures Valid() && Model() == BillStep(old(Model()), t)
      ensures credits == old(credits) + if requests[t].Done? then old(requests[t].amount) else 0
      ensures Sum(creditTransactions) - old(Sum(creditTransactions)) == credits - old(credits)
      ensures Outstanding(jobs, creditTransactions) == old(Outstanding(jobs, creditTransactions))
    {
      assert GoodThread(Model(), t);
      AdvanceKeepsInv(Model(), t, true, initial);
      BillMovesMoney(Model(), t);
      WriteBill(t);
    }

    /** An error in a request: no money moves, and what it had locked is free again. */
    method Abort(t: nat)
      requires Valid() && t < |requests|
      modifies this`tenantLock, this`jobs, this`requests
      ensures Valid() && Model() == FailOne(old(Model()), t)
      ensures requests[t].Done? && tenantLock != Some(t)
      ensures forall k :: 0 <= k < |jobs| ==> jobs[k].lock != Some(t)
    {
      StepKeepsInv(Model(), Fail(t), initial);
      RollBack(t);
      assert GoodThread(Model(), t);
      NoJobLock(Model(), t);
    }

    /** Serves one event, whatever it is: locks, books and coverage stay right. */
    method Serve(e: Event)
      requires Valid()
      modifies this
      ensures Valid() && Model() == Step(old(Model()), e)
      ensures credits == initial + Sum(creditTransactions)
      ensures credits == initial - Spent(creditTransactions) - Outstanding(jobs, creditTransactions)
    {
      StepKeepsInv(Model(), e, initial);
      match e
      case Arrive(r) => requests := requests + [Opening(Model(), r)];
      case Fail(t) => if t < |requests| { RollBack(t); }
      case Advance(t, works) =>
        if t < |requests| {
          var th := requests[t];
          assert GoodThread(Model(), t);
          if IsCreate(th) {
            WriteCreate(t, works);
          } else if IsRelease(th) {
            WriteRelease(t, th.job);
          } else if IsStatus(th) {
            WriteStatus(t, th.job);
          } else if IsRestart(th) {
            WriteRestart(t, th.job);
          } else if IsBill(th) {
            WriteBill(t);
          }
        }
    }
  }
}
