/**
 The in-memory job queue and its worker (queue/queue.go) as a state machine: a dispatcher,
 the popping loop of Work, and the goroutines that process jobs take steps in any order.
 */
module JobQueue {
  import Backoff
  import opened GoTypes

  /** A job; `at` is the time from which it may be handed out. */
  datatype Job = Job(id: nat, name: string, attempts: nat, maxTries: int, at: int)

  /** What the popping loop is doing. */
  datatype Popper = Popping | Waiting(job: Job) | Holding(job: Job) | Stopped

  /** A goroutine inside process; `called` once its handler has been called. */
  datatype Worker = Worker(job: Job, called: bool)

  datatype Pool = Pool(
    now: int, size: nat, slots: nat, defaultTries: nat, handlers: set<string>, cancelled: bool,
    channel: seq<Job>, popper: Popper, workers: seq<Worker>,
    succeeded: seq<Job>, failed: seq<Job>,
    unhandled: seq<Job>, refused: seq<Job>, dropped: seq<Job>,
    accepted: seq<nat>, calls: map<nat, nat>)

  /** How many tries a job gets. */
  function Tries(p: Pool, j: Job): int { TriesOf(p.defaultTries, j) }

  datatype Exit = Retry | Refuse | Fail

  /** Where a job goes when its handler fails. */
  function AfterFailure(p: Pool, j: Job): Exit {
    if j.attempts < Tries(p, j) then (if |p.channel| < p.size then Retry else Refuse) else Fail
  }

  datatype Action =
    | Tick(d: nat)
    | Dispatch(name: string, id: nat, maxTries: int, delay: int)
    | Register(name: string)
    | Cancel
    | Take
    | Due
    | DropWaiting
    | Stop
    | Spawn
    | Call(i: nat)
    | NoHandler(i: nat)
    | Succeed(i: nat)
    | Error(i: nat)

  function Without<T>(s: seq<T>, i: nat): seq<T>
    requires i < |s|
  {
    s[..i] + s[i + 1..]
  }

  predicate Enabled(p: Pool, a: Action) {
    match a
    case Tick(_) => true
    case Dispatch(_, id, _, _) => id !in p.accepted && |p.channel| < p.size
    case Register(_) => true
    case Cancel => true
    case Take => p.popper.Popping? && p.channel != []
    case Due => p.popper.Waiting? && p.popper.job.at <= p.now
    case DropWaiting => p.popper.Waiting? && p.cancelled
    case Stop => p.popper.Popping? && p.cancelled
    case Spawn => p.popper.Holding? && |p.workers| < p.slots
    case Call(i) => i < |p.workers| && !p.workers[i].called && p.workers[i].job.name in p.handlers
    case NoHandler(i) => i < |p.workers| && !p.workers[i].called && p.workers[i].job.name !in p.handlers
    case Succeed(i) => i < |p.workers| && p.workers[i].called
    case Error(i) => i < |p.workers| && p.workers[i].called
  }

  /** The effect of a step; a step that is not enabled does nothing. In particular a
      dispatch to a full channel is turned away and the job is not accepted. */
  function Step(p: Pool, a: Action): Pool {
    if !Enabled(p, a) then p
    else match a
      case Tick(d) => p.(now := p.now + d)
      case Dispatch(name, id, maxTries, delay) =>
        p.(channel := p.channel + [Job(id, name, 0, maxTries, p.now + delay)], accepted := p.accepted + [id], calls := p.calls[id := 0])
      case Register(name) => p.(handlers := p.handlers + {name})
      case Cancel => p.(cancelled := true)
      case Take => p.(channel := p.channel[1..], popper := Waiting(p.channel[0]))
      case Due => p.(popper := Holding(p.popper.job))
      case DropWaiting => p.(popper := Stopped, dropped := p.dropped + [p.popper.job])
      case Stop => p.(popper := Stopped)
      case Spawn => p.(popper := Popping, workers := p.workers + [Worker(p.popper.job, false)])
      case Call(i) => Called(p, i)
      case NoHandler(i) => p.(workers := Without(p.workers, i), unhandled := p.unhandled + [p.workers[i].job])
      case Succeed(i) => p.(workers := Without(p.workers, i), succeeded := p.succeeded + [p.workers[i].job])
      case Error(i) => Settled(p, i)
  }

  function Called(p: Pool, i: nat): Pool
    requires i < |p.workers|
  {
    var j := p.workers[i].job;
    p.(workers := p.workers[i := Worker(j.(attempts := j.attempts + 1), true)],
       calls := p.calls[j.id := (if j.id in p.calls then p.calls[j.id] else 0) + 1])
  }

  /** A job put back after a failure: it waits for the backoff of its attempts. */
  function Delayed(p: Pool, j: Job): Job { j.(at := p.now + Backoff.Delay(j.attempts)) }

  function Settled(p: Pool, i: nat): Pool
    requires i < |p.workers|
  {
    var j, q := p.workers[i].job, p.(workers := Without(p.workers, i));
    match AfterFailure(p, j)
    case Retry => q.(channel := p.channel + [Delayed(p, j)])
    case Refuse => q.(refused := p.refused + [j])
    case Fail => q.(failed := p.failed + [j])
  }

  function Run(p: Pool, actions: seq<Action>): Pool {
    if actions == [] then p else Step(Run(p, actions[..|actions| - 1]), actions[|actions| - 1])
  }

  /** A new pool: SetMaxTries and SetConcurrency keep both numbers positive. */
  ghost predicate Initial(p: Pool) {
    && p.slots >= 1 && p.defaultTries >= 1 && p.popper.Popping?
    && p.channel == [] && p.workers == [] && p.succeeded == [] && p.failed == []
    && p.unhandled == [] && p.refused == [] && p.dropped == [] && p.accepted == [] && p.calls == map[]
  }

  // ------------------------------------------------------------ every job is in exactly one place

  function Count(js: seq<Job>, id: nat): nat {
    if js == [] then 0 else (if js[0].id == id then 1 else 0) + Count(js[1..], id)
  }

  function CountWorkers(ws: seq<Worker>, id: nat): nat {
    if ws == [] then 0 else (if ws[0].job.id == id then 1 else 0) + CountWorkers(ws[1..], id)
  }

  function CountPopper(q: Popper, id: nat): nat {
    if (q.Waiting? || q.Holding?) && q.job.id == id then 1 else 0
  }

  /** In how many places a job is: channel, hands, and the ways out. */
  function Places(p: Pool, id: nat): nat {
    Count(p.channel, id) + CountPopper(p.popper, id) + CountWorkers(p.workers, id)
      + Count(p.succeeded, id) + Count(p.failed, id) + Count(p.unhandled, id) + Count(p.refused, id) + Count(p.dropped, id)
  }

  lemma {:induction false} CountAppend(js: seq<Job>, j: Job, id: nat)
    ensures Count(js + [j], id) == Count(js, id) + if j.id == id then 1 else 0
  {
    if js == [] {
      assert [] + [j] == [j] && [j][1..] == [];
    } else {
      assert (js + [j])[0] == js[0] && (js + [j])[1..] == js[1..] + [j];
      CountAppend(js[1..], j, id);
    }
  }

  lemma {:induction false} CountWorkersAppend(ws: seq<Worker>, w: Worker, id: nat)
    ensures CountWorkers(ws + [w], id) == CountWorkers(ws, id) + if w.job.id == id then 1 else 0
  {
    if ws == [] {
      assert [] + [w] == [w] && [w][1..] == [];
    } else {
      assert (ws + [w])[0] == ws[0] && (ws + [w])[1..] == ws[1..] + [w];
      CountWorkersAppend(ws[1..], w, id);
    }
  }

  lemma {:induction false} CountWithout(ws: seq<Worker>, i: nat, id: nat)
    requires i < |ws|
    ensures CountWorkers(Without(ws, i), id) + (if ws[i].job.id == id then 1 else 0) == CountWorkers(ws, id)
  {
    if i == 0 {
      assert Without(ws, 0) == ws[1..];
    } else {
      CountWithout(ws[1..], i - 1, id);
      assert Without(ws, i)[0] == ws[0] && Without(ws, i)[1..] == Without(ws[1..], i - 1);
    }
  }

  lemma {:induction false} CountReplace(ws: seq<Worker>, i: nat, w: Worker, id: nat)
    requires i < |ws| && w.job.id == ws[i].job.id
    ensures CountWorkers(ws[i := w], id) == CountWorkers(ws, id)
  {
    if i == 0 {
      assert ws[i := w][1..] == ws[1..];
    } else {
      CountReplace(ws[1..], i - 1, w, id);
      assert ws[i := w][0] == ws[0] && ws[i := w][1..] == ws[1..][i - 1 := w];
    }
  }

  /** Steps of the goroutines neither lose nor duplicate a job. */
  lemma WorkerConserves(p: Pool, a: Action, id: nat)
    requires (a.Call? || a.NoHandler? || a.Succeed?) && Enabled(p, a)
    ensures Places(Step(p, a), id) == Places(p, id)
  {
    var j := p.workers[a.i].job;
    CountWithout(p.workers, a.i, id);
    if a.Call? { CountReplace(p.workers, a.i, Called(p, a.i).workers[a.i], id); }
    if a.NoHandler? { CountAppend(p.unhandled, j, id); }
    if a.Succeed? { CountAppend(p.succeeded, j, id); }
  }

  lemma SettledConserves(p: Pool, i: nat, id: nat)
    requires i < |p.workers|
    ensures Places(Settled(p, i), id) == Places(p, id) && Settled(p, i).accepted == p.accepted
  {
    var j := p.workers[i].job;
    CountWithout(p.workers, i, id);
    match AfterFailure(p, j)
    case Retry => CountAppend(p.channel, Delayed(p, j), id);
    case Refuse => CountAppend(p.refused, j, id);
    case Fail => CountAppend(p.failed, j, id);
  }

  /** Nor do the dispatcher and the popping loop; a dispatch adds one. */
  lemma PopperConserves(p: Pool, a: Action, id: nat)
    requires a.Dispatch? || a.Take? || a.Due? || a.DropWaiting? || a.Spawn?
    requires Enabled(p, a)
    ensures Places(Step(p, a), id) == Places(p, id) + if a.Dispatch? && a.id == id then 1 else 0
  {
    if a.Dispatch? { CountAppend(p.channel, Job(a.id, a.name, 0, a.maxTries, p.now + a.delay), id); }
    if a.DropWaiting? { CountAppend(p.dropped, p.popper.job, id); }
    if a.Spawn? { CountWorkersAppend(p.workers, Worker(p.popper.job, false), id); }
  }

  /** Being in one place exactly if accepted. */
  predicate Placed(p: Pool, id: nat) { Places(p, id) == if id in p.accepted then 1 else 0 }

  lemma StepPlaced(p: Pool, a: Action, id: nat)
    requires Placed(p, id)
    ensures Placed(Step(p, a), id)
  {
    if Enabled(p, a) {
      match a
      case Error(i) => SettledConserves(p, i, id);
      case Register(_) =>
      case Cancel =>
      case Stop =>
      case Tick(_) =>
      case Call(_) => WorkerConserves(p, a, id);
      case NoHandler(_) => WorkerConserves(p, a, id);
      case Succeed(_) => WorkerConserves(p, a, id);
      case _ => PopperConserves(p, a, id);
    }
  }

  /** Over every run each accepted job is in exactly one place, and no other job anywhere. */
  lemma {:induction false} EachJobInOnePlace(p: Pool, actions: seq<Action>, id: nat)
    requires Initial(p)
    ensures Placed(Run(p, actions), id)
    decreases |actions|
  {
    if actions != [] {
      var init, a := actions[..|actions| - 1], actions[|actions| - 1];
      EachJobInOnePlace(p, init, id);
      StepPlaced(Run(p, init), a, id);
    }
  }

  // ------------------------------------------------------------ how often handlers run

  function CallsOf(calls: map<nat, nat>, id: nat): nat { if id in calls then calls[id] else 0 }

  function TriesOf(tries: nat, j: Job): int { if j.maxTries <= 0 then tries else j.maxTries }

  /** The attempts recorded in the job are the calls of its handler. While the job is
      pending it has tries left; once its handler has run it has not exceeded them. */
  predicate Counted(calls: map<nat, nat>, tries: nat, j: Job, called: bool) {
    && CallsOf(calls, j.id) == j.attempts
    && (if called then 1 <= j.attempts <= TriesOf(tries, j) else j.attempts < TriesOf(tries, j))
  }

  ghost predicate CountedAll(calls: map<nat, nat>, tries: nat, js: seq<Job>, called: bool) {
    forall i :: 0 <= i < |js| ==> Counted(calls, tries, js[i], called)
  }

  ghost predicate CountedWorkers(calls: map<nat, nat>, tries: nat, ws: seq<Worker>) {
    forall i :: 0 <= i < |ws| ==> Counted(calls, tries, ws[i].job, ws[i].called)
  }

  ghost predicate Spent(tries: nat, js: seq<Job>) {
    forall i :: 0 <= i < |js| ==> js[i].attempts == TriesOf(tries, js[i])
  }

  ghost predicate Accounted(p: Pool) {
    && p.defaultTries >= 1 && |p.workers| <= p.slots
    && CountedAll(p.calls, p.defaultTries, p.channel, false)
    && CountedAll(p.calls, p.defaultTries, p.unhandled, false)
    && CountedAll(p.calls, p.defaultTries, p.refused, false)
    && CountedAll(p.calls, p.defaultTries, p.dropped, false)
    && CountedAll(p.calls, p.defaultTries, p.succeeded, true)
    && CountedAll(p.calls, p.defaultTries, p.failed, true) && Spent(p.defaultTries, p.failed)
    && (p.popper.Waiting? || p.popper.Holding? ==> Counted(p.calls, p.defaultTries, p.popper.job, false))
    && CountedWorkers(p.calls, p.defaultTries, p.workers)
    && (forall id :: id in p.calls ==> id in p.accepted)
  }

  ghost predicate Unique(p: Pool) {
    forall id :: Placed(p, id)
  }

  lemma {:induction false} CountPositive(js: seq<Job>, k: nat)
    requires k < |js|
    ensures Count(js, js[k].id) >= 1
  {
    if k > 0 { CountPositive(js[1..], k - 1); }
  }

  lemma {:induction false} CountWorkersPositive(ws: seq<Worker>, k: nat)
    requires k < |ws|
    ensures CountWorkers(ws, ws[k].job.id) >= 1
  {
    if k > 0 { CountWorkersPositive(ws[1..], k - 1); }
  }

  /** Counting a call of one job leaves the accounts of jobs with other ids alone. */
  lemma CallElsewhere(p: Pool, js: seq<Job>, called: bool, id: nat, n: nat)
    requires CountedAll(p.calls, p.defaultTries, js, called) && Count(js, id) == 0
    ensures CountedAll(p.calls[id := n], p.defaultTries, js, called)
  {
    forall k | 0 <= k < |js| ensures Counted(p.calls[id := n], p.defaultTries, js[k], called) {
      CountPositive(js, k);
    }
  }

  lemma CallAccounted(p: Pool, i: nat)
    requires Accounted(p) && Unique(p) && Enabled(p, Call(i))
    ensures Accounted(Called(p, i))
  {
    var j, q := p.workers[i].job, Called(p, i);
    var n := CallsOf(p.calls, j.id) + 1;
    CountWorkersPositive(p.workers, i);
    assert Placed(p, j.id);
    CallElsewhere(p, p.channel, false, j.id, n);
    CallElsewhere(p, p.unhandled, false, j.id, n);
    CallElsewhere(p, p.refused, false, j.id, n);
    CallElsewhere(p, p.dropped, false, j.id, n);
    CallElsewhere(p, p.succeeded, true, j.id, n);
    CallElsewhere(p, p.failed, true, j.id, n);
    CallOtherWorkers(p, i, n);
  }

  lemma CallOtherWorkers(p: Pool, i: nat, n: nat)
    requires i < |p.workers| && CountedWorkers(p.calls, p.defaultTries, p.workers) && !p.workers[i].called
    requires CountWorkers(p.workers, p.workers[i].job.id) == 1 && n == CallsOf(p.calls, p.workers[i].job.id) + 1
    ensures CountedWorkers(p.calls[p.workers[i].job.id := n], p.defaultTries, Called(p, i).workers)
  {
    var j, ws := p.workers[i].job, Called(p, i).workers;
    CountWithout(p.workers, i, j.id);
    forall k | 0 <= k < |ws| ensures Counted(p.calls[j.id := n], p.defaultTries, ws[k].job, ws[k].called) {
      if k != i {
        var w := Without(p.workers, i);
        var k' := if k < i then k else k - 1;
        assert w[k'] == p.workers[k];
        CountWorkersPositive(w, k');
      }
    }
  }

  lemma ErrorAccounted(p: Pool, i: nat)
    requires Accounted(p) && Enabled(p, Error(i))
    ensures Accounted(Settled(p, i))
  {
    var j := p.workers[i].job;
    assert Counted(p.calls, p.defaultTries, j, true);
  }

  lemma StepAccounted(p: Pool, a: Action)
    requires Accounted(p) && Unique(p)
    ensures Accounted(Step(p, a))
  {
    if Enabled(p, a) {
      match a
      case Dispatch(_, _, _, _) => DispatchAccounted(p, a);
      case Call(i) => CallAccounted(p, i);
      case Error(i) => ErrorAccounted(p, i);
      case NoHandler(i) => WorkerLeaves(p, a, i);
      case Succeed(i) => WorkerLeaves(p, a, i);
      case _ => PopperAccounted(p, a);
    }
  }

  lemma WorkerLeaves(p: Pool, a: Action, i: nat)
    requires Accounted(p) && Enabled(p, a) && (a == NoHandler(i) || a == Succeed(i))
    ensures Accounted(Step(p, a))
  {
    assert Counted(p.calls, p.defaultTries, p.workers[i].job, a.Succeed?);
  }

  /** The popper's steps and the clock's hand jobs on as they are. */
  lemma PopperAccounted(p: Pool, a: Action)
    requires Accounted(p) && Enabled(p, a) && !(a.Dispatch? || a.Call? || a.Error? || a.NoHandler? || a.Succeed?)
    ensures Accounted(Step(p, a))
  {
    if a.Take? { assert Counted(p.calls, p.defaultTries, p.channel[0], false); }
  }

  lemma DispatchAccounted(p: Pool, a: Action)
    requires Accounted(p) && Unique(p) && a.Dispatch? && Enabled(p, a)
    ensures Accounted(Step(p, a))
  {
    assert Placed(p, a.id);
    CallElsewhere(p, p.channel, false, a.id, 0);
    CallElsewhere(p, p.unhandled, false, a.id, 0);
    CallElsewhere(p, p.refused, false, a.id, 0);
    CallElsewhere(p, p.dropped, false, a.id, 0);
    CallElsewhere(p, p.succeeded, true, a.id, 0);
    CallElsewhere(p, p.failed, true, a.id, 0);
    forall k | 0 <= k < |p.workers| ensures p.workers[k].job.id != a.id { CountWorkersPositive(p.workers, k); }
  }

  lemma {:induction false} RunAccounted(p: Pool, actions: seq<Action>)
    requires Initial(p)
    ensures Accounted(Run(p, actions)) && Unique(Run(p, actions))
    decreases |actions|
  {
    forall id ensures Placed(Run(p, actions), id) {
      EachJobInOnePlace(p, actions, id);
    }
    if actions != [] {
      RunAccounted(p, actions[..|actions| - 1]);
      StepAccounted(Run(p, actions[..|actions| - 1]), actions[|actions| - 1]);
    }
  }

  /** Over every run at most `slots` handlers run at once; a job's handler has been called
      as often as its attempts say, never more often than its tries allow, and exactly
      that often if it ends in the failed list. */
  lemma TriesAreRespected(p: Pool, actions: seq<Action>)
    requires Initial(p)
    ensures
      var q := Run(p, actions);
      && |q.workers| <= q.slots
      && (forall i :: 0 <= i < |q.failed| ==> CallsOf(q.calls, q.failed[i].id) == Tries(q, q.failed[i]))
      && (forall i :: 0 <= i < |q.succeeded| ==> 1 <= CallsOf(q.calls, q.succeeded[i].id) <= Tries(q, q.succeeded[i]))
      && (forall i :: 0 <= i < |q.workers| ==> CallsOf(q.calls, q.workers[i].job.id) <= Tries(q, q.workers[i].job))
      && (forall i :: 0 <= i < |q.channel| ==> CallsOf(q.calls, q.channel[i].id) < Tries(q, q.channel[i]))
      && (forall i :: 0 <= i < |q.refused| ==> CallsOf(q.calls, q.refused[i].id) < Tries(q, q.refused[i]))
  {
    RunAccounted(p, actions);
  }

  // ------------------------------------------------------------ nothing is handed out early

  /** Whatever has been handed out had come due. */
  ghost predicate OnTime(p: Pool) {
    && (p.popper.Holding? ==> p.popper.job.at <= p.now)
    && (forall i :: 0 <= i < |p.workers| ==> p.workers[i].job.at <= p.now)
  }

  /** Over every run no job is handed to a worker before its recorded time. */
  lemma {:induction false} NothingEarly(p: Pool, actions: seq<Action>)
    requires Initial(p)
    ensures OnTime(Run(p, actions))
    decreases |actions|
  {
    if actions != [] {
      NothingEarly(p, actions[..|actions| - 1]);
      StepOnTime(Run(p, actions[..|actions| - 1]), actions[|actions| - 1]);
    }
  }

  lemma StepOnTime(p: Pool, a: Action)
    requires OnTime(p)
    ensures OnTime(Step(p, a))
  {
    if Enabled(p, a) {
      match a
      case Error(i) => SettledOnTime(p, i);
      case Call(i) => assert p.workers[i].job.at <= p.now;
      case _ =>
    }
  }

  lemma SettledOnTime(p: Pool, i: nat)
    requires OnTime(p) && i < |p.workers|
    ensures OnTime(Settled(p, i))
  {
    var ws := Without(p.workers, i);
    assert forall k :: 0 <= k < |ws| ==> ws[k] == p.workers[if k < i then k else k + 1];
  }

  /** The recorded time of a retry is its backoff after the failure: with at most 35 tries it is
      between one and thirty seconds later. */
  lemma RetryWaits(p: Pool, i: nat)
    requires Accounted(p) && Enabled(p, Error(i)) && p.workers[i].job.attempts < Tries(p, p.workers[i].job) && |p.channel| < p.size
    ensures
      var j, q := p.workers[i].job, Step(p, Error(i));
      && q.channel == p.channel + [j.(at := p.now + Backoff.Delay(j.attempts))]
      && (Tries(p, j) <= 35 ==> p.now + SECOND <= q.channel[|p.channel|].at <= p.now + 30 * SECOND)
  {
    var j := p.workers[i].job;
    assert Counted(p.calls, p.defaultTries, j, p.workers[i].called);
    if Tries(p, j) <= 35 { Backoff.DelayExact(j.attempts); }
  }

  // ------------------------------------------------------------ the code

  class Memory {
    const size: nat
    var channel: seq<Job>
    var failed: seq<Job>

    constructor (size: int)
      ensures this.size == (if size <= 0 then 64 else size) && channel == [] && failed == []
    {
      this.size := if size <= 0 then 64 else size;
      channel, failed := [], [];
    }

    /** Pushes a job that may be handed out after a delay. */
    method Push(job: Job, delay: int, now: int) returns (ok: bool)
      modifies this`channel
      ensures ok <==> |old(channel)| < size
      ensures channel == if ok then old(channel) + [job.(at := now + delay)] else old(channel)
    {
      ok := |channel| < size;
      if ok { channel := channel + [job.(at := now + delay)]; }
    }

    method AddFailed(job: Job)
      modifies this`failed
      ensures failed == old(failed) + [job]
    {
      failed := failed + [job];
    }

    /** process, for a job in the hands of worker i: what it does to the queue is what the
        steps of that worker do. `hasHandler` and `handlerOk` are the outside world. */
    method Process(job: Job, maxTries: nat, now: int, hasHandler: bool, handlerOk: bool, ghost p: Pool, ghost i: nat)
      requires p.now == now && p.size == size && p.channel == channel && p.failed == failed && p.defaultTries == maxTries
      requires i < |p.workers| && p.workers[i] == Worker(job, false) && (hasHandler <==> job.name in p.handlers)
      modifies this`channel, this`failed
      ensures
        var q := if !hasHandler then Step(p, NoHandler(i))
                 else Step(Step(p, Call(i)), if handlerOk then Succeed(i) else Error(i));
        channel == q.channel && failed == q.failed
    {
      if !hasHandler { return; }
      var j := job.(attempts := job.attempts + 1);
      ghost var called := Step(p, Call(i));
      assert called.workers[i] == Worker(j, true);
      if handlerOk { return; }
      var max := j.maxTries;
      if max <= 0 { max := maxTries; }
      if j.attempts < max {
        var _ := Push(j, Backoff.Delay(j.attempts), now);
        return;
      }
      AddFailed(j);
    }
  }
}
