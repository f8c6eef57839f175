/**
 Where jobs go (queue/queue.go): what becomes of a job when its handler fails, why a job is out of
 the queue, and in which order jobs are handed out.
 */
module JobEffects {
  import Backoff
  import opened JobQueue

  /** The worker is gone, and nothing else has changed but the places of its job. */
  ghost predicate Leaves(p: Pool, q: Pool, i: nat)
    requires i < |p.workers|
  {
    && q.workers == p.workers[..i] + p.workers[i + 1..]
    && q.popper == p.popper && q.accepted == p.accepted && q.calls == p.calls && q.now == p.now && q.handlers == p.handlers
  }

  /** What a call that failed does: the job goes to the end of the channel, due after its backoff, if it
      has tries left and there is room; it is refused if it has tries left and there is no room; it
      is in the failed list if it has none. */
  lemma FailedCall(p: Pool, i: nat)
    requires i < |p.workers| && p.workers[i].called
    ensures
      var q, j := Step(p, Error(i)), p.workers[i].job;
      var triesLeft := j.attempts < if j.maxTries > 0 then j.maxTries else p.defaultTries;
      var room := |p.channel| < p.size;
      && Leaves(p, q, i)
      && q.channel == p.channel + (if triesLeft && room then [j.(at := p.now + Backoff.Delay(j.attempts))] else [])
      && q.refused == p.refused + (if triesLeft && !room then [j] else [])
      && q.failed == p.failed + (if triesLeft then [] else [j])
      && q.succeeded == p.succeeded && q.unhandled == p.unhandled && q.dropped == p.dropped
  {
  }

  /** A job without a handler is not called and not kept. */
  lemma UnhandledJob(p: Pool, i: nat)
    requires i < |p.workers| && !p.workers[i].called && p.workers[i].job.name !in p.handlers
    ensures
      var q := Step(p, NoHandler(i));
      && Leaves(p, q, i) && q.unhandled == p.unhandled + [p.workers[i].job] && q.channel == p.channel
      && q.refused == p.refused && q.failed == p.failed && q.succeeded == p.succeeded && q.dropped == p.dropped
      && Step(p, Call(i)) == p
  {
  }

  /** A worker whose job finds no handler is called once one is registered. */
  lemma RegisteredIsCalled(p: Pool, i: nat, j: Job)
    requires i < |p.workers| && p.workers[i] == Worker(j, false)
    ensures
      var q := Step(Step(p, Register(j.name)), Call(i));
      i < |q.workers| && q.workers[i] == Worker(j.(attempts := j.attempts + 1), true)
  {
    var r := Step(p, Register(j.name));
    assert r.workers == p.workers && j.name in r.handlers;
  }

  /** A cancelled loop stops, and a job it was waiting for is dropped. */
  lemma CancelledStops(p: Pool)
    requires p.popper.Popping? || p.popper.Waiting?
    ensures
      var q := Step(Step(p, Cancel), if p.popper.Popping? then Stop else DropWaiting);
      && q.popper.Stopped? && q.channel == p.channel && q.workers == p.workers
      && q.dropped == p.dropped + if p.popper.Waiting? then [p.popper.job] else []
  {
    assert Step(p, Cancel) == p.(cancelled := true);
  }

  // ------------------------------------------------------------ why a job is out of the queue

  /** The step took the job out of the queue for the given list. */
  datatype Exit = Succeeded | Failed | Unhandled | Refused | Dropped

  function ListOf(p: Pool, x: Exit): seq<Job> {
    match x
    case Succeeded => p.succeeded
    case Failed => p.failed
    case Unhandled => p.unhandled
    case Refused => p.refused
    case Dropped => p.dropped
  }

  predicate At(p: Pool, i: nat, j: Job, called: bool) { i < |p.workers| && p.workers[i] == Worker(j, called) }

  /** The reason for that. */
  predicate Because(p: Pool, a: Action, j: Job, x: Exit) {
    match x
    case Succeeded => a.Succeed? && At(p, a.i, j, true)
    case Failed => a.Error? && At(p, a.i, j, true) && j.attempts >= Tries(p, j)
    case Refused => a.Error? && At(p, a.i, j, true) && j.attempts < Tries(p, j) && |p.channel| >= p.size
    case Unhandled => a.NoHandler? && At(p, a.i, j, false) && j.name !in p.handlers
    case Dropped => a.DropWaiting? && p.cancelled && p.popper == Waiting(j)
  }

  lemma StepBecause(p: Pool, a: Action, j: Job, x: Exit)
    ensures j in ListOf(Step(p, a), x) <==> j in ListOf(p, x) || Because(p, a, j, x)
  {
  }

  /** Some step of the run gave the reason. */
  predicate HadReason(p: Pool, actions: seq<Action>, j: Job, x: Exit) {
    actions != [] && var n := |actions| - 1; HadReason(p, actions[..n], j, x) || Because(Run(p, actions[..n]), actions[n], j, x)
  }

  /** Over every run a job is out of the queue for a reason, exactly if some step gave it: its handler
      succeeded; its last try failed; it had tries left and the channel was full; it had no handler;
      or the worker was cancelled while the job was waiting. */
  lemma {:induction false} OutForAReason(p: Pool, actions: seq<Action>, j: Job, x: Exit)
    requires Initial(p)
    ensures j in ListOf(Run(p, actions), x) <==> HadReason(p, actions, j, x)
    decreases |actions|
  {
    if actions != [] {
      var n := |actions| - 1;
      OutForAReason(p, actions[..n], j, x);
      StepBecause(Run(p, actions[..n]), actions[n], j, x);
    }
  }

  // ------------------------------------------------------------ first in, first out

  /** The job that a step puts into the channel: a new one, or one whose handler failed. */
  function Put(p: Pool, a: Action): seq<Job> {
    if a.Dispatch? && a.id !in p.accepted && |p.channel| < p.size then [Job(a.id, a.name, 0, a.maxTries, p.now + a.delay)]
    else if a.Error? && a.i < |p.workers| && p.workers[a.i].called then
      var j := p.workers[a.i].job;
      if j.attempts < Tries(p, j) && |p.channel| < p.size then [j.(at := p.now + Backoff.Delay(j.attempts))] else []
    else []
  }

  /** The job that the popping loop has in its hands after taking one. */
  function Taken(p: Pool, a: Action): seq<Job> {
    var q := Step(p, a);
    if a.Take? && p.popper.Popping? && q.popper.Waiting? then [q.popper.job] else []
  }

  function AllPut(p: Pool, actions: seq<Action>): seq<Job> {
    if actions == [] then []
    else AllPut(p, actions[..|actions| - 1]) + Put(Run(p, actions[..|actions| - 1]), actions[|actions| - 1])
  }

  function AllTaken(p: Pool, actions: seq<Action>): seq<Job> {
    if actions == [] then []
    else AllTaken(p, actions[..|actions| - 1]) + Taken(Run(p, actions[..|actions| - 1]), actions[|actions| - 1])
  }

  lemma StepInOrder(p: Pool, a: Action)
    ensures p.channel + Put(p, a) == Taken(p, a) + Step(p, a).channel
  {
  }

  /** Over every run jobs are taken in the order in which they were put in, none skipped. */
  lemma {:induction false} FirstInFirstOut(p: Pool, actions: seq<Action>)
    requires Initial(p)
    ensures AllPut(p, actions) == AllTaken(p, actions) + Run(p, actions).channel
    decreases |actions|
  {
    if actions != [] {
      var init, a := actions[..|actions| - 1], actions[|actions| - 1];
      FirstInFirstOut(p, init);
      StepInOrder(Run(p, init), a);
      Regrouped(AllTaken(p, init), Run(p, init).channel, Put(Run(p, init), a), Taken(Run(p, init), a), Run(p, actions).channel);
    }
  }

  lemma Regrouped(a: seq<Job>, b: seq<Job>, c: seq<Job>, d: seq<Job>, e: seq<Job>)
    requires b + c == d + e
    ensures (a + b) + c == (a + d) + e
  {
    assert (a + b) + c == a + (b + c);
    assert (a + d) + e == a + (d + e);
  }

  // ------------------------------------------------------------ nothing is held back

  /** The first job of the channel is taken, and waited for as long as it is not due. */
  lemma TakesFirst(p: Pool, wait: nat) returns (p1: Pool, p2: Pool)
    requires p.popper.Popping? && p.channel != []
    ensures p1 == Step(p, Take) && p2 == Step(p1, Tick(wait))
    ensures p2 == p.(channel := p.channel[1..], popper := Waiting(p.channel[0]), now := p.now + wait)
  {
    p1 := Step(p, Take);
    p2 := Step(p1, Tick(wait));
  }

  /** A job that is due gets a free slot. */
  lemma StartsDue(p: Pool, j: Job) returns (p1: Pool, p2: Pool)
    requires p.popper == Waiting(j) && j.at <= p.now && |p.workers| < p.slots
    ensures p1 == Step(p, Due) && p2 == Step(p1, Spawn)
    ensures p2 == p.(popper := Popping, workers := p.workers + [Worker(j, false)])
  {
    p1 := Step(p, Due);
    p2 := Step(p1, Spawn);
  }

  lemma CallsHandler(p: Pool, j: Job, i: nat) returns (q: Pool)
    requires |p.workers| == i + 1 && p.workers[i] == Worker(j, false) && j.name in p.handlers
    ensures q == Step(p, Call(i)) && q.channel == p.channel && q.popper == p.popper && q.now == p.now
    ensures q.workers == p.workers[..i] + [Worker(j.(attempts := j.attempts + 1), true)]
  {
    q := Step(p, Call(i));
  }

  /** A popping loop with a free slot hands the first job of the channel to its handler, as soon as it is due,
      cancelled or not: nothing but the time it waits for stands between. */
  lemma FirstIsDelivered(p: Pool) returns (steps: seq<Pool>, wait: nat)
    requires p.popper.Popping? && p.channel != [] && |p.workers| < p.slots && p.channel[0].name in p.handlers
    ensures wait == if p.channel[0].at > p.now then p.channel[0].at - p.now else 0
    ensures
      && |steps| == 5 && steps[0] == Step(p, Take) && steps[1] == Step(steps[0], Tick(wait)) && steps[2] == Step(steps[1], Due)
      && steps[3] == Step(steps[2], Spawn) && steps[4] == Step(steps[3], Call(|p.workers|))
    ensures
      var q, j := steps[4], p.channel[0];
      && q.workers == p.workers + [Worker(j.(attempts := j.attempts + 1), true)]
      && q.channel == p.channel[1..] && q.popper.Popping? && q.now == p.now + wait
  {
    var j := p.channel[0];
    wait := if j.at > p.now then j.at - p.now else 0;
    var p0, p1 := TakesFirst(p, wait);
    var p2, p3 := StartsDue(p1, j);
    var p4 := CallsHandler(p3, j, |p.workers|);
    assert p3.workers[..|p.workers|] == p.workers;
    steps := [p0, p1, p2, p3, p4];
  }
}
