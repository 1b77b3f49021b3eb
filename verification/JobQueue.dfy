/** The in-memory job queue as a system of producers, workers and sleeping
    re-enqueuers around one bounded channel. */
module JobQueue {
  import opened Text

  const CAPACITY := 1000

  /** `retries` is MaxRetries() of a RetryableJob, and None for any other job. */
  datatype Job = Job(retries: Option<int>)

  /** What travels through the channel; `id` tells the EnqueueAt call it came from. */
  datatype QueuedJob = QueuedJob(id: nat, job: Job, at: int, attempt: nat)

  /** What a worker goroutine is doing; Resending waits to send a retry. */
  datatype Worker = Idle | Handling(qj: QueuedJob) | Resending(qj: QueuedJob) | Exited

  /** A call of Handle: which job, when it was due and when it began. */
  datatype Run = Run(id: nat, due: int, start: int)

  datatype State = State(
    producers: seq<QueuedJob>,  // EnqueueAt calls waiting to send
    channel: seq<QueuedJob>,
    sleepers: seq<QueuedJob>,   // goroutines sleeping until a job is due
    workers: seq<Worker>,
    finished: seq<QueuedJob>,
    entered: seq<QueuedJob>,    // every job as it was enqueued; index is id
    runs: seq<Run>,
    now: int,
    cancelled: bool
  )

  function Init(workers: nat, now: int): State {
    State([], [], [], seq(workers, _ => Idle), [], [], [], now, false)
  }

  // ----- Steps -----

  datatype Action =
    | Enqueue(job: Job, at: int)
    | Send(i: nat)                // producer i gets its job into the channel
    | Take(w: nat)                // worker w receives
    | Succeed(w: nat)
    | Fail(w: nat, delay: int)    // Handle returns an error; delay is RetryDelay
    | Resend(w: nat)
    | Fire(i: nat)                // sleeper i wakes and gets its job into the channel
    | Tick(now: int)
    | Cancel
    | Exit(w: nat)

  predicate Enabled(s: State, a: Action) {
    match a
    case Enqueue(_, _) => true
    case Send(i) => i < |s.producers| && |s.channel| < CAPACITY
    case Take(w) => w < |s.workers| && s.workers[w].Idle? && s.channel != []
    case Succeed(w) => w < |s.workers| && s.workers[w].Handling?
    case Fail(w, _) => w < |s.workers| && s.workers[w].Handling?
    case Resend(w) => w < |s.workers| && s.workers[w].Resending? && |s.channel| < CAPACITY
    case Fire(i) => i < |s.sleepers| && s.sleepers[i].at <= s.now && |s.channel| < CAPACITY
    case Tick(t) => s.now <= t
    case Cancel => true
    case Exit(w) => w < |s.workers| && s.workers[w].Idle? && s.cancelled
  }

  function Without<T>(xs: seq<T>, i: nat): seq<T>
    requires i < |xs|
  {
    xs[..i] + xs[i + 1..]
  }

  function Step(s: State, a: Action): State
    requires Enabled(s, a)
  {
    match a
    case Enqueue(job, at) =>
      var qj := QueuedJob(|s.entered|, job, at, 0);
      s.(producers := s.producers + [qj], entered := s.entered + [qj])
    case Send(i) =>
      s.(producers := Without(s.producers, i), channel := s.channel + [s.producers[i]])
    case Take(w) =>
      var qj := s.channel[0];
      if s.now < qj.at then
        s.(channel := s.channel[1..], sleepers := s.sleepers + [qj])
      else
        s.(channel := s.channel[1..], workers := s.workers[w := Handling(qj)],
           runs := s.runs + [Run(qj.id, qj.at, s.now)])
    case Succeed(w) =>
      s.(workers := s.workers[w := Idle], finished := s.finished + [s.workers[w].qj])
    case Fail(w, delay) =>
      var qj := s.workers[w].qj;
      if qj.job.retries.Some? && qj.attempt < qj.job.retries.value then
        s.(workers := s.workers[w := Resending(qj.(attempt := qj.attempt + 1, at := s.now + delay))])
      else
        s.(workers := s.workers[w := Idle], finished := s.finished + [qj])
    case Resend(w) =>
      s.(workers := s.workers[w := Idle], channel := s.channel + [s.workers[w].qj])
    case Fire(i) =>
      s.(sleepers := Without(s.sleepers, i), channel := s.channel + [s.sleepers[i]])
    case Tick(t) => s.(now := t)
    case Cancel => s.(cancelled := true)
    case Exit(w) => s.(workers := s.workers[w := Exited])
  }

  /** The steps that move a job from one place to another. */
  predicate Advances(a: Action) {
    a.Send? || a.Take? || a.Succeed? || a.Fail? || a.Resend? || a.Fire?
  }

  ghost predicate Reaches(s: State, actions: seq<Action>, t: State)
    decreases |actions|
  {
    if actions == [] then s == t
    else Enabled(s, actions[0]) && Reaches(Step(s, actions[0]), actions[1..], t)
  }

  // ----- Where the jobs are -----

  datatype Place = Producing | Queued | Sleeping | Running | Retrying | Done

  datatype Spot = Spot(qj: QueuedJob, place: Place)

  /** Adds up `f` over jobs in one place. */
  function Sum(xs: seq<QueuedJob>, place: Place, f: Spot -> int): int {
    if xs == [] then 0 else f(Spot(xs[0], place)) + Sum(xs[1..], place, f)
  }

  function OfWorker(w: Worker, f: Spot -> int): int {
    match w
    case Handling(qj) => f(Spot(qj, Running))
    case Resending(qj) => f(Spot(qj, Retrying))
    case _ => 0
  }

  function WorkerSum(ws: seq<Worker>, f: Spot -> int): int {
    if ws == [] then 0 else OfWorker(ws[0], f) + WorkerSum(ws[1..], f)
  }

  /** Adds up `f` over every job wherever it is. */
  function Total(s: State, f: Spot -> int): int {
    Sum(s.producers, Producing, f) + Sum(s.channel, Queued, f) + Sum(s.sleepers, Sleeping, f) +
    WorkerSum(s.workers, f) + Sum(s.finished, Done, f)
  }

  lemma {:induction false} SumSnoc(xs: seq<QueuedJob>, x: QueuedJob, place: Place, f: Spot -> int)
    ensures Sum(xs + [x], place, f) == Sum(xs, place, f) + f(Spot(x, place))
  {
    if xs == [] {
      assert xs + [x] == [x];
    } else {
      assert (xs + [x])[1..] == xs[1..] + [x];
      SumSnoc(xs[1..], x, place, f);
    }
  }

  lemma SumTail(xs: seq<QueuedJob>, place: Place, f: Spot -> int)
    requires xs != []
    ensures Sum(xs, place, f) == f(Spot(xs[0], place)) + Sum(xs[1..], place, f)
  {
  }

  lemma {:induction false} SumWithout(xs: seq<QueuedJob>, i: nat, place: Place, f: Spot -> int)
    requires i < |xs|
    ensures Sum(Without(xs, i), place, f) == Sum(xs, place, f) - f(Spot(xs[i], place))
  {
    if i == 0 {
      assert Without(xs, 0) == xs[1..];
    } else {
      assert Without(xs, i)[1..] == Without(xs[1..], i - 1);
      SumWithout(xs[1..], i - 1, place, f);
    }
  }

  lemma {:induction false} WorkerSumUpdate(ws: seq<Worker>, i: nat, w: Worker, f: Spot -> int)
    requires i < |ws|
    ensures WorkerSum(ws[i := w], f) == WorkerSum(ws, f) - OfWorker(ws[i], f) + OfWorker(w, f)
  {
    if i == 0 {
      assert ws[i := w][1..] == ws[1..];
    } else {
      assert ws[i := w][1..] == ws[1..][i - 1 := w];
      WorkerSumUpdate(ws[1..], i - 1, w, f);
    }
  }

  /** Where an advancing step takes its job from. */
  function From(s: State, a: Action): Spot
    requires Enabled(s, a) && Advances(a)
  {
    match a
    case Send(i) => Spot(s.producers[i], Producing)
    case Take(w) => Spot(s.channel[0], Queued)
    case Succeed(w) => Spot(s.workers[w].qj, Running)
    case Fail(w, _) => Spot(s.workers[w].qj, Running)
    case Resend(w) => Spot(s.workers[w].qj, Retrying)
    case Fire(i) => Spot(s.sleepers[i], Sleeping)
  }

  /** Where an advancing step puts its job. */
  function To(s: State, a: Action): Spot
    requires Enabled(s, a) && Advances(a)
  {
    match a
    case Send(i) => Spot(s.producers[i], Queued)
    case Take(w) => Spot(s.channel[0], if s.now < s.channel[0].at then Sleeping else Running)
    case Succeed(w) => Spot(s.workers[w].qj, Done)
    case Fail(w, delay) =>
      var qj := s.workers[w].qj;
      if qj.job.retries.Some? && qj.attempt < qj.job.retries.value
      then Spot(qj.(attempt := qj.attempt + 1, at := s.now + delay), Retrying)
      else Spot(qj, Done)
    case Resend(w) => Spot(s.workers[w].qj, Queued)
    case Fire(i) => Spot(s.sleepers[i], Queued)
  }

  /** Every step moves one job, adds one, or moves none. */
  lemma StepMovesOneJob(s: State, a: Action, f: Spot -> int)
    requires Enabled(s, a)
    ensures Total(Step(s, a), f) ==
            if Advances(a) then Total(s, f) - f(From(s, a)) + f(To(s, a))
            else if a.Enqueue? then Total(s, f) + f(Spot(QueuedJob(|s.entered|, a.job, a.at, 0), Producing))
            else Total(s, f)
  {
    if a.Take? { SumTail(s.channel, Queued, f); }
    hide Sum, WorkerSum;
    match a
    case Enqueue(job, at) => SumSnoc(s.producers, QueuedJob(|s.entered|, job, at, 0), Producing, f);
    case Send(i) =>
      SumWithout(s.producers, i, Producing, f);
      SumSnoc(s.channel, s.producers[i], Queued, f);
    case Take(w) =>
      if s.now < s.channel[0].at {
        SumSnoc(s.sleepers, s.channel[0], Sleeping, f);
      } else {
        WorkerSumUpdate(s.workers, w, Handling(s.channel[0]), f);
      }
    case Succeed(w) =>
      WorkerSumUpdate(s.workers, w, Idle, f);
      SumSnoc(s.finished, s.workers[w].qj, Done, f);
    case Fail(w, delay) =>
      WorkerSumUpdate(s.workers, w, Step(s, a).workers[w], f);
      SumSnoc(s.finished, s.workers[w].qj, Done, f);
    case Resend(w) =>
      WorkerSumUpdate(s.workers, w, Idle, f);
      SumSnoc(s.channel, s.workers[w].qj, Queued, f);
    case Fire(i) =>
      SumWithout(s.sleepers, i, Sleeping, f);
      SumSnoc(s.channel, s.sleepers[i], Queued, f);
    case Exit(w) => WorkerSumUpdate(s.workers, w, Exited, f);
    case _ =>
  }

  // ----- What holds in every reachable state -----

  /** How often a job may be retried. */
  function Budget(job: Job): nat {
    if job.retries.Some? && job.retries.value > 0 then job.retries.value else 0
  }

  function IdIs(id: nat): Spot -> int {
    (sp: Spot) => if sp.qj.id == id then 1 else 0
  }

  /** Calls of Handle a job in this spot has had. */
  function Handled(sp: Spot): nat {
    sp.qj.attempt + if sp.place.Running? || sp.place.Done? then 1 else 0
  }

  function HandledIf(id: nat): Spot -> int {
    (sp: Spot) => if sp.qj.id == id then Handled(sp) else 0
  }

  function RunsOf(runs: seq<Run>, id: nat): nat {
    if runs == [] then 0
    else RunsOf(runs[..|runs| - 1], id) + if runs[|runs| - 1].id == id then 1 else 0
  }

  /** What is known of a job from where it is. */
  predicate Sane(entered: seq<QueuedJob>, now: int, sp: Spot) {
    sp.qj.id < |entered| && sp.qj.job == entered[sp.qj.id].job && sp.qj.attempt <= Budget(sp.qj.job) &&
    (sp.qj.attempt == 0 ==> sp.qj.at == entered[sp.qj.id].at) &&
    (Handled(sp) > 0 ==> entered[sp.qj.id].at <= now)
  }

  ghost predicate AllSane(xs: seq<QueuedJob>, place: Place, entered: seq<QueuedJob>, now: int) {
    forall i :: 0 <= i < |xs| ==> Sane(entered, now, Spot(xs[i], place))
  }

  ghost predicate WorkersSane(s: State) {
    forall w :: 0 <= w < |s.workers| ==>
      match s.workers[w]
      case Handling(qj) => Sane(s.entered, s.now, Spot(qj, Running))
      case Resending(qj) => Sane(s.entered, s.now, Spot(qj, Retrying))
      case Idle => true
      case Exited => s.cancelled
  }

  ghost predicate JobsSane(s: State) {
    AllSane(s.producers, Producing, s.entered, s.now) && AllSane(s.channel, Queued, s.entered, s.now) &&
    AllSane(s.sleepers, Sleeping, s.entered, s.now) && AllSane(s.finished, Done, s.entered, s.now) &&
    WorkersSane(s)
  }

  ghost predicate RunsOnTime(s: State) {
    forall r :: r in s.runs ==> r.id < |s.entered| && r.due <= r.start <= s.now && s.entered[r.id].at <= r.start
  }

  ghost predicate Inv(s: State) {
    JobsSane(s) && RunsOnTime(s) && |s.channel| <= CAPACITY &&
    (forall id: nat :: Total(s, IdIs(id)) == if id < |s.entered| then 1 else 0) &&
    (forall id: nat :: RunsOf(s.runs, id) == Total(s, HandledIf(id)))
  }

  lemma {:induction false} InitHolds(n: nat, now: int)
    ensures Inv(Init(n, now))
  {
    forall f: Spot -> int ensures Total(Init(n, now), f) == 0 {
      IdleSum(Init(n, now).workers, f);
    }
  }

  lemma {:induction false} IdleSum(ws: seq<Worker>, f: Spot -> int)
    requires forall w :: w in ws ==> w.Idle?
    ensures WorkerSum(ws, f) == 0
  {
    if ws == [] {
    } else {
      IdleSum(ws[1..], f);
    }
  }

  /** The job a step moves is sane where it was and where it goes. */
  lemma MovedJobIsSane(s: State, a: Action)
    requires Enabled(s, a) && JobsSane(s) && Advances(a)
    ensures Sane(s.entered, s.now, From(s, a)) && Sane(s.entered, s.now, To(s, a))
  {
  }

  lemma SaneLater(xs: seq<QueuedJob>, place: Place, entered: seq<QueuedJob>, entered': seq<QueuedJob>, now: int, now': int)
    requires AllSane(xs, place, entered, now) && entered <= entered' && now <= now'
    ensures AllSane(xs, place, entered', now')
  {
  }

  lemma AllSaneSnoc(xs: seq<QueuedJob>, x: QueuedJob, place: Place, entered: seq<QueuedJob>, now: int)
    requires AllSane(xs, place, entered, now) && Sane(entered, now, Spot(x, place))
    ensures AllSane(xs + [x], place, entered, now)
  {
    hide Sane;
  }

  lemma AllSaneWithout(xs: seq<QueuedJob>, i: nat, place: Place, entered: seq<QueuedJob>, now: int)
    requires AllSane(xs, place, entered, now) && i < |xs|
    ensures AllSane(Without(xs, i), place, entered, now)
  {
    hide Sane;
  }

  /** Moving a job keeps all jobs sane. */
  lemma MovingKeepsSane(s: State, a: Action)
    requires Enabled(s, a) && JobsSane(s) && Advances(a)
    ensures JobsSane(Step(s, a))
  {
    MovedJobIsSane(s, a);
    hide Sane;
    assert WorkersSane(Step(s, a)) by { hide AllSane; }
    hide WorkersSane;
    var to := To(s, a);
    AllSaneSnocIf(s.channel, to, Queued, s.entered, s.now);
    AllSaneSnocIf(s.sleepers, to, Sleeping, s.entered, s.now);
    AllSaneSnocIf(s.finished, to, Done, s.entered, s.now);
    match a
    case Send(i) => AllSaneWithout(s.producers, i, Producing, s.entered, s.now);
    case Take(w) =>
      assert Without(s.channel, 0) == s.channel[1..];
      AllSaneWithout(s.channel, 0, Queued, s.entered, s.now);
    case Fire(i) => AllSaneWithout(s.sleepers, i, Sleeping, s.entered, s.now);
    case _ =>
    hide AllSane;
  }

  lemma AllSaneSnocIf(xs: seq<QueuedJob>, sp: Spot, place: Place, entered: seq<QueuedJob>, now: int)
    requires AllSane(xs, place, entered, now) && Sane(entered, now, sp)
    ensures sp.place == place ==> AllSane(xs + [sp.qj], place, entered, now)
  {
    if sp.place == place {
      AllSaneSnoc(xs, sp.qj, place, entered, now);
    }
  }

  lemma StepKeepsSane(s: State, a: Action)
    requires Enabled(s, a) && JobsSane(s)
    ensures JobsSane(Step(s, a))
  {
    var t := Step(s, a);
    if Advances(a) {
      MovingKeepsSane(s, a);
    } else {
      SaneLater(s.producers, Producing, s.entered, t.entered, s.now, t.now);
      SaneLater(s.channel, Queued, s.entered, t.entered, s.now, t.now);
      SaneLater(s.sleepers, Sleeping, s.entered, t.entered, s.now, t.now);
      SaneLater(s.finished, Done, s.entered, t.entered, s.now, t.now);
      if a.Enqueue? {
        AllSaneSnoc(s.producers, QueuedJob(|s.entered|, a.job, a.at, 0), Producing, t.entered, t.now);
      }
      hide AllSane;
    }
  }

  lemma StepKeepsRuns(s: State, a: Action)
    requires Enabled(s, a) && JobsSane(s) && RunsOnTime(s)
    ensures RunsOnTime(Step(s, a))
  {
    if a.Take? {
      MovedJobIsSane(s, a);
    }
  }

  lemma RunsSnoc(runs: seq<Run>, r: Run, id: nat)
    ensures RunsOf(runs + [r], id) == RunsOf(runs, id) + if r.id == id then 1 else 0
  {
    assert (runs + [r])[..|runs|] == runs;
  }

  /** A step keeps the id of the job it moves, and counts a call of Handle
      exactly when it logs one. */
  lemma MovedJobCounts(s: State, a: Action, id: nat)
    requires Enabled(s, a) && Advances(a)
    ensures To(s, a).qj.id == From(s, a).qj.id
    ensures RunsOf(Step(s, a).runs, From(s, a).qj.id) - RunsOf(s.runs, From(s, a).qj.id) == Handled(To(s, a)) - Handled(From(s, a))
    ensures id != From(s, a).qj.id ==> RunsOf(Step(s, a).runs, id) == RunsOf(s.runs, id)
    ensures Step(s, a).entered == s.entered
  {
    if a.Take? {
      var r := Run(s.channel[0].id, s.channel[0].at, s.now);
      RunsSnoc(s.runs, r, id);
      RunsSnoc(s.runs, r, r.id);
    }
    hide RunsOf;
  }

  lemma StepKeepsCounts(s: State, a: Action, id: nat)
    requires Enabled(s, a)
    requires Total(s, IdIs(id)) == if id < |s.entered| then 1 else 0
    requires RunsOf(s.runs, id) == Total(s, HandledIf(id))
    ensures Total(Step(s, a), IdIs(id)) == if id < |Step(s, a).entered| then 1 else 0
    ensures RunsOf(Step(s, a).runs, id) == Total(Step(s, a), HandledIf(id))
  {
    StepMovesOneJob(s, a, IdIs(id));
    StepMovesOneJob(s, a, HandledIf(id));
    hide Total, RunsOf, Handled;
    if Advances(a) {
      MovedJobCounts(s, a, id);
      hide Step, From, To;
    } else if a.Enqueue? {
      FreshIsUnhandled(s, a);
    }
  }

  lemma FreshIsUnhandled(s: State, a: Action)
    requires a.Enqueue?
    ensures Handled(Spot(QueuedJob(|s.entered|, a.job, a.at, 0), Producing)) == 0
  {
  }

  lemma StepKeepsInv(s: State, a: Action)
    requires Enabled(s, a) && Inv(s)
    ensures Inv(Step(s, a))
  {
    StepKeepsSane(s, a);
    StepKeepsRuns(s, a);
    assert |Step(s, a).channel| <= CAPACITY;
    hide JobsSane, RunsOnTime, Total, RunsOf, Step, Enabled;
    forall id: nat
      ensures Total(Step(s, a), IdIs(id)) == if id < |Step(s, a).entered| then 1 else 0
      ensures RunsOf(Step(s, a).runs, id) == Total(Step(s, a), HandledIf(id))
    {
      StepKeepsCounts(s, a, id);
    }
  }

  lemma {:induction false} ReachableHolds(s: State, actions: seq<Action>, t: State)
    requires Inv(s) && Reaches(s, actions, t)
    ensures Inv(t)
    decreases |actions|
  {
    if actions == [] {
    } else {
      StepKeepsInv(s, actions[0]);
      ReachableHolds(Step(s, actions[0]), actions[1..], t);
    }
  }

  // ----- Each job is in one place and handled within its budget -----

  /** `f` is bounded by `c` on the jobs counted by IdIs(id), and zero elsewhere. */
  lemma {:induction false} SumBounded(xs: seq<QueuedJob>, place: Place, id: nat, c: nat)
    requires forall i :: 0 <= i < |xs| && xs[i].id == id ==> Handled(Spot(xs[i], place)) <= c
    ensures Sum(xs, place, HandledIf(id)) <= c * Sum(xs, place, IdIs(id))
  {
    if xs == [] {
    } else {
      SumBounded(xs[1..], place, id, c);
      var rest := Sum(xs[1..], place, IdIs(id));
      assert c * (1 + rest) == c + c * rest;
    }
  }

  lemma {:induction false} WorkerSumBounded(ws: seq<Worker>, id: nat, c: nat)
    requires forall w :: 0 <= w < |ws| && ws[w].Handling? && ws[w].qj.id == id ==> Handled(Spot(ws[w].qj, Running)) <= c
    requires forall w :: 0 <= w < |ws| && ws[w].Resending? && ws[w].qj.id == id ==> Handled(Spot(ws[w].qj, Retrying)) <= c
    ensures WorkerSum(ws, HandledIf(id)) <= c * WorkerSum(ws, IdIs(id))
  {
    if ws == [] {
    } else {
      WorkerSumBounded(ws[1..], id, c);
      var rest := WorkerSum(ws[1..], IdIs(id));
      assert c * (1 + rest) == c + c * rest;
    }
  }

  lemma HandledWithin(t: State, id: nat, c: nat)
    requires JobsSane(t) && id < |t.entered| && c == Budget(t.entered[id].job) + 1
    ensures Total(t, HandledIf(id)) <= c * Total(t, IdIs(id))
  {
    SumBounded(t.producers, Producing, id, c);
    SumBounded(t.channel, Queued, id, c);
    SumBounded(t.sleepers, Sleeping, id, c);
    WorkerSumBounded(t.workers, id, c);
    SumBounded(t.finished, Done, id, c);
    hide Sum, WorkerSum, JobsSane;
    DistributeOverFive(c, Sum(t.producers, Producing, IdIs(id)), Sum(t.channel, Queued, IdIs(id)),
                       Sum(t.sleepers, Sleeping, IdIs(id)), WorkerSum(t.workers, IdIs(id)), Sum(t.finished, Done, IdIs(id)));
  }

  /** In every reachable state each enqueued job is in exactly one place, has
      been handled at most once more than it may be retried, and was never
      handled before the time it was enqueued for. */
  lemma EveryRunIsSafe(n: nat, start: int, actions: seq<Action>, t: State, id: nat)
    requires Reaches(Init(n, start), actions, t) && id < |t.entered|
    ensures Total(t, IdIs(id)) == 1
    ensures RunsOf(t.runs, id) <= Budget(t.entered[id].job) + 1
    ensures forall r :: r in t.runs && r.id == id ==> t.entered[id].at <= r.start && r.due <= r.start
  {
    InitHolds(n, start);
    ReachableHolds(Init(n, start), actions, t);
    hide Total, RunsOf, JobsSane, Reaches;
    HandledWithin(t, id, Budget(t.entered[id].job) + 1);
  }

  lemma DistributeOverFive(c: nat, p: int, q: int, r: int, s: int, t: int)
    ensures c * p + c * q + c * r + c * s + c * t == c * (p + q + r + s + t)
  {
  }

  // ----- A job is given up only when its retries are used -----

  /** The jobs whose Handle returns without an error in a run. */
  ghost function Succeeding(s: State, actions: seq<Action>): set<nat>
    decreases |actions|
  {
    if actions == [] || !Enabled(s, actions[0]) then {}
    else
      Succeeding(Step(s, actions[0]), actions[1..]) +
      if actions[0].Succeed? then {s.workers[actions[0].w].qj.id} else {}
  }

  ghost predicate SpentUnless(s: State, done: set<nat>) {
    forall qj :: qj in s.finished ==> qj.id in done || qj.attempt == Budget(qj.job)
  }

  lemma StepKeepsSpent(s: State, a: Action, done: set<nat>)
    requires Enabled(s, a) && JobsSane(s) && SpentUnless(s, done)
    ensures SpentUnless(Step(s, a), done + if a.Succeed? then {s.workers[a.w].qj.id} else {})
  {
    if a.Fail? {
      assert Sane(s.entered, s.now, Spot(s.workers[a.w].qj, Running));
    }
  }

  lemma {:induction false} RunKeepsSpent(s: State, actions: seq<Action>, t: State, done: set<nat>)
    requires Inv(s) && Reaches(s, actions, t) && SpentUnless(s, done)
    ensures SpentUnless(t, done + Succeeding(s, actions))
    decreases |actions|
  {
    if actions == [] {
      assert done + Succeeding(s, actions) == done;
    } else {
      var more := if actions[0].Succeed? then {s.workers[actions[0].w].qj.id} else {};
      StepKeepsSpent(s, actions[0], done);
      StepKeepsInv(s, actions[0]);
      hide Inv, Step, SpentUnless, Enabled;
      RunKeepsSpent(Step(s, actions[0]), actions[1..], t, done + more);
      assert done + more + Succeeding(Step(s, actions[0]), actions[1..]) == done + Succeeding(s, actions);
    }
  }

  lemma {:induction false} SumOfId(xs: seq<QueuedJob>, place: Place, id: nat)
    ensures Sum(xs, place, IdIs(id)) >= 0
    ensures Sum(xs, place, IdIs(id)) == 0 ==> Sum(xs, place, HandledIf(id)) == 0 && forall qj :: qj in xs ==> qj.id != id
  {
    if xs == [] {
    } else {
      SumOfId(xs[1..], place, id);
    }
  }

  lemma {:induction false} WorkerSumOfId(ws: seq<Worker>, id: nat)
    ensures WorkerSum(ws, IdIs(id)) >= 0
    ensures WorkerSum(ws, IdIs(id)) == 0 ==>
              WorkerSum(ws, HandledIf(id)) == 0 && forall w :: w in ws && Busy(w) ==> w.qj.id != id
  {
    if ws == [] {
    } else {
      WorkerSumOfId(ws[1..], id);
    }
  }

  lemma SumsOfId(s: State, id: nat)
    ensures Sum(s.producers, Producing, IdIs(id)) >= 0 && Sum(s.channel, Queued, IdIs(id)) >= 0 && Sum(s.sleepers, Sleeping, IdIs(id)) >= 0
    ensures WorkerSum(s.workers, IdIs(id)) >= 0 && Sum(s.finished, Done, IdIs(id)) >= 0
    ensures Sum(s.producers, Producing, IdIs(id)) == 0 ==>
              Sum(s.producers, Producing, HandledIf(id)) == 0 && forall qj :: qj in s.producers ==> qj.id != id
    ensures Sum(s.channel, Queued, IdIs(id)) == 0 ==>
              Sum(s.channel, Queued, HandledIf(id)) == 0 && forall qj :: qj in s.channel ==> qj.id != id
    ensures Sum(s.sleepers, Sleeping, IdIs(id)) == 0 ==>
              Sum(s.sleepers, Sleeping, HandledIf(id)) == 0 && forall qj :: qj in s.sleepers ==> qj.id != id
    ensures WorkerSum(s.workers, IdIs(id)) == 0 ==>
              WorkerSum(s.workers, HandledIf(id)) == 0 && forall w :: w in s.workers && Busy(w) ==> w.qj.id != id
  {
    SumOfId(s.producers, Producing, id);
    SumOfId(s.channel, Queued, id);
    SumOfId(s.sleepers, Sleeping, id);
    SumOfId(s.finished, Done, id);
    WorkerSumOfId(s.workers, id);
  }

  /** A finished job has had as many calls of Handle as its attempts and one. */
  lemma FinishedRuns(t: State, qj: QueuedJob)
    requires Inv(t) && qj in t.finished
    ensures qj.id < |t.entered| && qj.job == t.entered[qj.id].job && RunsOf(t.runs, qj.id) == qj.attempt + 1
  {
    var id := qj.id;
    var i :| 0 <= i < |t.finished| && t.finished[i] == qj;
    assert Sane(t.entered, t.now, Spot(t.finished[i], Done));
    SumsOfId(t, id);
    SumWithout(t.finished, i, Done, IdIs(id));
    SumWithout(t.finished, i, Done, HandledIf(id));
    SumOfId(Without(t.finished, i), Done, id);
    assert Total(t, IdIs(id)) == 1 && RunsOf(t.runs, id) == Total(t, HandledIf(id));
    hide Sum, WorkerSum, RunsOf, JobsSane, RunsOnTime;
  }

  /** Over every interleaving a job that is finished without success has been
      handled once and once more for each permitted retry: no retry is lost. */
  lemma GivenUpOnlyWhenSpent(n: nat, start: int, actions: seq<Action>, t: State, qj: QueuedJob)
    requires Reaches(Init(n, start), actions, t) && qj in t.finished && qj.id !in Succeeding(Init(n, start), actions)
    ensures qj.id < |t.entered|
    ensures var retries := t.entered[qj.id].job.retries;
            RunsOf(t.runs, qj.id) == 1 + if retries.Some? && retries.value > 0 then retries.value else 0
  {
    var s := Init(n, start);
    InitHolds(n, start);
    ReachableHolds(s, actions, t);
    RunKeepsSpent(s, actions, t, {});
    assert {} + Succeeding(s, actions) == Succeeding(s, actions);
    FinishedRuns(t, qj);
    hide Inv, Reaches, RunsOf;
  }

  // ----- A retry waits for its delay -----

  /** Job `id` is not due before `bound`, wherever it is, or `bound` has passed. */
  ghost predicate NotDueBefore(s: State, id: nat, bound: int) {
    s.now >= bound ||
    ((forall qj :: qj in s.producers || qj in s.channel || qj in s.sleepers ==> qj.id == id ==> qj.at >= bound) &&
     (forall w :: w in s.workers && w.Resending? && w.qj.id == id ==> w.qj.at >= bound) &&
     (forall w :: w in s.workers && w.Handling? ==> w.qj.id != id) && id < |s.entered|)
  }

  ghost predicate NoRunsBefore(runs: seq<Run>, id: nat, bound: int) {
    forall r :: r in runs && r.id == id ==> r.start >= bound
  }

  lemma StepLogs(s: State, a: Action)
    requires Enabled(s, a)
    ensures Step(s, a).runs ==
            s.runs + if a.Take? && s.channel[0].at <= s.now then [Run(s.channel[0].id, s.channel[0].at, s.now)] else []
  {
  }

  /** Where the jobs after a step were before it. */
  lemma StepPasses(s: State, a: Action)
    requires Enabled(s, a)
    ensures var t := Step(s, a);
            (forall qj :: qj in t.producers ==> qj in s.producers || (a.Enqueue? && qj.id == |s.entered|)) &&
            (forall qj :: qj in t.channel ==>
              qj in s.channel || qj in s.producers || qj in s.sleepers || (a.Resend? && qj == s.workers[a.w].qj)) &&
            (forall qj :: qj in t.sleepers ==> qj in s.sleepers || qj in s.channel)
  {
    if a.Resend? { assert s.workers[a.w] in s.workers; }
  }

  lemma StepEmploys(s: State, a: Action)
    requires Enabled(s, a)
    ensures var t := Step(s, a);
            forall w :: w in t.workers && Busy(w) ==>
              w in s.workers ||
              (a.Take? && s.channel[0].at <= s.now && w == Handling(s.channel[0])) ||
              (a.Fail? && w.Resending? && s.workers[a.w].Handling? && w.qj.id == s.workers[a.w].qj.id)
  {
    var t := Step(s, a);
    forall w | w in t.workers && Busy(w)
      ensures w in s.workers || (a.Take? && s.channel[0].at <= s.now && w == Handling(s.channel[0])) ||
              (a.Fail? && w.Resending? && s.workers[a.w].Handling? && w.qj.id == s.workers[a.w].qj.id)
    {
      var v :| 0 <= v < |t.workers| && t.workers[v] == w;
      if v < |s.workers| && s.workers[v] == w { assert s.workers[v] in s.workers; }
    }
  }

  lemma StepKeepsNotDue(s: State, a: Action, id: nat, bound: int)
    requires Enabled(s, a) && NotDueBefore(s, id, bound)
    ensures NotDueBefore(Step(s, a), id, bound)
    ensures s.runs <= Step(s, a).runs && NoRunsBefore(Step(s, a).runs[|s.runs|..], id, bound)
  {
    StepLogs(s, a);
    StepPasses(s, a);
    StepEmploys(s, a);
    assert Step(s, a).now >= s.now && |Step(s, a).entered| >= |s.entered|;
    if a.Resend? || a.Fail? { assert s.workers[a.w] in s.workers; }
    if a.Take? { assert s.channel[0] in s.channel; }
    hide Step;
  }

  lemma {:induction false} RunKeepsNotDue(s: State, actions: seq<Action>, t: State, id: nat, bound: int)
    requires Reaches(s, actions, t) && NotDueBefore(s, id, bound)
    ensures s.runs <= t.runs && NoRunsBefore(t.runs[|s.runs|..], id, bound)
    decreases |actions|
  {
    if actions == [] {
    } else {
      var next := Step(s, actions[0]);
      StepKeepsNotDue(s, actions[0], id, bound);
      hide Step, NotDueBefore, Enabled;
      RunKeepsNotDue(next, actions[1..], t, id, bound);
      assert t.runs[|s.runs|..] == next.runs[|s.runs|..] + t.runs[|next.runs|..];
    }
  }

  /** When a call of Handle fails and the job has had fewer calls than it is
      permitted, no call of Handle for it begins before the delay is over. */
  lemma RetryWaits(n: nat, start: int, actions: seq<Action>, s: State, w: nat, delay: int, further: seq<Action>, t: State)
    requires Reaches(Init(n, start), actions, s) && Enabled(s, Fail(w, delay)) && Reaches(Step(s, Fail(w, delay)), further, t)
    requires var id := s.workers[w].qj.id;
             id < |s.entered| ==> s.entered[id].job.retries.Some? && RunsOf(s.runs, id) <= s.entered[id].job.retries.value
    ensures s.runs <= t.runs
    ensures forall r :: r in t.runs[|s.runs|..] && r.id == s.workers[w].qj.id ==> r.start >= s.now + delay
  {
    var qj, next := s.workers[w].qj, Step(s, Fail(w, delay));
    InitHolds(n, start);
    ReachableHolds(Init(n, start), actions, s);
    RunningRuns(s, w);
    OnlyResending(s, w, delay);
    hide Inv, Reaches, RunsOf;
    assert next.runs == s.runs;
    hide Step;
    RunKeepsNotDue(next, further, t, qj.id, s.now + delay);
  }

  /** A job being handled has begun as many calls of Handle as its attempts and one. */
  lemma RunningRuns(s: State, w: nat)
    requires Inv(s) && w < |s.workers| && s.workers[w].Handling?
    ensures var qj := s.workers[w].qj;
            qj.id < |s.entered| && qj.job == s.entered[qj.id].job && RunsOf(s.runs, qj.id) == qj.attempt + 1 &&
            forall x :: x in s.producers || x in s.channel || x in s.sleepers ==> x.id != qj.id
    ensures forall v :: 0 <= v < |s.workers| && v != w && Busy(s.workers[v]) ==> s.workers[v].qj.id != s.workers[w].qj.id
  {
    var id := s.workers[w].qj.id;
    assert Sane(s.entered, s.now, Spot(s.workers[w].qj, Running));
    SumsOfId(s, id);
    WorkerSumUpdate(s.workers, w, Idle, IdIs(id));
    WorkerSumUpdate(s.workers, w, Idle, HandledIf(id));
    WorkerSumOfId(s.workers[w := Idle], id);
    assert Total(s, IdIs(id)) == 1 && RunsOf(s.runs, id) == Total(s, HandledIf(id));
    SumOfId(s.finished, Done, id);
    hide Sum, WorkerSum, RunsOf, JobsSane, RunsOnTime;
    forall v | 0 <= v < |s.workers| && v != w && Busy(s.workers[v]) ensures s.workers[v].qj.id != id {
      assert s.workers[w := Idle][v] in s.workers[w := Idle];
    }
  }

  lemma OnlyResending(s: State, w: nat, delay: int)
    requires Inv(s) && Enabled(s, Fail(w, delay))
    requires s.workers[w].qj.job.retries.Some? && s.workers[w].qj.attempt < s.workers[w].qj.job.retries.value
    ensures NotDueBefore(Step(s, Fail(w, delay)), s.workers[w].qj.id, s.now + delay)
  {
    RunningRuns(s, w);
    hide Inv, RunsOf;
    var t := Step(s, Fail(w, delay));
    forall x | x in t.workers && Busy(x)
      ensures x == t.workers[w] || x.qj.id != s.workers[w].qj.id
    {
      var v :| 0 <= v < |t.workers| && t.workers[v] == x;
    }
  }

  /** When a call of Handle succeeds, there is no further one for the job. */
  lemma SucceededIsOver(n: nat, start: int, actions: seq<Action>, s: State, w: nat, further: seq<Action>, t: State)
    requires Reaches(Init(n, start), actions, s) && Enabled(s, Succeed(w)) && Reaches(Step(s, Succeed(w)), further, t)
    ensures s.runs <= t.runs
    ensures forall r :: r in t.runs[|s.runs|..] ==> r.id != s.workers[w].qj.id
  {
    var id, next := s.workers[w].qj.id, Step(s, Succeed(w));
    InitHolds(n, start);
    ReachableHolds(Init(n, start), actions, s);
    StepKeepsInv(s, Succeed(w));
    ReachableHolds(next, further, t);
    RunningRuns(s, w);
    NowhereElse(s, w, t.now + 1);
    assert RunsOnTime(t) && next.runs == s.runs;
    hide Inv, Reaches, RunsOf, Step, NotDueBefore;
    RunKeepsNotDue(next, further, t, id, t.now + 1);
    forall r | r in t.runs[|s.runs|..] ensures r.id != id {
      assert r in t.runs;
    }
  }

  lemma NowhereElse(s: State, w: nat, bound: int)
    requires Inv(s) && Enabled(s, Succeed(w))
    ensures NotDueBefore(Step(s, Succeed(w)), s.workers[w].qj.id, bound)
  {
    RunningRuns(s, w);
    hide Inv, RunsOf;
    var t := Step(s, Succeed(w));
    forall x | x in t.workers && Busy(x) ensures x.qj.id != s.workers[w].qj.id {
      var v :| 0 <= v < |t.workers| && t.workers[v] == x;
    }
  }

  // ----- First in, first out -----

  function Takes(actions: seq<Action>): nat {
    if actions == [] then 0 else (if actions[0].Take? then 1 else 0) + Takes(actions[1..])
  }

  /** The channel hands out jobs in the order in which they were sent: after
      `k` receives the first `k` are gone and the others are still in front. */
  lemma {:induction false} FirstInFirstOut(s: State, actions: seq<Action>, t: State)
    requires Reaches(s, actions, t) && Takes(actions) <= |s.channel|
    ensures s.channel[Takes(actions)..] <= t.channel
    decreases |actions|
  {
    if actions == [] {
    } else {
      var next := Step(s, actions[0]);
      assert if actions[0].Take? then next.channel == s.channel[1..] else s.channel <= next.channel;
      hide Step, Enabled;
      FirstInFirstOut(next, actions[1..], t);
    }
  }

  // ----- Nothing blocks while at most CAPACITY jobs are unfinished -----

  const NOT_DONE: Spot -> int := (sp: Spot) => if sp.place.Done? then 0 else 1

  function Unfinished(s: State): int {
    Total(s, NOT_DONE)
  }

  lemma {:induction false} SumOfNotDone(xs: seq<QueuedJob>, place: Place)
    ensures Sum(xs, place, NOT_DONE) == if place.Done? then 0 else |xs|
  {
    if xs == [] {
    } else {
      SumOfNotDone(xs[1..], place);
    }
  }

  predicate Busy(w: Worker) {
    w.Handling? || w.Resending?
  }

  lemma {:induction false} WorkerSumOfNotDone(ws: seq<Worker>)
    ensures WorkerSum(ws, NOT_DONE) >= 0
    ensures WorkerSum(ws, NOT_DONE) > 0 <==> exists w :: 0 <= w < |ws| && Busy(ws[w])
  {
    if ws == [] {
    } else {
      WorkerSumOfNotDone(ws[1..]);
      if w :| 0 <= w < |ws| && Busy(ws[w]) {
        assert w > 0 ==> ws[1..][w - 1] == ws[w];
      }
      if v :| 0 <= v < |ws[1..]| && Busy(ws[1..][v]) {
        assert ws[v + 1] == ws[1..][v];
      }
    }
  }

  lemma CountUnfinished(s: State)
    ensures Unfinished(s) == |s.producers| + |s.channel| + |s.sleepers| + WorkerSum(s.workers, NOT_DONE)
    ensures WorkerSum(s.workers, NOT_DONE) >= 0
    ensures WorkerSum(s.workers, NOT_DONE) > 0 <==> exists w :: 0 <= w < |s.workers| && Busy(s.workers[w])
  {
    SumOfNotDone(s.producers, Producing);
    SumOfNotDone(s.channel, Queued);
    SumOfNotDone(s.sleepers, Sleeping);
    SumOfNotDone(s.finished, Done);
    WorkerSumOfNotDone(s.workers);
  }

  /** With at most CAPACITY jobs unfinished, every pending send has room. */
  lemma NoSendBlocks(s: State)
    requires Unfinished(s) <= CAPACITY
    ensures forall i :: 0 <= i < |s.producers| ==> Enabled(s, Send(i))
    ensures forall w :: 0 <= w < |s.workers| && s.workers[w].Resending? ==> Enabled(s, Resend(w))
    ensures forall i :: 0 <= i < |s.sleepers| && s.sleepers[i].at <= s.now ==> Enabled(s, Fire(i))
  {
    CountUnfinished(s);
    forall w | 0 <= w < |s.workers| && s.workers[w].Resending? ensures |s.channel| < CAPACITY {
      assert Busy(s.workers[w]);
    }
  }

  // ----- Progress -----

  /** Some job can move now or after waiting. */
  ghost predicate CanAdvance(s: State) {
    exists a, t :: s.now <= t && Advances(a) && Enabled(s.(now := t), a)
  }

  /** Everything waits to send into a full channel. */
  predicate Jammed(s: State) {
    |s.channel| == CAPACITY && forall w :: 0 <= w < |s.workers| ==> s.workers[w].Resending?
  }

  /** While the queue is not stopped and some job is unfinished, it can make
      progress exactly when it is not jammed. */
  lemma AdvancesUnlessJammed(s: State)
    requires Inv(s) && !s.cancelled && s.workers != [] && Unfinished(s) > 0
    ensures CanAdvance(s) <==> !Jammed(s)
  {
    if Jammed(s) {
      return;
    }
    var a, t := AnAdvance(s);
    assert s.now <= t && Advances(a) && Enabled(s.(now := t), a);
  }

  lemma AnAdvance(s: State) returns (a: Action, t: int)
    requires Inv(s) && !s.cancelled && s.workers != [] && Unfinished(s) > 0 && !Jammed(s)
    ensures s.now <= t && Advances(a) && Enabled(s.(now := t), a)
  {
    CountUnfinished(s);
    t := s.now;
    hide Total, JobsSane, RunsOnTime;
    if w :| 0 <= w < |s.workers| && s.workers[w].Handling? {
      a := Succeed(w);
    } else if s.channel != [] && exists w :: 0 <= w < |s.workers| && s.workers[w].Idle? {
      var w :| 0 <= w < |s.workers| && s.workers[w].Idle?;
      a := Take(w);
    } else if |s.channel| == CAPACITY {
      var w :| 0 <= w < |s.workers| && !s.workers[w].Resending?;
      NoneExited(s, w);
      assert false;
    } else if s.producers != [] {
      a := Send(0);
    } else if s.sleepers != [] {
      a := Fire(0);
      t := if s.sleepers[0].at > s.now then s.sleepers[0].at else s.now;
    } else if w :| 0 <= w < |s.workers| && s.workers[w].Resending? {
      a := Resend(w);
    } else {
      NoneExited(s, 0);
      assert false;
    }
  }

  lemma NoneExited(s: State, w: nat)
    requires JobsSane(s) && !s.cancelled && w < |s.workers|
    ensures !s.workers[w].Exited?
  {
  }

  lemma {:induction false} AllBusySum(ws: seq<Worker>)
    requires forall w :: 0 <= w < |ws| ==> Busy(ws[w])
    ensures WorkerSum(ws, NOT_DONE) == |ws|
  {
    if ws == [] {
    } else {
      AllBusySum(ws[1..]);
    }
  }

  /** A jammed queue holds a full channel and one more job for each worker. */
  lemma JamHoldsThatMany(s: State)
    requires Jammed(s)
    ensures Unfinished(s) == |s.producers| + |s.sleepers| + CAPACITY + |s.workers|
  {
    CountUnfinished(s);
    AllBusySum(s.workers);
  }

  /** With fewer unfinished jobs than the channel and the workers can hold, a
      running queue only comes to rest when all are finished. One job more can
      jam it: see QueueCanJam. */
  lemma RestMeansFinished(s: State)
    requires Inv(s) && !s.cancelled && s.workers != [] && Unfinished(s) < CAPACITY + |s.workers|
    requires !CanAdvance(s)
    ensures Unfinished(s) == 0
  {
    CountUnfinished(s);
    if Unfinished(s) > 0 {
      AdvancesUnlessJammed(s);
      JamHoldsThatMany(s);
    }
  }

  // ----- The work left only shrinks -----

  /** Steps a job still has ahead of it at most. */
  function Weight(now: int): Spot -> int {
    (sp: Spot) =>
      var left := 6 * (Budget(sp.qj.job) - sp.qj.attempt);
      match sp.place
      case Producing => left + 5
      case Retrying => left + 5
      case Queued => left + if now < sp.qj.at then 4 else 2
      case Sleeping => left + 3
      case Running => left + 1
      case Done => 0
  }

  function Work(s: State): int {
    Total(s, Weight(s.now))
  }

  function AddedBy(a: Action): nat {
    if a.Enqueue? then 6 * Budget(a.job) + 5 else 0
  }

  function Added(actions: seq<Action>): nat {
    if actions == [] then 0 else AddedBy(actions[0]) + Added(actions[1..])
  }

  function Advancing(actions: seq<Action>): nat {
    if actions == [] then 0 else (if Advances(actions[0]) then 1 else 0) + Advancing(actions[1..])
  }

  lemma {:induction false} SumShrinks(xs: seq<QueuedJob>, place: Place, now: int, later: int)
    requires now <= later
    ensures Sum(xs, place, Weight(later)) <= Sum(xs, place, Weight(now))
  {
    if xs == [] {
    } else {
      SumShrinks(xs[1..], place, now, later);
    }
  }

  lemma {:induction false} WorkerSumShrinks(ws: seq<Worker>, now: int, later: int)
    requires now <= later
    ensures WorkerSum(ws, Weight(later)) <= WorkerSum(ws, Weight(now))
  {
    if ws == [] {
    } else {
      WorkerSumShrinks(ws[1..], now, later);
    }
  }

  lemma {:induction false} SumNotNegative(xs: seq<QueuedJob>, place: Place, entered: seq<QueuedJob>, now: int)
    requires AllSane(xs, place, entered, now)
    ensures Sum(xs, place, Weight(now)) >= 0
  {
    if xs == [] {
    } else {
      assert Sane(entered, now, Spot(xs[0], place));
      forall i | 0 <= i < |xs[1..]| ensures Sane(entered, now, Spot(xs[1..][i], place)) {
        assert xs[1..][i] == xs[i + 1];
      }
      SumNotNegative(xs[1..], place, entered, now);
    }
  }

  lemma {:induction false} WorkerSumNotNegative(ws: seq<Worker>, now: int)
    requires forall w :: w in ws && Busy(w) ==> w.qj.attempt <= Budget(w.qj.job)
    ensures WorkerSum(ws, Weight(now)) >= 0
  {
    if ws == [] {
    } else {
      assert ws[0] in ws;
      WorkerSumNotNegative(ws[1..], now);
    }
  }

  lemma WorkNotNegative(s: State)
    requires JobsSane(s)
    ensures Work(s) >= 0
  {
    SumNotNegative(s.producers, Producing, s.entered, s.now);
    SumNotNegative(s.channel, Queued, s.entered, s.now);
    SumNotNegative(s.sleepers, Sleeping, s.entered, s.now);
    SumNotNegative(s.finished, Done, s.entered, s.now);
    WorkerSumNotNegative(s.workers, s.now);
  }

  lemma MoveLowersWeight(s: State, a: Action)
    requires Enabled(s, a) && Advances(a) && Sane(s.entered, s.now, From(s, a))
    ensures Weight(s.now)(To(s, a)) < Weight(s.now)(From(s, a))
  {
  }

  lemma WaitingAddsNoWork(s: State, later: int)
    requires s.now <= later
    ensures Work(s.(now := later)) <= Work(s)
  {
    SumShrinks(s.producers, Producing, s.now, later);
    SumShrinks(s.channel, Queued, s.now, later);
    SumShrinks(s.sleepers, Sleeping, s.now, later);
    WorkerSumShrinks(s.workers, s.now, later);
    SumShrinks(s.finished, Done, s.now, later);
  }

  /** Moving a job takes at least one from the work left; enqueueing adds what
      the job may need; nothing else adds to it. */
  lemma StepUsesWork(s: State, a: Action)
    requires Enabled(s, a) && JobsSane(s)
    ensures Work(Step(s, a)) <= Work(s) + AddedBy(a) - if Advances(a) then 1 else 0
  {
    StepMovesOneJob(s, a, Weight(s.now));
    hide Total;
    if Advances(a) {
      MovedJobIsSane(s, a);
      MoveLowersWeight(s, a);
      hide From, To, JobsSane, Weight;
    } else if a.Tick? {
      WaitingAddsNoWork(s, a.now);
    }
  }

  /** In every run, jobs move at most as often as the enqueued jobs allow:
      five times for each, and six more for each permitted retry. */
  lemma {:induction false} RunsAreBounded(s: State, actions: seq<Action>, t: State)
    requires Inv(s) && Reaches(s, actions, t)
    ensures Advancing(actions) + Work(t) <= Work(s) + Added(actions)
    ensures Work(t) >= 0
    decreases |actions|
  {
    WorkNotNegative(s);
    if actions != [] {
      StepUsesWork(s, actions[0]);
      StepKeepsInv(s, actions[0]);
      hide Work, Inv, Step, Enabled;
      RunsAreBounded(Step(s, actions[0]), actions[1..], t);
    }
  }

  // ----- A queue can jam -----

  const STUBBORN := Job(Some(1))

  lemma {:induction false} ReachesFurther(s: State, first: seq<Action>, t: State, rest: seq<Action>, u: State)
    requires Reaches(s, first, t) && Reaches(t, rest, u)
    ensures Reaches(s, first + rest, u)
    decreases |first|
  {
    if first == [] {
      assert first + rest == rest;
    } else {
      assert (first + rest)[1..] == first[1..] + rest;
      ReachesFurther(Step(s, first[0]), first[1..], t, rest, u);
    }
  }

  /** One more job in the channel. */
  lemma EnqueueOne(s: State) returns (actions: seq<Action>, t: State)
    requires s.producers == [] && |s.channel| < CAPACITY
    ensures Reaches(s, actions, t)
    ensures t.workers == s.workers && t.producers == [] && t.now == s.now && t.cancelled == s.cancelled
    ensures t.sleepers == s.sleepers
    ensures |t.channel| == |s.channel| + 1 && t.channel[..|s.channel|] == s.channel
    ensures t.channel[|s.channel|].job == STUBBORN && t.channel[|s.channel|].at == s.now && t.channel[|s.channel|].attempt == 0
  {
    var enqueue := Enqueue(STUBBORN, s.now);
    var s1 := Step(s, enqueue);
    t := Step(s1, Send(0));
    actions := [enqueue, Send(0)];
    assert actions[1..] == [Send(0)] && actions[1..][1..] == [];
    assert Reaches(t, [], t) && Reaches(s1, [Send(0)], t);
    assert t.producers == [];
  }

  lemma {:induction false} FillChannel(s: State) returns (actions: seq<Action>, t: State)
    requires s.producers == [] && |s.channel| <= CAPACITY
    ensures Reaches(s, actions, t) && |t.channel| == CAPACITY
    ensures t.workers == s.workers && t.producers == [] && t.cancelled == s.cancelled && t.sleepers == s.sleepers
    decreases CAPACITY - |s.channel|
  {
    if |s.channel| == CAPACITY {
      actions, t := [], s;
    } else {
      var first, t1 := EnqueueOne(s);
      var rest, t2 := FillChannel(t1);
      ReachesFurther(s, first, t1, rest, t2);
      actions, t := first + rest, t2;
    }
  }

  predicate AllIdle(ws: seq<Worker>) {
    forall w :: 0 <= w < |ws| ==> ws[w].Idle?
  }

  predicate OnFirstTry(ws: seq<Worker>) {
    forall w :: 0 <= w < |ws| ==> ws[w].Handling? && ws[w].qj.job == STUBBORN && ws[w].qj.attempt == 0
  }

  /** Gives each worker from `w` on a job of its own. */
  lemma {:induction false} OccupyWorkers(s: State, w: nat) returns (actions: seq<Action>, t: State)
    requires w <= |s.workers| && s.producers == [] && s.channel == []
    requires OnFirstTry(s.workers[..w]) && AllIdle(s.workers[w..])
    ensures Reaches(s, actions, t) && OnFirstTry(t.workers) && |t.workers| == |s.workers|
    ensures t.producers == [] && t.channel == [] && t.cancelled == s.cancelled && t.sleepers == s.sleepers
    decreases |s.workers| - w
  {
    if w == |s.workers| {
      assert s.workers[..w] == s.workers;
      actions, t := [], s;
    } else {
      var first, t1 := EnqueueOne(s);
      assert t1.workers[w] == s.workers[w..][0];
      var t2 := Step(t1, Take(w));
      assert Reaches(t2, [], t2) && [Take(w)][1..] == [];
      assert Reaches(t1, [Take(w)], t2);
      ReachesFurther(s, first, t1, [Take(w)], t2);
      assert t2.workers[..w + 1] == s.workers[..w] + [t2.workers[w]];
      assert t2.workers[w + 1..] == s.workers[w..][1..];
      var rest, t3 := OccupyWorkers(t2, w + 1);
      ReachesFurther(s, first + [Take(w)], t2, rest, t3);
      actions, t := first + [Take(w)] + rest, t3;
    }
  }

  /** Lets each worker from `w` on fail its job, which it must resend. */
  lemma {:induction false} FailWorkers(s: State, w: nat) returns (actions: seq<Action>, t: State)
    requires w <= |s.workers| && OnFirstTry(s.workers[w..])
    requires forall v :: 0 <= v < w ==> s.workers[v].Resending?
    ensures Reaches(s, actions, t) && |t.workers| == |s.workers| && t.channel == s.channel && t.cancelled == s.cancelled
    ensures t.producers == s.producers && t.sleepers == s.sleepers
    ensures forall v :: 0 <= v < |t.workers| ==> t.workers[v].Resending?
    decreases |s.workers| - w
  {
    if w == |s.workers| {
      actions, t := [], s;
    } else {
      assert s.workers[w] == s.workers[w..][0];
      var t1 := Step(s, Fail(w, 0));
      assert Reaches(t1, [], t1) && [Fail(w, 0)][1..] == [];
      assert t1.workers[w + 1..] == s.workers[w..][1..];
      var rest, t2 := FailWorkers(t1, w + 1);
      ReachesFurther(s, [Fail(w, 0)], t1, rest, t2);
      actions, t := [Fail(w, 0)] + rest, t2;
    }
  }

  /** With any number of workers the queue can jam: fill the channel while
      every worker handles a retryable job, and let them all fail. It takes no
      more than CAPACITY jobs and one for each worker. */
  lemma QueueCanJam(n: nat, start: int) returns (actions: seq<Action>, t: State)
    ensures Reaches(Init(n, start), actions, t) && Jammed(t) && |t.workers| == n && !t.cancelled
    ensures Unfinished(t) == CAPACITY + n
  {
    var s := Init(n, start);
    var a1, t1 := OccupyWorkers(s, 0);
    var a2, t2 := FillChannel(t1);
    var a3, t3 := FailWorkers(t2, 0);
    assert t2.workers[0..] == t2.workers;
    ReachesFurther(s, a1, t1, a2, t2);
    ReachesFurther(s, a1 + a2, t2, a3, t3);
    actions, t := a1 + a2 + a3, t3;
    JamHoldsThatMany(t);
  }
}
