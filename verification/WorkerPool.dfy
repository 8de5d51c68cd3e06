/**
 The in-process orchestrator: a bounded job channel, a fixed number of workers that range over it, and a shutdown
 that closes the channel and waits for every worker.

 A run is any interleaving of the steps of enqueuers, workers and the caller of `Shutdown`. Sending on the closed
 channel, or closing it again, panics and ends the run.
 */
module WorkerPool {
  const CAPACITY := 256

  type Job = nat

  datatype Slot = Idle | Busy(job: Job) | Gone

  /** `slots` has one entry per worker; the logs record jobs in the order they were sent, taken and finished. */
  datatype State = State(
    queue: seq<Job>, slots: seq<Slot>, closed: bool, returned: bool, panicked: bool,
    sent: seq<Job>, started: seq<Job>, finished: seq<Job>)

  function Fresh(workers: nat): State {
    State([], seq(workers, _ => Idle), false, false, false, [], [], [])
  }

  datatype Step = Enqueue(job: Job) | Take(w: nat) | Finish(w: nat) | Exit(w: nat) | Close | Return

  /** A step that cannot be taken now, such as sending on a full channel, leaves the state alone. */
  function Next(s: State, step: Step): State {
    if s.panicked then s else
      match step
      case Enqueue(job) =>
        if s.closed then s.(panicked := true)
        else if |s.queue| >= CAPACITY then s
        else s.(queue := s.queue + [job], sent := s.sent + [job])
      case Take(w) =>
        if w >= |s.slots| || s.slots[w] != Idle || s.queue == [] then s
        else s.(queue := s.queue[1..], slots := s.slots[w := Busy(s.queue[0])], started := s.started + [s.queue[0]])
      case Finish(w) =>
        if w >= |s.slots| || !s.slots[w].Busy? then s
        else s.(slots := s.slots[w := Idle], finished := s.finished + [s.slots[w].job])
      case Exit(w) =>
        if w >= |s.slots| || s.slots[w] != Idle || !s.closed || s.queue != [] then s
        else s.(slots := s.slots[w := Gone])
      case Close => if s.closed then s.(panicked := true) else s.(closed := true)
      case Return =>
        if s.closed && forall w | 0 <= w < |s.slots| :: s.slots[w] == Gone then s.(returned := true) else s
  }

  function Run(s: State, steps: seq<Step>): State {
    if steps == [] then s else Next(Run(s, steps[..|steps| - 1]), steps[|steps| - 1])
  }

  function One(b: bool): nat {
    if b then 1 else 0
  }

  /** How many workers are running `job`. */
  function Running(slots: seq<Slot>, job: Job): nat {
    if slots == [] then 0 else Running(slots[..|slots| - 1], job) + One(slots[|slots| - 1] == Busy(job))
  }

  function BusyWorkers(slots: seq<Slot>): (n: nat)
    ensures n <= |slots|
  {
    if slots == [] then 0 else BusyWorkers(slots[..|slots| - 1]) + One(slots[|slots| - 1].Busy?)
  }

  lemma {:induction false} RunningUpdate(slots: seq<Slot>, w: nat, slot: Slot, job: Job)
    requires w < |slots|
    ensures Running(slots[w := slot], job) + One(slots[w] == Busy(job)) == Running(slots, job) + One(slot == Busy(job))
  {
    var n := |slots| - 1;
    if w < n {
      RunningUpdate(slots[..n], w, slot, job);
      assert slots[w := slot][..n] == slots[..n][w := slot];
    } else {
      assert slots[w := slot][..n] == slots[..n];
    }
  }

  lemma {:induction false} NobodyRuns(slots: seq<Slot>, job: Job)
    requires forall w | 0 <= w < |slots| :: !slots[w].Busy?
    ensures Running(slots, job) == 0
  {
    if slots != [] {
      NobodyRuns(slots[..|slots| - 1], job);
    }
  }

  function Copies(jobs: seq<Job>, job: Job): nat {
    if jobs == [] then 0 else Copies(jobs[..|jobs| - 1], job) + One(jobs[|jobs| - 1] == job)
  }

  lemma {:induction false} CopiesConcat(xs: seq<Job>, ys: seq<Job>, job: Job)
    ensures Copies(xs + ys, job) == Copies(xs, job) + Copies(ys, job)
  {
    if ys == [] {
      assert xs + ys == xs;
    } else {
      var n := |ys| - 1;
      CopiesConcat(xs, ys[..n], job);
      assert (xs + ys)[..|xs| + n] == xs + ys[..n];
    }
  }

  lemma CopiesSnoc(xs: seq<Job>, x: Job, job: Job)
    ensures Copies(xs + [x], job) == Copies(xs, job) + One(x == job)
  {
    assert (xs + [x])[..|xs|] == xs;
  }

  /** Each copy of a started job is running or has finished. */
  ghost predicate Tracked(slots: seq<Slot>, started: seq<Job>, finished: seq<Job>) {
    forall job: Job :: Copies(started, job) == Running(slots, job) + Copies(finished, job)
  }

  /** Jobs are taken in the order they were sent, and workers leave only a closed and empty channel. */
  ghost predicate Inv(s: State) {
    && s.sent == s.started + s.queue
    && Tracked(s.slots, s.started, s.finished)
    && |s.queue| <= CAPACITY
    && (s.returned ==> s.closed && forall w | 0 <= w < |s.slots| :: s.slots[w] == Gone)
    && (Gone in s.slots ==> s.closed && s.queue == [])
  }

  lemma TakeKeepsInv(s: State, w: nat)
    requires Inv(s)
    ensures Inv(Next(s, Take(w)))
  {
    var s' := Next(s, Take(w));
    if s' != s {
      assert s.sent == (s.started + [s.queue[0]]) + s.queue[1..];
      assert Gone !in s'.slots;
      forall job: Job ensures Copies(s'.started, job) == Running(s'.slots, job) + Copies(s'.finished, job) {
        RunningUpdate(s.slots, w, Busy(s.queue[0]), job);
        CopiesSnoc(s.started, s.queue[0], job);
      }
    }
  }

  lemma FinishKeepsInv(s: State, w: nat)
    requires Inv(s)
    ensures Inv(Next(s, Finish(w)))
  {
    var s' := Next(s, Finish(w));
    if s' != s {
      assert Gone in s'.slots ==> Gone in s.slots;
      forall job: Job ensures Copies(s'.started, job) == Running(s'.slots, job) + Copies(s'.finished, job) {
        RunningUpdate(s.slots, w, Idle, job);
        CopiesSnoc(s.finished, s.slots[w].job, job);
      }
    }
  }

  lemma ExitKeepsInv(s: State, w: nat)
    requires Inv(s)
    ensures Inv(Next(s, Exit(w)))
  {
    var s' := Next(s, Exit(w));
    if s' != s {
      forall job: Job ensures Copies(s'.started, job) == Running(s'.slots, job) + Copies(s'.finished, job) {
        RunningUpdate(s.slots, w, Gone, job);
      }
    }
  }

  lemma EnqueueKeepsInv(s: State, job: Job)
    requires Inv(s)
    ensures Inv(Next(s, Enqueue(job)))
  {
    assert (s.started + s.queue) + [job] == s.started + (s.queue + [job]);
  }

  lemma StepKeepsInv(s: State, step: Step)
    requires Inv(s)
    ensures Inv(Next(s, step))
  {
    match step
    case Take(w) => TakeKeepsInv(s, w);
    case Finish(w) => FinishKeepsInv(s, w);
    case Exit(w) => ExitKeepsInv(s, w);
    case Enqueue(job) => EnqueueKeepsInv(s, job);
    case Close =>
    case Return =>
  }

  lemma {:induction false} RunKeepsInv(workers: nat, steps: seq<Step>)
    ensures Inv(Run(Fresh(workers), steps)) && |Run(Fresh(workers), steps).slots| == workers
  {
    if steps == [] {
      forall job: Job ensures Running(Fresh(workers).slots, job) == 0 {
        NobodyRuns(Fresh(workers).slots, job);
      }
    } else {
      RunKeepsInv(workers, steps[..|steps| - 1]);
      StepKeepsInv(Run(Fresh(workers), steps[..|steps| - 1]), steps[|steps| - 1]);
    }
  }

  /**
   In every interleaving: each copy of a job that was sent is in exactly one place, queued, running or finished; at
   most `workers` run at a time; and jobs start in the order they were sent.
   */
  lemma PoolConserves(workers: nat, steps: seq<Step>, job: Job)
    ensures var s := Run(Fresh(workers), steps);
            && Copies(s.sent, job) == Copies(s.queue, job) + Running(s.slots, job) + Copies(s.finished, job)
            && BusyWorkers(s.slots) <= workers && |s.queue| <= 256
            && s.started <= s.sent
  {
    var s := Run(Fresh(workers), steps);
    RunKeepsInv(workers, steps);
    CopiesConcat(s.started, s.queue, job);
    assert Copies(s.started, job) == Running(s.slots, job) + Copies(s.finished, job);
  }

  /** Enqueueing waits exactly while 256 jobs are queued; and a waiting job is taken whenever a worker is idle. */
  lemma EnqueueWaitsExactlyWhen(s: State, job: Job)
    requires !s.closed && !s.panicked
    ensures var s' := Next(s, Enqueue(job));
            if |s.queue| >= 256 then s' == s else s'.queue == s.queue + [job] && s'.sent == s.sent + [job]
    ensures forall w: nat | w < |s.slots| && s.slots[w] == Idle && s.queue != [] ::
              Next(s, Take(w)).slots[w] == Busy(s.queue[0])
  {
  }

  /** When `Shutdown` returns, every job sent has run exactly as often as it was sent. */
  ghost predicate DrainsOnShutdown(workers: nat) {
    forall steps: seq<Step>, job: Job ::
      var s := Run(Fresh(workers), steps); s.returned ==> Copies(s.finished, job) == Copies(s.sent, job)
  }

  /** A pool without workers returns from `Shutdown` at once and drops what was queued. */
  lemma NoWorkersDropJobs(job: Job)
    ensures !DrainsOnShutdown(0)
  {
    var one, two, steps := [Enqueue(job)], [Enqueue(job), Close], [Enqueue(job), Close, Return];
    assert one[..0] == [] && two[..1] == one && steps[..2] == two;
    assert Run(Fresh(0), one) == Next(Fresh(0), Enqueue(job));
    assert Run(Fresh(0), two) == Next(Run(Fresh(0), one), Close);
    var s := Run(Fresh(0), steps);
    assert s == Next(Run(Fresh(0), two), Return);
    CopiesSnoc([], job, job);
    assert [] + [job] == [job];
    assert s.returned && Copies(s.finished, job) == 0 && Copies(s.sent, job) == 1;
  }

  lemma ReturnedMeansDone(workers: nat, steps: seq<Step>, job: Job)
    requires workers >= 1 && Run(Fresh(workers), steps).returned
    ensures var s := Run(Fresh(workers), steps); Copies(s.finished, job) == Copies(s.sent, job)
  {
    var s := Run(Fresh(workers), steps);
    RunKeepsInv(workers, steps);
    assert s.slots[0] == Gone && Gone in s.slots;
    PoolConserves(workers, steps, job);
    NobodyRuns(s.slots, job);
  }

  /** Shutdown drains the pool exactly when the pool has a worker. */
  lemma DrainsExactlyWhen(workers: nat)
    ensures DrainsOnShutdown(workers) <==> workers >= 1
  {
    if workers == 0 {
      NoWorkersDropJobs(0);
    } else {
      forall steps: seq<Step>, job: Job
        ensures var s := Run(Fresh(workers), steps); s.returned ==> Copies(s.finished, job) == Copies(s.sent, job)
      {
        if Run(Fresh(workers), steps).returned {
          ReturnedMeansDone(workers, steps, job);
        }
      }
    }
  }

  // ---------------------------------------------------------------- shutdown completes

  function Load(slot: Slot): nat {
    match slot case Busy(_) => 2 case Idle => 1 case Gone => 0
  }

  function Weight(slots: seq<Slot>): nat {
    if slots == [] then 0 else Weight(slots[..|slots| - 1]) + Load(slots[|slots| - 1])
  }

  lemma {:induction false} WeightUpdate(slots: seq<Slot>, w: nat, slot: Slot)
    requires w < |slots|
    ensures Weight(slots[w := slot]) + Load(slots[w]) == Weight(slots) + Load(slot)
  {
    var n := |slots| - 1;
    if w < n {
      WeightUpdate(slots[..n], w, slot);
      assert slots[w := slot][..n] == slots[..n][w := slot];
    } else {
      assert slots[w := slot][..n] == slots[..n];
    }
  }

  /** The steps that remain until `Shutdown` returns, whatever the schedule. */
  function Remaining(s: State): nat {
    2 * |s.queue| + Weight(s.slots) + if s.returned then 0 else 1
  }

  /** After the close, each step a worker takes brings the return exactly one step nearer. */
  lemma ShutdownStepCounts(s: State, step: Step)
    requires s.closed && !s.panicked && !step.Enqueue? && step != Close && Next(s, step) != s
    ensures Remaining(Next(s, step)) == Remaining(s) - 1 && Next(s, step).closed && !Next(s, step).panicked
  {
    if !step.Return? {
      WeightUpdate(s.slots, step.w, Next(s, step).slots[step.w]);
    }
  }

  /** After the close, until `Shutdown` has returned, some step can be taken: it cannot get stuck. */
  lemma ShutdownNotStuck(s: State) returns (step: Step)
    requires s.closed && !s.panicked && !s.returned
    ensures !step.Enqueue? && step != Close && Next(s, step) != s
  {
    if w :| 0 <= w < |s.slots| && s.slots[w] != Gone {
      step := if s.slots[w].Busy? then Finish(w) else if s.queue != [] then Take(w) else Exit(w);
      var s' := Next(s, step);
      assert s'.slots[w] != s.slots[w];
    } else {
      step := Return;
      assert Next(s, Return).returned;
    }
  }

  /** After the close, with nobody enqueueing or closing, every step of the schedule does something. */
  predicate Effective(s: State, steps: seq<Step>) {
    forall n: nat | n < |steps| ::
      !steps[n].Enqueue? && steps[n] != Close && Next(Run(s, steps[..n]), steps[n]) != Run(s, steps[..n])
  }

  lemma {:induction false} ScheduleCounts(s: State, steps: seq<Step>)
    requires s.closed && !s.panicked && Effective(s, steps)
    ensures var s' := Run(s, steps);
            s'.closed && !s'.panicked && |steps| <= Remaining(s) && Remaining(s') == Remaining(s) - |steps|
  {
    if steps != [] {
      var n := |steps| - 1;
      assert forall m: nat | m < n :: steps[..n][..m] == steps[..m];
      ScheduleCounts(s, steps[..n]);
      ShutdownStepCounts(Run(s, steps[..n]), steps[n]);
    }
  }

  /** A pool whose caller has returned has no worker left and, if it ever had one, nothing queued. */
  lemma ReturnedMeansNothingRemains(s: State)
    requires Inv(s) && s.slots != [] && s.returned
    ensures Remaining(s) == 0
  {
    assert s.slots[0] == Gone && Gone in s.slots;
    NoWeight(s.slots);
  }

  lemma {:induction false} NoWeight(slots: seq<Slot>)
    requires forall w | 0 <= w < |slots| :: slots[w] == Gone
    ensures Weight(slots) == 0
  {
    if slots != [] {
      NoWeight(slots[..|slots| - 1]);
    }
  }

  lemma {:induction false} RunFromKeepsInv(s: State, steps: seq<Step>)
    requires Inv(s)
    ensures Inv(Run(s, steps)) && |Run(s, steps).slots| == |s.slots|
  {
    if steps != [] {
      RunFromKeepsInv(s, steps[..|steps| - 1]);
      StepKeepsInv(Run(s, steps[..|steps| - 1]), steps[|steps| - 1]);
    }
  }

  /**
   From any closed state of a pool with a worker, every schedule of effective steps brings `Shutdown` to its return
   after exactly `Remaining(s)` of them, and not before; and every shorter one can be continued.
   */
  lemma ShutdownCompletes(s: State, steps: seq<Step>)
    requires Inv(s) && s.slots != [] && s.closed && !s.panicked && Effective(s, steps)
    ensures |steps| <= Remaining(s)
    ensures Run(s, steps).returned <==> |steps| == Remaining(s)
    ensures |steps| < Remaining(s) ==> exists step :: Effective(s, steps + [step])
  {
    var s' := Run(s, steps);
    ScheduleCounts(s, steps);
    RunFromKeepsInv(s, steps);
    if s'.returned {
      ReturnedMeansNothingRemains(s');
    } else {
      var step := ShutdownNotStuck(s');
      forall n: nat | n < |steps| + 1
        ensures (steps + [step])[..n] == if n <= |steps| then steps[..n] else steps
      {
      }
      assert steps[..|steps|] == steps;
      assert Effective(s, steps + [step]);
    }
  }
}
