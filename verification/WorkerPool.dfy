/** Collecting the metrics of a batch of sessions with a pool of workers, as interleaved steps of the
    collector, the workers and the goroutine that waits for them. */
module WorkerPool {
  import opened Sessions

  /** The sessions of a batch: for each its UUID and what collecting its metric gives. */
  datatype Job<+M> = Job(uuid: string, metric: Option<M>)

  datatype Worker = Free | Busy(job: nat) | Gone

  datatype State<+M> = State(
    jobs: seq<Job<M>>,
    sent: nat, queue: seq<nat>, jobsClosed: bool,
    workers: seq<Worker>,
    results: seq<nat>, resultsClosed: bool,
    collected: seq<nat>, metrics: map<string, M>, returned: bool)

  datatype Step = Send | CloseJobs | Take(w: nat) | Finish(w: nat) | Exit(w: nat) | CloseResults | Collect | Return

  function Min(a: int, b: int): int { if a < b then a else b }

  /** The number of goroutines started; a range over a negative number starts none. */
  function WorkerCount(sessions: nat, configured: int): nat {
    var workerCount := Min(sessions, configured);
    var count := if workerCount == 0 then Min(sessions, 8) else workerCount;
    if count < 0 then 0 else count
  }

  function Start<M>(jobs: seq<Job<M>>, workers: nat): State<M> {
    State(jobs, 0, [], false, seq(workers, _ => Free), [], false, [], map[], false)
  }

  /** Both channels hold as many as there are sessions; a send to a full one would block. */
  predicate Enabled<M>(s: State<M>, step: Step) {
    match step
    case Send => s.sent < |s.jobs| && |s.queue| < |s.jobs|
    case CloseJobs => s.sent == |s.jobs| && !s.jobsClosed
    case Take(w) => w < |s.workers| && s.workers[w].Free? && s.queue != []
    case Finish(w) => w < |s.workers| && s.workers[w].Busy? && |s.results| < |s.jobs|
    case Exit(w) => w < |s.workers| && s.workers[w].Free? && s.queue == [] && s.jobsClosed
    case CloseResults => s.jobsClosed && !s.resultsClosed && AllGone(s.workers)
    case Collect => s.jobsClosed && s.results != []
    case Return => s.resultsClosed && s.results == [] && !s.returned
  }

  predicate AllGone(workers: seq<Worker>) {
    forall w :: 0 <= w < |workers| ==> workers[w].Gone?
  }

  /** One result into the map; a failed one is skipped. */
  function Put<M>(metrics: map<string, M>, job: Job<M>): map<string, M> {
    if job.metric.Some? then metrics[job.uuid := job.metric.value] else metrics
  }

  function Apply<M>(s: State<M>, step: Step): State<M>
    requires Enabled(s, step)
    requires step == Collect ==> s.results[0] < |s.jobs|
  {
    match step
    case Send => s.(sent := s.sent + 1, queue := s.queue + [s.sent])
    case CloseJobs => s.(jobsClosed := true)
    case Take(w) => s.(workers := s.workers[w := Busy(s.queue[0])], queue := s.queue[1..])
    case Finish(w) => s.(workers := s.workers[w := Free], results := s.results + [s.workers[w].job])
    case Exit(w) => s.(workers := s.workers[w := Gone])
    case CloseResults => s.(resultsClosed := true)
    case Collect =>
      s.(results := s.results[1..], collected := s.collected + [s.results[0]],
         metrics := Put(s.metrics, s.jobs[s.results[0]]))
    case Return => s.(returned := true)
  }

  // ---------------------------------------------------------------------------------------
  // Counting the jobs in each place.
  // ---------------------------------------------------------------------------------------

  /** How often a job occurs. */
  function Times(s: seq<nat>, j: nat): nat {
    if s == [] then 0 else Times(s[..|s| - 1], j) + if s[|s| - 1] == j then 1 else 0
  }

  function Holds(w: Worker, j: nat): nat {
    if w.Busy? && w.job == j then 1 else 0
  }

  /** How many workers have the job. */
  function InFlight(workers: seq<Worker>, j: nat): nat {
    if workers == [] then 0 else InFlight(workers[..|workers| - 1], j) + Holds(workers[|workers| - 1], j)
  }

  function BusyCount(workers: seq<Worker>): nat {
    if workers == [] then 0 else BusyCount(workers[..|workers| - 1]) + if workers[|workers| - 1].Busy? then 1 else 0
  }

  function GoneCount(workers: seq<Worker>): nat {
    if workers == [] then 0 else GoneCount(workers[..|workers| - 1]) + if workers[|workers| - 1].Gone? then 1 else 0
  }

  lemma {:induction false} TimesSnoc(s: seq<nat>, x: nat, j: nat)
    ensures Times(s + [x], j) == Times(s, j) + if x == j then 1 else 0
  {
    assert (s + [x])[..|s|] == s;
  }

  lemma {:induction false} TimesHead(s: seq<nat>, j: nat)
    requires s != []
    ensures Times(s, j) == Times(s[1..], j) + if s[0] == j then 1 else 0
  {
    var n := |s| - 1;
    if n > 0 {
      TimesHead(s[..n], j);
      assert s[..n][1..] == s[1..][..n - 1];
    } else {
      assert s[..0] == [] && s[1..] == [];
    }
  }

  lemma {:induction false} ChangeWorker(workers: seq<Worker>, w: nat, now: Worker, j: nat)
    requires w < |workers|
    ensures InFlight(workers[w := now], j) + Holds(workers[w], j) == InFlight(workers, j) + Holds(now, j)
  {
    var n := |workers| - 1;
    if w < n {
      ChangeWorker(workers[..n], w, now, j);
      assert workers[w := now][..n] == workers[..n][w := now];
    } else {
      assert workers[w := now][..n] == workers[..n];
    }
  }

  lemma {:induction false} ChangeCounts(workers: seq<Worker>, w: nat, now: Worker)
    requires w < |workers|
    ensures BusyCount(workers[w := now]) + (if workers[w].Busy? then 1 else 0) == BusyCount(workers) + (if now.Busy? then 1 else 0)
    ensures GoneCount(workers[w := now]) + (if workers[w].Gone? then 1 else 0) == GoneCount(workers) + (if now.Gone? then 1 else 0)
  {
    var n := |workers| - 1;
    if w < n {
      ChangeCounts(workers[..n], w, now);
      assert workers[w := now][..n] == workers[..n][w := now];
    } else {
      assert workers[w := now][..n] == workers[..n];
    }
  }

  lemma {:induction false} GoneAll(workers: seq<Worker>, j: nat)
    ensures GoneCount(workers) <= |workers|
    ensures GoneCount(workers) == |workers| <==> AllGone(workers)
    ensures AllGone(workers) ==> BusyCount(workers) == 0 == InFlight(workers, j)
  {
    if workers != [] {
      var n := |workers| - 1;
      GoneAll(workers[..n], j);
      assert AllGone(workers) <==> AllGone(workers[..n]) && workers[n].Gone?;
    }
  }

  // ---------------------------------------------------------------------------------------
  // What every step keeps.
  // ---------------------------------------------------------------------------------------

  /** The places of a job together. */
  function Circulating<M>(s: State<M>, j: nat): nat {
    Times(s.queue, j) + InFlight(s.workers, j) + Times(s.results, j) + Times(s.collected, j)
  }

  /** Every job sent is in one place, once; the others are nowhere. */
  ghost predicate OnceEach<M>(s: State<M>) {
    forall j: nat :: Circulating(s, j) == if j < s.sent then 1 else 0
  }

  /** Queued, in-flight, finished and collected jobs are as many as were sent; the channels close,
      and the workers leave, in order. */
  ghost predicate Orderly<M>(s: State<M>) {
    && s.sent <= |s.jobs|
    && |s.queue| + BusyCount(s.workers) + |s.results| + |s.collected| == s.sent
    && (s.jobsClosed ==> s.sent == |s.jobs|)
    && (s.resultsClosed ==> s.jobsClosed && AllGone(s.workers))
    && (s.returned ==> s.resultsClosed && s.results == [])
    && (GoneCount(s.workers) > 0 ==> s.jobsClosed && s.queue == [])
  }

  predicate InRange(order: seq<nat>, n: nat) {
    forall i :: 0 <= i < |order| ==> order[i] < n
  }

  /** The loop a single collector would run. */
  function Sequential<M>(jobs: seq<Job<M>>, order: seq<nat>): map<string, M>
    requires InRange(order, |jobs|)
  {
    if order == [] then map[]
    else Put(Sequential(jobs, order[..|order| - 1]), jobs[order[|order| - 1]])
  }

  /** The metrics are those of the collected jobs, put in the order of their arrival. */
  ghost predicate Gathered<M>(s: State<M>) {
    InRange(s.results, |s.jobs|) && InRange(s.collected, |s.jobs|) && s.metrics == Sequential(s.jobs, s.collected)
  }

  ghost predicate Conserved<M>(s: State<M>) {
    OnceEach(s) && Orderly(s) && Gathered(s)
  }

  /** Counts the steps still to be made. */
  function Measure<M>(s: State<M>): int {
    4 * (|s.jobs| - s.sent) + 3 * |s.queue| + 2 * BusyCount(s.workers) + |s.results|
    + (if s.jobsClosed then 0 else 1) + (|s.workers| - GoneCount(s.workers))
    + (if s.resultsClosed then 0 else 1) + (if s.returned then 0 else 1)
  }

  lemma {:induction false} NoneBusy(workers: nat, j: nat)
    ensures var w := seq(workers, _ => Free); BusyCount(w) == 0 == GoneCount(w) && InFlight(w, j) == 0
  {
    if workers > 0 {
      NoneBusy(workers - 1, j);
      assert seq(workers, _ => Free)[..workers - 1] == seq(workers - 1, _ => Free);
    }
  }

  lemma StartConserved<M>(jobs: seq<Job<M>>, workers: nat)
    ensures Conserved(Start(jobs, workers)) && Measure(Start(jobs, workers)) == 4 * |jobs| + workers + 3
  {
    NoneBusy(workers, 0);
    forall j: nat
      ensures Circulating(Start(jobs, workers), j) == 0
    {
      NoneBusy(workers, j);
    }
  }

  /** No send ever waits for room: neither the collector's of a job nor a worker's of a result. */
  lemma NoSendBlocks<M>(s: State<M>)
    requires Conserved(s)
    ensures s.sent < |s.jobs| ==> Enabled(s, Send)
    ensures forall w :: 0 <= w < |s.workers| && s.workers[w].Busy? ==> Enabled(s, Finish(w))
  {
    forall w | 0 <= w < |s.workers| && s.workers[w].Busy?
      ensures Enabled(s, Finish(w))
    {
      ChangeCounts(s.workers, w, Free);
    }
  }

  lemma OnceStep<M>(s: State<M>, step: Step, j: nat)
    requires Conserved(s) && Enabled(s, step)
    ensures Circulating(Apply(s, step), j) == if j < Apply(s, step).sent then 1 else 0
  {
    assert Circulating(s, j) == if j < s.sent then 1 else 0;
    hide OnceEach, Orderly, Times, InFlight;
    match step
    case Send => TimesSnoc(s.queue, s.sent, j);
    case Take(w) =>
      TimesHead(s.queue, j);
      ChangeWorker(s.workers, w, Busy(s.queue[0]), j);
    case Finish(w) =>
      TimesSnoc(s.results, s.workers[w].job, j);
      ChangeWorker(s.workers, w, Free, j);
    case Exit(w) => ChangeWorker(s.workers, w, Gone, j);
    case Collect =>
      TimesHead(s.results, j);
      TimesSnoc(s.collected, s.results[0], j);
    case _ =>
  }

  lemma OrderlyStep<M>(s: State<M>, step: Step)
    requires Orderly(s) && Enabled(s, step) && (step == Collect ==> s.results[0] < |s.jobs|)
    ensures Orderly(Apply(s, step)) && Measure(Apply(s, step)) == Measure(s) - 1
  {
    match step
    case Send =>
    case CloseJobs =>
    case Take(w) => ChangeCounts(s.workers, w, Busy(s.queue[0]));
    case Finish(w) => ChangeCounts(s.workers, w, Free);
    case Exit(w) => ChangeCounts(s.workers, w, Gone);
    case CloseResults =>
    case Collect =>
    case Return =>
  }

  /** A worker's job was sent. */
  lemma JobSent<M>(s: State<M>, w: nat)
    requires Conserved(s) && w < |s.workers| && s.workers[w].Busy?
    ensures s.workers[w].job < |s.jobs|
  {
    var j := s.workers[w].job;
    ChangeWorker(s.workers, w, Free, j);
    assert Circulating(s, j) == if j < s.sent then 1 else 0;
    hide OnceEach, Times;
  }

  lemma GatheredStep<M>(s: State<M>, step: Step)
    requires Conserved(s) && Enabled(s, step)
    ensures Gathered(Apply(s, step))
  {
    match step
    case Finish(w) => JobSent(s, w);
    case Collect => assert (s.collected + [s.results[0]])[..|s.collected|] == s.collected;
    case _ =>
  }

  lemma KeepsConserved<M>(s: State<M>, step: Step)
    requires Conserved(s) && Enabled(s, step)
    ensures Conserved(Apply(s, step)) && Measure(Apply(s, step)) == Measure(s) - 1
  {
    forall j: nat
      ensures Circulating(Apply(s, step), j) == if j < Apply(s, step).sent then 1 else 0
    {
      OnceStep(s, step, j);
    }
    OrderlyStep(s, step);
    GatheredStep(s, step);
    hide Enabled, Orderly, Gathered, Measure, Circulating;
  }

  /** Until the collector has returned, some step can be made. */
  lemma NoDeadlock<M>(s: State<M>) returns (step: Step)
    requires Conserved(s) && !s.returned
    ensures Enabled(s, step)
  {
    NoSendBlocks(s);
    if s.sent < |s.jobs| {
      step := Send;
    } else if !s.jobsClosed {
      step := CloseJobs;
    } else if AllGone(s.workers) {
      step := if !s.resultsClosed then CloseResults else if s.results != [] then Collect else Return;
    } else {
      var w :| 0 <= w < |s.workers| && !s.workers[w].Gone?;
      step := if s.workers[w].Busy? then Finish(w) else if s.queue != [] then Take(w) else Exit(w);
    }
  }

  // ---------------------------------------------------------------------------------------
  // Whole runs.
  // ---------------------------------------------------------------------------------------

  predicate Runs<M(==)>(s: State<M>, steps: seq<Step>)
    decreases |steps|
  {
    steps == []
    || (Enabled(s, steps[0]) && (steps[0] == Collect ==> s.results[0] < |s.jobs|) && Runs(Apply(s, steps[0]), steps[1..]))
  }

  function Final<M(==)>(s: State<M>, steps: seq<Step>): State<M>
    requires Runs(s, steps)
    decreases |steps|
  {
    if steps == [] then s else Final(Apply(s, steps[0]), steps[1..])
  }

  lemma {:induction false} RunConserves<M>(s: State<M>, steps: seq<Step>)
    requires Conserved(s) && Runs(s, steps)
    ensures Conserved(Final(s, steps)) && Measure(Final(s, steps)) == Measure(s) - |steps|
    ensures Final(s, steps).jobs == s.jobs && |Final(s, steps).workers| == |s.workers|
    decreases |steps|
  {
    if steps != [] {
      KeepsConserved(s, steps[0]);
      SameBatch(s, steps[0]);
      RunConserves(Apply(s, steps[0]), steps[1..]);
      hide Conserved, Measure, Enabled, Apply;
    }
  }

  lemma SameBatch<M>(s: State<M>, step: Step)
    requires Enabled(s, step) && (step == Collect ==> s.results[0] < |s.jobs|)
    ensures Apply(s, step).jobs == s.jobs && |Apply(s, step).workers| == |s.workers|
  {
  }

  function FirstJobs(n: nat): (r: seq<nat>)
    ensures InRange(r, n)
  {
    seq(n, i => i)
  }

  ghost predicate DistinctUUIDs<M>(jobs: seq<Job<M>>) {
    forall i, k :: 0 <= i < k < |jobs| ==> jobs[i].uuid != jobs[k].uuid
  }

  /** With distinct UUIDs, a job's metric is in the map exactly if the job was put there and gave one. */
  lemma {:induction false} SequentialHas<M>(jobs: seq<Job<M>>, order: seq<nat>, j: nat)
    requires InRange(order, |jobs|) && DistinctUUIDs(jobs) && j < |jobs|
    ensures var m := Sequential(jobs, order);
            && (jobs[j].uuid in m <==> Times(order, j) > 0 && jobs[j].metric.Some?)
            && (jobs[j].uuid in m ==> m[jobs[j].uuid] == jobs[j].metric.value)
  {
    if order != [] {
      var n := |order| - 1;
      SequentialHas(jobs, order[..n], j);
      assert order[n] != j ==> jobs[order[n]].uuid != jobs[j].uuid;
    }
  }

  lemma {:induction false} SequentialKeys<M>(jobs: seq<Job<M>>, order: seq<nat>, uuid: string)
    requires InRange(order, |jobs|) && uuid in Sequential(jobs, order)
    ensures exists j :: 0 <= j < |jobs| && jobs[j].uuid == uuid
  {
    var n := |order| - 1;
    if uuid == jobs[order[n]].uuid {
    } else {
      SequentialKeys(jobs, order[..n], uuid);
    }
  }

  /** The order in which jobs are put into the map does not matter. */
  lemma {:induction false} SameJobsSameMap<M>(jobs: seq<Job<M>>, a: seq<nat>, b: seq<nat>)
    requires InRange(a, |jobs|) && InRange(b, |jobs|) && DistinctUUIDs(jobs)
    requires forall j: nat :: j < |jobs| ==> Times(a, j) == Times(b, j)
    ensures Sequential(jobs, a) == Sequential(jobs, b)
  {
    var (m, n) := (Sequential(jobs, a), Sequential(jobs, b));
    forall uuid
      ensures uuid in m <==> uuid in n
      ensures uuid in m ==> m[uuid] == n[uuid]
    {
      if uuid in m {
        SequentialKeys(jobs, a, uuid);
      }
      if uuid in n {
        SequentialKeys(jobs, b, uuid);
      }
      if j :| 0 <= j < |jobs| && jobs[j].uuid == uuid {
        SequentialHas(jobs, a, j);
        SequentialHas(jobs, b, j);
        assert Times(a, j) == Times(b, j);
      }
    }
  }

  lemma {:induction false} FirstJobsOnce(n: nat, j: nat)
    ensures Times(FirstJobs(n), j) == if j < n then 1 else 0
  {
    if n > 0 {
      assert FirstJobs(n) == FirstJobs(n - 1) + [n - 1];
      FirstJobsOnce(n - 1, j);
      TimesSnoc(FirstJobs(n - 1), n - 1, j);
    }
  }

  /** With a worker, every complete run has collected each job exactly once. */
  lemma {:induction false} CollectedOnce<M>(s: State<M>, j: nat)
    requires Conserved(s) && s.returned && s.workers != []
    ensures Times(s.collected, j) == if j < |s.jobs| then 1 else 0
  {
    GoneAll(s.workers, j);
    assert Circulating(s, j) == if j < s.sent then 1 else 0;
    hide OnceEach;
  }

  /** The map has the metric of each job that gave one, under its UUID, and nothing else. */
  ghost predicate Complete<M>(jobs: seq<Job<M>>, metrics: map<string, M>) {
    && (forall j :: 0 <= j < |jobs| ==> (jobs[j].uuid in metrics <==> jobs[j].metric.Some?))
    && (forall j :: 0 <= j < |jobs| && jobs[j].metric.Some? ==> metrics[jobs[j].uuid] == jobs[j].metric.value)
    && (forall uuid :: uuid in metrics ==> exists j :: 0 <= j < |jobs| && jobs[j].uuid == uuid)
  }

  lemma {:induction false} SequentialComplete<M>(jobs: seq<Job<M>>)
    requires DistinctUUIDs(jobs)
    ensures Complete(jobs, Sequential(jobs, FirstJobs(|jobs|)))
  {
    var m := Sequential(jobs, FirstJobs(|jobs|));
    forall j | 0 <= j < |jobs|
      ensures jobs[j].uuid in m <==> jobs[j].metric.Some?
      ensures jobs[j].metric.Some? ==> m[jobs[j].uuid] == jobs[j].metric.value
    {
      SequentialHas(jobs, FirstJobs(|jobs|), j);
      FirstJobsOnce(|jobs|, j);
    }
    forall uuid | uuid in m
      ensures exists j :: 0 <= j < |jobs| && jobs[j].uuid == uuid
    {
      SequentialKeys(jobs, FirstJobs(|jobs|), uuid);
    }
  }

  /** Any interleaving of at least one worker ends after the same number of steps, with the map a
      single collector would build. */
  lemma {:induction false} EveryRun<M>(jobs: seq<Job<M>>, workers: nat, steps: seq<Step>)
    requires workers > 0 && DistinctUUIDs(jobs) && Runs(Start(jobs, workers), steps)
    ensures |steps| <= 4 * |jobs| + workers + 3
    ensures var s := Final(Start(jobs, workers), steps);
            && (s.returned <==> |steps| == 4 * |jobs| + workers + 3)
            && (s.returned ==> s.metrics == Sequential(jobs, FirstJobs(|jobs|)) && Complete(jobs, s.metrics))
  {
    StartConserved(jobs, workers);
    RunConserves(Start(jobs, workers), steps);
    var s := Final(Start(jobs, workers), steps);
    GoneAll(s.workers, 0);
    if s.returned {
      forall j: nat | j < |jobs|
        ensures Times(s.collected, j) == Times(FirstJobs(|jobs|), j)
      {
        CollectedOnce(s, j);
        FirstJobsOnce(|jobs|, j);
      }
      SameJobsSameMap(jobs, s.collected, FirstJobs(|jobs|));
      SequentialComplete(jobs);
    }
    hide OnceEach, Times, BusyCount, GoneCount, Sequential, Complete;
  }

  /** Workers are started exactly for a number configured that is not negative. */
  lemma SomeWorker(sessions: nat, configured: int)
    requires sessions > 0
    ensures WorkerCount(sessions, configured) > 0 <==> configured >= 0
    ensures configured >= 0 ==>
              var most := if configured == 0 then 8 else configured;
              WorkerCount(sessions, configured) == if sessions < most then sessions else most
  {
  }

  /** Without a worker nothing is collected. */
  lemma {:induction false} NoWorkers<M>(jobs: seq<Job<M>>, steps: seq<Step>)
    requires Runs(Start(jobs, 0), steps) && Final(Start(jobs, 0), steps).returned
    ensures Final(Start(jobs, 0), steps).metrics == map[]
  {
    StartConserved(jobs, 0);
    NobodyCollects(Start(jobs, 0), steps);
  }

  lemma {:induction false} NobodyCollects<M>(s: State<M>, steps: seq<Step>)
    requires s.workers == [] && s.results == [] && s.metrics == map[] && Runs(s, steps)
    ensures Final(s, steps).metrics == map[]
    decreases |steps|
  {
    if steps != [] {
      NobodyCollects(Apply(s, steps[0]), steps[1..]);
    }
  }
}
