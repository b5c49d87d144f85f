/**
  Whole runs of the worker threads: their results, the shared counter, and the verdict of `main`
  in uprobes.w/uthread.c.
 */
module Uthread {
  import opened Words
  import opened Handshake
  import opened Sums
  import opened Workers

  const MAX_THREADS: nat := 1000

  // ---------- What a thread returns, in closed form ----------

  /** Calls `m < n` that use slot `j`. */
  function Visits(n: nat, j: nat): nat
    requires j < NUM_PROBES
  {
    (n + 9 - j) / 10
  }

  lemma VisitsStep(n: nat, j: nat)
    requires j < NUM_PROBES
    ensures Visits(n + 1, j) == Visits(n, j) + if n % 10 == j then 1 else 0
    ensures Visits(n, n % 10) == n / 10
  {
  }

  lemma {:induction false} AfterForm(job: Job, tid: int, n: nat, j: nat)
    requires j < NUM_PROBES
    ensures After(job, tid, n)[j] == Calls(FRESH, tid, Repeat(job.consumers[j], Visits(n, j)))
  {
    if n == 0 {
      assert Visits(0, j) == 0;
    } else {
      AfterForm(job, tid, n - 1, j);
      VisitsStep(n - 1, j);
      if Index(n - 1) == j {
        var c, v := job.consumers[j], Visits(n, j);
        assert Repeat(c, v)[..v - 1] == Repeat(c, v - 1);
      }
    }
  }

  /** Call `n` is the `n / 10 + 1`st of its slot, and reports that many identical calls. */
  lemma VerdictForm(job: Job, tid: int, n: nat)
    ensures VerdictOf(job, tid, n) == Verdict(Calls(FRESH, tid, Repeat(job.consumers[n % 10], n / 10 + 1)))
  {
    var c, v := job.consumers[n % 10], n / 10;
    AfterForm(job, tid, n, n % 10);
    VisitsStep(n, n % 10);
    assert Repeat(c, v + 1)[..v] == Repeat(c, v);
  }

  /** The first pass over the table decides what later passes can see. */
  lemma FirstPass(job: Job, tid: int, n: nat)
    requires tid != 0 && n < 10
    ensures var c := job.consumers[n];
            VerdictOf(job, tid, n) == if c == 0 then -1 else if c == 1 then 0 else -2
  {
    var c := job.consumers[n];
    VerdictForm(job, tid, n);
    RepeatTotals(c, 1);
    VerdictExact(tid, Repeat(c, 1));
  }

  /** The probe at which a thread of this job stops: the first one it does not expect. */
  predicate Unexpected(job: Job, j: nat)
    requires j < NUM_PROBES
  {
    if job.mode.Counting? then job.consumers[j] != 1 else job.consumers[j] != 0
  }

  function FirstUnexpected(job: Job, j: nat): (r: nat)
    requires j <= NUM_PROBES
    ensures j <= r <= NUM_PROBES
    ensures forall i :: j <= i < r ==> !Unexpected(job, i)
    ensures r < NUM_PROBES ==> Unexpected(job, r)
    decreases NUM_PROBES - j
  {
    if j == NUM_PROBES || Unexpected(job, j) then j else FirstUnexpected(job, j + 1)
  }

  /** A job makes whole passes over the ten probes, few enough for an `int` loop counter. */
  predicate WholePasses(job: Job) {
    job.calls % 10 == 0 && 10 <= job.calls < 10 * HALF
  }

  /** With every point as expected no call of a later pass ends the thread. */
  lemma LaterPass(job: Job, tid: int, m: nat)
    requires WholePasses(job) && tid != 0 && 10 <= m < job.calls && !Unexpected(job, m % 10)
    ensures !Stop(job.mode, VerdictOf(job, tid, m))
  {
    VerdictForm(job, tid, m);
    if job.mode.Counting? {
      AllHit(tid, m / 10 + 1);
    } else {
      AllMiss(tid, m / 10 + 1);
    }
  }

  /** A call ends the thread exactly when it is the first pass over an unexpected probe. */
  lemma StopsForm(job: Job, tid: int, m: nat)
    requires WholePasses(job) && tid != 0 && m < job.calls
    requires m < 10 || FirstUnexpected(job, 0) == NUM_PROBES
    ensures Stop(job.mode, VerdictOf(job, tid, m)) <==> m < 10 && Unexpected(job, m)
  {
    if m < 10 {
      FirstPass(job, tid, m);
    } else {
      LaterPass(job, tid, m);
    }
  }

  lemma {:induction false} ContinuesForm(job: Job, tid: int, n: nat)
    requires WholePasses(job) && tid != 0 && n <= job.calls
    ensures Continues(job, tid, n) <==> n <= FirstUnexpected(job, 0) || FirstUnexpected(job, 0) == NUM_PROBES
  {
    var first := FirstUnexpected(job, 0);
    if n == 0 {
    } else {
      var m := n - 1;
      ContinuesForm(job, tid, m);
      if Continues(job, tid, m) {
        StopsForm(job, tid, m);
        assert m < 10 ==> (Unexpected(job, m) <==> m == first);
      }
    }
  }

  lemma ExpectedAt(job: Job, n: nat)
    requires n < FirstUnexpected(job, 0) || FirstUnexpected(job, 0) == NUM_PROBES
    ensures job.consumers[Index(n)] == if job.mode.Counting? then 1 else 0
  {
    assert !Unexpected(job, Index(n));
  }

  /** Up to the first unexpected probe every call runs the handlers its mode expects. */
  lemma {:induction false} HandlersForm(job: Job, n: nat)
    requires WholePasses(job) && (n <= FirstUnexpected(job, 0) || FirstUnexpected(job, 0) == NUM_PROBES)
    ensures Handlers(job, n) == if job.mode.Counting? then n else 0
  {
    if n == 0 {
    } else {
      HandlersForm(job, n - 1);
      ExpectedAt(job, n - 1);
    }
  }

  /** What every thread of the job returns. */
  function Outcome(job: Job): int
    requires WholePasses(job)
  {
    var first := FirstUnexpected(job, 0);
    if first == NUM_PROBES then 0
    else if job.consumers[first] == 0 then -1
    else if job.consumers[first] == 1 then 0
    else -2
  }

  /** How many handlers every thread of the job runs. */
  function HandlerRuns(job: Job): nat
    requires WholePasses(job)
  {
    var first := FirstUnexpected(job, 0);
    if first == NUM_PROBES then (if job.mode.Counting? then job.calls else 0)
    else job.consumers[first] + if job.mode.Counting? then first else 0
  }

  /** The verdict and the handler runs of a thread that stops at the first unexpected probe. */
  lemma FirstForm(job: Job, tid: int)
    requires WholePasses(job) && tid != 0 && FirstUnexpected(job, 0) < NUM_PROBES
    ensures var first := FirstUnexpected(job, 0);
            && VerdictOf(job, tid, first) == Outcome(job)
            && Handlers(job, first) + job.consumers[Index(first)] == HandlerRuns(job)
  {
    var first := FirstUnexpected(job, 0);
    assert Index(first) == first;
    FirstPass(job, tid, first);
    HandlersForm(job, first);
  }

  lemma StoppedAtFirst(job: Job, tid: int, n: nat)
    requires WholePasses(job) && tid != 0 && n < job.calls
    requires Continues(job, tid, n) && Stop(job.mode, VerdictOf(job, tid, n))
    ensures n == FirstUnexpected(job, 0) < NUM_PROBES
  {
    ContinuesForm(job, tid, n);
    StopsForm(job, tid, n);
  }

  lemma CompletedForm(job: Job, tid: int)
    requires WholePasses(job) && tid != 0 && Continues(job, tid, job.calls)
    ensures Outcome(job) == 0 && Handlers(job, job.calls) == HandlerRuns(job)
  {
    ContinuesForm(job, tid, job.calls);
    HandlersForm(job, job.calls);
  }

  lemma FinishedForm(job: Job, th: Thread)
    requires WholePasses(job) && ThreadOk(job, th) && th.stage.Finished?
    ensures th.stage.result == Outcome(job) && Completed(job, th) == HandlerRuns(job)
  {
    if th.call < job.calls {
      StoppedAtFirst(job, th.tid, th.call);
      FirstForm(job, th.tid);
    } else {
      CompletedForm(job, th.tid);
    }
  }

  // ---------- Every schedule ends, and every run can be completed ----------

  function CallCost(job: Job, n: nat): nat
  {
    2 + 3 * job.consumers[Index(n)]
  }

  function CostFrom(job: Job, n: nat): (c: nat)
    ensures c >= 1
    decreases job.calls - n
  {
    if n >= job.calls then 1 else CallCost(job, n) + CostFrom(job, n + 1)
  }

  /** A bound on the steps a thread still takes. */
  function Left(job: Job, th: Thread): int
  {
    var rest := CostFrom(job, th.call + 1) + 3 * job.consumers[Index(th.call)];
    match th.stage
    case Enter => CostFrom(job, th.call)
    case Trap(k) => rest - 3 * k + 1
    case Counted(k) => rest - 3 * k
    case Store(k, _) => rest - 3 * k - 1
    case Finished(_) => 0
    case Aborted => 0
  }

  lemma StepLeft(job: Job, th: Thread, numProbes: Word)
    requires ThreadOk(job, th) && Runnable(th)
    ensures Left(job, ThreadStep(job, th, numProbes)) < Left(job, th)
  {
    match th.stage
    case Enter =>
    case Trap(_) =>
    case Counted(_) =>
    case Store(_, _) =>
  }

  lemma LeftIsWork(job: Job, th: Thread)
    requires ThreadOk(job, th)
    ensures Left(job, th) >= if Runnable(th) then 1 else 0
  {
  }

  function LeftBy(job: Job): Thread -> nat {
    (th: Thread) => var left := Left(job, th); if left < 0 then 0 else left
  }

  function TotalLeft(job: Job, threads: seq<Thread>): nat {
    Sum(LeftBy(job), threads)
  }

  lemma TotalLeftDecreases(job: Job, s: State, t: nat)
    requires Tables(s) && ThreadsOk(job, s) && Enabled(s, t)
    ensures TotalLeft(job, Next(job, s, t).threads) < TotalLeft(job, s.threads)
  {
    var next := ThreadStep(job, s.threads[t], s.numProbes);
    StepLeft(job, s.threads[t], s.numProbes);
    LeftIsWork(job, s.threads[t]);
    SumUpdate(LeftBy(job), s.threads, t, next);
  }

  /** No schedule is longer than the work there is. */
  lemma {:induction false} SchedulesEnd(job: Job, s: State, schedule: seq<nat>)
    requires Tables(s) && ThreadsOk(job, s) && Valid(job, s, schedule)
    ensures |schedule| <= TotalLeft(job, s.threads)
    decreases |schedule|
  {
    if schedule == [] {
    } else {
      NextKeepsOk(job, s, schedule[0]);
      TotalLeftDecreases(job, s, schedule[0]);
      SchedulesEnd(job, Next(job, s, schedule[0]), schedule[1..]);
    }
  }

  /** Every run can be completed: no thread ever blocks another. */
  lemma {:induction false} CanComplete(job: Job, s: State) returns (schedule: seq<nat>)
    requires Tables(s) && ThreadsOk(job, s)
    ensures Valid(job, s, schedule) && AllFinished(Exec(job, s, schedule))
    decreases TotalLeft(job, s.threads)
  {
    if t: nat :| t < |s.threads| && !s.threads[t].stage.Finished? {
      assert ThreadOk(job, s.threads[t]);
      NextKeepsOk(job, s, t);
      TotalLeftDecreases(job, s, t);
      var rest := CanComplete(job, Next(job, s, t));
      schedule := [t] + rest;
      assert schedule[1..] == rest;
    } else {
      schedule := [];
    }
  }

  // ---------- Whole runs ----------

  /** `main` has created the threads; `base` is the counter's value at that time. */
  function Launch(tids: seq<int>, base: Word): (s: State)
    ensures Tables(s)
  {
    State(seq(|tids|, t requires 0 <= t < |tids| => Start(tids[t])), base, false)
  }

  predicate TidsOk(tids: seq<int>) {
    forall t :: 0 <= t < |tids| ==> tids[t] > 0
  }

  lemma NothingCompleted(job: Job, threads: seq<Thread>)
    requires forall t :: 0 <= t < |threads| ==> threads[t].call == 0 && threads[t].stage.Enter?
    ensures TotalCompleted(job, threads) == 0
  {
    SumEqual(CompletedBy(job), threads, 0);
  }

  lemma LaunchOk(job: Job, tids: seq<int>, base: Word)
    requires TidsOk(tids)
    ensures ThreadsOk(job, Launch(tids, base)) && CounterExact(job, base, Launch(tids, base))
  {
    NothingCompleted(job, Launch(tids, base).threads);
  }

  lemma EqualShares(job: Job, threads: seq<Thread>, h: nat)
    requires forall t :: 0 <= t < |threads| ==> Completed(job, threads[t]) == h
    ensures TotalCompleted(job, threads) == Times(h, |threads|)
  {
    SumEqual(CompletedBy(job), threads, h);
  }

  function Results(s: State): (r: seq<int>)
    requires AllFinished(s)
    ensures |r| == |s.threads|
  {
    seq(|s.threads|, t requires 0 <= t < |s.threads| => s.threads[t].stage.result)
  }

  lemma EqualCompleted(job: Job, s: State)
    requires WholePasses(job) && ThreadsOk(job, s) && AllFinished(s)
    ensures TotalCompleted(job, s.threads) == Times(HandlerRuns(job), |s.threads|)
  {
    forall t | 0 <= t < |s.threads|
      ensures Completed(job, s.threads[t]) == HandlerRuns(job)
    {
      FinishedForm(job, s.threads[t]);
    }
    EqualShares(job, s.threads, HandlerRuns(job));
  }

  /** When all threads have returned, results and counter are those of a lone thread, T times. */
  lemma FinishedRun(job: Job, base: nat, s: State)
    requires WholePasses(job) && ThreadsOk(job, s) && CounterExact(job, base, s) && AllFinished(s)
    ensures forall t :: 0 <= t < |s.threads| ==> Results(s)[t] == Outcome(job)
    ensures s.numProbes == (base + Times(HandlerRuns(job), |s.threads|)) % WORD
  {
    forall t | 0 <= t < |s.threads|
      ensures s.threads[t].stage.result == Outcome(job)
    {
      FinishedForm(job, s.threads[t]);
    }
    EqualCompleted(job, s);
  }

  /**
    Any job, any number of threads, any interleaving, atomic increments: no thread-id check ever
    fails, and when all threads have returned, each returned the same closed-form result and the
    counter has grown by the handler runs of all of them.
   */
  lemma WholeRun(job: Job, tids: seq<int>, base: Word, schedule: seq<nat>)
    requires WholePasses(job) && !job.split && TidsOk(tids)
    requires Valid(job, Launch(tids, base), schedule)
    ensures var s := Exec(job, Launch(tids, base), schedule);
            && !s.mismatch
            && (forall t :: 0 <= t < |tids| ==> !s.threads[t].stage.Aborted?)
            && (AllFinished(s) ==>
                  && (forall t :: 0 <= t < |tids| ==> Results(s)[t] == Outcome(job))
                  && s.numProbes == (base + Times(HandlerRuns(job), |tids|)) % WORD)
  {
    var s := Exec(job, Launch(tids, base), schedule);
    LaunchOk(job, tids, base);
    RunKeeps(job, base, Launch(tids, base), schedule);
    forall t | 0 <= t < |tids|
      ensures !s.threads[t].stage.Aborted?
    {
      assert ThreadOk(job, s.threads[t]);
    }
    if AllFinished(s) {
      FinishedRun(job, base, s);
    }
  }

  /** In every interleaving, and with split increments too, no handler ever finds another thread's id in a slot. */
  lemma IdsAlwaysAgree(job: Job, tids: seq<int>, base: Word, schedule: seq<nat>)
    requires TidsOk(tids) && Valid(job, Launch(tids, base), schedule)
    ensures IdsAgree(job, Launch(tids, base), schedule)
  {
    LaunchOk(job, tids, base);
    RunKeeps(job, base, Launch(tids, base), schedule);
    MismatchRecorded(job, Launch(tids, base), schedule);
  }

  // ---------- main ----------

  /** Decides how the threads of a phase interleave until the awaited one has returned. */
  type Scheduler = (nat, Job, State, nat) -> seq<nat>

  ghost predicate Completes(scheduler: Scheduler) {
    forall phase: nat, job: Job, s: State, t: nat | Tables(s) && ThreadsOk(job, s) && t < |s.threads| ::
      && Valid(job, s, scheduler(phase, job, s, t))
      && Exec(job, s, scheduler(phase, job, s, t)).threads[t].stage.Finished?
  }

  lemma {:induction false} FinishedStays(job: Job, s: State, schedule: seq<nat>, t: nat)
    requires Tables(s) && Valid(job, s, schedule) && t < |s.threads| && s.threads[t].stage.Finished?
    ensures Exec(job, s, schedule).threads[t] == s.threads[t]
    decreases |schedule|
  {
    if schedule == [] {
    } else {
      FinishedStays(job, Next(job, s, schedule[0]), schedule[1..], t);
    }
  }

  /** The threads of one phase, on their way. */
  predicate Running(job: Job, base: nat, s: State, threads: nat) {
    Tables(s) && |s.threads| == threads && ThreadsOk(job, s) && CounterExact(job, base, s)
  }

  predicate JoinedWell(s: State, joined: nat) {
    joined <= |s.threads| && forall t :: 0 <= t < joined ==> s.threads[t].stage == Finished(0)
  }

  /** One `pthread_join`: the threads run on until the awaited one has returned. */
  method Join(job: Job, s: State, phase: nat, t: nat, scheduler: Scheduler, ghost base: nat) returns (r: State)
    requires !job.split && Running(job, base, s, |s.threads|) && JoinedWell(s, t) && t < |s.threads|
    requires Completes(scheduler)
    ensures Running(job, base, r, |s.threads|) && JoinedWell(r, t) && r.threads[t].stage.Finished?
  {
    var schedule := scheduler(phase, job, s, t);
    assert Valid(job, s, schedule);
    RunKeeps(job, base, s, schedule);
    r := Exec(job, s, schedule);
    forall u | 0 <= u < t
      ensures r.threads[u].stage == Finished(0)
    {
      FinishedStays(job, s, schedule, u);
    }
  }

  lemma JoinedOneMore(s: State, joined: nat)
    requires JoinedWell(s, joined) && joined < |s.threads| && s.threads[joined].stage == Finished(0)
    ensures JoinedWell(s, joined + 1)
  {
  }

  /**
    Create the threads and join them in order; the loop leaves at the first one that did not
    return 0, when later ones may still be running.
   */
  method CreateAndJoin(job: Job, tids: seq<int>, phase: nat, scheduler: Scheduler, base: Word)
    returns (pass: bool, joined: nat, s: State)
    requires !job.split && 0 < |tids| <= MAX_THREADS && TidsOk(tids) && Completes(scheduler)
    ensures Running(job, base, s, |tids|) && JoinedWell(s, joined)
    ensures pass <==> joined == |tids|
    ensures !pass ==> s.threads[joined].stage.Finished? && s.threads[joined].stage.result != 0
  {
    s := Launch(tids, base);
    LaunchOk(job, tids, base);
    var results := 0;
    joined := 0;
    while joined < |tids|
      invariant results == 0 && Running(job, base, s, |tids|) && JoinedWell(s, joined)
    {
      s := Join(job, s, phase, joined, scheduler, base);
      results := s.threads[joined].stage.result;
      if results != 0 {
        break;
      }
      JoinedOneMore(s, joined);
      joined := joined + 1;
    }
    pass := joined == |tids| && results == 0;
  }

  /** Where every point is as expected, or up to the first one that is not. */
  lemma ExpectedRuns(job: Job, n: nat)
    requires WholePasses(job) && n < job.calls
    requires n < FirstUnexpected(job, 0) || FirstUnexpected(job, 0) == NUM_PROBES
    ensures Handlers(job, n + 1) == if job.mode.Counting? then n + 1 else 0
  {
    HandlersForm(job, n + 1);
  }

  lemma ExpectedBound(job: Job, n: nat)
    requires WholePasses(job) && n < job.calls
    requires n < FirstUnexpected(job, 0) || FirstUnexpected(job, 0) == NUM_PROBES
    ensures (if job.mode.Counting? then n + 1 else 0) <= HandlerRuns(job)
  {
  }

  lemma NextHandlersBound(job: Job, tid: int, n: nat)
    requires WholePasses(job) && tid != 0 && n < job.calls && Continues(job, tid, n)
    ensures Handlers(job, n + 1) <= HandlerRuns(job)
  {
    ContinuesForm(job, tid, n);
    if n == FirstUnexpected(job, 0) < NUM_PROBES {
      FirstForm(job, tid);
    } else {
      ExpectedRuns(job, n);
      ExpectedBound(job, n);
    }
  }

  lemma CompletedSoFar(job: Job, th: Thread)
    requires ThreadOk(job, th) && Runnable(th)
    ensures th.stage.Enter? ==> Completed(job, th) == Handlers(job, th.call)
    ensures !th.stage.Enter? ==>
              th.call < job.calls && Completed(job, th) <= Handlers(job, th.call + 1)
  {
  }

  /** A thread on its way has never run more handlers than it will have run in the end. */
  lemma CompletedBound(job: Job, th: Thread)
    requires WholePasses(job) && ThreadOk(job, th)
    ensures Completed(job, th) <= HandlerRuns(job)
  {
    if !Runnable(th) {
      FinishedForm(job, th);
    } else {
      CompletedSoFar(job, th);
      if th.call < job.calls {
        NextHandlersBound(job, th.tid, th.call);
      } else {
        CompletedForm(job, th.tid);
      }
    }
  }

  /** At a failed join: the joined thread has run all its handlers, and no thread has run more than it. */
  lemma RunsWhenFailed(job: Job, s: State, joined: nat)
    requires WholePasses(job) && Tables(s) && ThreadsOk(job, s)
    requires joined < |s.threads| && s.threads[joined].stage.Finished?
    ensures HandlerRuns(job) <= TotalCompleted(job, s.threads) <= Times(HandlerRuns(job), |s.threads|)
  {
    FinishedForm(job, s.threads[joined]);
    SumAtLeast(CompletedBy(job), s.threads, joined);
    forall t | 0 <= t < |s.threads|
      ensures CompletedBy(job)(s.threads[t]) <= HandlerRuns(job)
    {
      CompletedBound(job, s.threads[t]);
    }
    SumAtMost(CompletedBy(job), s.threads, HandlerRuns(job));
  }

  /** What a phase of `threads` threads may have run: all of it on a pass, and at least one thread's share otherwise. */
  predicate PhaseRuns(job: Job, threads: nat, pass: bool, runs: nat)
    requires WholePasses(job)
  {
    if pass then runs == Times(HandlerRuns(job), threads)
    else HandlerRuns(job) <= runs <= Times(HandlerRuns(job), threads)
  }

  /** Create, run and join: the verdict is that of a lone thread; `runs` handlers have run. */
  method RunPhase(job: Job, tids: seq<int>, phase: nat, scheduler: Scheduler, before: Word)
    returns (pass: bool, numProbes: Word, ghost runs: nat)
    requires WholePasses(job) && !job.split && 0 < |tids| <= MAX_THREADS && TidsOk(tids)
    requires Completes(scheduler)
    ensures pass <==> Outcome(job) == 0
    ensures numProbes == (before + runs) % WORD && PhaseRuns(job, |tids|, pass, runs)
  {
    var joined, s;
    pass, joined, s := CreateAndJoin(job, tids, phase, scheduler, before);
    numProbes := s.numProbes;
    ghost var decisive := if pass then 0 else joined;
    FinishedForm(job, s.threads[decisive]);
    runs := TotalCompleted(job, s.threads);
    if pass {
      EqualCompleted(job, s);
    } else {
      RunsWhenFailed(job, s, joined);
    }
  }

  /** The job of uthread.c: `niter` passes over the table. */
  function UthreadJob(niter: nat, consumers: Consumers): Job {
    Job(Counting, 10 * niter, consumers, false)
  }

  lemma PassesExactly(niter: nat, consumers: Consumers)
    requires 0 < niter < HALF
    ensures Outcome(UthreadJob(niter, consumers)) == 0 <==> consumers == Repeat(1, 10)
    ensures consumers == Repeat(1, 10) ==> HandlerRuns(UthreadJob(niter, consumers)) == 10 * niter
  {
    var job := UthreadJob(niter, consumers);
    var first := FirstUnexpected(job, 0);
    assert first < NUM_PROBES ==> Unexpected(job, first);
    if first == NUM_PROBES {
      assert forall j :: 0 <= j < 10 ==> !Unexpected(job, j) && consumers[j] == 1;
      assert consumers == Repeat(1, 10);
    } else {
      assert consumers[first] != 1;
    }
  }

  lemma TotalRuns(niter: nat, threads: nat)
    ensures Times(10 * niter, threads) == 10 * threads * niter
  {
  }

  /**
    With one counting handler per probe point every thread returns 0, so `main` reports PASS,
    and `num_probes` is 10 * T * niter modulo the word.
   */
  lemma UthreadPasses(tids: seq<int>, niter: nat, schedule: seq<nat>)
    requires 0 < |tids| <= MAX_THREADS && 0 < niter < HALF && TidsOk(tids)
    requires Valid(UthreadJob(niter, Repeat(1, 10)), Launch(tids, 0), schedule)
    ensures var s := Exec(UthreadJob(niter, Repeat(1, 10)), Launch(tids, 0), schedule);
            && !s.mismatch
            && (forall t :: 0 <= t < |tids| ==> !s.threads[t].stage.Aborted?)
            && (AllFinished(s) ==>
                  && (forall t :: 0 <= t < |tids| ==> Results(s)[t] == 0)
                  && s.numProbes == 10 * |tids| * niter % 0x1_0000_0000)
  {
    PassesExactly(niter, Repeat(1, 10));
    TotalRuns(niter, |tids|);
    WholeRun(UthreadJob(niter, Repeat(1, 10)), tids, 0, schedule);
  }

  /** With any other consumers on the ten points, and at least one thread, `main` reports FAIL. */
  lemma UthreadPassesOnlyIf(tids: seq<int>, niter: nat, consumers: Consumers, schedule: seq<nat>)
    requires 0 < |tids| <= MAX_THREADS && 0 < niter < HALF && TidsOk(tids)
    requires Valid(UthreadJob(niter, consumers), Launch(tids, 0), schedule)
    requires AllFinished(Exec(UthreadJob(niter, consumers), Launch(tids, 0), schedule))
    ensures var s := Exec(UthreadJob(niter, consumers), Launch(tids, 0), schedule);
            (forall t :: 0 <= t < |tids| ==> Results(s)[t] == 0) <==> consumers == Repeat(1, 10)
  {
    var job := UthreadJob(niter, consumers);
    var s := Exec(job, Launch(tids, 0), schedule);
    assert WholePasses(job);
    WholeRun(job, tids, 0, schedule);
    var first := FirstUnexpected(job, 0);
    if first == 10 {
      assert forall j :: 0 <= j < 10 ==> !Unexpected(job, j);
      assert forall j :: 0 <= j < 10 ==> consumers[j] == 1;
      assert consumers == Repeat(1, 10);
    } else {
      assert Unexpected(job, first);
      assert Results(s)[0] == Outcome(job) < 0;
    }
  }

  /** `main` of uthread.c; on a FAIL the counter is what the threads had run when it gave up. */
  method UthreadMain(tids: seq<int>, niter: nat, consumers: Consumers, scheduler: Scheduler)
    returns (pass: bool, numProbes: Word, ghost runs: nat)
    requires 0 < |tids| <= MAX_THREADS && 0 < niter < HALF && TidsOk(tids) && Completes(scheduler)
    ensures pass <==> consumers == Repeat(1, 10)
    ensures numProbes == runs % WORD
    ensures pass ==> runs == Times(10 * niter, |tids|)
    ensures !pass ==> var each := HandlerRuns(UthreadJob(niter, consumers)); each <= runs <= Times(each, |tids|)
  {
    PassesExactly(niter, consumers);
    pass, numProbes, runs := RunPhase(UthreadJob(niter, consumers), tids, 0, scheduler, 0);
  }
}
