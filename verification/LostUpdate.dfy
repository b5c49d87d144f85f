/**
  What is left of the shared counter when `num_probes++` is a read and a later write
  (include/u_mod_common.h:110, 170) and handlers of different threads interleave between them.
 */
module LostUpdate {
  import opened Words
  import opened Handshake
  import opened Sums
  import opened Workers
  import opened Uthread

  /** Values that threads hold between read and write. */
  predicate LocalsBelow(s: State, bound: nat) {
    forall t :: 0 <= t < |s.threads| && s.threads[t].stage.Store? ==> s.threads[t].stage.local <= bound
  }

  /** The counter and every value in flight stay at or below the number of completed increments. */
  predicate Upper(job: Job, s: State) {
    s.numProbes <= TotalCompleted(job, s.threads) && LocalsBelow(s, TotalCompleted(job, s.threads))
  }

  predicate SomeoneHasOne(job: Job, threads: seq<Thread>) {
    exists t :: 0 <= t < |threads| && Completed(job, threads[t]) == 1
  }

  /** A thread past its first completed increment never writes less than 2. */
  predicate LocalsUp(job: Job, threads: seq<Thread>) {
    forall t :: 0 <= t < |threads| && threads[t].stage.Store? && Completed(job, threads[t]) >= 1 ==>
      threads[t].stage.local >= 1
  }

  predicate Lower(job: Job, s: State) {
    && (TotalCompleted(job, s.threads) > 0 ==> s.numProbes >= 1)
    && LocalsUp(job, s.threads)
    && (TotalCompleted(job, s.threads) == 0 || s.numProbes >= 2 || SomeoneHasOne(job, s.threads))
  }

  lemma PartOfTotal(job: Job, threads: seq<Thread>, t: nat)
    requires t < |threads|
    ensures Completed(job, threads[t]) <= TotalCompleted(job, threads)
  {
    SumAtLeast(CompletedBy(job), threads, t);
  }

  /** Only a read puts the counter in flight, and only a write changes it. */
  lemma SplitStep(job: Job, th: Thread, numProbes: Word)
    requires job.split && ThreadOk(job, th) && Runnable(th)
    ensures var next := ThreadStep(job, th, numProbes);
            && (next.stage.Store? ==> th.stage.Counted? && next.stage.local == numProbes)
            && CounterStep(job, th, numProbes) == (if th.stage.Store? then Succ(th.stage.local) else numProbes)
            && Completed(job, next) == Completed(job, th) + (if th.stage.Store? then 1 else 0)
  {
  }

  lemma NextKeepsUpper(job: Job, s: State, t: nat)
    requires job.split && Tables(s) && ThreadsOk(job, s) && Enabled(s, t) && Upper(job, s)
    ensures Upper(job, Next(job, s, t))
    ensures TotalCompleted(job, s.threads) <= TotalCompleted(job, Next(job, s, t).threads)
  {
    var th, r := s.threads[t], Next(job, s, t);
    var before, after := TotalCompleted(job, s.threads), TotalCompleted(job, r.threads);
    NextKeepsOk(job, s, t);
    SplitStep(job, th, s.numProbes);
    forall u | 0 <= u < |r.threads| && r.threads[u].stage.Store?
      ensures r.threads[u].stage.local <= before
    {
      assert u != t ==> r.threads[u] == s.threads[u];
    }
    if th.stage.Store? {
      SuccBelow(th.stage.local);
    }
  }

  lemma LocalsStayUp(job: Job, threads: seq<Thread>, t: nat, next: Thread)
    requires t < |threads| && LocalsUp(job, threads)
    requires next.stage.Store? && Completed(job, next) >= 1 ==> next.stage.local >= 1
    ensures LocalsUp(job, threads[t := next])
  {
  }

  lemma SomeoneStays(job: Job, threads: seq<Thread>, t: nat, next: Thread)
    requires t < |threads| && SomeoneHasOne(job, threads) && Completed(job, next) == Completed(job, threads[t])
    ensures SomeoneHasOne(job, threads[t := next])
  {
    var u :| 0 <= u < |threads| && Completed(job, threads[u]) == 1;
    assert Completed(job, threads[t := next][u]) == 1;
  }

  /** A write: the first one of its thread leaves that thread with one, a later one writes at least 2. */
  lemma WriteKeepsLower(job: Job, s: State, t: nat, next: Thread, written: Word)
    requires t < |s.threads| && s.threads[t].stage.Store? && Lower(job, s)
    requires s.threads[t].stage.local < MINUS_ONE && written == s.threads[t].stage.local + 1
    requires !next.stage.Store? && Completed(job, next) == Completed(job, s.threads[t]) + 1
    ensures Lower(job, State(s.threads[t := next], written, s.mismatch))
  {
    LocalsStayUp(job, s.threads, t, next);
    if Completed(job, next) == 1 {
      assert Completed(job, s.threads[t := next][t]) == 1;
    }
  }

  lemma NextKeepsLower(job: Job, s: State, t: nat)
    requires job.split && Tables(s) && ThreadsOk(job, s) && Enabled(s, t) && Upper(job, s) && Lower(job, s)
    requires TotalCompleted(job, Next(job, s, t).threads) < WORD
    ensures Lower(job, Next(job, s, t))
  {
    var th, next := s.threads[t], ThreadStep(job, s.threads[t], s.numProbes);
    NextKeepsOk(job, s, t);
    SplitStep(job, th, s.numProbes);
    if th.stage.Store? {
      SuccBelow(th.stage.local);
      WriteKeepsLower(job, s, t, next, Succ(th.stage.local));
    } else {
      PartOfTotal(job, s.threads, t);
      LocalsStayUp(job, s.threads, t, next);
      if SomeoneHasOne(job, s.threads) {
        SomeoneStays(job, s.threads, t, next);
      }
    }
  }

  lemma {:induction false} RunKeepsUpper(job: Job, s: State, schedule: seq<nat>)
    requires job.split && Tables(s) && ThreadsOk(job, s) && Valid(job, s, schedule) && Upper(job, s)
    ensures ThreadsOk(job, Exec(job, s, schedule)) && Upper(job, Exec(job, s, schedule))
    ensures TotalCompleted(job, s.threads) <= TotalCompleted(job, Exec(job, s, schedule).threads)
    decreases |schedule|
  {
    if schedule == [] {
    } else {
      NextKeepsOk(job, s, schedule[0]);
      NextKeepsUpper(job, s, schedule[0]);
      RunKeepsUpper(job, Next(job, s, schedule[0]), schedule[1..]);
    }
  }

  lemma {:induction false} RunKeepsLower(job: Job, s: State, schedule: seq<nat>)
    requires job.split && Tables(s) && ThreadsOk(job, s) && Valid(job, s, schedule) && Upper(job, s) && Lower(job, s)
    requires TotalCompleted(job, Exec(job, s, schedule).threads) < WORD
    ensures Lower(job, Exec(job, s, schedule))
    decreases |schedule|
  {
    if schedule == [] {
    } else {
      var r := Next(job, s, schedule[0]);
      NextKeepsOk(job, s, schedule[0]);
      NextKeepsUpper(job, s, schedule[0]);
      RunKeepsUpper(job, r, schedule[1..]);
      NextKeepsLower(job, s, schedule[0]);
      RunKeepsLower(job, r, schedule[1..]);
    }
  }

  lemma LaunchBounds(job: Job, tids: seq<int>)
    requires TidsOk(tids)
    ensures ThreadsOk(job, Launch(tids, 0)) && Upper(job, Launch(tids, 0)) && Lower(job, Launch(tids, 0))
  {
    LaunchOk(job, tids, 0);
    NothingCompleted(job, Launch(tids, 0).threads);
  }

  /** In every interleaving the counter never exceeds the completed handler runs. */
  lemma NeverTooHigh(job: Job, tids: seq<int>, schedule: seq<nat>)
    requires job.split && TidsOk(tids) && Valid(job, Launch(tids, 0), schedule)
    ensures var s := Exec(job, Launch(tids, 0), schedule); s.numProbes <= TotalCompleted(job, s.threads)
  {
    LaunchBounds(job, tids);
    RunKeepsUpper(job, Launch(tids, 0), schedule);
  }

  /**
    Without counter wrap the value is at least 2 once every thread has completed two increments,
    even while further increments are in flight.
   */
  lemma AtLeastTwo(job: Job, tids: seq<int>, schedule: seq<nat>)
    requires job.split && 0 < |tids| && TidsOk(tids) && Valid(job, Launch(tids, 0), schedule)
    requires var s := Exec(job, Launch(tids, 0), schedule);
             && TotalCompleted(job, s.threads) < WORD
             && forall t :: 0 <= t < |tids| ==> Completed(job, s.threads[t]) >= 2
    ensures Exec(job, Launch(tids, 0), schedule).numProbes >= 2
  {
    var s := Exec(job, Launch(tids, 0), schedule);
    LaunchBounds(job, tids);
    RunKeepsLower(job, Launch(tids, 0), schedule);
    PartOfTotal(job, s.threads, 0);
  }

  // ---------- The bound is met ----------

  lemma {:induction false} RunsCompose(job: Job, s: State, first: seq<nat>, rest: seq<nat>)
    requires Tables(s) && Valid(job, s, first) && Valid(job, Exec(job, s, first), rest)
    ensures Valid(job, s, first + rest)
    ensures Exec(job, s, first + rest) == Exec(job, Exec(job, s, first), rest)
    decreases |first|
  {
    if first == [] {
      assert first + rest == rest;
    } else {
      assert (first + rest)[1..] == first[1..] + rest;
      RunsCompose(job, Next(job, s, first[0]), first[1..], rest);
    }
  }

  /** Only thread `t` moved. */
  predicate Solo(s: State, r: State, t: nat) {
    |r.threads| == |s.threads| && forall u :: 0 <= u < |s.threads| && u != t ==> r.threads[u] == s.threads[u]
  }

  /** A thread can always be run to its end while the others stand still. */
  lemma {:induction false} SoloFinish(job: Job, s: State, t: nat) returns (schedule: seq<nat>)
    requires Tables(s) && ThreadsOk(job, s) && t < |s.threads|
    ensures Valid(job, s, schedule) && ThreadsOk(job, Exec(job, s, schedule))
    ensures Solo(s, Exec(job, s, schedule), t) && Exec(job, s, schedule).threads[t].stage.Finished?
    decreases Left(job, s.threads[t])
  {
    assert ThreadOk(job, s.threads[t]);
    if s.threads[t].stage.Finished? {
      schedule := [];
    } else {
      NextKeepsOk(job, s, t);
      StepLeft(job, s.threads[t], s.numProbes);
      var rest := SoloFinish(job, Next(job, s, t), t);
      schedule := [t] + rest;
      assert schedule[1..] == rest;
    }
  }

  /** Thread `t` has not gone beyond the point in call `n` where it is about to read the counter. */
  predicate Before(th: Thread, n: nat) {
    Runnable(th) && (th.call < n || (th.call == n && th.stage in {Enter, Trap(0), Counted(0)}))
  }

  /** The job of uthread.c with a counter that is read and written in two steps. */
  function SplitJob(niter: nat): Job {
    Job(Counting, 10 * niter, Repeat(1, 10), true)
  }

  lemma StaysBefore(niter: nat, th: Thread, numProbes: Word, n: nat)
    requires 0 < niter < HALF && n < 10 * niter && ThreadOk(SplitJob(niter), th)
    requires Before(th, n) && !(th.call == n && th.stage == Counted(0))
    ensures Before(ThreadStep(SplitJob(niter), th, numProbes), n)
  {
    var job := SplitJob(niter);
    assert forall j :: 0 <= j < 10 ==> !Unexpected(job, j);
    if th.stage.Trap? && th.stage.handled == 1 {
      StopsForm(job, th.tid, th.call);
    }
    if th.stage.Enter? {
      SlotOwner(job, th.tid, th.call, Index(th.call));
    }
  }

  /** Run `t` alone up to its read of the counter in call `n`. */
  lemma {:induction false} SoloUntil(niter: nat, s: State, t: nat, n: nat) returns (schedule: seq<nat>)
    requires 0 < niter < HALF && n < 10 * niter && Tables(s) && ThreadsOk(SplitJob(niter), s)
    requires t < |s.threads| && Before(s.threads[t], n)
    ensures Valid(SplitJob(niter), s, schedule) && ThreadsOk(SplitJob(niter), Exec(SplitJob(niter), s, schedule))
    ensures var r := Exec(SplitJob(niter), s, schedule);
            Solo(s, r, t) && r.threads[t].call == n && r.threads[t].stage == Counted(0)
    decreases Left(SplitJob(niter), s.threads[t])
  {
    var job, th := SplitJob(niter), s.threads[t];
    assert ThreadOk(job, th);
    if th.call == n && th.stage == Counted(0) {
      schedule := [];
    } else {
      NextKeepsOk(job, s, t);
      StepLeft(job, th, s.numProbes);
      StaysBefore(niter, th, s.numProbes, n);
      var rest := SoloUntil(niter, Next(job, s, t), t, n);
      schedule := [t] + rest;
      assert schedule[1..] == rest;
    }
  }

  lemma Extend(job: Job, start: State, schedule: seq<nat>, t: nat)
    requires Tables(start) && ThreadsOk(job, start) && Valid(job, start, schedule)
    requires ThreadsOk(job, Exec(job, start, schedule)) && Enabled(Exec(job, start, schedule), t)
    ensures Valid(job, start, schedule + [t])
    ensures Exec(job, start, schedule + [t]) == Next(job, Exec(job, start, schedule), t)
    ensures ThreadsOk(job, Exec(job, start, schedule + [t]))
  {
    var s := Exec(job, start, schedule);
    NextKeepsOk(job, s, t);
    assert [t][1..] == [];
    RunsCompose(job, start, schedule, [t]);
  }

  /** Run all threads from number `from` on to their ends. */
  lemma {:induction false} FinishOthers(job: Job, s: State, from: nat) returns (schedule: seq<nat>)
    requires Tables(s) && ThreadsOk(job, s) && from <= |s.threads|
    ensures Valid(job, s, schedule) && ThreadsOk(job, Exec(job, s, schedule))
    ensures var r := Exec(job, s, schedule);
            && (forall u :: 0 <= u < from ==> r.threads[u] == s.threads[u])
            && (forall u :: from <= u < |r.threads| ==> r.threads[u].stage.Finished?)
    decreases |s.threads| - from
  {
    if from == |s.threads| {
      schedule := [];
    } else {
      var first := SoloFinish(job, s, from);
      var rest := FinishOthers(job, Exec(job, s, first), from + 1);
      RunsCompose(job, s, first, rest);
      schedule := first + rest;
    }
  }

  /** Thread 0 has read 0 and everyone but thread 1 is done or stopped; thread 1 waits to read in its last call. */
  lemma Standoff(tids: seq<int>, niter: nat) returns (schedule: seq<nat>)
    requires |tids| >= 2 && TidsOk(tids) && 0 < niter < HALF
    ensures Valid(SplitJob(niter), Launch(tids, 0), schedule)
    ensures var s := Exec(SplitJob(niter), Launch(tids, 0), schedule);
            && ThreadsOk(SplitJob(niter), s) && |s.threads| == |tids|
            && s.threads[0].stage == Store(0, 0)
            && s.threads[1].stage == Counted(0) && s.threads[1].call == 10 * niter - 1
            && forall u :: 2 <= u < |tids| ==> s.threads[u].stage.Finished?
  {
    var job, s0 := SplitJob(niter), Launch(tids, 0);
    LaunchBounds(job, tids);
    var a := SoloUntil(niter, s0, 0, 0);
    var s1 := Exec(job, s0, a);
    RunKeepsUpper(job, s0, a);
    EqualShares(job, s1.threads, 0);
    assert s1.numProbes == 0;
    Extend(job, s0, a, 0);
    var s2 := Next(job, s1, 0);
    var b := FinishOthers(job, s2, 2);
    var s3 := Exec(job, s2, b);
    var c := SoloUntil(niter, s3, 1, 10 * niter - 1);
    RunsCompose(job, s2, b, c);
    RunsCompose(job, s0, a + [0], b + c);
    schedule := a + [0] + (b + c);
  }

  /** Any number of threads from two up, each with any number of hits, can leave the counter at 2. */
  lemma CanEndAtTwo(tids: seq<int>, niter: nat) returns (schedule: seq<nat>)
    requires |tids| >= 2 && TidsOk(tids) && 0 < niter < HALF
    ensures Valid(SplitJob(niter), Launch(tids, 0), schedule)
    ensures AllFinished(Exec(SplitJob(niter), Launch(tids, 0), schedule))
    ensures Exec(SplitJob(niter), Launch(tids, 0), schedule).numProbes == 2
  {
    var job, s0 := SplitJob(niter), Launch(tids, 0);
    LaunchOk(job, tids, 0);
    var a := Standoff(tids, niter);
    Extend(job, s0, a, 0);
    Extend(job, s0, a + [0], 1);
    var s := Exec(job, s0, a + [0] + [1]);
    assert s.threads[1].stage == Store(0, 1);
    var b := SoloFinish(job, s, 0);
    RunsCompose(job, s0, a + [0] + [1], b);
    var c := a + [0] + [1] + b;
    var last := LastWrite(tids, niter, Exec(job, s0, c));
    RunsCompose(job, s0, c, last);
    schedule := c + last;
  }

  /** Thread 1 writes the stale value and returns. */
  lemma LastWrite(tids: seq<int>, niter: nat, s: State) returns (schedule: seq<nat>)
    requires 0 < niter < HALF && Tables(s) && ThreadsOk(SplitJob(niter), s) && |s.threads| == |tids| >= 2
    requires s.threads[1].stage == Store(0, 1) && s.threads[1].call == 10 * niter - 1
    requires forall u :: 0 <= u < |tids| && u != 1 ==> s.threads[u].stage.Finished?
    ensures Valid(SplitJob(niter), s, schedule)
    ensures AllFinished(Exec(SplitJob(niter), s, schedule)) && Exec(SplitJob(niter), s, schedule).numProbes == 2
  {
    var job := SplitJob(niter);
    var none: seq<nat> := [];
    Extend(job, s, none, 1);
    LastCallEnds(niter, Exec(job, s, none + [1]).threads[1], 2);
    Extend(job, s, none + [1], 1);
    Extend(job, s, none + [1] + [1], 1);
    schedule := none + [1] + [1] + [1];
  }

  /** The thread's last call counts as good, and the loop of `thread_1` ends. */
  lemma LastCallEnds(niter: nat, th: Thread, numProbes: Word)
    requires 0 < niter < HALF && ThreadOk(SplitJob(niter), th)
    requires th.stage == Trap(1) && th.call == 10 * niter - 1
    ensures var next := ThreadStep(SplitJob(niter), th, numProbes);
            next.stage == Enter && ThreadStep(SplitJob(niter), next, numProbes).stage == Finished(0)
  {
    assert forall j :: 0 <= j < 10 ==> !Unexpected(SplitJob(niter), j);
    StopsForm(SplitJob(niter), th.tid, th.call);
  }
}
