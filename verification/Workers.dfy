/**
  Threads that call the ten probed functions in turn: `thread_1` of uprobes.w/uthread.c and the
  two thread functions of uprobes.w/unreg.c, run by any number of threads under any interleaving.

  A slot is private to its thread; `num_probes` is shared. A step makes at most one access to
  `num_probes`; with `split` the kernel's `num_probes++` is a read and a later write.
 */
module Workers {
  import opened Words
  import opened Handshake
  import opened Sums

  /** `Counting` stops at a negative verdict, `Silent` (unreg's thread_2) at any other than -1. */
  datatype Mode = Counting | Silent

  /** How many counting handlers sit on each of the ten probe points. */
  type Consumers = c: seq<nat> | |c| == NUM_PROBES && forall j :: 0 <= j < NUM_PROBES ==> c[j] < WORD
    witness Repeat(0, NUM_PROBES)

  /** `consumers[j]` counting handlers sit on `_probe_j` while the job runs. */
  datatype Job = Job(mode: Mode, calls: nat, consumers: Consumers, split: bool)

  datatype Stage =
    | Enter
    | Trap(handled: nat)
    | Counted(handled: nat)
    | Store(handled: nat, local: Word)
    | Finished(result: int)
    | Aborted

  datatype Thread = Thread(tid: int, table: seq<Slot>, call: nat, stage: Stage)

  datatype State = State(threads: seq<Thread>, numProbes: Word, mismatch: bool)

  /** A table as BUILD_PROBE_TABLE leaves it. */
  function FreshTable(): (table: seq<Slot>)
    ensures |table| == NUM_PROBES && forall j :: 0 <= j < NUM_PROBES ==> table[j] == FRESH
  {
    seq(NUM_PROBES, _ => FRESH)
  }

  function Start(tid: int): Thread {
    Thread(tid, FreshTable(), 0, Enter)
  }

  // ---------- Steps ----------

  function Index(n: nat): nat {
    n % NUM_PROBES
  }

  predicate Stop(mode: Mode, verdict: int) {
    if mode.Counting? then verdict < 0 else verdict != -1
  }

  predicate Runnable(th: Thread) {
    !th.stage.Finished? && !th.stage.Aborted?
  }

  /** The wrapper `probe_N` up to the call of `_probe_N`; at the end of the loop, the return. */
  function EnterStep(job: Job, th: Thread): Thread
    requires |th.table| == NUM_PROBES
  {
    var j := Index(th.call);
    if th.call >= job.calls then th.(stage := Finished(0))
    else if th.table[j].utid != 0 && th.table[j].utid != th.tid then th.(stage := Aborted)
    else th.(table := th.table[j := Entered(th.table[j], th.tid)], stage := Trap(0))
  }

  /** The next handler's work on the slot, or, after the last one, the body of `_probe_N`. */
  function TrapStep(job: Job, th: Thread): Thread
    requires |th.table| == NUM_PROBES && th.stage.Trap?
  {
    var j := Index(th.call);
    if th.stage.handled < job.consumers[j] then
      th.(table := th.table[j := Handled(th.table[j], th.tid)], stage := Counted(th.stage.handled))
    else
      var slot := Bumped(th.table[j]);
      var verdict := Verdict(slot);
      if Stop(job.mode, verdict) then th.(table := th.table[j := slot], stage := Finished(verdict))
      else th.(table := th.table[j := slot], call := th.call + 1, stage := Enter)
  }

  function ThreadStep(job: Job, th: Thread, numProbes: Word): Thread
    requires |th.table| == NUM_PROBES && Runnable(th)
  {
    match th.stage
    case Enter => EnterStep(job, th)
    case Trap(_) => TrapStep(job, th)
    case Counted(k) => if job.split then th.(stage := Store(k, numProbes)) else th.(stage := Trap(k + 1))
    case Store(k, _) => th.(stage := Trap(k + 1))
  }

  function CounterStep(job: Job, th: Thread, numProbes: Word): Word {
    match th.stage
    case Counted(_) => if job.split then numProbes else Succ(numProbes)
    case Store(_, local) => Succ(local)
    case _ => numProbes
  }

  /** The handler's own check that the user's and the kernel's thread ids agree. */
  predicate Mismatching(job: Job, th: Thread)
    requires |th.table| == NUM_PROBES
  {
    th.stage.Trap? && th.stage.handled < job.consumers[Index(th.call)] && th.table[Index(th.call)].utid != th.tid
  }

  predicate Tables(s: State) {
    forall t :: 0 <= t < |s.threads| ==> |s.threads[t].table| == NUM_PROBES
  }

  predicate Enabled(s: State, t: nat) {
    t < |s.threads| && Runnable(s.threads[t])
  }

  function Next(job: Job, s: State, t: nat): (r: State)
    requires Tables(s) && Enabled(s, t)
    ensures Tables(r) && |r.threads| == |s.threads|
  {
    var th := s.threads[t];
    State(s.threads[t := ThreadStep(job, th, s.numProbes)], CounterStep(job, th, s.numProbes),
          s.mismatch || Mismatching(job, th))
  }

  /** A schedule names the thread that takes the next step. */
  predicate Valid(job: Job, s: State, schedule: seq<nat>)
    requires Tables(s)
    decreases |schedule|
  {
    schedule == [] || (Enabled(s, schedule[0]) && Valid(job, Next(job, s, schedule[0]), schedule[1..]))
  }

  function Exec(job: Job, s: State, schedule: seq<nat>): (r: State)
    requires Tables(s) && Valid(job, s, schedule)
    ensures Tables(r) && |r.threads| == |s.threads|
    decreases |schedule|
  {
    if schedule == [] then s else Exec(job, Next(job, s, schedule[0]), schedule[1..])
  }

  predicate AllFinished(s: State) {
    forall t :: 0 <= t < |s.threads| ==> s.threads[t].stage.Finished?
  }

  /** Every handler that runs finds the thread id of the thread that hit the probe in the slot. */
  predicate IdsAgree(job: Job, s: State, schedule: seq<nat>)
    requires Tables(s) && Valid(job, s, schedule)
    decreases |schedule|
  {
    schedule == [] ||
    (var th := s.threads[schedule[0]];
     && (th.stage.Trap? && th.stage.handled < job.consumers[Index(th.call)] ==>
           th.table[Index(th.call)].utid == th.tid)
     && IdsAgree(job, Next(job, s, schedule[0]), schedule[1..]))
  }

  /** `mismatch` records whether the check of a handler has ever failed. */
  lemma {:induction false} MismatchRecorded(job: Job, s: State, schedule: seq<nat>)
    requires Tables(s) && Valid(job, s, schedule)
    ensures Exec(job, s, schedule).mismatch <==> s.mismatch || !IdsAgree(job, s, schedule)
    decreases |schedule|
  {
    if schedule == [] {
    } else {
      MismatchRecorded(job, Next(job, s, schedule[0]), schedule[1..]);
    }
  }

  // ---------- The sequential reference ----------

  /** The table of a lone thread after `n` calls. */
  function After(job: Job, tid: int, n: nat): (table: seq<Slot>)
    ensures |table| == NUM_PROBES
  {
    if n == 0 then FreshTable()
    else
      var before, j := After(job, tid, n - 1), Index(n - 1);
      before[j := AfterCall(before[j], tid, job.consumers[j])]
  }

  /** The slot used by call `n`, after `k` of its handlers ran. */
  function Partial(job: Job, tid: int, n: nat, k: nat): Slot
  {
    HandledTimes(Entered(After(job, tid, n)[Index(n)], tid), tid, k)
  }

  function VerdictOf(job: Job, tid: int, n: nat): int
  {
    Verdict(Bumped(Partial(job, tid, n, job.consumers[Index(n)])))
  }

  /** None of the first `n` calls ends the thread. */
  predicate Continues(job: Job, tid: int, n: nat)
  {
    n == 0 || (Continues(job, tid, n - 1) && !Stop(job.mode, VerdictOf(job, tid, n - 1)))
  }

  /** Handler runs in the first `n` calls. */
  function Handlers(job: Job, n: nat): nat
  {
    if n == 0 then 0 else Handlers(job, n - 1) + job.consumers[Index(n - 1)]
  }

  // ---------- The invariant ----------

  /** The private state of a thread is that of a lone thread at the same point. */
  predicate ThreadOk(job: Job, th: Thread)
  {
    var j := Index(th.call);
    var c := job.consumers[j];
    && th.tid != 0 && |th.table| == NUM_PROBES
    && th.call <= job.calls && Continues(job, th.tid, th.call)
    && match th.stage
       case Enter => th.table == After(job, th.tid, th.call)
       case Trap(k) =>
         th.call < job.calls && k <= c && th.table == After(job, th.tid, th.call)[j := Partial(job, th.tid, th.call, k)]
       case Counted(k) =>
         && th.call < job.calls && k < c
         && th.table == After(job, th.tid, th.call)[j := Partial(job, th.tid, th.call, k + 1)]
       case Store(k, _) =>
         && th.call < job.calls && k < c
         && th.table == After(job, th.tid, th.call)[j := Partial(job, th.tid, th.call, k + 1)]
       case Finished(r) =>
         if th.call == job.calls then r == 0 && th.table == After(job, th.tid, th.call)
         else
           && r == VerdictOf(job, th.tid, th.call) && Stop(job.mode, r)
           && th.table == After(job, th.tid, th.call + 1)
       case Aborted => false
  }

  /** Handler runs of the thread whose increment of `num_probes` is complete. */
  function Completed(job: Job, th: Thread): nat
  {
    Handlers(job, th.call) +
      match th.stage
      case Enter => 0
      case Trap(k) => k
      case Counted(k) => k
      case Store(k, _) => k
      case Finished(_) => if th.call < job.calls then job.consumers[Index(th.call)] else 0
      case Aborted => 0
  }

  function CompletedBy(job: Job): Thread -> nat {
    (th: Thread) => Completed(job, th)
  }

  function TotalCompleted(job: Job, threads: seq<Thread>): nat {
    Sum(CompletedBy(job), threads)
  }

  predicate ThreadsOk(job: Job, s: State)
  {
    !s.mismatch && forall t :: 0 <= t < |s.threads| ==> ThreadOk(job, s.threads[t])
  }

  lemma {:induction false} SlotOwner(job: Job, tid: int, n: nat, j: nat)
    requires tid != 0 && j < NUM_PROBES
    ensures After(job, tid, n)[j].utid == 0 || After(job, tid, n)[j].utid == tid
  {
    if n == 0 {
    } else {
      SlotOwner(job, tid, n - 1, j);
      HandledKeepsOwner(Entered(After(job, tid, n - 1)[j], tid), tid, job.consumers[j]);
    }
  }

  lemma {:induction false} HandledKeepsOwner(s: Slot, pid: int, c: nat)
    ensures HandledTimes(s, pid, c).utid == s.utid
  {
    if c == 0 {
    } else {
      HandledKeepsOwner(s, pid, c - 1);
    }
  }

  lemma EnterKeepsOk(job: Job, th: Thread)
    requires ThreadOk(job, th) && th.stage.Enter?
    ensures ThreadOk(job, EnterStep(job, th)) && Completed(job, EnterStep(job, th)) == Completed(job, th)
  {
    SlotOwner(job, th.tid, th.call, Index(th.call));
  }

  lemma TrapKeepsOk(job: Job, th: Thread)
    requires ThreadOk(job, th) && th.stage.Trap?
    ensures ThreadOk(job, TrapStep(job, th)) && Completed(job, TrapStep(job, th)) == Completed(job, th)
    ensures !Mismatching(job, th)
  {
    var n, j := th.call, Index(th.call);
    SlotOwner(job, th.tid, n, j);
    HandledKeepsOwner(Entered(After(job, th.tid, n)[j], th.tid), th.tid, th.stage.handled);
    if th.stage.handled == job.consumers[j] {
      assert After(job, th.tid, n + 1) == After(job, th.tid, n)[j := Bumped(Partial(job, th.tid, n, job.consumers[j]))];
    }
  }

  lemma StepKeepsOk(job: Job, th: Thread, numProbes: Word)
    requires ThreadOk(job, th) && Runnable(th)
    ensures var next := ThreadStep(job, th, numProbes);
            && ThreadOk(job, next) && !Mismatching(job, th)
            && Completed(job, next) == Completed(job, th) +
                 if th.stage.Store? || (th.stage.Counted? && !job.split) then 1 else 0
  {
    match th.stage
    case Enter => EnterKeepsOk(job, th);
    case Trap(_) => TrapKeepsOk(job, th);
    case Counted(_) =>
    case Store(_, _) =>
  }

  lemma TotalUpdate(job: Job, threads: seq<Thread>, t: nat, th: Thread)
    requires t < |threads|
    ensures TotalCompleted(job, threads[t := th])
         == TotalCompleted(job, threads) - Completed(job, threads[t]) + Completed(job, th)
  {
    SumUpdate(CompletedBy(job), threads, t, th);
  }

  lemma NextKeepsOk(job: Job, s: State, t: nat)
    requires Tables(s) && ThreadsOk(job, s) && Enabled(s, t)
    ensures ThreadsOk(job, Next(job, s, t))
    ensures TotalCompleted(job, Next(job, s, t).threads) == TotalCompleted(job, s.threads) +
              if s.threads[t].stage.Store? || (s.threads[t].stage.Counted? && !job.split) then 1 else 0
  {
    StepKeepsOk(job, s.threads[t], s.numProbes);
    TotalUpdate(job, s.threads, t, ThreadStep(job, s.threads[t], s.numProbes));
  }

  /** With atomic increments the counter is exact at every moment, modulo the word. */
  predicate CounterExact(job: Job, base: nat, s: State)
  {
    (forall t :: 0 <= t < |s.threads| ==> !s.threads[t].stage.Store?) &&
    s.numProbes == (base + TotalCompleted(job, s.threads)) % WORD
  }

  lemma NextKeepsCounter(job: Job, base: nat, s: State, t: nat)
    requires !job.split && Tables(s) && ThreadsOk(job, s) && CounterExact(job, base, s) && Enabled(s, t)
    ensures CounterExact(job, base, Next(job, s, t))
  {
    var th, before := s.threads[t], TotalCompleted(job, s.threads);
    var r := Next(job, s, t);
    NextKeepsOk(job, s, t);
    if th.stage.Counted? {
      SuccMod(base + before);
      assert TotalCompleted(job, r.threads) == before + 1;
    } else {
      assert r.numProbes == s.numProbes;
    }
  }

  lemma {:induction false} RunKeeps(job: Job, base: nat, s: State, schedule: seq<nat>)
    requires Tables(s) && ThreadsOk(job, s) && Valid(job, s, schedule)
    requires !job.split ==> CounterExact(job, base, s)
    ensures ThreadsOk(job, Exec(job, s, schedule))
    ensures !job.split ==> CounterExact(job, base, Exec(job, s, schedule))
    decreases |schedule|
  {
    if schedule == [] {
    } else {
      NextKeepsOk(job, s, schedule[0]);
      if !job.split {
        NextKeepsCounter(job, base, s, schedule[0]);
      }
      RunKeeps(job, base, Next(job, s, schedule[0]), schedule[1..]);
    }
  }
}
