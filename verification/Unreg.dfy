/**
  The thread functions as they are written, and `main` of uprobes.w/unreg.c: rounds in which T
  threads must see every probe point, then T threads must see none.
 */
module Unreg {
  import opened Words
  import opened Handshake
  import opened Sums
  import opened Workers
  import opened Uthread

  /** unreg.c's thread_2: one pass that expects no probe to be in place. */
  function SilentJob(consumers: Consumers): Job {
    Job(Silent, 10, consumers, false)
  }

  lemma CallAdvances(job: Job, tid: int, n: nat)
    requires tid != 0
    ensures var slot := After(job, tid, n)[Index(n)];
            && (slot.utid == 0 || slot.utid == tid)
            && After(job, tid, n + 1) == After(job, tid, n)[Index(n) := AfterCall(slot, tid, job.consumers[Index(n)])]
            && VerdictOf(job, tid, n) == Verdict(AfterCall(slot, tid, job.consumers[Index(n)]))
  {
    SlotOwner(job, tid, n, Index(n));
  }

  /** A lone thread after `n` calls, none of which ended it; `base` is where the counter started. */
  predicate Progress(job: Job, tid: int, table: seq<Slot>, numProbes: Word, base: Word, n: nat)
  {
    table == After(job, tid, n) && Continues(job, tid, n) && numProbes == (base + Handlers(job, n)) % WORD
  }

  lemma AllCallsMade(job: Job, tid: int, table: seq<Slot>, numProbes: Word, base: Word)
    requires WholePasses(job) && tid != 0 && Progress(job, tid, table, numProbes, base, job.calls)
    ensures Outcome(job) == 0 && numProbes == (base + HandlerRuns(job)) % WORD
  {
    CompletedForm(job, tid);
  }

  /** A call that ends the thread gives the result and the handler runs of the whole job. */
  lemma StopTotals(job: Job, tid: int, n: nat)
    requires WholePasses(job) && tid != 0 && n < job.calls
    requires Continues(job, tid, n) && Stop(job.mode, VerdictOf(job, tid, n))
    ensures VerdictOf(job, tid, n) == Outcome(job) && Handlers(job, n + 1) == HandlerRuns(job)
  {
    StoppedAtFirst(job, tid, n);
    FirstForm(job, tid);
  }

  /** The next probe call: either the thread goes on, or it has its result. */
  method Call(k: KernelModule, table: array<Slot>, ghost job: Job, tid: int, ghost base: Word, ghost n: nat,
              j: nat, consumers: nat)
    returns (error: int)
    requires WholePasses(job) && tid != 0 && table.Length == NUM_PROBES && n < job.calls
    requires j == Index(n) && consumers == job.consumers[j]
    requires Progress(job, tid, table[..], k.numProbes, base, n)
    modifies k, table
    ensures error == VerdictOf(job, tid, n) && k.mismatch == old(k.mismatch)
    ensures !Stop(job.mode, error) ==> Progress(job, tid, table[..], k.numProbes, base, n + 1)
    ensures Stop(job.mode, error) ==> error == Outcome(job) && k.numProbes == (base + HandlerRuns(job)) % WORD
  {
    CallAdvances(job, tid, n);
    AddMod(base + Handlers(job, n), consumers);
    assert table[j] == table[..][j];
    var r := k.Probe(table, j, tid, consumers);
    error := r.verdict;
    assert k.numProbes == (base + Handlers(job, n + 1)) % WORD;
    if Stop(job.mode, error) {
      StopTotals(job, tid, n);
    }
  }

  lemma TurnOf(first: nat, j: nat)
    requires first % 10 == 0 && j < NUM_PROBES
    ensures Index(first + j) == j
  {
  }

  /** The ten calls of one iteration. */
  method Iteration(k: KernelModule, table: array<Slot>, ghost job: Job, tid: int, ghost base: Word, ghost first: nat,
                   consumers: Consumers)
    returns (error: int)
    requires WholePasses(job) && job.mode.Counting? && job.consumers == consumers
    requires tid != 0 && table.Length == NUM_PROBES && first % 10 == 0 && first + 10 <= job.calls
    requires Progress(job, tid, table[..], k.numProbes, base, first)
    modifies k, table
    ensures k.mismatch == old(k.mismatch)
    ensures error >= 0 ==> Progress(job, tid, table[..], k.numProbes, base, first + 10)
    ensures error < 0 ==> error == Outcome(job) && k.numProbes == (base + HandlerRuns(job)) % WORD
  {
    error := 0;
    var j := 0;
    while j < NUM_PROBES
      invariant j <= NUM_PROBES && error >= 0
      invariant Progress(job, tid, table[..], k.numProbes, base, first + j)
      invariant k.mismatch == old(k.mismatch)
    {
      TurnOf(first, j);
      error := Call(k, table, job, tid, base, first + j, j, consumers[j]);
      if error < 0 {
        return;
      }
      j := j + 1;
    }
  }

  lemma IterationFits(i: nat, cnt: nat)
    requires i < cnt
    ensures 10 * i % 10 == 0 && 10 * i + 10 <= 10 * cnt
  {
  }

  /** `thread_1` of uthread.c; with `cnt == 1` it is also `thread_1` of unreg.c. */
  method Thread1(k: KernelModule, tid: int, cnt: nat, consumers: Consumers) returns (result: int)
    requires 0 < cnt < HALF && tid > 0
    modifies k
    ensures result == Outcome(UthreadJob(cnt, consumers))
    ensures k.numProbes == (old(k.numProbes) + HandlerRuns(UthreadJob(cnt, consumers))) % WORD
    ensures k.mismatch == old(k.mismatch)
  {
    ghost var job, base := UthreadJob(cnt, consumers), k.numProbes;
    var error := 0;
    var table := BuildProbeTable(NUM_PROBES);
    assert table[..] == After(job, tid, 0);
    var i := 0;
    ghost var n := 0;
    while i < cnt
      invariant i <= cnt && n == 10 * i && error >= 0
      invariant Progress(job, tid, table[..], k.numProbes, base, n)
      invariant k.mismatch == old(k.mismatch)
    {
      IterationFits(i, cnt);
      error := Iteration(k, table, job, tid, base, n, consumers);
      if error < 0 {
        break;
      }
      i := i + 1;
      n := n + 10;
    }
    if error >= 0 {
      AllCallsMade(job, tid, table[..], k.numProbes, base);
      return 0;
    }
    return error;
  }

  /** `thread_2` of unreg.c: any verdict but "not counting" is returned, a first hit's 0 included. */
  method Thread2(k: KernelModule, tid: int, consumers: Consumers) returns (result: int)
    requires tid > 0
    modifies k
    ensures result == Outcome(SilentJob(consumers))
    ensures k.numProbes == (old(k.numProbes) + HandlerRuns(SilentJob(consumers))) % WORD
    ensures k.mismatch == old(k.mismatch)
  {
    ghost var job, base := SilentJob(consumers), k.numProbes;
    var table := BuildProbeTable(NUM_PROBES);
    assert table[..] == After(job, tid, 0);
    var j := 0;
    while j < NUM_PROBES
      invariant j <= NUM_PROBES
      invariant Progress(job, tid, table[..], k.numProbes, base, j)
      invariant k.mismatch == old(k.mismatch)
    {
      var error := Call(k, table, job, tid, base, j, j, consumers[j]);
      if error != -1 {
        return error;
      }
      j := j + 1;
    }
    AllCallsMade(job, tid, table[..], k.numProbes, base);
    return 0;
  }

  // ---------- main ----------

  /** The consumers in place while a round's first and second threads run. */
  datatype Round = Round(registered: Consumers, unregistered: Consumers)

  /** Exactly one counting handler sits on every probe point. */
  predicate AllPresent(consumers: Consumers)
  {
    forall j :: 0 <= j < NUM_PROBES ==> consumers[j] == 1
  }

  /** The lowest probe point that still has consumers has exactly one. */
  predicate LooksUnregistered(consumers: Consumers)
  {
    forall j :: 0 <= j < NUM_PROBES && consumers[j] != 0 && (forall i :: 0 <= i < j ==> consumers[i] == 0)
      ==> consumers[j] == 1
  }

  predicate SomeLeft(consumers: Consumers) {
    exists i :: 0 <= i < NUM_PROBES && consumers[i] != 0
  }

  lemma RegisteredOutcome(consumers: Consumers)
    ensures Outcome(UthreadJob(1, consumers)) == 0 <==> AllPresent(consumers)
    ensures AllPresent(consumers) ==> HandlerRuns(UthreadJob(1, consumers)) == 10
  {
  }

  /** Runs of one thread_2: it stops at the first hit, and passes when that was a single one. */
  lemma UnregisteredOutcome(consumers: Consumers)
    ensures Outcome(SilentJob(consumers)) == 0 <==> LooksUnregistered(consumers)
    ensures LooksUnregistered(consumers) ==>
              HandlerRuns(SilentJob(consumers)) == if SomeLeft(consumers) then 1 else 0
  {
    var job := SilentJob(consumers);
    var first := FirstUnexpected(job, 0);
    assert first < NUM_PROBES ==> Unexpected(job, first);
    assert forall i :: 0 <= i < first ==> !Unexpected(job, i) && consumers[i] == 0;
  }

  /** Handler runs per thread in a round that passes: the ten points, and one more if any was left. */
  function PerThread(r: Round): nat {
    if SomeLeft(r.unregistered) then 11 else 10
  }

  function RoundRuns(r: Round, threads: nat): nat {
    Times(PerThread(r), threads)
  }

  function RunsBy(threads: nat): Round -> nat {
    (r: Round) => RoundRuns(r, threads)
  }

  /** Handler runs of all rounds of a passing run. */
  function PlanRuns(threads: nat, plan: seq<Round>): nat {
    Sum(RunsBy(threads), plan)
  }

  predicate RoundPasses(r: Round)
  {
    AllPresent(r.registered) && LooksUnregistered(r.unregistered)
  }

  /** Every phase creates its threads anew; phase `p` gets the thread ids `ids[p]`. */
  predicate IdsOk(ids: seq<seq<int>>, threads: nat, rounds: nat) {
    |ids| == 2 * rounds && forall p :: 0 <= p < |ids| ==> |ids[p]| == threads && TidsOk(ids[p])
  }

  /** The two phases of a passing round together. */
  lemma RoundCounts(r: Round, threads: nat)
    requires RoundPasses(r)
    ensures Times(HandlerRuns(UthreadJob(1, r.registered)), threads)
            + Times(HandlerRuns(SilentJob(r.unregistered)), threads) == RoundRuns(r, threads)
  {
    RegisteredOutcome(r.registered);
    UnregisteredOutcome(r.unregistered);
  }

  /** What a round may have run: all of it on a pass, and otherwise at least what the first bad join saw. */
  predicate RunsInRound(r: Round, threads: nat, pass: bool, runs: nat) {
    var each1, each2 := HandlerRuns(UthreadJob(1, r.registered)), HandlerRuns(SilentJob(r.unregistered));
    if pass then runs == RoundRuns(r, threads)
    else if !AllPresent(r.registered) then each1 <= runs <= Times(each1, threads)
    else Times(each1, threads) + each2 <= runs <= Times(each1, threads) + Times(each2, threads)
  }

  method RunRound(round: Round, first: seq<int>, second: seq<int>, j: nat, scheduler: Scheduler, before: Word)
    returns (pass: bool, numProbes: Word, ghost runs: nat)
    requires 0 < |first| == |second| <= MAX_THREADS && TidsOk(first) && TidsOk(second) && Completes(scheduler)
    ensures pass <==> RoundPasses(round)
    ensures numProbes == (before + runs) % WORD && RunsInRound(round, |first|, pass, runs)
  {
    var job1, job2 := UthreadJob(1, round.registered), SilentJob(round.unregistered);
    RegisteredOutcome(round.registered);
    UnregisteredOutcome(round.unregistered);
    pass, numProbes, runs := RunPhase(job1, first, 2 * j, scheduler, before);
    if !pass {
      return;
    }
    ghost var runs1, runs2 := runs, 0;
    pass, numProbes, runs2 := RunPhase(job2, second, 2 * j + 1, scheduler, numProbes);
    AddMod(before + runs1, runs2);
    runs := runs1 + runs2;
    if pass {
      RoundCounts(round, |first|);
    }
  }

  /** The counter after the first `j` rounds. */
  predicate Counted<T>(f: T -> nat, s: seq<T>, j: nat, start: Word, numProbes: Word) {
    j <= |s| && numProbes == (start + Sum(f, s[..j])) % WORD
  }

  predicate PlanPasses(plan: seq<Round>)
  {
    forall j :: 0 <= j < |plan| ==> RoundPasses(plan[j])
  }

  /**
    `main`; `plan` says which consumers are in place in each of the rounds, and `last` handlers
    ran in the round that failed.
   */
  method UnregMain(ids: seq<seq<int>>, threads: nat, plan: seq<Round>, scheduler: Scheduler, start: Word)
    returns (pass: bool, numProbes: Word, rounds: nat, ghost last: nat)
    requires 0 < threads <= MAX_THREADS && IdsOk(ids, threads, |plan|) && Completes(scheduler)
    ensures rounds <= |plan| && forall j :: 0 <= j < rounds ==> RoundPasses(plan[j])
    ensures pass <==> rounds == |plan|
    ensures !pass ==> !RoundPasses(plan[rounds]) && RunsInRound(plan[rounds], threads, false, last)
    ensures numProbes == (start + PlanRuns(threads, plan[..rounds]) + if pass then 0 else last) % WORD
  {
    numProbes := start;
    rounds := 0;
    last := 0;
    while rounds < |plan|
      invariant rounds <= |plan|
      invariant PlanPasses(plan[..rounds])
      invariant Counted(RunsBy(threads), plan, rounds, start, numProbes)
    {
      ghost var before := numProbes;
      pass, numProbes, last :=
        RunRound(plan[rounds], ids[2 * rounds], ids[2 * rounds + 1], rounds, scheduler, numProbes);
      if !pass {
        FailedRound(RunsBy(threads), plan, rounds, start, before, last);
        return;
      }
      SumCounted(RunsBy(threads), plan, rounds, start, before, numProbes);
      OneMore(plan, rounds);
      rounds := rounds + 1;
    }
    pass := true;
  }

  lemma SumCounted<T>(f: T -> nat, s: seq<T>, j: nat, start: Word, before: Word, after: Word)
    requires j < |s| && Counted(f, s, j, start, before) && after == (before + f(s[j])) % WORD
    ensures Counted(f, s, j + 1, start, after)
  {
    SumPrefix(f, s, j);
    AddMod(start + Sum(f, s[..j]), f(s[j]));
  }

  lemma FailedRound<T>(f: T -> nat, s: seq<T>, j: nat, start: Word, before: Word, last: nat)
    requires Counted(f, s, j, start, before)
    ensures (before + last) % WORD == (start + Sum(f, s[..j]) + last) % WORD
  {
    AddMod(start + Sum(f, s[..j]), last);
  }

  lemma OneMore(plan: seq<Round>, j: nat)
    requires j < |plan| && PlanPasses(plan[..j]) && RoundPasses(plan[j])
    ensures PlanPasses(plan[..j + 1])
  {
  }

  /** All ten points present in every first phase, and as many points left in every second one. */
  predicate Uniform(plan: seq<Round>, left: bool) {
    forall j :: 0 <= j < |plan| ==>
      RoundPasses(plan[j]) && left == SomeLeft(plan[j].unregistered)
  }

  /** A run grows the counter by 10 per thread and round, or by 11 when unregistration left any point. */
  lemma UniformRuns(threads: nat, plan: seq<Round>, left: bool)
    requires Uniform(plan, left)
    ensures PlanRuns(threads, plan) == (if left then 11 else 10) * threads * |plan|
  {
    assert forall j :: 0 <= j < |plan| ==> PerThread(plan[j]) == if left then 11 else 10;
    SumEqual(RunsBy(threads), plan, (if left then 11 else 10) * threads);
  }
}
