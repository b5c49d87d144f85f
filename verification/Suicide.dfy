/**
  uprobes.w/suicide.c over the module of uprobes.w/ksuicide.c: T - 1 threads loop over the first
  nine probe points while one more thread calls `probe_9` and does not come back.

  Slots are private to their threads, so a step is one whole call; the kernel's increments of
  `num_probes` are atomic.
 */
module Suicide {
  import opened Words
  import opened Handshake
  import opened Sums
  import opened Symbols
  import opened Kunreg
  import opened Ksuicide
  import ForkThread
  import Workers

  const LOOPED: nat := 9

  /** `n` calls are made. */
  datatype Worker = Looping(n: nat, table: seq<Slot>) | Ended(result: int) | Aborted

  datatype Victim = Waiting | Dead(slot: Slot) | Back(slot: Slot)

  datatype World = World(workers: seq<Worker>, victim: Victim, numProbes: Word)

  datatype Step = WorkerStep(t: nat) | VictimStep

  /** The threads' ids, the iteration count, and the handlers on `_probe_9` in the order in which they run. */
  datatype Setting = Setting(tids: seq<int>, victimTid: int, cnt: nat, handlers: seq<Handler>)

  predicate SettingOk(g: Setting) {
    0 < g.cnt < HALF && g.victimTid > 0 && forall t :: 0 <= t < |g.tids| ==> g.tids[t] > 0
  }

  function Start(g: Setting): World {
    World(seq(|g.tids|, _ => Looping(0, Workers.FreshTable())), Waiting, 0)
  }

  predicate Enabled(g: Setting, w: World, l: Step) {
    match l
    case WorkerStep(t) => t < |w.workers| && w.workers[t].Looping?
    case VictimStep => w.victim.Waiting?
  }

  /** The calls of `probe_0` to `probe_8` in turn, each on a point with one counting handler. */
  function WorkerNext(g: Setting, w: Worker, tid: int): Worker
    requires w.Looping?
  {
    if w.n >= LOOPED * g.cnt || |w.table| != NUM_PROBES then Ended(0)
    else
      var j := w.n % LOOPED;
      if ForkThread.Foreign(w.table[j], tid) then Aborted
      else
        var hit := CallOn(w.table[j], tid, [Counting]);
        if Verdict(hit.slot) < 0 then Ended(Verdict(hit.slot))
        else Looping(w.n + 1, w.table[j := hit.slot])
  }

  predicate Calling(g: Setting, w: Worker) {
    w.Looping? && w.n < LOOPED * g.cnt
  }

  function Next(g: Setting, w: World, l: Step): (r: World)
    requires |w.workers| == |g.tids| && Enabled(g, w, l)
    ensures |r.workers| == |g.tids|
  {
    match l
    case WorkerStep(t) =>
      World(w.workers[t := WorkerNext(g, w.workers[t], g.tids[t])], w.victim,
            if Calling(g, w.workers[t]) then Succ(w.numProbes) else w.numProbes)
    case VictimStep =>
      var hit := CallOn(FRESH, g.victimTid, g.handlers);
      World(w.workers, if hit.alive then Back(hit.slot) else Dead(hit.slot), (w.numProbes + hit.counted) % WORD)
  }

  predicate Valid(g: Setting, w: World, steps: seq<Step>)
    requires |w.workers| == |g.tids|
    decreases |steps|
  {
    steps == [] || (Enabled(g, w, steps[0]) && Valid(g, Next(g, w, steps[0]), steps[1..]))
  }

  function Exec(g: Setting, w: World, steps: seq<Step>): (r: World)
    requires |w.workers| == |g.tids| && Valid(g, w, steps)
    ensures |r.workers| == |g.tids|
    decreases |steps|
  {
    if steps == [] then w else Exec(g, Next(g, w, steps[0]), steps[1..])
  }

  predicate AllOver(w: World) {
    !w.victim.Waiting? && forall t :: 0 <= t < |w.workers| ==> !w.workers[t].Looping?
  }

  // ---------- The invariant ----------

  /** Calls `m < n` that use slot `j`. */
  function Uses(n: nat, j: nat): nat
    requires j < LOOPED
  {
    (n + 8 - j) / 9
  }

  lemma UsesStep(n: nat, j: nat)
    requires j < LOOPED
    ensures Uses(n + 1, j) == Uses(n, j) + if n % LOOPED == j then 1 else 0
    ensures Uses(n, n % LOOPED) == n / 9
  {
  }

  predicate TableOk(table: seq<Slot>, tid: int, n: nat) {
    |table| == NUM_PROBES && forall j :: 0 <= j < LOOPED ==> table[j] == ForkThread.AllHits(tid, Uses(n, j))
  }

  predicate WorkerOk(g: Setting, w: Worker, tid: int) {
    match w
    case Looping(n, table) => n <= LOOPED * g.cnt && TableOk(table, tid, n)
    case Ended(r) => r == 0
    case Aborted => false
  }

  /** The counting runs of a worker. */
  function Made(g: Setting): Worker -> nat {
    (w: Worker) => if w.Looping? then w.n else LOOPED * g.cnt
  }

  function VictimRuns(g: Setting, v: Victim): nat {
    if v.Waiting? then 0 else CallOn(FRESH, g.victimTid, g.handlers).counted
  }

  predicate VictimOk(g: Setting, v: Victim) {
    var hit := CallOn(FRESH, g.victimTid, g.handlers);
    v.Waiting? || v == (if hit.alive then Back(hit.slot) else Dead(hit.slot))
  }

  predicate WorkersOk(g: Setting, workers: seq<Worker>)
    requires |workers| == |g.tids|
  {
    forall t :: 0 <= t < |workers| ==> WorkerOk(g, workers[t], g.tids[t])
  }

  predicate Inv(g: Setting, w: World)
    requires |w.workers| == |g.tids|
  {
    && WorkersOk(g, w.workers) && VictimOk(g, w.victim)
    && w.numProbes == (Sum(Made(g), w.workers) + VictimRuns(g, w.victim)) % WORD
  }

  /** One call: the slot it uses has seen one more hit, and the others are as before. */
  lemma CallKeepsTable(table: seq<Slot>, tid: int, n: nat)
    requires tid > 0 && n / 9 < HALF && TableOk(table, tid, n)
    ensures var j := n % LOOPED;
            var hit := CallOn(table[j], tid, [Counting]);
            && !ForkThread.Foreign(table[j], tid) && Verdict(hit.slot) >= 0
            && TableOk(table[j := hit.slot], tid, n + 1)
  {
    var j := n % LOOPED;
    UsesStep(n, j);
    ForkThread.CallAfterHits(tid, n / 9, true);
    StopsAtSuicide(Entered(table[j], tid), tid, [Counting], 1);
    var next := table[j := CallOn(table[j], tid, [Counting]).slot];
    forall i | 0 <= i < LOOPED
      ensures next[i] == ForkThread.AllHits(tid, Uses(n + 1, i))
    {
      UsesStep(n, i);
    }
  }

  lemma WorkerKeepsOk(g: Setting, w: Worker, tid: int)
    requires SettingOk(g) && tid > 0 && w.Looping? && WorkerOk(g, w, tid)
    ensures WorkerOk(g, WorkerNext(g, w, tid), tid)
    ensures Made(g)(WorkerNext(g, w, tid)) == Made(g)(w) + if Calling(g, w) then 1 else 0
  {
    if Calling(g, w) {
      CallKeepsTable(w.table, tid, w.n);
    }
  }

  lemma StepKeepsInv(g: Setting, w: World, l: Step)
    requires SettingOk(g) && |w.workers| == |g.tids| && Inv(g, w) && Enabled(g, w, l)
    ensures Inv(g, Next(g, w, l))
  {
    match l
    case WorkerStep(t) =>
      var next := WorkerNext(g, w.workers[t], g.tids[t]);
      WorkerKeepsOk(g, w.workers[t], g.tids[t]);
      SumUpdate(Made(g), w.workers, t, next);
      SuccMod(Sum(Made(g), w.workers) + VictimRuns(g, w.victim));
    case VictimStep =>
      AddMod(Sum(Made(g), w.workers), CallOn(FRESH, g.victimTid, g.handlers).counted);
  }

  lemma {:induction false} RunKeepsInv(g: Setting, w: World, steps: seq<Step>)
    requires SettingOk(g) && |w.workers| == |g.tids| && Inv(g, w) && Valid(g, w, steps)
    ensures Inv(g, Exec(g, w, steps))
    decreases |steps|
  {
    if steps == [] {
    } else {
      StepKeepsInv(g, w, steps[0]);
      RunKeepsInv(g, Next(g, w, steps[0]), steps[1..]);
    }
  }

  lemma StartInv(g: Setting)
    requires SettingOk(g)
    ensures Inv(g, Start(g))
  {
    SumEqual(Made(g), Start(g).workers, 0);
  }

  // ---------- Whole runs ----------

  function WorkerLeft(g: Setting): Worker -> nat {
    (w: Worker) => if w.Looping? && w.n <= LOOPED * g.cnt then LOOPED * g.cnt - w.n + 1 else 0
  }

  function StepsLeft(g: Setting, w: World): nat {
    Sum(WorkerLeft(g), w.workers) + if w.victim.Waiting? then 1 else 0
  }

  lemma StepDecreases(g: Setting, w: World, l: Step)
    requires SettingOk(g) && |w.workers| == |g.tids| && Inv(g, w) && Enabled(g, w, l)
    ensures StepsLeft(g, Next(g, w, l)) < StepsLeft(g, w)
  {
    match l
    case WorkerStep(t) =>
      assert WorkerOk(g, w.workers[t], g.tids[t]);
      SumUpdate(WorkerLeft(g), w.workers, t, WorkerNext(g, w.workers[t], g.tids[t]));
    case VictimStep =>
  }

  lemma {:induction false} RunsAreBounded(g: Setting, w: World, steps: seq<Step>)
    requires SettingOk(g) && |w.workers| == |g.tids| && Inv(g, w) && Valid(g, w, steps)
    ensures |steps| + StepsLeft(g, Exec(g, w, steps)) <= StepsLeft(g, w)
    decreases |steps|
  {
    if steps == [] {
    } else {
      StepKeepsInv(g, w, steps[0]);
      StepDecreases(g, w, steps[0]);
      RunsAreBounded(g, Next(g, w, steps[0]), steps[1..]);
    }
  }

  /** Every run is bounded, and can go on until all threads are over. */
  lemma RunsEnd(g: Setting, steps: seq<Step>)
    requires SettingOk(g) && Valid(g, Start(g), steps)
    ensures |steps| <= StepsLeft(g, Start(g))
    ensures AllOver(Exec(g, Start(g), steps)) <==> forall l :: !Enabled(g, Exec(g, Start(g), steps), l)
  {
    StartInv(g);
    RunsAreBounded(g, Start(g), steps);
    var w := Exec(g, Start(g), steps);
    if forall l :: !Enabled(g, w, l) {
      assert !Enabled(g, w, VictimStep);
      forall t | 0 <= t < |w.workers|
        ensures !w.workers[t].Looping?
      {
        assert !Enabled(g, w, WorkerStep(t));
      }
    }
  }

  /**
    Any interleaving, any handlers on `_probe_9`: no looping thread is ever aborted or returns an
    error, and in the end each has run nine handlers per iteration, the thread that called
    `probe_9` as many as came before the first suicide handler.
   */
  lemma RunTotals(g: Setting, steps: seq<Step>)
    requires SettingOk(g) && Valid(g, Start(g), steps)
    ensures var w := Exec(g, Start(g), steps);
            && (forall t :: 0 <= t < |w.workers| ==> w.workers[t].Looping? || w.workers[t] == Ended(0))
            && (AllOver(w) ==>
                  && (w.victim.Dead? <==> Suicide in g.handlers)
                  && w.numProbes
                     == (LOOPED * g.cnt * |g.tids| + CallOn(FRESH, g.victimTid, g.handlers).counted) % WORD)
  {
    StartInv(g);
    RunKeepsInv(g, Start(g), steps);
    var w := Exec(g, Start(g), steps);
    forall t | 0 <= t < |w.workers|
      ensures w.workers[t].Looping? || w.workers[t] == Ended(0)
    {
      assert WorkerOk(g, w.workers[t], g.tids[t]);
    }
    if AllOver(w) {
      OverTotals(g, w);
    }
  }

  lemma OverTotals(g: Setting, w: World)
    requires |w.workers| == |g.tids| && Inv(g, w) && AllOver(w)
    ensures w.victim.Dead? <==> Suicide in g.handlers
    ensures w.numProbes == (LOOPED * g.cnt * |g.tids| + CallOn(FRESH, g.victimTid, g.handlers).counted) % WORD
  {
    SurvivorsExactly(g);
    MadeTotal(g, w.workers);
  }

  lemma MadeTotal(g: Setting, workers: seq<Worker>)
    requires forall t :: 0 <= t < |workers| ==> !workers[t].Looping?
    ensures Sum(Made(g), workers) == LOOPED * g.cnt * |workers|
  {
    SumEqual(Made(g), workers, LOOPED * g.cnt);
  }

  lemma SurvivorsExactly(g: Setting)
    ensures CallOn(FRESH, g.victimTid, g.handlers).alive <==> Suicide !in g.handlers
  {
    var i := FirstSuicide(g.handlers);
    StopsAtSuicide(Entered(FRESH, g.victimTid), g.victimTid, g.handlers, i);
    assert g.handlers[..|g.handlers|] == g.handlers;
  }

  function FirstSuicide(handlers: seq<Handler>): (i: nat)
    ensures i <= |handlers| && Suicide !in handlers[..i] && (i < |handlers| ==> handlers[i] == Suicide)
  {
    if handlers == [] || handlers[0] == Suicide then 0
    else
      var i := 1 + FirstSuicide(handlers[1..]);
      assert handlers[..i] == [handlers[0]] + handlers[1..][..i - 1];
      i
  }

  lemma TotalsWithVictim(g: Setting, steps: seq<Step>, slot: Slot)
    requires SettingOk(g) && Valid(g, Start(g), steps) && AllOver(Exec(g, Start(g), steps))
    requires CallOn(FRESH, g.victimTid, g.handlers) == HitEnd(slot, 1, false)
    ensures var w := Exec(g, Start(g), steps);
            && w.numProbes == (LOOPED * g.cnt * |g.tids| + 1) % WORD && w.victim == Dead(slot)
            && forall t :: 0 <= t < |w.workers| ==> w.workers[t] == Ended(0)
  {
    StartInv(g);
    RunKeepsInv(g, Start(g), steps);
    RunTotals(g, steps);
  }

  /**
    On the consumers that `init_module` registered, with `_probe_9` unshared: `num_probes` ends at
    9 * niter * (T - 1) + 1 modulo the word, and the thread that hit `_probe_9` is dead with its
    counters apart.
   */
  lemma KsuicideTotals(symbols: seq<Symbol>, kernPath: map<CString, Inode>, base: nat, k: nat, g: Setting,
                       steps: seq<Step>)
    requires Unshared(Points(symbols, kernPath), k)
    requires Points(symbols, kernPath)[k] == VictimPoint(symbols, kernPath)
    requires g.handlers == HandlersAt(Registered(symbols, kernPath, base), Points(symbols, kernPath)[k])
    requires SettingOk(g) && Valid(g, Start(g), steps) && AllOver(Exec(g, Start(g), steps))
    ensures var w := Exec(g, Start(g), steps);
            && w.numProbes == (LOOPED * g.cnt * |g.tids| + 1) % WORD
            && w.victim == Dead(Slot(g.victimTid, g.victimTid, MINUS_ONE, 0))
            && forall t :: 0 <= t < |w.workers| ==> w.workers[t] == Ended(0)
  {
    VictimDiesOnce(symbols, kernPath, base, k, g.victimTid);
    TotalsWithVictim(g, steps, Slot(g.victimTid, g.victimTid, MINUS_ONE, 0));
  }

  /** Five threads and four iterations: the 145 of the checked-in log. */
  lemma CheckedInTotal(g: Setting, steps: seq<Step>)
    requires SettingOk(g) && |g.tids| == 4 && g.cnt == 4 && g.handlers == [Counting, Suicide]
    requires Valid(g, Start(g), steps) && AllOver(Exec(g, Start(g), steps))
    ensures Exec(g, Start(g), steps).numProbes == 145
  {
    StopsAtSuicide(Entered(FRESH, g.victimTid), g.victimTid, g.handlers, 1);
    RunTotals(g, steps);
  }
}
