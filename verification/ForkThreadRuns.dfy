/** What every run of uprobes.w/fork_thread.c does, and its functions as they are written. */
module ForkThreadRuns {
  import opened Words
  import opened Handshake
  import opened Sums
  import opened ForkThread

  // ---------- Every run ----------

  /** Different threads reap different children, and each gets that child's own exit status. */
  lemma WaitsReapDistinctChildren(cf: Config, labels: seq<Label>, t: nat, u: nat)
    requires ConfigOk(cf) && Valid(cf, Launch(cf), labels)
    requires t != u && t < |cf.tids| && u < |cf.tids|
    ensures var s := Exec(cf, Launch(cf), labels);
            s.parents[t].waited && s.parents[u].waited ==>
              && s.parents[t].got != s.parents[u].got
              && s.parents[t].got < |s.children|
              && s.children[s.parents[t].got] == Reaped(s.parents[t].status, t)
  {
    LaunchInv(cf);
    RunKeepsInv(cf, Launch(cf), labels);
  }

  /** Every call that a thread makes in the run is a hit. */
  predicate ParentCallsHit(cf: Config, s: State, labels: seq<Label>)
    requires Shape(cf, s) && Valid(cf, s, labels)
    decreases |labels|
  {
    labels == [] ||
    (var l := labels[0];
     (l.ParentStep? && Calling(cf, s.parents[l.t]) ==> l.hit) && ParentCallsHit(cf, Next(cf, s, l), labels[1..]))
  }

  /** Every call that a child makes in the run is a miss. */
  predicate ChildCallsMiss(cf: Config, s: State, labels: seq<Label>)
    requires Shape(cf, s) && Valid(cf, s, labels)
    decreases |labels|
  {
    labels == [] ||
    (var l := labels[0];
     (l.ChildStep? && s.children[l.c].i < cf.cnt ==> !l.hit) && ChildCallsMiss(cf, Next(cf, s, l), labels[1..]))
  }

  /** No call of the run finds its slot claimed by another thread. */
  predicate SlotsOwned(cf: Config, s: State, labels: seq<Label>)
    requires Shape(cf, s) && Valid(cf, s, labels)
    decreases |labels|
  {
    labels == [] ||
    (var l := labels[0];
     && (l.ParentStep? && Calling(cf, s.parents[l.t]) ==>
           s.parents[l.t].slot.utid == 0 || s.parents[l.t].slot.utid == cf.tids[l.t])
     && (l.ChildStep? && s.children[l.c].i < cf.cnt ==>
           s.children[l.c].slot.utid == 0 || s.children[l.c].slot.utid == cf.childTids[l.c])
     && SlotsOwned(cf, Next(cf, s, l), labels[1..]))
  }

  predicate NoWaitFails(labels: seq<Label>) {
    labels == [] || (!labels[0].WaitFails? && NoWaitFails(labels[1..]))
  }

  lemma {:induction false} ChecksRecorded(cf: Config, s: State, labels: seq<Label>)
    requires Shape(cf, s) && Valid(cf, s, labels)
    ensures Exec(cf, s, labels).wrongTid <==> s.wrongTid || !SlotsOwned(cf, s, labels)
    ensures Exec(cf, s, labels).noChild <==> s.noChild || !NoWaitFails(labels)
    decreases |labels|
  {
    if labels == [] {
    } else {
      ChecksRecorded(cf, Next(cf, s, labels[0]), labels[1..]);
    }
  }

  /** No `wait` ever finds the process without a child, and no slot is used by a second thread. */
  lemma WaitsNeverFail(cf: Config, labels: seq<Label>, t: nat, garbage: int)
    requires ConfigOk(cf) && Valid(cf, Launch(cf), labels)
    ensures var s := Exec(cf, Launch(cf), labels);
            NoWaitFails(labels) && !Enabled(cf, s, WaitFails(t, garbage)) && SlotsOwned(cf, Launch(cf), labels)
  {
    LaunchInv(cf);
    RunKeepsInv(cf, Launch(cf), labels);
    ChecksRecorded(cf, Launch(cf), labels);
    var s := Exec(cf, Launch(cf), labels);
    if t < |s.parents| && s.parents[t].pc.Wait? {
      WaiterHasChild(cf, s, t);
    }
  }

  lemma {:induction false} FlagsRecordCalls(cf: Config, s: State, labels: seq<Label>)
    requires Shape(cf, s) && Valid(cf, s, labels)
    ensures Exec(cf, s, labels).missed <==> s.missed || !ParentCallsHit(cf, s, labels)
    ensures Exec(cf, s, labels).childHit <==> s.childHit || !ChildCallsMiss(cf, s, labels)
    decreases |labels|
  {
    if labels == [] {
    } else {
      FlagsRecordCalls(cf, Next(cf, s, labels[0]), labels[1..]);
    }
  }

  /** The label is a call of `probe_0`, by a thread or a child, that hits. */
  predicate HitCall(cf: Config, s: State, l: Label)
    requires Shape(cf, s) && Enabled(cf, s, l)
  {
    match l
    case ParentStep(t, hit) => Calling(cf, s.parents[t]) && hit
    case ChildStep(c, hit) => s.children[c].i < cf.cnt && hit
    case _ => false
  }

  function HitCalls(cf: Config, s: State, labels: seq<Label>): nat
    requires Shape(cf, s) && Valid(cf, s, labels)
    decreases |labels|
  {
    if labels == [] then 0
    else (if HitCall(cf, s, labels[0]) then 1 else 0) + HitCalls(cf, Next(cf, s, labels[0]), labels[1..])
  }

  lemma StepCountsHit(cf: Config, s: State, l: Label)
    requires Shape(cf, s) && Enabled(cf, s, l)
    ensures Next(cf, s, l).numProbes == (s.numProbes + if HitCall(cf, s, l) then 1 else 0) % WORD
  {
  }

  /** Whatever went wrong, `num_probes` counts every hit of a thread or a child, modulo the word. */
  lemma {:induction false} CounterCountsHits(cf: Config, s: State, labels: seq<Label>)
    requires Shape(cf, s) && Valid(cf, s, labels)
    ensures Exec(cf, s, labels).numProbes == (s.numProbes + HitCalls(cf, s, labels)) % WORD
    decreases |labels|
  {
    if labels == [] {
    } else {
      var next, one := Next(cf, s, labels[0]), if HitCall(cf, s, labels[0]) then 1 else 0;
      StepCountsHit(cf, s, labels[0]);
      CounterCountsHits(cf, next, labels[1..]);
      AddMod(s.numProbes + one, HitCalls(cf, next, labels[1..]));
    }
  }

  /** From the launch on: a counted hit for every hitting call, and nothing else. */
  lemma NumProbesIsHits(cf: Config, labels: seq<Label>)
    requires |cf.tids| == |cf.childTids| && Valid(cf, Launch(cf), labels)
    ensures Exec(cf, Launch(cf), labels).numProbes == HitCalls(cf, Launch(cf), labels) % 0x1_0000_0000
  {
    CounterCountsHits(cf, Launch(cf), labels);
  }

  /** What the call that misses returns, when it is call number `n` and all before it were hits. */
  function MissVerdict(n: nat): int {
    if n == 0 then -1 else -2
  }

  lemma MissAfterHits(tid: int, n: nat)
    requires tid > 0 && n < HALF
    ensures Verdict(AfterCall(AllHits(tid, n), tid, 0)) == MissVerdict(n)
  {
  }

  lemma MissLocal(cf: Config, p: Parent, tid: int)
    requires ConfigOk(cf) && tid > 0 && ParentOk(cf, p, tid) && Calling(cf, p)
    ensures ParentNext(cf, p, tid, false).pc == Ended(if p.pc == Pre(0) then -1 else -2)
  {
    MissAfterHits(tid, if p.pc.Pre? then p.pc.i else cf.cnt + p.pc.i);
  }

  lemma MissInState(cf: Config, s: State, t: nat)
    requires ConfigOk(cf) && Shape(cf, s) && Inv(cf, s) && s.main.Joining?
    requires t < |s.parents| && Calling(cf, s.parents[t])
    ensures ParentMove(cf, s, t, false).parents[t].pc == Ended(if s.parents[t].pc == Pre(0) then -1 else -2)
  {
    assert ParentOk(cf, s.parents[t], cf.tids[t]);
    MissLocal(cf, s.parents[t], cf.tids[t]);
  }

  /** In every run a thread's call that misses makes it return: -1 at its first call and -2 later. */
  lemma MissedCallReturns(cf: Config, labels: seq<Label>, t: nat)
    requires ConfigOk(cf) && Valid(cf, Launch(cf), labels) && t < |cf.tids|
    requires var s := Exec(cf, Launch(cf), labels); s.main.Joining? && Calling(cf, s.parents[t])
    ensures var s := Exec(cf, Launch(cf), labels);
            Next(cf, s, ParentStep(t, false)).parents[t].pc
            == Ended(if s.parents[t].pc == Pre(0) then -1 else -2)
  {
    LaunchInv(cf);
    RunKeepsInv(cf, Launch(cf), labels);
    MissInState(cf, Exec(cf, Launch(cf), labels), t);
  }

  lemma PassCounter(cf: Config, s: State)
    requires Shape(cf, s) && Inv(cf, s) && s.main == Reported(true)
    ensures s.numProbes == 2 * cf.cnt * |cf.tids| % WORD
  {
    SumEqual(HitsMade(cf), s.parents, 2 * cf.cnt);
  }

  lemma PassChildren(cf: Config, s: State)
    requires Shape(cf, s) && Inv(cf, s) && s.main == Reported(true)
    ensures forall c :: 0 <= c < |s.children| ==> s.children[c].Reaped? && s.children[c].code == 0
  {
    AllWaitedWell(cf, s.parents);
    AllReaped(s.parents, s.children);
    NoneFailed(s.parents, s.children);
    forall c | 0 <= c < |s.children|
      ensures s.children[c].Reaped? && s.children[c].code == 0
    {
      assert ChildOk(cf, s.children[c], cf.childTids[c]);
    }
  }

  /**
    The verdict: `main` reports PASS exactly when no call of a thread missed and no call of a
    child was a hit. A PASS has counted every hit of every thread.
   */
  lemma VerdictUnderReaping(cf: Config, labels: seq<Label>)
    requires ConfigOk(cf) && Valid(cf, Launch(cf), labels) && Exec(cf, Launch(cf), labels).main.Reported?
    ensures var s := Exec(cf, Launch(cf), labels);
            && (s.main.pass <==> ParentCallsHit(cf, Launch(cf), labels) && ChildCallsMiss(cf, Launch(cf), labels))
            && (s.main.pass ==>
                  && s.numProbes == 2 * cf.cnt * |cf.tids| % WORD
                  && (forall c :: 0 <= c < |s.children| ==> s.children[c].Reaped? && s.children[c].code == 0))
  {
    LaunchInv(cf);
    RunKeepsInv(cf, Launch(cf), labels);
    FlagsRecordCalls(cf, Launch(cf), labels);
    var s := Exec(cf, Launch(cf), labels);
    if s.main.pass {
      PassCounter(cf, s);
      PassChildren(cf, s);
    }
  }

  // ---------- Every run ends with a verdict ----------

  function ParentLeft(cf: Config): Parent -> nat {
    (p: Parent) => match p.pc
                   case Fork => 2 * cf.cnt + 5
                   case Pre(i) => if i <= cf.cnt then 2 * cf.cnt + 4 - i else 0
                   case Wait => cf.cnt + 3
                   case Post(i) => if i <= cf.cnt then cf.cnt + 1 - i else 0
                   case Ended(_) => 0
  }

  function ChildLeft(cf: Config): Child -> nat {
    (c: Child) => match c
                  case Unborn => cf.cnt + 3
                  case Running(i, _) => if i <= cf.cnt then cf.cnt + 2 - i else 0
                  case Zombie(_) => 1
                  case Reaped(_, _) => 0
  }

  function MainLeft(main: MainPc, threads: nat): nat {
    if main.Joining? && main.i <= threads then threads - main.i + 1 else 0
  }

  function StepsLeft(cf: Config, s: State): nat {
    Sum(ParentLeft(cf), s.parents) + Sum(ChildLeft(cf), s.children) + MainLeft(s.main, |s.parents|)
  }

  lemma ParentStepLeft(cf: Config, p: Parent, tid: int, hit: bool)
    requires ParentOk(cf, p, tid) && !p.pc.Wait? && !p.pc.Ended?
    ensures ParentLeft(cf)(ParentNext(cf, p, tid, hit)) < ParentLeft(cf)(p)
  {
  }

  lemma ChildStepLeft(cf: Config, c: Child, tid: int, hit: bool)
    requires ChildOk(cf, c, tid) && c.Running?
    ensures ChildLeft(cf)(ChildNext(cf, c, tid, hit)) < ChildLeft(cf)(c)
  {
  }

  /** One entry of each table changed, and the work left in the two went down together. */
  lemma UpdatesDecrease(cf: Config, parents: seq<Parent>, children: seq<Child>, t: nat, q: Parent, c: nat, d: Child)
    requires t < |parents| && c < |children|
    requires ParentLeft(cf)(q) + ChildLeft(cf)(d) < ParentLeft(cf)(parents[t]) + ChildLeft(cf)(children[c])
    ensures Sum(ParentLeft(cf), parents[t := q]) + Sum(ChildLeft(cf), children[c := d])
            < Sum(ParentLeft(cf), parents) + Sum(ChildLeft(cf), children)
  {
    SumUpdate(ParentLeft(cf), parents, t, q);
    SumUpdate(ChildLeft(cf), children, c, d);
  }

  lemma ParentMoveDecreases(cf: Config, s: State, t: nat, hit: bool)
    requires Shape(cf, s) && Inv(cf, s) && Enabled(cf, s, ParentStep(t, hit))
    ensures StepsLeft(cf, ParentMove(cf, s, t, hit)) < StepsLeft(cf, s)
  {
    var p, c := s.parents[t], s.children[t];
    var q, r := ParentNext(cf, p, cf.tids[t], hit), ParentMove(cf, s, t, hit);
    assert ParentOk(cf, p, cf.tids[t]);
    ParentStepLeft(cf, p, cf.tids[t], hit);
    var d := if p.pc.Fork? then Running(0, p.slot) else c;
    assert r.children == s.children[t := d];
    assert p.pc.Fork? ==> c.Unborn?;
    UpdatesDecrease(cf, s.parents, s.children, t, q, t, d);
  }

  lemma ChildMoveDecreases(cf: Config, s: State, c: nat, hit: bool)
    requires Shape(cf, s) && Inv(cf, s) && Enabled(cf, s, ChildStep(c, hit))
    ensures StepsLeft(cf, ChildMove(cf, s, c, hit)) < StepsLeft(cf, s)
  {
    var d, r := ChildNext(cf, s.children[c], cf.childTids[c], hit), ChildMove(cf, s, c, hit);
    assert ChildOk(cf, s.children[c], cf.childTids[c]);
    ChildStepLeft(cf, s.children[c], cf.childTids[c], hit);
    assert s.parents[c := s.parents[c]] == s.parents == r.parents;
    UpdatesDecrease(cf, s.parents, s.children, c, s.parents[c], c, d);
  }

  lemma ReapDecreases(cf: Config, s: State, t: nat, c: nat)
    requires Shape(cf, s) && Enabled(cf, s, Reap(t, c))
    ensures StepsLeft(cf, ReapMove(s, t, c)) < StepsLeft(cf, s)
  {
    var r := ReapMove(s, t, c);
    UpdatesDecrease(cf, s.parents, s.children, t, r.parents[t], c, r.children[c]);
  }

  lemma StepDecreases(cf: Config, s: State, l: Label)
    requires ConfigOk(cf) && Shape(cf, s) && Inv(cf, s) && Enabled(cf, s, l)
    ensures StepsLeft(cf, Next(cf, s, l)) < StepsLeft(cf, s)
  {
    match l
    case ParentStep(t, hit) => ParentMoveDecreases(cf, s, t, hit);
    case Reap(t, c) => ReapDecreases(cf, s, t, c);
    case WaitFails(t, _) => WaiterHasChild(cf, s, t);
    case ChildStep(c, hit) => ChildMoveDecreases(cf, s, c, hit);
    case Join =>
  }

  lemma {:induction false} RunsAreBounded(cf: Config, s: State, labels: seq<Label>)
    requires ConfigOk(cf) && Shape(cf, s) && Inv(cf, s) && Valid(cf, s, labels)
    ensures |labels| + StepsLeft(cf, Exec(cf, s, labels)) <= StepsLeft(cf, s)
    decreases |labels|
  {
    if labels == [] {
    } else {
      StepKeepsInv(cf, s, labels[0]);
      StepDecreases(cf, s, labels[0]);
      RunsAreBounded(cf, Next(cf, s, labels[0]), labels[1..]);
    }
  }

  /** A step that is always there until `main` has reported. */
  lemma NeverStuck(cf: Config, s: State) returns (l: Label)
    requires ConfigOk(cf) && Shape(cf, s) && Inv(cf, s) && s.main.Joining?
    ensures Enabled(cf, s, l) && !l.WaitFails?
  {
    var t := s.main.i;
    if t == |s.parents| || s.parents[t].pc.Ended? {
      l := Join;
    } else if s.parents[t].pc.Wait? {
      WaiterHasChild(cf, s, t);
      var c :| 0 <= c < |s.children| && Unreaped(s.children[c]);
      l := if s.children[c].Zombie? then Reap(t, c) else ChildStep(c, false);
    } else {
      l := ParentStep(t, true);
    }
  }

  lemma StepsAtLaunch(cf: Config)
    requires |cf.childTids| == |cf.tids|
    ensures StepsLeft(cf, Launch(cf)) == (3 * cf.cnt + 9) * |cf.tids| + 1
  {
    var n := |cf.tids|;
    SumEqual(ParentLeft(cf), Launch(cf).parents, 2 * cf.cnt + 5);
    SumEqual(ChildLeft(cf), Launch(cf).children, cf.cnt + 3);
    assert (3 * cf.cnt + 9) * n == (2 * cf.cnt + 5) * n + (cf.cnt + 3) * n + n;
  }

  /**
    No run gets longer than 3cnt + 9 steps per thread and one of `main`, and until then a step is
    possible, so every run that is continued as long as it can be ends with a verdict.
   */
  lemma RunsEndWithVerdict(cf: Config, labels: seq<Label>)
    requires ConfigOk(cf) && Valid(cf, Launch(cf), labels)
    ensures |labels| <= (3 * cf.cnt + 9) * |cf.tids| + 1
    ensures Exec(cf, Launch(cf), labels).main.Reported? <==>
            forall l :: !Enabled(cf, Exec(cf, Launch(cf), labels), l)
  {
    LaunchInv(cf);
    RunKeepsInv(cf, Launch(cf), labels);
    RunsAreBounded(cf, Launch(cf), labels);
    StepsAtLaunch(cf);
    if Exec(cf, Launch(cf), labels).main.Joining? {
      var l := NeverStuck(cf, Exec(cf, Launch(cf), labels));
    }
  }

  // ---------- More iterations than the counters can hold ----------

  /** No thread gets past 2^31 calls: their verdict no longer fits a C `int`. */
  predicate Stalled(cf: Config, p: Parent, tid: int) {
    match p.pc
    case Fork => p.slot == FRESH
    case Pre(i) => i <= HALF && i <= cf.cnt && p.slot == AllHits(tid, i)
    case Wait => cf.cnt <= HALF && p.slot == AllHits(tid, cf.cnt)
    case Post(i) => cf.cnt + i <= HALF && p.slot == AllHits(tid, cf.cnt + i)
    case Ended(r) => r < 0
  }

  predicate ParentsStalled(cf: Config, parents: seq<Parent>)
    requires |parents| == |cf.tids|
  {
    forall t :: 0 <= t < |parents| ==> Stalled(cf, parents[t], cf.tids[t])
  }

  predicate AllStalled(cf: Config, s: State)
    requires Shape(cf, s)
  {
    ParentsStalled(cf, s.parents) && (s.main == Joining(0) || s.main == Reported(false))
  }

  lemma CallPastTheEnd(tid: int, hit: bool)
    requires tid > 0
    ensures Verdict(AfterCall(AllHits(tid, HALF), tid, Hits(hit))) < 0
  {
    AfterCallForm(AllHits(tid, HALF), tid, Hits(hit));
  }

  lemma StalledParent(cf: Config, p: Parent, tid: int, hit: bool)
    requires cf.cnt > 0x4000_0000 && tid > 0 && Stalled(cf, p, tid) && !p.pc.Wait? && !p.pc.Ended?
    ensures Stalled(cf, ParentNext(cf, p, tid, hit), tid)
  {
    var n := match p.pc case Fork => 0 case Pre(i) => i case Post(i) => cf.cnt + i;
    if n < HALF {
      CallAfterHits(tid, n, hit);
    } else {
      CallPastTheEnd(tid, hit);
    }
  }

  lemma UpdateStalled(cf: Config, parents: seq<Parent>, t: nat, q: Parent)
    requires |parents| == |cf.tids| && ParentsStalled(cf, parents) && t < |parents| && Stalled(cf, q, cf.tids[t])
    ensures ParentsStalled(cf, parents[t := q])
  {
  }

  lemma ParentMoveStalled(cf: Config, s: State, t: nat, hit: bool)
    requires cf.cnt > 0x4000_0000 && Shape(cf, s) && AllStalled(cf, s) && Enabled(cf, s, ParentStep(t, hit))
    requires cf.tids[t] > 0
    ensures AllStalled(cf, ParentMove(cf, s, t, hit))
  {
    var q := ParentNext(cf, s.parents[t], cf.tids[t], hit);
    StalledParent(cf, s.parents[t], cf.tids[t], hit);
    UpdateStalled(cf, s.parents, t, q);
    assert ParentMove(cf, s, t, hit).parents == s.parents[t := q];
  }

  lemma WaiterStalled(cf: Config, s: State, t: nat, q: Parent)
    requires Shape(cf, s) && AllStalled(cf, s) && t < |s.parents| && s.parents[t].pc.Wait?
    requires q.pc == Post(0) && q.slot == s.parents[t].slot
    ensures ParentsStalled(cf, s.parents[t := q])
  {
  }

  lemma StepKeepsStalled(cf: Config, s: State, l: Label)
    requires cf.cnt > 0x4000_0000 && |cf.tids| > 0 && forall t :: 0 <= t < |cf.tids| ==> cf.tids[t] > 0
    requires Shape(cf, s) && AllStalled(cf, s) && Enabled(cf, s, l)
    ensures AllStalled(cf, Next(cf, s, l))
  {
    match l
    case ParentStep(t, hit) => ParentMoveStalled(cf, s, t, hit);
    case Reap(t, c) => WaiterStalled(cf, s, t, ReapMove(s, t, c).parents[t]);
    case WaitFails(t, garbage) => WaiterStalled(cf, s, t, s.parents[t].(pc := Post(0), status := garbage));
    case ChildStep(c, hit) => assert Next(cf, s, l).parents == s.parents;
    case Join => assert Stalled(cf, s.parents[0], cf.tids[0]);
  }

  lemma {:induction false} RunKeepsStalled(cf: Config, s: State, labels: seq<Label>)
    requires cf.cnt > 0x4000_0000 && |cf.tids| > 0 && forall t :: 0 <= t < |cf.tids| ==> cf.tids[t] > 0
    requires Shape(cf, s) && AllStalled(cf, s) && Valid(cf, s, labels)
    ensures AllStalled(cf, Exec(cf, s, labels))
    decreases |labels|
  {
    if labels == [] {
    } else {
      StepKeepsStalled(cf, s, labels[0]);
      RunKeepsStalled(cf, Next(cf, s, labels[0]), labels[1..]);
    }
  }

  /** Beyond 2^30 iterations no run passes, not even one whose every call behaves as it should. */
  lemma TooManyIterationsNeverPass(cf: Config, labels: seq<Label>)
    requires cf.cnt > 0x4000_0000 && |cf.childTids| == |cf.tids| > 0
    requires forall t :: 0 <= t < |cf.tids| ==> cf.tids[t] > 0
    requires Valid(cf, Launch(cf), labels)
    ensures Exec(cf, Launch(cf), labels).main != Reported(true)
  {
    RunKeepsStalled(cf, Launch(cf), labels);
  }

  // ---------- fork_thread as it is written ----------

  predicate AllTrue(hits: seq<bool>) {
    forall i :: 0 <= i < |hits| ==> hits[i]
  }

  /** A parent's call of `probe_0`, after `n` hits. */
  method CountingCall(k: KernelModule, table: array<Slot>, tid: int, hit: bool, ghost n: nat) returns (error: int)
    requires table.Length > 0 && tid > 0 && n < HALF && table[0] == AllHits(tid, n)
    modifies k, table
    ensures hit ==> error == n && table[0] == AllHits(tid, n + 1) && k.numProbes == Succ(old(k.numProbes))
    ensures !hit ==> error == MissVerdict(n)
  {
    CallAfterHits(tid, n, hit);
    MissAfterHits(tid, n);
    var r := k.Probe(table, 0, tid, Hits(hit));
    assert table[0] == table[..][0];
    return r.verdict;
  }

  /** A counting loop of the parent, which has made `before` calls so far; it returns at a negative verdict. */
  method CountingLoop(k: KernelModule, table: array<Slot>, tid: int, hits: seq<bool>, ghost before: nat)
    returns (error: int)
    requires table.Length > 0 && tid > 0 && before + |hits| <= HALF && table[0] == AllHits(tid, before)
    modifies k, table
    ensures AllTrue(hits) ==>
              && error >= 0 && table[0] == AllHits(tid, before + |hits|)
              && k.numProbes == (old(k.numProbes) + |hits|) % WORD
    ensures !AllTrue(hits) ==> error == MissVerdict(if hits[0] then before + 1 else before)
  {
    error := 0;
    var i := 0;
    while i < |hits|
      invariant i <= |hits| && AllTrue(hits[..i]) && error >= 0
      invariant table[0] == AllHits(tid, before + i)
      invariant k.numProbes == (old(k.numProbes) + i) % WORD
    {
      SuccMod(old(k.numProbes) + i);
      error := CountingCall(k, table, tid, hits[i], before + i);
      if error < 0 {
        assert !hits[i] && (i > 0 ==> hits[..i][0]);
        return;
      }
      AllTrueNext(hits, i);
      i := i + 1;
    }
    assert hits[..i] == hits;
  }

  lemma AllTrueNext(hits: seq<bool>, i: nat)
    requires i < |hits| && AllTrue(hits[..i]) && hits[i]
    ensures AllTrue(hits[..i + 1])
  {
  }

  /**
    The parent: it returns its own first bad verdict, and otherwise the exit status of the child
    that its `wait` reaped.
   */
  method ParentProcess(k: KernelModule, table: array<Slot>, tid: int, pre: seq<bool>, post: seq<bool>, status: nat)
    returns (result: int)
    requires table.Length > 0 && tid > 0 && table[0] == FRESH && 0 < |pre| == |post| <= 0x4000_0000
    modifies k, table
    ensures result == if AllTrue(pre) && AllTrue(post) then status else if pre[0] then -2 else -1
    ensures result >= 0 ==> k.numProbes == (old(k.numProbes) + 2 * |pre|) % WORD
  {
    var error := CountingLoop(k, table, tid, pre, 0);
    if error < 0 {
      return error;
    }
    AddMod(old(k.numProbes) + |pre|, |post|);
    error := CountingLoop(k, table, tid, post, |pre|);
    if error < 0 {
      return error;
    }
    if status != 0 {
      return status;
    }
    return 0;
  }

  /** The child, on its copy of the table: it exits with 1 at the first hit, and with 0 otherwise. */
  method ChildProcess(k: KernelModule, table: array<Slot>, tid: int, hits: seq<bool>) returns (code: int)
    requires table.Length > 0 && tid > 0 && table[0] == FRESH && |hits| < HALF
    modifies k, table
    ensures code == if true in hits then 1 else 0
    ensures k.numProbes == (old(k.numProbes) + code) % WORD
  {
    var i := 0;
    while i < |hits|
      invariant i <= |hits| && true !in hits[..i]
      invariant table[0] == AllMisses(tid, i) && k.numProbes == old(k.numProbes)
    {
      CallAfterMisses(tid, i, hits[i]);
      var r := k.Probe(table, 0, tid, Hits(hits[i]));
      assert table[0] == table[..][0];
      if r.verdict != -1 {
        return 1;
      }
      i := i + 1;
    }
    assert hits[..i] == hits;
    return 0;
  }
}
