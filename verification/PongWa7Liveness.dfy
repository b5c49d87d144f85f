/**
  Termination of the teardown: under weak fairness every infinite run in which `cleanup_module`
  set `cleaning_up` reaches the end of `cleanup_module`, however many probe hits still arrive.
 */
module PongWa7Liveness {
  import opened PongWa7
  import opened PongWa7Safety

  datatype Action = Stutter | Do(l: Label)

  datatype Actor = Handlers | Completions | CallbackRuns | Cleaner

  predicate Steps(fused: bool, s: State, action: Action, t: State) {
    match action
    case Stutter => t == s
    case Do(l) => Enabled(s, l) && t == Next(fused, s, l)
  }

  ghost predicate IsRun(fused: bool, run: nat -> State, act: nat -> Action) {
    && run(0) == INIT
    && forall n: nat :: Steps(fused, run(n), act(n), run(n + 1))
  }

  /** Some step of the actor can be taken; nobody has to start `cleanup_module`. */
  predicate CanAct(a: Actor, s: State) {
    match a
    case Handlers => s.pc.Active?
    case Completions => s.pc.Idle? && s.k.deferred != EMPTY
    case CallbackRuns => s.cb.dec > 0 || s.cb.read > 0 || s.cb.wake > 0
    case Cleaner => !s.clean.pc.NotStarted? && Enabled(s, Clean)
  }

  predicate ActsAs(a: Actor, action: Action) {
    action.Do? &&
    match a
    case Handlers => action.l.Handler?
    case Completions => action.l.Complete?
    case CallbackRuns => action.l.CbDec? || action.l.CbRead? || action.l.CbWake?
    case Cleaner => action.l.Clean?
  }

  /** One of the steps of the actor. */
  function ActorLabel(a: Actor, s: State): Label {
    match a
    case Handlers => Handler(true)
    case Completions =>
      var d := s.k.deferred;
      Complete(if d.regEntry then Op(Entry, true) else if d.unregEntry then Op(Entry, false)
               else if d.regReturn then Op(Return, true) else Op(Return, false), true)
    case CallbackRuns => if s.cb.dec > 0 then CbDec else if s.cb.read > 0 then CbRead else CbWake
    case Cleaner => Clean
  }

  /** An actor is ready exactly when one of its steps is possible. */
  lemma ReadyExactly(a: Actor, s: State)
    ensures CanAct(a, s) <==>
            (a.Cleaner? ==> !s.clean.pc.NotStarted?) && exists l :: Enabled(s, l) && ActsAs(a, Do(l))
    ensures CanAct(a, s) ==> Enabled(s, ActorLabel(a, s)) && ActsAs(a, Do(ActorLabel(a, s)))
  {
    var l := ActorLabel(a, s);
    assert CanAct(a, s) ==> Enabled(s, l) && ActsAs(a, Do(l));
  }

  /** No actor is ready from some point on for ever without taking a step. */
  ghost predicate Fair(run: nat -> State, act: nat -> Action) {
    forall a: Actor, n: nat :: ServedFrom(a, run, act, n)
  }

  ghost predicate ServedFrom(a: Actor, run: nat -> State, act: nat -> Action, n: nat) {
    exists m: nat :: n <= m && Served(a, run, act, m)
  }

  ghost predicate Served(a: Actor, run: nat -> State, act: nat -> Action, m: nat) {
    CanAct(a, run(m)) ==> ActsAs(a, act(m))
  }

  // ---------- The measure ----------

  function HandlerWork(pc: Pc): nat {
    if pc.Idle? then 0
    else StageWork(pc.stage) + if pc.second then 0 else 1
  }

  function StageWork(stage: Stage): nat {
    match stage
    case Inc => 12
    case Issue => 11
    case Dec => 7
    case Read => 6
    case Wake => 5
    case _ => 1
  }

  function CleanupWork(c: Cleanup): nat {
    match c.pc
    case NotStarted => 8
    case Enqueue => 7
    case Test => if c.woken then 10 else 6
    case Sleep => if c.woken then 9 else 5
    case _ => Remaining(c.pc)
  }

  /** A bound on the steps that can still matter once `cleaning_up` is set. */
  function Work(s: State): nat {
    (if Harmless(s.pc) then 0 else HandlerWork(s.pc))
    + 8 * Size(s.k.deferred) + 7 * s.cb.dec + 6 * s.cb.read + 5 * s.cb.wake + CleanupWork(s.clean)
  }

  /** An activation that will only read `cleaning_up` as set and return. */
  predicate Harmless(pc: Pc) {
    pc.Idle? || (!pc.second && (pc.stage.Count? || pc.stage.Check?))
  }

  /** The steps of hits and of activations that will issue nothing. */
  predicate Idling(s: State, action: Action) {
    action.Stutter? || action.l.Hit? || (action.l.Handler? && Harmless(s.pc))
  }

  lemma RefusedWorks(s: State)
    requires s.pc.Active? && (s.pc.stage.Dec? || s.pc.stage.Read? || s.pc.stage.Wake?)
    ensures Work(RefusedStep(s)) < Work(s)
  {
  }

  lemma HandlerWorks(fused: bool, s: State, accept: bool)
    requires Inv(fused, s) && s.m.cleaningUp && s.pc.Active? && !Harmless(s.pc)
    ensures Work(HandlerStep(fused, s, accept)) < Work(s)
  {
    match s.pc.stage
    case Count =>
    case Check =>
    case Inc =>
    case Issue =>
    case Flag =>
    case _ => RefusedWorks(s);
  }

  lemma CompletionWorks(s: State, op: Op, ok: bool)
    requires Enabled(s, Complete(op, ok))
    ensures Work(CompleteStep(s, op, ok)) < Work(s)
  {
  }

  lemma CallbackWorks(s: State, l: Label)
    requires Enabled(s, l) && (l.CbDec? || l.CbRead? || l.CbWake?)
    ensures Work(CallbackStep(s, l)) < Work(s)
  {
  }

  lemma WaitWorks(s: State)
    requires Enabled(s, Clean) && !AfterWait(s.clean)
    ensures CleanupWork(WaitStep(s).clean) < CleanupWork(s.clean)
    ensures Work(WaitStep(s)) < Work(s)
  {
  }

  lemma TeardownWorks(s: State)
    requires Enabled(s, Clean) && AfterWait(s.clean)
    ensures CleanupWork(TeardownStep(s).clean) < CleanupWork(s.clean)
    ensures Work(TeardownStep(s)) < Work(s)
  {
  }

  lemma StepWorks(fused: bool, s: State, l: Label)
    requires Inv(fused, s) && s.m.cleaningUp && Enabled(s, l)
    ensures var t := Next(fused, s, l);
            if Idling(s, Do(l)) then Work(t) == Work(s) else Work(t) < Work(s)
  {
    match l
    case Hit(_) =>
    case Handler(accept) => if !Harmless(s.pc) { HandlerWorks(fused, s, accept); }
    case Complete(op, ok) => CompletionWorks(s, op, ok);
    case Clean => if AfterWait(s.clean) { TeardownWorks(s); } else { WaitWorks(s); }
    case _ => CallbackWorks(s, l);
  }

  // ---------- Every fair run finishes the teardown ----------

  /** The actor the remaining work waits for; it stays ready while only idling steps happen. */
  function Urgent(s: State): Actor {
    if !Harmless(s.pc) then Handlers
    else if s.pc.Idle? && s.k.deferred != EMPTY then Completions
    else if CanAct(CallbackRuns, s) then CallbackRuns
    else Cleaner
  }

  lemma UrgentCanAct(fused: bool, s: State)
    requires Inv(fused, s) && s.m.cleaningUp && !s.clean.pc.Done?
    ensures CanAct(Urgent(s), s)
  {
  }

  lemma UrgentWorks(fused: bool, s: State, action: Action)
    requires Inv(fused, s) && s.m.cleaningUp && ActsAs(Urgent(s), action) && Enabled(s, action.l)
    ensures !Idling(s, action)
  {
  }

  lemma UrgentPersists(fused: bool, s: State, action: Action, t: State)
    requires Inv(fused, s) && s.m.cleaningUp && !s.clean.pc.Done? && Idling(s, action)
    requires Steps(fused, s, action, t)
    ensures Urgent(t) == Urgent(s) && !t.clean.pc.Done? && t.m.cleaningUp
  {
  }

  lemma {:induction false} RunInv(fused: bool, run: nat -> State, act: nat -> Action, n: nat)
    requires IsRun(fused, run, act)
    ensures Inv(fused, run(n))
  {
    if n == 0 {
      InitInv(fused);
    } else {
      RunInv(fused, run, act, n - 1);
      assert Steps(fused, run(n - 1), act(n - 1), run(n));
      if act(n - 1).Do? {
        StepKeepsInv(fused, run(n - 1), act(n - 1).l);
      }
    }
  }

  /** Whatever has happened before, once `cleaning_up` is set the teardown can always be completed. */
  lemma {:induction false} TeardownPossible(fused: bool, s: State) returns (labels: seq<Label>)
    requires Inv(fused, s) && s.m.cleaningUp
    ensures Valid(fused, s, labels) && Exec(fused, s, labels).clean.pc.Done?
    decreases Work(s)
  {
    if s.clean.pc.Done? {
      labels := [];
    } else {
      var l := ActorLabel(Urgent(s), s);
      UrgentCanAct(fused, s);
      ReadyExactly(Urgent(s), s);
      UrgentWorks(fused, s, Do(l));
      StepWorks(fused, s, l);
      StepDrains(fused, s, l);
      StepKeepsInv(fused, s, l);
      var rest := TeardownPossible(fused, Next(fused, s, l));
      labels := [l] + rest;
      assert labels[1..] == rest;
    }
  }

  /** From `n` on, the next step that is not idling takes work away; fairness brings it about. */
  lemma NextWork(fused: bool, run: nat -> State, act: nat -> Action, n: nat) returns (k: nat)
    requires IsRun(fused, run, act) && Fair(run, act)
    requires run(n).m.cleaningUp && !run(n).clean.pc.Done?
    ensures n < k && run(k).m.cleaningUp && Work(run(k)) < Work(run(n))
  {
    var a := Urgent(run(n));
    assert ServedFrom(a, run, act, n);
    var m: nat :| n <= m && Served(a, run, act, m);
    k := n;
    while true
      invariant n <= k <= m
      invariant run(k).m.cleaningUp && !run(k).clean.pc.Done?
      invariant Urgent(run(k)) == a && Work(run(k)) == Work(run(n))
      decreases m - k
    {
      RunInv(fused, run, act, k);
      UrgentCanAct(fused, run(k));
      var action := act(k);
      assert Steps(fused, run(k), action, run(k + 1));
      if action.Do? {
        StepWorks(fused, run(k), action.l);
        StepDrains(fused, run(k), action.l);
      }
      if !Idling(run(k), action) {
        k := k + 1;
        return;
      }
      UrgentPersists(fused, run(k), action, run(k + 1));
      if k == m {
        UrgentWorks(fused, run(k), action);
      }
      k := k + 1;
    }
  }

  /** Once `cleaning_up` is set, every fair run ends the wait and the teardown. */
  lemma {:induction false} TeardownTerminates(fused: bool, run: nat -> State, act: nat -> Action, n: nat)
    returns (k: nat)
    requires IsRun(fused, run, act) && Fair(run, act)
    requires run(n).m.cleaningUp
    ensures n <= k && run(k).clean.pc.Done?
    decreases Work(run(n))
  {
    if run(n).clean.pc.Done? {
      k := n;
    } else {
      var later := NextWork(fused, run, act, n);
      k := TeardownTerminates(fused, run, act, later);
    }
  }
}
