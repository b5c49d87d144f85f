/**
  The deferred-registration and teardown protocol of uprobes.existing/pong_wa7.c in its
  UPROBES_REG_CALLBACK build, as a transition system whose steps make at most one shared access.

  Four actors interleave: the single-threaded probee running a handler, the kernel completing
  deferred operations, the registration callbacks, and `cleanup_module`.

  Environment assumptions, all of them visible in `Enabled` and `Next`:
  - the probee is single-threaded: one handler activation at a time;
  - an operation requested by a handler completes after that handler returned and before the
    next probe hit, in any order; its callback then runs exactly once, concurrently with
    everything else;
  - inside a handler a registration is either accepted (-EINPROGRESS) or refused with an error
    and then has no callback; an unregistration is always accepted;
  - an accepted registration may still complete unsuccessfully; an unregistration succeeds;
  - `wait_event` is enqueue, test, sleep, and again after a wake-up;
  - an unregistration called by `cleanup_module` is synchronous, has no callback and does not
    wait for a handler that is still running.
 */
module PongWa7 {

  /** The two probes, and the handlers that belong to them. */
  datatype Which = Entry | Return

  datatype Op = Op(probe: Which, reg: bool)

  /**
    Both handlers count their call and then request two operations, each in the same way:
    check `cleaning_up`, increment `pending_regs`, issue, set the probe's flag; a refused
    registration runs `pending_reg_done` (Dec, Read, Wake) instead of setting the flag.
   */
  datatype Stage = Count | Check | Inc | Issue | Flag | Dec | Read | Wake

  datatype Pc = Idle | Active(which: Which, second: bool, stage: Stage)

  /** The static variables of the module. */
  datatype Module = Module(
    entryFlag: bool, returnFlag: bool, ncalls: nat, nreturns: nat, pending: int, cleaningUp: bool)

  /**
    Which operations are on the kernel's deferred list. A set is as good as a list: no operation
    is ever issued while it is still on the list (`IssuedOnce`), and completion order is free.
   */
  datatype Deferred = Deferred(regEntry: bool, unregEntry: bool, regReturn: bool, unregReturn: bool)

  const EMPTY := Deferred(false, false, false, false)

  /** The kernel's view of a probe; `lost` says that its last accepted registration failed later. */
  datatype Truth = Truth(live: bool, lost: bool)

  datatype Kernel = Kernel(entry: Truth, ret: Truth, deferred: Deferred)

  /** Callbacks that still have to decrement, to read `cleaning_up`, to wake the sleeper. */
  datatype Callbacks = Callbacks(dec: nat, read: nat, wake: nat)

  datatype CleanPc =
    | NotStarted | Enqueue | Test | Sleep
    | ReadEntry | DropEntry | ReadReturn | DropReturn | Done

  datatype Cleanup = Cleanup(pc: CleanPc, woken: bool)

  /** `issued` counts the calls of the registration interface made by handlers. */
  datatype State = State(m: Module, k: Kernel, pc: Pc, cb: Callbacks, clean: Cleanup, issued: nat)

  datatype Label =
    | Hit(which: Which)
    | Handler(accept: bool)
    | Complete(op: Op, ok: bool)
    | CbDec | CbRead | CbWake
    | Clean

  /** After `init_module`: the entry probe is registered, nothing is pending. */
  const INIT := State(Module(true, false, 0, 0, 0, false),
                      Kernel(Truth(true, false), Truth(false, false), EMPTY),
                      Idle, Callbacks(0, 0, 0), Cleanup(NotStarted, false), 0)

  // ---------- Steps ----------

  function Bit(b: bool): nat {
    if b then 1 else 0
  }

  function Size(d: Deferred): nat {
    Bit(d.regEntry) + Bit(d.unregEntry) + Bit(d.regReturn) + Bit(d.unregReturn)
  }

  predicate Held(d: Deferred, op: Op) {
    if op.probe.Entry? then if op.reg then d.regEntry else d.unregEntry
    else if op.reg then d.regReturn else d.unregReturn
  }

  /** The list with `op` put on it or taken off it. */
  function WithHeld(d: Deferred, op: Op, on: bool): Deferred {
    if op.probe.Entry? then if op.reg then d.(regEntry := on) else d.(unregEntry := on)
    else if op.reg then d.(regReturn := on) else d.(unregReturn := on)
  }

  /**
    The entry handler registers the return probe, then unregisters the entry probe; the return
    handler unregisters the return probe, then registers the entry probe.
   */
  function OpOf(which: Which, second: bool): Op {
    Op(if second then Entry else Return, which.Entry? != second)
  }

  predicate Live(k: Kernel, which: Which) {
    if which.Entry? then k.entry.live else k.ret.live
  }

  predicate Enabled(s: State, l: Label) {
    match l
    case Hit(which) => s.pc.Idle? && s.k.deferred == EMPTY && Live(s.k, which)
    case Handler(_) => s.pc.Active?
    case Complete(op, ok) => s.pc.Idle? && Held(s.k.deferred, op) && (ok || op.reg)
    case CbDec => s.cb.dec > 0
    case CbRead => s.cb.read > 0
    case CbWake => s.cb.wake > 0
    case Clean => !s.clean.pc.Done? && (s.clean.pc.Sleep? ==> s.clean.woken)
  }

  /** `wake_up`: it reaches the sleeper only while that is on the wait queue. */
  function Woken(c: Cleanup): Cleanup {
    if c.pc.Test? || c.pc.Sleep? then c.(woken := true) else c
  }

  /** Where an activation goes on after one of its two operations. */
  function Following(pc: Pc): Pc
    requires pc.Active?
  {
    if pc.second then Idle else Active(pc.which, true, Check)
  }

  function CountStep(s: State): State
    requires s.pc.Active?
  {
    s.(m := if s.pc.which.Entry? then s.m.(ncalls := s.m.ncalls + 1) else s.m.(nreturns := s.m.nreturns + 1),
       pc := s.pc.(stage := Check))
  }

  /** The test of `cleaning_up`; with `fused` the increment belongs to the same step. */
  function CheckStep(fused: bool, s: State): State
    requires s.pc.Active?
  {
    if s.m.cleaningUp then s.(pc := Idle)
    else if fused then s.(m := s.m.(pending := s.m.pending + 1), pc := s.pc.(stage := Issue))
    else s.(pc := s.pc.(stage := Inc))
  }

  function IncStep(s: State): State
    requires s.pc.Active?
  {
    s.(m := s.m.(pending := s.m.pending + 1), pc := s.pc.(stage := Issue))
  }

  function IssueStep(s: State, accept: bool): State
    requires s.pc.Active?
  {
    var op := OpOf(s.pc.which, s.pc.second);
    if op.reg && !accept then s.(pc := s.pc.(stage := Dec), issued := s.issued + 1)
    else s.(k := s.k.(deferred := WithHeld(s.k.deferred, op, true)), pc := s.pc.(stage := Flag), issued := s.issued + 1)
  }

  function FlagStep(s: State): State
    requires s.pc.Active?
  {
    var op := OpOf(s.pc.which, s.pc.second);
    s.(m := if op.probe.Entry? then s.m.(entryFlag := op.reg) else s.m.(returnFlag := op.reg),
       pc := Following(s.pc))
  }

  /** `pending_reg_done` after a refused registration. */
  function RefusedStep(s: State): State
    requires s.pc.Active?
  {
    if s.pc.stage.Dec? then
      s.(m := s.m.(pending := s.m.pending - 1),
         pc := if s.m.pending == 1 then s.pc.(stage := Read) else Following(s.pc))
    else if s.pc.stage.Read? then
      s.(pc := if s.m.cleaningUp then s.pc.(stage := Wake) else Following(s.pc))
    else
      s.(clean := Woken(s.clean), pc := Following(s.pc))
  }

  function HandlerStep(fused: bool, s: State, accept: bool): State
    requires s.pc.Active?
  {
    match s.pc.stage
    case Count => CountStep(s)
    case Check => CheckStep(fused, s)
    case Inc => IncStep(s)
    case Issue => IssueStep(s, accept)
    case Flag => FlagStep(s)
    case _ => RefusedStep(s)
  }

  function Completed(t: Truth, reg: bool, ok: bool): Truth {
    if !reg then Truth(false, false) else if ok then Truth(true, false) else t.(lost := true)
  }

  /** A completed operation changes the kernel's truth and owes one callback. */
  function CompleteStep(s: State, op: Op, ok: bool): State
    requires Held(s.k.deferred, op)
  {
    var d := WithHeld(s.k.deferred, op, false);
    s.(k := if op.probe.Entry? then Kernel(Completed(s.k.entry, op.reg, ok), s.k.ret, d)
            else Kernel(s.k.entry, Completed(s.k.ret, op.reg, ok), d),
       cb := s.cb.(dec := s.cb.dec + 1))
  }

  /** One step of a callback, in `pending_reg_done`. */
  function CallbackStep(s: State, l: Label): State
    requires Enabled(s, l) && (l.CbDec? || l.CbRead? || l.CbWake?)
  {
    if l.CbDec? then
      s.(m := s.m.(pending := s.m.pending - 1),
         cb := s.cb.(dec := s.cb.dec - 1, read := if s.m.pending == 1 then s.cb.read + 1 else s.cb.read))
    else if l.CbRead? then
      s.(cb := s.cb.(read := s.cb.read - 1, wake := if s.m.cleaningUp then s.cb.wake + 1 else s.cb.wake))
    else
      s.(cb := s.cb.(wake := s.cb.wake - 1), clean := Woken(s.clean))
  }

  /** `wait_event`, after the flag was set. */
  function WaitStep(s: State): State {
    match s.clean.pc
    case NotStarted => s.(m := s.m.(cleaningUp := true), clean := s.clean.(pc := Enqueue))
    case Enqueue => s.(clean := Cleanup(Test, false))
    case Test => s.(clean := s.clean.(pc := if s.m.pending == 0 then ReadEntry else Sleep))
    case _ => s.(clean := s.clean.(pc := Enqueue))
  }

  /** The two guarded unregistrations at the end of `cleanup_module`. */
  function TeardownStep(s: State): State {
    match s.clean.pc
    case ReadEntry => s.(clean := s.clean.(pc := if s.m.entryFlag then DropEntry else ReadReturn))
    case DropEntry => s.(k := s.k.(entry := Truth(false, false)), clean := s.clean.(pc := ReadReturn))
    case ReadReturn => s.(clean := s.clean.(pc := if s.m.returnFlag then DropReturn else Done))
    case _ => s.(k := s.k.(ret := Truth(false, false)), clean := s.clean.(pc := Done))
  }

  function Next(fused: bool, s: State, l: Label): State
    requires Enabled(s, l)
  {
    match l
    case Hit(which) => s.(pc := Active(which, false, Count))
    case Handler(accept) => HandlerStep(fused, s, accept)
    case Complete(op, ok) => CompleteStep(s, op, ok)
    case Clean => if AfterWait(s.clean) then TeardownStep(s) else WaitStep(s)
    case _ => CallbackStep(s, l)
  }

  /** The labels form a run of the machine from `s`. */
  predicate Valid(fused: bool, s: State, labels: seq<Label>)
    decreases |labels|
  {
    labels == [] || (Enabled(s, labels[0]) && Valid(fused, Next(fused, s, labels[0]), labels[1..]))
  }

  function Exec(fused: bool, s: State, labels: seq<Label>): State
    requires Valid(fused, s, labels)
    decreases |labels|
  {
    if labels == [] then s else Exec(fused, Next(fused, s, labels[0]), labels[1..])
  }

  lemma {:induction false} RunsCompose(fused: bool, s: State, first: seq<Label>, rest: seq<Label>)
    requires Valid(fused, s, first) && Valid(fused, Exec(fused, s, first), rest)
    ensures Valid(fused, s, first + rest)
    ensures Exec(fused, s, first + rest) == Exec(fused, Exec(fused, s, first), rest)
    decreases |first|
  {
    if first == [] {
      assert first + rest == rest;
    } else {
      assert (first + rest)[1..] == first[1..] + rest;
      RunsCompose(fused, Next(fused, s, first[0]), first[1..], rest);
    }
  }

  // ---------- Vocabulary of the claims ----------

  /** An increment is done, and its operation is not issued or its refusal not yet taken back. */
  predicate InFlight(pc: Pc) {
    pc.Active? && (pc.stage.Issue? || pc.stage.Dec?)
  }

  /** The activation passed a check of `cleaning_up` and did not issue the operation yet. */
  predicate InWindow(pc: Pc) {
    pc.Active? && (pc.stage.Inc? || pc.stage.Issue?)
  }

  /** `wait_event` has returned. */
  predicate AfterWait(c: Cleanup) {
    c.pc.ReadEntry? || c.pc.DropEntry? || c.pc.ReadReturn? || c.pc.DropReturn? || c.pc.Done?
  }

  predicate Asleep(c: Cleanup) {
    c.pc.Sleep? && !c.woken
  }

  predicate HandlerWakes(pc: Pc) {
    pc.Active? && (pc.stage.Read? || pc.stage.Wake?)
  }

  /** Contexts that brought `pending_regs` to zero and have not yet decided on the wake-up. */
  function Wakers(cb: Callbacks, pc: Pc): nat {
    cb.read + cb.wake + if HandlerWakes(pc) then 1 else 0
  }

  /** The registration state a probe has once the deferred list is empty. */
  predicate Expected(t: Truth, reg: bool, unreg: bool) {
    if reg then true else if unreg then false else t.live || t.lost
  }

  // ---------- The invariant ----------

  predicate Accounting(pending: int, d: Deferred, dec: nat, pc: Pc) {
    pending == Size(d) + dec + if InFlight(pc) then 1 else 0
  }

  /** The list holds at most the two operations of activation `which`. */
  predicate Only(d: Deferred, which: Which) {
    if which.Entry? then !d.unregReturn && !d.regEntry else !d.regReturn && !d.unregEntry
  }

  /** What the current or last activation can have put on the deferred list. */
  predicate DeferredShape(d: Deferred, pc: Pc) {
    if pc.Idle? then Only(d, Entry) || Only(d, Return)
    else
      && Only(d, pc.which)
      && (pc.stage.Dec? || pc.stage.Read? || pc.stage.Wake? ==> OpOf(pc.which, pc.second).reg)
      && (pc.second ==> !pc.stage.Count?)
      && (!pc.second ==> !Held(d, OpOf(pc.which, true)))
      && Held(d, OpOf(pc.which, pc.second)) == pc.stage.Flag?
  }

  /** The activation issued an operation on the probe and did not update the probe's flag yet. */
  predicate FlagDue(pc: Pc, probe: Which) {
    pc.Active? && pc.stage.Flag? && pc.second == probe.Entry?
  }

  predicate EntryFlagOk(flag: bool, k: Kernel, pc: Pc, c: Cleanup) {
    FlagDue(pc, Entry) || c.pc.ReadReturn? || c.pc.DropReturn? || c.pc.Done? ||
    flag == Expected(k.entry, k.deferred.regEntry, k.deferred.unregEntry)
  }

  predicate ReturnFlagOk(flag: bool, k: Kernel, pc: Pc, c: Cleanup) {
    FlagDue(pc, Return) || c.pc.Done? ||
    flag == Expected(k.ret, k.deferred.regReturn, k.deferred.unregReturn)
  }

  predicate WakeUps(m: Module, cb: Callbacks, pc: Pc, c: Cleanup) {
    && (m.cleaningUp <==> !c.pc.NotStarted?)
    && (cb.wake > 0 || (pc.Active? && pc.stage.Wake?) ==> m.cleaningUp)
    && (Asleep(c) && m.pending == 0 ==> Wakers(cb, pc) > 0)
  }

  /** With check and increment in one step, nothing moves any more once the wait has ended. */
  predicate Quiet(m: Module, k: Kernel, pc: Pc, c: Cleanup) {
    && (pc.Active? ==> !pc.stage.Inc?)
    && (AfterWait(c) ==>
          && m.pending == 0
          && !InWindow(pc)
          && (c.pc.ReadReturn? || c.pc.DropReturn? || c.pc.Done? ==> k.entry == Truth(false, false))
          && (c.pc.Done? ==> k.ret == Truth(false, false)))
  }

  predicate Inv(fused: bool, s: State) {
    && Accounting(s.m.pending, s.k.deferred, s.cb.dec, s.pc)
    && DeferredShape(s.k.deferred, s.pc)
    && EntryFlagOk(s.m.entryFlag, s.k, s.pc, s.clean)
    && ReturnFlagOk(s.m.returnFlag, s.k, s.pc, s.clean)
    && WakeUps(s.m, s.cb, s.pc, s.clean)
    && (fused ==> Quiet(s.m, s.k, s.pc, s.clean))
  }

  lemma CountKeepsInv(fused: bool, s: State)
    requires Inv(fused, s) && s.pc.Active? && s.pc.stage.Count?
    ensures Inv(fused, CountStep(s))
  {
  }

  lemma CheckKeepsInv(fused: bool, s: State)
    requires Inv(fused, s) && s.pc.Active? && s.pc.stage.Check?
    ensures Inv(fused, CheckStep(fused, s))
  {
  }

  lemma IncKeepsInv(fused: bool, s: State)
    requires Inv(fused, s) && s.pc.Active? && s.pc.stage.Inc?
    ensures Inv(fused, IncStep(s))
  {
  }

  lemma IssueKeepsInv(fused: bool, s: State, accept: bool)
    requires Inv(fused, s) && s.pc.Active? && s.pc.stage.Issue?
    ensures Inv(fused, IssueStep(s, accept))
  {
    if s.pc.which.Entry? {
      if s.pc.second {
      } else {
      }
    } else if s.pc.second {
    }
  }

  lemma FlagKeepsInv(fused: bool, s: State)
    requires Inv(fused, s) && s.pc.Active? && s.pc.stage.Flag?
    ensures Inv(fused, FlagStep(s))
  {
  }

  lemma RefusedKeepsInv(fused: bool, s: State)
    requires Inv(fused, s) && s.pc.Active? && (s.pc.stage.Dec? || s.pc.stage.Read? || s.pc.stage.Wake?)
    ensures Inv(fused, RefusedStep(s))
  {
  }

  lemma CompleteKeepsInv(fused: bool, s: State, op: Op, ok: bool)
    requires Inv(fused, s) && Enabled(s, Complete(op, ok))
    ensures Inv(fused, CompleteStep(s, op, ok))
  {
    if op.probe.Entry? {
      if op.reg {
      } else {
      }
    } else if op.reg {
    }
  }

  lemma CallbackKeepsInv(fused: bool, s: State, l: Label)
    requires Inv(fused, s) && Enabled(s, l) && (l.CbDec? || l.CbRead? || l.CbWake?)
    ensures Inv(fused, CallbackStep(s, l))
  {
  }

  lemma WaitKeepsInv(fused: bool, s: State)
    requires Inv(fused, s) && Enabled(s, Clean) && !AfterWait(s.clean)
    ensures Inv(fused, WaitStep(s))
  {
    match s.clean.pc
    case NotStarted =>
    case Enqueue =>
    case Test =>
    case _ =>
  }

  lemma TeardownReadKeepsInv(fused: bool, s: State)
    requires Inv(fused, s) && (s.clean.pc.ReadEntry? || s.clean.pc.ReadReturn?)
    ensures Inv(fused, TeardownStep(s))
  {
  }

  lemma TeardownDropKeepsInv(fused: bool, s: State)
    requires Inv(fused, s) && (s.clean.pc.DropEntry? || s.clean.pc.DropReturn?)
    ensures Inv(fused, TeardownStep(s))
  {
  }

  lemma HandlerKeepsInv(fused: bool, s: State, accept: bool)
    requires Inv(fused, s) && s.pc.Active?
    ensures Inv(fused, HandlerStep(fused, s, accept))
  {
    match s.pc.stage
    case Count => CountKeepsInv(fused, s);
    case Check => CheckKeepsInv(fused, s);
    case Inc => IncKeepsInv(fused, s);
    case Issue => IssueKeepsInv(fused, s, accept);
    case Flag => FlagKeepsInv(fused, s);
    case _ => RefusedKeepsInv(fused, s);
  }

  lemma HitKeepsInv(fused: bool, s: State, which: Which)
    requires Inv(fused, s) && Enabled(s, Hit(which))
    ensures Inv(fused, s.(pc := Active(which, false, Count)))
  {
  }

  lemma StepKeepsInv(fused: bool, s: State, l: Label)
    requires Inv(fused, s) && Enabled(s, l)
    ensures Inv(fused, Next(fused, s, l))
  {
    match l
    case Hit(which) => HitKeepsInv(fused, s, which);
    case Handler(accept) => HandlerKeepsInv(fused, s, accept);
    case Complete(op, ok) => CompleteKeepsInv(fused, s, op, ok);
    case Clean =>
      if !AfterWait(s.clean) {
        WaitKeepsInv(fused, s);
      } else if s.clean.pc.ReadEntry? || s.clean.pc.ReadReturn? {
        TeardownReadKeepsInv(fused, s);
      } else {
        TeardownDropKeepsInv(fused, s);
      }
    case _ => CallbackKeepsInv(fused, s, l);
  }

  lemma {:induction false} RunKeepsInv(fused: bool, s: State, labels: seq<Label>)
    requires Inv(fused, s) && Valid(fused, s, labels)
    ensures Inv(fused, Exec(fused, s, labels))
    decreases |labels|
  {
    if labels == [] {
    } else {
      StepKeepsInv(fused, s, labels[0]);
      RunKeepsInv(fused, Next(fused, s, labels[0]), labels[1..]);
    }
  }
}
