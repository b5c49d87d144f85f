/**
  The handlers and the callback of uprobes.existing/pong_wa7.c as they are written, each proved to
  take exactly the steps that the transition system gives it when nothing interferes.
 */
module PongWa7Module {
  import opened PongWa7
  import opened PongWa7Safety

  /** Handler steps left at most. */
  function StepsLeft(pc: Pc): nat {
    if pc.Idle? then 0
    else (if pc.second then 0 else 8) +
         (match pc.stage
          case Count => 8
          case Check => 7
          case Inc => 6
          case Issue => 5
          case Flag => 4
          case Dec => 4
          case Read => 3
          case Wake => 2)
  }

  /** The state in which a running handler returns, when it is not interrupted. */
  function Finish(s: State, accept: bool): State
    decreases StepsLeft(s.pc)
  {
    if s.pc.Idle? then s else Finish(HandlerStep(false, s, accept), accept)
  }

  /** An uninterrupted handler is a run of the machine. */
  lemma {:induction false} FinishIsRun(s: State, accept: bool) returns (labels: seq<Label>)
    ensures Valid(false, s, labels) && Exec(false, s, labels) == Finish(s, accept)
    ensures Finish(s, accept).pc.Idle?
    decreases StepsLeft(s.pc)
  {
    if s.pc.Idle? {
      labels := [];
    } else {
      var rest := FinishIsRun(HandlerStep(false, s, accept), accept);
      labels := [Handler(accept)] + rest;
      assert labels[1..] == rest;
    }
  }

  /** One source line: the machine's next state is the one the line produced. */
  lemma Advance(s: State, accept: bool, reached: State) returns (t: State)
    requires s.pc.Active? && HandlerStep(false, s, accept) == reached
    ensures t == reached && Finish(t, accept) == Finish(s, accept)
  {
    t := reached;
  }

  /** The machine's steps of `pending_reg_done` in a handler. */
  lemma AdvanceRefused(s: State, accept: bool) returns (t: State)
    requires s.pc.Active? && s.pc.stage.Dec?
    ensures Finish(t, accept) == Finish(s, accept)
    ensures t == s.(m := s.m.(pending := s.m.pending - 1), pc := Following(s.pc),
                    clean := if s.m.pending == 1 && s.m.cleaningUp then Woken(s.clean) else s.clean)
  {
    t := Advance(s, accept, HandlerStep(false, s, accept));
    if s.m.pending == 1 {
      t := Advance(t, accept, HandlerStep(false, t, accept));
      if s.m.cleaningUp {
        t := Advance(t, accept, HandlerStep(false, t, accept));
      }
    }
  }

  class PongModule {
    var ncalls: nat
    var nreturns: nat
    var entryProbeRegistered: bool
    var returnProbeRegistered: bool
    var pendingRegs: int
    var cleaningUp: bool

    /** The kernel's side: probes, deferred list, callbacks that are under way, the removing task. */
    var kernel: Kernel
    var callbacks: Callbacks
    var cleanup: Cleanup
    ghost var issued: nat

    ghost function View(pc: Pc): State
      reads this
    {
      State(Module(entryProbeRegistered, returnProbeRegistered, ncalls, nreturns, pendingRegs, cleaningUp),
            kernel, pc, callbacks, cleanup, issued)
    }

    constructor ()
      ensures View(Idle) == INIT
    {
      ncalls, nreturns, pendingRegs, cleaningUp := 0, 0, 0, false;
      entryProbeRegistered, returnProbeRegistered := true, false;
      kernel := Kernel(Truth(true, false), Truth(false, false), EMPTY);
      callbacks, cleanup, issued := Callbacks(0, 0, 0), Cleanup(NotStarted, false), 0;
    }

    method PendingRegDone()
      modifies this`pendingRegs, this`cleanup
      ensures pendingRegs == old(pendingRegs) - 1
      ensures cleanup == if pendingRegs == 0 && cleaningUp then Woken(old(cleanup)) else old(cleanup)
    {
      pendingRegs := pendingRegs - 1;
      if pendingRegs == 0 && cleaningUp {
        cleanup := Woken(cleanup);
      }
    }

    /** A registration call from a handler: accepted onto the deferred list, or refused. */
    method Request(op: Op, accept: bool) returns (inProgress: bool)
      modifies this`kernel, this`issued
      ensures issued == old(issued) + 1
      ensures inProgress == (accept || !op.reg)
      ensures kernel ==
              if inProgress then old(kernel).(deferred := WithHeld(old(kernel).deferred, op, true)) else old(kernel)
    {
      issued := issued + 1;
      inProgress := accept || !op.reg;
      if inProgress {
        kernel := kernel.(deferred := WithHeld(kernel.deferred, op, true));
      }
    }

    /** The callback's own steps, at any point of a handler. */
    method RegCallback(ghost pc: Pc)
      requires callbacks.dec > 0
      modifies this
      ensures var s := Next(false, old(View(pc)), CbDec);
              View(pc) == if old(pendingRegs) != 1 then s
                          else if !old(cleaningUp) then Next(false, s, CbRead)
                          else Next(false, Next(false, s, CbRead), CbWake)
    {
      callbacks := callbacks.(dec := callbacks.dec - 1);
      PendingRegDone();
    }

    /** Lines 109-120: the entry handler requests the return probe. */
    method RegisterReturn(accept: bool) returns (returned: bool)
      modifies this
      ensures returned == old(cleaningUp) && cleaningUp == old(cleaningUp)
      ensures Finish(if returned then View(Idle) else View(Active(Entry, true, Check)), accept)
              == Finish(old(View(Active(Entry, false, Check))), accept)
    {
      ghost var s := View(Active(Entry, false, Check));
      if cleaningUp {
        s := Advance(s, accept, View(Idle));
        return true;
      }
      s := Advance(s, accept, View(Active(Entry, false, Inc)));
      pendingRegs := pendingRegs + 1;
      s := Advance(s, accept, View(Active(Entry, false, Issue)));
      var inProgress := Request(Op(Return, true), accept);
      if !inProgress {
        s := Advance(s, accept, View(Active(Entry, false, Dec)));
        s := AdvanceRefused(s, accept);
        PendingRegDone();
      } else {
        s := Advance(s, accept, View(Active(Entry, false, Flag)));
        returnProbeRegistered := true;
        s := Advance(s, accept, View(Active(Entry, true, Check)));
      }
      return false;
    }

    /** Lines 122-129: the entry handler requests its own removal. */
    method UnregisterEntry(accept: bool) returns (returned: bool)
      modifies this
      ensures returned == old(cleaningUp) && cleaningUp == old(cleaningUp)
      ensures View(Idle) == Finish(old(View(Active(Entry, true, Check))), accept)
    {
      ghost var s := View(Active(Entry, true, Check));
      if cleaningUp {
        s := Advance(s, accept, View(Idle));
        return true;
      }
      s := Advance(s, accept, View(Active(Entry, true, Inc)));
      pendingRegs := pendingRegs + 1;
      s := Advance(s, accept, View(Active(Entry, true, Issue)));
      var inProgress := Request(Op(Entry, false), accept);
      s := Advance(s, accept, View(Active(Entry, true, Flag)));
      entryProbeRegistered := false;
      s := Advance(s, accept, View(Idle));
      return false;
    }

    method EntryHandler(accept: bool)
      modifies this
      ensures View(Idle) == Finish(old(View(Active(Entry, false, Count))), accept)
    {
      ghost var s := View(Active(Entry, false, Count));
      ncalls := ncalls + 1;
      s := Advance(s, accept, View(Active(Entry, false, Check)));
      var returned := RegisterReturn(accept);
      if !returned {
        returned := UnregisterEntry(accept);
      }
    }

    /** Lines 137-144: the return handler requests its own removal. */
    method UnregisterReturn(accept: bool) returns (returned: bool)
      modifies this
      ensures returned == old(cleaningUp) && cleaningUp == old(cleaningUp)
      ensures Finish(if returned then View(Idle) else View(Active(Return, true, Check)), accept)
              == Finish(old(View(Active(Return, false, Check))), accept)
    {
      ghost var s := View(Active(Return, false, Check));
      if cleaningUp {
        s := Advance(s, accept, View(Idle));
        return true;
      }
      s := Advance(s, accept, View(Active(Return, false, Inc)));
      pendingRegs := pendingRegs + 1;
      s := Advance(s, accept, View(Active(Return, false, Issue)));
      var inProgress := Request(Op(Return, false), accept);
      s := Advance(s, accept, View(Active(Return, false, Flag)));
      returnProbeRegistered := false;
      s := Advance(s, accept, View(Active(Return, true, Check)));
      return false;
    }

    /** Lines 146-156: the return handler requests the entry probe. */
    method RegisterEntry(accept: bool) returns (returned: bool)
      modifies this
      ensures returned == old(cleaningUp) && cleaningUp == old(cleaningUp)
      ensures View(Idle) == Finish(old(View(Active(Return, true, Check))), accept)
    {
      ghost var s := View(Active(Return, true, Check));
      if cleaningUp {
        s := Advance(s, accept, View(Idle));
        return true;
      }
      s := Advance(s, accept, View(Active(Return, true, Inc)));
      pendingRegs := pendingRegs + 1;
      s := Advance(s, accept, View(Active(Return, true, Issue)));
      var inProgress := Request(Op(Entry, true), accept);
      if !inProgress {
        s := Advance(s, accept, View(Active(Return, true, Dec)));
        s := AdvanceRefused(s, accept);
        PendingRegDone();
      } else {
        s := Advance(s, accept, View(Active(Return, true, Flag)));
        entryProbeRegistered := true;
        s := Advance(s, accept, View(Idle));
      }
      return false;
    }

    /** `cleanup_module` up to its wait. */
    method StartCleanup(ghost pc: Pc)
      requires cleanup.pc.NotStarted?
      modifies this`cleaningUp, this`cleanup
      ensures View(pc) == Next(false, old(View(pc)), Clean)
    {
      cleaningUp := true;
      cleanup := cleanup.(pc := Enqueue);
    }

    /** `cleanup_module` after its wait. */
    method FinishCleanup(ghost pc: Pc)
      requires cleanup.pc.ReadEntry?
      modifies this`kernel, this`cleanup
      ensures View(pc) == TornDown(old(View(pc)))
    {
      TornDownForm(View(pc));
      if entryProbeRegistered {
        kernel := kernel.(entry := Truth(false, false));
      }
      if returnProbeRegistered {
        kernel := kernel.(ret := Truth(false, false));
      }
      cleanup := cleanup.(pc := Done);
    }

    method ReturnHandler(accept: bool)
      modifies this
      ensures View(Idle) == Finish(old(View(Active(Return, false, Count))), accept)
    {
      ghost var s := View(Active(Return, false, Count));
      nreturns := nreturns + 1;
      s := Advance(s, accept, View(Active(Return, false, Check)));
      var returned := UnregisterReturn(accept);
      if !returned {
        returned := RegisterEntry(accept);
      }
    }
  }

  /** The end of `cleanup_module`, when it is not interrupted. */
  function TornDown(s: State): State
    requires AfterWait(s.clean)
    decreases Remaining(s.clean.pc)
  {
    if s.clean.pc.Done? then s else TornDown(TeardownStep(s))
  }

  lemma ReturnTornDown(s: State)
    requires s.clean.pc.ReadReturn?
    ensures TornDown(s) == s.(k := if s.m.returnFlag then s.k.(ret := Truth(false, false)) else s.k,
                              clean := s.clean.(pc := Done))
  {
    var t := TeardownStep(s);
    if s.m.returnFlag {
      assert TornDown(t) == TeardownStep(t);
    }
  }

  /** The two guarded removals. */
  lemma TornDownForm(s: State)
    requires s.clean.pc.ReadEntry?
    ensures TornDown(s) ==
            s.(k := Kernel(if s.m.entryFlag then Truth(false, false) else s.k.entry,
                           if s.m.returnFlag then Truth(false, false) else s.k.ret, s.k.deferred),
               clean := s.clean.(pc := Done))
  {
    var t := TeardownStep(s);
    if s.m.entryFlag {
      ReturnTornDown(TeardownStep(t));
      assert TornDown(t) == TornDown(TeardownStep(t));
    } else {
      ReturnTornDown(t);
    }
  }

  /** With the flags that the fused protocol guarantees at the end of the wait, nothing stays registered. */
  lemma TornDownClean(labels: seq<Label>)
    requires Valid(true, INIT, labels) && Exec(true, INIT, labels).clean.pc.ReadEntry?
    ensures var s := TornDown(Exec(true, INIT, labels)); !s.k.entry.live && !s.k.ret.live && s.k.deferred == EMPTY
  {
    TeardownExact(labels);
    TornDownForm(Exec(true, INIT, labels));
  }

  /** An uninterrupted activation keeps the protocol's invariant. */
  lemma ActivationKeepsInv(s: State, which: Which, accept: bool)
    requires Inv(false, s) && Enabled(s, Hit(which))
    ensures Inv(false, Finish(s.(pc := Active(which, false, Count)), accept))
  {
    var begun := Next(false, s, Hit(which));
    StepKeepsInv(false, s, Hit(which));
    var labels := FinishIsRun(begun, accept);
    RunKeepsInv(false, begun, labels);
  }
}
