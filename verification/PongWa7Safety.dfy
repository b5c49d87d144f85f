/** Safety of the teardown protocol, over every run from the loaded module. */
module PongWa7Safety {
  import opened PongWa7

  lemma InitInv(fused: bool)
    ensures Inv(fused, INIT)
  {
  }

  lemma ReachableInv(fused: bool, labels: seq<Label>)
    requires Valid(fused, INIT, labels)
    ensures Inv(fused, Exec(fused, INIT, labels))
  {
    InitInv(fused);
    RunKeepsInv(fused, INIT, labels);
  }

  /**
    No lost wake-up: a sleeping cleanup with nothing pending has a context that decremented to
    zero, will read `cleaning_up` as set, and will wake it.
   */
  lemma NoLostWakeUp(fused: bool, labels: seq<Label>)
    requires Valid(fused, INIT, labels)
    ensures var s := Exec(fused, INIT, labels);
            Asleep(s.clean) && s.m.pending == 0 ==> s.m.cleaningUp && Wakers(s.cb, s.pc) > 0
  {
    ReachableInv(fused, labels);
  }

  /** `pending_regs` counts what is outstanding, and when the wait's test succeeds nothing is. */
  lemma PendingAccounting(fused: bool, labels: seq<Label>)
    requires Valid(fused, INIT, labels)
    ensures var s := Exec(fused, INIT, labels);
            && s.m.pending == Size(s.k.deferred) + s.cb.dec + (if InFlight(s.pc) then 1 else 0)
            && s.m.pending >= 0
            && (s.m.pending == 0 ==> s.k.deferred == EMPTY && s.cb.dec == 0 && !InFlight(s.pc))
  {
    ReachableInv(fused, labels);
  }

  /** No operation is issued while the same one is still on the deferred list. */
  lemma IssuedOnce(fused: bool, labels: seq<Label>)
    requires Valid(fused, INIT, labels)
    ensures var s := Exec(fused, INIT, labels);
            s.pc.Active? && s.pc.stage.Issue? ==> !Held(s.k.deferred, OpOf(s.pc.which, s.pc.second))
  {
    ReachableInv(fused, labels);
  }

  /** The calls of the registration interface that the handlers make in a run. */
  function Requests(fused: bool, s: State, labels: seq<Label>): nat
    requires Valid(fused, s, labels)
    decreases |labels|
  {
    if labels == [] then 0
    else (if labels[0].Handler? && s.pc.Active? && s.pc.stage.Issue? then 1 else 0)
         + Requests(fused, Next(fused, s, labels[0]), labels[1..])
  }

  /** `issued` counts every call of the registration interface, also a refused one. */
  lemma {:induction false} IssuedIsRequests(fused: bool, s: State, labels: seq<Label>)
    requires Valid(fused, s, labels)
    ensures Exec(fused, s, labels).issued == s.issued + Requests(fused, s, labels)
    decreases |labels|
  {
    if labels == [] {
    } else {
      var l, t := labels[0], Next(fused, s, labels[0]);
      assert t.issued == s.issued + if l.Handler? && s.pc.Active? && s.pc.stage.Issue? then 1 else 0;
      IssuedIsRequests(fused, t, labels[1..]);
    }
  }

  // ---------- What handlers still issue once `cleaning_up` is set ----------

  function Bound(s: State): nat {
    s.issued + if InWindow(s.pc) then 1 else 0
  }

  lemma StepDrains(fused: bool, s: State, l: Label)
    requires s.m.cleaningUp && Enabled(s, l)
    ensures var t := Next(fused, s, l);
            t.m.cleaningUp && t.issued >= s.issued && Bound(t) <= Bound(s)
  {
  }

  /**
    After `cleaning_up` was set, only an activation already past a check issues an operation,
    and only one; activations that begin later issue none.
   */
  lemma {:induction false} DrainBound(fused: bool, s: State, labels: seq<Label>)
    requires s.m.cleaningUp && Valid(fused, s, labels)
    ensures var t := Exec(fused, s, labels);
            t.m.cleaningUp && t.issued >= s.issued && Bound(t) <= Bound(s)
    decreases |labels|
  {
    if labels == [] {
    } else {
      StepDrains(fused, s, labels[0]);
      DrainBound(fused, Next(fused, s, labels[0]), labels[1..]);
    }
  }

  /** Operations can follow exactly when an activation stands between a check and its operation. */
  lemma LateOperationsExactly(s: State)
    requires s.m.cleaningUp
    ensures (forall labels: seq<Label> | Valid(false, s, labels) :: Exec(false, s, labels).issued == s.issued)
       <==> !InWindow(s.pc)
  {
    if InWindow(s.pc) {
      var issue := [Handler(true)];
      if s.pc.stage.Inc? {
        var t := Next(false, s, Handler(true));
        assert Valid(false, t, issue) && Exec(false, t, issue).issued == s.issued + 1;
        RunsCompose(false, s, issue, issue);
        assert Exec(false, s, issue + issue).issued == s.issued + 1;
      } else {
        assert Valid(false, s, issue) && Exec(false, s, issue).issued == s.issued + 1;
      }
    } else {
      forall labels: seq<Label> | Valid(false, s, labels)
        ensures Exec(false, s, labels).issued == s.issued
      {
        DrainBound(false, s, labels);
      }
    }
  }

  // ---------- Teardown, with check and increment as one step ----------

  /** Every accepted operation completes successfully. */
  predicate AllSucceed(labels: seq<Label>) {
    forall i :: 0 <= i < |labels| && labels[i].Complete? ==> labels[i].ok
  }

  lemma {:induction false} NothingLost(fused: bool, s: State, labels: seq<Label>)
    requires Valid(fused, s, labels) && AllSucceed(labels) && !s.k.entry.lost && !s.k.ret.lost
    ensures var t := Exec(fused, s, labels); !t.k.entry.lost && !t.k.ret.lost
    decreases |labels|
  {
    if labels == [] {
    } else {
      assert labels[0].Complete? ==> labels[0].ok;
      assert forall i :: 0 <= i < |labels[1..]| ==> labels[1..][i] == labels[i + 1];
      NothingLost(fused, Next(fused, s, labels[0]), labels[1..]);
    }
  }

  /**
    Once the wait has ended nothing is outstanding, the two flags tell the truth (whatever was
    refused, and up to accepted registrations that failed later), and when cleanup is done no
    probe is registered, now and in every continuation.
   */
  lemma TeardownExact(labels: seq<Label>)
    requires Valid(true, INIT, labels)
    ensures var s := Exec(true, INIT, labels);
            AfterWait(s.clean) ==>
              && s.m.pending == 0 && s.k.deferred == EMPTY && !InWindow(s.pc)
              && (s.clean.pc.ReadEntry? ==> s.m.entryFlag == (s.k.entry.live || s.k.entry.lost))
              && (!s.clean.pc.Done? ==> s.m.returnFlag == (s.k.ret.live || s.k.ret.lost))
              && (s.clean.pc.Done? ==> !s.k.entry.live && !s.k.ret.live)
  {
    ReachableInv(true, labels);
  }

  /** Once the wait has ended no operation is issued any more. */
  lemma NothingIssuedAfterWait(prefix: seq<Label>, labels: seq<Label>)
    requires Valid(true, INIT, prefix) && AfterWait(Exec(true, INIT, prefix).clean)
    requires Valid(true, Exec(true, INIT, prefix), labels)
    ensures Exec(true, Exec(true, INIT, prefix), labels).issued == Exec(true, INIT, prefix).issued
  {
    ReachableInv(true, prefix);
    TeardownExact(prefix);
    DrainBound(true, Exec(true, INIT, prefix), labels);
  }

  /** When every accepted operation succeeds, the flags are the registration state itself. */
  lemma FlagsAreTruth(labels: seq<Label>)
    requires Valid(true, INIT, labels) && AllSucceed(labels)
    ensures var s := Exec(true, INIT, labels);
            s.clean.pc.ReadEntry? ==> s.m.entryFlag == s.k.entry.live && s.m.returnFlag == s.k.ret.live
  {
    TeardownExact(labels);
    NothingLost(true, INIT, labels);
  }

  /** A flag never misses a registered probe, and is wrong only after an accepted registration failed. */
  lemma FlagsNeverMiss(labels: seq<Label>)
    requires Valid(true, INIT, labels) && Exec(true, INIT, labels).clean.pc.ReadEntry?
    ensures var s := Exec(true, INIT, labels);
            && (s.k.entry.live ==> s.m.entryFlag) && (s.k.ret.live ==> s.m.returnFlag)
            && (s.m.entryFlag != s.k.entry.live || s.m.returnFlag != s.k.ret.live ==> !AllSucceed(labels))
  {
    TeardownExact(labels);
    if AllSucceed(labels) {
      NothingLost(true, INIT, labels);
    }
  }

  // ---------- Teardown as the code is written, in two steps ----------

  /** Once `cleaning_up` is set the one-step and the two-step protocol have the same runs. */
  lemma {:induction false} FusionIrrelevant(s: State, labels: seq<Label>)
    requires s.m.cleaningUp
    ensures Valid(true, s, labels) <==> Valid(false, s, labels)
    ensures Valid(false, s, labels) ==> Exec(true, s, labels) == Exec(false, s, labels)
    decreases |labels|
  {
    if labels == [] {
    } else if Enabled(s, labels[0]) {
      assert Next(false, s, labels[0]) == Next(true, s, labels[0]);
      StepDrains(false, s, labels[0]);
      FusionIrrelevant(Next(false, s, labels[0]), labels[1..]);
    }
  }

  predicate CleanlyRemoved(s: State) {
    s.clean.pc.Done? ==> s.k.deferred == EMPTY && !s.k.entry.live && !s.k.ret.live
  }

  /** What is left of the teardown. */
  function Remaining(pc: CleanPc): nat {
    match pc
    case ReadEntry => 4
    case DropEntry => 3
    case ReadReturn => 2
    case DropReturn => 1
    case _ => 0
  }

  lemma {:induction false} FinishTeardown(s: State) returns (labels: seq<Label>)
    requires AfterWait(s.clean)
    ensures Valid(false, s, labels)
    ensures var t := Exec(false, s, labels); t.clean.pc.Done? && t.k.deferred == s.k.deferred
    decreases Remaining(s.clean.pc)
  {
    if s.clean.pc.Done? {
      labels := [];
    } else {
      var t := Next(false, s, Clean);
      var rest := FinishTeardown(t);
      labels := [Clean] + rest;
      assert labels[1..] == rest;
    }
  }

  /** An activation in the window can put an operation on the list that outlives the module. */
  lemma WindowLeaks(s: State) returns (labels: seq<Label>)
    requires AfterWait(s.clean) && s.pc.Active? && s.pc.stage.Inc?
    ensures Valid(false, s, labels) && !CleanlyRemoved(Exec(false, s, labels))
  {
    var s1 := Next(false, s, Handler(true));
    var s2 := Next(false, s1, Handler(true));
    assert Held(s2.k.deferred, OpOf(s.pc.which, s.pc.second));
    var rest := FinishTeardown(s2);
    labels := [Handler(true), Handler(true)] + rest;
    assert labels[1..][1..] == rest;
    assert Valid(false, s1, labels[1..]);
  }

  /**
    The code as it stands removes itself cleanly in every continuation exactly when no activation
    stands between a check and its increment at the moment the wait's test succeeds.
   */
  lemma CleanRemovalExactly(prefix: seq<Label>)
    requires Valid(false, INIT, prefix)
    requires var s := Exec(false, INIT, prefix); s.clean.pc.Test? && s.m.pending == 0
    ensures var s := Exec(false, INIT, prefix);
            var ended := Next(false, s, Clean);
            (forall labels: seq<Label> | Valid(false, ended, labels) :: CleanlyRemoved(Exec(false, ended, labels)))
            <==> !(s.pc.Active? && s.pc.stage.Inc?)
  {
    var s := Exec(false, INIT, prefix);
    var ended := Next(false, s, Clean);
    ReachableInv(false, prefix);
    if s.pc.Active? && s.pc.stage.Inc? {
      var labels := WindowLeaks(ended);
    } else {
      assert Inv(true, s);
      StepKeepsInv(true, s, Clean);
      forall labels: seq<Label> | Valid(false, ended, labels)
        ensures CleanlyRemoved(Exec(false, ended, labels))
      {
        FusionIrrelevant(ended, labels);
        RunKeepsInv(true, ended, labels);
      }
    }
  }

  /** The entry handler stands between line 109 and line 111. */
  const CHECKED := INIT.(m := INIT.m.(ncalls := 1), pc := Active(Entry, false, Inc))

  /** The module is gone: cleanup set the flag, found nothing pending and dropped the entry probe. */
  const UNLOADED := CHECKED.(m := CHECKED.m.(cleaningUp := true), k := CHECKED.k.(entry := Truth(false, false)),
                             clean := Cleanup(Done, false))

  lemma EntryChecks() returns (labels: seq<Label>)
    ensures Valid(false, INIT, labels) && Exec(false, INIT, labels) == CHECKED && AllSucceed(labels)
  {
    labels := [Hit(Entry), Handler(true), Handler(true)];
  }

  lemma Then(s: State, l: Label, rest: seq<Label>)
    requires Enabled(s, l) && Valid(false, Next(false, s, l), rest)
    ensures Valid(false, s, [l] + rest) && Exec(false, s, [l] + rest) == Exec(false, Next(false, s, l), rest)
  {
    assert ([l] + rest)[1..] == rest;
  }

  /** `cleanup_module` finds nothing pending and does not sleep. */
  lemma WaitPasses(s: State)
    requires s.clean.pc.NotStarted? && s.m.pending == 0
    ensures Valid(false, s, [Clean] + ([Clean] + ([Clean] + [])))
    ensures Exec(false, s, [Clean] + ([Clean] + ([Clean] + [])))
            == s.(m := s.m.(cleaningUp := true), clean := Cleanup(ReadEntry, false))
  {
    var started := Next(false, s, Clean);
    var queued := Next(false, started, Clean);
    Then(queued, Clean, []);
    Then(started, Clean, [Clean] + []);
    Then(s, Clean, [Clean] + ([Clean] + []));
  }

  /** It removes the probe whose flag is set. */
  lemma TeardownPasses(s: State)
    requires s.clean.pc.ReadEntry? && s.m.entryFlag && !s.m.returnFlag
    ensures Valid(false, s, [Clean] + ([Clean] + ([Clean] + [])))
    ensures Exec(false, s, [Clean] + ([Clean] + ([Clean] + [])))
            == s.(k := s.k.(entry := Truth(false, false)), clean := s.clean.(pc := Done))
  {
    var flagged := Next(false, s, Clean);
    var dropped := Next(false, flagged, Clean);
    Then(dropped, Clean, []);
    Then(flagged, Clean, [Clean] + []);
    Then(s, Clean, [Clean] + ([Clean] + []));
  }

  lemma ModuleGoes() returns (labels: seq<Label>)
    ensures Valid(false, CHECKED, labels) && Exec(false, CHECKED, labels) == UNLOADED && AllSucceed(labels)
  {
    labels := [Clean] + ([Clean] + ([Clean] + []));
    WaitPasses(CHECKED);
    TeardownPasses(Exec(false, CHECKED, labels));
    RunsCompose(false, CHECKED, labels, labels);
    labels := labels + labels;
  }

  lemma HandlerGoesOn() returns (labels: seq<Label>)
    ensures Valid(false, UNLOADED, labels) && AllSucceed(labels)
    ensures var s := Exec(false, UNLOADED, labels);
            s.clean.pc.Done? && s.pc.Idle? && s.k.deferred == EMPTY && s.k.ret.live
  {
    var issue := [Handler(true), Handler(true)];
    var requested := UNLOADED.(m := UNLOADED.m.(pending := 1),
                               k := UNLOADED.k.(deferred := EMPTY.(regReturn := true)),
                               pc := Active(Entry, false, Flag), issued := 1);
    assert Valid(false, UNLOADED, issue) && Exec(false, UNLOADED, issue) == requested;
    var finish := [Handler(true), Handler(true), Complete(Op(Return, true), true)];
    assert Valid(false, requested, finish) && Exec(false, requested, finish).k.ret.live;
    RunsCompose(false, UNLOADED, issue, finish);
    labels := issue + finish;
  }

  /** A run of the code as written that unloads the module and leaves the return probe registered. */
  lemma LeakedProbe() returns (labels: seq<Label>)
    ensures Valid(false, INIT, labels) && AllSucceed(labels)
    ensures var s := Exec(false, INIT, labels);
            s.clean.pc.Done? && s.pc.Idle? && s.k.deferred == EMPTY && s.k.ret.live
  {
    var before := EntryChecks();
    var removal := ModuleGoes();
    var after := HandlerGoesOn();
    RunsCompose(false, INIT, before, removal);
    RunsCompose(false, INIT, before + removal, after);
    labels := before + removal + after;
  }
}
