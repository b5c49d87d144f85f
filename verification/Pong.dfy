/**
  uprobes.existing/pong.c: the same two handlers without a pending count. Here the probee runs
  alone, and the deferred operations of a handler complete before the next probe hit.
 */
module Pong {
  import opened PongWa7

  datatype PongState = PongState(
    ncalls: nat, nreturns: nat, entryFlag: bool, returnFlag: bool, entryLive: bool, returnLive: bool)

  const START := PongState(0, 0, true, false, true, false)

  function EntryFires(s: PongState, accept: bool): PongState {
    PongState(s.ncalls + 1, s.nreturns, false, accept || s.returnFlag, false, accept || s.returnLive)
  }

  function ReturnFires(s: PongState, accept: bool): PongState {
    PongState(s.ncalls, s.nreturns + 1, accept || s.entryFlag, false, accept || s.entryLive, false)
  }

  /** One pass through the probed function; the return probe fires if it was in place at the call. */
  function AfterPass(s: PongState, accept: bool): PongState {
    var called := if s.entryLive then EntryFires(s, accept) else s;
    if s.returnLive then ReturnFires(called, accept) else called
  }

  function AfterPasses(accepts: seq<bool>): PongState {
    if accepts == [] then START
    else AfterPass(AfterPasses(accepts[..|accepts| - 1]), accepts[|accepts| - 1])
  }

  class PongModule {
    var ncalls: nat
    var nreturns: nat
    var entryProbeRegistered: bool
    var returnProbeRegistered: bool
    var entryLive: bool
    var returnLive: bool
    var deferred: Deferred

    ghost function View(): PongState
      reads this
    {
      PongState(ncalls, nreturns, entryProbeRegistered, returnProbeRegistered, entryLive, returnLive)
    }

    constructor ()
      ensures View() == START && deferred == EMPTY
    {
      ncalls, nreturns := 0, 0;
      entryProbeRegistered, returnProbeRegistered := true, false;
      entryLive, returnLive, deferred := true, false, EMPTY;
    }

    /** A call of the registration interface from a handler. */
    method Request(op: Op, accept: bool) returns (inProgress: bool)
      modifies this`deferred
      ensures inProgress == (accept || !op.reg)
      ensures deferred == if inProgress then WithHeld(old(deferred), op, true) else old(deferred)
    {
      inProgress := accept || !op.reg;
      if inProgress {
        deferred := WithHeld(deferred, op, true);
      }
    }

    method EntryHandler(accept: bool)
      requires deferred == EMPTY
      modifies this
      ensures ncalls == old(ncalls) + 1 && nreturns == old(nreturns)
      ensures !entryProbeRegistered && returnProbeRegistered == (accept || old(returnProbeRegistered))
      ensures entryLive == old(entryLive) && returnLive == old(returnLive)
      ensures deferred == Deferred(false, true, accept, false)
    {
      ncalls := ncalls + 1;
      var inProgress := Request(Op(Return, true), accept);
      if inProgress {
        returnProbeRegistered := true;
      }
      inProgress := Request(Op(Entry, false), accept);
      entryProbeRegistered := false;
    }

    method ReturnHandler(accept: bool)
      requires deferred == EMPTY
      modifies this
      ensures nreturns == old(nreturns) + 1 && ncalls == old(ncalls)
      ensures !returnProbeRegistered && entryProbeRegistered == (accept || old(entryProbeRegistered))
      ensures entryLive == old(entryLive) && returnLive == old(returnLive)
      ensures deferred == Deferred(accept, false, false, true)
    {
      nreturns := nreturns + 1;
      var inProgress := Request(Op(Return, false), accept);
      returnProbeRegistered := false;
      inProgress := Request(Op(Entry, true), accept);
      if inProgress {
        entryProbeRegistered := true;
      }
    }

    /** The kernel works off the deferred list. */
    method Settle()
      modifies this`entryLive, this`returnLive, this`deferred
      ensures deferred == EMPTY
      ensures entryLive == (old(deferred).regEntry || (old(entryLive) && !old(deferred).unregEntry))
      ensures returnLive == (old(deferred).regReturn || (old(returnLive) && !old(deferred).unregReturn))
    {
      if deferred.unregEntry { entryLive := false; }
      if deferred.unregReturn { returnLive := false; }
      if deferred.regEntry { entryLive := true; }
      if deferred.regReturn { returnLive := true; }
      deferred := EMPTY;
    }

    method Pass(accept: bool)
      requires deferred == EMPTY
      modifies this
      ensures View() == AfterPass(old(View()), accept) && deferred == EMPTY
    {
      var planted := returnLive;
      if entryLive {
        EntryHandler(accept);
        Settle();
      }
      if planted {
        ReturnHandler(accept);
        Settle();
      }
    }
  }

  method RunPasses(accepts: seq<bool>) returns (p: PongModule)
    ensures p.View() == AfterPasses(accepts)
  {
    p := new PongModule();
    for i := 0 to |accepts|
      invariant fresh(p) && p.deferred == EMPTY && p.View() == AfterPasses(accepts[..i])
    {
      assert accepts[..i + 1][..i] == accepts[..i];
      p.Pass(accepts[i]);
    }
    assert accepts[..|accepts|] == accepts;
  }

  /** Passes that still found a probe: everything up to the first refused registration. */
  function Fired(accepts: seq<bool>): nat {
    if accepts == [] then 0
    else Fired(accepts[..|accepts| - 1]) + if false in accepts[..|accepts| - 1] then 0 else 1
  }

  /**
    The handlers alternate until a registration is refused; exactly one probe is registered
    while none was refused, and none at all for ever after.
   */
  lemma {:induction false} Alternation(accepts: seq<bool>)
    ensures var s := AfterPasses(accepts);
            var h := Fired(accepts);
            && s.ncalls == (h + 1) / 2 && s.nreturns == h / 2
            && s.entryFlag == s.entryLive && s.returnFlag == s.returnLive
            && s.entryLive == (false !in accepts && h % 2 == 0)
            && s.returnLive == (false !in accepts && h % 2 == 1)
    decreases |accepts|
  {
    if accepts == [] {
    } else {
      var n := |accepts| - 1;
      Alternation(accepts[..n]);
      assert accepts == accepts[..n] + [accepts[n]];
      assert false in accepts <==> false in accepts[..n] || !accepts[n];
    }
  }

  lemma {:induction false} NothingRefused(accepts: seq<bool>)
    requires false !in accepts
    ensures Fired(accepts) == |accepts|
    decreases |accepts|
  {
    if accepts == [] {
    } else {
      NothingRefused(accepts[..|accepts| - 1]);
    }
  }

  /** With no failures: `p` passes give ceil(p/2) calls and floor(p/2) returns. */
  lemma PingPong(accepts: seq<bool>)
    requires false !in accepts
    ensures var s := AfterPasses(accepts);
            && s.ncalls == (|accepts| + 1) / 2 && s.nreturns == |accepts| / 2
            && s.entryLive == (|accepts| % 2 == 0) && s.returnLive == (|accepts| % 2 == 1)
  {
    Alternation(accepts);
    NothingRefused(accepts);
  }
}
