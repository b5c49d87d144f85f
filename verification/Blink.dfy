/**
  The self-toggling probes of uprobes.existing/blink.c (both probes on one point) and
  uprobes.existing/blink2.c (two points, hit one after the other), in the callback build.

  Environment: consumers of one hit run in registration order, `steady` first; operations
  requested by handlers take effect after all handlers of the hit returned and before the next hit.
 */
module Blink {

  /** `live` is the kernel's truth about the blink probe; `issued` lists when it was registered. */
  datatype BlinkState = BlinkState(ncalls: nat, registered: bool, live: bool, issued: seq<nat>)

  const START := BlinkState(0, false, false, [])

  /** The common part of both modules: the two handlers and the kernel's list. */
  class BlinkModule {
    var ncalls: nat
    var blinkRegistered: bool
    var live: bool
    var deferReg: bool
    var deferUnreg: bool
    var issued: seq<nat>

    ghost function View(): BlinkState
      reads this
    {
      BlinkState(ncalls, blinkRegistered, live, issued)
    }

    ghost predicate Settled()
      reads this
    {
      !deferReg && !deferUnreg
    }

    constructor ()
      ensures View() == START && Settled()
    {
      ncalls, blinkRegistered, live, deferReg, deferUnreg, issued := 0, false, false, false, false, [];
    }

    method Steady(accept: bool)
      modifies this
      ensures ncalls == old(ncalls) + 1
      ensures var due := !old(blinkRegistered) && ncalls % 3 == 0 && accept;
              && blinkRegistered == (old(blinkRegistered) || due)
              && deferReg == (old(deferReg) || due)
              && issued == if due then old(issued) + [ncalls] else old(issued)
      ensures live == old(live) && deferUnreg == old(deferUnreg)
    {
      ncalls := ncalls + 1;
      if !blinkRegistered && ncalls % 3 == 0 {
        if accept {
          deferReg := true;
          issued := issued + [ncalls];
          blinkRegistered := true;
        }
      }
    }

    method BlinkHandler()
      modifies this`blinkRegistered, this`deferUnreg
      ensures blinkRegistered == (old(blinkRegistered) && ncalls % 5 != 0)
      ensures deferUnreg == (old(deferUnreg) || ncalls % 5 == 0)
    {
      if ncalls % 5 == 0 {
        deferUnreg := true;
        blinkRegistered := false;
      }
    }

    /** The deferred operations complete. */
    method Settle()
      modifies this`live, this`deferReg, this`deferUnreg
      ensures Settled()
      ensures live == if old(deferUnreg) then false else old(live) || old(deferReg)
    {
      if deferReg { live := true; }
      if deferUnreg { live := false; }
      deferReg, deferUnreg := false, false;
    }

    /** blink.c: one hit of the shared probe point runs both handlers, as far as registered. */
    method SharedHit(accept: bool)
      requires Settled()
      modifies this
      ensures Settled() && View() == Colocated(old(View()), accept)
    {
      Steady(accept);
      if live {
        BlinkHandler();
      }
      Settle();
    }

    /** blink2.c: an iteration of the probee calls `add`, then `subtract`. */
    method TwoHits(accept: bool)
      requires Settled()
      modifies this
      ensures Settled() && View() == TwoPoints(old(View()), accept)
    {
      Steady(accept);
      Settle();
      if live {
        BlinkHandler();
        Settle();
      }
    }
  }

  function Registering(s: BlinkState, accept: bool): bool {
    !s.registered && (s.ncalls + 1) % 3 == 0 && accept
  }

  function Issued(s: BlinkState, accept: bool): seq<nat> {
    if Registering(s, accept) then s.issued + [s.ncalls + 1] else s.issued
  }

  /** One iteration when both probes share the probe point. */
  function Colocated(s: BlinkState, accept: bool): BlinkState {
    var off := s.live && (s.ncalls + 1) % 5 == 0;
    BlinkState(s.ncalls + 1, (s.registered || Registering(s, accept)) && !off,
               (s.live || Registering(s, accept)) && !off, Issued(s, accept))
  }

  /** One iteration when the blink probe is hit after the registration took effect. */
  function TwoPoints(s: BlinkState, accept: bool): BlinkState {
    var on := s.live || Registering(s, accept);
    var off := on && (s.ncalls + 1) % 5 == 0;
    BlinkState(s.ncalls + 1, (s.registered || Registering(s, accept)) && !off, on && !off, Issued(s, accept))
  }

  function ColocatedRun(accepts: seq<bool>): BlinkState {
    if accepts == [] then START
    else Colocated(ColocatedRun(accepts[..|accepts| - 1]), accepts[|accepts| - 1])
  }

  function TwoPointsRun(accepts: seq<bool>): BlinkState {
    if accepts == [] then START
    else TwoPoints(TwoPointsRun(accepts[..|accepts| - 1]), accepts[|accepts| - 1])
  }

  method RunBlink(accepts: seq<bool>) returns (b: BlinkModule)
    ensures b.View() == ColocatedRun(accepts)
  {
    b := new BlinkModule();
    for i := 0 to |accepts|
      invariant fresh(b) && b.Settled() && b.View() == ColocatedRun(accepts[..i])
    {
      assert accepts[..i + 1][..i] == accepts[..i];
      b.SharedHit(accepts[i]);
    }
    assert accepts[..|accepts|] == accepts;
  }

  method RunBlink2(accepts: seq<bool>) returns (b: BlinkModule)
    ensures b.View() == TwoPointsRun(accepts)
  {
    b := new BlinkModule();
    for i := 0 to |accepts|
      invariant fresh(b) && b.Settled() && b.View() == TwoPointsRun(accepts[..i])
    {
      assert accepts[..i + 1][..i] == accepts[..i];
      b.TwoHits(accepts[i]);
    }
    assert accepts[..|accepts|] == accepts;
  }

  // ---------- The closed form, when no registration is refused ----------

  /** The largest multiple of 3 not above `n` beats the largest multiple of 5. */
  predicate On(n: nat) {
    3 * (n / 3) > 5 * (n / 5)
  }

  /** The iterations in which a registration is issued. */
  predicate Due(n: nat) {
    n % 15 == 3 || n % 15 == 6 || n % 15 == 12
  }

  lemma Residues(n: nat)
    ensures n / 3 == 5 * (n / 15) + n % 15 / 3 && n / 5 == 3 * (n / 15) + n % 15 / 5
    ensures n % 3 == n % 15 % 3 && n % 5 == n % 15 % 5
  {
  }

  predicate InPattern(r: nat) {
    r == 3 || r == 4 || r == 6 || r == 7 || r == 8 || r == 9 || r == 12 || r == 13 || r == 14
  }

  lemma PatternResidue(r: nat)
    requires r < 15
    ensures 3 * (r / 3) > 5 * (r / 5) <==> InPattern(r)
  {
  }

  /** The closed form as a pattern of period 15. */
  lemma Pattern(n: nat)
    ensures On(n) <==> InPattern(n % 15)
  {
    var q, r := n / 15, n % 15;
    Residues(n);
    PatternResidue(r);
    assert 3 * (n / 3) == 15 * q + 3 * (r / 3) && 5 * (n / 5) == 15 * q + 5 * (r / 5);
  }

  lemma PatternStep(r: nat, next: nat)
    requires r < 15 && next == if r == 14 then 0 else r + 1
    ensures InPattern(next) == ((InPattern(r) || next % 3 == 0) && !(InPattern(r) && next % 5 == 0))
    ensures InPattern(next) == ((InPattern(r) || next % 3 == 0) && next % 5 != 0)
    ensures next == 3 || next == 6 || next == 12 <==> !InPattern(r) && next % 3 == 0
  {
  }

  lemma NextResidue(n: nat)
    ensures (n + 1) % 15 == if n % 15 == 14 then 0 else n % 15 + 1
  {
  }

  function DueUpTo(n: nat): seq<nat> {
    if n == 0 then [] else if Due(n) then DueUpTo(n - 1) + [n] else DueUpTo(n - 1)
  }

  lemma {:induction false} PeriodicForm(accepts: seq<bool>)
    requires false !in accepts
    ensures var n := |accepts|;
            ColocatedRun(accepts) == TwoPointsRun(accepts)
            == BlinkState(n, InPattern(n % 15), InPattern(n % 15), DueUpTo(n))
    decreases |accepts|
  {
    if accepts == [] {
    } else {
      var n := |accepts| - 1;
      PeriodicForm(accepts[..n]);
      assert accepts[n];
      NextResidue(n);
      Residues(n + 1);
      PatternStep(n % 15, (n + 1) % 15);
    }
  }

  /**
    Both versions, after every iteration: blink is registered exactly when 3*floor(n/3) exceeds
    5*floor(n/5), and registrations were issued exactly at n = 3, 6, 12 modulo 15.
   */
  lemma ClosedForm(accepts: seq<bool>)
    requires false !in accepts
    ensures var n := |accepts|;
            ColocatedRun(accepts) == TwoPointsRun(accepts) == BlinkState(n, On(n), On(n), DueUpTo(n))
  {
    PeriodicForm(accepts);
    Pattern(|accepts|);
  }

  lemma {:induction false} DueUpToExactly(n: nat, k: nat)
    ensures k in DueUpTo(n) <==> k <= n && Due(k)
  {
    if n == 0 {
    } else {
      DueUpToExactly(n - 1, k);
    }
  }

  // ---------- Refused registrations: when the two versions part ----------

  /** In both versions the flag is the truth after every iteration, whatever was refused. */
  lemma {:induction false} FlagIsTruth(accepts: seq<bool>)
    ensures ColocatedRun(accepts).registered == ColocatedRun(accepts).live
    ensures TwoPointsRun(accepts).registered == TwoPointsRun(accepts).live
    ensures ColocatedRun(accepts).ncalls == TwoPointsRun(accepts).ncalls == |accepts|
    decreases |accepts|
  {
    if accepts == [] {
    } else {
      FlagIsTruth(accepts[..|accepts| - 1]);
    }
  }

  /** Iteration `n` is a multiple of 15 and registers a blink probe that was not registered. */
  ghost predicate Parting(accepts: seq<bool>, n: nat)
    requires 1 <= n <= |accepts|
  {
    n % 15 == 0 && accepts[n - 1] && !ColocatedRun(accepts[..n - 1]).registered
  }

  ghost predicate Agree(accepts: seq<bool>) {
    forall n: nat :: n <= |accepts| ==> ColocatedRun(accepts[..n]) == TwoPointsRun(accepts[..n])
  }

  lemma PartOrStay(accepts: seq<bool>, n: nat)
    requires 1 <= n <= |accepts|
    requires ColocatedRun(accepts[..n - 1]) == TwoPointsRun(accepts[..n - 1])
    ensures ColocatedRun(accepts[..n]) == TwoPointsRun(accepts[..n]) <==> !Parting(accepts, n)
  {
    FlagIsTruth(accepts[..n - 1]);
    assert accepts[..n][..n - 1] == accepts[..n - 1];
    Residues(n);
  }

  /**
    For any refusals the two versions agree after every iteration exactly when no multiple of 15
    is the iteration of a successful registration.
   */
  lemma AgreeExactly(accepts: seq<bool>)
    ensures Agree(accepts) <==> forall n: nat :: 1 <= n <= |accepts| ==> !Parting(accepts, n)
  {
    if Agree(accepts) {
      forall n: nat | 1 <= n <= |accepts|
        ensures !Parting(accepts, n)
      {
        PartOrStay(accepts, n);
      }
    }
    if forall n: nat :: 1 <= n <= |accepts| ==> !Parting(accepts, n) {
      for n := 0 to |accepts|
        invariant forall k: nat :: k <= n ==> ColocatedRun(accepts[..k]) == TwoPointsRun(accepts[..k])
      {
        PartOrStay(accepts, n + 1);
      }
    }
  }

  /** Refusing iteration 12 and accepting iteration 15 leaves blink registered in blink.c only. */
  lemma PartedAtFifteen()
    ensures var refused := seq(15, i => i + 1 != 12);
            ColocatedRun(refused).live && !TwoPointsRun(refused).live
  {
    var refused := seq(15, i => i + 1 != 12);
    var early := seq(11, i => true);
    ClosedForm(early);
    assert refused[..11] == early;
    var at11 := BlinkState(11, false, false, DueUpTo(11));
    var at12, at13, at14 := at11.(ncalls := 12), at11.(ncalls := 13), at11.(ncalls := 14);
    assert refused[..12][..11] == early;
    assert ColocatedRun(refused[..12]) == TwoPointsRun(refused[..12]) == at12;
    assert refused[..13][..12] == refused[..12];
    assert ColocatedRun(refused[..13]) == TwoPointsRun(refused[..13]) == at13;
    assert refused[..14][..13] == refused[..13];
    assert ColocatedRun(refused[..14]) == TwoPointsRun(refused[..14]) == at14;
    assert refused[..15] == refused;
  }
}
