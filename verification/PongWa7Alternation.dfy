/** Without cleanup the two handlers alternate until a registration fails, whatever the callbacks' timing. */
module PongWa7Alternation {
  import opened PongWa7
  import opened PongWa7Safety

  /** No removal, no refused registration, no accepted operation that fails later. */
  predicate Smooth(l: Label) {
    !l.Clean? && (l.Handler? ==> l.accept) && (l.Complete? ==> l.ok)
  }

  predicate Undisturbed(labels: seq<Label>) {
    labels == [] || (Smooth(labels[0]) && Undisturbed(labels[1..]))
  }

  predicate NoClean(labels: seq<Label>) {
    forall i :: 0 <= i < |labels| ==> !labels[i].Clean?
  }

  /** How often the probed address was passed with a probe in place. */
  function Hits(labels: seq<Label>): nat {
    if labels == [] then 0 else (if labels[0].Hit? then 1 else 0) + Hits(labels[1..])
  }

  /** The step refuses a handler's registration. */
  predicate Refusing(s: State, l: Label) {
    l.Handler? && !l.accept && s.pc.Active? && s.pc.stage.Issue? && OpOf(s.pc.which, s.pc.second).reg
  }

  predicate SomeRefused(s: State, labels: seq<Label>)
    requires Valid(false, s, labels)
    decreases |labels|
  {
    labels != [] && (Refusing(s, labels[0]) || SomeRefused(Next(false, s, labels[0]), labels[1..]))
  }

  /** An accepted registration completed unsuccessfully. */
  predicate SomeFailed(labels: seq<Label>) {
    labels != [] && ((labels[0].Complete? && !labels[0].ok) || SomeFailed(labels[1..]))
  }

  predicate Alternating(s: State, refused: bool, failed: bool) {
    && !s.m.cleaningUp
    && s.m.nreturns <= s.m.ncalls <= s.m.nreturns + 1
    && if s.pc.Idle? then Waiting(s.k, s.m.ncalls != s.m.nreturns, refused, failed)
       else Swapping(s.k, s.pc, s.m.ncalls != s.m.nreturns, refused, failed)
  }

  /** The probe that is on its way out and the one that is on its way in, or was lost on the way. */
  predicate Changing(out: Truth, into: Truth, leaving: bool, coming: bool, refused: bool, failed: bool) {
    && out == Truth(leaving, false) && into.lost == failed && !(refused && failed)
    && if refused || failed then !into.live && !coming else into.live != coming
  }

  /** No handler runs; `odd`: the entry handler was the last one to count. */
  predicate Waiting(k: Kernel, odd: bool, refused: bool, failed: bool) {
    if odd then
      Only(k.deferred, Entry) && Changing(k.entry, k.ret, k.deferred.unregEntry, k.deferred.regReturn, refused, failed)
    else
      Only(k.deferred, Return) && Changing(k.ret, k.entry, k.deferred.unregReturn, k.deferred.regEntry, refused, failed)
  }

  predicate TakingBack(stage: Stage) {
    stage.Dec? || stage.Read? || stage.Wake?
  }

  /** A handler runs, its probe being the only one in place; nothing was refused before it started. */
  predicate Swapping(k: Kernel, pc: Pc, odd: bool, refused: bool, failed: bool)
    requires pc.Active?
  {
    && !failed && k.entry == Truth(pc.which.Entry?, false) && k.ret == Truth(pc.which.Return?, false)
    && odd == (pc.which.Entry? != pc.stage.Count?)
    && (TakingBack(pc.stage) ==> refused)
    && (refused ==> TakingBack(pc.stage) || (pc.which.Entry? && pc.second))
    && (pc.second && pc.which.Entry? ==> k.deferred.regReturn == !refused)
    && (pc.second && pc.which.Return? ==> k.deferred.unregReturn)
  }

  lemma HandlerAlternates(s: State, accept: bool, refused: bool, failed: bool)
    requires Inv(false, s) && Alternating(s, refused, failed) && s.pc.Active?
    ensures Alternating(HandlerStep(false, s, accept), refused || Refusing(s, Handler(accept)), failed)
  {
    match s.pc.stage
    case Count =>
    case Check =>
    case Inc =>
    case Issue =>
    case Flag =>
    case _ =>
  }

  lemma CompletionAlternates(s: State, op: Op, ok: bool, refused: bool, failed: bool)
    requires Inv(false, s) && Alternating(s, refused, failed) && Enabled(s, Complete(op, ok))
    ensures Alternating(CompleteStep(s, op, ok), refused, failed || !ok)
  {
  }

  lemma StepAlternates(s: State, l: Label, refused: bool, failed: bool)
    requires Inv(false, s) && Alternating(s, refused, failed) && Enabled(s, l) && !l.Clean?
    ensures Alternating(Next(false, s, l), refused || Refusing(s, l), failed || (l.Complete? && !l.ok))
  {
    match l
    case Hit(_) =>
    case Handler(accept) => HandlerAlternates(s, accept, refused, failed);
    case Complete(op, ok) => CompletionAlternates(s, op, ok, refused, failed);
    case _ =>
  }

  /** Activations that have counted, plus the one that is about to. */
  function Begun(s: State): nat {
    s.m.ncalls + s.m.nreturns + if s.pc.Active? && s.pc.stage.Count? then 1 else 0
  }

  lemma HandlerBegins(s: State, accept: bool)
    requires Inv(false, s) && s.pc.Active?
    ensures Begun(HandlerStep(false, s, accept)) == Begun(s)
  {
    match s.pc.stage
    case Count =>
    case Check =>
    case Inc =>
    case Issue =>
    case Flag =>
    case _ =>
  }

  lemma StepBegins(s: State, l: Label)
    requires Inv(false, s) && Enabled(s, l)
    ensures Begun(Next(false, s, l)) == Begun(s) + if l.Hit? then 1 else 0
  {
    match l
    case Hit(_) =>
    case Handler(_) => HandlerBegins(s, l.accept);
    case Complete(_, _) =>
    case Clean =>
    case _ =>
  }

  lemma {:induction false} RunAlternates(s: State, labels: seq<Label>, refused: bool, failed: bool)
    requires Inv(false, s) && Alternating(s, refused, failed) && Valid(false, s, labels) && NoClean(labels)
    ensures var t := Exec(false, s, labels);
            && Inv(false, t) && Begun(t) == Begun(s) + Hits(labels)
            && Alternating(t, refused || SomeRefused(s, labels), failed || SomeFailed(labels))
    decreases |labels|
  {
    if labels == [] {
    } else {
      var l := labels[0];
      StepKeepsInv(false, s, l);
      StepAlternates(s, l, refused, failed);
      StepBegins(s, l);
      RunAlternates(Next(false, s, l), labels[1..], refused || Refusing(s, l), failed || (l.Complete? && !l.ok));
    }
  }

  /**
    After `p` passes the entry handler has run for the odd ones and the return handler for the
    even ones. Once the deferred operations settled, the next one's probe is registered unless its
    registration was refused or failed later; then no probe is, and no handler ever runs again. A
    flag is set exactly when its probe's last request was a registration that was not refused.
   */
  lemma AlternationUntilFailure(labels: seq<Label>)
    requires Valid(false, INIT, labels) && NoClean(labels)
    ensures var s := Exec(false, INIT, labels);
            var p := Hits(labels);
            var refused, failed := SomeRefused(INIT, labels), SomeFailed(labels);
            && !(refused && failed)
            && (s.pc.Idle? ==> s.m.ncalls == (p + 1) / 2 && s.m.nreturns == p / 2)
            && (s.pc.Idle? && s.k.deferred == EMPTY ==>
                  && s.k.entry.live == (p % 2 == 0 && !refused && !failed)
                  && s.k.ret.live == (p % 2 == 1 && !refused && !failed)
                  && s.m.entryFlag == (p % 2 == 0 && !refused)
                  && s.m.returnFlag == (p % 2 == 1 && !refused)
                  && (refused || failed ==> !Enabled(s, Hit(Entry)) && !Enabled(s, Hit(Return))))
  {
    InitInv(false);
    RunAlternates(INIT, labels, false, false);
  }

  lemma {:induction false} UndisturbedIsSmooth(s: State, labels: seq<Label>)
    requires Undisturbed(labels) && Valid(false, s, labels)
    ensures NoClean(labels) && !SomeRefused(s, labels) && !SomeFailed(labels)
    decreases |labels|
  {
    if labels == [] {
    } else {
      UndisturbedIsSmooth(Next(false, s, labels[0]), labels[1..]);
      assert forall i :: 1 <= i < |labels| ==> labels[i] == labels[1..][i - 1];
    }
  }

  /** Without failures exactly the next handler's probe is registered and flagged once things have settled. */
  lemma Alternation(labels: seq<Label>)
    requires Valid(false, INIT, labels) && Undisturbed(labels)
    ensures var s := Exec(false, INIT, labels);
            var p := Hits(labels);
            s.pc.Idle? ==>
              && s.m.ncalls == (p + 1) / 2 && s.m.nreturns == p / 2
              && (s.k.deferred == EMPTY ==>
                    && s.k.entry.live == s.m.entryFlag == (p % 2 == 0)
                    && s.k.ret.live == s.m.returnFlag == (p % 2 == 1))
  {
    UndisturbedIsSmooth(INIT, labels);
    AlternationUntilFailure(labels);
  }
}
