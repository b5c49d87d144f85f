/**
  uprobes.w/fork_thread.c: every thread forks a child that must not hit the probe, counts hits
  before and after a `wait` that reaps any child of the process, and returns the child's status;
  `main` joins the threads in order.

  The environment decides, call by call, whether the call hit the probe. A slot is private to
  its thread or child process, so a step is one whole call of `probe_0`.
 */
module ForkThread {
  import opened Words
  import opened Handshake
  import opened Sums

  datatype ParentPc = Fork | Pre(i: nat) | Wait | Post(i: nat) | Ended(result: int)

  /** `got` is the child whose status the thread's `wait` delivered. */
  datatype Parent = Parent(pc: ParentPc, slot: Slot, waited: bool, status: int, got: nat)

  datatype Child = Unborn | Running(i: nat, slot: Slot) | Zombie(code: int) | Reaped(code: int, waiter: nat)

  datatype MainPc = Joining(i: nat) | Reported(pass: bool)

  /** `missed`, `childHit`, `noChild`: whether such a call has happened; `wrongTid`: the user's check fired. */
  datatype State = State(
    parents: seq<Parent>, children: seq<Child>, main: MainPc, numProbes: Word,
    missed: bool, childHit: bool, noChild: bool, wrongTid: bool)

  datatype Label =
    | ParentStep(t: nat, hit: bool)
    | Reap(t: nat, c: nat)
    | WaitFails(t: nat, garbage: int)
    | ChildStep(c: nat, hit: bool)
    | Join

  /** Thread ids of the threads and of the children they fork, and the iteration count. */
  datatype Config = Config(tids: seq<int>, childTids: seq<int>, cnt: nat)

  predicate ConfigOk(cf: Config) {
    && |cf.childTids| == |cf.tids| > 0 && 0 < cf.cnt <= 0x4000_0000
    && (forall t :: 0 <= t < |cf.tids| ==> cf.tids[t] > 0)
    && (forall t :: 0 <= t < |cf.tids| ==> cf.childTids[t] > 0)
  }

  const IDLE := Parent(Fork, FRESH, false, 0, 0)

  function Launch(cf: Config): State {
    State(seq(|cf.tids|, t => IDLE), seq(|cf.tids|, t => Unborn), Joining(0), 0, false, false, false, false)
  }

  predicate Shape(cf: Config, s: State) {
    |s.parents| == |s.children| == |cf.tids| == |cf.childTids|
  }

  predicate Unreaped(c: Child) {
    c.Running? || c.Zombie?
  }

  predicate Enabled(cf: Config, s: State, l: Label)
    requires Shape(cf, s)
  {
    s.main.Joining? &&
    match l
    case ParentStep(t, _) => t < |s.parents| && !s.parents[t].pc.Wait? && !s.parents[t].pc.Ended?
    case Reap(t, c) => t < |s.parents| && s.parents[t].pc.Wait? && c < |s.children| && s.children[c].Zombie?
    case WaitFails(t, _) =>
      t < |s.parents| && s.parents[t].pc.Wait? && forall c :: 0 <= c < |s.children| ==> !Unreaped(s.children[c])
    case ChildStep(c, _) => c < |s.children| && s.children[c].Running?
    case Join => s.main.i < |s.parents| ==> s.parents[s.main.i].pc.Ended?
  }

  function Hits(hit: bool): nat {
    if hit then 1 else 0
  }

  /** One call of `probe_0` by a thread; a negative verdict makes the thread return it. */
  function ParentCall(p: Parent, tid: int, hit: bool, next: ParentPc): Parent {
    var slot := AfterCall(p.slot, tid, Hits(hit));
    p.(slot := slot, pc := if Verdict(slot) < 0 then Ended(Verdict(slot)) else next)
  }

  predicate Calling(cf: Config, p: Parent) {
    (p.pc.Pre? || p.pc.Post?) && p.pc.i < cf.cnt
  }

  function ParentNext(cf: Config, p: Parent, tid: int, hit: bool): Parent
    requires !p.pc.Wait? && !p.pc.Ended?
  {
    match p.pc
    case Fork => p.(pc := Pre(0))
    case Pre(i) => if i < cf.cnt then ParentCall(p, tid, hit, Pre(i + 1)) else p.(pc := Wait)
    case Post(i) => if i < cf.cnt then ParentCall(p, tid, hit, Post(i + 1)) else p.(pc := Ended(p.status))
  }

  /** One call of `probe_0` by a child, which expects "not counting", or its exit. */
  function ChildNext(cf: Config, c: Child, tid: int, hit: bool): Child
    requires c.Running?
  {
    if c.i == cf.cnt then Zombie(0)
    else
      var slot := AfterCall(c.slot, tid, Hits(hit));
      if Verdict(slot) != -1 then Zombie(1) else Running(c.i + 1, slot)
  }

  /** The wrapper's check of the slot's owner. */
  predicate Foreign(slot: Slot, tid: int) {
    slot.utid != 0 && slot.utid != tid
  }

  function Counted(n: Word, hit: bool): Word {
    if hit then Succ(n) else n
  }

  function JoinNext(s: State): MainPc
    requires s.main.Joining? && (s.main.i < |s.parents| ==> s.parents[s.main.i].pc.Ended?)
  {
    if s.main.i >= |s.parents| then Reported(true)
    else if s.parents[s.main.i].pc.result != 0 then Reported(false)
    else Joining(s.main.i + 1)
  }

  function ParentMove(cf: Config, s: State, t: nat, hit: bool): State
    requires Shape(cf, s) && Enabled(cf, s, ParentStep(t, hit))
  {
    var p := s.parents[t];
    var r := s.(parents := s.parents[t := ParentNext(cf, p, cf.tids[t], hit)]);
    if p.pc.Fork? then r.(children := s.children[t := Running(0, p.slot)])
    else if Calling(cf, p) then
      r.(numProbes := Counted(s.numProbes, hit), missed := s.missed || !hit,
         wrongTid := s.wrongTid || Foreign(p.slot, cf.tids[t]))
    else r
  }

  function ChildMove(cf: Config, s: State, c: nat, hit: bool): State
    requires Shape(cf, s) && Enabled(cf, s, ChildStep(c, hit))
  {
    var child := s.children[c];
    var r := s.(children := s.children[c := ChildNext(cf, child, cf.childTids[c], hit)]);
    if child.i < cf.cnt then
      r.(numProbes := Counted(s.numProbes, hit), childHit := s.childHit || hit,
         wrongTid := s.wrongTid || Foreign(child.slot, cf.childTids[c]))
    else r
  }

  function ReapMove(s: State, t: nat, c: nat): State
    requires t < |s.parents| && c < |s.children| && s.children[c].Zombie?
  {
    var code := s.children[c].code;
    s.(parents := s.parents[t := s.parents[t].(pc := Post(0), waited := true, status := code, got := c)],
       children := s.children[c := Reaped(code, t)])
  }

  function Next(cf: Config, s: State, l: Label): (r: State)
    requires Shape(cf, s) && Enabled(cf, s, l)
    ensures Shape(cf, r)
  {
    match l
    case ParentStep(t, hit) => ParentMove(cf, s, t, hit)
    case Reap(t, c) => ReapMove(s, t, c)
    case WaitFails(t, garbage) =>
      s.(parents := s.parents[t := s.parents[t].(pc := Post(0), status := garbage)], noChild := true)
    case ChildStep(c, hit) => ChildMove(cf, s, c, hit)
    case Join => s.(main := JoinNext(s))
  }

  predicate Valid(cf: Config, s: State, labels: seq<Label>)
    requires Shape(cf, s)
    decreases |labels|
  {
    labels == [] || (Enabled(cf, s, labels[0]) && Valid(cf, Next(cf, s, labels[0]), labels[1..]))
  }

  function Exec(cf: Config, s: State, labels: seq<Label>): (r: State)
    requires Shape(cf, s) && Valid(cf, s, labels)
    ensures Shape(cf, r)
    decreases |labels|
  {
    if labels == [] then s else Exec(cf, Next(cf, s, labels[0]), labels[1..])
  }

  // ---------- The invariant ----------

  /** The slot of a thread after `n` hits and nothing else, or of a child after `n` misses. */
  function AllHits(tid: int, n: nat): Slot {
    if n == 0 then FRESH else Slot(tid, tid, (n - 1) % WORD, (n - 1) % WORD)
  }

  function AllMisses(tid: int, n: nat): Slot {
    if n == 0 then FRESH else Slot(tid, 0, (n - 1) % WORD, MINUS_ONE)
  }

  lemma CallAfterHits(tid: int, n: nat, hit: bool)
    requires tid > 0 && n < HALF
    ensures var slot := AfterCall(AllHits(tid, n), tid, Hits(hit));
            && !Foreign(AllHits(tid, n), tid)
            && (hit ==> slot == AllHits(tid, n + 1) && Verdict(slot) == n)
            && (!hit ==> Verdict(slot) < 0)
  {
    AfterCallForm(AllHits(tid, n), tid, Hits(hit));
    SuccMod(n - 1);
  }

  lemma CallAfterMisses(tid: int, n: nat, hit: bool)
    requires tid > 0 && n < HALF
    ensures var slot := AfterCall(AllMisses(tid, n), tid, Hits(hit));
            && !Foreign(AllMisses(tid, n), tid)
            && (!hit ==> slot == AllMisses(tid, n + 1) && Verdict(slot) == -1)
            && (hit ==> Verdict(slot) == 0)
  {
  }

  predicate ParentOk(cf: Config, p: Parent, tid: int) {
    match p.pc
    case Fork => p.slot == FRESH && !p.waited
    case Pre(i) => i <= cf.cnt && p.slot == AllHits(tid, i) && !p.waited
    case Wait => p.slot == AllHits(tid, cf.cnt) && !p.waited
    case Post(i) => i <= cf.cnt && p.slot == AllHits(tid, cf.cnt + i) && p.waited && 0 <= p.status <= 1
    case Ended(r) => r < 0 || (p.waited && r == p.status && r <= 1)
  }

  predicate ChildOk(cf: Config, c: Child, tid: int) {
    match c
    case Unborn => true
    case Running(i, slot) => i <= cf.cnt && slot == AllMisses(tid, i)
    case Zombie(code) => code == 0 || code == 1
    case Reaped(code, _) => code == 0 || code == 1
  }

  /** Waits and reaped children correspond one to one, and a child exists once its thread forked. */
  predicate Matched(parents: seq<Parent>, children: seq<Child>)
    requires |parents| == |children|
  {
    && (forall t :: 0 <= t < |parents| && parents[t].waited ==>
          parents[t].got < |children| && children[parents[t].got] == Reaped(parents[t].status, t))
    && (forall c :: 0 <= c < |children| && children[c].Reaped? ==>
          children[c].waiter < |parents| && parents[children[c].waiter].waited && parents[children[c].waiter].got == c)
    && (forall t :: 0 <= t < |parents| ==> (children[t].Unborn? <==> parents[t].pc.Fork?))
  }

  function WaitedBit(p: Parent): nat {
    if p.waited then 1 else 0
  }

  function ReapedBit(c: Child): nat {
    if c.Reaped? then 1 else 0
  }

  /** Hits of a thread whose calls were all hits. */
  function HitsMade(cf: Config): Parent -> nat {
    (p: Parent) => match p.pc
                   case Fork => 0
                   case Pre(i) => i
                   case Wait => cf.cnt
                   case Post(i) => cf.cnt + i
                   case Ended(_) => 2 * cf.cnt
  }

  predicate Failed(c: Child) {
    (c.Zombie? || c.Reaped?) && c.code == 1
  }

  predicate Rejected(p: Parent) {
    p.pc.Ended? && p.pc.result < 0
  }

  /** The recorded events are exactly those that the threads and children show. */
  predicate MissRecorded(parents: seq<Parent>, missed: bool) {
    missed <==> exists t :: 0 <= t < |parents| && Rejected(parents[t])
  }

  predicate ChildHitRecorded(children: seq<Child>, childHit: bool) {
    childHit <==> exists c :: 0 <= c < |children| && Failed(children[c])
  }

  predicate MainOk(main: MainPc, parents: seq<Parent>, missed: bool, childHit: bool) {
    match main
    case Joining(i) => i <= |parents| && forall t :: 0 <= t < i ==> parents[t].pc == Ended(0)
    case Reported(pass) =>
      && (pass <==> !missed && !childHit)
      && (pass ==> forall t :: 0 <= t < |parents| ==> parents[t].pc == Ended(0))
  }

  predicate ParentsOk(cf: Config, parents: seq<Parent>)
    requires |parents| == |cf.tids|
  {
    forall t :: 0 <= t < |parents| ==> ParentOk(cf, parents[t], cf.tids[t])
  }

  predicate ChildrenOk(cf: Config, children: seq<Child>)
    requires |children| == |cf.childTids|
  {
    forall c :: 0 <= c < |children| ==> ChildOk(cf, children[c], cf.childTids[c])
  }

  predicate CounterOk(cf: Config, s: State) {
    !s.missed && !s.childHit ==> s.numProbes == Sum(HitsMade(cf), s.parents) % WORD
  }

  predicate Inv(cf: Config, s: State)
    requires Shape(cf, s)
  {
    && ParentsOk(cf, s.parents) && ChildrenOk(cf, s.children)
    && Matched(s.parents, s.children)
    && MissRecorded(s.parents, s.missed) && ChildHitRecorded(s.children, s.childHit)
    && MainOk(s.main, s.parents, s.missed, s.childHit)
    && Sum(WaitedBit, s.parents) == Sum(ReapedBit, s.children)
    && CounterOk(cf, s)
    && !s.noChild && !s.wrongTid
  }

  /** The moves of one thread on its own. */
  lemma ParentMoveLocal(cf: Config, p: Parent, tid: int, hit: bool)
    requires ConfigOk(cf) && tid > 0 && ParentOk(cf, p, tid) && !p.pc.Wait? && !p.pc.Ended?
    ensures var q := ParentNext(cf, p, tid, hit);
            && ParentOk(cf, q, tid) && q.waited == p.waited && q.status == p.status && q.got == p.got
            && !q.pc.Fork?
            && (Rejected(q) <==> Calling(cf, p) && !hit)
            && (Calling(cf, p) ==> !Foreign(p.slot, tid))
            && (!Rejected(q) ==> HitsMade(cf)(q) == HitsMade(cf)(p) + if Calling(cf, p) then 1 else 0)
  {
    match p.pc
    case Fork =>
    case Pre(i) => if i < cf.cnt { CallAfterHits(tid, i, hit); }
    case Post(i) => if i < cf.cnt { CallAfterHits(tid, cf.cnt + i, hit); }
  }

  lemma ChildMoveLocal(cf: Config, c: Child, tid: int, hit: bool)
    requires ConfigOk(cf) && tid > 0 && ChildOk(cf, c, tid) && c.Running?
    ensures var d := ChildNext(cf, c, tid, hit);
            && ChildOk(cf, d, tid) && !d.Reaped? && !d.Unborn?
            && (Failed(d) <==> c.i < cf.cnt && hit)
            && !Foreign(c.slot, tid)
  {
    CallAfterMisses(tid, c.i, hit);
  }

  lemma UpdateParentsOk(cf: Config, parents: seq<Parent>, t: nat, q: Parent)
    requires |parents| == |cf.tids| && t < |parents| && ParentsOk(cf, parents) && ParentOk(cf, q, cf.tids[t])
    ensures ParentsOk(cf, parents[t := q])
  {
  }

  lemma UpdateChildrenOk(cf: Config, children: seq<Child>, c: nat, d: Child)
    requires |children| == |cf.childTids| && c < |children| && ChildrenOk(cf, children)
    requires ChildOk(cf, d, cf.childTids[c])
    ensures ChildrenOk(cf, children[c := d])
  {
  }

  lemma UpdateMissRecorded(parents: seq<Parent>, missed: bool, t: nat, q: Parent)
    requires t < |parents| && MissRecorded(parents, missed) && !Rejected(parents[t])
    ensures MissRecorded(parents[t := q], missed || Rejected(q))
  {
    if missed {
      var u :| 0 <= u < |parents| && Rejected(parents[u]);
      assert Rejected(parents[t := q][u]);
    } else if Rejected(q) {
      assert Rejected(parents[t := q][t]);
    }
  }

  lemma UpdateChildHitRecorded(children: seq<Child>, childHit: bool, c: nat, d: Child)
    requires c < |children| && ChildHitRecorded(children, childHit) && (Failed(children[c]) ==> Failed(d))
    ensures ChildHitRecorded(children[c := d], childHit || Failed(d))
  {
    if childHit {
      var e :| 0 <= e < |children| && Failed(children[e]);
      assert Failed(children[c := d][e]);
    } else if Failed(d) {
      assert Failed(children[c := d][c]);
    }
  }

  lemma UpdateMain(main: MainPc, parents: seq<Parent>, missed: bool, childHit: bool, t: nat, q: Parent)
    requires main.Joining? && t < |parents| && MainOk(main, parents, missed, childHit) && !parents[t].pc.Ended?
    ensures MainOk(main, parents[t := q], missed, childHit)
  {
  }

  /** A step of a thread or child that neither forks nor waits. */
  lemma UpdateMatched(parents: seq<Parent>, children: seq<Child>, t: nat, q: Parent, c: nat, d: Child)
    requires |parents| == |children| && Matched(parents, children) && t < |parents| && c < |children|
    requires q.waited == parents[t].waited && q.status == parents[t].status && q.got == parents[t].got
    requires (d == children[c]) || (!d.Reaped? && !children[c].Reaped?)
    requires if t == c then !q.pc.Fork? && !d.Unborn?
             else q.pc.Fork? == parents[t].pc.Fork? && d.Unborn? == children[c].Unborn?
    ensures Matched(parents[t := q], children[c := d])
  {
  }

  /** A wait that delivers the status of a child which had exited. */
  lemma ReapMatched(parents: seq<Parent>, children: seq<Child>, t: nat, c: nat)
    requires |parents| == |children| && Matched(parents, children) && t < |parents| && c < |children|
    requires !parents[t].waited && !parents[t].pc.Fork? && children[c].Zombie?
    ensures var code := children[c].code;
            Matched(parents[t := parents[t].(pc := Post(0), waited := true, status := code, got := c)],
                    children[c := Reaped(code, t)])
  {
  }

  lemma ForkCounts(cf: Config, parents: seq<Parent>, children: seq<Child>, t: nat, q: Parent, child: Child)
    requires t < |parents| == |children| && parents[t].pc.Fork? && children[t].Unborn?
    requires q == parents[t].(pc := Pre(0)) && child.Running?
    ensures Sum(WaitedBit, parents[t := q]) == Sum(WaitedBit, parents)
    ensures Sum(HitsMade(cf), parents[t := q]) == Sum(HitsMade(cf), parents)
    ensures Sum(ReapedBit, children[t := child]) == Sum(ReapedBit, children)
  {
    SumUpdate(WaitedBit, parents, t, q);
    SumUpdate(HitsMade(cf), parents, t, q);
    SumUpdate(ReapedBit, children, t, child);
  }

  lemma ForkKeepsInv(cf: Config, s: State, t: nat, hit: bool)
    requires ConfigOk(cf) && Shape(cf, s) && Inv(cf, s) && Enabled(cf, s, ParentStep(t, hit)) && s.parents[t].pc.Fork?
    ensures Inv(cf, ParentMove(cf, s, t, hit))
  {
    var p, r := s.parents[t], ParentMove(cf, s, t, hit);
    var q, child := p.(pc := Pre(0)), Running(0, p.slot);
    assert r == s.(parents := s.parents[t := q], children := s.children[t := child]);
    assert ParentsOk(cf, r.parents) by { UpdateParentsOk(cf, s.parents, t, q); }
    assert ChildrenOk(cf, r.children) by { UpdateChildrenOk(cf, s.children, t, child); }
    assert MissRecorded(r.parents, r.missed) by { UpdateMissRecorded(s.parents, s.missed, t, q); }
    assert ChildHitRecorded(r.children, r.childHit) by { UpdateChildHitRecorded(s.children, s.childHit, t, child); }
    assert MainOk(r.main, r.parents, r.missed, r.childHit) by {
      UpdateMain(s.main, s.parents, s.missed, s.childHit, t, q);
    }
    assert Matched(r.parents, r.children) by { UpdateMatched(s.parents, s.children, t, q, t, child); }
    ForkCounts(cf, s.parents, s.children, t, q, child);
  }

  /** The counter keeps pace with the hits of the threads, as long as nothing went wrong. */
  lemma CounterAfterMove(cf: Config, parents: seq<Parent>, numProbes: Word, t: nat, tid: int, hit: bool)
    requires ConfigOk(cf) && t < |parents| && tid > 0 && ParentOk(cf, parents[t], tid)
    requires !parents[t].pc.Wait? && !parents[t].pc.Ended? && (Calling(cf, parents[t]) ==> hit)
    requires numProbes == Sum(HitsMade(cf), parents) % WORD
    ensures var q := ParentNext(cf, parents[t], tid, hit);
            (if Calling(cf, parents[t]) then Counted(numProbes, hit) else numProbes)
            == Sum(HitsMade(cf), parents[t := q]) % WORD
  {
    ParentMoveLocal(cf, parents[t], tid, hit);
    SumUpdate(HitsMade(cf), parents, t, ParentNext(cf, parents[t], tid, hit));
    SuccMod(Sum(HitsMade(cf), parents));
  }

  lemma ParentMoveCounter(cf: Config, s: State, t: nat, hit: bool)
    requires ConfigOk(cf) && Shape(cf, s) && Enabled(cf, s, ParentStep(t, hit)) && !s.parents[t].pc.Fork?
    requires ParentOk(cf, s.parents[t], cf.tids[t]) && CounterOk(cf, s)
    ensures CounterOk(cf, ParentMove(cf, s, t, hit))
  {
    var r := ParentMove(cf, s, t, hit);
    if !r.missed && !r.childHit {
      CounterAfterMove(cf, s.parents, s.numProbes, t, cf.tids[t], hit);
    }
  }

  lemma ParentMoveKeepsInv(cf: Config, s: State, t: nat, hit: bool)
    requires ConfigOk(cf) && Shape(cf, s) && Inv(cf, s) && Enabled(cf, s, ParentStep(t, hit)) && !s.parents[t].pc.Fork?
    ensures Inv(cf, ParentMove(cf, s, t, hit))
  {
    var p, r := s.parents[t], ParentMove(cf, s, t, hit);
    var q := ParentNext(cf, p, cf.tids[t], hit);
    assert CounterOk(cf, r) by { ParentMoveCounter(cf, s, t, hit); }
    assert r.parents == s.parents[t := q] && r.children == s.children && r.main == s.main;
    ParentMoveLocal(cf, p, cf.tids[t], hit);
    assert r.missed == (s.missed || Rejected(q)) && r.childHit == s.childHit && !r.wrongTid && !r.noChild;
    ParentChanged(cf, s, t, q, r.missed);
  }

  /** Everything but the counter, when a thread moved without forking or waiting. */
  lemma ParentChanged(cf: Config, s: State, t: nat, q: Parent, missed: bool)
    requires Shape(cf, s) && Inv(cf, s) && s.main.Joining? && t < |s.parents|
    requires !s.parents[t].pc.Ended? && !s.parents[t].pc.Fork? && !q.pc.Fork? && ParentOk(cf, q, cf.tids[t])
    requires q.waited == s.parents[t].waited && q.status == s.parents[t].status && q.got == s.parents[t].got
    requires missed == (s.missed || Rejected(q))
    ensures var parents := s.parents[t := q];
            && ParentsOk(cf, parents) && MissRecorded(parents, missed)
            && MainOk(s.main, parents, missed, s.childHit) && Matched(parents, s.children)
            && Sum(WaitedBit, parents) == Sum(ReapedBit, s.children)
  {
    UpdateMissRecorded(s.parents, s.missed, t, q);
    UpdateMain(s.main, s.parents, missed, s.childHit, t, q);
    UpdateMatched(s.parents, s.children, t, q, t, s.children[t]);
    assert s.children[t := s.children[t]] == s.children;
    SumUpdate(WaitedBit, s.parents, t, q);
  }

  lemma ChildMoveKeepsInv(cf: Config, s: State, c: nat, hit: bool)
    requires ConfigOk(cf) && Shape(cf, s) && Inv(cf, s) && Enabled(cf, s, ChildStep(c, hit))
    ensures Inv(cf, ChildMove(cf, s, c, hit))
  {
    var r, d := ChildMove(cf, s, c, hit), ChildNext(cf, s.children[c], cf.childTids[c], hit);
    ChildMoveLocal(cf, s.children[c], cf.childTids[c], hit);
    assert r.parents == s.parents && r.children == s.children[c := d] && r.main == s.main && r.missed == s.missed;
    assert MainOk(r.main, r.parents, r.missed, r.childHit);
    assert ChildrenOk(cf, r.children) by { UpdateChildrenOk(cf, s.children, c, d); }
    assert ChildHitRecorded(r.children, r.childHit) by { UpdateChildHitRecorded(s.children, s.childHit, c, d); }
    assert Matched(r.parents, r.children) by {
      UpdateMatched(s.parents, s.children, c, s.parents[c], c, d);
      assert s.parents[c := s.parents[c]] == s.parents;
    }
    SumUpdate(ReapedBit, s.children, c, d);
  }

  lemma ReapCounts(cf: Config, s: State, t: nat, c: nat, p: Parent, d: Child)
    requires Shape(cf, s) && t < |s.parents| && c < |s.children|
    requires Sum(WaitedBit, s.parents) == Sum(ReapedBit, s.children) && CounterOk(cf, s)
    requires s.parents[t].pc.Wait? && !s.parents[t].waited && p.pc == Post(0) && p.waited
    requires !s.children[c].Reaped? && d.Reaped?
    ensures Sum(WaitedBit, s.parents[t := p]) == Sum(ReapedBit, s.children[c := d])
    ensures Sum(HitsMade(cf), s.parents[t := p]) == Sum(HitsMade(cf), s.parents)
  {
    SumUpdate(WaitedBit, s.parents, t, p);
    SumUpdate(HitsMade(cf), s.parents, t, p);
    SumUpdate(ReapedBit, s.children, c, d);
  }

  lemma ReapKeepsInv(cf: Config, s: State, t: nat, c: nat)
    requires ConfigOk(cf) && Shape(cf, s) && Inv(cf, s) && Enabled(cf, s, Reap(t, c))
    ensures Inv(cf, ReapMove(s, t, c))
  {
    var code, r := s.children[c].code, ReapMove(s, t, c);
    var p, d := s.parents[t].(pc := Post(0), waited := true, status := code, got := c), Reaped(code, t);
    assert r == s.(parents := s.parents[t := p], children := s.children[c := d]);
    assert ParentOk(cf, s.parents[t], cf.tids[t]) && ChildOk(cf, s.children[c], cf.childTids[c]);
    assert ParentsOk(cf, r.parents) by { UpdateParentsOk(cf, s.parents, t, p); }
    assert ChildrenOk(cf, r.children) by { UpdateChildrenOk(cf, s.children, c, d); }
    assert MissRecorded(r.parents, r.missed) by { UpdateMissRecorded(s.parents, s.missed, t, p); }
    assert ChildHitRecorded(r.children, r.childHit) by { UpdateChildHitRecorded(s.children, s.childHit, c, d); }
    assert MainOk(r.main, r.parents, r.missed, r.childHit) by {
      UpdateMain(s.main, s.parents, s.missed, s.childHit, t, p);
    }
    assert Matched(r.parents, r.children) by { ReapMatched(s.parents, s.children, t, c); }
    ReapCounts(cf, s, t, c, p, d);
  }

  // ---------- A wait always has a child to reap ----------

  lemma WaiterHasChild(cf: Config, s: State, t: nat)
    requires ConfigOk(cf) && Shape(cf, s) && Inv(cf, s) && t < |s.parents| && s.parents[t].pc.Wait?
    ensures exists c :: 0 <= c < |s.children| && Unreaped(s.children[c])
  {
    if forall c :: 0 <= c < |s.children| ==> !Unreaped(s.children[c]) {
      forall u | 0 <= u < |s.parents|
        ensures WaitedBit(s.parents[u]) <= ReapedBit(s.children[u])
      {
        assert !Unreaped(s.children[u]);
        assert ParentOk(cf, s.parents[u], cf.tids[u]);
      }
      SumOrdered(WaitedBit, s.parents, ReapedBit, s.children);
    }
  }

  // ---------- main's verdict ----------

  /** When every thread has waited, every child is reaped, and by the thread that has its status. */
  lemma AllReaped(parents: seq<Parent>, children: seq<Child>)
    requires |parents| == |children| && Sum(WaitedBit, parents) == Sum(ReapedBit, children)
    requires forall t :: 0 <= t < |parents| ==> parents[t].waited
    ensures forall c :: 0 <= c < |children| ==> children[c].Reaped?
  {
  }

  lemma NoneRejected(parents: seq<Parent>)
    requires forall t :: 0 <= t < |parents| ==> parents[t].pc == Ended(0)
    ensures forall t :: 0 <= t < |parents| ==> !Rejected(parents[t])
  {
  }

  lemma AllWaitedWell(cf: Config, parents: seq<Parent>)
    requires |parents| == |cf.tids| && ParentsOk(cf, parents)
    requires forall t :: 0 <= t < |parents| ==> parents[t].pc == Ended(0)
    ensures forall t :: 0 <= t < |parents| ==> parents[t].waited && parents[t].status == 0
  {
  }

  lemma NoneFailed(parents: seq<Parent>, children: seq<Child>)
    requires |parents| == |children| && Matched(parents, children)
    requires forall t :: 0 <= t < |parents| ==> parents[t].status == 0
    requires forall c :: 0 <= c < |children| ==> children[c].Reaped?
    ensures forall c :: 0 <= c < |children| ==> !Failed(children[c])
  {
  }

  /** `main` has joined every thread with result 0: nothing can have gone wrong. */
  lemma AllJoined(cf: Config, s: State)
    requires Shape(cf, s) && Inv(cf, s) && forall t :: 0 <= t < |s.parents| ==> s.parents[t].pc == Ended(0)
    ensures !s.missed && !s.childHit
  {
    NoneRejected(s.parents);
    assert !s.missed;
    AllWaitedWell(cf, s.parents);
    AllReaped(s.parents, s.children);
    NoneFailed(s.parents, s.children);
  }

  /** A nonzero result of a thread is a missed call of its own or the failure of the child it reaped. */
  lemma NonzeroResult(cf: Config, s: State, t: nat)
    requires Shape(cf, s) && Inv(cf, s) && t < |s.parents| && s.parents[t].pc.Ended? && s.parents[t].pc.result != 0
    ensures s.missed || s.childHit
  {
  }

  lemma NextJoined(parents: seq<Parent>, i: nat, missed: bool, childHit: bool)
    requires i < |parents| && parents[i].pc == Ended(0) && MainOk(Joining(i), parents, missed, childHit)
    ensures MainOk(Joining(i + 1), parents, missed, childHit)
  {
  }

  lemma JoinKeepsMain(cf: Config, s: State)
    requires Shape(cf, s) && Inv(cf, s) && Enabled(cf, s, Join)
    ensures MainOk(JoinNext(s), s.parents, s.missed, s.childHit)
  {
    var i := s.main.i;
    if i == |s.parents| {
      AllJoined(cf, s);
    } else if s.parents[i].pc.result != 0 {
      NonzeroResult(cf, s, i);
    } else {
      NextJoined(s.parents, i, s.missed, s.childHit);
    }
  }

  lemma JoinKeepsInv(cf: Config, s: State)
    requires Shape(cf, s) && Inv(cf, s) && Enabled(cf, s, Join)
    ensures Inv(cf, s.(main := JoinNext(s)))
  {
    JoinKeepsMain(cf, s);
  }

  lemma LaunchInv(cf: Config)
    requires ConfigOk(cf)
    ensures Shape(cf, Launch(cf)) && Inv(cf, Launch(cf))
  {
    var s := Launch(cf);
    SumEqual(WaitedBit, s.parents, 0);
    SumEqual(ReapedBit, s.children, 0);
    SumEqual(HitsMade(cf), s.parents, 0);
  }

  lemma StepKeepsInv(cf: Config, s: State, l: Label)
    requires ConfigOk(cf) && Shape(cf, s) && Inv(cf, s) && Enabled(cf, s, l)
    ensures Inv(cf, Next(cf, s, l))
  {
    match l
    case ParentStep(t, hit) =>
      if s.parents[t].pc.Fork? { ForkKeepsInv(cf, s, t, hit); } else { ParentMoveKeepsInv(cf, s, t, hit); }
    case Reap(t, c) => ReapKeepsInv(cf, s, t, c);
    case WaitFails(t, _) => WaiterHasChild(cf, s, t);
    case ChildStep(c, hit) => ChildMoveKeepsInv(cf, s, c, hit);
    case Join => JoinKeepsInv(cf, s);
  }

  lemma {:induction false} RunKeepsInv(cf: Config, s: State, labels: seq<Label>)
    requires ConfigOk(cf) && Shape(cf, s) && Inv(cf, s) && Valid(cf, s, labels)
    ensures Inv(cf, Exec(cf, s, labels))
    decreases |labels|
  {
    if labels == [] {
    } else {
      StepKeepsInv(cf, s, labels[0]);
      RunKeepsInv(cf, Next(cf, s, labels[0]), labels[1..]);
    }
  }
}
