/**
  uprobes.w/ksuicide.c: `init_module` puts a counting consumer on every matching symbol, and a
  second consumer, which ends the thread that hits it, on `_probe_9`.
 */
module Ksuicide {
  import opened Words
  import opened Handshake
  import opened Symbols
  import opened Kunreg

  const ENOMEM := 12

  const VICTIM: CString := "_probe_9"

  /** The consumer that is registered last. */
  function SuicideEntry(symbols: seq<Symbol>, kernPath: map<CString, Inode>, id: nat): Entry {
    Entry(InodeOf(symbols, VICTIM, kernPath), OffsetOf(symbols, VICTIM), Consumer(id, Suicide))
  }

  /** The result for one service; unlike kunreg.c it takes a registration in progress for a failure. */
  function Answer(s: Service): int {
    if !s.memory then -ENOMEM else if s.ret != 0 then -1 else 0
  }

  /** The service as this module takes it. */
  function Strict(s: Service): Service {
    if s.ret == -EINPROGRESS then Service(s.memory, -1) else s
  }

  function Stricts(services: seq<Service>): (r: seq<Service>)
    ensures |r| == |services| && forall k :: 0 <= k < |r| ==> r[k] == Strict(services[k])
  {
    if services == [] then [] else Stricts(services[..|services| - 1]) + [Strict(services[|services| - 1])]
  }

  /** How many visits are under way when service `n` was the first that did not succeed at once. */
  function UnderWay(services: seq<Service>, n: nat): nat {
    if n < |services| && Accepted(services[n]) then n + 1 else n
  }

  /** The consumers of the first `n` visits are registered, and nothing else has changed. */
  ghost predicate Added(kernel: Kernel, points: seq<Point>, base: nat, before: set<Entry>, n: nat)
    reads kernel
  {
    kernel.Valid() && n <= |points| && kernel.registry == before + ToSet(Entries(points, base, n))
  }

  class Module {
    var numProbes: Word

    /** One visit: the consumer is allocated, the point looked up and registered. */
    method RegisterOne(kernel: Kernel, symbols: seq<Symbol>, kernPath: map<CString, Inode>, name: CString,
                       service: Service, ghost points: seq<Point>, ghost base: nat, ghost before: set<Entry>,
                       ghost n: nat)
      returns (ret: int)
      requires Added(kernel, points, base, before, n) && kernel.issued == base + n && n < |points|
      requires points[n] == Point(InodeOf(symbols, name, kernPath), OffsetOf(symbols, name))
      modifies kernel
      ensures ret == Answer(service)
      ensures Added(kernel, points, base, before, if Accepted(service) then n + 1 else n)
      ensures ret == 0 ==> kernel.issued == base + n + 1
    {
      ToSetAppend(Entries(points, base, n), EntryFor(points, base, n));
      var usp := kernel.Kzalloc(service.memory, Counting);
      if usp == Null {
        return -ENOMEM;
      }
      var inode := FindInode(symbols, name, kernPath);
      var offset := FindOffset(symbols, name);
      kernel.UprobeRegister(Entry(inode, offset, usp), service.ret);
      if service.ret != 0 {
        return -1;
      }
      return 0;
    }

    /** The loop's body and step: the visit, and on to the next match unless it failed. */
    method Visit(kernel: Kernel, symbols: seq<Symbol>, kernPath: map<CString, Inode>, glob: CString, cursor: Cursor,
                 name: CString, service: Service, ghost points: seq<Point>, ghost base: nat, ghost before: set<Entry>,
                 ghost n: nat)
      returns (found: Found, ret: int)
      requires Added(kernel, points, base, before, n) && kernel.issued == base + n
      requires glob == GLOB && points == Points(symbols, kernPath)
      requires cursor.Stands(symbols, Pattern(glob), Name(name))
      requires At(Visits(symbols), n, symbols, Pattern(glob), cursor.next)
      modifies kernel, cursor
      ensures ret == Answer(service)
      ensures Added(kernel, points, base, before, if Accepted(service) then n + 1 else n)
      ensures ret == 0 ==> kernel.issued == base + n + 1
      ensures ret == 0 ==> cursor.Stands(symbols, Pattern(glob), found) && cursor.next > old(cursor.next)
      ensures ret == 0 ==> At(Visits(symbols), n + 1, symbols, Pattern(glob), cursor.next)
    {
      NextVisit(Visits(symbols), n, symbols, Pattern(glob), cursor.next);
      PointAt(symbols, kernPath, |points|, n);
      found := EndOfList;
      ret := RegisterOne(kernel, symbols, kernPath, name, service, points, base, before, n);
      if ret == 0 {
        found := NextFound(symbols, glob, cursor, n + 1);
      }
    }

    /** The second consumer on the last probe point. */
    method RegisterVictim(kernel: Kernel, symbols: seq<Symbol>, kernPath: map<CString, Inode>, service: Service)
      returns (ret: int)
      requires kernel.Valid()
      modifies kernel
      ensures kernel.Valid()
      ensures ret == Answer(service)
      ensures kernel.registry ==
              old(kernel.registry)
              + if Accepted(service) then {SuicideEntry(symbols, kernPath, old(kernel.issued))} else {}
    {
      var usp := kernel.Kzalloc(service.memory, Suicide);
      if usp == Null {
        return -ENOMEM;
      }
      var inode := FindInode(symbols, VICTIM, kernPath);
      var offset := FindOffset(symbols, VICTIM);
      kernel.UprobeRegister(Entry(inode, offset, usp), service.ret);
      if service.ret != 0 {
        return -1;
      }
      return 0;
    }

    /** The loop: it leaves at the first failure, which is service `n`. */
    method RegisterProbes(kernel: Kernel, symbols: seq<Symbol>, kernPath: map<CString, Inode>, services: seq<Service>)
      returns (ret: int, ghost n: nat)
      requires kernel.Valid() && |services| == |Visits(symbols)| + 1
      modifies kernel
      ensures n <= |Visits(symbols)| && AcceptedUpTo(Stricts(services), n)
      ensures ret == 0 ==> n == |Visits(symbols)| && kernel.issued == old(kernel.issued) + n
      ensures ret != 0 ==> n < |Visits(symbols)| && ret == Answer(services[n])
      ensures Added(kernel, Points(symbols, kernPath), old(kernel.issued), old(kernel.registry),
                    if ret == 0 then n else UnderWay(services, n))
    {
      ghost var points, base, before := Points(symbols, kernPath), kernel.issued, kernel.registry;
      var glob: CString := GLOB;
      var cursor := new Cursor();
      var k := 0;
      var found := cursor.Advance(symbols, glob);
      while found.Name?
        invariant Added(kernel, points, base, before, k) && kernel.issued == base + k
        invariant cursor.Stands(symbols, Pattern(glob), found)
        invariant At(Visits(symbols), k, symbols, Pattern(glob), cursor.next)
        invariant AcceptedUpTo(Stricts(services), k)
        decreases |symbols| - cursor.next
      {
        InReach(Visits(symbols), k, symbols, Pattern(glob), cursor.next);
        found, ret := Visit(kernel, symbols, kernPath, glob, cursor, found.name, services[k], points, base, before, k);
        if ret != 0 {
          n := k;
          return;
        }
        AcceptedNext(Stricts(services), k);
        k := k + 1;
      }
      return 0, k;
    }

    /**
      `services` answers the visits, and its last entry the suicide consumer. A failure leaves the
      consumers of the earlier visits registered, and its own if it was only in progress.
     */
    method InitModule(kernel: Kernel, symbols: seq<Symbol>, kernPath: map<CString, Inode>, services: seq<Service>,
                      initUprobe: int, dbfsInit: int)
      returns (ret: int)
      requires kernel.Valid() && |services| == |Visits(symbols)| + 1
      modifies this, kernel
      ensures numProbes == 0 && kernel.Valid()
      ensures initUprobe < 0 || dbfsInit < 0 ==> ret == -1 && kernel.registry == old(kernel.registry)
      ensures initUprobe >= 0 && dbfsInit >= 0 ==>
                var n := Prefix(Stricts(services));
                && ret == (if n == |services| then 0 else if services[n].memory then -1 else -12)
                && (forall k :: 0 <= k < n ==> services[k].memory && services[k].ret == 0)
                && (n < |services| ==> !services[n].memory || services[n].ret != 0)
                && kernel.registry == old(kernel.registry)
                                      + Outcome(symbols, kernPath, old(kernel.issued), UnderWay(services, n))
    {
      numProbes := 0;
      if initUprobe < 0 {
        return -1;
      }
      if dbfsInit < 0 {
        return -1;
      }
      ghost var n;
      ret, n := RegisterProbes(kernel, symbols, kernPath, services);
      if ret == 0 {
        ret := RegisterVictim(kernel, symbols, kernPath, services[|services| - 1]);
        if ret == 0 {
          AcceptedNext(Stricts(services), n);
          n := n + 1;
        }
      }
      FirstFailure(services, n);
      BeforeFailure(services, n);
      if n < |services| {
        StrictAccepts(services[n]);
      }
    }
  }

  /** The first service that did not succeed at once. */
  lemma FirstFailure(services: seq<Service>, n: nat)
    requires n <= |services| && AcceptedUpTo(Stricts(services), n)
    requires n < |services| ==> Answer(services[n]) != 0
    ensures Prefix(Stricts(services)) == n
  {
    if n < |services| {
      StrictAccepts(services[n]);
    }
    PrefixIs(Stricts(services), n);
  }

  lemma BeforeFailure(services: seq<Service>, n: nat)
    requires n <= |services| && AcceptedUpTo(Stricts(services), n)
    ensures forall k :: 0 <= k < n ==> services[k].memory && services[k].ret == 0
  {
    forall k | 0 <= k < n
      ensures services[k].memory && services[k].ret == 0
    {
      assert Accepted(Stricts(services)[k]);
      StrictAccepts(services[k]);
    }
  }

  /** Memory, and an answer of 0. */
  lemma StrictAccepts(s: Service)
    ensures Accepted(Strict(s)) <==> s.memory && s.ret == 0
    ensures Answer(s) == 0 <==> s.memory && s.ret == 0
    ensures Answer(s) != 0 ==> Answer(s) == if s.memory then -1 else -12
  {
  }

  /** What is registered when the first `n` requests were accepted. */
  function Outcome(symbols: seq<Symbol>, kernPath: map<CString, Inode>, base: nat, n: nat): set<Entry> {
    var points := Points(symbols, kernPath);
    if n <= |points| then ToSet(Entries(points, base, n))
    else ToSet(Entries(points, base, |points|)) + {SuicideEntry(symbols, kernPath, base + |points|)}
  }

  // ---------- The handlers on each probe point ----------

  /** All consumers of a successful `init_module`, in the order of registration. */
  function Registered(symbols: seq<Symbol>, kernPath: map<CString, Inode>, base: nat): seq<Entry> {
    var points := Points(symbols, kernPath);
    Entries(points, base, |points|) + [SuicideEntry(symbols, kernPath, base + |points|)]
  }

  /** The handlers of the consumers on one probe point, in the order of registration. */
  function HandlersAt(entries: seq<Entry>, p: Point): seq<Handler> {
    if entries == [] then []
    else
      var e := entries[|entries| - 1];
      HandlersAt(entries[..|entries| - 1], p)
      + if Point(e.inode, e.offset) == p && e.usp.Consumer? then [e.usp.handler] else []
  }

  /** No other matching symbol shares probe point `k`. */
  predicate Unshared(points: seq<Point>, k: nat) {
    k < |points| && forall l :: 0 <= l < |points| && l != k ==> points[l] != points[k]
  }

  lemma OneMoreVisit(points: seq<Point>, base: nat, n: nat, p: Point)
    requires n < |points|
    ensures HandlersAt(Entries(points, base, n + 1), p)
            == HandlersAt(Entries(points, base, n), p) + if points[n] == p then [Counting] else []
  {
    assert Entries(points, base, n + 1)[..n] == Entries(points, base, n);
  }

  lemma {:induction false} HandlersOfVisits(points: seq<Point>, base: nat, n: nat, k: nat)
    requires n <= |points| && Unshared(points, k)
    ensures HandlersAt(Entries(points, base, n), points[k]) == if k < n then [Counting] else []
  {
    if n == 0 {
    } else {
      HandlersOfVisits(points, base, n - 1, k);
      OneMoreVisit(points, base, n - 1, points[k]);
    }
  }

  function VictimPoint(symbols: seq<Symbol>, kernPath: map<CString, Inode>): Point {
    Point(InodeOf(symbols, VICTIM, kernPath), OffsetOf(symbols, VICTIM))
  }

  /** Every unshared point has one counting handler; `_probe_9` has the suicide handler after it. */
  lemma HandlersAtPoint(symbols: seq<Symbol>, kernPath: map<CString, Inode>, base: nat, k: nat)
    requires Unshared(Points(symbols, kernPath), k)
    ensures var p := Points(symbols, kernPath)[k];
            HandlersAt(Registered(symbols, kernPath, base), p)
            == if p == VictimPoint(symbols, kernPath) then [Counting, Suicide] else [Counting]
  {
    var points := Points(symbols, kernPath);
    var entries, suicide := Entries(points, base, |points|), SuicideEntry(symbols, kernPath, base + |points|);
    HandlersOfVisits(points, base, |points|, k);
    assert (entries + [suicide])[..|entries|] == entries;
  }

  /** With unique names the second consumer is on the point of the symbol called `_probe_9`. */
  lemma VictimIsProbe9(symbols: seq<Symbol>, kernPath: map<CString, Inode>, i: nat, id: nat)
    requires UniqueNames(symbols) && i < |symbols| && symbols[i].name == "_probe_9"
    ensures var inode := if symbols[i].path in kernPath then kernPath[symbols[i].path] else 0;
            && VictimPoint(symbols, kernPath) == Point(inode, symbols[i].offset)
            && SuicideEntry(symbols, kernPath, id) == Entry(inode, symbols[i].offset, Consumer(id, Suicide))
  {
    VisitsOwnPoint(symbols, i, kernPath);
  }

  // ---------- A hit ----------

  /** How the handlers of one hit leave the slot, how many of them counted, and whether the thread goes on. */
  datatype HitEnd = HitEnd(slot: Slot, counted: nat, alive: bool)

  /** The handlers run one after the other; `suicide_handler` never returns. */
  function RunHandlers(s: Slot, pid: int, handlers: seq<Handler>): HitEnd
    decreases |handlers|
  {
    if handlers == [] then HitEnd(s, 0, true)
    else if handlers[0] == Suicide then HitEnd(s, 0, false)
    else
      var rest := RunHandlers(Handled(s, pid), pid, handlers[1..]);
      rest.(counted := rest.counted + 1)
  }

  /** A call of `probe_N` on a point with these handlers: a thread that is not alive never gets to its body. */
  function CallOn(s: Slot, tid: int, handlers: seq<Handler>): HitEnd {
    var hit := RunHandlers(Entered(s, tid), tid, handlers);
    if hit.alive then hit.(slot := Bumped(hit.slot)) else hit
  }

  method Hit(k: KernelModule, table: array<Slot>, j: nat, tid: int, handlers: seq<Handler>) returns (alive: bool)
    requires j < table.Length && table[j].utid == tid
    modifies k, table
    ensures var hit := RunHandlers(old(table[j]), tid, handlers);
            && alive == hit.alive && table[..] == old(table[..])[j := hit.slot]
            && k.numProbes == (old(k.numProbes) + hit.counted) % WORD && k.mismatch == old(k.mismatch)
  {
    ghost var hit := RunHandlers(table[j], tid, handlers);
    var i := 0;
    while i < |handlers|
      invariant i <= |handlers| && table[j].utid == tid && k.mismatch == old(k.mismatch)
      invariant table[..] == old(table[..])[j := table[j]]
      invariant k.numProbes == (old(k.numProbes) + i) % WORD
      invariant hit == RunHandlers(table[j], tid, handlers[i..]).(counted := hit.counted)
      invariant hit.counted == i + RunHandlers(table[j], tid, handlers[i..]).counted
    {
      if handlers[i] == Suicide {
        return false;
      }
      SuccMod(old(k.numProbes) + i);
      assert handlers[i..][1..] == handlers[i + 1..];
      ghost var slot := table[j];
      k.ProbeHandler(table, j, tid);
      assert table[..][j] == Handled(slot, tid);
      i := i + 1;
    }
    return true;
  }

  lemma {:induction false} HandledFirst(s: Slot, pid: int, c: nat)
    ensures HandledTimes(Handled(s, pid), pid, c) == HandledTimes(s, pid, c + 1)
  {
    if c == 0 {
      assert HandledTimes(s, pid, 0) == s;
    } else {
      HandledFirst(s, pid, c - 1);
    }
  }

  /** A thread survives a hit exactly when no suicide handler is there; else only those before the first one count. */
  lemma {:induction false} StopsAtSuicide(s: Slot, pid: int, handlers: seq<Handler>, i: nat)
    requires i <= |handlers| && Suicide !in handlers[..i] && (i < |handlers| ==> handlers[i] == Suicide)
    ensures RunHandlers(s, pid, handlers) == HitEnd(HandledTimes(s, pid, i), i, i == |handlers|)
    decreases i
  {
    if i == 0 {
    } else {
      assert handlers[0] in handlers[..i];
      assert handlers[1..][..i - 1] == handlers[..i][1..];
      StopsAtSuicide(Handled(s, pid), pid, handlers[1..], i - 1);
      HandledFirst(s, pid, i - 1);
    }
  }

  /** Every unshared point but `_probe_9` keeps the handshake: each call is counted once on either side. */
  lemma OtherPointsKeepHandshake(symbols: seq<Symbol>, kernPath: map<CString, Inode>, base: nat, k: nat, s: Slot,
                                 tid: int, h: nat)
    requires Unshared(Points(symbols, kernPath), k) && tid != 0 && 1 <= h <= HALF
    requires Points(symbols, kernPath)[k] != VictimPoint(symbols, kernPath)
    ensures CallOn(s, tid, HandlersAt(Registered(symbols, kernPath, base), Points(symbols, kernPath)[k]))
            == HitEnd(AfterCall(s, tid, 1), 1, true)
    ensures Verdict(Calls(FRESH, tid, Repeat(1, h))) == h - 1
  {
    HandlersAtPoint(symbols, kernPath, base, k);
    StopsAtSuicide(Entered(s, tid), tid, [Counting], 1);
    RepeatTotals(1, h);
    VerdictExact(tid, Repeat(1, h));
  }

  /**
    The first hit of `_probe_9` is counted once by the kernel and ends the thread in the handlers:
    its user function never counts it, and the two counters stay apart.
   */
  lemma VictimDiesOnce(symbols: seq<Symbol>, kernPath: map<CString, Inode>, base: nat, k: nat, tid: int)
    requires Unshared(Points(symbols, kernPath), k) && tid != 0
    requires Points(symbols, kernPath)[k] == VictimPoint(symbols, kernPath)
    ensures var handlers := HandlersAt(Registered(symbols, kernPath, base), Points(symbols, kernPath)[k]);
            CallOn(FRESH, tid, handlers) == HitEnd(Slot(tid, tid, MINUS_ONE, 0), 1, false)
  {
    HandlersAtPoint(symbols, kernPath, base, k);
    StopsAtSuicide(Entered(FRESH, tid), tid, [Counting, Suicide], 1);
    assert HandledTimes(Entered(FRESH, tid), tid, 0) == Entered(FRESH, tid);
  }

  /** In either order the thread ends, and the counters differ exactly when the counting handler was first. */
  lemma VictimInAnyOrder(handlers: seq<Handler>, tid: int)
    requires handlers == [Counting, Suicide] || handlers == [Suicide, Counting]
    requires tid != 0
    ensures var hit := CallOn(FRESH, tid, handlers);
            && !hit.alive && hit.counted == (if handlers[0] == Counting then 1 else 0)
            && (hit.slot.ucount != hit.slot.kcount <==> handlers[0] == Counting)
  {
    StopsAtSuicide(Entered(FRESH, tid), tid, handlers, if handlers[0] == Counting then 1 else 0);
    assert HandledTimes(Entered(FRESH, tid), tid, 0) == Entered(FRESH, tid);
  }
}
