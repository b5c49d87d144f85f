/**
  The register/unregister table of uprobes.w/kunreg.c, over an abstract registry of the kernel:
  registering adds a consumer to a probe point, removing an absent one changes nothing.
 */
module Kunreg {
  import opened Symbols

  datatype Handler = Counting | Suicide

  /** A consumer allocated by `kzalloc`, told apart by the order of allocation. */
  datatype Consumer = Null | Consumer(id: nat, handler: Handler)

  datatype Entry = Entry(inode: Inode, offset: int, usp: Consumer)

  const EMPTY := Entry(0, 0, Null)

  const EINPROGRESS := 115

  const MAX_PROBES: nat := 100

  /** What the kernel does for one visited symbol: whether memory is left, and `uprobe_register`'s result. */
  datatype Service = Service(memory: bool, ret: int)

  predicate Accepted(s: Service) {
    s.memory && (s.ret == 0 || s.ret == -EINPROGRESS)
  }

  class Kernel {
    var registry: set<Entry>
    /** Number of consumers allocated so far. */
    var issued: nat

    constructor ()
      ensures registry == {} && issued == 0
    {
      registry, issued := {}, 0;
    }

    /** Only allocated consumers are registered. */
    ghost predicate Valid()
      reads this
    {
      forall e :: e in registry ==> Issued(e.usp, issued)
    }

    method Kzalloc(memory: bool, handler: Handler) returns (usp: Consumer)
      modifies this`issued
      ensures usp == if memory then Consumer(old(issued), handler) else Null
      ensures issued == if memory then old(issued) + 1 else old(issued)
    {
      if !memory {
        return Null;
      }
      usp := Consumer(issued, handler);
      issued := issued + 1;
    }

    method UprobeRegister(e: Entry, ret: int)
      modifies this`registry
      ensures registry == old(registry) + if ret == 0 || ret == -EINPROGRESS then {e} else {}
    {
      if ret == 0 || ret == -EINPROGRESS {
        registry := registry + {e};
      }
    }

    method UprobeUnregister(e: Entry)
      modifies this`registry
      ensures registry == old(registry) - {e}
    {
      registry := registry - {e};
    }
  }

  predicate Issued(usp: Consumer, issued: nat) {
    usp.Consumer? && usp.id < issued
  }

  predicate AcceptedUpTo(services: seq<Service>, n: nat)
    requires n <= |services|
  {
    forall k :: 0 <= k < n ==> Accepted(services[k])
  }

  /** How many visits are registered: those before the first failure. */
  function Prefix(services: seq<Service>): (n: nat)
    ensures n <= |services| && AcceptedUpTo(services, n)
    ensures n < |services| ==> !Accepted(services[n])
  {
    if services == [] || !Accepted(services[0]) then 0 else 1 + Prefix(services[1..])
  }

  function ToSet(s: seq<Entry>): set<Entry> {
    set e | e in s
  }

  const GLOB: CString := "_probe"

  function Visits(symbols: seq<Symbol>): seq<nat> {
    Matches(symbols, Pattern(GLOB), 0)
  }

  lemma VisitsInRange(symbols: seq<Symbol>)
    ensures forall k :: 0 <= k < |Visits(symbols)| ==> Visits(symbols)[k] < |symbols|
  {
    MatchesExact(symbols, Pattern(GLOB), 0);
    forall k | 0 <= k < |Visits(symbols)|
      ensures Visits(symbols)[k] < |symbols|
    {
      assert Visits(symbols)[k] in Visits(symbols);
    }
  }

  datatype Point = Point(inode: Inode, offset: int)

  /** The probe point that a visit of symbol `i` looks up. */
  function PointOf(symbols: seq<Symbol>, kernPath: map<CString, Inode>, i: nat): Point
    requires i < |symbols|
  {
    Point(InodeOf(symbols, symbols[i].name, kernPath), OffsetOf(symbols, symbols[i].name))
  }

  /** The probe points of the first `n` visits. */
  function PointsOf(symbols: seq<Symbol>, kernPath: map<CString, Inode>, n: nat): (points: seq<Point>)
    requires n <= |Visits(symbols)|
    ensures |points| == n
  {
    VisitsInRange(symbols);
    if n == 0 then []
    else PointsOf(symbols, kernPath, n - 1) + [PointOf(symbols, kernPath, Visits(symbols)[n - 1])]
  }

  lemma {:induction false} PointAt(symbols: seq<Symbol>, kernPath: map<CString, Inode>, n: nat, k: nat)
    requires k < n <= |Visits(symbols)|
    ensures Visits(symbols)[k] < |symbols|
    ensures PointsOf(symbols, kernPath, n)[k] == PointOf(symbols, kernPath, Visits(symbols)[k])
    decreases n
  {
    VisitsInRange(symbols);
    if k < n - 1 {
      PointAt(symbols, kernPath, n - 1, k);
    }
  }

  function Points(symbols: seq<Symbol>, kernPath: map<CString, Inode>): (points: seq<Point>)
    ensures |points| == |Visits(symbols)|
  {
    PointsOf(symbols, kernPath, |Visits(symbols)|)
  }

  /** The entry of visit `k`, when consumer ids start at `base`. */
  function EntryFor(points: seq<Point>, base: nat, k: nat): Entry
    requires k < |points|
  {
    Entry(points[k].inode, points[k].offset, Consumer(base + k, Counting))
  }

  /** The entries of the first `n` visits. */
  function Entries(points: seq<Point>, base: nat, n: nat): (r: seq<Entry>)
    requires n <= |points|
    ensures |r| == n
  {
    if n == 0 then [] else Entries(points, base, n - 1) + [EntryFor(points, base, n - 1)]
  }

  /** The table and the registry. */
  datatype State = State(probes: seq<Entry>, registry: set<Entry>)

  /** `entries` were recorded at the front of the table and added to the registry. */
  ghost predicate After(start: State, now: State, entries: seq<Entry>) {
    && |entries| <= |start.probes| && now.probes == entries + start.probes[|entries|..]
    && now.registry == start.registry + ToSet(entries) && ToSet(entries) !! start.registry
  }

  /** What became of a visit; `Outside`: registered, but there is no entry left to record it in. */
  datatype Visited = Recorded | Refused | Outside

  class Table {
    const probes: array<Entry>
    var numRegProbes: nat

    constructor ()
      ensures fresh(probes) && probes.Length == MAX_PROBES && numRegProbes == 0
      ensures forall k :: 0 <= k < MAX_PROBES ==> probes[k] == EMPTY
    {
      probes := new Entry[MAX_PROBES](_ => EMPTY);
      numRegProbes := 0;
    }

    /** Nothing in the table, its unused end included, is registered. */
    ghost predicate Idle(kernel: Kernel)
      reads this, probes, kernel
    {
      forall k :: 0 <= k < probes.Length ==> probes[k] !in kernel.registry
    }

    /** The first `n` visits are registered and recorded, and nothing else has changed since `start`. */
    ghost predicate Filled(kernel: Kernel, points: seq<Point>, base: nat, start: State, n: nat)
      reads this, probes, kernel
    {
      && kernel.Valid() && numRegProbes == n <= |points| && probes.Length == |start.probes| == MAX_PROBES
      && After(start, State(probes[..], kernel.registry), Entries(points, base, n))
    }

    /** The table is full, and one more visit than it holds is registered. */
    ghost predicate Overflown(kernel: Kernel, points: seq<Point>, base: nat, start: State)
      reads this, probes, kernel
    {
      && kernel.Valid() && numRegProbes == MAX_PROBES < |points|
      && probes[..] == Entries(points, base, MAX_PROBES)
      && kernel.registry == start.registry + ToSet(Entries(points, base, MAX_PROBES + 1))
    }

    /** The consumer of a visit is allocated, its point looked up and the registration requested. */
    method Request(kernel: Kernel, symbols: seq<Symbol>, kernPath: map<CString, Inode>, name: CString, service: Service)
      returns (e: Entry, accepted: bool)
      requires kernel.Valid()
      modifies kernel
      ensures kernel.Valid() && kernel.issued == old(kernel.issued) + if service.memory then 1 else 0
      ensures accepted == Accepted(service)
      ensures kernel.registry == old(kernel.registry) + if accepted then {e} else {}
      ensures accepted ==> e == Entry(InodeOf(symbols, name, kernPath), OffsetOf(symbols, name),
                                      Consumer(old(kernel.issued), Counting))
    {
      var usp := kernel.Kzalloc(service.memory, Counting);
      if usp == Null {
        return EMPTY, false;
      }
      var inode := FindInode(symbols, name, kernPath);
      var offset := FindOffset(symbols, name);
      e := Entry(inode, offset, usp);
      kernel.UprobeRegister(e, service.ret);
      accepted := service.ret == 0 || service.ret == -EINPROGRESS;
    }

    /**
      One visit: an accepted registration is recorded. With a full table there is no check, and the
      record would be stored behind it.
     */
    method RegisterOne(kernel: Kernel, symbols: seq<Symbol>, kernPath: map<CString, Inode>, name: CString,
                       service: Service, ghost points: seq<Point>, ghost base: nat, ghost start: State)
      returns (r: Visited)
      requires Filled(kernel, points, base, start, numRegProbes) && kernel.issued == base + numRegProbes
      requires numRegProbes < |points|
      requires points[numRegProbes] == Point(InodeOf(symbols, name, kernPath), OffsetOf(symbols, name))
      modifies this, probes, kernel
      ensures r == if !Accepted(service) then Refused else if old(numRegProbes) < MAX_PROBES then Recorded else Outside
      ensures kernel.issued >= old(kernel.issued)
      ensures numRegProbes == old(numRegProbes) + if r == Recorded then 1 else 0
      ensures r != Outside ==> Filled(kernel, points, base, start, numRegProbes)
      ensures r == Recorded ==> kernel.issued == base + numRegProbes
      ensures r == Outside ==> Overflown(kernel, points, base, start)
    {
      ghost var now, n := State(probes[..], kernel.registry), numRegProbes;
      var e, accepted := Request(kernel, symbols, kernPath, name, service);
      if !accepted {
        return Refused;
      }
      if numRegProbes == probes.Length {
        OneTooMany(start, now, Entries(points, base, n), EntryFor(points, base, n));
        return Outside;
      }
      probes[numRegProbes] := e;
      numRegProbes := numRegProbes + 1;
      AfterOne(start, now, Entries(points, base, n), EntryFor(points, base, n));
      assert probes[..] == now.probes[n := EntryFor(points, base, n)];
      return Recorded;
    }

    /** The loop's body and step: the visit, and on to the next match unless it failed. */
    method Visit(kernel: Kernel, symbols: seq<Symbol>, kernPath: map<CString, Inode>, glob: CString, cursor: Cursor,
                 name: CString, service: Service, ghost points: seq<Point>, ghost base: nat, ghost start: State)
      returns (found: Found, r: Visited)
      requires Filled(kernel, points, base, start, numRegProbes) && kernel.issued == base + numRegProbes
      requires glob == GLOB && points == Points(symbols, kernPath)
      requires cursor.Stands(symbols, Pattern(glob), Name(name))
      requires At(Visits(symbols), numRegProbes, symbols, Pattern(glob), cursor.next)
      modifies this, probes, kernel, cursor
      ensures r == if !Accepted(service) then Refused else if old(numRegProbes) < MAX_PROBES then Recorded else Outside
      ensures kernel.issued >= old(kernel.issued)
      ensures numRegProbes == old(numRegProbes) + if r == Recorded then 1 else 0
      ensures r != Outside ==> Filled(kernel, points, base, start, numRegProbes)
      ensures r == Recorded ==> kernel.issued == base + numRegProbes
      ensures r == Outside ==> Overflown(kernel, points, base, start)
      ensures r == Recorded ==> cursor.Stands(symbols, Pattern(glob), found) && cursor.next > old(cursor.next)
      ensures r == Recorded ==> At(Visits(symbols), numRegProbes, symbols, Pattern(glob), cursor.next)
    {
      found := EndOfList;
      NextVisit(Visits(symbols), numRegProbes, symbols, Pattern(glob), cursor.next);
      PointAt(symbols, kernPath, |points|, numRegProbes);
      r := RegisterOne(kernel, symbols, kernPath, name, service, points, base, start);
      if r == Recorded {
        found := NextFound(symbols, glob, cursor, numRegProbes);
      }
    }

    /**
      Records exactly the visits that were registered, and leaves at the first failure. `outside`:
      more visits than the table holds were accepted, and the next record would be stored behind it.
     */
    method RegisterAll(kernel: Kernel, symbols: seq<Symbol>, kernPath: map<CString, Inode>, services: seq<Service>)
      returns (outside: bool)
      requires probes.Length == MAX_PROBES && |services| == |Visits(symbols)| && kernel.Valid()
      modifies this, probes, kernel
      ensures kernel.issued >= old(kernel.issued)
      ensures outside <==> Prefix(services) > MAX_PROBES
      ensures !outside ==>
                Filled(kernel, Points(symbols, kernPath), old(kernel.issued), old(State(probes[..], kernel.registry)),
                       Prefix(services))
      ensures outside ==>
                Overflown(kernel, Points(symbols, kernPath), old(kernel.issued),
                          old(State(probes[..], kernel.registry)))
    {
      ghost var points, base, start := Points(symbols, kernPath), kernel.issued, State(probes[..], kernel.registry);
      var glob: CString := GLOB;
      numRegProbes := 0;
      var cursor := new Cursor();
      var found := cursor.Advance(symbols, glob);
      while found.Name?
        invariant Filled(kernel, points, base, start, numRegProbes) && kernel.issued == base + numRegProbes
        invariant cursor.Stands(symbols, Pattern(glob), found)
        invariant At(Visits(symbols), numRegProbes, symbols, Pattern(glob), cursor.next)
        invariant AcceptedUpTo(services, numRegProbes)
        decreases |symbols| - cursor.next
      {
        InReach(Visits(symbols), numRegProbes, symbols, Pattern(glob), cursor.next);
        ghost var n := numRegProbes;
        var r: Visited;
        found, r := Visit(kernel, symbols, kernPath, glob, cursor, found.name, services[numRegProbes], points, base,
                          start);
        if r == Refused {
          PrefixIs(services, n);
          return false;
        }
        AcceptedNext(services, n);
        if r == Outside {
          PrefixAtLeast(services, n + 1);
          return true;
        }
      }
      PrefixIs(services, numRegProbes);
      return false;
    }

    /**
      Takes out every recorded entry, and the one after the last. `outside`: the loop's index has
      left the table.
     */
    method UnregisterAll(kernel: Kernel) returns (outside: bool)
      requires probes.Length == MAX_PROBES && numRegProbes <= MAX_PROBES
      modifies kernel
      ensures outside <==> numRegProbes == MAX_PROBES
      ensures kernel.registry ==
              old(kernel.registry) - ToSet(if outside then probes[..] else probes[..numRegProbes + 1])
      ensures kernel.issued == old(kernel.issued)
    {
      var i := 0;
      while i <= numRegProbes
        invariant i <= numRegProbes + 1 && i <= probes.Length && kernel.issued == old(kernel.issued)
        invariant kernel.registry == old(kernel.registry) - ToSet(probes[..i])
      {
        if i == probes.Length {
          assert probes[..i] == probes[..];
          return true;
        }
        assert probes[..i + 1] == probes[..i] + [probes[i]];
        ToSetAppend(probes[..i], probes[i]);
        kernel.UprobeUnregister(probes[i]);
        i := i + 1;
      }
      return false;
    }

    /**
      A registered round followed by its removal leaves the registry as it was, and reads and
      writes only the table, unless the kernel accepted as many visits as the table has entries.
     */
    method Round(kernel: Kernel, symbols: seq<Symbol>, kernPath: map<CString, Inode>, services: seq<Service>)
      returns (outside: bool)
      requires probes.Length == MAX_PROBES && kernel.Valid() && Idle(kernel) && |services| == |Visits(symbols)|
      modifies this, probes, kernel
      ensures outside <==> Prefix(services) >= MAX_PROBES
      ensures Prefix(services) <= MAX_PROBES ==>
                && kernel.Valid() && Idle(kernel) && kernel.registry == old(kernel.registry)
                && numRegProbes == Prefix(services)
    {
      ghost var start, base := State(probes[..], kernel.registry), kernel.issued;
      outside := RegisterAll(kernel, symbols, kernPath, services);
      if !outside {
        Conserved(start, State(probes[..], kernel.registry), Entries(Points(symbols, kernPath), base, numRegProbes));
        ghost var table := probes[..];
        outside := UnregisterAll(kernel);
        assert probes[..] == table;
      }
    }

    /**
      Any number of alternating rounds, each with its own failures, then the removal that
      `cleanup_module` does once more: the registry is as it was before the first round. It stops
      where the table is left.
     */
    method RoundsAndCleanup(kernel: Kernel, symbols: seq<Symbol>, kernPath: map<CString, Inode>,
                            rounds: seq<seq<Service>>)
      returns (outside: bool)
      requires probes.Length == MAX_PROBES && numRegProbes < MAX_PROBES && kernel.Valid() && Idle(kernel)
      requires forall r :: 0 <= r < |rounds| ==> |rounds[r]| == |Visits(symbols)|
      modifies this, probes, kernel
      ensures outside <==> exists r :: 0 <= r < |rounds| && Prefix(rounds[r]) >= MAX_PROBES
      ensures !outside ==> kernel.Valid() && Idle(kernel) && kernel.registry == old(kernel.registry)
    {
      var r := 0;
      while r < |rounds|
        invariant r <= |rounds| && numRegProbes < MAX_PROBES
        invariant forall k :: 0 <= k < r ==> Prefix(rounds[k]) < MAX_PROBES
        invariant kernel.Valid() && Idle(kernel) && kernel.registry == old(kernel.registry)
      {
        outside := Round(kernel, symbols, kernPath, rounds[r]);
        if outside {
          return;
        }
        r := r + 1;
      }
      outside := UnregisterAll(kernel);
    }
  }

  /** On to the next match behind visit `n`. */
  method NextFound(symbols: seq<Symbol>, glob: CString, cursor: Cursor, ghost n: nat) returns (found: Found)
    requires cursor.next < |symbols| && At(Visits(symbols), n, symbols, Pattern(glob), cursor.next + 1)
    modifies cursor
    ensures cursor.Stands(symbols, Pattern(glob), found) && cursor.next > old(cursor.next)
    ensures At(Visits(symbols), n, symbols, Pattern(glob), cursor.next)
  {
    ghost var next := cursor.next + 1;
    cursor.next := cursor.next + 1;
    found := cursor.Advance(symbols, glob);
    SkippedOn(Visits(symbols), n, symbols, Pattern(glob), next, cursor.next);
  }

  lemma ToSetAppend(s: seq<Entry>, e: Entry)
    ensures ToSet(s + [e]) == ToSet(s) + {e}
  {
  }

  lemma AfterForm(start: State, now: State, entries: seq<Entry>)
    requires After(start, now, entries)
    ensures now.probes[..|entries|] == entries && now.probes[|entries|..] == start.probes[|entries|..]
    ensures ToSet(entries) !! start.registry
  {
  }

  lemma AfterOne(start: State, now: State, entries: seq<Entry>, e: Entry)
    requires After(start, now, entries) && |entries| < |start.probes| && e !in now.registry
    ensures After(start, State(now.probes[|entries| := e], now.registry + {e}), entries + [e])
  {
  }

  /** `n` visits are behind the cursor, the others ahead of it. */
  ghost predicate At(visits: seq<nat>, n: nat, symbols: seq<Symbol>, pattern: string, next: nat) {
    n <= |visits| && visits[n..] == Matches(symbols, pattern, next)
  }

  lemma NextVisit(visits: seq<nat>, n: nat, symbols: seq<Symbol>, pattern: string, next: nat)
    requires IsMatch(symbols, pattern, next) && At(visits, n, symbols, pattern, next)
    ensures n < |visits| && visits[n] == next && At(visits, n + 1, symbols, pattern, next + 1)
  {
  }

  lemma SkippedOn(visits: seq<nat>, n: nat, symbols: seq<Symbol>, pattern: string, next: nat, later: nat)
    requires At(visits, n, symbols, pattern, next)
    requires Matches(symbols, pattern, later) == Matches(symbols, pattern, next)
    ensures At(visits, n, symbols, pattern, later)
  {
  }

  lemma AcceptedNext(services: seq<Service>, n: nat)
    requires n < |services| && AcceptedUpTo(services, n) && Accepted(services[n])
    ensures AcceptedUpTo(services, n + 1)
  {
  }

  /** The table is full, and the next entry goes only into the registry. */
  lemma OneTooMany(start: State, now: State, entries: seq<Entry>, e: Entry)
    requires After(start, now, entries) && |entries| == |start.probes|
    ensures now.probes == entries && now.registry + {e} == start.registry + ToSet(entries + [e])
  {
    ToSetAppend(entries, e);
  }

  /** Taking out the recorded entries and the next one, if there is one, leaves what was registered before them. */
  lemma Conserved(start: State, now: State, entries: seq<Entry>)
    requires After(start, now, entries)
    requires forall k :: 0 <= k < |start.probes| ==> start.probes[k] !in start.registry
    ensures |entries| < |now.probes| ==> now.registry - ToSet(now.probes[..|entries| + 1]) == start.registry
    ensures |entries| == |now.probes| ==> now.registry - ToSet(now.probes) == start.registry
    ensures forall k :: 0 <= k < |now.probes| ==> now.probes[k] !in start.registry
  {
    var n := |entries|;
    if n < |now.probes| {
      assert now.probes[..n + 1] == entries + [start.probes[n]];
      ToSetAppend(entries, start.probes[n]);
    } else {
      assert now.probes == entries;
    }
    forall k | 0 <= k < |now.probes|
      ensures now.probes[k] !in start.registry
    {
      assert k < n ==> now.probes[k] in ToSet(entries);
      assert k >= n ==> now.probes[k] == start.probes[k];
    }
  }

  lemma InReach(visits: seq<nat>, n: nat, symbols: seq<Symbol>, pattern: string, next: nat)
    requires IsMatch(symbols, pattern, next) && At(visits, n, symbols, pattern, next)
    ensures n < |visits|
  {
  }

  lemma {:induction false} PrefixIs(services: seq<Service>, n: nat)
    requires n <= |services| && AcceptedUpTo(services, n) && (n < |services| ==> !Accepted(services[n]))
    ensures Prefix(services) == n
    decreases |services|
  {
  }

  lemma {:induction false} PrefixAtLeast(services: seq<Service>, n: nat)
    requires n <= |services| && AcceptedUpTo(services, n)
    ensures Prefix(services) >= n
    decreases n
  {
    if n == 0 {
    } else {
      assert Accepted(services[0]);
      assert forall k :: 0 <= k < n - 1 ==> services[1..][k] == services[k + 1];
      PrefixAtLeast(services[1..], n - 1);
    }
  }

  /** A round leaves the table exactly when there are 100 matches or more and the first 100 are all accepted. */
  lemma OutsideExactly(services: seq<Service>)
    ensures Prefix(services) >= MAX_PROBES <==> |services| >= MAX_PROBES && AcceptedUpTo(services, MAX_PROBES)
  {
    if |services| >= MAX_PROBES && AcceptedUpTo(services, MAX_PROBES) {
      PrefixAtLeast(services, MAX_PROBES);
    }
  }

  lemma {:induction false} AllMatch(symbols: seq<Symbol>, pattern: string, from: nat)
    requires from <= |symbols| && forall i :: 0 <= i < |symbols| ==> IsMatch(symbols, pattern, i)
    ensures |Matches(symbols, pattern, from)| == |symbols| - from
    decreases |symbols| - from
  {
    if from == |symbols| {
    } else {
      AllMatch(symbols, pattern, from + 1);
    }
  }

  /** A table of 100 symbols that all match, all of them accepted, on a machine that resolves no path. */
  method FullTable() returns (outside: bool)
    ensures outside
  {
    var glob: CString := GLOB;
    var symbols := seq(MAX_PROBES, i => Symbol("", i, glob));
    var services := seq(MAX_PROBES, _ => Service(true, 0));
    VisitsExactly(symbols, glob);
    assert forall i :: 0 <= i < |symbols| ==> IsMatch(symbols, glob, i);
    AllMatch(symbols, Pattern(glob), 0);
    OutsideExactly(services);
    var kernel := new Kernel();
    var table := new Table();
    outside := table.Round(kernel, symbols, map[], services);
  }

  lemma {:induction false} EntriesAt(points: seq<Point>, base: nat, n: nat, k: nat)
    requires k < n <= |points|
    ensures Entries(points, base, n)[k] == EntryFor(points, base, k)
    decreases n
  {
    if k < n - 1 {
      EntriesAt(points, base, n - 1, k);
    }
  }

  /** The matches are the symbols whose names start with `_probe`. */
  lemma ProbesMatch(symbols: seq<Symbol>)
    ensures forall i :: i in Visits(symbols) <==> 0 <= i < |symbols| && "_probe" <= symbols[i].name
  {
    VisitsExactly(symbols, GLOB);
  }

  /** With unique names the `k`th entry is the `k`th matching symbol's own probe point. */
  lemma RecordedPoint(symbols: seq<Symbol>, kernPath: map<CString, Inode>, base: nat, n: nat, k: nat)
    requires UniqueNames(symbols) && k < n <= |Visits(symbols)|
    ensures var i := Visits(symbols)[k];
            && i < |symbols| && "_probe" <= symbols[i].name
            && var inode := if symbols[i].path in kernPath then kernPath[symbols[i].path] else 0;
            Entries(Points(symbols, kernPath), base, n)[k]
            == Entry(inode, symbols[i].offset, Consumer(base + k, Counting))
  {
    EntriesAt(Points(symbols, kernPath), base, n, k);
    PointAt(symbols, kernPath, |Visits(symbols)|, k);
    ProbesMatch(symbols);
    assert Visits(symbols)[k] in Visits(symbols);
    VisitsOwnPoint(symbols, Visits(symbols)[k], kernPath);
  }
}
