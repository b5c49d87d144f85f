/**
  The two-counter handshake between the kernel handler (include/u_mod_common.h) and
  the probed user functions (include/u_test_common.h).

  A slot belongs to one user thread, and the handlers of a hit run in that thread before the
  probed function's first instruction, so nothing interleaves with the accesses to one slot.
 */
module Handshake {
  import opened Words

  datatype Slot = Slot(utid: int, ktid: int, ucount: Word, kcount: Word)

  const FRESH := Slot(0, 0, MINUS_ONE, MINUS_ONE)

  const NUM_PROBES: nat := 10

  /** The slot after one run of `probe_handler` in thread `pid`. */
  function Handled(s: Slot, pid: int): Slot {
    Slot(s.utid, pid, if s.kcount == MINUS_ONE then MINUS_ONE else s.ucount, Succ(s.kcount))
  }

  /** The slot after `c` consumers of the same probe point ran `probe_handler`. */
  function HandledTimes(s: Slot, pid: int, c: nat): Slot {
    if c == 0 then s else Handled(HandledTimes(s, pid, c - 1), pid)
  }

  /** The slot after the wrapper `probe_N` claimed it for its thread. */
  function Entered(s: Slot, tid: int): Slot {
    if s.utid == 0 then s.(utid := tid) else s
  }

  /** The slot after the body of `_probe_N` counted the call. */
  function Bumped(s: Slot): Slot {
    s.(ucount := Succ(s.ucount))
  }

  /** What `_probe_N` returns once it counted the call. */
  function Verdict(s: Slot): int {
    if s.kcount == MINUS_ONE || s.kcount == s.ucount then ToInt(s.kcount) else -2
  }

  /** The slot after one call of `probe_N` whose entry ran `c` counting handlers. */
  function AfterCall(s: Slot, tid: int, c: nat): Slot {
    Bumped(HandledTimes(Entered(s, tid), tid, c))
  }

  /** The slot after a schedule of calls; entry `i` is the number of handlers run by call `i`. */
  function Calls(s: Slot, tid: int, schedule: seq<nat>): Slot {
    if schedule == [] then s
    else AfterCall(Calls(s, tid, schedule[..|schedule| - 1]), tid, schedule[|schedule| - 1])
  }

  // ---------- The code, on the shared table ----------

  datatype CallResult = WrongTid | Returned(verdict: int)

  class KernelModule {
    var numProbes: Word
    /** Set once the handler found that the user's and the kernel's thread ids differ. */
    var mismatch: bool

    constructor ()
      ensures numProbes == 0 && !mismatch
    {
      numProbes, mismatch := 0, false;
    }

    method ProbeHandler(table: array<Slot>, j: nat, pid: int)
      requires j < table.Length
      modifies this, table
      ensures table[..] == old(table[..])[j := Handled(old(table[j]), pid)]
      ensures numProbes == Succ(old(numProbes))
      ensures mismatch == (old(mismatch) || old(table[j].utid) != pid)
    {
      table[j] := table[j].(ktid := pid);
      if table[j].utid != pid {
        mismatch := true;
      }
      var kcount := table[j].kcount;
      if kcount == MINUS_ONE {
        table[j] := table[j].(ucount := kcount);
      }
      kcount := Succ(kcount);
      table[j] := table[j].(kcount := kcount);
      numProbes := Succ(numProbes);
    }

    /** The breakpoint on `_probe_N`: its consumers run one after the other. */
    method Trap(table: array<Slot>, j: nat, tid: int, consumers: nat)
      requires j < table.Length && table[j].utid == tid
      modifies this, table
      ensures table[..] == old(table[..])[j := HandledTimes(old(table[j]), tid, consumers)]
      ensures numProbes == (old(numProbes) + consumers) % WORD
      ensures mismatch == old(mismatch)
    {
      var k := 0;
      while k < consumers
        invariant k <= consumers
        invariant table[..] == old(table[..])[j := HandledTimes(old(table[j]), tid, k)]
        invariant table[j].utid == tid
        invariant numProbes == (old(numProbes) + k) % WORD
        invariant mismatch == old(mismatch)
      {
        assert table[j] == table[..][j];
        SuccMod(old(numProbes) + k);
        ProbeHandler(table, j, tid);
        assert table[j] == table[..][j];
        k := k + 1;
      }
    }

    /** `probe_N` and `_probe_N`, with `consumers` counting handlers on the probe point. */
    method Probe(table: array<Slot>, j: nat, tid: int, consumers: nat) returns (r: CallResult)
      requires j < table.Length && tid != 0
      modifies this, table
      ensures r == WrongTid <==> old(table[j].utid) != 0 && old(table[j].utid) != tid
      ensures r == WrongTid ==>
                table[..] == old(table[..]) && numProbes == old(numProbes) && mismatch == old(mismatch)
      ensures r.Returned? ==>
                && table[..] == old(table[..])[j := AfterCall(old(table[j]), tid, consumers)]
                && r.verdict == Verdict(AfterCall(old(table[j]), tid, consumers))
                && numProbes == (old(numProbes) + consumers) % WORD
                && mismatch == old(mismatch)
    {
      if table[j].utid != 0 {
        if table[j].utid != tid {
          return WrongTid;
        }
      } else {
        table[j] := table[j].(utid := tid);
      }
      Trap(table, j, tid, consumers);
      table[j] := table[j].(ucount := Succ(table[j].ucount));
      var ucount := table[j].ucount;
      var kcount := table[j].kcount;
      if kcount == MINUS_ONE || kcount == ucount {
        return Returned(ToInt(kcount));
      }
      return Returned(-2);
    }
  }

  /** BUILD_PROBE_TABLE. */
  method BuildProbeTable(size: nat) returns (table: array<Slot>)
    ensures fresh(table) && table.Length == size
    ensures forall j :: 0 <= j < size ==> table[j] == FRESH
  {
    table := new Slot[size](_ => Slot(0, 0, 0, 0));
    for j := 0 to size
      invariant forall i :: 0 <= i < j ==> table[i] == FRESH
    {
      table[j] := table[j].(kcount := MINUS_ONE);
      table[j] := table[j].(ucount := MINUS_ONE);
      table[j] := table[j].(utid := 0);
      table[j] := table[j].(ktid := 0);
    }
  }

  // ---------- The closed form of the two counters ----------

  /** Handler runs over a whole schedule. */
  function Total(schedule: seq<nat>): nat {
    if schedule == [] then 0 else Total(schedule[..|schedule| - 1]) + schedule[|schedule| - 1]
  }

  /** Calls made since the first one that ran a handler, that one included. */
  function Since(schedule: seq<nat>): nat {
    if Total(schedule) == 0 then 0 else Since(schedule[..|schedule| - 1]) + 1
  }

  lemma SuccBelow(w: Word)
    ensures Succ(w) == if w == MINUS_ONE then 0 else w + 1
  {
  }

  lemma {:induction false} HandledTimesForm(s: Slot, pid: int, c: nat)
    requires 1 <= c < WORD && (s.kcount == MINUS_ONE || s.kcount + c < MINUS_ONE)
    ensures HandledTimes(s, pid, c) ==
            if s.kcount == MINUS_ONE then Slot(s.utid, pid, MINUS_ONE, c - 1)
            else Slot(s.utid, pid, s.ucount, s.kcount + c)
  {
    SuccBelow(s.kcount);
    if c == 1 {
      assert HandledTimes(s, pid, 0) == s;
    } else {
      HandledTimesForm(s, pid, c - 1);
      SuccBelow(HandledTimes(s, pid, c - 1).kcount);
    }
  }

  /** One call below the wrap: a first hit restarts the user's counter. */
  lemma AfterCallForm(s: Slot, tid: int, c: nat)
    requires tid != 0 && s.utid in {0, tid}
    requires c < WORD && (s.kcount == MINUS_ONE || s.kcount + c < MINUS_ONE)
    ensures AfterCall(s, tid, c) ==
            if c == 0 then Slot(tid, s.ktid, Succ(s.ucount), s.kcount)
            else if s.kcount == MINUS_ONE then Slot(tid, tid, 0, c - 1)
            else Slot(tid, tid, Succ(s.ucount), s.kcount + c)
  {
    if c > 0 {
      HandledTimesForm(Entered(s, tid), tid, c);
    }
  }

  /** Both counters after any schedule, as long as neither wraps. */
  lemma {:induction false} CallsForm(tid: int, schedule: seq<nat>)
    requires tid != 0 && schedule != []
    requires Total(schedule) < WORD && |schedule| < WORD
    ensures Since(schedule) <= |schedule|
    ensures Calls(FRESH, tid, schedule) ==
            if Total(schedule) == 0 then Slot(tid, 0, |schedule| - 1, MINUS_ONE)
            else Slot(tid, tid, Since(schedule) - 1, Total(schedule) - 1)
    decreases |schedule|
  {
    var n := |schedule| - 1;
    var before, c := schedule[..n], schedule[n];
    if n > 0 {
      CallsForm(tid, before);
    }
    AfterCallForm(Calls(FRESH, tid, before), tid, c);
    SuccBelow(Calls(FRESH, tid, before).ucount);
  }

  /**
    The exact verdict of the last call, for every schedule of calls and of consumers per call
    that stays below the counter wrap.
   */
  lemma VerdictExact(tid: int, schedule: seq<nat>)
    requires tid != 0 && schedule != []
    requires Total(schedule) < WORD && |schedule| < WORD
    ensures Verdict(Calls(FRESH, tid, schedule)) ==
            if Total(schedule) == 0 then -1
            else if Total(schedule) != Since(schedule) then -2
            else if Total(schedule) <= HALF then Total(schedule) - 1
            else Total(schedule) - 1 - WORD
  {
    CallsForm(tid, schedule);
  }

  ghost predicate HitOrMiss(schedule: seq<nat>) {
    forall i :: 0 <= i < |schedule| ==> schedule[i] <= 1
  }

  ghost predicate MissedAfterHit(schedule: seq<nat>) {
    exists i, j :: 0 <= i < j < |schedule| && schedule[i] != 0 && schedule[j] == 0
  }

  lemma {:induction false} NoHit(schedule: seq<nat>)
    ensures Total(schedule) == 0 <==> forall i :: 0 <= i < |schedule| ==> schedule[i] == 0
    decreases |schedule|
  {
    if schedule == [] {
    } else {
      var n := |schedule| - 1;
      NoHit(schedule[..n]);
      assert forall i :: 0 <= i < n ==> schedule[..n][i] == schedule[i];
    }
  }

  lemma {:induction false} HitsSinceFirst(schedule: seq<nat>)
    requires HitOrMiss(schedule)
    ensures Total(schedule) <= Since(schedule) <= |schedule|
    ensures Total(schedule) == Since(schedule) <==> !MissedAfterHit(schedule)
    decreases |schedule|
  {
    if schedule == [] {
    } else {
      var n := |schedule| - 1;
      var before := schedule[..n];
      assert forall i :: 0 <= i < n ==> before[i] == schedule[i];
      HitsSinceFirst(before);
      NoHit(before);
      if MissedAfterHit(before) {
        var i, j :| 0 <= i < j < |before| && before[i] != 0 && before[j] == 0;
        assert schedule[i] != 0 && schedule[j] == 0;
      } else if Total(before) > 0 && schedule[n] == 0 {
        var i :| 0 <= i < n && before[i] != 0;
        assert schedule[i] != 0 && schedule[n] == 0;
      }
    }
  }

  /** One consumer: the verdict tells "not counting", "counted every call" and "lost a call" apart. */
  lemma HitMissVerdict(tid: int, schedule: seq<nat>)
    requires tid != 0 && schedule != [] && HitOrMiss(schedule) && |schedule| <= HALF
    ensures Verdict(Calls(FRESH, tid, schedule)) ==
            if forall i :: 0 <= i < |schedule| ==> schedule[i] == 0 then -1
            else if MissedAfterHit(schedule) then -2
            else Total(schedule) - 1
  {
    NoHit(schedule);
    HitsSinceFirst(schedule);
    VerdictExact(tid, schedule);
  }

  /** `n` calls with `c` handlers each. */
  function Repeat(c: nat, n: nat): (r: seq<nat>)
    ensures |r| == n && forall i :: 0 <= i < n ==> r[i] == c
  {
    seq(n, _ => c)
  }

  lemma {:induction false} RepeatTotals(c: nat, n: nat)
    ensures Total(Repeat(c, n)) == c * n
    ensures Since(Repeat(c, n)) == if c == 0 then 0 else n
  {
    if n == 0 {
    } else {
      RepeatTotals(c, n - 1);
      assert Repeat(c, n)[..n - 1] == Repeat(c, n - 1);
      assert c * n == c * (n - 1) + c;
      NoHit(Repeat(c, n));
      assert Repeat(c, n)[n - 1] == c;
    }
  }

  lemma MultipleOf(c: nat, h: nat)
    requires h >= 1
    ensures c == 0 ==> c * h == 0
    ensures c == 1 ==> c * h == h
    ensures c >= 2 ==> c * h >= 2 * h
  {
  }

  /** Only exactly one counting consumer per call satisfies the handshake. */
  lemma ConsumerMultiplicity(tid: int, c: nat, h: nat)
    requires tid != 0 && h >= 1 && c * h <= HALF
    ensures c >= 1 ==> var s := Calls(FRESH, tid, Repeat(c, h)); s.kcount == c * h - 1 && s.ucount == h - 1
    ensures Verdict(Calls(FRESH, tid, Repeat(c, h))) >= 0 <==> c == 1
  {
    if c == 0 {
      AllMiss(tid, h);
    } else {
      RepeatTotals(c, h);
      MultipleOf(c, h);
      CallsForm(tid, Repeat(c, h));
    }
  }

  /** A hit on agreeing counters leaves them agreeing, also when they wrap. */
  lemma AgreeingHit(s: Slot, tid: int)
    requires tid != 0 && s.utid in {0, tid} && s.ucount == s.kcount
    ensures AfterCall(s, tid, 1) == Slot(tid, tid, Succ(s.kcount), Succ(s.kcount))
  {
    assert HandledTimes(Entered(s, tid), tid, 0) == Entered(s, tid);
  }

  /** An all-hit run keeps the counters equal for ever, across every wrap of the word. */
  lemma {:induction false} AllHit(tid: int, n: nat)
    requires tid != 0 && n >= 1
    ensures Calls(FRESH, tid, Repeat(1, n)) == Slot(tid, tid, (n - 1) % WORD, (n - 1) % WORD)
    ensures Verdict(Calls(FRESH, tid, Repeat(1, n))) == ToInt((n - 1) % WORD)
  {
    assert Repeat(1, n)[..n - 1] == Repeat(1, n - 1);
    if n > 1 {
      AllHit(tid, n - 1);
    }
    AgreeingHit(Calls(FRESH, tid, Repeat(1, n - 1)), tid);
    SuccMod(n - 2);
  }

  /** A run without any handler reports "not counting" for ever. */
  lemma {:induction false} AllMiss(tid: int, n: nat)
    requires tid != 0 && n >= 1
    ensures Calls(FRESH, tid, Repeat(0, n)) == Slot(tid, 0, (n - 1) % WORD, MINUS_ONE)
    ensures Verdict(Calls(FRESH, tid, Repeat(0, n))) == -1
  {
    assert Repeat(0, n)[..n - 1] == Repeat(0, n - 1);
    if n > 1 {
      AllMiss(tid, n - 1);
    }
    SuccMod(n - 2);
  }
}
