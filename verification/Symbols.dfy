/**
  The generated symbol table and the loops over it (uprobes.w/symbols.h). A C string is a
  sequence of characters without the terminating NUL.
 */
module Symbols {
  type CString = s: string | '\0' !in s

  datatype Symbol = Symbol(path: CString, offset: int, name: CString)

  /** An inode's address; 0 is the null pointer. */
  type Inode = nat

  const GLOB_MAX: nat := 20

  // ---------- The C library's comparisons ----------

  /** The character at the front of a C string, its NUL included. */
  function Front(s: CString): int {
    if s == [] then 0 else s[0] as int
  }

  function Strncmp(a: CString, b: CString, n: nat): int {
    if n == 0 then 0
    else if Front(a) != Front(b) then Front(a) - Front(b)
    else if Front(a) == 0 then 0
    else Strncmp(a[1..], b[1..], n - 1)
  }

  function Strcmp(a: CString, b: CString): int {
    if Front(a) != Front(b) then Front(a) - Front(b)
    else if Front(a) == 0 then 0
    else Strcmp(a[1..], b[1..])
  }

  function Strnlen(s: CString, max: nat): nat {
    if |s| < max then |s| else max
  }

  lemma FrontIsZero(s: CString)
    ensures Front(s) == 0 <==> s == []
  {
  }

  /** At most the first `n` characters. */
  function Cut(s: CString, n: nat): string {
    s[..Strnlen(s, n)]
  }

  lemma CutOff(s: CString, n: nat)
    requires n > 0 && s != []
    ensures Cut(s, n) == [s[0]] + Cut(s[1..], n - 1) && Cut(s, n)[1..] == Cut(s[1..], n - 1)
  {
  }

  /** The bounded comparison looks at the first `n` characters of either string, and at nothing else. */
  lemma {:induction false} StrncmpExact(a: CString, b: CString, n: nat)
    ensures Strncmp(a, b, n) == 0 <==> Cut(a, n) == Cut(b, n)
    decreases n
  {
    FrontIsZero(a);
    FrontIsZero(b);
    if n == 0 {
    } else if a != [] && b != [] && a[0] == b[0] {
      StrncmpExact(a[1..], b[1..], n - 1);
      CutOff(a, n);
      CutOff(b, n);
    } else if a != [] && b != [] {
      assert Cut(a, n)[0] != Cut(b, n)[0];
    }
  }

  /** Up to the pattern's length it is a test for a prefix. */
  lemma CutIsPrefix(a: CString, b: CString, n: nat)
    requires n <= |b|
    ensures Cut(a, n) == Cut(b, n) <==> b[..n] <= a
  {
    if b[..n] <= a {
      assert a[..n] == b[..n];
    }
  }

  lemma {:induction false} StrcmpIsEquality(a: CString, b: CString)
    ensures Strcmp(a, b) == 0 <==> a == b
    decreases |a|
  {
    FrontIsZero(a);
    FrontIsZero(b);
    if a != [] && b != [] && a[0] == b[0] {
      StrcmpIsEquality(a[1..], b[1..]);
      assert a == [a[0]] + a[1..] && b == [b[0]] + b[1..];
    }
  }

  // ---------- The cursor ----------

  /** The pattern that `for_each_glob` really compares: at most its first twenty characters. */
  function Pattern(glob: CString): string {
    glob[..Strnlen(glob, GLOB_MAX)]
  }

  predicate IsMatch(symbols: seq<Symbol>, pattern: string, i: int) {
    0 <= i < |symbols| && pattern <= symbols[i].name
  }

  /** Symbol `i` and the pattern do not differ in their first `size` characters. */
  predicate Agrees(symbols: seq<Symbol>, glob: CString, size: nat, i: int) {
    0 <= i < |symbols| && Cut(symbols[i].name, size) == Cut(glob, size)
  }

  lemma AgreesIsMatch(symbols: seq<Symbol>, glob: CString)
    ensures forall i :: Agrees(symbols, glob, Strnlen(glob, GLOB_MAX), i) <==> IsMatch(symbols, Pattern(glob), i)
  {
    forall i | 0 <= i < |symbols|
      ensures Agrees(symbols, glob, Strnlen(glob, GLOB_MAX), i) <==> IsMatch(symbols, Pattern(glob), i)
    {
      CutIsPrefix(symbols[i].name, glob, Strnlen(glob, GLOB_MAX));
    }
  }

  /** The indices whose names start with the pattern, from `from` on. */
  function Matches(symbols: seq<Symbol>, pattern: string, from: nat): seq<nat>
    decreases |symbols| - from
  {
    if from >= |symbols| then []
    else if IsMatch(symbols, pattern, from) then [from] + Matches(symbols, pattern, from + 1)
    else Matches(symbols, pattern, from + 1)
  }

  /** They are increasing, so each is listed once, and they are all the matching indices. */
  lemma {:induction false} MatchesExact(symbols: seq<Symbol>, pattern: string, from: nat)
    ensures var m := Matches(symbols, pattern, from);
            && (forall k :: 0 <= k < |m| ==> from <= m[k])
            && (forall k, l :: 0 <= k < l < |m| ==> m[k] < m[l])
            && (forall i :: i in m <==> from <= i && IsMatch(symbols, pattern, i))
    decreases |symbols| - from
  {
    if from < |symbols| {
      MatchesExact(symbols, pattern, from + 1);
      var rest := Matches(symbols, pattern, from + 1);
      if IsMatch(symbols, pattern, from) {
        assert Matches(symbols, pattern, from) == [from] + rest;
      }
    }
  }

  lemma {:induction false} MatchesSkip(symbols: seq<Symbol>, pattern: string, from: nat, to: nat)
    requires from <= to <= |symbols| && forall i :: from <= i < to ==> !IsMatch(symbols, pattern, i)
    ensures Matches(symbols, pattern, from) == Matches(symbols, pattern, to)
    decreases |symbols| - from
  {
    if from < to {
      MatchesSkip(symbols, pattern, from + 1, to);
    }
  }

  datatype Found = Name(name: CString) | EndOfList

  class Cursor {
    var next: nat

    constructor ()
      ensures next == 0
    {
      next := 0;
    }

    /** The next match at or after the cursor, which is moved there; at the end it stays. */
    method GlobNames(symbols: seq<Symbol>, glob: CString, size: nat) returns (found: Found)
      modifies this
      ensures found.Name? ==>
                && old(next) <= next < |symbols| && found.name == symbols[next].name
                && Agrees(symbols, glob, size, next)
                && (forall i :: old(next) <= i < next ==> !Agrees(symbols, glob, size, i))
      ensures found.EndOfList? ==>
                next == old(next) && forall i :: next <= i < |symbols| ==> !Agrees(symbols, glob, size, i)
    {
      var i := next;
      while i < |symbols|
        invariant old(next) <= i && next == old(next)
        invariant forall j :: old(next) <= j < i ==> !Agrees(symbols, glob, size, j)
      {
        StrncmpExact(symbols[i].name, glob, size);
        if Strncmp(symbols[i].name, glob, size) == 0 {
          next := i;
          return Name(symbols[i].name);
        }
        i := i + 1;
      }
      return EndOfList;
    }

    /** `found` is the symbol under the cursor, or no match is left from there on. */
    ghost predicate Stands(symbols: seq<Symbol>, pattern: string, found: Found)
      reads this
    {
      && next <= |symbols|
      && (found.Name? ==> IsMatch(symbols, pattern, next) && found.name == symbols[next].name)
      && (found == EndOfList ==> Matches(symbols, pattern, next) == [])
    }

    /** One turn of `for_each_glob`'s condition: it only passes over symbols that do not match. */
    method Advance(symbols: seq<Symbol>, glob: CString) returns (found: Found)
      requires next <= |symbols|
      modifies this
      ensures old(next) <= next && Stands(symbols, Pattern(glob), found)
      ensures Matches(symbols, Pattern(glob), next) == Matches(symbols, Pattern(glob), old(next))
    {
      found := GlobNames(symbols, glob, Strnlen(glob, GLOB_MAX));
      AgreesIsMatch(symbols, glob);
      MatchesSkip(symbols, Pattern(glob), old(next), if found.Name? then next else |symbols|);
    }
  }

  /** The whole loop: it ends, and visits the matches in order. */
  method ForEachGlob(symbols: seq<Symbol>, glob: CString) returns (visited: seq<nat>)
    ensures visited == Matches(symbols, Pattern(glob), 0)
  {
    ghost var pattern := Pattern(glob);
    var cursor := new Cursor();
    visited := [];
    var found := cursor.Advance(symbols, glob);
    while found.Name?
      invariant cursor.Stands(symbols, pattern, found)
      invariant Matches(symbols, pattern, 0) == visited + Matches(symbols, pattern, cursor.next)
      decreases |symbols| - cursor.next
    {
      ghost var ahead := Matches(symbols, pattern, cursor.next + 1);
      assert Matches(symbols, pattern, 0) == (visited + [cursor.next]) + ahead;
      visited := visited + [cursor.next];
      cursor.next := cursor.next + 1;
      found := cursor.Advance(symbols, glob);
    }
  }

  /**
    A pattern of at most twenty characters visits exactly the names it is a prefix of, each once
    and in increasing order.
   */
  lemma VisitsExactly(symbols: seq<Symbol>, glob: CString)
    ensures var visited := Matches(symbols, Pattern(glob), 0);
            && (forall k, l :: 0 <= k < l < |visited| ==> visited[k] < visited[l])
            && (forall i :: i in visited <==> IsMatch(symbols, Pattern(glob), i))
            && (|glob| <= 20 ==> forall i :: i in visited <==> 0 <= i < |symbols| && glob <= symbols[i].name)
  {
    MatchesExact(symbols, Pattern(glob), 0);
    if |glob| <= 20 {
      assert Pattern(glob) == glob;
      forall i
        ensures i in Matches(symbols, Pattern(glob), 0) <==> 0 <= i < |symbols| && glob <= symbols[i].name
      {
        assert i in Matches(symbols, Pattern(glob), 0) <==> IsMatch(symbols, Pattern(glob), i);
      }
    }
  }

  /** A longer one also visits names that it is not a prefix of. */
  lemma LongGlobOvermatches(symbols: seq<Symbol>, glob: CString, i: nat)
    requires |glob| > 20 && i < |symbols| && symbols[i].name == glob[..20]
    ensures i in Matches(symbols, Pattern(glob), 0) && !(glob <= symbols[i].name)
  {
    MatchesExact(symbols, Pattern(glob), 0);
    assert IsMatch(symbols, Pattern(glob), i);
  }

  // ---------- Lookup by name ----------

  /** The first symbol of that name, or the table's length. */
  function FirstNamed(symbols: seq<Symbol>, name: CString): (i: nat)
    ensures i <= |symbols|
    ensures i < |symbols| ==> symbols[i].name == name
    ensures forall j :: 0 <= j < i ==> symbols[j].name != name
  {
    if symbols == [] then 0
    else if symbols[0].name == name then 0
    else
      var k := FirstNamed(symbols[1..], name);
      assert forall j :: 0 < j < k + 1 ==> symbols[j] == symbols[1..][j - 1];
      k + 1
  }

  predicate IsFirstNamed(symbols: seq<Symbol>, name: CString, i: int) {
    0 <= i < |symbols| && symbols[i].name == name && forall j :: 0 <= j < i ==> symbols[j].name != name
  }

  function OffsetOf(symbols: seq<Symbol>, name: CString): int {
    var i := FirstNamed(symbols, name);
    if i < |symbols| then symbols[i].offset else 0
  }

  /** The kernel's path lookup: the paths that resolve, and the null inode for the others. */
  function Resolve(kernPath: map<CString, Inode>, path: CString): Inode {
    if path in kernPath then kernPath[path] else 0
  }

  function InodeOf(symbols: seq<Symbol>, name: CString, kernPath: map<CString, Inode>): Inode {
    var i := FirstNamed(symbols, name);
    if i < |symbols| then Resolve(kernPath, symbols[i].path) else 0
  }

  method FindOffset(symbols: seq<Symbol>, name: CString) returns (offset: int)
    ensures offset == OffsetOf(symbols, name)
    ensures forall i :: IsFirstNamed(symbols, name, i) ==> offset == symbols[i].offset
    ensures (forall i :: 0 <= i < |symbols| ==> symbols[i].name != name) ==> offset == 0
  {
    var i := 0;
    while i < |symbols|
      invariant i <= |symbols| && forall j :: 0 <= j < i ==> symbols[j].name != name
    {
      StrcmpIsEquality(name, symbols[i].name);
      if Strcmp(name, symbols[i].name) == 0 {
        return symbols[i].offset;
      }
      i := i + 1;
    }
    return 0;
  }

  method FindInode(symbols: seq<Symbol>, name: CString, kernPath: map<CString, Inode>) returns (inode: Inode)
    ensures inode == InodeOf(symbols, name, kernPath)
    ensures forall i :: IsFirstNamed(symbols, name, i) ==>
              inode == if symbols[i].path in kernPath then kernPath[symbols[i].path] else 0
    ensures (forall i :: 0 <= i < |symbols| ==> symbols[i].name != name) ==> inode == 0
  {
    var i := 0;
    while i < |symbols|
      invariant i <= |symbols| && forall j :: 0 <= j < i ==> symbols[j].name != name
    {
      StrcmpIsEquality(name, symbols[i].name);
      if Strcmp(name, symbols[i].name) == 0 {
        return Resolve(kernPath, symbols[i].path);
      }
      i := i + 1;
    }
    return 0;
  }

  predicate UniqueNames(symbols: seq<Symbol>) {
    forall i, j :: 0 <= i < j < |symbols| ==> symbols[i].name != symbols[j].name
  }

  /** The lookup of a visited name answers for the visited symbol itself exactly when it is the first of its name. */
  lemma LookupIsOwn(symbols: seq<Symbol>, i: nat)
    requires i < |symbols|
    ensures FirstNamed(symbols, symbols[i].name) == i <==> IsFirstNamed(symbols, symbols[i].name, i)
  {
  }

  /** The two lookups, by the first symbol of the name: its offset, and its path if that resolves; 0 without one. */
  lemma LookupExact(symbols: seq<Symbol>, name: CString, kernPath: map<CString, Inode>)
    ensures forall i :: IsFirstNamed(symbols, name, i) ==>
              && OffsetOf(symbols, name) == symbols[i].offset
              && InodeOf(symbols, name, kernPath)
                 == if symbols[i].path in kernPath then kernPath[symbols[i].path] else 0
    ensures (forall i :: 0 <= i < |symbols| ==> symbols[i].name != name) ==>
              OffsetOf(symbols, name) == 0 && InodeOf(symbols, name, kernPath) == 0
  {
    forall i | IsFirstNamed(symbols, name, i)
      ensures FirstNamed(symbols, name) == i
    {
    }
  }

  /** With unique names every visit registers the visited symbol's own probe point. */
  lemma VisitsOwnPoint(symbols: seq<Symbol>, i: nat, kernPath: map<CString, Inode>)
    requires i < |symbols| && UniqueNames(symbols)
    ensures OffsetOf(symbols, symbols[i].name) == symbols[i].offset
    ensures symbols[i].path in kernPath ==> InodeOf(symbols, symbols[i].name, kernPath) == kernPath[symbols[i].path]
    ensures symbols[i].path !in kernPath ==> InodeOf(symbols, symbols[i].name, kernPath) == 0
  {
    LookupExact(symbols, symbols[i].name, kernPath);
    assert IsFirstNamed(symbols, symbols[i].name, i);
  }
}
