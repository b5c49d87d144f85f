/**
  `uprobes_diff` of lib/uprobes.exp: the two substitutions that make logs comparable, and the scan
  of an expected log for the lines of an actual one.
 */
module LogDiff {

  // ---------- The two substitutions ----------

  /** A blank and a number of at least two characters; a hexadecimal address. */
  datatype Rule = Numbers | Addresses

  function Replacement(rule: Rule): string {
    match rule
    case Numbers => " 1234"
    case Addresses => "0xC0123456"
  }

  /** The character that every match starts with. */
  function Start(rule: Rule): char {
    match rule
    case Numbers => ' '
    case Addresses => '0'
  }

  predicate Second(rule: Rule, c: char) {
    match rule
    case Numbers => '1' <= c <= '9'
    case Addresses => c == 'x'
  }

  /** The characters that may be repeated at the end of a match. */
  predicate Tail(rule: Rule, c: char) {
    match rule
    case Numbers => '0' <= c <= '9' || c == ','
    case Addresses => '0' <= c <= '9' || 'a' <= c <= 'f' || 'A' <= c <= 'F'
  }

  /** The length of the longest run of tail characters at the front of `s`. */
  function Run(rule: Rule, s: string): (n: nat)
    ensures n <= |s| && (n < |s| ==> !Tail(rule, s[n]))
    ensures forall i :: 0 <= i < n ==> Tail(rule, s[i])
  {
    if s == [] || !Tail(rule, s[0]) then 0 else 1 + Run(rule, s[1..])
  }

  /** The length of the greedy match at the front of `s`, or 0. */
  function Match(rule: Rule, s: string): (n: nat)
    ensures n <= |s|
  {
    if |s| >= 3 && s[0] == Start(rule) && Second(rule, s[1]) && Tail(rule, s[2]) then 2 + Run(rule, s[2..]) else 0
  }

  /** `regsub -all`: matches are taken from the left and do not overlap. */
  function Pass(rule: Rule, s: string): string
    decreases |s|
  {
    if s == [] then []
    else
      var n := Match(rule, s);
      if n > 0 then Replacement(rule) + Pass(rule, s[n..]) else [s[0]] + Pass(rule, s[1..])
  }

  /** The first `n` characters are matched by the rule's regular expression. */
  predicate Matched(rule: Rule, s: string, n: int) {
    && 3 <= n <= |s| && s[0] == Start(rule) && Second(rule, s[1])
    && forall i :: 2 <= i < n ==> Tail(rule, s[i])
  }

  /** `Match` finds the longest match, and 0 exactly when there is none. */
  lemma MatchIsLongest(rule: Rule, s: string)
    ensures Match(rule, s) > 0 ==> Matched(rule, s, Match(rule, s))
    ensures forall n :: Matched(rule, s, n) ==> n <= Match(rule, s)
  {
    if |s| >= 2 {
      var run := Run(rule, s[2..]);
      assert forall i :: 2 <= i < |s| ==> s[i] == s[2..][i - 2];
      forall n | Matched(rule, s, n)
        ensures n <= Match(rule, s)
      {
        assert Tail(rule, s[2]);
        assert 2 + run < n ==> Tail(rule, s[2..][run]);
      }
    }
  }

  function NormalLine(s: string): string {
    Pass(Addresses, Pass(Numbers, s))
  }

  // ---------- Idempotence ----------

  lemma HeadKept(rule: Rule, s: string)
    ensures Pass(rule, s) == [] <==> s == []
    ensures s != [] ==> Pass(rule, s)[0] == s[0]
  {
  }

  /** Whether a match starts at a character depends on that one and the next two. */
  lemma SameStart(rule: Rule, other: Rule, c: char, t: string)
    ensures Match(rule, [c] + Pass(other, t)) > 0 ==> Match(rule, [c] + t) > 0
  {
    HeadKept(other, t);
    if t != [] && t[0] != Start(other) {
      HeadKept(other, t[1..]);
      assert Pass(other, t) == [t[0]] + Pass(other, t[1..]);
    }
  }

  /** Rewriting what follows a character creates no match at it. */
  lemma NoNewMatch(rule: Rule, other: Rule, c: char, t: string)
    requires Match(rule, [c] + t) == 0
    ensures Match(rule, [c] + Pass(other, t)) == 0
  {
    SameStart(rule, other, c, t);
  }

  /** A replacement is matched whole, and nothing after it is drawn into the match. */
  lemma ReplacementMatches(rule: Rule, z: string)
    requires z == [] || !Tail(rule, z[0])
    ensures Match(rule, Replacement(rule) + z) == |Replacement(rule)|
  {
    var r := Replacement(rule) + z;
    assert r[2..] == Replacement(rule)[2..] + z;
    RunStops(rule, Replacement(rule)[2..], z);
  }

  lemma {:induction false} RunStops(rule: Rule, a: string, z: string)
    requires (forall i :: 0 <= i < |a| ==> Tail(rule, a[i])) && (z == [] || !Tail(rule, z[0]))
    ensures Run(rule, a + z) == |a|
    decreases |a|
  {
    if a == [] {
      assert a + z == z;
    } else {
      assert (a + z)[1..] == a[1..] + z;
      RunStops(rule, a[1..], z);
    }
  }

  lemma AfterMatch(rule: Rule, s: string)
    requires Match(rule, s) > 0
    ensures var rest := s[Match(rule, s)..];
            rest == [] || !Tail(rule, rest[0])
  {
  }

  /** One step over a replacement. */
  lemma PassReplacement(rule: Rule, z: string)
    requires z == [] || !Tail(rule, z[0])
    ensures Pass(rule, Replacement(rule) + z) == Replacement(rule) + Pass(rule, z)
  {
    ReplacementMatches(rule, z);
    assert (Replacement(rule) + z)[|Replacement(rule)|..] == z;
  }

  lemma PassSingle(rule: Rule, c: char, z: string)
    requires Match(rule, [c] + z) == 0
    ensures Pass(rule, [c] + z) == [c] + Pass(rule, z)
  {
  }

  lemma {:induction false} PassIdempotent(rule: Rule, s: string)
    ensures Pass(rule, Pass(rule, s)) == Pass(rule, s)
    decreases |s|
  {
    if s == [] {
    } else {
      var n := Match(rule, s);
      if n > 0 {
        var rest := s[n..];
        PassIdempotent(rule, rest);
        AfterMatch(rule, s);
        HeadKept(rule, rest);
        PassReplacement(rule, Pass(rule, rest));
      } else {
        assert s == [s[0]] + s[1..];
        PassIdempotent(rule, s[1..]);
        NoNewMatch(rule, rule, s[0], s[1..]);
        PassSingle(rule, s[0], Pass(rule, s[1..]));
      }
    }
  }

  /** No match starts in `a` when `z` follows it. */
  ghost predicate NoMatchIn(rule: Rule, a: string, z: string) {
    forall i :: 0 <= i < |a| ==> Match(rule, a[i..] + z) == 0
  }

  lemma NoMatchInFront(rule: Rule, a: string, z: string)
    requires a != [] && NoMatchIn(rule, a, z)
    ensures var n := |a| - 1;
            Match(rule, [a[n]] + z) == 0 && NoMatchIn(rule, a[..n], [a[n]] + z)
  {
    var n := |a| - 1;
    assert a[n..] == [a[n]];
    forall i | 0 <= i < n
      ensures Match(rule, a[..n][i..] + ([a[n]] + z)) == 0
    {
      assert a[..n][i..] + ([a[n]] + z) == a[i..] + z;
    }
  }

  lemma Regroup(a: string, z: string)
    requires a != []
    ensures a + z == a[..|a| - 1] + ([a[|a| - 1]] + z)
  {
  }

  /** The substitution keeps everything up to where the leftmost match starts. */
  lemma {:induction false} KeptUpToMatch(rule: Rule, a: string, z: string)
    requires NoMatchIn(rule, a, z)
    ensures Pass(rule, a + z) == a + Pass(rule, z)
    decreases |a|
  {
    if a == [] {
      assert a + z == z;
    } else {
      var n := |a| - 1;
      NoMatchInFront(rule, a, z);
      PassSingle(rule, a[n], z);
      KeptUpToMatch(rule, a[..n], [a[n]] + z);
      Regroup(a, z);
      Regroup(a, Pass(rule, z));
    }
  }

  /** The leftmost match is replaced, and what follows it is rewritten alike. */
  lemma LeftmostMatchReplaced(rule: Rule, a: string, m: string, z: string)
    requires NoMatchIn(rule, a, m + z) && m != [] && Match(rule, m + z) == |m|
    ensures Pass(rule, a + (m + z)) == a + (Replacement(rule) + Pass(rule, z))
  {
    KeptUpToMatch(rule, a, m + z);
    assert (m + z)[|m|..] == z;
  }

  /** Text without the first character of a match is left alone. */
  lemma PassThrough(rule: Rule, a: string, z: string)
    requires Start(rule) !in a
    ensures Pass(rule, a + z) == a + Pass(rule, z)
  {
    forall i | 0 <= i < |a|
      ensures Match(rule, a[i..] + z) == 0
    {
      assert (a[i..] + z)[0] == a[i];
    }
    KeptUpToMatch(rule, a, z);
  }

  // ---------- The two expressions, spelled out ----------

  lemma NumberSets(c: char)
    ensures Second(Numbers, c) <==> c in "123456789"
    ensures Tail(Numbers, c) <==> c in "0123456789,"
  {
    assert Second(Numbers, c) ==> c in ['1', '2', '3', '4', '5', '6', '7', '8', '9'];
    assert Tail(Numbers, c) ==> c in ['0', '1', '2', '3', '4', '5', '6', '7', '8', '9', ','];
  }

  lemma AddressSets(c: char)
    ensures Second(Addresses, c) <==> c == 'x'
    ensures Tail(Addresses, c) <==> c in "0123456789abcdefABCDEF"
  {
    assert Tail(Addresses, c) ==>
        c in ['0', '1', '2', '3', '4', '5', '6', '7', '8', '9'] || c in ['a', 'b', 'c', 'd', 'e', 'f']
        || c in ['A', 'B', 'C', 'D', 'E', 'F'];
  }

  predicate AllIn(s: string, chars: string) {
    forall i :: 0 <= i < |s| ==> s[i] in chars
  }

  lemma NumberTails(ds: string)
    requires AllIn(ds, "0123456789,")
    ensures forall i :: 0 <= i < |ds| ==> Tail(Numbers, ds[i])
  {
    forall i | 0 <= i < |ds|
      ensures Tail(Numbers, ds[i])
    {
      NumberSets(ds[i]);
    }
  }

  lemma AddressTails(hs: string)
    requires AllIn(hs, "0123456789abcdefABCDEF")
    ensures forall i :: 0 <= i < |hs| ==> Tail(Addresses, hs[i])
  {
    forall i | 0 <= i < |hs|
      ensures Tail(Addresses, hs[i])
    {
      AddressSets(hs[i]);
    }
  }

  lemma TwoThenRest(a: char, b: char, run: string, z: string)
    ensures var s := [a, b] + run + z;
            |s| >= 2 && s[0] == a && s[1] == b && s[2..] == run + z
  {
    assert [a, b] + run + z == [a, b] + (run + z);
  }

  /** ` [1-9][0-9,]+`: a blank, a digit other than 0, and as many digits and commas as there are, at least one. */
  lemma NumberReplaced(d: char, ds: string, z: string)
    requires d in "123456789" && ds != [] && AllIn(ds, "0123456789,")
    requires z == [] || z[0] !in "0123456789,"
    ensures Pass(Numbers, [' ', d] + ds + z) == " 1234" + Pass(Numbers, z)
  {
    NumberSets(d);
    NumberTails(ds);
    if z != [] {
      NumberSets(z[0]);
    }
    TwoThenRest(' ', d, ds, z);
    MatchedRun(Numbers, [' ', d] + ds + z, ds, z);
  }

  /** `0x[0-9a-fA-F]+`: as many hexadecimal digits as there are, at least one. */
  lemma AddressReplaced(hs: string, z: string)
    requires hs != [] && AllIn(hs, "0123456789abcdefABCDEF")
    requires z == [] || z[0] !in "0123456789abcdefABCDEF"
    ensures Pass(Addresses, ['0', 'x'] + hs + z) == "0xC0123456" + Pass(Addresses, z)
  {
    AddressTails(hs);
    if z != [] {
      AddressSets(z[0]);
    }
    TwoThenRest('0', 'x', hs, z);
    MatchedRun(Addresses, ['0', 'x'] + hs + z, hs, z);
  }

  lemma MatchedRun(rule: Rule, s: string, run: string, z: string)
    requires |s| >= 2 && s[0] == Start(rule) && Second(rule, s[1]) && s[2..] == run + z
    requires run != [] && (forall i :: 0 <= i < |run| ==> Tail(rule, run[i])) && (z == [] || !Tail(rule, z[0]))
    ensures Match(rule, s) == 2 + |run| && Pass(rule, s) == Replacement(rule) + Pass(rule, z)
  {
    assert s[2..][0] == run[0];
    RunStops(rule, run, z);
    assert s[2 + |run|..] == s[2..][|run|..] == z;
  }

  /** Nothing else starts a match of either expression, and text without one is kept. */
  lemma MatchStarts(s: string)
    ensures Match(Numbers, s) > 0 <==> |s| >= 3 && s[0] == ' ' && s[1] in "123456789" && s[2] in "0123456789,"
    ensures Match(Addresses, s) > 0 <==>
            |s| >= 3 && s[0] == '0' && s[1] == 'x' && s[2] in "0123456789abcdefABCDEF"
    ensures s != [] && Match(Numbers, s) == 0 ==> Pass(Numbers, s) == [s[0]] + Pass(Numbers, s[1..])
    ensures s != [] && Match(Addresses, s) == 0 ==> Pass(Addresses, s) == [s[0]] + Pass(Addresses, s[1..])
  {
    if |s| >= 3 {
      NumberSets(s[1]);
      NumberSets(s[2]);
      AddressSets(s[2]);
    }
  }

  /** Numbers are rewritten first: an x behind a number's last 0, as in ` 10x1f`, is no longer that of an address. */
  lemma NumbersFirst(d: char, ds: string, z: string)
    requires d in "123456789" && ds != [] && AllIn(ds, "0123456789,")
    requires z == [] || z[0] !in "0123456789,"
    requires ' ' !in z && '0' !in z
    ensures NormalLine([' ', d] + ds + z) == " 1234" + z
  {
    NumberReplaced(d, ds, z);
    NoStart(Numbers, z);
    NoStart(Addresses, " 1234" + z);
  }

  lemma NoStart(rule: Rule, s: string)
    requires Start(rule) !in s
    ensures Pass(rule, s) == s
  {
    PassThrough(rule, s, "");
    assert s + "" == s;
  }

  /** Where the first substitution has nothing to change, a number is the replacement itself. */
  lemma FixedNumber(y: string)
    requires Pass(Numbers, y) == y && Match(Numbers, y) > 0
    ensures Match(Numbers, y) == 5 && y == " 1234" + y[5..] && Pass(Numbers, y[5..]) == y[5..]
  {
    var rest := y[Match(Numbers, y)..];
    AfterMatch(Numbers, y);
    HeadKept(Numbers, rest);
    assert y == " 1234" + Pass(Numbers, rest);
    ReplacementMatches(Numbers, Pass(Numbers, rest));
  }

  lemma FixedRest(y: string)
    requires y != [] && Pass(Numbers, y) == y && Match(Numbers, y) == 0
    ensures Pass(Numbers, y[1..]) == y[1..]
  {
  }

  lemma {:induction false} FixedSuffix(y: string, n: nat)
    requires Pass(Numbers, y) == y && n <= |y| && ' ' !in y[..n]
    ensures Pass(Numbers, y[n..]) == y[n..]
    decreases n
  {
    if n > 0 {
      assert y[0] in y[..n];
      FixedRest(y);
      assert y[1..][..n - 1] == y[..n][1..];
      FixedSuffix(y[1..], n - 1);
      assert y[1..][n - 1..] == y[n..];
    } else {
      assert y[0..] == y;
    }
  }

  lemma NoBlankInAddress(y: string)
    requires Match(Addresses, y) > 0
    ensures ' ' !in y[..Match(Addresses, y)]
  {
  }

  /** The second substitution makes no work for the first. */
  lemma {:induction false} AddressesKeepNumbers(y: string)
    requires Pass(Numbers, y) == y
    ensures Pass(Numbers, Pass(Addresses, y)) == Pass(Addresses, y)
    decreases |y|
  {
    if y == [] {
    } else {
      var n := Match(Addresses, y);
      if n > 0 {
        NoBlankInAddress(y);
        FixedSuffix(y, n);
        AddressesKeepNumbers(y[n..]);
        PassThrough(Numbers, Replacement(Addresses), Pass(Addresses, y[n..]));
      } else if Match(Numbers, y) > 0 {
        FixedNumber(y);
        AfterMatch(Numbers, y);
        var rest := y[5..];
        AddressesKeepNumbers(rest);
        PassThrough(Addresses, " 1234", rest);
        HeadKept(Addresses, rest);
        PassReplacement(Numbers, Pass(Addresses, rest));
      } else {
        assert y == [y[0]] + y[1..];
        FixedRest(y);
        AddressesKeepNumbers(y[1..]);
        NoNewMatch(Numbers, Addresses, y[0], y[1..]);
        PassSingle(Numbers, y[0], Pass(Addresses, y[1..]));
      }
    }
  }

  /** A normalised line is not changed by normalising it again. */
  lemma NormalLineIdempotent(s: string)
    ensures NormalLine(NormalLine(s)) == NormalLine(s)
  {
    PassIdempotent(Numbers, s);
    AddressesKeepNumbers(Pass(Numbers, s));
    PassIdempotent(Addresses, Pass(Numbers, s));
  }

  function Normal(lines: seq<string>): (r: seq<string>)
    ensures |r| == |lines| && forall k :: 0 <= k < |r| ==> r[k] == NormalLine(lines[k])
  {
    if lines == [] then [] else Normal(lines[..|lines| - 1]) + [NormalLine(lines[|lines| - 1])]
  }

  // ---------- The scan ----------

  predicate Increasing(at: seq<nat>) {
    forall k, l :: 0 <= k < l < |at| ==> at[k] < at[l]
  }

  predicate Picks(at: seq<nat>, a: seq<string>, b: seq<string>) {
    |at| == |a| && forall k :: 0 <= k < |at| ==> at[k] < |b| && b[at[k]] == a[k]
  }

  /** `a` is a subsequence of `b`. */
  ghost predicate Embeds(a: seq<string>, b: seq<string>) {
    exists at: seq<nat> :: Increasing(at) && Picks(at, a, b)
  }

  /** How many lines of `a` a scan of `b` finds, each at its first chance. */
  function Scan(a: seq<string>, b: seq<string>): (i: nat)
    ensures i <= |a| && i <= |b|
  {
    if b == [] then 0
    else
      var i := Scan(a, b[..|b| - 1]);
      if i < |a| && a[i] == b[|b| - 1] then i + 1 else i
  }

  lemma {:induction false} ScanEmbeds(a: seq<string>, b: seq<string>) returns (at: seq<nat>)
    ensures Increasing(at) && Picks(at, a[..Scan(a, b)], b)
    decreases |b|
  {
    if b == [] {
      at := [];
    } else {
      var n := |b| - 1;
      at := ScanEmbeds(a, b[..n]);
      var i := Scan(a, b[..n]);
      if i < |a| && a[i] == b[n] {
        at := at + [n];
      }
    }
  }

  lemma {:induction false} EmbeddingIsScanned(at: seq<nat>, a: seq<string>, k: nat, b: seq<string>)
    requires k <= |a| && Increasing(at) && Picks(at, a[..k], b)
    ensures k <= Scan(a, b)
    decreases |b|
  {
    if k == 0 {
    } else {
      var n := |b| - 1;
      if at[k - 1] == n {
        EmbeddingIsScanned(at[..k - 1], a, k - 1, b[..n]);
      } else {
        assert forall l :: 0 <= l < k ==> at[l] <= at[k - 1] < n;
        EmbeddingIsScanned(at, a, k, b[..n]);
      }
    }
  }

  /** The scan finds the longest prefix of the actual log that is a subsequence of the expected one. */
  lemma ScanIsLongest(a: seq<string>, b: seq<string>, k: nat)
    requires k <= |a|
    ensures Embeds(a[..k], b) <==> k <= Scan(a, b)
  {
    if k <= Scan(a, b) {
      var at := ScanEmbeds(a, b);
      assert Increasing(at[..k]) && Picks(at[..k], a[..k], b);
    }
    if Embeds(a[..k], b) {
      var at :| Increasing(at) && Picks(at, a[..k], b);
      EmbeddingIsScanned(at, a, k, b);
    }
  }

  // ---------- uprobes_diff ----------

  /** `ScriptError`: an element of `results` was read that was never set. */
  datatype Outcome = Passed | Failed | ScriptError

  /** The array that the first loop fills. */
  ghost predicate Filled(results: map<nat, string>, a: seq<string>, n: nat) {
    forall k: nat :: (k in results <==> k < n <= |a|) && (k in results ==> results[k] == a[k])
  }

  /** The first loop. */
  method NormaliseLog(actual: seq<string>) returns (results: map<nat, string>, ind: nat)
    ensures ind == |actual| && Filled(results, Normal(actual), ind)
  {
    ghost var a := Normal(actual);
    results := map[];
    ind := 0;
    while ind < |actual|
      invariant ind <= |actual| && Filled(results, a, ind)
    {
      var line := Pass(Numbers, actual[ind]);
      line := Pass(Addresses, line);
      results := results[ind := line];
      ind := ind + 1;
    }
  }

  /** `actual` and `expected` are the lines of the two files. */
  method UprobesDiff(actual: seq<string>, expected: seq<string>) returns (outcome: Outcome, i: nat)
    ensures outcome == Verdict(Normal(actual), expected)
    ensures outcome != ScriptError ==> i == Scan(Normal(actual), expected)
  {
    ghost var a := Normal(actual);
    var results, ind := NormaliseLog(actual);
    i := 0;
    var j := 0;
    while j < |expected|
      invariant j <= |expected| && i <= ind && Scanned(a, expected, j, i)
    {
      if i > ind {
        break;
      }
      if i !in results {
        FoundEarly(a, expected, j);
        return ScriptError, i;
      }
      ScanOn(a, expected, j, i);
      if results[i] == expected[j] {
        i := i + 1;
      }
      j := j + 1;
    }
    ScannedAll(a, expected, i);
    outcome := if i == ind then Passed else Failed;
  }

  /** The scan of the first `j` lines found `i` lines, and before the last of them not yet all. */
  predicate Scanned(a: seq<string>, b: seq<string>, j: nat, i: nat) {
    && j <= |b| && i == Scan(a, b[..j])
    && (j > 0 ==> Scan(a, b[..j - 1]) < |a|)
  }

  lemma ScanOn(a: seq<string>, b: seq<string>, j: nat, i: nat)
    requires j < |b| && i < |a| && Scanned(a, b, j, i)
    ensures Scanned(a, b, j + 1, if a[i] == b[j] then i + 1 else i)
  {
    assert b[..j + 1][..j] == b[..j];
  }

  lemma ScannedAll(a: seq<string>, b: seq<string>, i: nat)
    requires Scanned(a, b, |b|, i)
    ensures i == Scan(a, b) && Verdict(a, b) == if i == |a| then Passed else Failed
  {
    assert b[..|b|] == b;
  }

  lemma FoundEarly(a: seq<string>, b: seq<string>, j: nat)
    requires j < |b| && Scan(a, b[..j]) == |a|
    ensures Verdict(a, b) == ScriptError
  {
    ScanGrows(a, b, j, |b| - 1);
  }

  /** The outcome by how much of the log is found before and with the last expected line. */
  function Verdict(a: seq<string>, b: seq<string>): Outcome {
    if b != [] && Scan(a, b[..|b| - 1]) == |a| then ScriptError
    else if Scan(a, b) == |a| then Passed
    else Failed
  }

  lemma {:induction false} ScanGrows(a: seq<string>, b: seq<string>, j: nat, n: nat)
    requires j <= n <= |b|
    ensures Scan(a, b[..j]) <= Scan(a, b[..n])
    decreases n
  {
    if j < n {
      ScanGrows(a, b, j, n - 1);
      assert b[..n][..n - 1] == b[..n - 1];
    }
  }

  /**
    The comparison passes exactly when the normalised log is a subsequence of the expected one that
    needs its last line; when it does not need that line, the script reads past its results.
   */
  lemma VerdictExact(actual: seq<string>, expected: seq<string>)
    ensures var a, all := Normal(actual), Verdict(Normal(actual), expected);
            var early := expected != [] && Embeds(a, expected[..|expected| - 1]);
            && (all == ScriptError <==> early)
            && (all == Passed <==> Embeds(a, expected) && !early)
            && (all == Failed <==> !Embeds(a, expected))
  {
    var a := Normal(actual);
    assert a[..|a|] == a;
    ScanIsLongest(a, expected, |a|);
    if expected != [] {
      ScanIsLongest(a, expected[..|expected| - 1], |a|);
      ScanGrows(a, expected, |expected| - 1, |expected|);
      assert expected[..|expected|] == expected;
    }
  }

  lemma {:induction false} ScanWhole(a: seq<string>, b: seq<string>)
    requires |a| >= |b|
    ensures Scan(a, b) == |b| <==> b <= a
    decreases |b|
  {
    if b == [] {
    } else {
      var n := |b| - 1;
      ScanWhole(a, b[..n]);
      assert b == b[..n] + [b[n]];
      if b[..n] <= a && a[n] == b[n] {
        assert a[..n + 1] == b;
      }
    }
  }

  /** A line without blanks and without an x is left as it is. */
  lemma UntouchedLine(s: string)
    requires ' ' !in s && 'x' !in s
    ensures NormalLine(s) == s
  {
    assert s + "" == s;
    PassThrough(Numbers, s, "");
    forall i | 0 <= i < |s|
      ensures Match(Addresses, s[i..] + "") == 0
    {
      assert s[i..] + "" == s[i..];
      assert |s[i..]| >= 2 ==> s[i..][1] in s;
    }
    KeptUpToMatch(Addresses, s, "");
  }

  /** Where a complete log is followed by one more expected line, a result is read that was never set. */
  lemma LineTooMany(a: seq<string>, line: string)
    ensures Verdict(a, a + [line]) == ScriptError
  {
    assert (a + [line])[..|a|] == a;
    ScanWhole(a, a);
  }

  lemma NormalOne(line: string)
    ensures Normal([line]) == [NormalLine(line)]
  {
    assert [line][..0] == [];
  }

  lemma OneLineTooMany(line: string, more: string)
    requires ' ' !in line && 'x' !in line
    ensures Verdict(Normal([line]), [line, more]) == ScriptError
  {
    UntouchedLine(line);
    NormalOne(line);
    LineTooMany([line], more);
    assert [line] + [more] == [line, more];
  }

  /** One line is printed and found, but one more is expected. */
  lemma ExpectedLineTooMany()
    ensures Verdict(Normal(["OK"]), ["OK", "OK"]) == ScriptError
  {
    OneLineTooMany("OK", "OK");
  }

  /** Logs of equal length pass exactly when they are equal after normalising, and fail otherwise. */
  lemma EqualLengths(actual: seq<string>, expected: seq<string>)
    requires |actual| == |expected|
    ensures Verdict(Normal(actual), expected) == if Normal(actual) == expected then Passed else Failed
  {
    ScanWhole(Normal(actual), expected);
  }

  lemma {:induction false} NormalIdempotent(lines: seq<string>)
    ensures Normal(Normal(lines)) == Normal(lines)
    decreases |lines|
  {
    forall k | 0 <= k < |lines|
      ensures Normal(Normal(lines))[k] == Normal(lines)[k]
    {
      NormalLineIdempotent(lines[k]);
    }
  }

  /** A normalised log is accepted as its own expectation, whether the run prints it raw or normalised. */
  lemma OwnExpectation(lines: seq<string>)
    ensures Verdict(Normal(lines), Normal(lines)) == Passed
    ensures Verdict(Normal(Normal(lines)), Normal(lines)) == Passed
  {
    NormalIdempotent(lines);
    EqualLengths(lines, Normal(lines));
  }
}
