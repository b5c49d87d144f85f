/** Sums of a quantity over the elements of a sequence. */
module Sums {

  function Sum<T>(f: T -> nat, s: seq<T>): nat {
    if s == [] then 0 else Sum(f, s[..|s| - 1]) + f(s[|s| - 1])
  }

  lemma {:induction false} SumUpdate<T>(f: T -> nat, s: seq<T>, i: nat, x: T)
    requires i < |s|
    ensures Sum(f, s[i := x]) == Sum(f, s) - f(s[i]) + f(x)
    decreases |s|
  {
    var n := |s| - 1;
    if i < n {
      SumUpdate(f, s[..n], i, x);
      assert s[i := x][..n] == s[..n][i := x];
    } else {
      assert s[i := x][..n] == s[..n];
    }
  }

  lemma {:induction false} SumEqual<T>(f: T -> nat, s: seq<T>, each: nat)
    requires forall i :: 0 <= i < |s| ==> f(s[i]) == each
    ensures Sum(f, s) == each * |s|
    decreases |s|
  {
    if s == [] {
    } else {
      SumEqual(f, s[..|s| - 1], each);
    }
  }

  /** Two quantities that agree in total and are ordered element by element agree everywhere. */
  lemma {:induction false} SumOrdered<S, T>(f: S -> nat, s: seq<S>, g: T -> nat, t: seq<T>)
    requires |s| == |t| && forall i :: 0 <= i < |s| ==> f(s[i]) <= g(t[i])
    ensures Sum(f, s) <= Sum(g, t)
    ensures Sum(f, s) == Sum(g, t) ==> forall i :: 0 <= i < |s| ==> f(s[i]) == g(t[i])
    decreases |s|
  {
    if s == [] {
    } else {
      var n := |s| - 1;
      SumOrdered(f, s[..n], g, t[..n]);
      if Sum(f, s) == Sum(g, t) {
        assert forall i :: 0 <= i < n ==> s[..n][i] == s[i] && t[..n][i] == t[i];
      }
    }
  }

  /** One more element in front of the cut. */
  lemma SumPrefix<T>(f: T -> nat, s: seq<T>, n: nat)
    requires n < |s|
    ensures Sum(f, s[..n + 1]) == Sum(f, s[..n]) + f(s[n])
  {
    assert s[..n + 1][..n] == s[..n];
  }

  /** One element's share. */
  lemma {:induction false} SumAtLeast<T>(f: T -> nat, s: seq<T>, i: nat)
    requires i < |s|
    ensures f(s[i]) <= Sum(f, s)
    decreases |s|
  {
    var n := |s| - 1;
    if i < n {
      SumAtLeast(f, s[..n], i);
    }
  }

  lemma {:induction false} SumAtMost<T>(f: T -> nat, s: seq<T>, each: nat)
    requires forall i :: 0 <= i < |s| ==> f(s[i]) <= each
    ensures Sum(f, s) <= each * |s|
    decreases |s|
  {
    if s == [] {
    } else {
      SumAtMost(f, s[..|s| - 1], each);
    }
  }
}
