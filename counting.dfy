/** Counting the elements of a sequence that satisfy a predicate. */
module Counting {

  function Count<T>(s: seq<T>, f: T -> bool): (n: nat)
    ensures n <= |s|
  {
    if |s| == 0 then 0 else Count(s[..|s| - 1], f) + (if f(s[|s| - 1]) then 1 else 0)
  }

  lemma CountSnoc<T>(s: seq<T>, x: T, f: T -> bool)
    ensures Count(s + [x], f) == Count(s, f) + (if f(x) then 1 else 0)
  {
    assert (s + [x])[..|s|] == s;
  }

  /** A weaker predicate counts at least as many elements. */
  lemma {:induction false} CountMonotone<T>(s: seq<T>, f: T -> bool, g: T -> bool)
    requires forall i :: 0 <= i < |s| && f(s[i]) ==> g(s[i])
    ensures Count(s, f) <= Count(s, g)
  {
    if |s| > 0 {
      CountMonotone(s[..|s| - 1], f, g);
    }
  }

  /** An element that satisfies f makes the count positive. */
  lemma {:induction false} CountPositive<T>(s: seq<T>, f: T -> bool, i: nat)
    requires i < |s| && f(s[i])
    ensures Count(s, f) > 0
  {
    if i < |s| - 1 {
      CountPositive(s[..|s| - 1], f, i);
    }
  }

  /** Counting over a concatenation adds up the counts of the parts. */
  lemma {:induction false} CountConcat<T>(s: seq<T>, t: seq<T>, f: T -> bool)
    ensures Count(s + t, f) == Count(s, f) + Count(t, f)
    decreases |t|
  {
    if |t| == 0 {
      assert s + t == s;
    } else {
      var u := t[..|t| - 1];
      assert s + t == (s + u) + [t[|t| - 1]];
      assert t == u + [t[|t| - 1]];
      CountSnoc(s + u, t[|t| - 1], f);
      CountSnoc(u, t[|t| - 1], f);
      CountConcat(s, u, f);
    }
  }

  /** When f is the disjoint union of g and h, its count is the sum of theirs. */
  lemma {:induction false} CountSplit<T>(s: seq<T>, f: T -> bool, g: T -> bool, h: T -> bool)
    requires forall i :: 0 <= i < |s| ==> (f(s[i]) <==> g(s[i]) || h(s[i]))
    requires forall i :: 0 <= i < |s| ==> !(g(s[i]) && h(s[i]))
    ensures Count(s, f) == Count(s, g) + Count(s, h)
  {
    if |s| > 0 {
      CountSplit(s[..|s| - 1], f, g, h);
    }
  }
}
