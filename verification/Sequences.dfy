/** The one list question the exporter's loops answer again and again: which element was the last to
    match?  Every gauge keeps the last value set, so every loop that sets gauges is described by it. */
module Sequences {

  datatype Option<+T> = None | Some(value: T)

  /** The last element of `s` that satisfies `p`, if there is one. */
  function Last<T>(s: seq<T>, p: T -> bool): (r: Option<T>)
    ensures r.Some? ==> p(r.value)
  {
    if s == [] then None
    else if p(s[|s| - 1]) then Some(s[|s| - 1])
    else Last(s[..|s| - 1], p)
  }

  /** `i` is the position of the last element of `s` that satisfies `p`. */
  ghost predicate IsLast<T>(s: seq<T>, p: T -> bool, i: int)
  {
    0 <= i < |s| && p(s[i]) && forall j | i < j < |s| :: !p(s[j])
  }

  /** `Last` finds exactly the element at the last matching position. */
  lemma {:induction false} LastExact<T>(s: seq<T>, p: T -> bool)
    ensures forall x :: Last(s, p) == Some(x) <==> exists i :: IsLast(s, p, i) && s[i] == x
    ensures Last(s, p) == None <==> forall i | 0 <= i < |s| :: !p(s[i])
  {
    if s != [] {
      var n := |s| - 1;
      var front := s[..n];
      LastExact(front, p);
      if p(s[n]) {
        assert IsLast(s, p, n);
      } else {
        forall i ensures IsLast(s, p, i) <==> IsLast(front, p, i) {
          if IsLast(front, p, i) {
            assert forall j | i < j < n :: s[j] == front[j];
          }
          if IsLast(s, p, i) {
            assert forall j | i < j < n :: front[j] == s[j];
          }
        }
      }
    }
  }

  lemma {:induction false} LastIsIn<T>(s: seq<T>, p: T -> bool)
    ensures Last(s, p).Some? ==> Last(s, p).value in s
  {
    if s != [] {
      LastIsIn(s[..|s| - 1], p);
    }
  }

  lemma SomeLast<T>(s: seq<T>, p: T -> bool, x: T)
    requires x in s && p(x)
    ensures Last(s, p).Some?
  {
    LastExact(s, p);
  }

  /** Taking the first `i + 1` elements and dropping the last of them leaves the first `i`. */
  lemma PrefixStep<T>(s: seq<T>, i: nat)
    requires i < |s|
    ensures s[..i + 1] != [] && s[..i + 1][|s[..i + 1]| - 1] == s[i]
    ensures s[..i + 1][..|s[..i + 1]| - 1] == s[..i]
  {
  }
}
