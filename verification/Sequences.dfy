/** Sequences up to order. */
module Sequences {
  /** Taking the last element of one ordering out of another leaves orderings of the same elements. */
  lemma RemoveLast<T>(us: seq<T>, vs: seq<T>) returns (i: nat)
    requires us != [] && multiset(us) == multiset(vs)
    ensures i < |vs| && vs[i] == us[|us| - 1]
    ensures multiset(us[..|us| - 1]) == multiset(vs[..i] + vs[i + 1..])
  {
    var u := us[|us| - 1];
    assert u in multiset(vs);
    i :| 0 <= i < |vs| && vs[i] == u;
    Without(us, |us| - 1);
    Without(vs, i);
    assert us[..|us| - 1] + us[|us|..] == us[..|us| - 1];
  }

  lemma Without<T>(s: seq<T>, i: nat)
    requires i < |s|
    ensures multiset(s[..i] + s[i + 1..]) == multiset(s) - multiset{s[i]}
  {
    assert s == s[..i] + [s[i]] + s[i + 1..];
  }

  lemma SameElements<T>(us: seq<T>, vs: seq<T>)
    requires multiset(us) == multiset(vs)
    ensures |us| == |vs| && forall x :: x in us <==> x in vs
  {
    assert |us| == |multiset(us)| == |multiset(vs)| == |vs|;
    assert forall x :: x in us <==> x in multiset(us);
    assert forall x :: x in vs <==> x in multiset(vs);
  }
}
