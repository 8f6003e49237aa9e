/** Sequence facts several models share. */
module Seqs {

  /** An element appended to the last of three parts is appended to the whole. */
  lemma Snoc<T>(a: seq<T>, b: seq<T>, s: seq<T>, c: T)
    ensures (a + (b + s)) + [c] == a + (b + (s + [c]))
  {
  }

  lemma Assoc<T>(a: seq<T>, b: seq<T>, c: seq<T>)
    ensures a + (b + c) == a + b + c
  {
  }

  lemma Without<T>(s: seq<T>, i: nat)
    requires i < |s|
    ensures multiset(s) == multiset(s[..i] + s[i + 1..]) + multiset{s[i]}
  {
    assert s == s[..i] + [s[i]] + s[i + 1..];
  }

  lemma OneLess<T>(a: multiset<T>, b: multiset<T>, x: T)
    requires a + multiset{x} == b + multiset{x}
    ensures a == b
  {
    assert a == a + multiset{x} - multiset{x};
    assert b == b + multiset{x} - multiset{x};
  }

  /** Where an element of one sequence stands in a rearrangement of it. */
  lemma Place<T>(s: seq<T>, t: seq<T>) returns (i: nat)
    requires s != [] && multiset(s) == multiset(t)
    ensures i < |t| && t[i] == s[0] && multiset(s[1..]) == multiset(t[..i] + t[i + 1..])
  {
    assert s[0] in multiset(s) && s[0] in t;
    i :| 0 <= i < |t| && t[i] == s[0];
    Without(s, 0);
    Without(t, i);
    assert s[..0] + s[1..] == s[1..];
    OneLess(multiset(s[1..]), multiset(t[..i] + t[i + 1..]), s[0]);
  }

  function Mapped<T, U>(f: T -> U, s: seq<T>): (r: seq<U>)
    ensures |r| == |s|
  {
    seq(|s|, i requires 0 <= i < |s| => f(s[i]))
  }

  /** Mapping a rearrangement gives a rearrangement. */
  lemma {:induction false} MappedPermute<T, U>(f: T -> U, s: seq<T>, t: seq<T>)
    requires multiset(s) == multiset(t)
    ensures multiset(Mapped(f, s)) == multiset(Mapped(f, t))
  {
    if s == [] {
      assert |multiset(t)| == |t|;
    } else {
      var i := Place(s, t);
      var mapped := Mapped(f, t);
      MappedPermute(f, s[1..], t[..i] + t[i + 1..]);
      Without(mapped, i);
      assert Mapped(f, t[..i] + t[i + 1..]) == mapped[..i] + mapped[i + 1..];
      assert Mapped(f, s) == [f(s[0])] + Mapped(f, s[1..]);
    }
  }
}
