/** Go's string order, and sorting by it. */
module Names {
  import Seqs

  /** `a < b` in Go: lexicographic by code point, which is also byte order in UTF-8. */
  predicate Before(a: string, b: string) {
    b != [] && (a == [] || a[0] < b[0] || (a[0] == b[0] && Before(a[1..], b[1..])))
  }

  /** The strings agree up to `k`, where `a` ends or has the smaller character. */
  ghost predicate SmallerAt(a: string, b: string, k: nat) {
    k <= |a| && k < |b| && a[..k] == b[..k] && (k == |a| || a[k] < b[k])
  }

  ghost predicate Smaller(a: string, b: string) {
    exists k :: SmallerAt(a, b, k)
  }

  lemma SharesFirst(a: string, b: string, k: nat)
    requires SmallerAt(a, b, k)
    ensures k > 0 ==> a[0] == b[0]
  {
    assert k > 0 ==> a[..k][0] == b[..k][0];
  }

  /** Told from the first place where they differ. */
  lemma {:induction false} BeforeIsSmaller(a: string, b: string)
    ensures Before(a, b) <==> Smaller(a, b)
  {
    if a != [] && b != [] && a[0] == b[0] {
      BeforeIsSmaller(a[1..], b[1..]);
      assert a == [a[0]] + a[1..] && b == [b[0]] + b[1..];
      if k: nat :| SmallerAt(a[1..], b[1..], k) {
        assert a[..k + 1] == [a[0]] + a[1..][..k] && b[..k + 1] == [b[0]] + b[1..][..k];
        assert SmallerAt(a, b, k + 1);
      }
      if k: nat :| SmallerAt(a, b, k) {
        assert k > 0;
        assert a[1..][..k - 1] == a[..k][1..] && b[1..][..k - 1] == b[..k][1..];
        assert SmallerAt(a[1..], b[1..], k - 1);
      }
    } else if b != [] && (a == [] || a[0] < b[0]) {
      assert SmallerAt(a, b, 0);
    } else if k: nat :| SmallerAt(a, b, k) {
      SharesFirst(a, b, k);
      assert false;
    }
  }

  lemma {:induction false} BeforeTotal(a: string, b: string)
    ensures a == b || Before(a, b) || Before(b, a)
  {
    if a != [] && b != [] && a[0] == b[0] {
      BeforeTotal(a[1..], b[1..]);
      assert a == [a[0]] + a[1..] && b == [b[0]] + b[1..];
    }
  }

  lemma {:induction false} BeforeTransitive(a: string, b: string, c: string)
    requires Before(a, b) && Before(b, c)
    ensures Before(a, c)
  {
    if a != [] && a[0] == b[0] == c[0] {
      BeforeTransitive(a[1..], b[1..], c[1..]);
    }
  }

  lemma {:induction false} BeforeIrreflexive(a: string)
    ensures !Before(a, a)
  {
    if a != [] {
      BeforeIrreflexive(a[1..]);
    }
  }

  lemma BeforeAsymmetric(a: string, b: string)
    requires Before(a, b)
    ensures !Before(b, a)
  {
    if Before(b, a) {
      BeforeTransitive(a, b, a);
      BeforeIrreflexive(a);
      assert false;
    }
  }

  ghost predicate StrictlyIncreasing(s: seq<string>) {
    forall i, j :: 0 <= i < j < |s| ==> Before(s[i], s[j])
  }

  ghost predicate IsLeast(m: string, names: set<string>) {
    m in names && forall n :: n in names ==> n == m || Before(m, n)
  }

  lemma {:induction false} LeastExists(names: set<string>)
    requires names != {}
    ensures exists m :: IsLeast(m, names)
  {
    var x :| x in names;
    var rest := names - {x};
    if rest == {} {
      assert forall n :: n in names && n != x ==> n in rest;
      assert IsLeast(x, names);
    } else {
      LeastExists(rest);
      var m :| IsLeast(m, rest);
      BeforeTotal(x, m);
      if Before(x, m) {
        forall n | n in names ensures n == x || Before(x, n) {
          if n != x && n != m {
            BeforeTransitive(x, m, n);
          }
        }
        assert IsLeast(x, names);
      } else {
        assert IsLeast(m, names);
      }
    }
  }

  /** The names of a set in increasing order. */
  ghost function Sorted(names: set<string>): (s: seq<string>)
    ensures StrictlyIncreasing(s)
    ensures forall n :: n in s <==> n in names
    ensures |s| == |names|
  {
    if names == {} then []
    else
      LeastExists(names);
      var m :| IsLeast(m, names);
      [m] + Sorted(names - {m})
  }

  ghost predicate Ordered<T>(key: T -> string, s: seq<T>) {
    forall i, j :: 0 <= i < j < |s| ==> !Before(key(s[j]), key(s[i]))
  }

  function Insert<T>(key: T -> string, x: T, s: seq<T>): (r: seq<T>)
    requires Ordered(key, s)
    ensures Ordered(key, r)
    ensures multiset(r) == multiset{x} + multiset(s)
  {
    if s == [] then [x]
    else
      assert s == [s[0]] + s[1..];
      if Before(key(s[0]), key(x)) then
        var r := Insert(key, x, s[1..]);
        OrderedCons(key, s[0], x, s[1..], r);
        [s[0]] + r
      else
        OrderedFront(key, x, s);
        [x] + s
  }

  lemma OrderedCons<T>(key: T -> string, first: T, x: T, rest: seq<T>, r: seq<T>)
    requires Ordered(key, [first] + rest) && Ordered(key, r)
    requires multiset(r) == multiset{x} + multiset(rest)
    requires Before(key(first), key(x))
    ensures Ordered(key, [first] + r)
  {
    forall j | 0 <= j < |r| ensures !Before(key(r[j]), key(first)) {
      assert r[j] in multiset(r);
      if r[j] == x {
        if Before(key(x), key(first)) {
          BeforeTransitive(key(x), key(first), key(x));
          BeforeIrreflexive(key(x));
          assert false;
        }
      } else {
        assert r[j] in rest;
        var i :| 0 <= i < |rest| && rest[i] == r[j];
        var whole := [first] + rest;
        assert !Before(key(whole[i + 1]), key(whole[0]));
      }
    }
  }

  lemma OrderedFront<T>(key: T -> string, x: T, s: seq<T>)
    requires s != [] && Ordered(key, s) && !Before(key(s[0]), key(x))
    ensures Ordered(key, [x] + s)
  {
    forall j | 0 <= j < |s| ensures !Before(key(s[j]), key(x)) {
      if Before(key(s[j]), key(x)) {
        BeforeTotal(key(s[0]), key(s[j]));
        if Before(key(s[0]), key(s[j])) {
          BeforeTransitive(key(s[0]), key(s[j]), key(x));
        }
      }
    }
  }

  /** A strictly ordered arrangement is the only ordered one of its elements. */
  lemma {:induction false} OrderedIsUnique<T>(key: T -> string, s: seq<T>, t: seq<T>)
    requires Ordered(key, s) && multiset(s) == multiset(t)
    requires forall i, j :: 0 <= i < j < |t| ==> Before(key(t[i]), key(t[j]))
    ensures s == t
  {
    if s == [] {
      assert |multiset(t)| == |t|;
    } else {
      assert |multiset(t)| == |t|;
      var i := Seqs.Place(s, t);
      var j := Seqs.Place(t, s);
      if i > 0 {
        BeforeIrreflexive(key(s[0]));
        assert false;
      }
      assert t[..0] + t[1..] == t[1..];
      OrderedIsUnique(key, s[1..], t[1..]);
    }
  }

  /** The sorted names hold each name of the set once. */
  lemma {:induction false} IncreasingIsASet(s: seq<string>, names: set<string>)
    requires StrictlyIncreasing(s) && forall n :: n in s <==> n in names
    ensures multiset(s) == multiset(names)
  {
    if s != [] {
      assert s == [s[0]] + s[1..];
      BeforeIrreflexive(s[0]);
      assert s[0] !in s[1..];
      IncreasingIsASet(s[1..], names - {s[0]});
      assert multiset(names) == multiset(names - {s[0]}) + multiset{s[0]};
    }
  }

  function Itself(n: string): string {
    n
  }

  /** A library sort: any ordered arrangement of the same elements will do. */
  function SortBy<T>(key: T -> string, s: seq<T>): (r: seq<T>)
    ensures Ordered(key, r)
    ensures multiset(r) == multiset(s)
  {
    if s == [] then []
    else
      assert s == [s[0]] + s[1..];
      Insert(key, s[0], SortBy(key, s[1..]))
  }
}
