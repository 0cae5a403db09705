// Counting: how many elements of a sequence satisfy a predicate, and sums over finite sets.
// The conservation results of the other modules are statements about these two functions.
module Tally {

  function CountIf<T>(s: seq<T>, p: T -> bool): nat {
    if s == [] then 0 else CountIf(s[..|s| - 1], p) + (if p(s[|s| - 1]) then 1 else 0)
  }

  lemma CountSnoc<T>(s: seq<T>, x: T, p: T -> bool)
    ensures CountIf(s + [x], p) == CountIf(s, p) + (if p(x) then 1 else 0)
  {
    assert (s + [x])[..|s|] == s;
  }

  lemma {:induction false} CountConcat<T>(a: seq<T>, b: seq<T>, p: T -> bool)
    ensures CountIf(a + b, p) == CountIf(a, p) + CountIf(b, p)
  {
    if b == [] {
      assert a + b == a;
    } else {
      var n := |b| - 1;
      CountConcat(a, b[..n], p);
      assert (a + b)[..|a + b| - 1] == a + b[..n];
    }
  }

  lemma {:induction false} CountSplit<T>(s: seq<T>, p: T -> bool, q: T -> bool, r: T -> bool)
    requires forall x :: x in s ==> (p(x) <==> q(x) || r(x)) && !(q(x) && r(x))
    ensures CountIf(s, p) == CountIf(s, q) + CountIf(s, r)
  {
    if s != [] {
      assert s[|s| - 1] in s;
      CountSplit(s[..|s| - 1], p, q, r);
    }
  }

  lemma {:induction false} CountSame<T>(s: seq<T>, p: T -> bool, q: T -> bool)
    requires forall x :: x in s ==> p(x) == q(x)
    ensures CountIf(s, p) == CountIf(s, q)
  {
    if s != [] {
      assert s[|s| - 1] in s;
      CountSame(s[..|s| - 1], p, q);
    }
  }

  lemma {:induction false} CountPositive<T>(s: seq<T>, p: T -> bool)
    ensures CountIf(s, p) > 0 <==> exists x :: x in s && p(x)
  {
    if s != [] {
      var n := |s| - 1;
      CountPositive(s[..n], p);
      if p(s[n]) {
        assert s[n] in s;
      } else if x :| x in s && p(x) {
        assert x in s[..n];
      }
    }
  }

  /** What is counted at most once is there at most once. */
  lemma {:induction false} CountOnce<T>(s: seq<T>, p: T -> bool, x: T, y: T)
    requires x in s && y in s && p(x) && p(y) && CountIf(s, p) <= 1
    ensures x == y
  {
    var n := |s| - 1;
    if x in s[..n] && y in s[..n] {
      CountOnce(s[..n], p, x, y);
    } else {
      CountPositive(s[..n], p);
    }
  }

  /** Counting does not depend on order. */
  lemma {:induction false} CountPermutation<T>(a: seq<T>, b: seq<T>, p: T -> bool)
    requires multiset(a) == multiset(b)
    ensures CountIf(a, p) == CountIf(b, p)
  {
    if a == [] {
      SamePermutationLength(a, b);
    } else {
      var n := |a| - 1;
      var x := a[n];
      assert a == a[..n] + [x];
      assert x in multiset(a);
      var i :| 0 <= i < |b| && b[i] == x;
      var rest := b[..i] + b[i + 1..];
      assert b == b[..i] + [x] + b[i + 1..];
      assert multiset(a[..n]) == multiset(rest) by {
        assert multiset(rest) == multiset(b) - multiset{x};
        assert multiset(a[..n]) == multiset(a) - multiset{x};
      }
      CountPermutation(a[..n], rest, p);
      CountConcat(b[..i], b[i + 1..], p);
      CountConcat(b[..i] + [x], b[i + 1..], p);
      CountSnoc(b[..i], x, p);
    }
  }

  lemma SamePermutationLength<T>(a: seq<T>, b: seq<T>)
    requires multiset(a) == multiset(b)
    ensures |a| == |b|
  {
    assert |multiset(a)| == |a| && |multiset(b)| == |b|;
  }

  // ---- sums over finite sets ----

  ghost function SumOver<K>(ks: set<K>, f: K -> int): int {
    if ks == {} then 0 else var k :| k in ks; f(k) + SumOver(ks - {k}, f)
  }

  /** Any element may be taken out first. */
  lemma {:induction false} SumTake<K>(ks: set<K>, f: K -> int, x: K)
    requires x in ks
    ensures SumOver(ks, f) == f(x) + SumOver(ks - {x}, f)
    decreases |ks|
  {
    var k :| k in ks && SumOver(ks, f) == f(k) + SumOver(ks - {k}, f);
    if k != x {
      SumTake(ks - {k}, f, x);
      SumTake(ks - {x}, f, k);
      assert ks - {k} - {x} == ks - {x} - {k};
    }
  }

  lemma {:induction false} SumAdd<K>(ks: set<K>, f: K -> int, g: K -> int, h: K -> int)
    requires forall k :: k in ks ==> h(k) == f(k) + g(k)
    ensures SumOver(ks, h) == SumOver(ks, f) + SumOver(ks, g)
  {
    if ks != {} {
      var k :| k in ks;
      SumTake(ks, f, k);
      SumTake(ks, g, k);
      SumTake(ks, h, k);
      SumAdd(ks - {k}, f, g, h);
    }
  }

  lemma {:induction false} SumSame<K>(ks: set<K>, f: K -> int, g: K -> int)
    requires forall k :: k in ks ==> f(k) == g(k)
    ensures SumOver(ks, f) == SumOver(ks, g)
  {
    if ks != {} {
      var k :| k in ks;
      SumTake(ks, f, k);
      SumTake(ks, g, k);
      SumSame(ks - {k}, f, g);
    }
  }

  /** A sum with one summand of one at `x`, if `x` is there, and zeros elsewhere. */
  lemma {:induction false} SumIndicator<K>(ks: set<K>, f: K -> int, x: K)
    requires forall k :: k in ks ==> f(k) == if k == x then 1 else 0
    ensures SumOver(ks, f) == if x in ks then 1 else 0
  {
    if ks != {} {
      var k :| k in ks;
      SumTake(ks, f, k);
      SumIndicator(ks - {k}, f, x);
    }
  }

  lemma {:induction false} SumZero<K>(ks: set<K>, f: K -> int)
    requires forall k :: k in ks ==> f(k) == 0
    ensures SumOver(ks, f) == 0
  {
    if ks != {} {
      var k :| k in ks;
      SumTake(ks, f, k);
      SumZero(ks - {k}, f);
    }
  }

  /**
    The partition principle: when every counted element has its key in `ks`, the counts of the
    elements with key `k`, summed over `ks`, give the count of all of them.
  */
  lemma {:induction false} CountByKey<T, K>(s: seq<T>, p: T -> bool, key: T -> K, ks: set<K>, part: K -> (T -> bool), f: K -> int)
    requires forall x :: x in s && p(x) ==> key(x) in ks
    requires forall x, k {:trigger part(k)(x)} :: x in s && k in ks ==> (part(k)(x) <==> p(x) && key(x) == k)
    requires forall k :: k in ks ==> f(k) == CountIf(s, part(k))
    ensures SumOver(ks, f) == CountIf(s, p)
  {
    if s == [] {
      SumZero(ks, f);
    } else {
      var n := |s| - 1;
      var x := s[n];
      assert x in s;
      var shorter := (k: K) => CountIf(s[..n], part(k)) as int;
      var last := (k: K) => if part(k)(x) then 1 else 0;
      CountByKey(s[..n], p, key, ks, part, shorter);
      SumAdd(ks, shorter, last, f);
      if p(x) {
        SumIndicator(ks, last, key(x));
      } else {
        SumZero(ks, last);
      }
    }
  }

  /** A sum is dominated summand by summand, and equal only when every summand is. */
  lemma {:induction false} SumAtMost<K>(ks: set<K>, f: K -> int, g: K -> int)
    requires forall k :: k in ks ==> f(k) <= g(k)
    ensures SumOver(ks, f) <= SumOver(ks, g)
    ensures SumOver(ks, f) == SumOver(ks, g) <==> forall k :: k in ks ==> f(k) == g(k)
  {
    if ks != {} {
      var k :| k in ks;
      SumTake(ks, f, k);
      SumTake(ks, g, k);
      SumAtMost(ks - {k}, f, g);
    }
  }

  /** Counting a part: no more than the whole, and as much only when nothing else is counted. */
  lemma {:induction false} CountPart<T>(s: seq<T>, p: T -> bool, q: T -> bool)
    requires forall x :: x in s && p(x) ==> q(x)
    ensures CountIf(s, p) <= CountIf(s, q)
    ensures CountIf(s, p) == CountIf(s, q) <==> forall x :: x in s && q(x) ==> p(x)
  {
    if s != [] {
      var n := |s| - 1;
      assert s[n] in s;
      assert forall x :: x in s <==> x in s[..n] || x == s[n];
      CountPart(s[..n], p, q);
    }
  }

  // ---- tables of counts ----

  ghost function MapTotal<K>(m: map<K, nat>): int {
    SumOver(m.Keys, Entry(m))
  }

  ghost function Entry<K>(m: map<K, nat>): K -> int {
    (k: K) => if k in m then m[k] as int else 0
  }

  lemma MapTotalPositive<K>(m: map<K, nat>)
    requires m != map[] && forall k :: k in m ==> m[k] > 0
    ensures MapTotal(m) > 0
  {
    var zero := (k: K) => 0;
    SumZero(m.Keys, zero);
    SumAtMost(m.Keys, zero, Entry(m));
    var k :| k in m;
    assert zero(k) != Entry(m)(k);
  }

  /** A table of counts by key totals the rows that have a key. */
  lemma TableTotal<T, K>(s: seq<T>, m: map<K, nat>, p: T -> bool, key: T -> K, part: K -> (T -> bool))
    requires forall x :: x in s && p(x) ==> key(x) in m
    requires forall x, k {:trigger part(k)(x)} :: x in s && k in m ==> (part(k)(x) <==> p(x) && key(x) == k)
    requires forall k :: k in m ==> m[k] == CountIf(s, part(k))
    ensures MapTotal(m) == CountIf(s, p)
  {
    CountByKey(s, p, key, m.Keys, part, Entry(m));
  }
}
