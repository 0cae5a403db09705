// Ascending sequences without duplicates: the result of sorting a set or the keys of a dictionary.
module Sorting {

  ghost predicate StrictOrder<T(!new)>(lt: (T, T) -> bool) {
    && (forall x :: !lt(x, x))
    && (forall x, y, z :: lt(x, y) && lt(y, z) ==> lt(x, z))
    && (forall x, y :: x != y ==> lt(x, y) || lt(y, x))
  }

  ghost predicate Ascending<T>(s: seq<T>, lt: (T, T) -> bool) {
    forall i, j :: 0 <= i < j < |s| ==> lt(s[i], s[j])
  }

  /** An ascending sequence is determined by the set of its elements. */
  lemma {:induction false} AscendingUnique<T(!new)>(a: seq<T>, b: seq<T>, lt: (T, T) -> bool)
    requires StrictOrder(lt) && Ascending(a, lt) && Ascending(b, lt)
    requires forall x :: x in a <==> x in b
    ensures a == b
  {
    AscendingLength(a, lt);
    AscendingLength(b, lt);
    assert (set x | x in a) == (set x | x in b);
    if a != [] {
      assert a[0] in b && b[0] in a;
      assert a[0] == b[0] by {
        var i :| 0 <= i < |b| && b[i] == a[0];
        var j :| 0 <= j < |a| && a[j] == b[0];
      }
      forall x ensures x in a[1..] <==> x in b[1..] {
        if x in a[1..] {
          var j :| 1 <= j < |a| && a[j] == x;
          assert lt(a[0], x) && x in a;
          var i :| 0 <= i < |b| && b[i] == x;
        }
        if x in b[1..] {
          var j :| 1 <= j < |b| && b[j] == x;
          assert lt(b[0], x) && x in b;
          var i :| 0 <= i < |a| && a[i] == x;
        }
      }
      AscendingUnique(a[1..], b[1..], lt);
    }
  }

  /** An ascending sequence lists each of its elements once. */
  lemma {:induction false} AscendingLength<T(!new)>(a: seq<T>, lt: (T, T) -> bool)
    requires StrictOrder(lt) && Ascending(a, lt)
    ensures |set x | x in a| == |a|
  {
    if a != [] {
      var n := |a| - 1;
      var rest := set x | x in a[..n];
      AscendingLength(a[..n], lt);
      assert a[n] !in rest;
      assert (set x | x in a) == rest + {a[n]};
    }
  }

  lemma AscendingDistinct<T(!new)>(s: seq<T>, lt: (T, T) -> bool)
    requires StrictOrder(lt) && Ascending(s, lt)
    ensures forall i, j :: 0 <= i < |s| && 0 <= j < |s| && s[i] == s[j] ==> i == j
  {
  }

  /** Position of a new element: everything before `i` is below it, everything from `i` on above. */
  method Position<T(!new)>(s: seq<T>, x: T, lt: (T, T) -> bool) returns (i: nat)
    requires StrictOrder(lt) && Ascending(s, lt) && x !in s
    ensures i <= |s|
    ensures forall j :: 0 <= j < i ==> lt(s[j], x)
    ensures forall j :: i <= j < |s| ==> lt(x, s[j])
  {
    i := 0;
    while i < |s| && lt(s[i], x)
      invariant i <= |s|
      invariant forall j :: 0 <= j < i ==> lt(s[j], x)
    {
      i := i + 1;
    }
    if i < |s| {
      assert lt(x, s[i]);
    }
  }

  lemma Inserted<T(!new)>(s: seq<T>, i: nat, x: T, lt: (T, T) -> bool)
    requires Ascending(s, lt) && i <= |s|
    requires (forall j :: 0 <= j < i ==> lt(s[j], x)) && forall j :: i <= j < |s| ==> lt(x, s[j])
    ensures Ascending(s[..i] + [x] + s[i..], lt)
    ensures forall y :: y in s[..i] + [x] + s[i..] <==> y in s || y == x
  {
    assert s == s[..i] + s[i..];
  }

  /** `sorted` over a set: its elements once each, in ascending order. */
  method SortSet<T(!new,==)>(elems: set<T>, lt: (T, T) -> bool) returns (out: seq<T>)
    requires StrictOrder(lt)
    ensures Ascending(out, lt)
    ensures forall x :: x in out <==> x in elems
  {
    out := [];
    var todo := elems;
    while todo != {}
      invariant todo <= elems && Ascending(out, lt)
      invariant forall x :: x in out <==> x in elems - todo
      decreases todo
    {
      var x :| x in todo;
      todo := todo - {x};
      var i := Position(out, x, lt);
      Inserted(out, i, x, lt);
      out := out[..i] + [x] + out[i..];
    }
  }

  // ---- text, and pairs of a text and an index ----

  /** Code-point order on text, the order of Python's and Go's string comparison. */
  predicate TextLt(a: string, b: string) {
    b != [] && (a == [] || a[0] < b[0] || (a[0] == b[0] && TextLt(a[1..], b[1..])))
  }

  predicate KeyLt(a: (string, int), b: (string, int)) {
    TextLt(a.0, b.0) || (a.0 == b.0 && a.1 < b.1)
  }

  lemma {:induction false} TextIrreflexive(a: string)
    ensures !TextLt(a, a)
  {
    if a != [] { TextIrreflexive(a[1..]); }
  }

  lemma {:induction false} TextTransitive(a: string, b: string, c: string)
    requires TextLt(a, b) && TextLt(b, c)
    ensures TextLt(a, c)
  {
    if a != [] && a[0] == b[0] == c[0] { TextTransitive(a[1..], b[1..], c[1..]); }
  }

  lemma {:induction false} TextTotal(a: string, b: string)
    requires a != b
    ensures TextLt(a, b) || TextLt(b, a)
  {
    if a != [] && b != [] && a[0] == b[0] {
      assert a == [a[0]] + a[1..] && b == [b[0]] + b[1..];
      TextTotal(a[1..], b[1..]);
    }
  }

  lemma TextOrder()
    ensures StrictOrder(TextLt)
  {
    forall a: string ensures !TextLt(a, a) { TextIrreflexive(a); }
    forall a, b, c | TextLt(a, b) && TextLt(b, c) ensures TextLt(a, c) { TextTransitive(a, b, c); }
    forall a: string, b: string | a != b ensures TextLt(a, b) || TextLt(b, a) { TextTotal(a, b); }
  }

  lemma KeyOrder()
    ensures StrictOrder(KeyLt)
  {
    TextOrder();
  }
}
