/** Total orders and the one ascending listing of a finite set, used wherever the source sorts:
    JSON object keys, the pages of the server list and the watchdog's alert groups. */
module Sorting {

  ghost predicate TotalOrder<T(!new)>(le: (T, T) -> bool) {
    && (forall x, y :: le(x, y) || le(y, x))
    && (forall x, y :: le(x, y) && le(y, x) ==> x == y)
    && (forall x, y, z :: le(x, y) && le(y, z) ==> le(x, z))
  }

  /** Strictly ascending: in order and without repetition. */
  ghost predicate Ascending<T(!new)>(xs: seq<T>, le: (T, T) -> bool) {
    forall i, j :: 0 <= i < j < |xs| ==> le(xs[i], xs[j]) && xs[i] != xs[j]
  }

  function Elements<T>(xs: seq<T>): set<T> {
    set x | x in xs
  }

  lemma Total<T(!new)>(le: (T, T) -> bool, x: T, y: T)
    requires TotalOrder(le)
    ensures le(x, x) && (le(x, y) || le(y, x))
  {
  }

  lemma Transitive<T(!new)>(le: (T, T) -> bool, x: T, y: T, z: T)
    requires TotalOrder(le) && le(x, y) && le(y, z)
    ensures le(x, z)
  {
  }

  predicate IsLeast<T(!new,==)>(x: T, s: set<T>, le: (T, T) -> bool) {
    x in s && forall y | y in s :: le(x, y)
  }

  /** The lesser of a new element and the least of the rest. */
  lemma LesserOfTwo<T(!new)>(s: set<T>, x: T, z: T, le: (T, T) -> bool)
    requires TotalOrder(le) && x in s && IsLeast(z, s - {x}, le)
    ensures IsLeast(if le(x, z) then x else z, s, le)
  {
    Total(le, x, z);
    var least := if le(x, z) then x else z;
    forall y | y in s ensures le(least, y) {
      if y != x {
        assert y in s - {x};
        if le(x, z) {
          Transitive(le, x, z, y);
        }
      }
    }
  }

  lemma {:induction false} LeastExists<T(!new)>(s: set<T>, le: (T, T) -> bool)
    requires TotalOrder(le) && s != {}
    ensures exists x :: IsLeast(x, s, le)
  {
    var x :| x in s;
    if s == {x} {
      Total(le, x, x);
      assert IsLeast(x, s, le);
    } else {
      assert s - {x} != {};
      LeastExists(s - {x}, le);
      var z :| IsLeast(z, s - {x}, le);
      LesserOfTwo(s, x, z, le);
    }
  }

  function Sorted<T(!new,==)>(s: set<T>, le: (T, T) -> bool): (r: seq<T>)
    requires TotalOrder(le)
    ensures Ascending(r, le)
    ensures Elements(r) == s
    ensures |r| == |s|
  {
    if s == {} then []
    else
      LeastExists(s, le);
      var x :| x in s && IsLeast(x, s, le);
      var rest := Sorted(s - {x}, le);
      assert forall y :: y in rest <==> y in Elements(rest);
      [x] + rest
  }

  /** Two ascending listings of one set are the same sequence. */
  lemma {:induction false} AscendingUnique<T(!new)>(xs: seq<T>, ys: seq<T>, le: (T, T) -> bool)
    requires TotalOrder(le) && Ascending(xs, le) && Ascending(ys, le)
    requires Elements(xs) == Elements(ys)
    ensures xs == ys
  {
    assert ys == [] || ys[0] in Elements(ys);
    if xs != [] {
      assert xs[0] in Elements(ys);
      assert ys[0] in Elements(xs);
      var i :| 0 <= i < |ys| && ys[i] == xs[0];
      var j :| 0 <= j < |xs| && xs[j] == ys[0];
      assert xs[0] == ys[0];
      forall x | true
        ensures x in xs[1..] <==> x in ys[1..]
      {
        assert x in Elements(xs) <==> x in Elements(ys);
        assert xs == [xs[0]] + xs[1..] && ys == [ys[0]] + ys[1..];
        assert xs[0] !in xs[1..] && ys[0] !in ys[1..];
      }
      AscendingUnique(xs[1..], ys[1..], le);
      assert xs == [xs[0]] + xs[1..] && ys == [ys[0]] + ys[1..];
    }
  }

  /** Code-point order on strings, the order of Python's `sorted` and of `sort_keys`. */
  predicate LexLe(a: string, b: string) {
    if a == [] then true
    else if b == [] then false
    else a[0] < b[0] || (a[0] == b[0] && LexLe(a[1..], b[1..]))
  }

  /** The first difference decides; a proper prefix comes first. */
  lemma {:induction false} LexLeMeans(a: string, b: string)
    ensures LexLe(a, b) <==>
      a <= b || exists i :: 0 <= i < |a| && i < |b| && a[..i] == b[..i] && a[i] < b[i]
  {
    if a != [] && b != [] {
      if a[0] == b[0] {
        LexLeMeans(a[1..], b[1..]);
        SharedFirst(a, b);
      } else if a[0] < b[0] {
        assert a[..0] == b[..0];
      } else {
        forall i | 0 < i < |a| && i < |b| ensures a[..i] != b[..i] {
          assert a[..i][0] != b[..i][0];
        }
      }
    }
  }

  lemma SharedFirst(a: string, b: string)
    requires a != [] && b != [] && a[0] == b[0]
    ensures a[1..] <= b[1..] <==> a <= b
    ensures (exists i :: 0 <= i < |a[1..]| && i < |b[1..]| && a[1..][..i] == b[1..][..i] && a[1..][i] < b[1..][i]) <==>
      (exists i :: 0 <= i < |a| && i < |b| && a[..i] == b[..i] && a[i] < b[i])
  {
    var x, y := a[1..], b[1..];
    assert a == [a[0]] + x && b == [a[0]] + y;
    if i :| 0 <= i < |x| && i < |y| && x[..i] == y[..i] && x[i] < y[i] {
      assert a[..i + 1] == [a[0]] + x[..i] && b[..i + 1] == [a[0]] + y[..i];
      assert a[i + 1] < b[i + 1];
    }
    if i :| 0 <= i < |a| && i < |b| && a[..i] == b[..i] && a[i] < b[i] {
      assert a[..i][1..] == x[..i - 1] && b[..i][1..] == y[..i - 1];
      assert x[i - 1] < y[i - 1];
    }
  }

  lemma {:induction false} LexTotal(a: string, b: string)
    ensures LexLe(a, b) || LexLe(b, a)
  {
    if a != [] && b != [] && a[0] == b[0] {
      LexTotal(a[1..], b[1..]);
    }
  }

  lemma {:induction false} LexAntisymmetric(a: string, b: string)
    requires LexLe(a, b) && LexLe(b, a)
    ensures a == b
  {
    if a != [] && b != [] {
      LexAntisymmetric(a[1..], b[1..]);
      assert a == [a[0]] + a[1..] && b == [b[0]] + b[1..];
    }
  }

  lemma {:induction false} LexTransitive(a: string, b: string, c: string)
    requires LexLe(a, b) && LexLe(b, c)
    ensures LexLe(a, c)
  {
    if a != [] && b != [] && c != [] && a[0] == b[0] && b[0] == c[0] {
      LexTransitive(a[1..], b[1..], c[1..]);
    }
  }

  lemma LexLeTotalOrder()
    ensures TotalOrder(LexLe)
  {
    forall a, b ensures LexLe(a, b) || LexLe(b, a) { LexTotal(a, b); }
    forall a, b | LexLe(a, b) && LexLe(b, a) ensures a == b { LexAntisymmetric(a, b); }
    forall a, b, c | LexLe(a, b) && LexLe(b, c) ensures LexLe(a, c) { LexTransitive(a, b, c); }
  }
}
