/** How alike the values of a resource pack are (api/services/resource_service.py). Floats are taken
    as reals. */
module Cohesion {

  /** What the source takes from Unicode tables. */
  datatype Unicode = Unicode(lower: string -> string, isalnum: char -> bool)

  const THRESHOLD := 0.5

  function Kept(u: Unicode, s: string): string {
    if s == "" then ""
    else if u.isalnum(s[0]) then [s[0]] + Kept(u, s[1..])
    else Kept(u, s[1..])
  }

  function Gram(chars: string, i: nat): string
    requires i + 3 <= |chars|
  {
    chars[i..i + 3]
  }

  /** Character 3-grams; a shorter rest is its own only gram. */
  function Tokenize(u: Unicode, value: string): set<string> {
    var chars := Kept(u, u.lower(value));
    if |chars| < 3 then if chars == "" then {} else {chars}
    else set i | 0 <= i < |chars| - 2 :: Gram(chars, i)
  }

  /** A value has grams unless nothing of it is kept. */
  lemma {:induction false} HasGrams(u: Unicode, value: string)
    ensures Tokenize(u, value) == {} <==> forall i :: 0 <= i < |u.lower(value)| ==> !u.isalnum(u.lower(value)[i])
    ensures forall g :: g in Tokenize(u, value) ==> 1 <= |g| <= 3
  {
    var chars := Kept(u, u.lower(value));
    KeptEmpty(u, u.lower(value));
    if |chars| >= 3 {
      assert Gram(chars, 0) in Tokenize(u, value);
    }
  }

  lemma {:induction false} KeptEmpty(u: Unicode, s: string)
    ensures Kept(u, s) == "" <==> forall i :: 0 <= i < |s| ==> !u.isalnum(s[i])
  {
    if s != "" {
      KeptEmpty(u, s[1..]);
      assert forall i :: 1 <= i < |s| ==> s[i] == s[1..][i - 1];
    }
  }

  function Grams(u: Unicode, values: seq<string>): (gs: seq<set<string>>)
    ensures |gs| == |values|
  {
    seq(|values|, i requires 0 <= i < |values| => Tokenize(u, values[i]))
  }

  // ---------------------------------------------------------------- the mean over pairs

  /** The Jaccard similarity of two sets. */
  function Similarity(a: set<string>, b: set<string>): real
    requires a != {} && b != {}
  {
    |a * b| as real / |a + b| as real
  }

  datatype Tally = Tally(total: real, pairs: nat)

  function Add(x: Tally, y: Tally): Tally {
    Tally(x.total + y.total, x.pairs + y.pairs)
  }

  /** A pair counts if neither set is empty. */
  function Pair(a: set<string>, b: set<string>): Tally {
    if a == {} || b == {} then Tally(0.0, 0) else Tally(Similarity(a, b), 1)
  }

  function Row(a: set<string>, bs: seq<set<string>>): Tally {
    if bs == [] then Tally(0.0, 0) else Add(Pair(a, bs[0]), Row(a, bs[1..]))
  }

  function Pairs(gs: seq<set<string>>): Tally {
    if gs == [] then Tally(0.0, 0) else Add(Row(gs[0], gs[1..]), Pairs(gs[1..]))
  }

  function Mean(gs: seq<set<string>>): real {
    if |gs| < 2 then 1.0
    else if Pairs(gs).pairs == 0 then 0.0
    else Pairs(gs).total / Pairs(gs).pairs as real
  }

  lemma RowCons(a: set<string>, b: set<string>, bs: seq<set<string>>)
    ensures Row(a, [b] + bs) == Add(Pair(a, b), Row(a, bs))
  {
    assert ([b] + bs)[1..] == bs;
  }

  lemma PairsCons(a: set<string>, gs: seq<set<string>>)
    ensures Pairs([a] + gs) == Add(Row(a, gs), Pairs(gs))
  {
    assert ([a] + gs)[1..] == gs;
  }

  lemma Associative(x: Tally, y: Tally, z: Tally)
    ensures Add(x, Add(y, z)) == Add(Add(x, y), z)
  {
  }

  lemma NothingAdded(x: Tally)
    ensures Add(x, Tally(0.0, 0)) == x == Add(Tally(0.0, 0), x)
  {
  }

  lemma RowNext(a: set<string>, gs: seq<set<string>>, j: nat, sofar: Tally)
    requires j < |gs|
    ensures Add(sofar, Row(a, gs[j..])) == Add(Add(sofar, Pair(a, gs[j])), Row(a, gs[j + 1..]))
  {
    assert gs[j..] == [gs[j]] + gs[j + 1..];
    RowCons(a, gs[j], gs[j + 1..]);
    Associative(sofar, Pair(a, gs[j]), Row(a, gs[j + 1..]));
  }

  /** The next pair's contribution, as the inner loop body branches. */
  method Compare(a: set<string>, b: set<string>, total: real, pairs: nat) returns (total': real, pairs': nat)
    ensures Tally(total', pairs') == Add(Tally(total, pairs), Pair(a, b))
  {
    if a == {} || b == {} {
      return total, pairs;
    }
    var intersection := |a * b|;
    if intersection == 0 {
      return total, pairs + 1;
    }
    var union := |a + b|;
    return total + intersection as real / union as real, pairs + 1;
  }

  /** The inner loop. */
  method CompareWithLater(grams: seq<set<string>>, i: nat, total: real, pairs: nat) returns (total': real, pairs': nat)
    requires i < |grams|
    ensures Tally(total', pairs') == Add(Tally(total, pairs), Row(grams[i], grams[i + 1..]))
  {
    total', pairs' := total, pairs;
    var j := i + 1;
    ghost var goal := Add(Tally(total, pairs), Row(grams[i], grams[i + 1..]));
    while j < |grams|
      invariant i < j <= |grams|
      invariant Add(Tally(total', pairs'), Row(grams[i], grams[j..])) == goal
    {
      RowNext(grams[i], grams, j, Tally(total', pairs'));
      total', pairs' := Compare(grams[i], grams[j], total', pairs');
      j := j + 1;
    }
    NothingAdded(Tally(total', pairs'));
  }

  method ComputeCohesion(u: Unicode, values: seq<string>) returns (cohesion: real)
    ensures cohesion == Mean(Grams(u, values))
  {
    if |values| < 2 {
      return 1.0;
    }
    var grams := Grams(u, values);
    var total, pairs: nat := 0.0, 0;
    var i := 0;
    assert grams[0..] == grams;
    NothingAdded(Pairs(grams));
    while i < |grams|
      invariant 0 <= i <= |grams|
      invariant Add(Tally(total, pairs), Pairs(grams[i..])) == Pairs(grams)
    {
      assert grams[i..] == [grams[i]] + grams[i + 1..];
      PairsCons(grams[i], grams[i + 1..]);
      Associative(Tally(total, pairs), Row(grams[i], grams[i + 1..]), Pairs(grams[i + 1..]));
      total, pairs := CompareWithLater(grams, i, total, pairs);
      i := i + 1;
    }
    NothingAdded(Tally(total, pairs));
    return if pairs > 0 then total / pairs as real else 0.0;
  }

  function IsSemanticBand(cohesion: real): bool {
    cohesion >= THRESHOLD
  }

  // ---------------------------------------------------------------- order does not matter

  lemma Swap(x: Tally, y: Tally, z: Tally)
    ensures Add(x, Add(y, z)) == Add(y, Add(x, z))
  {
  }

  lemma Interchange(w: Tally, x: Tally, y: Tally, z: Tally)
    ensures Add(Add(w, x), Add(y, z)) == Add(Add(w, y), Add(x, z))
  {
  }

  lemma {:induction false} RowSplit(a: set<string>, front: seq<set<string>>, x: set<string>, back: seq<set<string>>)
    ensures Row(a, front + [x] + back) == Add(Pair(a, x), Row(a, front + back))
  {
    if front == [] {
      assert front + [x] + back == [x] + back && front + back == back;
      RowCons(a, x, back);
    } else {
      var y, rest := front[0], front[1..];
      assert front + [x] + back == [y] + (rest + [x] + back);
      assert front + back == [y] + (rest + back);
      RowCons(a, y, rest + [x] + back);
      RowCons(a, y, rest + back);
      RowSplit(a, rest, x, back);
      Swap(Pair(a, y), Pair(a, x), Row(a, rest + back));
    }
  }

  /** Moving one set to the front. */
  lemma {:induction false} PairsSplit(front: seq<set<string>>, x: set<string>, back: seq<set<string>>)
    ensures Pairs(front + [x] + back) == Add(Row(x, front + back), Pairs(front + back))
  {
    if front == [] {
      assert front + [x] + back == [x] + back && front + back == back;
      PairsCons(x, back);
    } else {
      var y, rest := front[0], front[1..];
      var others := rest + back;
      assert front + [x] + back == [y] + (rest + [x] + back);
      assert front + back == [y] + others;
      PairsCons(y, rest + [x] + back);
      PairsCons(y, others);
      PairsSplit(rest, x, back);
      RowSplit(y, rest, x, back);
      RowCons(x, y, others);
      SameUnion(x, y);
      Interchange(Pair(x, y), Row(y, others), Row(x, others), Pairs(others));
    }
  }

  lemma SameUnion(x: set<string>, y: set<string>)
    ensures Pair(x, y) == Pair(y, x)
  {
    assert x * y == y * x && x + y == y + x;
  }

  /** Where the first element of one arrangement sits in another, and what is left of both. */
  lemma Locate<T>(xs: seq<T>, ys: seq<T>) returns (front: seq<T>, back: seq<T>)
    requires xs != [] && multiset(xs) == multiset(ys)
    ensures ys == front + [xs[0]] + back && multiset(xs[1..]) == multiset(front + back)
    ensures xs == [xs[0]] + xs[1..]
  {
    assert xs[0] in multiset(ys);
    var k :| 0 <= k < |ys| && ys[k] == xs[0];
    front, back := ys[..k], ys[k + 1..];
    assert ys == front + [xs[0]] + back;
    assert xs == [xs[0]] + xs[1..];
    assert multiset(front + back) == multiset(ys) - multiset{xs[0]};
    assert multiset(xs[1..]) == multiset(xs) - multiset{xs[0]};
  }

  lemma {:induction false} RowPermuted(a: set<string>, xs: seq<set<string>>, ys: seq<set<string>>)
    requires multiset(xs) == multiset(ys)
    ensures Row(a, xs) == Row(a, ys)
  {
    if xs == [] {
      assert ys == [];
    } else {
      var front, back := Locate(xs, ys);
      RowPermuted(a, xs[1..], front + back);
      RowSplit(a, front, xs[0], back);
    }
  }

  lemma {:induction false} PairsPermuted(xs: seq<set<string>>, ys: seq<set<string>>)
    requires multiset(xs) == multiset(ys)
    ensures Pairs(xs) == Pairs(ys)
  {
    if xs == [] {
      assert ys == [];
    } else {
      var front, back := Locate(xs, ys);
      PairsPermuted(xs[1..], front + back);
      RowPermuted(xs[0], xs[1..], front + back);
      PairsSplit(front, xs[0], back);
    }
  }

  lemma {:induction false} GramsPermuted(u: Unicode, xs: seq<string>, ys: seq<string>)
    requires multiset(xs) == multiset(ys)
    ensures multiset(Grams(u, xs)) == multiset(Grams(u, ys))
  {
    if xs == [] {
      assert ys == [];
    } else {
      var front, back := Locate(xs, ys);
      GramsPermuted(u, xs[1..], front + back);
      var g := Tokenize(u, xs[0]);
      assert Grams(u, xs) == [g] + Grams(u, xs[1..]);
      assert Grams(u, ys) == Grams(u, front) + [g] + Grams(u, back);
      assert Grams(u, front + back) == Grams(u, front) + Grams(u, back);
    }
  }

  /** Cohesion, and with it the verdict, depends only on the multiset of values. */
  lemma OrderIrrelevant(u: Unicode, xs: seq<string>, ys: seq<string>)
    requires multiset(xs) == multiset(ys)
    ensures Mean(Grams(u, xs)) == Mean(Grams(u, ys))
    ensures IsSemanticBand(Mean(Grams(u, xs))) == IsSemanticBand(Mean(Grams(u, ys)))
  {
    GramsPermuted(u, xs, ys);
    PairsPermuted(Grams(u, xs), Grams(u, ys));
    assert |xs| == |multiset(xs)| && |ys| == |multiset(ys)|;
  }

  // ---------------------------------------------------------------- how many pairs, and the range

  /** The values with grams. */
  function CountNonempty(gs: seq<set<string>>): (m: nat)
    ensures m <= |gs|
  {
    if gs == [] then 0 else CountNonempty(gs[1..]) + if gs[0] == {} then 0 else 1
  }

  lemma {:induction false} RowCount(a: set<string>, bs: seq<set<string>>)
    ensures Row(a, bs).pairs == if a == {} then 0 else CountNonempty(bs)
  {
    if bs != [] {
      RowCount(a, bs[1..]);
      assert bs == [bs[0]] + bs[1..];
      RowCons(a, bs[0], bs[1..]);
    }
  }

  lemma Triangle(m: nat, rest: nat)
    requires 2 * rest == m * (m - 1)
    ensures 2 * (m + rest) == (m + 1) * m
  {
  }

  lemma PairsSum(a: set<string>, gs: seq<set<string>>)
    ensures Pairs([a] + gs).pairs == (if a == {} then 0 else CountNonempty(gs)) + Pairs(gs).pairs
    ensures CountNonempty([a] + gs) == CountNonempty(gs) + if a == {} then 0 else 1
  {
    PairsCons(a, gs);
    RowCount(a, gs);
    assert ([a] + gs)[1..] == gs;
  }

  /** With `m` values that have grams, the mean is over `m * (m - 1) / 2` pairs. */
  lemma {:induction false} PairCount(gs: seq<set<string>>)
    ensures 2 * Pairs(gs).pairs == CountNonempty(gs) * (CountNonempty(gs) - 1)
  {
    if gs == [] {
      assert CountNonempty(gs) == 0;
    } else {
      var a, rest := gs[0], gs[1..];
      PairCount(rest);
      PairsSum(a, rest);
      assert gs == [a] + rest;
      Triangle(CountNonempty(rest), Pairs(rest).pairs);
    }
  }

  /** A pair that does not lower the mean. */
  predicate Same(a: set<string>, b: set<string>) {
    a == {} || b == {} || a == b
  }

  predicate Apart(a: set<string>, b: set<string>) {
    a * b == {}
  }

  /** What a tally says of the pairs in it. */
  predicate Between(t: Tally, allSame: bool, allApart: bool) {
    && 0.0 <= t.total <= t.pairs as real
    && (t.total == t.pairs as real <==> allSame)
    && (t.total == 0.0 <==> allApart)
  }

  lemma BetweenAdd(x: Tally, y: Tally, same: bool, apart: bool, same': bool, apart': bool)
    requires Between(x, same, apart) && Between(y, same', apart')
    ensures Between(Add(x, y), same && same', apart && apart')
  {
  }

  lemma Jaccard(a: set<string>, b: set<string>)
    ensures Between(Pair(a, b), Same(a, b), Apart(a, b))
  {
    if a != {} && b != {} {
      var inter, union := a * b, a + b;
      var rest := union - inter;
      assert union == inter + rest && inter !! rest;
      assert |union| == |inter| + |rest|;
      assert a == b ==> inter == union;
      assert inter == union ==> a == b;
      assert union != {};
      RealRatio(|inter| as real, |union|);
    }
  }

  lemma RealRatio(total: real, n: nat)
    requires n > 0 && 0.0 <= total <= n as real
    ensures 0.0 <= total / n as real <= 1.0
    ensures total / n as real == 1.0 <==> total == n as real
    ensures total / n as real == 0.0 <==> total == 0.0
  {
    var q := total / n as real;
    assert q * n as real == total;
  }

  ghost predicate RowAll(a: set<string>, bs: seq<set<string>>, r: (set<string>, set<string>) -> bool) {
    forall b :: b in bs ==> r(a, b)
  }

  ghost predicate Pairwise(gs: seq<set<string>>, r: (set<string>, set<string>) -> bool) {
    forall i, j :: 0 <= i < j < |gs| ==> r(gs[i], gs[j])
  }

  lemma PairwiseCons(a: set<string>, gs: seq<set<string>>, r: (set<string>, set<string>) -> bool)
    ensures Pairwise([a] + gs, r) <==> RowAll(a, gs, r) && Pairwise(gs, r)
  {
    var all := [a] + gs;
    if Pairwise(all, r) {
      forall b | b in gs ensures r(a, b) {
        var j :| 0 <= j < |gs| && gs[j] == b;
        assert all[0] == a && all[j + 1] == b;
      }
      forall i, j | 0 <= i < j < |gs| ensures r(gs[i], gs[j]) {
        assert all[i + 1] == gs[i] && all[j + 1] == gs[j];
      }
    }
  }

  lemma {:induction false} RowBetween(a: set<string>, bs: seq<set<string>>)
    ensures Between(Row(a, bs), RowAll(a, bs, Same), RowAll(a, bs, Apart))
  {
    if bs != [] {
      var b, rest := bs[0], bs[1..];
      assert bs == [b] + rest;
      RowBetween(a, rest);
      RowCons(a, b, rest);
      Jaccard(a, b);
      BetweenAdd(Pair(a, b), Row(a, rest), Same(a, b), Apart(a, b), RowAll(a, rest, Same), RowAll(a, rest, Apart));
      RowAllCons(a, b, rest, Same);
      RowAllCons(a, b, rest, Apart);
    }
  }

  lemma RowAllCons(a: set<string>, b: set<string>, bs: seq<set<string>>, r: (set<string>, set<string>) -> bool)
    ensures RowAll(a, [b] + bs, r) <==> r(a, b) && RowAll(a, bs, r)
  {
    assert b in [b] + bs;
    assert forall c :: c in bs ==> c in [b] + bs;
  }

  lemma {:induction false} PairsBetween(gs: seq<set<string>>)
    ensures Between(Pairs(gs), Pairwise(gs, Same), Pairwise(gs, Apart))
  {
    if gs != [] {
      var a, rest := gs[0], gs[1..];
      assert gs == [a] + rest;
      PairsBetween(rest);
      RowBetween(a, rest);
      PairsCons(a, rest);
      BetweenAdd(Row(a, rest), Pairs(rest), RowAll(a, rest, Same), RowAll(a, rest, Apart),
                 Pairwise(rest, Same), Pairwise(rest, Apart));
      PairwiseCons(a, rest, Same);
      PairwiseCons(a, rest, Apart);
    }
  }

  lemma {:induction false} PairsExist(gs: seq<set<string>>)
    ensures Pairs(gs).pairs > 0 <==> CountNonempty(gs) >= 2
  {
    if gs == [] {
      assert CountNonempty(gs) == 0;
    } else {
      PairsExist(gs[1..]);
      PairsSum(gs[0], gs[1..]);
      assert gs == [gs[0]] + gs[1..];
    }
  }

  lemma MeanBetween(gs: seq<set<string>>, same: bool, apart: bool)
    requires Between(Pairs(gs), same, apart)
    ensures 0.0 <= Mean(gs) <= 1.0
    ensures |gs| >= 2 && Pairs(gs).pairs > 0 ==> (Mean(gs) == 1.0 <==> same) && (Mean(gs) == 0.0 <==> apart)
    ensures |gs| >= 2 && Pairs(gs).pairs == 0 ==> Mean(gs) == 0.0
  {
    var p := Pairs(gs);
    if p.pairs > 0 {
      RealRatio(p.total, p.pairs);
    }
  }

  predicate AllAlike(gs: seq<set<string>>) {
    forall i, j | 0 <= i < j < |gs| && gs[i] != {} && gs[j] != {} :: gs[i] == gs[j]
  }

  predicate NothingShared(gs: seq<set<string>>) {
    forall i, j | 0 <= i < j < |gs| :: gs[i] * gs[j] == {}
  }

  lemma PairwiseMeans(gs: seq<set<string>>)
    ensures Pairwise(gs, Same) <==> AllAlike(gs)
    ensures Pairwise(gs, Apart) <==> NothingShared(gs)
  {
  }

  /** Cohesion lies in [0, 1]. With at least two values that have grams it is 1 exactly when all their
      gram sets are equal, and 0 exactly when no two share a gram; otherwise a pack of two or more has
      no pairs and gets 0. */
  lemma CohesionRange(gs: seq<set<string>>)
    ensures 0.0 <= Mean(gs) <= 1.0
    ensures CountNonempty(gs) >= 2 ==> (Mean(gs) == 1.0 <==> AllAlike(gs)) && (Mean(gs) == 0.0 <==> NothingShared(gs))
    ensures |gs| >= 2 && CountNonempty(gs) < 2 ==> Mean(gs) == 0.0
  {
    PairsExist(gs);
    PairsBetween(gs);
    PairwiseMeans(gs);
    MeanBetween(gs, AllAlike(gs), NothingShared(gs));
  }

  // ---------------------------------------------------------------- an independent account

  lemma {:induction false} KeptConcat(u: Unicode, a: string, b: string)
    ensures Kept(u, a + b) == Kept(u, a) + Kept(u, b)
  {
    if a == "" {
      assert a + b == b;
    } else {
      assert (a + b)[0] == a[0] && (a + b)[1..] == a[1..] + b;
      KeptConcat(u, a[1..], b);
    }
  }

  /** What is kept: every alphanumeric character, in place, and no other. */
  lemma KeptChar(u: Unicode, a: string, c: char, b: string)
    ensures Kept(u, a + [c] + b) == Kept(u, a) + (if u.isalnum(c) then [c] else []) + Kept(u, b)
  {
    KeptConcat(u, a + [c], b);
    KeptConcat(u, a, [c]);
    assert [c][1..] == "" && Kept(u, "") == "";
    assert Kept(u, [c]) == if u.isalnum(c) then [c] else [];
  }

  /** A separator that is not alphanumeric makes no difference, where lower-casing leaves it alone. */
  lemma SeparatorsIgnored(u: Unicode, a: string, separator: char, b: string, value: string, joined: string)
    requires !u.isalnum(separator)
    requires u.lower(value) == a + [separator] + b && u.lower(joined) == a + b
    ensures Tokenize(u, value) == Tokenize(u, joined)
  {
    KeptChar(u, a, separator, b);
    KeptConcat(u, a, b);
    assert Kept(u, a) + [] == Kept(u, a);
  }

  /** The grams of three or more kept characters are the runs of three; fewer are their own gram. */
  lemma GramsAre(u: Unicode, value: string, g: string)
    ensures var chars := Kept(u, u.lower(value));
      g in Tokenize(u, value) <==>
        if |chars| >= 3 then |g| == 3 && exists i :: 0 <= i <= |chars| - 3 && IsAt(chars, i, g)
        else g == chars != ""
  {
    var chars := Kept(u, u.lower(value));
    if |chars| >= 3 {
      if g in Tokenize(u, value) {
        var i :| 0 <= i < |chars| - 2 && Gram(chars, i) == g;
        assert IsAt(chars, i, g);
      }
      if i :| |g| == 3 && 0 <= i <= |chars| - 3 && IsAt(chars, i, g) {
        assert Gram(chars, i) == g;
      }
    }
  }

  predicate IsAt(s: string, i: nat, g: string) {
    i + |g| <= |s| && forall k | 0 <= k < |g| :: s[i + k] == g[k]
  }

  /** The textbook Jaccard index, zero for two empty sets. */
  function Index(a: set<string>, b: set<string>): real {
    if a + b == {} then 0.0 else |a * b| as real / |a + b| as real
  }

  function IndexSum(gs: seq<set<string>>, x: set<string>): real {
    if gs == [] then 0.0 else IndexSum(gs[..|gs| - 1], x) + Index(gs[|gs| - 1], x)
  }

  /** The sum over all pairs, each value taken with those before it. */
  function PairSum(gs: seq<set<string>>): real {
    if gs == [] then 0.0 else PairSum(gs[..|gs| - 1]) + IndexSum(gs[..|gs| - 1], gs[|gs| - 1])
  }

  lemma PairIndex(a: set<string>, b: set<string>)
    ensures Pair(a, b).total == Index(b, a)
  {
    assert a * b == b * a && a + b == b + a;
    if (a == {} || b == {}) && a + b != {} {
      assert a * b == {};
    }
  }

  lemma TotalAdd(p: Tally, r: Tally, i: real, s: real)
    requires p.total == i && r.total == s
    ensures Add(p, r).total == s + i
  {
  }

  lemma {:induction false} RowLast(x: set<string>, front: seq<set<string>>, last: set<string>)
    ensures Row(x, front + [last]) == Add(Pair(x, last), Row(x, front))
  {
    if front == [] {
      assert front + [last] == [last] + [];
      RowCons(x, last, []);
    } else {
      var y, rest := front[0], front[1..];
      assert front + [last] == [y] + (rest + [last]) && front == [y] + rest;
      RowCons(x, y, rest + [last]);
      RowCons(x, y, rest);
      RowLast(x, rest, last);
      Swap(Pair(x, y), Pair(x, last), Row(x, rest));
    }
  }

  lemma IndexSumLast(front: seq<set<string>>, last: set<string>, x: set<string>)
    ensures IndexSum(front + [last], x) == IndexSum(front, x) + Index(last, x)
  {
    assert (front + [last])[..|front|] == front;
  }

  lemma {:induction false} RowSum(x: set<string>, gs: seq<set<string>>)
    ensures Row(x, gs).total == IndexSum(gs, x)
  {
    if gs != [] {
      var front, last := gs[..|gs| - 1], gs[|gs| - 1];
      assert gs == front + [last];
      RowSum(x, front);
      RowLast(x, front, last);
      PairIndex(x, last);
      IndexSumLast(front, last, x);
      TotalAdd(Pair(x, last), Row(x, front), Index(last, x), IndexSum(front, x));
    }
  }

  lemma {:induction false} PairsLast(front: seq<set<string>>, last: set<string>)
    ensures Pairs(front + [last]) == Add(Row(last, front), Pairs(front))
  {
    if front == [] {
      assert front + [last] == [last] + [];
      PairsCons(last, []);
    } else {
      var y, rest := front[0], front[1..];
      assert front + [last] == [y] + (rest + [last]) && front == [y] + rest;
      PairsCons(y, rest + [last]);
      PairsCons(y, rest);
      PairsLast(rest, last);
      RowLast(y, rest, last);
      RowCons(last, y, rest);
      SameUnion(last, y);
      Interchange(Pair(last, y), Row(y, rest), Row(last, rest), Pairs(rest));
    }
  }

  lemma PairSumLast(front: seq<set<string>>, last: set<string>)
    ensures PairSum(front + [last]) == PairSum(front) + IndexSum(front, last)
  {
    assert (front + [last])[..|front|] == front;
  }

  lemma {:induction false} PairsTotal(gs: seq<set<string>>)
    ensures Pairs(gs).total == PairSum(gs)
  {
    if gs != [] {
      var front, last := gs[..|gs| - 1], gs[|gs| - 1];
      assert gs == front + [last];
      PairsTotal(front);
      RowSum(last, front);
      PairsLast(front, last);
      PairSumLast(front, last);
      TotalAdd(Row(last, front), Pairs(front), IndexSum(front, last), PairSum(front));
    }
  }

  /** Fewer than two values cohere fully. Otherwise cohesion is the sum of the Jaccard indices of all
      pairs of values, over `m * (m - 1) / 2` for the `m` values that have grams. */
  lemma CohesionIs(gs: seq<set<string>>)
    ensures |gs| < 2 ==> Mean(gs) == 1.0
    ensures |gs| >= 2 && Pairs(gs).pairs > 0 ==> Mean(gs) == PairSum(gs) / Pairs(gs).pairs as real
    ensures |gs| >= 2 && Pairs(gs).pairs == 0 ==> Mean(gs) == 0.0
    ensures 2 * Pairs(gs).pairs == CountNonempty(gs) * (CountNonempty(gs) - 1)
  {
    PairCount(gs);
    PairsTotal(gs);
  }

  /** A band: at least half of the possible cohesion. */
  lemma BandFromHalf(cohesion: real)
    ensures IsSemanticBand(cohesion) <==> cohesion + cohesion >= 1.0
  {
  }
}
