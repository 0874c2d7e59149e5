/** The exact one-sided paired sign test and the paired assessment built on it: integer
    tails over powers of two, a sorted median, and thresholds fixed by the protocol. */
module SignTest {
  import opened Wrappers

  function Pow2(n: nat): (r: nat)
    ensures r > 0
  {
    if n == 0 then 1 else 2 * Pow2(n - 1)
  }

  /** `comb(n, j)`, by Pascal's rule. */
  function Choose(n: nat, j: nat): nat {
    if j == 0 then 1 else if n == 0 then 0 else Choose(n - 1, j - 1) + Choose(n - 1, j)
  }

  /** `sum(comb(n, j) for j in range(k, n + 1))` */
  function Tail(n: nat, k: nat): nat
    decreases n + 1 - k
  {
    if k > n then 0 else Choose(n, k) + Tail(n, k + 1)
  }

  lemma {:induction false} ChooseBeyond(n: nat, j: nat)
    requires j > n
    ensures Choose(n, j) == 0
  {
    if n > 0 {
      ChooseBeyond(n - 1, j - 1);
      ChooseBeyond(n - 1, j);
    }
  }

  lemma {:induction false} TailPascal(n: nat, k: nat)
    requires n > 0 && k > 0
    ensures Tail(n, k) == Tail(n - 1, k - 1) + Tail(n - 1, k)
    decreases n + 1 - k
  {
    if k == n {
      ChooseBeyond(n - 1, n);
    } else if k < n {
      TailPascal(n, k + 1);
    }
  }

  lemma {:induction false} TailAll(n: nat)
    ensures Tail(n, 0) == Pow2(n)
  {
    if n > 0 {
      TailAll(n - 1);
      TailPascal(n, 1);
      assert Tail(n, 0) == 1 + Tail(n, 1);
      assert Tail(n - 1, 0) == 1 + Tail(n - 1, 1);
    }
  }

  lemma {:induction false} ChoosePositive(n: nat, j: nat)
    requires j <= n
    ensures Choose(n, j) > 0
  {
    if j > 0 {
      ChoosePositive(n - 1, j - 1);
    }
  }

  lemma TailBounds(n: nat, k: nat)
    requires k <= n
    ensures 0 < Tail(n, k) <= Pow2(n)
    ensures Tail(n, k) == Pow2(n) <==> k == 0
  {
    ChoosePositive(n, k);
    TailAll(n);
    if k > 0 {
      TailShrinks(n, 1, k);
    }
  }

  lemma {:induction false} TailShrinks(n: nat, j: nat, k: nat)
    requires j <= k
    ensures Tail(n, k) <= Tail(n, j)
    decreases k - j
  {
    if j < k {
      TailShrinks(n, j + 1, k);
    }
  }

  // ---- the tail counts sign vectors ---------------------------------------------------------

  /** Every vector of `n` signs, true for a positive pair. */
  ghost function Vectors(n: nat): set<seq<bool>> {
    if n == 0 then {[]} else Prefixed(true, Vectors(n - 1)) + Prefixed(false, Vectors(n - 1))
  }

  ghost function Prefixed(b: bool, s: set<seq<bool>>): set<seq<bool>> {
    set v | v in s :: [b] + v
  }

  function Positives(v: seq<bool>): nat {
    if v == [] then 0 else (if v[0] then 1 else 0) + Positives(v[1..])
  }

  ghost function AtLeast(n: nat, k: nat): set<seq<bool>> {
    set v | v in Vectors(n) && Positives(v) >= k
  }

  lemma {:induction false} VectorsAreAll(n: nat, v: seq<bool>)
    ensures v in Vectors(n) <==> |v| == n
  {
    if n > 0 {
      InPrefixed(true, Vectors(n - 1), v);
      InPrefixed(false, Vectors(n - 1), v);
      if |v| > 0 {
        VectorsAreAll(n - 1, v[1..]);
      }
    }
  }

  lemma InPrefixed(b: bool, s: set<seq<bool>>, v: seq<bool>)
    ensures v in Prefixed(b, s) <==> |v| > 0 && v[0] == b && v[1..] in s
  {
    if |v| > 0 {
      assert v == [v[0]] + v[1..];
    }
    if w :| w in s && v == [b] + w {
      assert v[1..] == w;
    }
  }

  lemma PrefixedSize(b: bool, s: set<seq<bool>>)
    ensures |Prefixed(b, s)| == |s|
    decreases |s|
  {
    if s != {} {
      var v :| v in s;
      PrefixedSize(b, s - {v});
      assert Prefixed(b, s) == Prefixed(b, s - {v}) + {[b] + v};
      InPrefixed(b, s - {v}, [b] + v);
      assert ([b] + v)[1..] == v;
    }
  }

  lemma AtLeastSplit(n: nat, k: nat)
    requires n > 0
    ensures AtLeast(n, k) == Prefixed(true, AtLeast(n - 1, if k == 0 then 0 else k - 1))
            + Prefixed(false, AtLeast(n - 1, k))
  {
    var t := AtLeast(n - 1, if k == 0 then 0 else k - 1);
    var f := AtLeast(n - 1, k);
    forall v: seq<bool>
      ensures v in AtLeast(n, k) <==> v in Prefixed(true, t) + Prefixed(false, f)
    {
      VectorsAreAll(n, v);
      InPrefixed(true, t, v);
      InPrefixed(false, f, v);
      if |v| > 0 {
        VectorsAreAll(n - 1, v[1..]);
      }
    }
  }

  /** The numerator is the number of length-`n` sign vectors with at least `k` positives. */
  lemma {:induction false} TailCounts(n: nat, k: nat)
    ensures |AtLeast(n, k)| == Tail(n, k)
  {
    hide Prefixed;
    if n == 0 {
      assert Vectors(0) == {[]};
      if k == 0 {
        assert AtLeast(0, 0) == {[]};
      } else {
        assert AtLeast(0, k) == {};
      }
    } else {
      var t, f := AtLeast(n - 1, if k == 0 then 0 else k - 1), AtLeast(n - 1, k);
      TailCounts(n - 1, if k == 0 then 0 else k - 1);
      TailCounts(n - 1, k);
      AtLeastSplit(n, k);
      PrefixedSize(true, t);
      PrefixedSize(false, f);
      DisjointPrefixes(t, f);
      if k == 0 {
        TailAll(n);
        TailAll(n - 1);
      } else {
        TailPascal(n, k);
      }
      assert AtLeast(n, k) == Prefixed(true, t) + Prefixed(false, f);
    }
  }

  lemma DisjointPrefixes(t: set<seq<bool>>, f: set<seq<bool>>)
    ensures |Prefixed(true, t) + Prefixed(false, f)| == |Prefixed(true, t)| + |Prefixed(false, f)|
  {
    assert forall v :: v in Prefixed(true, t) ==> v[0];
    assert forall v :: v in Prefixed(false, f) ==> !v[0];
    assert Prefixed(true, t) !! Prefixed(false, f);
  }

  // ---- the sign test over measured differences ----------------------------------------------

  /** A reported difference; booleans and non-integers are not measurements. */
  datatype Measure = Count(value: int) | NotAnInteger

  datatype Test =
    | InvalidMeasurement
    | NoNonzeroPairs(ties: nat)
    | Computed(n: nat, k: nat, ties: nat, numerator: nat, denominator: nat)

  function Values(ms: seq<Measure>): (r: seq<int>)
    requires forall i :: 0 <= i < |ms| ==> ms[i].Count?
  {
    seq(|ms|, i requires 0 <= i < |ms| => ms[i].value)
  }

  function Nonzero(vs: seq<int>): nat {
    if vs == [] then 0 else Nonzero(vs[..|vs| - 1]) + (if vs[|vs| - 1] != 0 then 1 else 0)
  }

  function Positive(vs: seq<int>): nat {
    if vs == [] then 0 else Positive(vs[..|vs| - 1]) + (if vs[|vs| - 1] > 0 then 1 else 0)
  }

  function Ties(vs: seq<int>): nat {
    if vs == [] then 0 else Ties(vs[..|vs| - 1]) + (if vs[|vs| - 1] == 0 then 1 else 0)
  }

  lemma {:induction false} TiesAreTheRest(vs: seq<int>)
    ensures Nonzero(vs) + Ties(vs) == |vs|
  {
    if vs != [] {
      TiesAreTheRest(vs[..|vs| - 1]);
    }
  }

  /** `paired_sign_test` */
  function SignTestOf(ms: seq<Measure>): Test {
    if !(forall i :: 0 <= i < |ms| ==> ms[i].Count?) then InvalidMeasurement
    else
      var vs := Values(ms);
      var n, k := Nonzero(vs), Positive(vs);
      if n == 0 then NoNonzeroPairs(Ties(vs)) else Computed(n, k, Ties(vs), Tail(n, k), Pow2(n))
  }

  lemma {:induction false} PositiveAtMostNonzero(vs: seq<int>)
    ensures Positive(vs) <= Nonzero(vs) <= |vs|
  {
    if vs != [] {
      PositiveAtMostNonzero(vs[..|vs| - 1]);
    }
  }

  /** The reported p-value is a probability: positive, at most one, and one only when no
      pair improved; its numerator counts the sign vectors at least as favourable. */
  lemma SignTestIsExact(ms: seq<Measure>)
    requires SignTestOf(ms).Computed?
    ensures var t := SignTestOf(ms);
            0 < t.numerator <= t.denominator && (t.numerator == t.denominator <==> t.k == 0)
            && t.k <= t.n && t.n + t.ties == |ms|
            && t.numerator == |AtLeast(t.n, t.k)| && t.denominator == |AtLeast(t.n, 0)|
  {
    var t := SignTestOf(ms);
    PositiveAtMostNonzero(Values(ms));
    TiesAreTheRest(Values(ms));
    TailBounds(t.n, t.k);
    TailCounts(t.n, t.k);
    TailCounts(t.n, 0);
    TailAll(t.n);
  }

  lemma {:induction false} CountsAdd(a: seq<int>, b: seq<int>)
    ensures Nonzero(a + b) == Nonzero(a) + Nonzero(b)
    ensures Positive(a + b) == Positive(a) + Positive(b)
    decreases |b|
  {
    if b == [] {
      assert a + b == a;
    } else {
      var b' := b[..|b| - 1];
      CountsAdd(a, b');
      assert (a + b)[..|a + b| - 1] == a + b';
    }
  }

  /** The last element of one sequence, found in a permutation of it. */
  lemma FindLast(a: seq<int>, b: seq<int>) returns (pre: seq<int>, post: seq<int>)
    requires multiset(a) == multiset(b) && a != []
    ensures a == a[..|a| - 1] + [a[|a| - 1]] && b == pre + [a[|a| - 1]] + post
    ensures multiset(a[..|a| - 1]) == multiset(pre + post)
  {
    var x := a[|a| - 1];
    assert x in multiset(b);
    var i :| 0 <= i < |b| && b[i] == x;
    pre, post := b[..i], b[i + 1..];
    assert a == a[..|a| - 1] + [x];
    assert b == pre + [x] + post;
    assert multiset(pre + post) == multiset(b) - multiset{x};
  }

  lemma {:induction false} CountsPermute(a: seq<int>, b: seq<int>)
    requires multiset(a) == multiset(b)
    ensures Nonzero(a) == Nonzero(b) && Positive(a) == Positive(b)
    decreases |a|
  {
    assert |multiset(a)| == |a| && |multiset(b)| == |b|;
    if a != [] {
      hide Nonzero, Positive;
      var pre, post := FindLast(a, b);
      CountsPermute(a[..|a| - 1], pre + post);
      CountsAdd(pre + [a[|a| - 1]], post);
      CountsAdd(pre, [a[|a| - 1]]);
      CountsAdd(pre, post);
      CountsAdd(a[..|a| - 1], [a[|a| - 1]]);
    }
  }

  /** The result does not depend on the order of the differences. */
  lemma SignTestPermutes(a: seq<Measure>, b: seq<Measure>)
    requires forall m :: m in a || m in b ==> m.Count?
    requires multiset(Values(a)) == multiset(Values(b))
    ensures SignTestOf(a) == SignTestOf(b)
  {
    CountsPermute(Values(a), Values(b));
    TiesAreTheRest(Values(a));
    TiesAreTheRest(Values(b));
    assert |multiset(Values(a))| == |a| && |multiset(Values(b))| == |b|;
  }

  lemma ValuesAround(a: seq<Measure>, b: seq<Measure>)
    requires forall m :: m in a + b ==> m.Count?
    ensures forall m :: m in a ==> m.Count?
    ensures forall m :: m in b ==> m.Count?
    ensures forall m :: m in a + [Count(0)] + b ==> m.Count?
    ensures Values(a + [Count(0)] + b) == Values(a) + [0] + Values(b) && Values(a + b) == Values(a) + Values(b)
  {
    assert forall m :: m in a ==> m in a + b;
    assert forall m :: m in b ==> m in a + b;
  }

  lemma CountsWithTie(a: seq<int>, b: seq<int>)
    ensures Nonzero(a + [0] + b) == Nonzero(a + b) && Positive(a + [0] + b) == Positive(a + b)
    ensures Ties(a + [0] + b) == Ties(a + b) + 1
  {
    CountsAdd(a + [0], b);
    CountsAdd(a, [0]);
    CountsAdd(a, b);
    TiesAreTheRest(a + [0] + b);
    TiesAreTheRest(a + b);
  }

  /** Ties change nothing but the reported tie count, wherever they stand. */
  lemma SignTestIgnoresTies(a: seq<Measure>, b: seq<Measure>)
    requires forall m :: m in a + b ==> m.Count?
    ensures var with, without := SignTestOf(a + [Count(0)] + b), SignTestOf(a + b);
            match without
            case Computed(n, k, ties, num, den) => with == Computed(n, k, ties + 1, num, den)
            case NoNonzeroPairs(ties) => with == NoNonzeroPairs(ties + 1)
            case InvalidMeasurement => false
  {
    ValuesAround(a, b);
    CountsWithTie(Values(a), Values(b));
    hide Tail, Pow2, Values, Nonzero, Positive, Ties;
  }

  // ---- raising a difference never raises the p-value ------------------------------------------

  /** `rational_at_most`: p <= alpha by cross multiplication. */
  predicate RationalAtMost(num: int, den: int, alphaNum: int, alphaDen: int) {
    num * alphaDen <= alphaNum * den
  }

  predicate SignificantAt(n: nat, k: nat, alphaNum: int, alphaDen: int) {
    RationalAtMost(Tail(n, k), Pow2(n), alphaNum, alphaDen)
  }

  /** A losing pair becoming a tie halves the denominator and at least halves the tail. */
  lemma LossToTie(n: nat, k: nat)
    ensures 2 * Tail(n, k) <= Tail(n + 1, k)
  {
    if k == 0 {
      TailAll(n);
      TailAll(n + 1);
    } else {
      TailPascal(n + 1, k);
      TailShrinks(n, k - 1, k);
    }
  }

  /** A tie becoming a win doubles the denominator and at most doubles the tail. */
  lemma TieToWin(n: nat, k: nat)
    ensures Tail(n + 1, k + 1) <= 2 * Tail(n, k)
  {
    TailPascal(n + 1, k + 1);
    TailShrinks(n, k, k + 1);
  }

  lemma ScaleDown(small: nat, big: nat, alphaNum: nat, alphaDen: nat, pow: nat)
    requires 2 * small <= big && big * alphaDen <= alphaNum * (2 * pow)
    ensures small * alphaDen <= alphaNum * pow
  {
    assert (2 * small) * alphaDen <= big * alphaDen;
    assert 2 * (small * alphaDen) == (2 * small) * alphaDen;
    assert alphaNum * (2 * pow) == 2 * (alphaNum * pow);
  }

  lemma ScaleUp(big: nat, small: nat, alphaNum: nat, alphaDen: nat, pow: nat)
    requires big <= 2 * small && small * alphaDen <= alphaNum * pow
    ensures big * alphaDen <= alphaNum * (2 * pow)
  {
    assert big * alphaDen <= (2 * small) * alphaDen;
    assert 2 * (small * alphaDen) == (2 * small) * alphaDen;
    assert alphaNum * (2 * pow) == 2 * (alphaNum * pow);
  }

  lemma ScaleSame(small: nat, big: nat, alphaDen: nat)
    requires small <= big
    ensures small * alphaDen <= big * alphaDen
  {
  }

  function Sign(v: int): nat { if v != 0 then 1 else 0 }

  function Win(v: int): nat { if v > 0 then 1 else 0 }

  lemma RaiseOne(n: nat, k: nat, x: int, y: int, alphaNum: nat, alphaDen: nat)
    requires x <= y && SignificantAt(n + Sign(x), k + Win(x), alphaNum, alphaDen)
    ensures SignificantAt(n + Sign(y), k + Win(y), alphaNum, alphaDen)
  {
    if x < 0 && y == 0 {
      LossToTie(n, k);
      ScaleDown(Tail(n, k), Tail(n + 1, k), alphaNum, alphaDen, Pow2(n));
    } else if x == 0 && y > 0 {
      TieToWin(n, k);
      ScaleUp(Tail(n + 1, k + 1), Tail(n, k), alphaNum, alphaDen, Pow2(n));
    } else if x < 0 && y > 0 {
      TailShrinks(n + 1, k, k + 1);
      ScaleSame(Tail(n + 1, k + 1), Tail(n + 1, k), alphaDen);
    }
  }

  ghost predicate Below(a: seq<int>, b: seq<int>) {
    |a| == |b| && forall i :: 0 <= i < |a| ==> a[i] <= b[i]
  }

  /** Replacing one difference by a larger one keeps significance. */
  lemma RaiseAt(pre: seq<int>, x: int, y: int, post: seq<int>, alphaNum: nat, alphaDen: nat)
    requires x <= y && SignificantAt(Nonzero(pre + [x] + post), Positive(pre + [x] + post), alphaNum, alphaDen)
    ensures SignificantAt(Nonzero(pre + [y] + post), Positive(pre + [y] + post), alphaNum, alphaDen)
  {
    hide Nonzero, Positive, SignificantAt, Sign, Win;
    CountsAround(pre, x, post);
    CountsAround(pre, y, post);
    RaiseOne(Nonzero(pre) + Nonzero(post), Positive(pre) + Positive(post), x, y, alphaNum, alphaDen);
  }

  /** Replacing the first `i` differences by larger ones keeps significance. */
  lemma {:induction false} RaisePrefix(a: seq<int>, b: seq<int>, i: nat, alphaNum: nat, alphaDen: nat)
    requires Below(a, b) && i <= |a|
    requires SignificantAt(Nonzero(a), Positive(a), alphaNum, alphaDen)
    ensures SignificantAt(Nonzero(b[..i] + a[i..]), Positive(b[..i] + a[i..]), alphaNum, alphaDen)
  {
    hide Nonzero, Positive, SignificantAt;
    if i == 0 {
      assert b[..0] + a[0..] == a;
    } else {
      RaisePrefix(a, b, i - 1, alphaNum, alphaDen);
      AroundPlace(a, b, i);
      RaiseAt(b[..i - 1], a[i - 1], b[i - 1], a[i..], alphaNum, alphaDen);
    }
  }

  lemma AroundPlace(a: seq<int>, b: seq<int>, i: nat)
    requires 0 < i <= |a| == |b|
    ensures b[..i - 1] + a[i - 1..] == b[..i - 1] + [a[i - 1]] + a[i..]
    ensures b[..i] + a[i..] == b[..i - 1] + [b[i - 1]] + a[i..]
  {
  }

  lemma CountsAround(pre: seq<int>, x: int, post: seq<int>)
    ensures Nonzero(pre + [x] + post) == Nonzero(pre) + Nonzero(post) + Sign(x)
    ensures Positive(pre + [x] + post) == Positive(pre) + Positive(post) + Win(x)
  {
    CountsAdd(pre + [x], post);
    CountsAdd(pre, [x]);
  }

  /** Below an alpha of one, significance needs at least one improved pair. */
  lemma SignificantHasWin(vs: seq<int>, alphaNum: nat, alphaDen: nat)
    requires alphaNum < alphaDen && SignificantAt(Nonzero(vs), Positive(vs), alphaNum, alphaDen)
    ensures Positive(vs) > 0 && Nonzero(vs) > 0
  {
    PositiveAtMostNonzero(vs);
    if Positive(vs) == 0 {
      TailAll(Nonzero(vs));
      ScaleStrict(Pow2(Nonzero(vs)), alphaNum, alphaDen);
    }
  }

  lemma ScaleStrict(pow: nat, alphaNum: nat, alphaDen: nat)
    requires pow > 0 && alphaNum < alphaDen
    ensures alphaNum * pow < pow * alphaDen
  {
  }

  // ---- the median through the sort --------------------------------------------------------------

  function Insert(x: int, s: seq<int>): seq<int> {
    if s == [] || x <= s[0] then [x] + s else [s[0]] + Insert(x, s[1..])
  }

  /** `sorted(values)` */
  function Sorted(s: seq<int>): (r: seq<int>)
    ensures |r| == |s|
    decreases |s|
  {
    if s == [] then [] else
      var r := Insert(s[|s| - 1], Sorted(s[..|s| - 1]));
      assert |r| == |s| by { InsertSize(s[|s| - 1], Sorted(s[..|s| - 1])); }
      r
  }

  lemma {:induction false} InsertSize(x: int, s: seq<int>)
    ensures |Insert(x, s)| == |s| + 1
    ensures multiset(Insert(x, s)) == multiset(s) + multiset{x}
  {
    if s != [] && x > s[0] {
      InsertSize(x, s[1..]);
      assert s == [s[0]] + s[1..];
    }
  }

  ghost predicate Ascending(s: seq<int>) {
    forall i, j :: 0 <= i < j < |s| ==> s[i] <= s[j]
  }

  lemma {:induction false} InsertAbove(x: int, s: seq<int>, low: int)
    requires low <= x && forall i :: 0 <= i < |s| ==> low <= s[i]
    ensures forall i :: 0 <= i < |Insert(x, s)| ==> low <= Insert(x, s)[i]
  {
    if s != [] && x > s[0] {
      InsertAbove(x, s[1..], low);
    }
  }

  lemma {:induction false} InsertAscends(x: int, s: seq<int>)
    requires Ascending(s)
    ensures Ascending(Insert(x, s))
  {
    if s != [] && x > s[0] {
      InsertAscends(x, s[1..]);
      InsertAbove(x, s[1..], s[0]);
    }
  }

  lemma {:induction false} SortedSorts(s: seq<int>)
    ensures Ascending(Sorted(s)) && multiset(Sorted(s)) == multiset(s)
    decreases |s|
  {
    if s != [] {
      var x, rest := s[|s| - 1], s[..|s| - 1];
      SortedSorts(rest);
      InsertAscends(x, Sorted(rest));
      InsertSize(x, Sorted(rest));
      assert s == rest + [x];
    }
  }

  /** How many entries are at most `t`. */
  function AtMost(s: seq<int>, t: int): nat {
    if s == [] then 0 else AtMost(s[..|s| - 1], t) + (if s[|s| - 1] <= t then 1 else 0)
  }

  lemma {:induction false} AtMostAdds(a: seq<int>, b: seq<int>, t: int)
    ensures AtMost(a + b, t) == AtMost(a, t) + AtMost(b, t)
    decreases |b|
  {
    if b == [] {
      assert a + b == a;
    } else {
      AtMostAdds(a, b[..|b| - 1], t);
      assert (a + b)[..|a + b| - 1] == a + b[..|b| - 1];
    }
  }

  lemma {:induction false} AtMostInsert(x: int, s: seq<int>, t: int)
    ensures AtMost(Insert(x, s), t) == AtMost(s, t) + (if x <= t then 1 else 0)
  {
    AtMostAdds([x], s, t);
    if s != [] && x > s[0] {
      AtMostInsert(x, s[1..], t);
      assert s == [s[0]] + s[1..];
      AtMostAdds([s[0]], s[1..], t);
      AtMostAdds([s[0]], Insert(x, s[1..]), t);
    }
  }

  lemma {:induction false} AtMostSorted(s: seq<int>, t: int)
    ensures AtMost(Sorted(s), t) == AtMost(s, t)
    decreases |s|
  {
    if s != [] {
      AtMostSorted(s[..|s| - 1], t);
      AtMostInsert(s[|s| - 1], Sorted(s[..|s| - 1]), t);
    }
  }

  /** An order statistic read as a count. */
  lemma {:induction false} OrderStatistic(s: seq<int>, i: nat, t: int)
    requires Ascending(s) && i < |s|
    ensures s[i] <= t <==> AtMost(s, t) > i
    decreases |s|
  {
    var rest, last := s[..|s| - 1], s[|s| - 1];
    AtMostBound(rest, t);
    if i < |rest| {
      OrderStatistic(rest, i, t);
      assert s[i] <= last;
    } else if last <= t {
      AllAtMost(rest, t);
    }
  }

  lemma {:induction false} AtMostBound(s: seq<int>, t: int)
    ensures AtMost(s, t) <= |s|
  {
    if s != [] {
      AtMostBound(s[..|s| - 1], t);
    }
  }

  lemma {:induction false} AllAtMost(s: seq<int>, t: int)
    requires forall i :: 0 <= i < |s| ==> s[i] <= t
    ensures AtMost(s, t) == |s|
  {
    if s != [] {
      AllAtMost(s[..|s| - 1], t);
    }
  }

  lemma {:induction false} AtMostFalls(a: seq<int>, b: seq<int>, t: int)
    requires Below(a, b)
    ensures AtMost(b, t) <= AtMost(a, t)
    decreases |a|
  {
    if a != [] {
      AtMostFalls(a[..|a| - 1], b[..|b| - 1], t);
    }
  }

  /** Sorting keeps a pointwise order. */
  lemma SortedRises(a: seq<int>, b: seq<int>)
    requires Below(a, b)
    ensures Below(Sorted(a), Sorted(b))
  {
    SortedSorts(a);
    SortedSorts(b);
    forall i | 0 <= i < |a|
      ensures Sorted(a)[i] <= Sorted(b)[i]
    {
      var t := Sorted(b)[i];
      OrderStatistic(Sorted(b), i, t);
      AtMostSorted(a, t);
      AtMostSorted(b, t);
      AtMostFalls(a, b, t);
      OrderStatistic(Sorted(a), i, t);
    }
  }

  /** The middle entry, or the floored mean of the two middle entries. */
  function Median(vs: seq<int>): int
    requires vs != []
  {
    var ordered := Sorted(vs);
    var mid := |ordered| / 2;
    if |ordered| % 2 == 1 then ordered[mid] else (ordered[mid - 1] + ordered[mid]) / 2
  }

  lemma MedianRises(a: seq<int>, b: seq<int>)
    requires Below(a, b) && a != []
    ensures Median(a) <= Median(b)
  {
    SortedRises(a, b);
  }

  // ---- the paired assessment -------------------------------------------------------------------

  /** The parts of a frozen protocol the assessment reads. */
  datatype Protocol = Protocol(paired: bool, alpha: Option<(int, int)>, repetitions: nat,
                               thresholds: map<string, int>, objectives: nat)

  /** What freezing a paired protocol guarantees. */
  predicate Frozen(p: Protocol) {
    && p.paired && p.alpha.Some? && 0 < p.alpha.value.0 < p.alpha.value.1
    && p.objectives > 0 && p.repetitions >= 1
  }

  datatype Outcome =
    | ProtocolRefused
    | Insufficient(reason: string)
    | Refused(reason: string)
    | Supported(n: nat, k: nat, ties: nat, median: int)
    | Inconclusive(notSignificant: bool, belowThreshold: bool)

  /** The Bonferroni divisor. */
  function Divisor(p: Protocol): nat {
    if p.objectives < 1 then 1 else p.objectives
  }

  /** `assess_paired`; a metric without a threshold is a lookup failure in the original. */
  function AssessPaired(p: Protocol, differences: seq<Measure>, metric: string): Outcome
    requires metric in p.thresholds
  {
    if !p.paired || p.alpha.None? then ProtocolRefused
    else if |differences| != p.repetitions then Insufficient("scheduled_units_incomplete")
    else
      match SignTestOf(differences)
      case InvalidMeasurement => Refused("invalid_measurement")
      case NoNonzeroPairs(_) => Insufficient("no_nonzero_pairs")
      case Computed(n, k, ties, num, den) =>
        var median := Median(Values(differences));
        var significant := RationalAtMost(num, den, p.alpha.value.0, p.alpha.value.1 * Divisor(p));
        var practical := median >= p.thresholds[metric];
        if significant && practical then Supported(n, k, ties, median) else Inconclusive(!significant, !practical)
  }

  lemma DivisorKeepsBelowOne(p: Protocol)
    requires Frozen(p)
    ensures p.alpha.value.0 < p.alpha.value.1 * Divisor(p)
  {
    assert p.alpha.value.1 * Divisor(p) >= p.alpha.value.1 by {
      ScaleSame(1, Divisor(p), p.alpha.value.1);
    }
  }

  /** Measurements of the same units, each at least as favourable as before. */
  ghost predicate AtLeastAsGood(d: seq<Measure>, d': seq<Measure>) {
    && |d| == |d'|
    && forall i :: 0 <= i < |d| ==> d[i].Count? && d'[i].Count? && d[i].value <= d'[i].value
  }

  /** Raising any of the paired differences, through ties and sign changes alike, never turns
      a supported candidate into anything else. */
  lemma AssessmentIsMonotone(p: Protocol, d: seq<Measure>, d': seq<Measure>, metric: string)
    requires Frozen(p) && metric in p.thresholds && AtLeastAsGood(d, d')
    requires AssessPaired(p, d, metric).Supported?
    ensures AssessPaired(p, d', metric).Supported?
  {
    var a, b := Values(d), Values(d');
    var num, den := p.alpha.value.0, p.alpha.value.1 * Divisor(p);
    assert Below(a, b);
    RaisePrefix(a, b, |a|, num, den);
    assert b[..|a|] + a[|a|..] == b;
    DivisorKeepsBelowOne(p);
    SignificantHasWin(b, num, den);
    MedianRises(a, b);
  }

  /** A supported candidate won at least one pair. */
  lemma SupportedHasWin(p: Protocol, d: seq<Measure>, metric: string)
    requires Frozen(p) && metric in p.thresholds && AssessPaired(p, d, metric).Supported?
    ensures AssessPaired(p, d, metric).k > 0
  {
    DivisorKeepsBelowOne(p);
    SignificantHasWin(Values(d), p.alpha.value.0, p.alpha.value.1 * Divisor(p));
  }

  /** The outcome does not depend on the order the units were run in. */
  lemma AssessmentPermutes(p: Protocol, d: seq<Measure>, d': seq<Measure>, metric: string)
    requires metric in p.thresholds
    requires forall m :: m in d || m in d' ==> m.Count?
    requires multiset(Values(d)) == multiset(Values(d'))
    ensures AssessPaired(p, d, metric) == AssessPaired(p, d', metric)
  {
    assert |multiset(Values(d))| == |d| && |multiset(Values(d'))| == |d'|;
    SignTestPermutes(d, d');
    SortedPermutes(Values(d), Values(d'));
  }

  lemma SortedPermutes(a: seq<int>, b: seq<int>)
    requires multiset(a) == multiset(b)
    ensures Sorted(a) == Sorted(b)
  {
    SortedSorts(a);
    SortedSorts(b);
    assert |multiset(a)| == |a| && |multiset(b)| == |b|;
    forall i | 0 <= i < |a|
      ensures Sorted(a)[i] == Sorted(b)[i]
    {
      SameOrderStatistic(a, b, i, Sorted(a)[i]);
      SameOrderStatistic(b, a, i, Sorted(b)[i]);
    }
  }

  lemma SameOrderStatistic(a: seq<int>, b: seq<int>, i: nat, t: int)
    requires multiset(a) == multiset(b) && i < |a| == |b| && t == Sorted(a)[i]
    ensures Sorted(b)[i] <= t
  {
    SortedSorts(a);
    SortedSorts(b);
    AtMostPermutes(a, b, t);
    AtMostSorted(a, t);
    AtMostSorted(b, t);
    OrderStatistic(Sorted(a), i, t);
    OrderStatistic(Sorted(b), i, t);
  }

  lemma {:induction false} AtMostPermutes(a: seq<int>, b: seq<int>, t: int)
    requires multiset(a) == multiset(b)
    ensures AtMost(a, t) == AtMost(b, t)
    decreases |a|
  {
    assert |multiset(a)| == |a| && |multiset(b)| == |b|;
    if a != [] {
      hide AtMost;
      var pre, post := FindLast(a, b);
      AtMostPermutes(a[..|a| - 1], pre + post, t);
      AtMostAdds(pre + [a[|a| - 1]], post, t);
      AtMostAdds(pre, [a[|a| - 1]], t);
      AtMostAdds(pre, post, t);
      AtMostAdds(a[..|a| - 1], [a[|a| - 1]], t);
    }
  }
}
