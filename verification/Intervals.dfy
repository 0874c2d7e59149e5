/** Half-open byte intervals: union into canonical form, intersection and subtraction, each
    proved to denote the set operation it is named after. */
module Intervals {
  import opened Wrappers

  datatype Interval = Interval(lo: int, hi: int)

  predicate Covers(v: Interval, b: int) {
    v.lo <= b < v.hi
  }

  /** The byte positions a list of intervals covers; reversed and empty ones cover none. */
  ghost function Bytes(s: seq<Interval>): set<int> {
    set i, b | 0 <= i < |s| && s[i].lo <= b < s[i].hi && Covers(s[i], b) :: b
  }

  ghost function Span(lo: int, hi: int): set<int> {
    set b | lo <= b < hi && Covers(Interval(lo, hi), b)
  }

  /** Nonempty, ascending and separated: no two intervals touch. */
  ghost predicate Canonical(s: seq<Interval>) {
    && (forall i :: 0 <= i < |s| ==> s[i].lo < s[i].hi)
    && (forall i, j :: 0 <= i < j < |s| ==> s[i].hi < s[j].lo)
  }

  lemma BytesAdd(a: seq<Interval>, b: seq<Interval>)
    ensures Bytes(a + b) == Bytes(a) + Bytes(b)
  {
    var c := a + b;
    forall x | x in Bytes(a)
      ensures x in Bytes(c)
    {
      var i :| 0 <= i < |a| && Covers(a[i], x);
      assert Covers(c[i], x);
    }
    forall x | x in Bytes(b)
      ensures x in Bytes(c)
    {
      var i :| 0 <= i < |b| && Covers(b[i], x);
      assert Covers(c[|a| + i], x);
    }
  }

  lemma BytesOne(v: Interval)
    ensures Bytes([v]) == Span(v.lo, v.hi)
  {
    forall b | b in Span(v.lo, v.hi)
      ensures b in Bytes([v])
    {
      assert Covers([v][0], b);
    }
  }

  lemma BytesPush(a: seq<Interval>, v: Interval)
    ensures Bytes(a + [v]) == Bytes(a) + Span(v.lo, v.hi)
  {
    BytesAdd(a, [v]);
    BytesOne(v);
  }

  lemma BytesPrefix(s: seq<Interval>, i: nat)
    requires i < |s|
    ensures Bytes(s[..i + 1]) == Bytes(s[..i]) + Span(s[i].lo, s[i].hi)
  {
    assert s[..i + 1] == s[..i] + [s[i]];
    BytesPush(s[..i], s[i]);
  }

  // ---- the canonical form is unique ------------------------------------------------------------

  lemma CanonicalTail(s: seq<Interval>)
    requires Canonical(s) && s != []
    ensures Canonical(s[1..]) && Bytes(s) == Span(s[0].lo, s[0].hi) + Bytes(s[1..])
    ensures forall b :: b in Bytes(s[1..]) ==> b > s[0].hi
  {
    assert s == [s[0]] + s[1..];
    BytesAdd([s[0]], s[1..]);
    BytesOne(s[0]);
  }

  /** The first canonical interval is the first maximal run of the bytes. */
  lemma FirstRun(a: seq<Interval>, b: seq<Interval>)
    requires Canonical(a) && Canonical(b) && a != [] && b != [] && Bytes(a) == Bytes(b)
    ensures a[0] == b[0]
  {
    CanonicalTail(a);
    CanonicalTail(b);
    FirstByte(a);
    FirstByte(b);
    assert a[0].hi !in Bytes(a) && b[0].hi !in Bytes(b);
    assert !(b[0].lo <= a[0].hi < b[0].hi) && !(a[0].lo <= b[0].hi < a[0].hi);
  }

  lemma FirstByte(s: seq<Interval>)
    requires Canonical(s) && s != []
    ensures s[0].lo in Bytes(s) && forall b :: b in Bytes(s) ==> s[0].lo <= b
  {
    CanonicalTail(s);
    assert Covers(s[0], s[0].lo);
  }

  lemma EmptyIff(s: seq<Interval>)
    requires Canonical(s)
    ensures s == [] <==> Bytes(s) == {}
  {
    if s != [] {
      FirstByte(s);
    }
  }

  /** Two canonical lists covering the same bytes are the same list. */
  lemma {:induction false} CanonicalUnique(a: seq<Interval>, b: seq<Interval>)
    requires Canonical(a) && Canonical(b) && Bytes(a) == Bytes(b)
    ensures a == b
    decreases |a|
  {
    if a == [] || b == [] {
      EmptyIff(a);
      EmptyIff(b);
    } else {
      FirstRun(a, b);
      CanonicalTail(a);
      CanonicalTail(b);
      assert Bytes(a[1..]) == Bytes(a) - Span(a[0].lo, a[0].hi);
      assert Bytes(b[1..]) == Bytes(b) - Span(b[0].lo, b[0].hi);
      CanonicalUnique(a[1..], b[1..]);
      assert a == [a[0]] + a[1..] && b == [b[0]] + b[1..];
    }
  }

  // ---- measure ---------------------------------------------------------------------------------

  /** `_measure` */
  function Measure(s: seq<Interval>): int {
    if s == [] then 0 else (s[0].hi - s[0].lo) + Measure(s[1..])
  }

  lemma {:induction false} SpanSize(lo: int, hi: int)
    ensures |Span(lo, hi)| == if lo < hi then hi - lo else 0
    decreases hi - lo
  {
    if lo < hi {
      SpanSize(lo, hi - 1);
      assert Span(lo, hi) == Span(lo, hi - 1) + {hi - 1};
    } else {
      assert Span(lo, hi) == {};
    }
  }

  /** Measured on a canonical list, the measure is the number of bytes covered. */
  lemma {:induction false} MeasureCounts(s: seq<Interval>)
    requires Canonical(s)
    ensures Measure(s) == |Bytes(s)|
  {
    if s == [] {
      assert Bytes(s) == {};
    } else {
      CanonicalTail(s);
      MeasureCounts(s[1..]);
      SpanSize(s[0].lo, s[0].hi);
      assert Span(s[0].lo, s[0].hi) !! Bytes(s[1..]);
    }
  }

  // ---- sorting ---------------------------------------------------------------------------------

  predicate Before(a: Interval, b: Interval) {
    a.lo < b.lo || (a.lo == b.lo && a.hi <= b.hi)
  }

  function Insert(v: Interval, s: seq<Interval>): seq<Interval> {
    if s == [] || Before(v, s[0]) then [v] + s else [s[0]] + Insert(v, s[1..])
  }

  /** `sorted(intervals)`: the order of pairs. */
  function Sorted(s: seq<Interval>): seq<Interval> {
    if s == [] then [] else Insert(s[0], Sorted(s[1..]))
  }

  ghost predicate Ascending(s: seq<Interval>) {
    forall i, j :: 0 <= i < j < |s| ==> s[i].lo <= s[j].lo
  }

  lemma {:induction false} InsertAbove(v: Interval, s: seq<Interval>, lo: int)
    requires lo <= v.lo && forall i :: 0 <= i < |s| ==> lo <= s[i].lo
    ensures forall i :: 0 <= i < |Insert(v, s)| ==> lo <= Insert(v, s)[i].lo
  {
    if s != [] && !Before(v, s[0]) {
      InsertAbove(v, s[1..], lo);
    }
  }

  lemma {:induction false} InsertAscends(v: Interval, s: seq<Interval>)
    requires Ascending(s)
    ensures Ascending(Insert(v, s))
  {
    if s != [] && !Before(v, s[0]) {
      InsertAscends(v, s[1..]);
      InsertAbove(v, s[1..], s[0].lo);
    }
  }

  lemma {:induction false} InsertKeeps(v: Interval, s: seq<Interval>)
    ensures Bytes(Insert(v, s)) == Bytes([v]) + Bytes(s)
  {
    hide Bytes;
    BytesAdd([v], s);
    if s != [] && !Before(v, s[0]) {
      InsertKeeps(v, s[1..]);
      assert s == [s[0]] + s[1..];
      BytesAdd([s[0]], s[1..]);
      BytesAdd([s[0]], Insert(v, s[1..]));
    }
  }

  lemma {:induction false} SortedKeeps(s: seq<Interval>)
    ensures Ascending(Sorted(s)) && Bytes(Sorted(s)) == Bytes(s)
  {
    if s != [] {
      SortedKeeps(s[1..]);
      InsertAscends(s[0], Sorted(s[1..]));
      InsertKeeps(s[0], Sorted(s[1..]));
      assert s == [s[0]] + s[1..];
      BytesAdd([s[0]], s[1..]);
    }
  }

  // ---- the operations ----------------------------------------------------------------------------

  /** Growing the last interval of a canonical list up to `hi`. */
  lemma GrowLast(merged: seq<Interval>, v: Interval)
    requires Canonical(merged) && merged != [] && v.lo < v.hi
    requires merged[|merged| - 1].lo <= v.lo <= merged[|merged| - 1].hi
    ensures var last := merged[|merged| - 1];
            var grown := merged[..|merged| - 1] + [Interval(last.lo, Max(last.hi, v.hi))];
            Canonical(grown) && Bytes(grown) == Bytes(merged) + Span(v.lo, v.hi)
  {
    var last := merged[|merged| - 1];
    var before := merged[..|merged| - 1];
    assert merged == before + [last];
    BytesPush(before, last);
    BytesPush(before, Interval(last.lo, Max(last.hi, v.hi)));
    assert Span(last.lo, Max(last.hi, v.hi)) == Span(last.lo, last.hi) + Span(v.lo, v.hi);
  }

  /** `_union`: the canonical list of the same bytes. */
  method Union(intervals: seq<Interval>) returns (merged: seq<Interval>)
    ensures Canonical(merged) && Bytes(merged) == Bytes(intervals)
  {
    hide Bytes;
    var rows := Sorted(intervals);
    SortedKeeps(intervals);
    merged := [];
    assert Bytes(rows[..0]) == Bytes([]);
    for i := 0 to |rows|
      invariant Canonical(merged) && Bytes(merged) == Bytes(rows[..i])
      invariant merged != [] && i < |rows| ==> merged[|merged| - 1].lo <= rows[i].lo
    {
      var v := rows[i];
      BytesPrefix(rows, i);
      if v.lo >= v.hi {
        assert Span(v.lo, v.hi) == {};
      } else if merged != [] && v.lo <= merged[|merged| - 1].hi {
        GrowLast(merged, v);
        merged := merged[..|merged| - 1] + [Interval(merged[|merged| - 1].lo, Max(merged[|merged| - 1].hi, v.hi))];
      } else {
        BytesPush(merged, v);
        merged := merged + [v];
      }
    }
    assert rows[..|rows|] == rows;
  }

  /** `_intersect`: over any two lists, overlapping, reversed and unordered alike. */
  method Intersect(a: seq<Interval>, b: seq<Interval>) returns (r: seq<Interval>)
    ensures Canonical(r) && Bytes(r) == Bytes(a) * Bytes(b)
  {
    hide Bytes;
    var out: seq<Interval> := [];
    NoBytes();
    assert a[..0] == [] && b[..0] == [];
    for i := 0 to |a|
      invariant Bytes(out) == Bytes(a[..i]) * Bytes(b)
    {
      ghost var before := Bytes(out);
      ghost var mine := Span(a[i].lo, a[i].hi);
      for j := 0 to |b|
        invariant Bytes(out) == before + mine * Bytes(b[..j])
      {
        var lo, hi := Max(a[i].lo, b[j].lo), Min(a[i].hi, b[j].hi);
        BytesPrefix(b, j);
        assert Span(lo, hi) == mine * Span(b[j].lo, b[j].hi);
        if lo < hi {
          BytesPush(out, Interval(lo, hi));
          out := out + [Interval(lo, hi)];
        }
      }
      assert b[..|b|] == b;
      BytesPrefix(a, i);
    }
    assert a[..|a|] == a;
    r := Union(out);
  }

  lemma NoBytes()
    ensures Bytes([]) == {}
  {
  }

  /** `_subtract`. Over a canonical second list, which is what every caller passes, it is set
      difference; over any list it keeps the difference and stays inside the first. */
  method Subtract(a: seq<Interval>, b: seq<Interval>) returns (r: seq<Interval>)
    ensures Canonical(r)
    ensures Canonical(b) ==> Bytes(r) == Bytes(a) - Bytes(b)
    ensures Bytes(a) - Bytes(b) <= Bytes(r) <= Bytes(a)
  {
    hide Bytes;
    var out: seq<Interval> := [];
    NoBytes();
    assert a[..0] == [];
    for i := 0 to |a|
      invariant Canonical(b) ==> Bytes(out) == Bytes(a[..i]) - Bytes(b)
      invariant Bytes(a[..i]) - Bytes(b) <= Bytes(out) <= Bytes(a[..i])
    {
      var piece := SubtractOne(a[i].lo, a[i].hi, b);
      BytesAdd(out, piece);
      BytesPrefix(a, i);
      out := out + piece;
    }
    assert a[..|a|] == a;
    r := Union(out);
  }

  lemma BytesPart(s: seq<Interval>, j: nat)
    requires j < |s|
    ensures Span(s[j].lo, s[j].hi) <= Bytes(s)
  {
    forall b | b in Span(s[j].lo, s[j].hi)
      ensures b in Bytes(s)
    {
      assert Covers(s[j], b);
    }
  }

  /** The cursor walk over one interval. */
  method SubtractOne(lo: int, hi: int, b: seq<Interval>) returns (out: seq<Interval>)
    ensures Canonical(b) ==> Bytes(out) == Span(lo, hi) - Bytes(b)
    ensures Span(lo, hi) - Bytes(b) <= Bytes(out) <= Span(lo, hi)
  {
    hide Bytes;
    out := [];
    var cursor := lo;
    NoBytes();
    assert b[..0] == [];
    for j := 0 to |b|
      invariant lo <= cursor
      invariant Bytes(out) <= Span(lo, hi)
      invariant Span(lo, Min(cursor, hi)) - Bytes(b) <= Bytes(out)
      invariant Canonical(b) ==> Bytes(out) == Span(lo, Min(cursor, hi)) - Bytes(b[..j])
      invariant Canonical(b) ==> Span(cursor, hi) !! Bytes(b[..j])
      invariant Canonical(b) && j < |b| ==> cursor == lo || cursor < b[j].lo
    {
      var v := b[j];
      BytesPrefix(b, j);
      if v.hi <= cursor || v.lo >= hi {
        assert Span(v.lo, v.hi) * Span(cursor, hi) == {};
        if Canonical(b) { assert Span(v.lo, v.hi) * Span(lo, Min(cursor, hi)) == {}; }
      } else {
        if v.lo > cursor {
          BytesPush(out, Interval(cursor, v.lo));
          out := out + [Interval(cursor, v.lo)];
        }
        assert Span(lo, Min(Max(cursor, v.hi), hi)) - Span(v.lo, v.hi)
               <= Span(lo, Min(cursor, hi)) + Span(cursor, v.lo);
        assert Span(v.lo, v.hi) <= Bytes(b) by { BytesPart(b, j); }
        cursor := Max(cursor, v.hi);
      }
    }
    assert b[..|b|] == b;
    if cursor < hi {
      BytesPush(out, Interval(cursor, hi));
      out := out + [Interval(cursor, hi)];
    }
  }
}
