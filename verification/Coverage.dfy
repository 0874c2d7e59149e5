/** Trace coverage: how many changed executable bytes an observer explained, how many only a
    proposal explains, and which are unexplained. Proved: the report is a function of the bytes
    the bindings cover and nothing else, and no byte is counted twice or lost. */
module Coverage {
  import opened Intervals

  datatype Binding = Binding(path: string, lo: int, hi: int)

  datatype Status = Unchanged | Modified | Added | Deleted

  /** What the registered classifier says of a file: no classifier for its language, a source
      it cannot tokenise, or the blank and comment lines it excludes. */
  datatype Classification = NoClassifier | NotTokenisable | Classified(excluded: seq<Interval>)

  /** One entry of the change map, with what the new tree holds at its path. */
  datatype FileRow = FileRow(path: string, status: Status, changedNew: seq<Interval>,
                             sourceHeld: bool, classification: Classification)

  datatype Counts = Counts(changed: int, observed: int, proposedOnly: int, unresolved: int, excluded: int)

  datatype GapReason = BlobUnavailable | SourceNotTokenisable | NothingRegistered

  datatype Report = Report(totals: Counts, unresolved: seq<Binding>, gaps: seq<(string, GapReason)>,
                           perFile: map<string, Counts>)

  /** The intervals bound at one path, in the order given. */
  function Bound(bs: seq<Binding>, path: string): seq<Interval> {
    if bs == [] then []
    else Bound(bs[..|bs| - 1], path)
         + (if bs[|bs| - 1].path == path then [Interval(bs[|bs| - 1].lo, bs[|bs| - 1].hi)] else [])
  }

  ghost function BoundBytes(bs: seq<Binding>, path: string): set<int> {
    Bytes(Bound(bs, path))
  }

  // ---- the byte sets of one file ----------------------------------------------------------------

  ghost function ExcludedBytes(f: FileRow): set<int> {
    if f.classification.Classified? then Bytes(f.changedNew) * Bytes(f.classification.excluded) else {}
  }

  ghost function ExecutableBytes(f: FileRow): set<int> {
    Bytes(f.changedNew) - ExcludedBytes(f)
  }

  ghost function ObservedBytes(f: FileRow, observed: seq<Binding>): set<int> {
    ExecutableBytes(f) * BoundBytes(observed, f.path)
  }

  ghost function ProposedOnlyBytes(f: FileRow, proposed: seq<Binding>, observed: seq<Binding>): set<int> {
    ExecutableBytes(f) * BoundBytes(proposed, f.path) - BoundBytes(observed, f.path)
  }

  ghost function UnresolvedBytes(f: FileRow, proposed: seq<Binding>, observed: seq<Binding>): set<int> {
    ExecutableBytes(f) - BoundBytes(observed, f.path) - BoundBytes(proposed, f.path)
  }

  ghost function CountsOf(f: FileRow, proposed: seq<Binding>, observed: seq<Binding>): Counts {
    Counts(|ExecutableBytes(f)|, |ObservedBytes(f, observed)|, |ProposedOnlyBytes(f, proposed, observed)|,
           |UnresolvedBytes(f, proposed, observed)|, |ExcludedBytes(f)|)
  }

  /** The one canonical list of a byte set. */
  ghost function CanonicalOf(s: set<int>): seq<Interval> {
    if exists r :: Canonical(r) && Bytes(r) == s then
      var r :| Canonical(r) && Bytes(r) == s; r
    else []
  }

  lemma IsCanonicalOf(r: seq<Interval>)
    requires Canonical(r)
    ensures r == CanonicalOf(Bytes(r))
  {
    CanonicalUnique(r, CanonicalOf(Bytes(r)));
  }

  /** Files the report skips: nothing changed in the new tree. */
  predicate Skipped(f: FileRow) {
    f.status == Unchanged || f.status == Deleted || f.changedNew == []
  }

  predicate Measured(f: FileRow) {
    !Skipped(f) && f.sourceHeld
  }

  function At(path: string, s: seq<Interval>): seq<Binding> {
    seq(|s|, i requires 0 <= i < |s| => Binding(path, s[i].lo, s[i].hi))
  }

  function GapOf(f: FileRow): seq<(string, GapReason)> {
    if !f.sourceHeld then [(f.path, BlobUnavailable)]
    else match f.classification
      case NoClassifier => [(f.path, NothingRegistered)]
      case NotTokenisable => [(f.path, SourceNotTokenisable)]
      case Classified(_) => []
  }

  function Plus(a: Counts, b: Counts): Counts {
    Counts(a.changed + b.changed, a.observed + b.observed, a.proposedOnly + b.proposedOnly,
           a.unresolved + b.unresolved, a.excluded + b.excluded)
  }

  /** The report as a function of the files and of the bytes each list of bindings covers. */
  ghost function ReportOf(files: seq<FileRow>, proposed: seq<Binding>, observed: seq<Binding>): Report {
    if files == [] then Report(Counts(0, 0, 0, 0, 0), [], [], map[])
    else
      var before := ReportOf(files[..|files| - 1], proposed, observed);
      var f := files[|files| - 1];
      if Skipped(f) then before
      else if !f.sourceHeld then before.(gaps := before.gaps + GapOf(f))
      else
        var counts := CountsOf(f, proposed, observed);
        Report(Plus(before.totals, counts),
               before.unresolved + At(f.path, CanonicalOf(UnresolvedBytes(f, proposed, observed))),
               before.gaps + GapOf(f), before.perFile[f.path := counts])
  }

  // ---- the report as computed ---------------------------------------------------------------------

  /** The accounting of one measured file. */
  method MeasureFile(f: FileRow, proposed: seq<Binding>, observed: seq<Binding>)
    returns (counts: Counts, rest: seq<Interval>)
    ensures counts == CountsOf(f, proposed, observed)
    ensures rest == CanonicalOf(UnresolvedBytes(f, proposed, observed))
  {
    hide Bytes, Canonical;
    var changed := Union(f.changedNew);
    var excluded: seq<Interval> := [];
    NoBytes();
    if f.classification.Classified? {
      excluded := Intersect(changed, f.classification.excluded);
    } else {
      NothingCanonical();
    }
    assert Bytes(excluded) == ExcludedBytes(f);
    var executable := Subtract(changed, excluded);
    assert Bytes(executable) == ExecutableBytes(f);
    var obs := Intersect(executable, Bound(observed, f.path));
    var reached := Intersect(executable, Bound(proposed, f.path));
    var propOnly := Subtract(reached, obs);
    assert Bytes(propOnly) == ProposedOnlyBytes(f, proposed, observed);
    var unobserved := Subtract(executable, obs);
    rest := Subtract(unobserved, propOnly);
    assert Bytes(rest) == UnresolvedBytes(f, proposed, observed);
    IsCanonicalOf(rest);
    MeasureCounts(executable);
    MeasureCounts(obs);
    MeasureCounts(propOnly);
    MeasureCounts(rest);
    MeasureCounts(excluded);
    counts := Counts(Measure(executable), Measure(obs), Measure(propOnly), Measure(rest), Measure(excluded));
  }

  lemma NothingCanonical()
    ensures Canonical([])
  {
  }

  /** `trace_coverage`, over the change map's files in path order. */
  method TraceCoverage(files: seq<FileRow>, proposed: seq<Binding>, observed: seq<Binding>) returns (r: Report)
    ensures r == ReportOf(files, proposed, observed)
  {
    hide CountsOf, CanonicalOf;
    r := Report(Counts(0, 0, 0, 0, 0), [], [], map[]);
    for i := 0 to |files|
      invariant r == ReportOf(files[..i], proposed, observed)
    {
      var f := files[i];
      assert files[..i + 1][..i] == files[..i];
      if !Skipped(f) {
        if !f.sourceHeld {
          r := r.(gaps := r.gaps + GapOf(f));
        } else {
          var counts, rest := MeasureFile(f, proposed, observed);
          r := Report(Plus(r.totals, counts), r.unresolved + At(f.path, rest), r.gaps + GapOf(f),
                      r.perFile[f.path := counts]);
        }
      }
    }
    assert files[..|files|] == files;
  }

  // ---- conservation ---------------------------------------------------------------------------------

  ghost predicate Conserves(c: Counts) {
    c.changed == c.observed + c.proposedOnly + c.unresolved
  }

  lemma Partitioned(whole: set<int>, o: set<int>, p: set<int>)
    ensures |whole| == |whole * o| + |whole * p - o| + |whole - o - p|
    ensures whole * o + (whole * p - o) + (whole - o - p) == whole
  {
    assert whole == whole * o + (whole * p - o) + (whole - o - p);
  }

  lemma LeftOut(whole: set<int>, excluded: set<int>)
    requires excluded <= whole
    ensures |whole| == |whole - excluded| + |excluded|
  {
    assert whole == (whole - excluded) + excluded;
  }

  /** No changed executable byte of a file is counted twice or dropped, and the excluded bytes
      are exactly what the denominator leaves out. */
  lemma FileConserves(f: FileRow, proposed: seq<Binding>, observed: seq<Binding>)
    ensures Conserves(CountsOf(f, proposed, observed))
    ensures |Bytes(f.changedNew)| == CountsOf(f, proposed, observed).changed + CountsOf(f, proposed, observed).excluded
    ensures ObservedBytes(f, observed) !! ProposedOnlyBytes(f, proposed, observed)
    ensures ObservedBytes(f, observed) + ProposedOnlyBytes(f, proposed, observed)
            + UnresolvedBytes(f, proposed, observed)
            == ExecutableBytes(f)
  {
    hide Bytes, BoundBytes;
    Partitioned(ExecutableBytes(f), BoundBytes(observed, f.path), BoundBytes(proposed, f.path));
    LeftOut(Bytes(f.changedNew), ExcludedBytes(f));
  }

  /** Changed bytes of the measured files, excluded ones included. */
  ghost function ChangedIn(files: seq<FileRow>): int {
    if files == [] then 0
    else ChangedIn(files[..|files| - 1])
         + (if Measured(files[|files| - 1]) then |Bytes(files[|files| - 1].changedNew)| else 0)
  }

  /** Every file of the report conserves its bytes, and so do the totals. */
  lemma {:induction false} ReportConserves(files: seq<FileRow>, proposed: seq<Binding>, observed: seq<Binding>)
    ensures var r := ReportOf(files, proposed, observed);
            Conserves(r.totals)
            && (forall p :: p in r.perFile ==> Conserves(r.perFile[p]))
            && r.totals.changed + r.totals.excluded == ChangedIn(files)
  {
    if files != [] {
      var f, before := files[|files| - 1], ReportOf(files[..|files| - 1], proposed, observed);
      ReportConserves(files[..|files| - 1], proposed, observed);
      FileConserves(f, proposed, observed);
      ReportStep(files, proposed, observed);
      hide ReportOf, CountsOf, Bytes;
    }
  }

  /** A measured file adds its counts to the totals and its row; any other leaves both alone. */
  lemma ReportStep(files: seq<FileRow>, proposed: seq<Binding>, observed: seq<Binding>)
    requires files != []
    ensures var f, before := files[|files| - 1], ReportOf(files[..|files| - 1], proposed, observed);
            var r := ReportOf(files, proposed, observed);
            if Measured(f)
            then r.totals == Plus(before.totals, CountsOf(f, proposed, observed))
                 && r.perFile == before.perFile[f.path := CountsOf(f, proposed, observed)]
            else r.totals == before.totals && r.perFile == before.perFile
  {
    hide CountsOf, UnresolvedBytes, CanonicalOf, GapOf, At;
  }

  // ---- canonical binding lists ------------------------------------------------------------------------

  /** Two binding lists that cover the same bytes of every path. */
  ghost predicate SameCover(a: seq<Binding>, b: seq<Binding>) {
    forall path :: BoundBytes(a, path) == BoundBytes(b, path)
  }

  /** Reordering, duplicating, splitting or overlapping bindings changes nothing: equal covers
      give equal reports, intervals and gaps included. */
  lemma {:induction false} SameCoverSameReport(files: seq<FileRow>, proposed: seq<Binding>, observed: seq<Binding>,
                                               proposed': seq<Binding>, observed': seq<Binding>)
    requires SameCover(proposed, proposed') && SameCover(observed, observed')
    ensures ReportOf(files, proposed, observed) == ReportOf(files, proposed', observed')
  {
    if files != [] {
      SameCoverSameReport(files[..|files| - 1], proposed, observed, proposed', observed');
      var f := files[|files| - 1];
      assert BoundBytes(proposed, f.path) == BoundBytes(proposed', f.path);
      assert BoundBytes(observed, f.path) == BoundBytes(observed', f.path);
    }
  }

  lemma {:induction false} BoundMembers(bs: seq<Binding>, path: string, x: int)
    ensures x in BoundBytes(bs, path) <==> exists b :: b in bs && b.path == path && b.lo <= x < b.hi
  {
    if bs == [] {
      NoBytes();
    } else {
      var last := bs[|bs| - 1];
      BoundMembers(bs[..|bs| - 1], path, x);
      assert bs == bs[..|bs| - 1] + [last];
      if last.path == path {
        BytesPush(Bound(bs[..|bs| - 1], path), Interval(last.lo, last.hi));
      } else {
        assert Bound(bs, path) == Bound(bs[..|bs| - 1], path);
      }
    }
  }

  /** In particular two lists with the same members, in any order and number, cover the same. */
  lemma SameMembersSameCover(a: seq<Binding>, b: seq<Binding>)
    requires forall x :: x in a <==> x in b
    ensures SameCover(a, b)
  {
    forall path
      ensures BoundBytes(a, path) == BoundBytes(b, path)
    {
      forall x
        ensures x in BoundBytes(a, path) <==> x in BoundBytes(b, path)
      {
        BoundMembers(a, path, x);
        BoundMembers(b, path, x);
      }
    }
  }

  /** Binding more never uncovers a byte: unresolved bytes only shrink, observed ones only grow. */
  lemma MoreObservedExplainsMore(f: FileRow, proposed: seq<Binding>, observed: seq<Binding>, more: seq<Binding>)
    ensures ObservedBytes(f, observed) <= ObservedBytes(f, observed + more)
    ensures UnresolvedBytes(f, proposed, observed + more) <= UnresolvedBytes(f, proposed, observed)
  {
    forall x | x in BoundBytes(observed, f.path)
      ensures x in BoundBytes(observed + more, f.path)
    {
      BoundMembers(observed, f.path, x);
      BoundMembers(observed + more, f.path, x);
      var b :| b in observed && b.path == f.path && b.lo <= x < b.hi;
      assert b in observed + more;
    }
  }
}
